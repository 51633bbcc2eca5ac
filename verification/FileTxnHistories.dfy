/** Histories of the file transaction in which a recovery is itself cut short: exactly which
    publications can be left half undone for good, and when the reported action is true. */
module FileTxnHistories {
  import opened FileTxn
  import opened SeqLaws
  import opened Wrappers

  // ----- crash points of a publication and of a rollback -----------------------------------

  lemma {:induction false} RenamePrefix(d: Disk, tx: Txn, i: nat, p: nat)
    requires Under(d, tx, 0, i) && BackedUp(d, tx, |tx.before|) && i + p <= |tx.after|
    requires forall j :: i <= j < |d.slots| ==> d.slots[j].temp == Some(tx.after[j])
    ensures p <= |RenameOps(|tx.after|, i)|
    ensures Under(ExecAll(d, RenameOps(|tx.after|, i)[..p]), tx, 0, i + p)
    decreases p
  {
    if p > 0 {
      var e := Exec(d, Rename(i));
      assert Under(e, tx, 0, i + 1);
      RenamePrefix(e, tx, i + 1, p - 1);
      var ops := RenameOps(|tx.after|, i);
      assert ops[..p][0] == Rename(i) && ops[..p][1..] == RenameOps(|tx.after|, i + 1)[..p - 1];
    }
  }

  lemma TakeConcat<T>(a: seq<T>, b: seq<T>, k: nat)
    requires k <= |b|
    ensures (a + b)[..|a| + k] == a + b[..k]
  {
  }

  /** The operations of a publication up to its `p`-th rename. */
  function UpToRename(d: Disk, staged: seq<Bytes>, p: nat): seq<Op>
    requires p <= |RenameOps(|staged|, 0)|
  {
    StageOps(staged, 0) + ([WriteJournal(Had(d))] + (BackupOps(Had(d), 0) + RenameOps(|staged|, 0)[..p]))
  }

  lemma UpToRenameIsPrefix(d: Disk, staged: seq<Bytes>, p: nat)
    requires p <= |RenameOps(|staged|, 0)|
    ensures var ops := UpToRename(d, staged, p);
            |ops| <= |PublishOps(d, staged)| && PublishOps(d, staged)[..|ops|] == ops
  {
    var s, j, b, r := StageOps(staged, 0), [WriteJournal(Had(d))], BackupOps(Had(d), 0), RenameOps(|staged|, 0);
    var rf := r + FinalizeOps(Had(d), 0);
    assert rf[..p] == r[..p];
    TakeConcat(b, rf, p);
    TakeConcat(j, b + rf, |b| + p);
    TakeConcat(s, j + (b + rf), 1 + |b| + p);
  }

  /** Some crash point of every publication has made exactly the first `p` renames. */
  lemma RenamesReached(d: Disk, tx: Txn, p: nat) returns (k: nat)
    requires TxnOk(tx) && Quiet(d, tx) && p <= |tx.after| && Publishing(tx)
    ensures k <= |PublishOps(d, tx.after)| && Under(CutAt(d, PublishOps(d, tx.after), k), tx, 0, p)
  {
    var had, n := HadOf(tx), |tx.after|;
    assert Had(d) == had;
    var d1 := ExecAll(d, StageOps(tx.after, 0));
    StageSafe(d, tx, 0);
    var d2 := Exec(d1, WriteJournal(had));
    ExecOne(d1, WriteJournal(had));
    assert Ready(d2, tx);
    BackupSafe(d2, tx, 0);
    RenamePrefix(ExecAll(d2, BackupOps(had, 0)), tx, 0, p);
    var r := RenameOps(n, 0)[..p];
    ExecConcat(d2, BackupOps(had, 0), r);
    ExecConcat(d1, [WriteJournal(had)], BackupOps(had, 0) + r);
    ExecConcat(d, StageOps(tx.after, 0), [WriteJournal(had)] + (BackupOps(had, 0) + r));
    UpToRenameIsPrefix(d, tx.after, p);
    k := |UpToRename(d, tx.after, p)|;
  }

  lemma {:induction false} StuckStays(e: Disk, tx: Txn, later: seq<nat>)
    requires Inv(e, tx) && Undoing(tx) && Stuck(e)
    ensures Opens(e, later) == e && Recovery(e).raised
    decreases |later|
  {
    RecoverySafe(e, tx);
    if later != [] {
      StuckStays(e, tx, later[1..]);
    }
  }

  /** The first `m` calls of a rollback undo the first `m` published entries. */
  lemma {:induction false} RollbackPrefix(d: Disk, tx: Txn, b: nat, i: nat, m: nat)
    requires Under(d, tx, i, b) && i + b < |d.slots| && m <= b && Undoing(tx)
    ensures var ops := RollbackFrom(d, HadOf(tx), i).ops;
            m <= |ops| && Under(ExecAll(d, ops[..m]), tx, i + m, b - m)
    decreases m
  {
    var ops := RollbackFrom(d, HadOf(tx), i).ops;
    if m == 0 {
      assert ops[..0] == [];
    } else {
      var e, undo := UndoPublished(d, tx, b, i);
      RollbackFirst(d, e, HadOf(tx), i, undo);
      var rest := RollbackFrom(e, HadOf(tx), i + 1).ops;
      RollbackPrefix(e, tx, b - 1, i + 1, m - 1);
      TakeConcat(undo, rest, m - 1);
      ExecConcat(d, undo, rest[..m - 1]);
    }
  }

  /** A publication that made `p` renames, and a rollback of it that undid `m` of them. */
  lemma HalfUndone(d: Disk, tx: Txn, p: nat, m: nat) returns (k: nat)
    requires TxnOk(tx) && Quiet(d, tx) && p < |tx.before| && m <= p && tx.course.Either?
    ensures Under(Opens(CutAt(d, PublishOps(d, tx.after), k), [m]), tx, m, p - m)
  {
    k := RenamesReached(d, tx, p);
    var d2 := CutAt(d, PublishOps(d, tx.after), k);
    assert Waiting(d2.slots[p], tx.before[p]);
    assert d2.slots[p] in d2.slots;
    RollbackPrefix(d2, tx, p, 0, m);
    var ops := Recovery(d2).ops;
    assert Recovery(d2) == RollbackFrom(d2, HadOf(tx), 0);
    OpensOnce(d2, m);
  }

  lemma OpensOnce(d: Disk, m: nat)
    ensures Opens(d, [m]) == CutAt(d, Recovery(d).ops, m)
  {
    assert [m][0] == m && [m][1..] == [];
    assert Opens(CutAt(d, Recovery(d).ops, m), []) == CutAt(d, Recovery(d).ops, m);
  }

  lemma {:induction false} OpensConcat(d: Disk, a: seq<nat>, b: seq<nat>)
    ensures Opens(d, a + b) == Opens(Opens(d, a), b)
    decreases |a|
  {
    if a == [] {
      assert a + b == b;
    } else {
      ConcatHead(a, b);
      OpensConcat(CutAt(d, Recovery(d).ops, a[0]), a[1..], b);
    }
  }

  // ----- transactions that cannot be recovered ---------------------------------------------

  /** After this history every recovery raises. */
  predicate Sticks(d: Disk, tx: Txn, c: nat, cuts: seq<nat>) {
    Stuck(Opens(CutAt(d, PublishOps(d, tx.after), c), cuts))
  }

  /** An entry that existed before, and another one behind it. */
  predicate Replaced(tx: Txn, i: nat) {
    i + 1 < |tx.before| && tx.before[i].Some?
  }

  /** A publication can become unrecoverable exactly when a file other than its last existed before:
      cut behind the rename of that file, and its rollback cut behind undoing it. */
  lemma SticksWhen(d: Disk, tx: Txn)
    requires TxnOk(tx) && Quiet(d, tx)
    ensures (exists c: nat, cuts :: Sticks(d, tx, c, cuts)) <==> exists i: nat :: Replaced(tx, i)
  {
    var again := tx.(course := Either);
    if i: nat :| Replaced(tx, i) {
      var c := HalfUndone(d, again, i + 1, i + 1);
      StuckUnder(Opens(CutAt(d, PublishOps(d, tx.after), c), [i + 1]), again, i + 1, 0);
      assert Sticks(d, tx, c, [i + 1]);
    }
    if c: nat, cuts :| Sticks(d, tx, c, cuts) {
      HistoryGood(d, again, c, cuts);
      var i := StuckReplaced(Opens(CutAt(d, PublishOps(d, tx.after), c), cuts), again);
      assert Replaced(tx, i);
    }
  }

  lemma StuckReplaced(e: Disk, tx: Txn) returns (i: nat)
    requires Inv(e, tx) && Stuck(e)
    ensures Replaced(tx, i)
  {
    assert !Quiet(e, tx) && !Done(e, tx) && !Forward(e, tx);
    var a: nat, b: nat :| Under(e, tx, a, b);
    StuckUnder(e, tx, a, b);
    i :| i < a && tx.before[i].Some?;
  }

  /** Once it is stuck it stays so: every later recovery raises and changes nothing. */
  lemma SticksForGood(d: Disk, tx: Txn, c: nat, cuts: seq<nat>, later: seq<nat>)
    requires TxnOk(tx) && Quiet(d, tx) && Sticks(d, tx, c, cuts)
    ensures var e := Opens(CutAt(d, PublishOps(d, tx.after), c), cuts);
            Opens(CutAt(d, PublishOps(d, tx.after), c), cuts + later) == e && Recovery(e).raised
  {
    var p := CutAt(d, PublishOps(d, tx.after), c);
    HistoryGood(d, tx.(course := Either), c, cuts);
    OpensConcat(p, cuts, later);
    StuckStays(Opens(p, cuts), tx.(course := Either), later);
  }

  // ----- transactions that stay half undone ------------------------------------------------

  /** Recovery is not idempotent once it has itself been interrupted. When entry `i` existed before
      and entry `k`, the same or a later one, is not the last, there is a crash point after which a
      recovery cut behind entry `i` leaves the entries up to `i` old, those up to `k` new and the rest
      old; and every later recovery raises and changes nothing. */
  lemma InterruptedRecoverySticks(d: Disk, tx: Txn, i: nat, k: nat, later: seq<nat>) returns (c: nat)
    requires TxnOk(tx) && Quiet(d, tx) && i <= k && k + 1 < |tx.before| && tx.before[i].Some?
    ensures var e := Opens(CutAt(d, PublishOps(d, tx.after), c), [i + 1] + later);
            && |e.slots| == |tx.before| && Stuck(e) && Recovery(e).raised
            && forall j :: 0 <= j < |e.slots| ==>
                 e.slots[j].target == if i < j <= k then Some(tx.after[j]) else tx.before[j]
  {
    var again := tx.(course := Either);
    c := HalfUndone(d, again, k + 1, i + 1);
    var d2 := CutAt(d, PublishOps(d, tx.after), c);
    var e := Opens(d2, [i + 1]);
    StuckUnder(e, again, i + 1, k - i);
    OpensConcat(d2, [i + 1], later);
    StuckStays(e, again, later);
    forall j | 0 <= j < |e.slots|
      ensures e.slots[j].target == if i < j <= k then Some(tx.after[j]) else tx.before[j]
    {
      TargetUnder(e, again, i + 1, k - i, j);
    }
  }

  /** After this history recovery raises from now on, with some target not put back. */
  predicate HalfDone(d: Disk, tx: Txn, c: nat, cuts: seq<nat>) {
    var e := Opens(CutAt(d, PublishOps(d, tx.after), c), cuts);
    Stuck(e) && !TargetsBefore(e, tx)
  }

  /** An entry that existed before, a later entry that changes, and another one behind it. */
  predicate Exposed(tx: Txn, i: nat, k: nat) {
    TxnOk(tx) && i < k && k + 1 < |tx.before| && tx.before[i].Some? && tx.before[k] != Some(tx.after[k])
  }

  /** Which publications can be left so: exactly those that replace a file, then change another,
      then publish a third, in this order. */
  lemma HalfDoneWhen(d: Disk, tx: Txn)
    requires TxnOk(tx) && Quiet(d, tx)
    ensures (exists c: nat, cuts :: HalfDone(d, tx, c, cuts)) <==> exists i: nat, k: nat :: Exposed(tx, i, k)
  {
    if i: nat, k: nat :| Exposed(tx, i, k) {
      var c := InterruptedRecoverySticks(d, tx, i, k, []);
      assert [i + 1] + [] == [i + 1];
      var e := Opens(CutAt(d, PublishOps(d, tx.after), c), [i + 1]);
      assert e.slots[k].target == Some(tx.after[k]);
      assert HalfDone(d, tx, c, [i + 1]);
    }
    if c: nat, cuts :| HalfDone(d, tx, c, cuts) {
      var i, k := HalfDoneExposed(d, tx, c, cuts);
    }
  }

  lemma HalfDoneExposed(d: Disk, tx: Txn, c: nat, cuts: seq<nat>) returns (i: nat, k: nat)
    requires TxnOk(tx) && Quiet(d, tx) && HalfDone(d, tx, c, cuts)
    ensures Exposed(tx, i, k)
  {
    HistoryGood(d, tx.(course := Either), c, cuts);
    i, k := StuckExposed(Opens(CutAt(d, PublishOps(d, tx.after), c), cuts), tx.(course := Either));
  }

  /** What a target holds while a transaction is under way. */
  lemma TargetUnder(e: Disk, tx: Txn, a: nat, b: nat, k: nat)
    requires Under(e, tx, a, b) && k < |e.slots|
    ensures e.slots[k].target == if a <= k < a + b then Some(tx.after[k]) else tx.before[k]
  {
    if k < a {
      assert Undone(e.slots[k], tx.before[k]);
    } else if k < a + b {
      assert Published(e.slots[k], tx.before[k], tx.after[k]);
    } else {
      assert Waiting(e.slots[k], tx.before[k]);
    }
  }

  lemma StuckExposed(e: Disk, tx: Txn) returns (i: nat, k: nat)
    requires Inv(e, tx) && Stuck(e) && !TargetsBefore(e, tx)
    ensures Exposed(tx, i, k)
  {
    assert !Quiet(e, tx) && !Done(e, tx) && !Forward(e, tx);
    var a: nat, b: nat :| Under(e, tx, a, b);
    StuckUnder(e, tx, a, b);
    i :| i < a && tx.before[i].Some?;
    k :| k < |e.slots| && e.slots[k].target != tx.before[k];
    TargetUnder(e, tx, a, b, k);
  }

  // ----- what recovery reports -------------------------------------------------------------

  datatype Report = NothingToDo | RolledForward | RolledBack

  /** The action a recovery that does not raise reports. */
  function Reported(d: Disk): Report {
    if d.journal.None? then NothingToDo else if AllPublished(d) then RolledForward else RolledBack
  }

  predicate SameTargets(d: Disk, e: Disk) {
    |d.slots| == |e.slots| && forall i :: 0 <= i < |d.slots| ==> d.slots[i].target == e.slots[i].target
  }

  lemma {:induction false} FinalizeTargets(d: Disk, had: seq<bool>, i: nat)
    requires |had| <= |d.slots|
    ensures SameTargets(d, ExecAll(d, FinalizeOps(had, i)))
    decreases |had| - i
  {
    if i >= |had| {
      ExecOne(d, DropJournal);
    } else if had[i] {
      var e := Exec(d, DropBackup(i));
      FinalizeTargets(e, had, i + 1);
      var ops := FinalizeOps(had, i);
      assert ops[0] == DropBackup(i) && ops[1..] == FinalizeOps(had, i + 1);
    } else {
      FinalizeTargets(d, had, i + 1);
      assert FinalizeOps(had, i) == FinalizeOps(had, i + 1);
    }
  }

  /** A roll-back that is reported is true; a roll-forward that is reported changes no target. */
  lemma ReportedTargets(d: Disk, tx: Txn)
    requires Inv(d, tx) && !tx.course.First? && !Recovery(d).raised
    ensures var e := ExecAll(d, Recovery(d).ops);
            && (Reported(d) == RolledBack ==> TargetsBefore(e, tx))
            && (Reported(d) == RolledForward ==>
                  SameTargets(d, e) && (if TargetsAfter(d, tx) then TargetsAfter(e, tx) else TargetsBefore(e, tx)))
  {
    RecoverySafe(d, tx);
    if Reported(d) == RolledForward {
      JournalIsHad(d, tx);
      FinalizeTargets(d, HadOf(tx), 0);
    }
  }

  /** Which way all recoveries after a crash point with a journal go. */
  function CourseOf(p: Disk): Course {
    if AllPublished(p) then On else Back
  }

  /** It is decided where the publication is cut short, by what is then on the disk. */
  lemma CourseDecided(d: Disk, tx: Txn, k: nat)
    requires TxnOk(tx) && Quiet(d, tx) && CutAt(d, PublishOps(d, tx.after), k).journal.Some?
    ensures var p := CutAt(d, PublishOps(d, tx.after), k); Inv(p, tx.(course := CourseOf(p)))
  {
    var first := tx.(course := First);
    PublishSafe(d, first);
    CutGood(d, PublishOps(d, tx.after), k, first);
    PublishedCourse(CutAt(d, PublishOps(d, tx.after), k), first);
  }

  lemma PublishedCourse(p: Disk, tx: Txn)
    requires Inv(p, tx) && tx.course.First? && p.journal.Some?
    ensures Inv(p, tx.(course := CourseOf(p)))
  {
    var decided := tx.(course := CourseOf(p));
    if !Forward(p, tx) {
      var a: nat, b: nat :| Under(p, tx, a, b) && Allowed(tx, a, b);
      if b == |p.slots| {
        UnderPublishedIsForward(p, tx);
      } else {
        assert Waiting(p.slots[b], tx.before[b]);
        assert p.slots[b] in p.slots;
        assert Under(p, decided, a, b) && Allowed(decided, a, b);
      }
    }
  }

  // ----- without a journal -----------------------------------------------------------------

  /** The disk with its staged copies removed. */
  function WithoutTemps(d: Disk): Disk {
    d.(slots := seq(|d.slots|, i requires 0 <= i < |d.slots| => d.slots[i].(temp := None)))
  }

  lemma {:induction false} CleanOnlyDrops(d: Disk, i: nat)
    ensures forall op <- CleanOps(d, i) :: op.DropTemp?
    decreases |d.slots| - i
  {
    if i < |d.slots| {
      CleanOnlyDrops(d, i + 1);
    }
  }

  lemma {:induction false} DropsKeepRest(d: Disk, ops: seq<Op>)
    requires forall op <- ops :: op.DropTemp?
    ensures WithoutTemps(ExecAll(d, ops)) == WithoutTemps(d)
    decreases |ops|
  {
    if ops != [] {
      assert ops[0] in ops;
      var e := Exec(d, ops[0]);
      assert WithoutTemps(e).slots == WithoutTemps(d).slots;
      DropsKeepRest(e, ops[1..]);
    }
  }

  /** Without a journal nothing but staged copies ever changes at later opens. */
  lemma {:induction false} NoJournalLater(d: Disk, cuts: seq<nat>)
    requires d.journal.None?
    ensures WithoutTemps(Opens(d, cuts)) == WithoutTemps(d)
    decreases |cuts|
  {
    if cuts != [] {
      CleanCut(d, cuts[0]);
      NoJournalLater(CutAt(d, Recovery(d).ops, cuts[0]), cuts[1..]);
    }
  }

  lemma CleanCut(d: Disk, k: nat)
    requires d.journal.None?
    ensures WithoutTemps(CutAt(d, Recovery(d).ops, k)) == WithoutTemps(d)
    ensures CutAt(d, Recovery(d).ops, k).journal.None?
  {
    var ops := CleanOps(d, 0);
    CleanOnlyDrops(d, 0);
    DropsKeepRest(d, if k <= |ops| then ops[..k] else ops);
    assert WithoutTemps(CutAt(d, Recovery(d).ops, k)).journal == WithoutTemps(d).journal;
  }

  lemma CleanEnds(d: Disk)
    requires d.journal.None? && AllPublished(ExecAll(d, Recovery(d).ops))
    ensures ExecAll(d, Recovery(d).ops) == WithoutTemps(d)
  {
    var ops := Recovery(d).ops;
    var f := ExecAll(d, ops);
    CleanOnlyDrops(d, 0);
    DropsKeepRest(d, ops);
    forall i | 0 <= i < |f.slots| ensures f.slots[i] == WithoutTemps(f).slots[i] {
      assert f.slots[i] in f.slots;
    }
    assert f.slots == WithoutTemps(f).slots;
  }

  // ----- how every history ends ------------------------------------------------------------

  /** The whole disk at the end is decided where the publication is cut short, for every recovery
      that ends and however many were cut short before it: with a journal there, the transaction is
      over, forward when no staged copy was left and back when one was; without one, the disk is as
      it was but for staged copies. */
  lemma OutcomeDecided(d: Disk, tx: Txn, k: nat, cuts: seq<nat>)
    requires TxnOk(tx) && Quiet(d, tx)
    ensures var p := CutAt(d, PublishOps(d, tx.after), k);
            var e := Opens(p, cuts);
            !Recovery(e).raised ==>
              ExecAll(e, Recovery(e).ops) == if p.journal.Some? then Settled(tx, AllPublished(p)) else WithoutTemps(p)
  {
    var p := CutAt(d, PublishOps(d, tx.after), k);
    var e := Opens(p, cuts);
    if p.journal.Some? {
      CourseDecided(d, tx, k);
      OpensGood(p, tx.(course := CourseOf(p)), cuts);
      DecidedOutcome(e, tx.(course := CourseOf(p)), AllPublished(p));
    } else {
      HistoryGood(d, tx.(course := Either), k, cuts);
      RecoverySafe(e, tx.(course := Either));
      NoJournalLater(p, cuts);
      assert e.journal == WithoutTemps(e).journal == WithoutTemps(p).journal;
      CleanEnds(e);
    }
  }

  lemma DecidedOutcome(e: Disk, tx: Txn, forth: bool)
    requires Inv(e, tx) && tx.course == if forth then On else Back
    ensures !Recovery(e).raised ==> ExecAll(e, Recovery(e).ops) == Settled(tx, forth)
  {
    RecoverySafe(e, tx);
    if !Recovery(e).raised {
      IsSettled(ExecAll(e, Recovery(e).ops), tx, forth);
    }
  }

  /** A publication cut short without a journal has not touched any target or backup, or is over. */
  lemma WithoutJournal(d: Disk, tx: Txn, k: nat)
    requires TxnOk(tx) && Quiet(d, tx)
    ensures var p := CutAt(d, PublishOps(d, tx.after), k);
            p.journal.None? ==> Quiet(p, tx) || p == Settled(tx, true)
  {
    var p := CutAt(d, PublishOps(d, tx.after), k);
    var first := tx.(course := First);
    PublishSafe(d, first);
    CutGood(d, PublishOps(d, tx.after), k, first);
    if Done(p, first) {
      IsSettled(p, tx, true);
    }
  }

  /** What is staged is what was there. */
  predicate NothingChanges(tx: Txn) {
    TxnOk(tx) && forall i :: 0 <= i < |tx.before| ==> tx.before[i] == Some(tx.after[i])
  }

  lemma BeforeAndAfter(f: Disk, tx: Txn)
    requires TxnOk(tx) && TargetsBefore(f, tx)
    ensures TargetsAfter(f, tx) <==> NothingChanges(tx)
  {
  }

  /** When the report of a recovery that ends is true, over every history: an action is reported
      exactly when a journal was taken away; a roll-back that is
      reported is; a roll-forward that is reported is exactly when the publication had made its last
      rename, as no staged copy was left where it was cut short, or when it changes nothing. If it
      had not, all targets are old. */
  lemma ReportTrueWhen(d: Disk, tx: Txn, k: nat, cuts: seq<nat>)
    requires TxnOk(tx) && Quiet(d, tx)
    ensures var p := CutAt(d, PublishOps(d, tx.after), k);
            var e := Opens(p, cuts);
            var f := ExecAll(e, Recovery(e).ops);
            !Recovery(e).raised ==>
              && (Reported(e) == NothingToDo <==> f.journal == e.journal)
              && (Reported(e) == RolledBack ==> TargetsBefore(f, tx))
              && (Reported(e) == RolledForward ==>
                    && p.journal.Some? && (!AllPublished(p) ==> TargetsBefore(f, tx))
                    && (TargetsAfter(f, tx) <==> AllPublished(p) || NothingChanges(tx)))
  {
    var p := CutAt(d, PublishOps(d, tx.after), k);
    var e := Opens(p, cuts);
    if !Recovery(e).raised {
      HistoryGood(d, tx.(course := Either), k, cuts);
      ReportedTargets(e, tx.(course := Either));
      OutcomeDecided(d, tx, k, cuts);
      if p.journal.None? {
        NoJournalLater(p, cuts);
        assert e.journal == WithoutTemps(e).journal == WithoutTemps(p).journal;
      } else if !AllPublished(p) {
        BeforeAndAfter(ExecAll(e, Recovery(e).ops), tx);
      }
    }
  }

  lemma JournalIsHad(d: Disk, tx: Txn)
    requires Inv(d, tx) && d.journal.Some?
    ensures d.journal == Some(HadOf(tx)) && |HadOf(tx)| == |d.slots|
  {
  }

  /** The report of the first recovery after a publication is always true. */
  lemma FirstReportTrue(d: Disk, tx: Txn, k: nat)
    requires TxnOk(tx) && Quiet(d, tx)
    ensures var e := CutAt(d, PublishOps(d, tx.after), k);
            var f := ExecAll(e, Recovery(e).ops);
            && !Recovery(e).raised
            && (Reported(e) == RolledForward ==> TargetsAfter(f, tx))
            && (Reported(e) == RolledBack ==> TargetsBefore(f, tx))
  {
    FirstRecovery(d, tx, k);
  }

  /** Rolling back from entry `i`, but for its last call, undoes everything. */
  predicate AllButLast(d: Disk, tx: Txn, i: nat) {
    var ops := RollbackFrom(d, HadOf(tx), i).ops;
    ops != [] && Under(ExecAll(d, ops[..|ops| - 1]), tx, |tx.before|, 0)
  }

  /** A rollback of a publication without any rename ends, just before it drops the journal, in a
      state in which no staged copy is left. */
  lemma {:induction false} RollbackAllButLast(d: Disk, tx: Txn, i: nat)
    requires Under(d, tx, i, 0) && i <= |d.slots| && Undoing(tx)
    ensures AllButLast(d, tx, i)
    decreases |d.slots| - i
  {
    if i == |d.slots| {
      OnlyLast(d, tx);
    } else {
      var e := WaitingStep(d, tx, i);
      RollbackAllButLast(e, tx, i + 1);
    }
  }

  lemma WaitingStep(d: Disk, tx: Txn, i: nat) returns (e: Disk)
    requires Under(d, tx, i, 0) && i < |d.slots| && Undoing(tx)
    ensures Under(e, tx, i + 1, 0) && |e.slots| == |d.slots|
    ensures AllButLast(e, tx, i + 1) ==> AllButLast(d, tx, i)
  {
    var undo;
    e, undo := UndoWaiting(d, tx, i);
    if AllButLast(e, tx, i + 1) {
      ButLast(d, e, HadOf(tx), i, undo);
    }
  }

  lemma OnlyLast(d: Disk, tx: Txn)
    requires Under(d, tx, |d.slots|, 0)
    ensures AllButLast(d, tx, |d.slots|)
  {
    var ops := RollbackFrom(d, HadOf(tx), |d.slots|).ops;
    assert ops == [DropJournal] && ops[..0] == [];
  }

  lemma ButLast(d: Disk, e: Disk, had: seq<bool>, i: nat, undo: seq<Op>)
    requires i < |had| && i < |d.slots| && UndoOps(d.slots[i], had[i], i) == Some(undo) && ExecAll(d, undo) == e
    requires RollbackFrom(e, had, i + 1).ops != []
    ensures var ops, rest := RollbackFrom(d, had, i).ops, RollbackFrom(e, had, i + 1).ops;
            ops != [] && ExecAll(d, ops[..|ops| - 1]) == ExecAll(e, rest[..|rest| - 1])
  {
    RollbackFirst(d, e, had, i, undo);
    var rest := RollbackFrom(e, had, i + 1).ops;
    TakeConcat(undo, rest, |rest| - 1);
    ExecConcat(d, undo, rest[..|rest| - 1]);
  }

  /** A rollback cut just before it drops the journal makes the next recovery report a roll-forward
      although every target is old: every publication has such a history. */
  lemma FalseReportHappens(d: Disk, tx: Txn) returns (k: nat, cut: nat)
    requires TxnOk(tx) && Quiet(d, tx) && tx.before != []
    ensures var e := Opens(CutAt(d, PublishOps(d, tx.after), k), [cut]);
            && !Recovery(e).raised && Reported(e) == RolledForward
            && TargetsBefore(ExecAll(e, Recovery(e).ops), tx)
  {
    var again := tx.(course := Either);
    k := RenamesReached(d, again, 0);
    var d2 := CutAt(d, PublishOps(d, tx.after), k);
    assert Waiting(d2.slots[0], tx.before[0]);
    assert d2.slots[0] in d2.slots;
    RollbackAllButLast(d2, again, 0);
    var ops := Recovery(d2).ops;
    cut := |ops| - 1;
    OpensOnce(d2, cut);
    var e := Opens(d2, [cut]);
    assert e == ExecAll(d2, ops[..cut]);
    NothingWaiting(e, again, |e.slots|, 0);
    FinalizeUndone(e, again, 0);
  }
}
