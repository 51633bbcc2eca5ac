/** The recoverable file transaction of src/tree_engine/storage/file_txn.py: stage, journal,
    back up, rename, finalise; and recovery at the next open, forward or backward.

    Every call into the file system is one atomic operation on a disk. A crash (or a call that
    fails) may happen between any two of them, in a publication and in a recovery alike. */
module FileTxn {
  import opened Wrappers

  type Bytes = seq<bv8>

  /** The three directory entries of one target: the file, its staged copy and its backup. */
  datatype Slot = Slot(target: Option<Bytes>, temp: Option<Bytes>, backup: Option<Bytes>)

  /** The journal records, entry by entry, whether the target existed before. */
  datatype Disk = Disk(slots: seq<Slot>, journal: Option<seq<bool>>)

  datatype Op =
    | Stage(i: nat, bytes: Bytes)
    | WriteJournal(had: seq<bool>)
    | LinkBackup(i: nat)      // backup becomes a second name of the target
    | Rename(i: nat)          // the staged copy takes the target's name
    | Restore(i: nat)         // the backup takes the target's name
    | DropTarget(i: nat)
    | DropTemp(i: nat)
    | DropBackup(i: nat)
    | DropJournal

  /** A link needs its target and a free name, a rename the name it moves. */
  predicate Fails(s: Slot, op: Op) {
    match op
    case LinkBackup(_) => s.target.None? || s.backup.Some?
    case Rename(_) => s.temp.None?
    case Restore(_) => s.backup.None?
    case _ => false
  }

  /** A call that fails changes nothing. */
  function ExecSlot(s: Slot, op: Op): Slot {
    if Fails(s, op) then s else
    match op
    case Stage(_, bytes) => s.(temp := Some(bytes))
    case LinkBackup(_) => s.(backup := s.target)
    case Rename(_) => s.(target := s.temp, temp := None)
    case Restore(_) => s.(target := s.backup, backup := None)
    case DropTarget(_) => s.(target := None)
    case DropTemp(_) => s.(temp := None)
    case DropBackup(_) => s.(backup := None)
    case _ => s
  }

  function Exec(d: Disk, op: Op): Disk {
    match op
    case WriteJournal(had) => d.(journal := Some(had))
    case DropJournal => d.(journal := None)
    case _ => if op.i < |d.slots| then d.(slots := d.slots[op.i := ExecSlot(d.slots[op.i], op)]) else d
  }

  function ExecAll(d: Disk, ops: seq<Op>): Disk
    decreases |ops|
  {
    if ops == [] then d else ExecAll(Exec(d, ops[0]), ops[1..])
  }

  // ----- publish ---------------------------------------------------------------------------

  function Had(d: Disk): seq<bool> {
    seq(|d.slots|, i requires 0 <= i < |d.slots| => d.slots[i].target.Some?)
  }

  function StageOps(staged: seq<Bytes>, i: nat): seq<Op>
    decreases |staged| - i
  {
    if i >= |staged| then [] else [Stage(i, staged[i])] + StageOps(staged, i + 1)
  }

  function BackupOps(had: seq<bool>, i: nat): seq<Op>
    decreases |had| - i
  {
    if i >= |had| then []
    else (if had[i] then [DropBackup(i), LinkBackup(i)] else []) + BackupOps(had, i + 1)
  }

  function RenameOps(n: nat, i: nat): seq<Op>
    decreases n - i
  {
    if i >= n then [] else [Rename(i)] + RenameOps(n, i + 1)
  }

  function FinalizeOps(had: seq<bool>, i: nat): seq<Op>
    decreases |had| - i
  {
    if i >= |had| then [DropJournal]
    else (if had[i] then [DropBackup(i)] else []) + FinalizeOps(had, i + 1)
  }

  /** `staged` is what reaches the staged copies, one for each file to publish. */
  function PublishOps(d: Disk, staged: seq<Bytes>): seq<Op> {
    StageOps(staged, 0) + ([WriteJournal(Had(d))]
      + (BackupOps(Had(d), 0) + (RenameOps(|staged|, 0) + FinalizeOps(Had(d), 0))))
  }

  // ----- recover ---------------------------------------------------------------------------

  /** The calls that undo entry `i`; None when the backup to be renamed is not there. */
  function UndoOps(s: Slot, had: bool, i: nat): Option<seq<Op>> {
    if s.temp.None? then
      if had then (if s.backup.Some? then Some([Restore(i)]) else None)
      else if s.target.Some? then Some([DropTarget(i)]) else Some([])
    else
      var first := if had && s.backup.Some? && s.target.None? then [Restore(i)]
                   else if had then [DropBackup(i)] else [];
      Some(first + [DropTemp(i)])
  }

  datatype Run = Run(ops: seq<Op>, raised: bool)

  function RollbackFrom(d: Disk, had: seq<bool>, i: nat): Run
    decreases |had| - i
  {
    if i >= |had| || i >= |d.slots| then Run([DropJournal], false)
    else
      match UndoOps(d.slots[i], had[i], i)
      case None => Run([], true)
      case Some(undo) =>
        var rest := RollbackFrom(ExecAll(d, undo), had, i + 1);
        Run(undo + rest.ops, rest.raised)
  }

  function CleanOps(d: Disk, i: nat): seq<Op>
    decreases |d.slots| - i
  {
    if i >= |d.slots| then []
    else (if d.slots[i].temp.Some? then [DropTemp(i)] else []) + CleanOps(d, i + 1)
  }

  predicate AllPublished(d: Disk) {
    forall s <- d.slots :: s.temp.None?
  }

  function Recovery(d: Disk): Run {
    match d.journal
    case None => Run(CleanOps(d, 0), false)
    case Some(had) => if AllPublished(d) then Run(FinalizeOps(had, 0), false) else RollbackFrom(d, had, 0)
  }

  // ----- the states a transaction goes through ---------------------------------------------

  /** Which part of a history is looked at: a publication without any recovery yet, any part of it,
      what follows a publication cut before its last rename, or what follows one cut behind it. */
  datatype Course = First | Either | Back | On

  /** What the targets and their backups held before, and what is staged for them. */
  datatype Txn = Txn(before: seq<Option<Bytes>>, spare: seq<Option<Bytes>>, after: seq<Bytes>, course: Course)

  predicate TxnOk(tx: Txn) {
    |tx.before| == |tx.after| == |tx.spare|
  }

  function HadOf(tx: Txn): seq<bool> {
    seq(|tx.before|, i requires 0 <= i < |tx.before| => tx.before[i].Some?)
  }

  predicate TargetsBefore(d: Disk, tx: Txn) {
    |d.slots| == |tx.before| && forall i :: 0 <= i < |d.slots| ==> d.slots[i].target == tx.before[i]
  }

  predicate TargetsAfter(d: Disk, tx: Txn) {
    |d.slots| == |tx.after| && forall i :: 0 <= i < |d.slots| ==> d.slots[i].target == Some(tx.after[i])
  }

  /** Nobody touches the backup of an entry that did not exist. */
  predicate OthersKept(d: Disk, tx: Txn) {
    |d.slots| == |tx.before| == |tx.spare|
    && forall i :: 0 <= i < |d.slots| && tx.before[i].None? ==> d.slots[i].backup == tx.spare[i]
  }

  /** An entry that existed has the backup it had before the transaction, or none. */
  predicate Spared(d: Disk, tx: Txn) {
    |d.slots| == |tx.before| == |tx.spare|
    && forall i :: 0 <= i < |d.slots| && tx.before[i].Some? ==> d.slots[i].backup == tx.spare[i] || d.slots[i].backup == None
  }

  /** An entry that existed has no backup. */
  predicate Tidy(d: Disk, tx: Txn) {
    |d.slots| == |tx.before|
    && forall i :: 0 <= i < |d.slots| && tx.before[i].Some? ==> d.slots[i].backup == None
  }

  /** The disk when a transaction is over, forward or back: the targets are all new or all old,
      nothing staged, journalled or backed up is left, and other backups are as they were. */
  function Settled(tx: Txn, forth: bool): Disk
    requires TxnOk(tx)
  {
    Disk(seq(|tx.before|, i requires 0 <= i < |tx.before| =>
               Slot(if forth then Some(tx.after[i]) else tx.before[i], None,
                    if tx.before[i].Some? then None else tx.spare[i])),
         None)
  }

  lemma IsSettled(d: Disk, tx: Txn, forth: bool)
    requires TxnOk(tx) && d.journal.None? && AllPublished(d) && OthersKept(d, tx) && Tidy(d, tx)
    requires if forth then TargetsAfter(d, tx) else TargetsBefore(d, tx)
    ensures d == Settled(tx, forth)
  {
    forall i | 0 <= i < |d.slots| ensures d.slots[i] == Settled(tx, forth).slots[i] {
      assert d.slots[i] in d.slots;
    }
    assert d.slots == Settled(tx, forth).slots;
  }

  /** Rolled back: no staged copy, the old target, no backup left of one that existed. */
  predicate Undone(s: Slot, before: Option<Bytes>) {
    s.temp.None? && s.target == before && (before.Some? ==> s.backup.None?)
  }

  predicate Published(s: Slot, before: Option<Bytes>, after: Bytes) {
    s.temp.None? && s.target == Some(after) && (before.Some? ==> s.backup == before)
  }

  predicate Waiting(s: Slot, before: Option<Bytes>) {
    s.temp.Some? && s.target == before
  }

  /** Under way: the first `a` entries are rolled back, the next `b` are published, and the rest
      still wait. */
  predicate Under(d: Disk, tx: Txn, a: nat, b: nat) {
    && TxnOk(tx) && OthersKept(d, tx) && d.journal == Some(HadOf(tx))
    && a + b <= |d.slots| && (a > 0 && b > 0 ==> a + b < |d.slots|)
    && (forall i :: 0 <= i < a ==> Undone(d.slots[i], tx.before[i]))
    && (forall i :: a <= i < a + b ==> Published(d.slots[i], tx.before[i], tx.after[i]))
    && (forall i :: a + b <= i < |d.slots| ==> Waiting(d.slots[i], tx.before[i]))
  }

  /** Not begun, or undone. */
  predicate Quiet(d: Disk, tx: Txn) {
    d.journal.None? && TargetsBefore(d, tx) && OthersKept(d, tx) && Spared(d, tx)
  }

  /** Every rename done; some backups may already be dropped. */
  predicate Forward(d: Disk, tx: Txn) {
    d.journal == Some(HadOf(tx)) && TargetsAfter(d, tx) && AllPublished(d) && OthersKept(d, tx)
  }

  predicate Done(d: Disk, tx: Txn) {
    d.journal.None? && TargetsAfter(d, tx) && AllPublished(d) && OthersKept(d, tx) && Tidy(d, tx)
  }

  /** How far a rollback may have got on each course. */
  predicate Allowed(tx: Txn, a: nat, b: nat) {
    match tx.course
    case First => a == 0
    case Either => true
    case Back => a + b < |tx.before| || b == 0
    case On => false
  }

  ghost predicate Inv(d: Disk, tx: Txn) {
    && TxnOk(tx)
    && ((Quiet(d, tx) && !tx.course.On? && (tx.course.Back? ==> Tidy(d, tx)))
        || ((Forward(d, tx) || Done(d, tx)) && !tx.course.Back?)
        || exists a: nat, b: nat :: Under(d, tx, a, b) && Allowed(tx, a, b))
  }

  predicate Publishing(tx: Txn) {
    tx.course.First? || tx.course.Either?
  }

  predicate Undoing(tx: Txn) {
    tx.course.Either? || tx.course.Back?
  }

  predicate Works(d: Disk, op: Op) {
    op.WriteJournal? || op.DropJournal? || (op.i < |d.slots| && !Fails(d.slots[op.i], op))
  }

  /** Every crash point of `ops`, from before the first to after the last, is a good state, and no
      call fails for want of a name. */
  ghost predicate Safe(d: Disk, ops: seq<Op>, tx: Txn)
    decreases |ops|
  {
    Inv(d, tx) && (ops != [] ==> Works(d, ops[0]) && Safe(Exec(d, ops[0]), ops[1..], tx))
  }

  lemma {:induction false} ExecConcat(d: Disk, a: seq<Op>, b: seq<Op>)
    ensures ExecAll(d, a + b) == ExecAll(ExecAll(d, a), b)
    decreases |a|
  {
    if a == [] {
      assert a + b == b;
    } else {
      assert (a + b)[1..] == a[1..] + b;
      ExecConcat(Exec(d, a[0]), a[1..], b);
    }
  }

  lemma {:induction false} SafeConcat(d: Disk, a: seq<Op>, b: seq<Op>, tx: Txn)
    requires Safe(d, a, tx) && Safe(ExecAll(d, a), b, tx)
    ensures Safe(d, a + b, tx)
    decreases |a|
  {
    if a == [] {
      assert a + b == b;
    } else {
      assert (a + b)[1..] == a[1..] + b;
      SafeConcat(Exec(d, a[0]), a[1..], b, tx);
    }
  }

  lemma SafePrepend(d: Disk, op: Op, rest: seq<Op>, tx: Txn)
    requires Inv(d, tx) && Works(d, op) && Safe(Exec(d, op), rest, tx)
    ensures Safe(d, [op] + rest, tx) && ExecAll(d, [op] + rest) == ExecAll(Exec(d, op), rest)
  {
    assert ([op] + rest)[1..] == rest;
  }

  /** What `Safe` is for: the disk after any number of the operations is a good state. */
  lemma {:induction false} SafePrefix(d: Disk, ops: seq<Op>, k: nat, tx: Txn)
    requires Safe(d, ops, tx) && k <= |ops|
    ensures Inv(ExecAll(d, ops[..k]), tx)
    decreases k
  {
    if k > 0 {
      SafePrefix(Exec(d, ops[0]), ops[1..], k - 1, tx);
      assert ops[..k][1..] == ops[1..][..k - 1];
    }
  }

  // ----- every crash point of a publication is a good state --------------------------------

  /** Journalled, and every staged copy holds what is to be published. */
  predicate Ready(d: Disk, tx: Txn) {
    Under(d, tx, 0, 0) && forall i :: 0 <= i < |d.slots| ==> d.slots[i].temp == Some(tx.after[i])
  }

  predicate BackedUp(d: Disk, tx: Txn, n: nat) {
    |d.slots| == |tx.before|
    && forall i :: 0 <= i < n && i < |d.slots| && tx.before[i].Some? ==> d.slots[i].backup == tx.before[i]
  }

  lemma {:induction false} StageSafe(d: Disk, tx: Txn, i: nat)
    requires TxnOk(tx) && Quiet(d, tx) && i <= |tx.after| && Publishing(tx)
    requires forall j :: 0 <= j < i ==> d.slots[j].temp == Some(tx.after[j])
    ensures Safe(d, StageOps(tx.after, i), tx)
    ensures var e := ExecAll(d, StageOps(tx.after, i));
            Quiet(e, tx) && forall j :: 0 <= j < |e.slots| ==> e.slots[j].temp == Some(tx.after[j])
    decreases |tx.after| - i
  {
    if i < |tx.after| {
      StageSafe(Exec(d, Stage(i, tx.after[i])), tx, i + 1);
    }
  }

  lemma BackupOne(d: Disk, tx: Txn, i: nat) returns (d1: Disk, d2: Disk)
    requires Ready(d, tx) && BackedUp(d, tx, i) && i < |tx.before| && tx.before[i].Some?
    ensures d1 == Exec(d, DropBackup(i)) && d2 == Exec(d1, LinkBackup(i)) && Works(d1, LinkBackup(i)) && i < |d.slots|
    ensures Ready(d1, tx) && Ready(d2, tx) && BackedUp(d2, tx, i + 1)
  {
    d1 := Exec(d, DropBackup(i));
    d2 := Exec(d1, LinkBackup(i));
    assert Ready(d1, tx);
    assert Waiting(d.slots[i], tx.before[i]);
  }

  lemma {:induction false} BackupSafe(d: Disk, tx: Txn, i: nat)
    requires Ready(d, tx) && BackedUp(d, tx, i) && i <= |tx.before| && Publishing(tx)
    ensures Safe(d, BackupOps(HadOf(tx), i), tx)
    ensures var e := ExecAll(d, BackupOps(HadOf(tx), i)); Ready(e, tx) && BackedUp(e, tx, |tx.before|)
    decreases |tx.before| - i
  {
    if i < |tx.before| {
      var had := HadOf(tx);
      if had[i] {
        var d1, d2 := BackupOne(d, tx, i);
        BackupSafe(d2, tx, i + 1);
        var rest := BackupOps(had, i + 1);
        SafePrepend(d1, LinkBackup(i), rest, tx);
        SafePrepend(d, DropBackup(i), [LinkBackup(i)] + rest, tx);
        assert BackupOps(had, i) == [DropBackup(i)] + ([LinkBackup(i)] + rest);
      } else {
        BackupSafe(d, tx, i + 1);
        assert BackupOps(had, i) == BackupOps(had, i + 1);
      }
    }
  }

  lemma {:induction false} RenameSafe(d: Disk, tx: Txn, i: nat)
    requires Under(d, tx, 0, i) && BackedUp(d, tx, |tx.before|) && Publishing(tx)
    requires forall j :: i <= j < |d.slots| ==> d.slots[j].temp == Some(tx.after[j])
    ensures Safe(d, RenameOps(|tx.after|, i), tx)
    ensures Under(ExecAll(d, RenameOps(|tx.after|, i)), tx, 0, |tx.after|)
    decreases |tx.after| - i
  {
    if i < |tx.after| {
      var e := Exec(d, Rename(i));
      assert Under(e, tx, 0, i + 1);
      RenameSafe(e, tx, i + 1);
    }
  }

  lemma {:induction false} FinalizeForward(d: Disk, tx: Txn, i: nat)
    requires TxnOk(tx) && Forward(d, tx) && i <= |tx.before| && !tx.course.Back?
    requires forall j :: 0 <= j < i && tx.before[j].Some? ==> d.slots[j].backup == None
    ensures Safe(d, FinalizeOps(HadOf(tx), i), tx)
    ensures Done(ExecAll(d, FinalizeOps(HadOf(tx), i)), tx)
    decreases |tx.before| - i
  {
    var had := HadOf(tx);
    if i < |had| {
      if had[i] {
        var e := Exec(d, DropBackup(i));
        assert Forward(e, tx);
        FinalizeForward(e, tx, i + 1);
      } else {
        FinalizeForward(d, tx, i + 1);
        assert FinalizeOps(had, i) == FinalizeOps(had, i + 1);
      }
    } else {
      assert Done(Exec(d, DropJournal), tx);
    }
  }

  lemma {:induction false} FinalizeUndone(d: Disk, tx: Txn, i: nat)
    requires Under(d, tx, |tx.before|, 0) && i <= |tx.before| && Undoing(tx)
    ensures Safe(d, FinalizeOps(HadOf(tx), i), tx)
    ensures var e := ExecAll(d, FinalizeOps(HadOf(tx), i)); Quiet(e, tx) && AllPublished(e) && Tidy(e, tx)
    decreases |tx.before| - i
  {
    var had := HadOf(tx);
    if i < |had| {
      if had[i] {
        var e := Exec(d, DropBackup(i));
        assert Under(e, tx, |tx.before|, 0);
        FinalizeUndone(e, tx, i + 1);
      } else {
        FinalizeUndone(d, tx, i + 1);
        assert FinalizeOps(had, i) == FinalizeOps(had, i + 1);
      }
    } else {
      assert Quiet(Exec(d, DropJournal), tx);
    }
  }

  lemma UnderPublishedIsForward(d: Disk, tx: Txn)
    requires Under(d, tx, 0, |tx.after|)
    ensures Forward(d, tx)
  {
  }

  /** Publishing never leaves a state that is not good and no call of it fails; and when it completes
      every target holds what was staged, and no staged copy, backup or journal is left. */
  lemma PublishSafe(d: Disk, tx: Txn)
    requires TxnOk(tx) && Quiet(d, tx) && Publishing(tx)
    ensures Safe(d, PublishOps(d, tx.after), tx)
    ensures ExecAll(d, PublishOps(d, tx.after)) == Settled(tx, true)
  {
    var had, n := HadOf(tx), |tx.after|;
    assert Had(d) == had;
    var d1 := ExecAll(d, StageOps(tx.after, 0));
    StageSafe(d, tx, 0);
    var d2 := ExecAll(d1, [WriteJournal(had)]);
    ExecOne(d1, WriteJournal(had));
    assert Ready(d2, tx);
    var d3 := ExecAll(d2, BackupOps(had, 0));
    BackupSafe(d2, tx, 0);
    var d4 := ExecAll(d3, RenameOps(n, 0));
    RenameSafe(d3, tx, 0);
    UnderPublishedIsForward(d4, tx);
    FinalizeForward(d4, tx, 0);
    var p4 := FinalizeOps(had, 0);
    var p3 := RenameOps(n, 0) + p4;
    var p2 := BackupOps(had, 0) + p3;
    var p1 := [WriteJournal(had)] + p2;
    SafeConcat(d3, RenameOps(n, 0), p4, tx);
    ExecConcat(d3, RenameOps(n, 0), p4);
    SafeConcat(d2, BackupOps(had, 0), p3, tx);
    ExecConcat(d2, BackupOps(had, 0), p3);
    SafeConcat(d1, [WriteJournal(had)], p2, tx);
    ExecConcat(d1, [WriteJournal(had)], p2);
    SafeConcat(d, StageOps(tx.after, 0), p1, tx);
    ExecConcat(d, StageOps(tx.after, 0), p1);
    IsSettled(ExecAll(d4, p4), tx, true);
  }

  // ----- every crash point of a recovery is a good state -----------------------------------

  /** A half-undone transaction that recovery cannot finish: an entry that existed before has
      neither its staged copy nor its backup, while another entry still waits. */
  predicate Stuck(d: Disk) {
    && d.journal.Some? && !AllPublished(d) && |d.journal.value| == |d.slots|
    && exists i :: 0 <= i < |d.slots| && d.journal.value[i] && d.slots[i].temp.None? && d.slots[i].backup.None?
  }

  /** Without a journal: not begun or undone, or done. */
  predicate Still(d: Disk, tx: Txn) {
    && TxnOk(tx)
    && ((Quiet(d, tx) && !tx.course.On? && (tx.course.Back? ==> Tidy(d, tx))) || (Done(d, tx) && !tx.course.Back?))
  }

  lemma StillDrop(d: Disk, tx: Txn, i: nat)
    requires Still(d, tx) && i < |d.slots|
    ensures var e := Exec(d, DropTemp(i));
            && Still(e, tx) && |e.slots| == |d.slots| && e.slots[i].temp.None?
            && (forall j :: 0 <= j < |d.slots| && j != i ==> e.slots[j] == d.slots[j])
            && (Quiet(d, tx) ==> Quiet(e, tx)) && (Done(d, tx) ==> Done(e, tx)) && (Tidy(d, tx) ==> Tidy(e, tx))
  {
  }

  lemma {:induction false} CleanSafe(d: Disk, tx: Txn, i: nat)
    requires Still(d, tx) && i <= |d.slots|
    requires forall j :: 0 <= j < i ==> d.slots[j].temp.None?
    ensures Safe(d, CleanOps(d, i), tx)
    ensures var e := ExecAll(d, CleanOps(d, i));
            && AllPublished(e) && (Quiet(d, tx) ==> Quiet(e, tx)) && (Done(d, tx) ==> Done(e, tx))
            && (Tidy(d, tx) ==> Tidy(e, tx))
    decreases |d.slots| - i
  {
    if i < |d.slots| {
      if d.slots[i].temp.Some? {
        var e := Exec(d, DropTemp(i));
        StillDrop(d, tx, i);
        CleanSame(d, e, i + 1);
        CleanSafe(e, tx, i + 1);
        SafePrepend(d, DropTemp(i), CleanOps(e, i + 1), tx);
      } else {
        CleanSafe(d, tx, i + 1);
        assert CleanOps(d, i) == CleanOps(d, i + 1);
      }
    }
  }

  /** Cleaning from `i` on looks at the slots from `i` on only. */
  lemma {:induction false} CleanSame(d: Disk, e: Disk, i: nat)
    requires |d.slots| == |e.slots| && forall j :: i <= j < |d.slots| ==> d.slots[j] == e.slots[j]
    ensures CleanOps(d, i) == CleanOps(e, i)
    decreases |d.slots| - i
  {
    if i < |d.slots| {
      CleanSame(d, e, i + 1);
    }
  }

  lemma ExecOne(d: Disk, op: Op)
    ensures ExecAll(d, [op]) == Exec(d, op)
  {
    assert [op][1..] == [];
    assert ExecAll(Exec(d, op), []) == Exec(d, op);
  }

  /** Rolling back from entry `i`, with the first `a` entries already undone: it raises, before
      changing anything, exactly when one of those from `i` on had existed; otherwise it undoes
      the rest and drops the journal. */
  ghost predicate Rollback(d: Disk, tx: Txn, a: nat, i: nat) {
    var run := RollbackFrom(d, HadOf(tx), i);
    && Safe(d, run.ops, tx)
    && (run.raised <==> exists j :: i <= j < a && j < |tx.before| && tx.before[j].Some?)
    && (run.raised ==> run.ops == [])
    && (!run.raised ==> var e := ExecAll(d, run.ops); Quiet(e, tx) && AllPublished(e) && Tidy(e, tx))
  }

  lemma RollbackFirst(d: Disk, e: Disk, had: seq<bool>, i: nat, undo: seq<Op>)
    requires i < |had| && i < |d.slots| && UndoOps(d.slots[i], had[i], i) == Some(undo) && ExecAll(d, undo) == e
    ensures var rest := RollbackFrom(e, had, i + 1);
            RollbackFrom(d, had, i) == Run(undo + rest.ops, rest.raised)
  {
  }

  /** One entry undone through good states, then the rest, which cannot raise. */
  lemma RollbackPrepend(d: Disk, e: Disk, tx: Txn, i: nat, undo: seq<Op>)
    requires i < |tx.before| == |d.slots| && UndoOps(d.slots[i], HadOf(tx)[i], i) == Some(undo)
    requires ExecAll(d, undo) == e && Safe(d, undo, tx) && Rollback(e, tx, i + 1, i + 1)
    ensures Rollback(d, tx, i, i)
  {
    RollbackFirst(d, e, HadOf(tx), i, undo);
    var rest := RollbackFrom(e, HadOf(tx), i + 1).ops;
    SafeConcat(d, undo, rest, tx);
    ExecConcat(d, undo, rest);
  }

  lemma SafeOne(d: Disk, op: Op, tx: Txn)
    requires Inv(d, tx) && Works(d, op) && Inv(Exec(d, op), tx)
    ensures Safe(d, [op], tx)
  {
    assert [op][1..] == [];
    assert Safe(Exec(d, op), [], tx);
  }

  lemma UndoPublished(d: Disk, tx: Txn, b: nat, i: nat) returns (e: Disk, undo: seq<Op>)
    requires Under(d, tx, i, b) && i + b < |d.slots| && b > 0 && Undoing(tx)
    ensures UndoOps(d.slots[i], HadOf(tx)[i], i) == Some(undo) && |undo| == 1
    ensures ExecAll(d, undo) == e && Safe(d, undo, tx) && Under(e, tx, i + 1, b - 1)
  {
    assert Published(d.slots[i], tx.before[i], tx.after[i]);
    var op := if HadOf(tx)[i] then Restore(i) else DropTarget(i);
    e, undo := Exec(d, op), [op];
    assert Under(e, tx, i + 1, b - 1);
    ExecOne(d, op);
    SafeOne(d, op, tx);
  }

  lemma UndoWaiting(d: Disk, tx: Txn, i: nat) returns (e: Disk, undo: seq<Op>)
    requires Under(d, tx, i, 0) && i < |d.slots| && Undoing(tx)
    ensures UndoOps(d.slots[i], HadOf(tx)[i], i) == Some(undo)
    ensures ExecAll(d, undo) == e && Safe(d, undo, tx) && Under(e, tx, i + 1, 0)
  {
    assert Waiting(d.slots[i], tx.before[i]);
    var d1 := if HadOf(tx)[i] then Exec(d, DropBackup(i)) else d;
    assert Under(d1, tx, i, 0);
    e := Exec(d1, DropTemp(i));
    assert Under(e, tx, i + 1, 0);
    SafeOne(d1, DropTemp(i), tx);
    ExecOne(d1, DropTemp(i));
    undo := [DropTemp(i)];
    if HadOf(tx)[i] {
      SafeOne(d, DropBackup(i), tx);
      ExecOne(d, DropBackup(i));
      SafeConcat(d, [DropBackup(i)], undo, tx);
      ExecConcat(d, [DropBackup(i)], undo);
      undo := [DropBackup(i)] + undo;
    } else {
      assert [] + undo == undo;
    }
  }

  lemma UndoNext(d: Disk, tx: Txn, b: nat, i: nat) returns (e: Disk, undo: seq<Op>)
    requires Under(d, tx, i, b) && i < |d.slots| && (i + b < |d.slots| || b == 0) && Undoing(tx)
    ensures UndoOps(d.slots[i], HadOf(tx)[i], i) == Some(undo)
    ensures ExecAll(d, undo) == e && Safe(d, undo, tx) && Under(e, tx, i + 1, if b > 0 then b - 1 else 0)
  {
    if b > 0 {
      e, undo := UndoPublished(d, tx, b, i);
    } else {
      e, undo := UndoWaiting(d, tx, i);
    }
  }

  lemma RollbackLast(d: Disk, tx: Txn)
    requires Under(d, tx, |d.slots|, 0) && Undoing(tx)
    ensures Rollback(d, tx, |d.slots|, |d.slots|)
  {
    var e := Exec(d, DropJournal);
    assert Quiet(e, tx) && AllPublished(e) && Tidy(e, tx);
    SafeOne(d, DropJournal, tx);
    ExecOne(d, DropJournal);
  }

  /** An entry that an earlier recovery undid, and that had existed, has no backup left. */
  lemma RollbackRaises(d: Disk, tx: Txn, a: nat, i: nat)
    requires Inv(d, tx) && i < a && i < |tx.before| == |d.slots|
    requires Undone(d.slots[i], tx.before[i]) && tx.before[i].Some?
    ensures Rollback(d, tx, a, i)
  {
    assert UndoOps(d.slots[i], HadOf(tx)[i], i) == None;
    assert RollbackFrom(d, HadOf(tx), i) == Run([], true);
  }

  lemma RollbackSkips(d: Disk, tx: Txn, a: nat, i: nat)
    requires i < a && i < |tx.before| == |d.slots|
    requires Undone(d.slots[i], tx.before[i]) && tx.before[i].None? && Rollback(d, tx, a, i + 1)
    ensures Rollback(d, tx, a, i)
  {
    RollbackFirst(d, d, HadOf(tx), i, []);
    var rest := RollbackFrom(d, HadOf(tx), i + 1).ops;
    assert [] + rest == rest;
  }

  /** Undoing entry `i`, after which rolling back the rest is rolling back from here. */
  lemma RollbackUndoes(d: Disk, tx: Txn, b: nat, i: nat) returns (e: Disk, left: nat)
    requires Under(d, tx, i, b) && i < |d.slots| && (i + b < |d.slots| || b == 0) && Undoing(tx)
    ensures Under(e, tx, i + 1, left) && |e.slots| == |d.slots| && (i + 1 + left < |d.slots| || left == 0)
    ensures Rollback(e, tx, i + 1, i + 1) ==> Rollback(d, tx, i, i)
  {
    var undo;
    e, undo := UndoNext(d, tx, b, i);
    left := if b > 0 then b - 1 else 0;
    if Rollback(e, tx, i + 1, i + 1) {
      RollbackPrepend(d, e, tx, i, undo);
    }
  }

  lemma {:induction false} RollbackSafe(d: Disk, tx: Txn, a: nat, b: nat, i: nat)
    requires Under(d, tx, a, b) && i <= a && (a + b < |d.slots| || b == 0) && Undoing(tx)
    ensures Rollback(d, tx, a, i)
    decreases |d.slots| - i
  {
    if i == |d.slots| {
      RollbackLast(d, tx);
    } else if i < a {
      assert Undone(d.slots[i], tx.before[i]);
      if tx.before[i].Some? {
        RollbackRaises(d, tx, a, i);
      } else {
        RollbackSafe(d, tx, a, b, i + 1);
        RollbackSkips(d, tx, a, i);
      }
    } else {
      var e, left := RollbackUndoes(d, tx, b, i);
      RollbackSafe(e, tx, i + 1, left, i + 1);
    }
  }

  /** The stuck states are the ones where an entry undone by an interrupted recovery had
      existed. */
  lemma StuckUnder(d: Disk, tx: Txn, a: nat, b: nat)
    requires Under(d, tx, a, b)
    ensures Stuck(d) <==> a + b < |d.slots| && exists j :: 0 <= j < a && tx.before[j].Some?
  {
    if a + b < |d.slots| {
      assert Waiting(d.slots[a + b], tx.before[a + b]);
      assert d.slots[a + b] in d.slots;
      forall j | 0 <= j < a && tx.before[j].Some? ensures Stuck(d) {
        assert Undone(d.slots[j], tx.before[j]);
      }
    } else {
      forall s | s in d.slots ensures s.temp.None? {
        var j :| 0 <= j < |d.slots| && d.slots[j] == s;
        if j < a {
          assert Undone(d.slots[j], tx.before[j]);
        } else {
          assert Published(d.slots[j], tx.before[j], tx.after[j]);
        }
      }
    }
  }

  /** How a recovery that does not raise leaves the disk `d`: no journal, nothing staged, every
      target as before or every target as staged, and as before whenever an entry still waits; over,
      with no backup left, when there was a journal; on the way back or on if it was on that way. */
  predicate Ended(d: Disk, tx: Txn, e: Disk) {
    && TxnOk(tx) && e.journal.None? && AllPublished(e) && (TargetsBefore(e, tx) || TargetsAfter(e, tx))
    && OthersKept(e, tx) && Spared(e, tx)
    && (d.journal.Some? ==> e == Settled(tx, TargetsAfter(e, tx)))
    && (d.journal.Some? && !AllPublished(d) ==> TargetsBefore(e, tx))
    && (tx.course.Back? ==> TargetsBefore(e, tx) && Tidy(e, tx))
    && (tx.course.On? ==> TargetsAfter(e, tx) && Tidy(e, tx))
  }

  /** What one recovery does. It raises exactly in the stuck states, and then changes nothing, so it
      raises at every later open too. Interrupted anywhere, it leaves a good state. */
  ghost predicate Recovers(d: Disk, tx: Txn) {
    var run := Recovery(d);
    && Safe(d, run.ops, tx)
    && (run.raised <==> Stuck(d)) && (run.raised ==> run.ops == [])
    && (!run.raised ==> Ended(d, tx, ExecAll(d, run.ops)))
  }

  /** One recovery from any good state. */
  lemma RecoverySafe(d: Disk, tx: Txn)
    requires Inv(d, tx) && !tx.course.First?
    ensures Recovers(d, tx)
  {
    if d.journal.None? {
      CleanSafe(d, tx, 0);
    } else if Forward(d, tx) && !tx.course.Back? {
      ForwardRecovers(d, tx);
    } else {
      var a: nat, b: nat :| Under(d, tx, a, b) && Allowed(tx, a, b);
      if a + b < |d.slots| {
        RollbackRecovers(d, tx, a, b);
      } else {
        NothingWaiting(d, tx, a, b);
        if b == 0 {
          UndoneRecovers(d, tx);
        } else {
          UnderPublishedIsForward(d, tx);
        }
      }
    }
  }

  lemma ForwardRecovers(d: Disk, tx: Txn)
    requires TxnOk(tx) && Forward(d, tx) && !tx.course.Back?
    ensures Recovers(d, tx)
  {
    FinalizeForward(d, tx, 0);
    IsSettled(ExecAll(d, Recovery(d).ops), tx, true);
  }

  lemma UndoneRecovers(d: Disk, tx: Txn)
    requires Under(d, tx, |d.slots|, 0) && Undoing(tx) && AllPublished(d)
    ensures Recovers(d, tx)
  {
    FinalizeUndone(d, tx, 0);
    SettledBack(ExecAll(d, Recovery(d).ops), tx);
  }

  lemma RollbackRecovers(d: Disk, tx: Txn, a: nat, b: nat)
    requires Under(d, tx, a, b) && Allowed(tx, a, b) && !tx.course.First? && a + b < |d.slots|
    ensures Recovers(d, tx)
  {
    StuckUnder(d, tx, a, b);
    assert Waiting(d.slots[a + b], tx.before[a + b]);
    assert d.slots[a + b] in d.slots;
    RollbackSafe(d, tx, a, b, 0);
    if !Recovery(d).raised {
      SettledBack(ExecAll(d, Recovery(d).ops), tx);
    }
  }

  lemma SettledBack(e: Disk, tx: Txn)
    requires TxnOk(tx) && Quiet(e, tx) && AllPublished(e) && Tidy(e, tx)
    ensures e == Settled(tx, TargetsAfter(e, tx))
  {
    IsSettled(e, tx, false);
    if TargetsAfter(e, tx) {
      IsSettled(e, tx, true);
    }
  }

  lemma NothingWaiting(d: Disk, tx: Txn, a: nat, b: nat)
    requires Under(d, tx, a, b) && a + b == |d.slots|
    ensures AllPublished(d)
  {
    forall s | s in d.slots ensures s.temp.None? {
      var j :| 0 <= j < |d.slots| && d.slots[j] == s;
      if j < a {
        assert Undone(d.slots[j], tx.before[j]);
      } else {
        assert Published(d.slots[j], tx.before[j], tx.after[j]);
      }
    }
  }

  // ----- whole histories -------------------------------------------------------------------

  /** Where a run of operations was cut short. */
  function CutAt(d: Disk, ops: seq<Op>, k: nat): Disk {
    ExecAll(d, if k <= |ops| then ops[..k] else ops)
  }

  /** Any number of recoveries, each cut short somewhere or run to its end. */
  function Opens(d: Disk, cuts: seq<nat>): Disk
    decreases |cuts|
  {
    if cuts == [] then d else Opens(CutAt(d, Recovery(d).ops, cuts[0]), cuts[1..])
  }

  lemma {:induction false} OpensGood(d: Disk, tx: Txn, cuts: seq<nat>)
    requires Inv(d, tx) && !tx.course.First?
    ensures Inv(Opens(d, cuts), tx)
    decreases |cuts|
  {
    if cuts != [] {
      RecoverySafe(d, tx);
      var ops := Recovery(d).ops;
      assert ops[..|ops|] == ops;
      SafePrefix(d, ops, if cuts[0] <= |ops| then cuts[0] else |ops|, tx);
      OpensGood(CutAt(d, ops, cuts[0]), tx, cuts[1..]);
    }
  }

  lemma CutGood(d: Disk, ops: seq<Op>, c: nat, tx: Txn)
    requires Safe(d, ops, tx)
    ensures Inv(CutAt(d, ops, c), tx)
  {
    assert ops[..|ops|] == ops;
    SafePrefix(d, ops, if c <= |ops| then c else |ops|, tx);
  }

  /** The disk after a publication cut short and recoveries cut short is in a good state. */
  lemma HistoryGood(d: Disk, tx: Txn, c: nat, cuts: seq<nat>)
    requires TxnOk(tx) && Quiet(d, tx) && tx.course.Either?
    ensures Inv(Opens(CutAt(d, PublishOps(d, tx.after), c), cuts), tx)
  {
    var ops := PublishOps(d, tx.after);
    PublishSafe(d, tx);
    CutGood(d, ops, c, tx);
    OpensGood(CutAt(d, ops, c), tx, cuts);
  }

  /** All or nothing over every history: publish, crash anywhere, then any number of recoveries
      that crash anywhere, then one recovery that runs to its end. It raises exactly in the
      stuck states, and otherwise every target is as before or every target is as staged. */
  lemma AllOrNothing(d: Disk, tx: Txn, k: nat, cuts: seq<nat>)
    requires TxnOk(tx) && Quiet(d, tx)
    ensures var e := Opens(CutAt(d, PublishOps(d, tx.after), k), cuts);
            var run := Recovery(e);
            && (run.raised <==> Stuck(e))
            && (!run.raised ==> var f := ExecAll(e, run.ops);
                                f.journal.None? && AllPublished(f) && (TargetsBefore(f, tx) || TargetsAfter(f, tx)))
  {
    var any := tx.(course := Either);
    HistoryGood(d, any, k, cuts);
    RecoverySafe(Opens(CutAt(d, PublishOps(d, tx.after), k), cuts), any);
  }

  lemma GoodTargets(d: Disk, tx: Txn, i: nat)
    requires Inv(d, tx) && i < |tx.before|
    ensures i < |d.slots| && (d.slots[i].target == tx.before[i] || d.slots[i].target == Some(tx.after[i]))
  {
    if !Quiet(d, tx) && !Forward(d, tx) && !Done(d, tx) {
      var a: nat, b: nat :| Under(d, tx, a, b);
      if i < a {
        assert Undone(d.slots[i], tx.before[i]);
      } else if i < a + b {
        assert Published(d.slots[i], tx.before[i], tx.after[i]);
      } else {
        assert Waiting(d.slots[i], tx.before[i]);
      }
    }
  }

  /** A reader that opens a target at any instant, of a publication or of any recoveries after it,
      sees what it held before or what was staged for it, whole; a target that existed is never
      absent. */
  lemma ReaderSeesOldOrNew(d: Disk, tx: Txn, k: nat, cuts: seq<nat>, i: nat)
    requires TxnOk(tx) && Quiet(d, tx) && i < |tx.before|
    ensures var e := Opens(CutAt(d, PublishOps(d, tx.after), k), cuts);
            i < |e.slots| && (e.slots[i].target == tx.before[i] || e.slots[i].target == Some(tx.after[i]))
  {
    var any := tx.(course := Either);
    HistoryGood(d, any, k, cuts);
    GoodTargets(Opens(CutAt(d, PublishOps(d, tx.after), k), cuts), any, i);
  }

  /** A publication interrupted anywhere, and the first recovery after it run to its end: the
      recovery never raises, and it goes forward exactly when every rename had been made while
      the journal was there. */
  lemma FirstRecovery(d: Disk, tx: Txn, k: nat)
    requires TxnOk(tx) && Quiet(d, tx)
    ensures var e := CutAt(d, PublishOps(d, tx.after), k);
            var f := ExecAll(e, Recovery(e).ops);
            && !Recovery(e).raised && f.journal.None? && AllPublished(f)
            && (e.journal.Some? ==> if AllPublished(e) then TargetsAfter(f, tx) else TargetsBefore(f, tx))
            && (e.journal.None? ==> (TargetsBefore(e, tx) && TargetsBefore(f, tx))
                                    || (TargetsAfter(e, tx) && TargetsAfter(f, tx)))
  {
    var first := tx.(course := First);
    var again := tx.(course := Either);
    PublishSafe(d, first);
    CutGood(d, PublishOps(d, tx.after), k, first);
    var e := CutAt(d, PublishOps(d, tx.after), k);
    if Quiet(e, first) || Done(e, first) {
      CleanSafe(e, again, 0);
    } else if Forward(e, first) {
      assert Forward(e, again);
      FinalizeForward(e, again, 0);
    } else {
      var a: nat, b: nat :| Under(e, first, a, b) && a == 0;
      assert Under(e, again, a, b);
      StuckUnder(e, again, a, b);
      RecoverySafe(e, again);
      if a + b < |e.slots| {
        assert Waiting(e.slots[b], tx.before[b]);
        assert e.slots[b] in e.slots;
      } else {
        UnderPublishedIsForward(e, first);
      }
    }
  }

  /** With at most two targets, as when a document and its tree file are saved, even a stuck
      transaction has put every target back. */
  lemma PairNeverMixed(d: Disk, tx: Txn)
    requires Inv(d, tx) && Stuck(d) && |d.slots| <= 2
    ensures TargetsBefore(d, tx)
  {
    assert !Quiet(d, tx) && !Done(d, tx) && !Forward(d, tx);
    var a: nat, b: nat :| Under(d, tx, a, b);
    StuckUnder(d, tx, a, b);
    forall i | 0 <= i < |d.slots| ensures d.slots[i].target == tx.before[i] {
      if i < a {
        assert Undone(d.slots[i], tx.before[i]);
      } else {
        assert Waiting(d.slots[i], tx.before[i]);
      }
    }
  }
}
