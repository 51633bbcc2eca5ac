/** The shutdown handlers of ai_editor/main_cleanup.py: any number of them, on any threads, share
    one lock that is not reentrant and two flags. A handler that arrives interrupts what runs on
    its thread. A signal handler ends by exiting, which unwinds the handlers it interrupted. */
module Shutdown {
  import opened SeqLaws
  import opened Wrappers

  datatype Kind = Signal | AtExit

  /** Where a handler is: before the lock that guards the log flag, inside it, writing the line;
      before the lock that guards the cleanup flag, inside it, stopping the workers; done, or
      unwound at the place where it was interrupted. */
  datatype Place = LogWait | LogHeld | Writing | CleanWait | CleanHeld | Stopping | Finished | Unwound(at: Place)

  datatype Effect = LineWritten(handler: nat) | WorkersStopped(handler: nat)

  /** Handlers are numbered in the order they arrive. `logger` is who set the log flag, `stopper`
      who set the cleanup flag; a flag is set when there is someone. */
  datatype State = State(places: seq<Place>, threads: seq<nat>, kinds: seq<Kind>, lock: Option<nat>,
                         logger: Option<nat>, stopper: Option<nat>, effects: seq<Effect>)

  datatype Action = Arrive(thread: nat, kind: Kind) | Move(handler: nat)

  function Initial(): State {
    State([], [], [], None, None, None, [])
  }

  predicate Ended(p: Place) {
    p.Finished? || p.Unwound?
  }

  predicate Sized(st: State) {
    |st.threads| == |st.places| == |st.kinds|
  }

  /** Nothing that arrived later on the same thread is still at work. */
  predicate OnTop(st: State, h: nat)
    requires Sized(st) && h < |st.places|
  {
    forall k :: h < k < |st.places| && st.threads[k] == st.threads[h] ==> Ended(st.places[k])
  }

  predicate CanMove(st: State, h: nat) {
    && Sized(st) && h < |st.places| && OnTop(st, h) && !Ended(st.places[h])
    && (st.places[h] == LogWait || st.places[h] == CleanWait ==> st.lock == None)
  }

  predicate AllEndedOn(st: State, thread: nat)
    requires Sized(st)
  {
    forall k :: 0 <= k < |st.places| && st.threads[k] == thread ==> Ended(st.places[k])
  }

  /** A signal may arrive at any time; exit handlers are called once a thread has been unwound. */
  predicate Enabled(st: State, a: Action) {
    match a
    case Arrive(t, kind) => Sized(st) && (kind.AtExit? ==> AllEndedOn(st, t))
    case Move(h) => CanMove(st, h)
  }

  function At(st: State, h: nat, p: Place): State
    requires h < |st.places|
  {
    st.(places := st.places[h := p])
  }

  /** What becomes of handler `i` when `h` is done. */
  function Exited(st: State, h: nat, i: nat): Place
    requires Sized(st) && h < |st.places| && i < |st.places|
  {
    if i == h then Finished
    else if st.kinds[h].Signal? && st.threads[i] == st.threads[h] && !Ended(st.places[i]) then Unwound(st.places[i])
    else st.places[i]
  }

  /** `h` is done. The exit of a signal handler goes through every handler still at work on its
      thread; one that holds the lock releases it. */
  function Exit(st: State, h: nat): State
    requires Sized(st) && h < |st.places|
  {
    var places := seq(|st.places|, i requires 0 <= i < |st.places| => Exited(st, h, i));
    var freed := st.lock.Some? && st.lock.value < |places| && Ended(places[st.lock.value]);
    st.(places := places, lock := if freed then None else st.lock)
  }

  function Next(st: State, a: Action): State
    requires Enabled(st, a)
  {
    match a
    case Arrive(t, kind) =>
      st.(places := st.places + [LogWait], threads := st.threads + [t], kinds := st.kinds + [kind])
    case Move(h) =>
      match st.places[h]
      case LogWait => At(st, h, LogHeld).(lock := Some(h))
      case LogHeld =>
        if st.logger.Some? then At(st, h, CleanWait).(lock := None)
        else At(st, h, Writing).(lock := None, logger := Some(h))
      case Writing => At(st, h, CleanWait).(effects := st.effects + [LineWritten(h)])
      case CleanWait => At(st, h, CleanHeld).(lock := Some(h))
      case CleanHeld =>
        if st.stopper.Some? then Exit(st, h)
        else At(st, h, Stopping).(lock := None, stopper := Some(h))
      case Stopping => Exit(st.(effects := st.effects + [WorkersStopped(h)]), h)
      case _ => st
  }

  predicate Run(st: State, actions: seq<Action>, end: State)
    decreases |actions|
  {
    if actions == [] then st == end
    else Enabled(st, actions[0]) && Run(Next(st, actions[0]), actions[1..], end)
  }

  predicate AllEnded(st: State) {
    forall p <- st.places :: Ended(p)
  }

  // ----- the invariant ---------------------------------------------------------------------

  /** At `q`, or unwound there. */
  predicate Was(p: Place, q: Place) {
    p == q || p == Unwound(q)
  }

  predicate PastLog(p: Place) {
    !Was(p, LogWait) && !Was(p, LogHeld)
  }

  /** The one line there is, once the handler that set the flag has written it. */
  function Lines(st: State): seq<Effect> {
    if st.logger.Some? && st.logger.value < |st.places| && !Was(st.places[st.logger.value], Writing)
    then [LineWritten(st.logger.value)] else []
  }

  function Stops(st: State): seq<Effect> {
    if st.stopper.Some? && st.stopper.value < |st.places| && !Was(st.places[st.stopper.value], Stopping)
    then [WorkersStopped(st.stopper.value)] else []
  }

  /** The holder of the lock is the handler inside one of the two guarded sections. */
  predicate LockOk(st: State) {
    && Sized(st)
    && (forall h :: 0 <= h < |st.places| ==> (st.lock == Some(h) <==> st.places[h] == LogHeld || st.places[h] == CleanHeld))
    && (st.lock.Some? ==> st.lock.value < |st.places|)
  }

  /** Nobody is unwound twice, and exit handlers have nothing at work below them. */
  predicate PlacesOk(st: State) {
    && Sized(st)
    && (forall h :: 0 <= h < |st.places| && st.places[h].Unwound? ==> !Ended(st.places[h].at))
    && (forall h, k :: 0 <= h < k < |st.places| && st.kinds[k].AtExit? && st.threads[h] == st.threads[k] ==>
          Ended(st.places[h]))
  }

  /** Who is past a flag finds it set, and who acts on a flag is the one who set it. */
  predicate FlagAt(p: Place, h: nat, logger: Option<nat>, stopper: Option<nat>) {
    && (PastLog(p) ==> logger.Some?)
    && (Was(p, Writing) ==> logger == Some(h))
    && (Was(p, Stopping) ==> stopper == Some(h))
    && (Ended(p) ==> stopper.Some?)
  }

  /** Who set a flag has gone on from there. */
  predicate OwnersOk(st: State) {
    && (st.logger.Some? ==> st.logger.value < |st.places| && PastLog(st.places[st.logger.value]))
    && (st.stopper.Some? ==> st.logger.Some? && st.stopper.value < |st.places|
                             && (Was(st.places[st.stopper.value], Stopping) || st.places[st.stopper.value] == Finished))
  }

  predicate FlagsOk(st: State) {
    OwnersOk(st) && forall h :: 0 <= h < |st.places| ==> FlagAt(st.places[h], h, st.logger, st.stopper)
  }

  /** Nothing else has had an effect. */
  predicate EffectsOk(st: State) {
    st.effects == Lines(st) + Stops(st) || st.effects == Stops(st) + Lines(st)
  }

  predicate Inv(st: State) {
    LockOk(st) && PlacesOk(st) && FlagsOk(st) && EffectsOk(st)
  }

  lemma EffectsSame(st: State, next: State)
    requires EffectsOk(st) && next.effects == st.effects && Lines(next) == Lines(st) && Stops(next) == Stops(st)
    ensures EffectsOk(next)
  {
  }

  lemma EffectsLine(st: State, next: State)
    requires EffectsOk(st) && Lines(st) == [] && Stops(next) == Stops(st)
    requires next.effects == st.effects + Lines(next)
    ensures EffectsOk(next)
  {
  }

  lemma EffectsStop(st: State, next: State)
    requires EffectsOk(st) && Stops(st) == [] && Lines(next) == Lines(st)
    requires next.effects == st.effects + Stops(next)
    ensures EffectsOk(next)
  {
  }

  /** An exit keeps what had been set and done. */
  lemma ExitKeeps(st: State, h: nat)
    requires LockOk(st) && PlacesOk(st) && FlagsOk(st) && h < |st.places| && !Ended(st.places[h])
    requires st.stopper.Some? && PastLog(st.places[h]) && st.places[h] != Writing
    ensures LockOk(Exit(st, h)) && PlacesOk(Exit(st, h)) && FlagsOk(Exit(st, h))
    ensures Lines(Exit(st, h)) == Lines(st)
    ensures st.stopper != Some(h) ==> Stops(Exit(st, h)) == Stops(st)
    ensures st.stopper == Some(h) ==> Stops(Exit(st, h)) == [WorkersStopped(h)]
  {
    var next := Exit(st, h);
    forall i | 0 <= i < |st.places|
      ensures next.places[i] == Exited(st, h, i)
      ensures i != h ==> (next.places[i] == st.places[i] || next.places[i] == Unwound(st.places[i]))
      ensures FlagAt(next.places[i], i, next.logger, next.stopper)
    {
      assert FlagAt(st.places[i], i, st.logger, st.stopper);
    }
  }

  lemma MoveEffects(st: State, h: nat)
    requires Inv(st) && CanMove(st, h)
    ensures EffectsOk(Next(st, Move(h)))
  {
    var next := Next(st, Move(h));
    match st.places[h]
    case Writing => EffectsLine(st, next);
    case Stopping =>
      ExitKeeps(st.(effects := st.effects + [WorkersStopped(h)]), h);
      EffectsStop(st, next);
    case CleanHeld =>
      if st.stopper.Some? {
        ExitKeeps(st, h);
      }
      EffectsSame(st, next);
    case _ => EffectsSame(st, next);
  }

  lemma MoveLock(st: State, h: nat)
    requires LockOk(st) && PlacesOk(st) && FlagsOk(st) && CanMove(st, h)
    ensures LockOk(Next(st, Move(h))) && PlacesOk(Next(st, Move(h)))
  {
    assert st.lock == Some(h) <==> st.places[h] == LogHeld || st.places[h] == CleanHeld;
    match st.places[h]
    case Stopping => ExitKeeps(st.(effects := st.effects + [WorkersStopped(h)]), h);
    case CleanHeld =>
      if st.stopper.Some? {
        ExitKeeps(st, h);
      }
    case _ =>
  }

  /** One handler goes on to `q`, setting flags that were not set. */
  lemma StepFlags(st: State, h: nat, q: Place, logger: Option<nat>, stopper: Option<nat>)
    requires FlagsOk(st) && h < |st.places| && FlagAt(q, h, logger, stopper)
    requires logger == st.logger || (st.logger.None? && logger == Some(h))
    requires stopper == st.stopper || (st.stopper.None? && stopper == Some(h))
    requires OwnersOk(At(st, h, q).(logger := logger, stopper := stopper))
    ensures FlagsOk(At(st, h, q).(logger := logger, stopper := stopper))
  {
    var next := At(st, h, q).(logger := logger, stopper := stopper);
    forall k | 0 <= k < |st.places| ensures FlagAt(next.places[k], k, logger, stopper) {
      assert FlagAt(st.places[k], k, st.logger, st.stopper);
    }
  }

  lemma SameFlags(a: State, b: State)
    requires FlagsOk(a) && a.places == b.places && a.logger == b.logger && a.stopper == b.stopper
    ensures FlagsOk(b)
  {
    forall h | 0 <= h < |b.places| ensures FlagAt(b.places[h], h, b.logger, b.stopper) {
      assert FlagAt(a.places[h], h, a.logger, a.stopper);
    }
  }

  lemma MoveFlags(st: State, h: nat)
    requires LockOk(st) && PlacesOk(st) && FlagsOk(st) && CanMove(st, h)
    ensures FlagsOk(Next(st, Move(h)))
  {
    assert FlagAt(st.places[h], h, st.logger, st.stopper);
    match st.places[h]
    case LogWait => StepFlags(st, h, LogHeld, st.logger, st.stopper);
      SameFlags(At(st, h, LogHeld), Next(st, Move(h)));
    case LogHeld => LogHeldFlags(st, h);
    case Writing => StepFlags(st, h, CleanWait, st.logger, st.stopper);
      SameFlags(At(st, h, CleanWait), Next(st, Move(h)));
    case CleanWait => StepFlags(st, h, CleanHeld, st.logger, st.stopper);
      SameFlags(At(st, h, CleanHeld), Next(st, Move(h)));
    case CleanHeld => CleanHeldFlags(st, h);
    case Stopping => ExitKeeps(st.(effects := st.effects + [WorkersStopped(h)]), h);
    case _ =>
  }

  lemma LogHeldFlags(st: State, h: nat)
    requires LockOk(st) && FlagsOk(st) && CanMove(st, h) && st.places[h] == LogHeld
    ensures FlagsOk(Next(st, Move(h)))
  {
    var next := Next(st, Move(h));
    if st.logger.Some? {
      StepFlags(st, h, CleanWait, st.logger, st.stopper);
      SameFlags(At(st, h, CleanWait), next);
    } else {
      StepFlags(st, h, Writing, Some(h), st.stopper);
      SameFlags(At(st, h, Writing).(logger := Some(h), stopper := st.stopper), next);
    }
  }

  lemma CleanHeldFlags(st: State, h: nat)
    requires LockOk(st) && PlacesOk(st) && FlagsOk(st) && CanMove(st, h) && st.places[h] == CleanHeld
    ensures FlagsOk(Next(st, Move(h)))
  {
    assert FlagAt(st.places[h], h, st.logger, st.stopper);
    if st.stopper.Some? {
      ExitKeeps(st, h);
    } else {
      StepFlags(st, h, Stopping, st.logger, Some(h));
      SameFlags(At(st, h, Stopping).(logger := st.logger, stopper := Some(h)), Next(st, Move(h)));
    }
  }

  lemma NextInv(st: State, a: Action)
    requires Inv(st) && Enabled(st, a)
    ensures Inv(Next(st, a))
  {
    match a
    case Arrive(t, kind) => EffectsSame(st, Next(st, a));
    case Move(h) =>
      MoveLock(st, h);
      MoveFlags(st, h);
      MoveEffects(st, h);
  }

  lemma {:induction false} RunInv(st: State, actions: seq<Action>, end: State)
    requires Inv(st) && Run(st, actions, end)
    ensures Inv(end)
    decreases |actions|
  {
    if actions != [] {
      NextInv(st, actions[0]);
      RunInv(Next(st, actions[0]), actions[1..], end);
    }
  }

  function CountLines(es: seq<Effect>): nat {
    if es == [] then 0 else (if es[0].LineWritten? then 1 else 0) + CountLines(es[1..])
  }

  function CountStops(es: seq<Effect>): nat {
    if es == [] then 0 else (if es[0].WorkersStopped? then 1 else 0) + CountStops(es[1..])
  }

  lemma Counts(st: State)
    requires Inv(st)
    ensures CountLines(st.effects) == |Lines(st)| && CountStops(st.effects) == |Stops(st)|
  {
    CountConcat(Lines(st), Stops(st));
    CountConcat(Stops(st), Lines(st));
    if Lines(st) != [] {
      assert Lines(st)[1..] == [];
    }
    if Stops(st) != [] {
      assert Stops(st)[1..] == [];
    }
  }

  lemma {:induction false} CountConcat(a: seq<Effect>, b: seq<Effect>)
    ensures CountLines(a + b) == CountLines(a) + CountLines(b)
    ensures CountStops(a + b) == CountStops(a) + CountStops(b)
  {
    if a == [] {
      assert a + b == b;
    } else {
      CountConcat(a[1..], b);
      ConcatHead(a, b);
    }
  }

  /** In every interleaving the shutdown line is written at most once and the workers are stopped
      at most once, and the cleanup flag is set only after the log flag. */
  lemma OnceOnly(actions: seq<Action>, st: State)
    requires Run(Initial(), actions, st)
    ensures CountLines(st.effects) <= 1 && CountStops(st.effects) <= 1
    ensures st.stopper.Some? ==> st.logger.Some?
  {
    RunInv(Initial(), actions, st);
    Counts(st);
  }

  // ----- exactly once ----------------------------------------------------------------------

  /** Something arrives on the thread of a handler that is at `p`. */
  predicate Hits(st: State, a: Action, p: Place)
    requires Sized(st)
  {
    a.Arrive? && exists h :: 0 <= h < |st.places| && st.places[h] == p && st.threads[h] == a.thread
  }

  /** At some point of the run something arrives on the thread of a handler that is at `p`. */
  predicate HitWhile(st: State, actions: seq<Action>, p: Place)
    decreases |actions|
  {
    && actions != [] && Sized(st) && Enabled(st, actions[0])
    && (Hits(st, actions[0], p) || HitWhile(Next(st, actions[0]), actions[1..], p))
  }

  /** Some handler was unwound at `p`, or is at `p` with another above it. */
  predicate Doomed(st: State, p: Place)
    requires Sized(st)
  {
    exists h :: 0 <= h < |st.places| && DoomedAt(st, p, h)
  }

  predicate DoomedAt(st: State, p: Place, h: nat)
    requires Sized(st) && h < |st.places|
  {
    st.places[h] == Unwound(p) || (st.places[h] == p && !OnTop(st, h))
  }

  lemma ArriveDooms(st: State, t: nat, kind: Kind, p: Place)
    requires Inv(st) && Enabled(st, Arrive(t, kind)) && !Ended(p) && p != LogWait
    ensures var next := Next(st, Arrive(t, kind));
            Sized(next) && (Doomed(next, p) <==> Doomed(st, p) || Hits(st, Arrive(t, kind), p))
  {
    var next := Next(st, Arrive(t, kind));
    var n := |st.places|;
    assert next.places[n] == LogWait && next.threads[n] == t;
    forall h | 0 <= h < n
      ensures DoomedAt(next, p, h) <==> DoomedAt(st, p, h) || (st.places[h] == p && st.threads[h] == t)
    {
      ArriveOver(st, t, kind, h);
    }
    assert !DoomedAt(next, p, n);
  }

  lemma ArriveOver(st: State, t: nat, kind: Kind, h: nat)
    requires Sized(st) && Enabled(st, Arrive(t, kind)) && h < |st.places|
    ensures var next := Next(st, Arrive(t, kind));
            OnTop(next, h) <==> OnTop(st, h) && st.threads[h] != t
  {
    var next := Next(st, Arrive(t, kind));
    var n := |st.places|;
    assert next.places[n] == LogWait && next.threads[n] == t;
    forall k | h < k < n ensures next.places[k] == st.places[k] && next.threads[k] == st.threads[k] {
    }
  }

  /** A handler that goes on is on top, so it dooms nobody and saves nobody. */
  lemma StepDooms(st: State, h: nat, q: Place, p: Place)
    requires Inv(st) && CanMove(st, h) && !Ended(p) && !Ended(q)
    ensures Doomed(At(st, h, q), p) <==> Doomed(st, p)
  {
    var next := At(st, h, q);
    forall w | 0 <= w < |st.places| ensures DoomedAt(next, p, w) <==> DoomedAt(st, p, w) {
      assert OnTop(next, w) <==> OnTop(st, w) by {
        forall k | 0 <= k < |st.places| ensures Ended(next.places[k]) <==> Ended(st.places[k]) {
        }
      }
    }
  }

  /** An exit unwinds exactly the handlers that had another above them on its thread. */
  lemma ExitDooms(st: State, h: nat, p: Place)
    requires PlacesOk(st) && h < |st.places| && OnTop(st, h) && !Ended(st.places[h]) && !Ended(p)
    ensures Sized(Exit(st, h)) && (Doomed(Exit(st, h), p) <==> Doomed(st, p))
  {
    var next := Exit(st, h);
    forall w | 0 <= w < |st.places| ensures DoomedAt(next, p, w) <==> DoomedAt(st, p, w) {
      ExitDoomsAt(st, h, p, w);
    }
  }

  lemma ExitDoomsAt(st: State, h: nat, p: Place, w: nat)
    requires PlacesOk(st) && h < |st.places| && OnTop(st, h) && !Ended(st.places[h]) && !Ended(p)
    requires w < |st.places|
    ensures DoomedAt(Exit(st, h), p, w) <==> DoomedAt(st, p, w)
  {
    var next := Exit(st, h);
    assert next.places[w] == Exited(st, h, w);
    if st.threads[w] == st.threads[h] {
      if w < h && !Ended(st.places[w]) {
        assert st.kinds[h].Signal?;
        assert !OnTop(st, w);
      }
    } else {
      forall k | w < k < |st.places| && st.threads[k] == st.threads[w] ensures next.places[k] == st.places[k] {
        assert next.places[k] == Exited(st, h, k);
      }
      assert OnTop(next, w) <==> OnTop(st, w);
    }
  }

  lemma SteppedDooms(st: State, h: nat, q: Place, next: State, p: Place)
    requires Inv(st) && CanMove(st, h) && !Ended(p) && !Ended(q)
    requires Sized(next) && next.places == st.places[h := q] && next.threads == st.threads
    ensures Doomed(next, p) <==> Doomed(st, p)
  {
    StepDooms(st, h, q, p);
    SameDooms(At(st, h, q), next, p);
  }

  lemma MoveDooms(st: State, h: nat, p: Place)
    requires Inv(st) && CanMove(st, h) && !Ended(p)
    ensures Sized(Next(st, Move(h))) && (Doomed(Next(st, Move(h)), p) <==> Doomed(st, p))
  {
    var next := Next(st, Move(h));
    match st.places[h]
    case LogWait => SteppedDooms(st, h, LogHeld, next, p);
    case LogHeld => SteppedDooms(st, h, if st.logger.Some? then CleanWait else Writing, next, p);
    case Writing => SteppedDooms(st, h, CleanWait, next, p);
    case CleanWait => SteppedDooms(st, h, CleanHeld, next, p);
    case CleanHeld =>
      if st.stopper.Some? {
        ExitDooms(st, h, p);
      } else {
        SteppedDooms(st, h, Stopping, next, p);
      }
    case Stopping =>
      var done := st.(effects := st.effects + [WorkersStopped(h)]);
      ExitDooms(done, h, p);
      SameDooms(st, done, p);
    case _ =>
  }

  lemma NextDooms(st: State, a: Action, p: Place)
    requires Inv(st) && Enabled(st, a) && !Ended(p) && p != LogWait
    ensures Sized(Next(st, a)) && (Doomed(Next(st, a), p) <==> Doomed(st, p) || Hits(st, a, p))
  {
    match a
    case Arrive(t, kind) => ArriveDooms(st, t, kind, p);
    case Move(h) => MoveDooms(st, h, p);
  }

  /** Being doomed is a matter of places and threads. */
  lemma SameDooms(a: State, b: State, p: Place)
    requires Sized(a) && Sized(b) && a.places == b.places && a.threads == b.threads
    ensures Doomed(a, p) <==> Doomed(b, p)
  {
    forall h | 0 <= h < |a.places| ensures DoomedAt(a, p, h) <==> DoomedAt(b, p, h) {
      assert OnTop(a, h) <==> OnTop(b, h);
    }
  }

  lemma {:induction false} RunDooms(st: State, actions: seq<Action>, end: State, p: Place)
    requires Inv(st) && Run(st, actions, end) && !Ended(p) && p != LogWait
    ensures Sized(end) && (Doomed(end, p) <==> Doomed(st, p) || HitWhile(st, actions, p))
    decreases |actions|
  {
    if actions != [] {
      NextInv(st, actions[0]);
      NextDooms(st, actions[0], p);
      RunDooms(Next(st, actions[0]), actions[1..], end, p);
    }
  }

  /** Once every handler is done, if there was one, both flags were set, by someone who did the
      work or was unwound at it. */
  lemma EndedFlags(st: State)
    requires Inv(st) && AllEnded(st) && st.places != []
    ensures st.logger.Some? && st.stopper.Some?
    ensures Lines(st) == [] <==> Doomed(st, Writing)
    ensures Stops(st) == [] <==> Doomed(st, Stopping)
  {
    assert st.places[0] in st.places;
    forall h | 0 <= h < |st.places| ensures Ended(st.places[h]) {
      assert st.places[h] in st.places;
    }
    if Lines(st) == [] {
      assert DoomedAt(st, Writing, st.logger.value);
    }
    if Stops(st) == [] {
      assert DoomedAt(st, Stopping, st.stopper.value);
    }
  }

  /** Once every handler is done, if there was one: the line has been written exactly once if and
      only if no handler arrived on the thread that was writing it, and the workers have been
      stopped exactly once if and only if none arrived on the thread that was stopping them. */
  lemma ExactlyOnceWhen(actions: seq<Action>, st: State)
    requires Run(Initial(), actions, st) && AllEnded(st) && st.places != []
    ensures CountLines(st.effects) == 1 <==> !HitWhile(Initial(), actions, Writing)
    ensures CountStops(st.effects) == 1 <==> !HitWhile(Initial(), actions, Stopping)
  {
    RunInv(Initial(), actions, st);
    Counts(st);
    EndedFlags(st);
    RunDooms(Initial(), actions, st, Writing);
    RunDooms(Initial(), actions, st, Stopping);
  }

  predicate SeparateThreads(threads: seq<nat>) {
    forall i, j :: 0 <= i < j < |threads| ==> threads[i] != threads[j]
  }

  lemma SeparateArrival(st: State, a: Action, p: Place)
    requires Sized(st) && Enabled(st, a) && SeparateThreads(Next(st, a).threads)
    ensures !Hits(st, a, p) && SeparateThreads(st.threads)
  {
    var next := Next(st, a);
    var n := |st.threads|;
    forall h | 0 <= h < n ensures next.threads[h] == st.threads[h] {
    }
    if a.Arrive? {
      assert next.threads[n] == a.thread;
    }
  }

  lemma {:induction false} SeparateNeverHit(st: State, actions: seq<Action>, end: State, p: Place)
    requires Inv(st) && Run(st, actions, end) && SeparateThreads(end.threads)
    ensures !HitWhile(st, actions, p) && SeparateThreads(st.threads)
    decreases |actions|
  {
    if actions != [] {
      NextInv(st, actions[0]);
      SeparateNeverHit(Next(st, actions[0]), actions[1..], end, p);
      SeparateArrival(st, actions[0], p);
    }
  }

  /** On separate threads nobody is ever interrupted: each happens exactly once. */
  lemma SeparateThreadsOnce(actions: seq<Action>, st: State)
    requires Run(Initial(), actions, st) && AllEnded(st) && st.places != [] && SeparateThreads(st.threads)
    ensures CountLines(st.effects) == 1 && CountStops(st.effects) == 1
  {
    ExactlyOnceWhen(actions, st);
    SeparateNeverHit(Initial(), actions, st, Writing);
    SeparateNeverHit(Initial(), actions, st, Stopping);
  }

  // ----- runs that lose the line or the stop -----------------------------------------------

  predicate Same(a: State, b: State) {
    && a.places == b.places && a.threads == b.threads && a.kinds == b.kinds && a.lock == b.lock
    && a.logger == b.logger && a.stopper == b.stopper && a.effects == b.effects
  }

  lemma First(st: State, a: Action, next: State, rest: seq<Action>, end: State) returns (actions: seq<Action>)
    requires Enabled(st, a) && Same(Next(st, a), next) && Run(next, rest, end)
    ensures Run(st, actions, end) && actions == [a] + rest
  {
    actions := [a] + rest;
    assert actions[1..] == rest;
  }

  /** One signal handler alone on its thread. */
  function Alone(p: Place, lock: Option<nat>, logger: Option<nat>): State {
    State([p], [0], [Signal], lock, logger, None, [])
  }

  lemma ReachWriting(rest: seq<Action>, end: State) returns (actions: seq<Action>)
    requires Run(Alone(Writing, None, Some(0)), rest, end)
    ensures Run(Initial(), actions, end)
  {
    actions := First(Alone(LogHeld, Some(0), None), Move(0), Alone(Writing, None, Some(0)), rest, end);
    actions := First(Alone(LogWait, None, None), Move(0), Alone(LogHeld, Some(0), None), actions, end);
    actions := First(Initial(), Arrive(0, Signal), Alone(LogWait, None, None), actions, end);
  }

  /** Two signal handlers on one thread, the first writing the line. */
  function OverWriting(p: Place, lock: Option<nat>, stopper: Option<nat>): State {
    State([Writing, p], [0, 0], [Signal, Signal], lock, Some(0), stopper, [])
  }

  function LineLost(): State {
    State([Unwound(Writing), Finished], [0, 0], [Signal, Signal], None, Some(0), Some(1), [WorkersStopped(1)])
  }

  lemma LineLostLast() returns (actions: seq<Action>)
    ensures Run(OverWriting(CleanWait, None, None), actions, LineLost())
  {
    var end := LineLost();
    actions := First(OverWriting(Stopping, None, Some(1)), Move(1), end, [], end);
    actions := First(OverWriting(CleanHeld, Some(1), None), Move(1), OverWriting(Stopping, None, Some(1)), actions, end);
    actions := First(OverWriting(CleanWait, None, None), Move(1), OverWriting(CleanHeld, Some(1), None), actions, end);
  }

  lemma LineLostFrom() returns (actions: seq<Action>)
    ensures Run(Alone(Writing, None, Some(0)), actions, LineLost())
  {
    var end := LineLost();
    actions := LineLostLast();
    actions := First(OverWriting(LogHeld, Some(1), None), Move(1), OverWriting(CleanWait, None, None), actions, end);
    actions := First(OverWriting(LogWait, None, None), Move(1), OverWriting(LogHeld, Some(1), None), actions, end);
    actions := First(Alone(Writing, None, Some(0)), Arrive(0, Signal), OverWriting(LogWait, None, None), actions, end);
  }

  /** A second signal arrives while the first one's handler is writing the line: its exit unwinds
      the first, and the line is never written. */
  lemma LineLostHappens() returns (actions: seq<Action>)
    ensures Run(Initial(), actions, LineLost())
    ensures AllEnded(LineLost()) && CountLines(LineLost().effects) == 0 && CountStops(LineLost().effects) == 1
  {
    actions := LineLostFrom();
    actions := ReachWriting(actions, LineLost());
    assert LineLost().effects[1..] == [];
  }

  /** One signal handler that has written the line. */
  function Logged(p: Place, lock: Option<nat>, stopper: Option<nat>): State {
    State([p], [0], [Signal], lock, Some(0), stopper, [LineWritten(0)])
  }

  /** Two signal handlers on one thread, the first stopping the workers. */
  function OverStopping(p: Place, lock: Option<nat>): State {
    State([Stopping, p], [0, 0], [Signal, Signal], lock, Some(0), Some(0), [LineWritten(0)])
  }

  function StopLost(): State {
    State([Unwound(Stopping), Finished], [0, 0], [Signal, Signal], None, Some(0), Some(0), [LineWritten(0)])
  }

  lemma StopLostLast() returns (actions: seq<Action>)
    ensures Run(OverStopping(LogHeld, Some(1)), actions, StopLost())
  {
    var end := StopLost();
    actions := First(OverStopping(CleanHeld, Some(1)), Move(1), end, [], end);
    actions := First(OverStopping(CleanWait, None), Move(1), OverStopping(CleanHeld, Some(1)), actions, end);
    actions := First(OverStopping(LogHeld, Some(1)), Move(1), OverStopping(CleanWait, None), actions, end);
  }

  lemma StopLostFrom() returns (actions: seq<Action>)
    ensures Run(Logged(CleanHeld, Some(0), None), actions, StopLost())
  {
    var end := StopLost();
    actions := StopLostLast();
    actions := First(OverStopping(LogWait, None), Move(1), OverStopping(LogHeld, Some(1)), actions, end);
    actions := First(Logged(Stopping, None, Some(0)), Arrive(0, Signal), OverStopping(LogWait, None), actions, end);
    actions := First(Logged(CleanHeld, Some(0), None), Move(0), Logged(Stopping, None, Some(0)), actions, end);
  }

  /** A second signal arrives while the workers are being stopped: stopping them is given up, and
      nobody tries again. */
  lemma StopLostHappens() returns (actions: seq<Action>)
    ensures Run(Initial(), actions, StopLost())
    ensures AllEnded(StopLost()) && CountLines(StopLost().effects) == 1 && CountStops(StopLost().effects) == 0
  {
    var end := StopLost();
    actions := StopLostFrom();
    actions := First(Logged(CleanWait, None, None), Move(0), Logged(CleanHeld, Some(0), None), actions, end);
    actions := First(Alone(Writing, None, Some(0)), Move(0), Logged(CleanWait, None, None), actions, end);
    actions := ReachWriting(actions, end);
    assert end.effects[1..] == [];
  }

  // ----- the order of the two effects ------------------------------------------------------

  /** Workers may be stopped before the line is written, but only by another handler, while the
      one that set the flag is still about to write it, or was unwound there. */
  lemma StopBeforeLine(actions: seq<Action>, st: State)
    requires Run(Initial(), actions, st) && CountStops(st.effects) == 1 && CountLines(st.effects) == 0
    ensures st.logger.Some? && st.stopper.Some? && st.logger != st.stopper
    ensures st.logger.value < |st.places| && Was(st.places[st.logger.value], Writing)
  {
    RunInv(Initial(), actions, st);
    Counts(st);
  }

  /** Two handlers on two threads, the first about to write the line. */
  function TwoThreads(p: Place, lock: Option<nat>, stopper: Option<nat>, effects: seq<Effect>): State {
    State([Writing, p], [0, 1], [Signal, Signal], lock, Some(0), stopper, effects)
  }

  function StoppedFirst(): State {
    TwoThreads(Finished, None, Some(1), [WorkersStopped(1)])
  }

  lemma OvertakesLast() returns (actions: seq<Action>)
    ensures Run(TwoThreads(CleanWait, None, None, []), actions, StoppedFirst())
  {
    var end := StoppedFirst();
    actions := First(TwoThreads(Stopping, None, Some(1), []), Move(1), end, [], end);
    actions := First(TwoThreads(CleanHeld, Some(1), None, []), Move(1), TwoThreads(Stopping, None, Some(1), []), actions, end);
    actions := First(TwoThreads(CleanWait, None, None, []), Move(1), TwoThreads(CleanHeld, Some(1), None, []), actions, end);
  }

  lemma Overtakes() returns (actions: seq<Action>)
    ensures Run(Alone(Writing, None, Some(0)), actions, StoppedFirst())
  {
    var end := StoppedFirst();
    actions := OvertakesLast();
    actions := First(TwoThreads(LogHeld, Some(1), None, []), Move(1), TwoThreads(CleanWait, None, None, []), actions, end);
    actions := First(TwoThreads(LogWait, None, None, []), Move(1), TwoThreads(LogHeld, Some(1), None, []), actions, end);
    actions := First(Alone(Writing, None, Some(0)), Arrive(1, Signal), TwoThreads(LogWait, None, None, []), actions, end);
  }

  /** It does happen, with two handlers on two threads, and the line may still follow. */
  lemma StopBeforeLineHappens() returns (actions: seq<Action>)
    ensures Run(Initial(), actions, StoppedFirst()) && CanMove(StoppedFirst(), 0)
    ensures CountStops(StoppedFirst().effects) == 1 && CountLines(StoppedFirst().effects) == 0
  {
    actions := Overtakes();
    actions := ReachWriting(actions, StoppedFirst());
    assert StoppedFirst().effects[1..] == [];
  }

  // ----- when the handlers get stuck -------------------------------------------------------

  /** The handler that holds the lock has been interrupted on its own thread. */
  predicate Covered(st: State) {
    Sized(st) && st.lock.Some? && st.lock.value < |st.places| && !OnTop(st, st.lock.value)
  }

  /** Whoever arrived above the holder of the lock is still in front of it. */
  predicate Blocked(st: State) {
    Sized(st) &&
    (st.lock.Some? ==>
       forall k :: st.lock.value < k < |st.places| && st.threads[k] == st.threads[st.lock.value] ==>
         st.places[k] == LogWait || Ended(st.places[k]))
  }

  /** Whoever holds the lock after a step held it before, or has just taken it, being on top. */
  lemma NextBlocked(st: State, a: Action)
    requires Inv(st) && Blocked(st) && Enabled(st, a)
    ensures Blocked(Next(st, a))
  {
    match a
    case Arrive(t, kind) => ArriveBlocked(st, a);
    case Move(h) =>
      var next := Next(st, a);
      MoveSize(st, h);
      forall k | next.lock.Some? && next.lock.value < k < |next.places| && next.threads[k] == next.threads[next.lock.value]
        ensures next.places[k] == LogWait || Ended(next.places[k])
      {
        MoveBlocked(st, h, next.lock.value, k);
      }
  }

  lemma ArriveBlocked(st: State, a: Action)
    requires LockOk(st) && Blocked(st) && Enabled(st, a) && a.Arrive?
    ensures Blocked(Next(st, a))
  {
  }

  lemma MoveSize(st: State, h: nat)
    requires CanMove(st, h)
    ensures Sized(Next(st, Move(h))) && |Next(st, Move(h)).places| == |st.places|
    ensures Next(st, Move(h)).threads == st.threads
  {
  }

  lemma MoveBlocked(st: State, h: nat, x: nat, k: nat)
    requires Inv(st) && Blocked(st) && CanMove(st, h) && x < k < |st.places| && st.threads[k] == st.threads[x]
    requires Next(st, Move(h)).lock == Some(x)
    ensures Sized(Next(st, Move(h))) && k < |Next(st, Move(h)).places|
    ensures var p := Next(st, Move(h)).places[k]; p == LogWait || Ended(p)
  {
    if h == x {
      assert Ended(st.places[k]);
    } else {
      assert st.lock == Some(x);
      assert st.lock == Some(h) <==> st.places[h] == LogHeld || st.places[h] == CleanHeld;
      assert st.places[k] == LogWait || Ended(st.places[k]);
    }
  }

  lemma {:induction false} RunBlocked(st: State, actions: seq<Action>, end: State)
    requires Inv(st) && Blocked(st) && Run(st, actions, end)
    ensures Inv(end) && Blocked(end)
    decreases |actions|
  {
    if actions != [] {
      NextInv(st, actions[0]);
      NextBlocked(st, actions[0]);
      RunBlocked(Next(st, actions[0]), actions[1..], end);
    }
  }

  lemma {:induction false} LastAtWork(st: State, n: nat) returns (h: nat)
    requires n <= |st.places| && exists k :: 0 <= k < n && !Ended(st.places[k])
    ensures h < n && !Ended(st.places[h]) && forall k :: h < k < n ==> Ended(st.places[k])
  {
    if !Ended(st.places[n - 1]) {
      h := n - 1;
    } else {
      h := LastAtWork(st, n - 1);
    }
  }

  lemma TopAtWork(st: State) returns (h: nat)
    requires Sized(st) && !AllEnded(st)
    ensures h < |st.places| && !Ended(st.places[h]) && OnTop(st, h)
  {
    var p :| p in st.places && !Ended(p);
    h := LastAtWork(st, |st.places|);
  }

  /** As long as the holder of the lock has not been interrupted on its own thread, some handler
      can go on until all are done. */
  lemma Progress(actions: seq<Action>, st: State) returns (h: nat)
    requires Run(Initial(), actions, st) && !Covered(st) && !AllEnded(st)
    ensures CanMove(st, h)
  {
    RunInv(Initial(), actions, st);
    h := StepInTime(st);
  }

  lemma StepInTime(st: State) returns (h: nat)
    requires Inv(st) && !Covered(st) && !AllEnded(st)
    ensures CanMove(st, h)
  {
    if st.lock.Some? {
      h := st.lock.value;
      assert st.places[h] == LogHeld || st.places[h] == CleanHeld;
    } else {
      h := TopAtWork(st);
    }
  }

  // ----- handlers finish -------------------------------------------------------------------

  /** How many moves a handler has left at most. */
  function MovesLeft(p: Place): nat {
    match p
    case LogWait => 6
    case LogHeld => 5
    case Writing => 4
    case CleanWait => 3
    case CleanHeld => 2
    case Stopping => 1
    case _ => 0
  }

  function AllMovesLeft(places: seq<Place>): nat {
    if places == [] then 0 else MovesLeft(places[0]) + AllMovesLeft(places[1..])
  }

  lemma {:induction false} SixEach(places: seq<Place>)
    ensures AllMovesLeft(places) <= 6 * |places|
  {
    if places != [] {
      SixEach(places[1..]);
    }
  }

  lemma {:induction false} LeftFalls(before: seq<Place>, after: seq<Place>, h: nat)
    requires |before| == |after| && h < |before| && MovesLeft(after[h]) < MovesLeft(before[h])
    requires forall i :: 0 <= i < |before| ==> MovesLeft(after[i]) <= MovesLeft(before[i])
    ensures AllMovesLeft(after) < AllMovesLeft(before)
  {
    if h > 0 {
      LeftFalls(before[1..], after[1..], h - 1);
    } else {
      LeftNotMore(before[1..], after[1..]);
    }
  }

  lemma {:induction false} LeftNotMore(before: seq<Place>, after: seq<Place>)
    requires |before| == |after| && forall i :: 0 <= i < |before| ==> MovesLeft(after[i]) <= MovesLeft(before[i])
    ensures AllMovesLeft(after) <= AllMovesLeft(before)
  {
    if before != [] {
      LeftNotMore(before[1..], after[1..]);
    }
  }

  lemma MoveAdvances(st: State, h: nat)
    requires CanMove(st, h)
    ensures AllMovesLeft(Next(st, Move(h)).places) < AllMovesLeft(st.places)
  {
    LeftFalls(st.places, Next(st, Move(h)).places, h);
  }

  /** A move covers nobody: who takes the lock is on top. */
  lemma MoveUncovered(st: State, h: nat)
    requires Inv(st) && CanMove(st, h) && !Covered(st)
    ensures !Covered(Next(st, Move(h)))
  {
    var next := Next(st, Move(h));
    MoveLock(st, h);
    if next.lock.Some? {
      var x := next.lock.value;
      HolderOnTop(st, h, x);
      forall k | x < k < |next.places| && next.threads[k] == next.threads[x] ensures Ended(next.places[k]) {
        EndedStays(st, h, k);
      }
    }
  }

  lemma HolderOnTop(st: State, h: nat, x: nat)
    requires LockOk(st) && CanMove(st, h) && !Covered(st) && Next(st, Move(h)).lock == Some(x)
    ensures x < |st.places| && OnTop(st, x)
  {
  }

  lemma EndedStays(st: State, h: nat, k: nat)
    requires CanMove(st, h) && k < |st.places| && Ended(st.places[k])
    ensures |Next(st, Move(h)).places| == |st.places| && Ended(Next(st, Move(h)).places[k])
  {
  }

  predicate OnlyMoves(actions: seq<Action>) {
    forall a <- actions :: a.Move?
  }

  lemma {:induction false} MovesEnd(st: State, moves: seq<Action>, end: State)
    requires Inv(st) && !Covered(st) && OnlyMoves(moves) && Run(st, moves, end)
    ensures Inv(end) && !Covered(end) && |moves| + AllMovesLeft(end.places) <= AllMovesLeft(st.places)
    ensures |end.places| == |st.places|
    decreases |moves|
  {
    if moves != [] {
      var h := moves[0].handler;
      assert moves[0] in moves;
      NextInv(st, moves[0]);
      MoveUncovered(st, h);
      MoveAdvances(st, h);
      MoveSize(st, h);
      MovesEnd(Next(st, moves[0]), moves[1..], end);
    }
  }

  /** Handlers finish. From a state that can be reached, in which the holder of the lock is not
      covered, whatever runs without further arrivals takes six moves a handler at most, and it
      can only stop when all are done. */
  lemma HandlersFinish(actions: seq<Action>, st: State, moves: seq<Action>, end: State)
    requires Run(Initial(), actions, st) && !Covered(st) && OnlyMoves(moves) && Run(st, moves, end)
    ensures |moves| <= 6 * |st.places|
    ensures AllEnded(end) <==> !exists h: nat :: CanMove(end, h)
  {
    RunInv(Initial(), actions, st);
    MovesEnd(st, moves, end);
    SixEach(st.places);
    StillWhenDone(end);
  }

  lemma StillWhenDone(st: State)
    requires Inv(st) && !Covered(st)
    ensures AllEnded(st) <==> !exists h: nat :: CanMove(st, h)
  {
    if !AllEnded(st) {
      var h := StepInTime(st);
    }
    forall h: nat | CanMove(st, h) ensures !AllEnded(st) {
      assert st.places[h] in st.places;
    }
  }

  /** So all of them do get done. */
  lemma AllFinish(actions: seq<Action>, st: State) returns (moves: seq<Action>, end: State)
    requires Run(Initial(), actions, st) && !Covered(st)
    ensures OnlyMoves(moves) && Run(st, moves, end) && AllEnded(end)
  {
    RunInv(Initial(), actions, st);
    moves, end := FinishFrom(st);
  }

  lemma {:induction false} MovesHitNobody(st: State, actions: seq<Action>, mid: State, moves: seq<Action>, end: State,
                                          p: Place)
    requires Inv(st) && Run(st, actions, mid) && Run(mid, moves, end) && OnlyMoves(moves)
    ensures Run(st, actions + moves, end)
    ensures HitWhile(st, actions + moves, p) <==> HitWhile(st, actions, p)
    decreases |actions| + |moves|
  {
    if actions != [] {
      NextInv(st, actions[0]);
      ConcatHead(actions, moves);
      MovesHitNobody(Next(st, actions[0]), actions[1..], mid, moves, end, p);
    } else {
      assert actions + moves == moves;
      if moves != [] {
        assert moves[0] in moves;
        NextInv(st, moves[0]);
        var next := Next(st, moves[0]);
        assert [] + moves[1..] == moves[1..];
        MovesHitNobody(next, [], next, moves[1..], end, p);
      }
    }
  }

  /** When nothing can go on any more after the last arrival, the line has been written exactly once
      if and only if no handler arrived on the thread that was writing it, and likewise for the
      workers: that all handlers are done need not be assumed. */
  lemma OnceWhenStill(actions: seq<Action>, st: State, moves: seq<Action>, end: State)
    requires Run(Initial(), actions, st) && !Covered(st) && st.places != []
    requires OnlyMoves(moves) && Run(st, moves, end) && !exists h: nat :: CanMove(end, h)
    ensures CountLines(end.effects) == 1 <==> !HitWhile(Initial(), actions, Writing)
    ensures CountStops(end.effects) == 1 <==> !HitWhile(Initial(), actions, Stopping)
  {
    RunInv(Initial(), actions, st);
    MovesEnd(st, moves, end);
    StillWhenDone(end);
    MovesHitNobody(Initial(), actions, st, moves, end, Writing);
    MovesHitNobody(Initial(), actions, st, moves, end, Stopping);
    ExactlyOnceWhen(actions + moves, end);
  }

  lemma {:induction false} FinishFrom(st: State) returns (moves: seq<Action>, end: State)
    requires Inv(st) && !Covered(st)
    ensures OnlyMoves(moves) && Run(st, moves, end) && AllEnded(end)
    decreases AllMovesLeft(st.places)
  {
    if AllEnded(st) {
      moves, end := [], st;
    } else {
      var h := StepInTime(st);
      NextInv(st, Move(h));
      MoveUncovered(st, h);
      MoveAdvances(st, h);
      moves, end := FinishFrom(Next(st, Move(h)));
      moves := First(st, Move(h), Next(st, Move(h)), moves, end);
    }
  }

  lemma CoveredStays(st: State, a: Action)
    requires Inv(st) && Blocked(st) && Covered(st) && Enabled(st, a)
    ensures Covered(Next(st, a)) && Next(st, a).lock == st.lock
  {
    var x := st.lock.value;
    var k :| x < k < |st.places| && st.threads[k] == st.threads[x] && !Ended(st.places[k]);
    assert st.places[k] == LogWait;
    var next := Next(st, a);
    if a.Move? {
      CoverKept(st, a.handler, x, k);
    }
    assert next.threads[k] == next.threads[x] && next.places[k] == LogWait && next.places[x] == st.places[x];
  }

  lemma AboveWaits(st: State, x: nat, h: nat)
    requires Blocked(st) && st.lock == Some(x) && h < |st.places| && x < |st.places|
    ensures st.threads[h] == st.threads[x] && h > x ==> st.places[h] == LogWait || Ended(st.places[h])
  {
  }

  /** Nobody on the thread of a covered holder can go on. */
  lemma CoverKept(st: State, h: nat, x: nat, k: nat)
    requires Inv(st) && Blocked(st) && CanMove(st, h) && st.lock == Some(x) && x < k < |st.places|
    requires st.threads[k] == st.threads[x] && st.places[k] == LogWait
    ensures st.threads[h] != st.threads[x] && h != x && h != k
    ensures var next := Next(st, Move(h));
            next.places[x] == st.places[x] && next.places[k] == LogWait && next.lock == st.lock
  {
    assert st.lock == Some(x) <==> st.places[x] == LogHeld || st.places[x] == CleanHeld;
    assert st.lock == Some(h) <==> st.places[h] == LogHeld || st.places[h] == CleanHeld;
    AboveWaits(st, x, h);
  }

  lemma {:induction false} CoveredForever(st: State, actions: seq<Action>, end: State)
    requires Inv(st) && Blocked(st) && Covered(st) && Run(st, actions, end)
    ensures Covered(end) && end.lock == st.lock && !AllEnded(end)
    decreases |actions|
  {
    if actions == [] {
      assert st.places[st.lock.value] in st.places;
    } else {
      NextInv(st, actions[0]);
      NextBlocked(st, actions[0]);
      CoveredStays(st, actions[0]);
      CoveredForever(Next(st, actions[0]), actions[1..], end);
    }
  }

  /** Once the holder of the lock has been interrupted on its own thread, the handlers are never
      all done, whatever happens afterwards: the lock is not reentrant. */
  lemma SelfInterruptionDeadlocks(actions: seq<Action>, st: State, more: seq<Action>, end: State)
    requires Run(Initial(), actions, st) && Covered(st) && Run(st, more, end)
    ensures !AllEnded(end) && Covered(end) && end.lock == st.lock
  {
    RunBlocked(Initial(), actions, st);
    CoveredForever(st, more, end);
  }

  /** It does happen: one handler, interrupted between taking the lock and releasing it. */
  lemma SelfInterruptionHappens() returns (actions: seq<Action>, st: State)
    ensures Run(Initial(), actions, st) && Covered(st) && st.places == [LogHeld, LogWait]
  {
    st := State([LogHeld, LogWait], [0, 0], [Signal, Signal], Some(0), None, None, []);
    actions := First(Alone(LogHeld, Some(0), None), Arrive(0, Signal), st, [], st);
    actions := First(Alone(LogWait, None, None), Move(0), Alone(LogHeld, Some(0), None), actions, st);
    actions := First(Initial(), Arrive(0, Signal), Alone(LogWait, None, None), actions, st);
    assert st.places[1] == LogWait && st.threads[1] == st.threads[0];
  }

  /** On separate threads nobody is ever interrupted, so the handlers can always go on. */
  lemma SeparateThreadsNeverStuck(actions: seq<Action>, st: State)
    requires Run(Initial(), actions, st) && !AllEnded(st) && SeparateThreads(st.threads)
    ensures exists h :: CanMove(st, h)
  {
    RunInv(Initial(), actions, st);
    var h := Progress(actions, st);
  }
}
