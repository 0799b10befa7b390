/**
 * The one-use launch fence (src/continuation.rs: prepare, confirm_launch, transition, abandon,
 * launched, and the fence part of reconcile). Any number of processes run these operations;
 * each reads and rewrites the fence file under launch.lock and may be lost between any two steps.
 */
module LaunchFence {

  datatype Phase = Unreleased | MayLaunch | Launched | RevokedNeverLaunched

  datatype Fence = Fence(phase: Phase, revision: nat)

  datatype FenceFile = Missing | Present(fence: Fence)

  datatype Operation = Prepare | Confirm | Abandon | Launch | Reconcile

  /**
   * Where a process is in its operation: `Holding` has read the fence under the lock, `Written`
   * has finished with it, and a recovery reads the fence once more without the lock.
   */
  datatype Pc = Starting | Locked | Holding(copy: Fence) | Written | Rereading | Reread(copy: Fence) | Finished

  /** `original` marks the registration worker named in the fence. */
  datatype Actor = Actor(op: Operation, original: bool, pc: Pc)

  /**
   * `history` lists the phases ever saved, oldest first; `confirmed` and `launched` count the
   * operations that reported success; `neverLaunched` says that outcome was published.
   */
  datatype State = State(
    file: FenceFile, lock: int, workerLives: bool, actors: map<nat, Actor>,
    history: seq<Phase>, confirmed: nat, launched: nat, neverLaunched: bool)

  const NOBODY: int := -1

  datatype Event =
    | Begin(i: nat, op: Operation, original: bool)
    | TakeLock(i: nat) | ReadFence(i: nat) | Act(i: nat) | Unlock(i: nat)
    | ReadAgain(i: nat) | PublishNeverLaunched(i: nat)
    | Lose(i: nat) | LoseWorker

  predicate Runs(s: State, i: nat) {
    i in s.actors && (s.actors[i].original ==> s.workerLives)
  }

  /** The checks each operation makes on the fence it read. */
  predicate Spends(a: Actor, f: Fence, workerLives: bool) {
    match a.op
    case Prepare => false
    case Confirm => a.original && f.phase.Unreleased?
    case Abandon => a.original && f.phase.Unreleased?
    case Launch => f.phase.MayLaunch?
    case Reconcile => f.phase.Unreleased? && !workerLives
  }

  function Target(op: Operation): Phase {
    match op
    case Prepare => Unreleased
    case Confirm => MayLaunch
    case Launch => Launched
    case Abandon => RevokedNeverLaunched
    case Reconcile => RevokedNeverLaunched
  }

  function Transition(f: Fence, phase: Phase): Fence {
    Fence(phase, f.revision + 1)
  }

  predicate Enabled(s: State, e: Event) {
    match e
    case Begin(i, _, original) => i !in s.actors && (original ==> s.workerLives)
    case TakeLock(i) => Runs(s, i) && s.actors[i].pc.Starting? && s.lock == NOBODY
    case ReadFence(i) => Runs(s, i) && s.actors[i].pc.Locked?
    case Act(i) => Runs(s, i) && s.actors[i].pc.Holding?
    case Unlock(i) => Runs(s, i) && s.actors[i].pc.Written?
    case ReadAgain(i) => Runs(s, i) && s.actors[i].pc.Rereading?
    case PublishNeverLaunched(i) =>
      Runs(s, i) && s.actors[i].pc.Reread? && s.actors[i].pc.copy.phase.RevokedNeverLaunched?
    case Lose(i) => i in s.actors
    case LoseWorker => s.workerLives
  }

  function Move(s: State, i: nat, pc: Pc): State
    requires i in s.actors
  {
    s.(actors := s.actors[i := s.actors[i].(pc := pc)])
  }

  function Apply(s: State, e: Event): State
    requires Enabled(s, e)
  {
    match e
    case Begin(i, op, original) => s.(actors := s.actors[i := Actor(op, original, Starting)])
    case TakeLock(i) => Move(s, i, Locked).(lock := i)
    case ReadFence(i) =>
      if s.file.Present? then Move(s, i, Holding(s.file.fence))
      else if s.actors[i].op.Prepare?
        then Move(s, i, Written).(file := Present(Fence(Unreleased, 0)), history := s.history + [Unreleased])
      else Move(s, i, Written)
    case Act(i) =>
      var a := s.actors[i];
      if Spends(a, a.pc.copy, s.workerLives)
      then Move(s, i, Written).(
             file := Present(Transition(a.pc.copy, Target(a.op))),
             history := s.history + [Target(a.op)],
             confirmed := s.confirmed + if a.op.Confirm? then 1 else 0,
             launched := s.launched + if a.op.Launch? then 1 else 0)
      else Move(s, i, Written)
    case Unlock(i) =>
      Move(s, i, if s.actors[i].op.Reconcile? then Rereading else Finished).(lock := NOBODY)
    case ReadAgain(i) =>
      Move(s, i, if s.file.Present? then Reread(s.file.fence) else Finished)
    case PublishNeverLaunched(i) => Move(s, i, Finished).(neverLaunched := true)
    case Lose(i) => s.(actors := s.actors - {i}, lock := if s.lock == i then NOBODY else s.lock)
    case LoseWorker =>
      s.(workerLives := false,
         actors := map i | i in s.actors && !s.actors[i].original :: s.actors[i],
         lock := if s.lock >= 0 && s.lock in s.actors && s.actors[s.lock].original then NOBODY else s.lock)
  }

  predicate Initial(s: State) {
    s == State(Missing, NOBODY, true, map[], [], 0, 0, false)
  }

  // ---------------------------------------------------------------- invariant

  /** The only histories there are. */
  predicate Legal(h: seq<Phase>) {
    || h == [] || h == [Unreleased] || h == [Unreleased, MayLaunch]
    || h == [Unreleased, MayLaunch, Launched] || h == [Unreleased, RevokedNeverLaunched]
  }

  function FileOf(h: seq<Phase>): FenceFile {
    if h == [] then Missing else Present(Fence(h[|h| - 1], |h| - 1))
  }

  predicate ActorOk(s: State, i: nat)
    requires i in s.actors
  {
    match s.actors[i].pc
    case Locked => s.lock == i
    case Holding(f) => s.lock == i && s.file == Present(f)
    case Written => s.lock == i
    case Reread(f) => s.lock != i && (f.phase.RevokedNeverLaunched? ==> s.history == [Unreleased, RevokedNeverLaunched])
    case _ => s.lock != i
  }

  predicate HistoryOk(s: State) {
    && Legal(s.history) && s.file == FileOf(s.history)
    && s.confirmed == (if |s.history| >= 2 && s.history[1].MayLaunch? then 1 else 0)
    && s.launched == (if |s.history| == 3 then 1 else 0)
    && (s.neverLaunched ==> s.history == [Unreleased, RevokedNeverLaunched])
  }

  ghost predicate Inv(s: State) {
    && HistoryOk(s)
    && (s.lock == NOBODY || (s.lock >= 0 && s.lock in s.actors))
    && forall i {:trigger ActorOk(s, i)} :: i in s.actors ==> ActorOk(s, i)
  }

  /** The one step that advances an existing fence, spending the authority its holder read. */
  lemma SpendStep(s: State, i: nat)
    requires Inv(s) && Enabled(s, Act(i))
    ensures HistoryOk(Apply(s, Act(i))) && s.history <= Apply(s, Act(i)).history
    ensures s.history == [Unreleased, RevokedNeverLaunched] ==> Apply(s, Act(i)).history == s.history
  {
    assert ActorOk(s, i);
    assert s.file == Present(s.actors[i].pc.copy);
  }

  lemma HistoryStep(s: State, e: Event)
    requires Inv(s) && Enabled(s, e)
    ensures HistoryOk(Apply(s, e)) && s.history <= Apply(s, e).history
    ensures s.history == [Unreleased, RevokedNeverLaunched] ==> Apply(s, e).history == s.history
  {
    if e.Act? {
      SpendStep(s, e.i);
    } else {
      assert !e.LoseWorker? && e.i in s.actors ==> ActorOk(s, e.i);
    }
  }

  /** What an actor knows needs only the lock, the file under it and a revoked history to stay. */
  lemma KnowledgeStays(s: State, t: State, i: nat)
    requires i in s.actors && i in t.actors && t.actors[i] == s.actors[i] && ActorOk(s, i)
    requires (s.lock == i <==> t.lock == i) && (s.lock == i ==> t.file == s.file)
    requires s.history == [Unreleased, RevokedNeverLaunched] ==> t.history == s.history
    ensures ActorOk(t, i)
  {
  }

  /** No other actor's step and no loss touches the lock an actor holds, or the file under it. */
  lemma OtherActorStep(s: State, e: Event, i: nat)
    requires Inv(s) && Enabled(s, e) && i in Apply(s, e).actors && (e.LoseWorker? || e.i != i)
    ensures ActorOk(Apply(s, e), i)
  {
    HistoryStep(s, e);
    LockStays(s, e, i);
    assert ActorOk(s, i);
    KnowledgeStays(s, Apply(s, e), i);
  }

  lemma LockStays(s: State, e: Event, i: nat)
    requires Inv(s) && Enabled(s, e) && i in Apply(s, e).actors && (e.LoseWorker? || e.i != i)
    ensures var t := Apply(s, e);
            && i in s.actors && t.actors[i] == s.actors[i]
            && (s.lock == i <==> t.lock == i) && (s.lock == i ==> t.file == s.file)
  {
    assert !e.LoseWorker? && e.i in s.actors ==> ActorOk(s, e.i);
  }

  lemma OwnActorStep(s: State, e: Event)
    requires Inv(s) && Enabled(s, e) && !e.LoseWorker? && e.i in Apply(s, e).actors
    ensures ActorOk(Apply(s, e), e.i)
  {
    assert e.i in s.actors ==> ActorOk(s, e.i);
  }

  lemma StepPreserves(s: State, e: Event)
    requires Inv(s) && Enabled(s, e)
    ensures Inv(Apply(s, e)) && s.history <= Apply(s, e).history
  {
    HistoryStep(s, e);
    forall i | i in Apply(s, e).actors ensures ActorOk(Apply(s, e), i) {
      if e.LoseWorker? || e.i != i { OtherActorStep(s, e, i); } else { OwnActorStep(s, e); }
    }
  }

  // ---------------------------------------------------------------- runs

  ghost predicate Run(states: seq<State>, events: seq<Event>) {
    && |states| == |events| + 1
    && Initial(states[0])
    && forall i {:trigger events[i]} :: 0 <= i < |events| ==>
         Enabled(states[i], events[i]) && states[i + 1] == Apply(states[i], events[i])
  }

  lemma {:induction false} RunKeepsInv(states: seq<State>, events: seq<Event>, i: nat)
    requires Run(states, events) && i < |states|
    ensures Inv(states[i])
  {
    if i > 0 {
      RunKeepsInv(states, events, i - 1);
      StepPreserves(states[i - 1], events[i - 1]);
    }
  }

  lemma {:induction false} HistoryGrows(states: seq<State>, events: seq<Event>, i: nat, j: nat)
    requires Run(states, events) && i <= j < |states|
    ensures states[i].history <= states[j].history
    decreases j
  {
    if i < j {
      HistoryGrows(states, events, i, j - 1);
      RunKeepsInv(states, events, j - 1);
      StepPreserves(states[j - 1], events[j - 1]);
    }
  }

  /**
   * On every run the fence is saved as unreleased, may_launch, launched or as unreleased, revoked,
   * its revision counts the steps, and launch authority is spent at most once.
   */
  lemma FenceFollowsItsPath(states: seq<State>, events: seq<Event>, i: nat)
    requires Run(states, events) && i < |states|
    ensures var s := states[i];
      && Legal(s.history) && s.file == FileOf(s.history)
      && s.launched <= s.confirmed <= 1
      && (s.launched == 1 <==> s.file.Present? && s.file.fence.phase.Launched?)
  {
    RunKeepsInv(states, events, i);
  }

  /** never_launched is published only on runs that neither have launched nor ever will. */
  lemma NeverLaunchedIsFinal(states: seq<State>, events: seq<Event>, i: nat, j: nat)
    requires Run(states, events) && i < |states| && j < |states| && states[i].neverLaunched
    ensures states[j].launched == 0 && states[j].confirmed == 0
    ensures MayLaunch !in states[j].history && Launched !in states[j].history
  {
    RunKeepsInv(states, events, i);
    RunKeepsInv(states, events, j);
    if i <= j { HistoryGrows(states, events, i, j); } else { HistoryGrows(states, events, j, i); }
    var h := states[j].history;
    assert forall k :: 0 <= k < |h| && k < 2 ==> h[k] == [Unreleased, RevokedNeverLaunched][k];
  }

  /** The step of a recovery that nobody disturbs. */
  function NextOf(i: nat, pc: Pc): Event {
    match pc
    case Starting => TakeLock(i)
    case Locked => ReadFence(i)
    case Holding(_) => Act(i)
    case Written => Unlock(i)
    case Rereading => ReadAgain(i)
    case _ => PublishNeverLaunched(i)
  }

  /** Up to `n` steps of actor `i` alone. */
  function Alone(s: State, i: nat, n: nat): State
    decreases n
  {
    if n == 0 || i !in s.actors || !Enabled(s, NextOf(i, s.actors[i].pc)) then s
    else Alone(Apply(s, NextOf(i, s.actors[i].pc)), i, n - 1)
  }

  /** Actor `i` is a recovery at `pc`, over a fence with this history and after the worker's loss. */
  predicate Recovering(s: State, i: nat, pc: Pc, history: seq<Phase>) {
    && i in s.actors && s.actors[i] == Actor(Reconcile, false, pc) && !s.workerLives && !s.neverLaunched
    && s.history == history && s.file == FileOf(history)
    && (pc.Starting? ==> s.lock == NOBODY)
  }

  lemma RecoveryReads(s: State, i: nat, n: nat, h: seq<Phase>) returns (t: State)
    requires Recovering(s, i, Starting, h) && n >= 2
    ensures Recovering(t, i, if h == [] then Written else Holding(FileOf(h).fence), h)
    ensures Alone(s, i, n) == Alone(t, i, n - 2)
  {
    var locked := Apply(s, TakeLock(i));
    assert Alone(s, i, n) == Alone(locked, i, n - 1);
    t := Apply(locked, ReadFence(i));
  }

  lemma RecoveryRereads(s: State, i: nat, n: nat, h: seq<Phase>) returns (t: State)
    requires Recovering(s, i, Written, h) && n >= 2
    ensures Recovering(t, i, if h == [] then Finished else Reread(FileOf(h).fence), h)
    ensures Alone(s, i, n) == Alone(t, i, n - 2)
  {
    var unlocked := Apply(s, Unlock(i));
    assert Alone(s, i, n) == Alone(unlocked, i, n - 1);
    t := Apply(unlocked, ReadAgain(i));
  }

  lemma RecoveryRevokes(s: State, i: nat, n: nat, h: seq<Phase>) returns (t: State)
    requires h != [] && Legal(h) && Recovering(s, i, Holding(FileOf(h).fence), h) && n >= 1
    ensures Recovering(t, i, Written, if h == [Unreleased] then [Unreleased, RevokedNeverLaunched] else h)
    ensures Alone(s, i, n) == Alone(t, i, n - 1)
  {
    t := Apply(s, Act(i));
  }

  lemma RecoveryEnds(s: State, i: nat, n: nat, h: seq<Phase>)
    requires Legal(h) && Recovering(s, i, if h == [] then Finished else Reread(FileOf(h).fence), h) && n >= 1
    ensures var t := Alone(s, i, n);
            t.history == h && (t.neverLaunched <==> h == [Unreleased, RevokedNeverLaunched])
  {
    var published := h == [Unreleased, RevokedNeverLaunched];
    if published {
      var t := Apply(s, PublishNeverLaunched(i));
      assert Alone(s, i, n) == Alone(t, i, n - 1) == t;
    }
  }

  lemma ReleasedExactly(h: seq<Phase>)
    requires Legal(h) && h != []
    ensures MayLaunch !in h <==> h == [Unreleased] || h == [Unreleased, RevokedNeverLaunched]
  {
    assert |h| > 1 ==> h[1] in h;
  }

  /** After the worker's loss an undisturbed recovery publishes never_launched exactly if no launch was released. */
  lemma RecoveryPublishesExactly(s: State, i: nat)
    requires Inv(s) && s.lock == NOBODY && !s.workerLives && i !in s.actors && !s.neverLaunched
    ensures var t := Alone(Apply(s, Begin(i, Reconcile, false)), i, 6);
            && (t.neverLaunched <==> s.file.Present? && MayLaunch !in s.history)
            && t.history == if t.neverLaunched then [Unreleased, RevokedNeverLaunched] else s.history
  {
    var h, n := s.history, 4;
    var t := RecoveryReads(Apply(s, Begin(i, Reconcile, false)), i, 6, h);
    if h != [] {
      t := RecoveryRevokes(t, i, n, h);
      h, n := if h == [Unreleased] then [Unreleased, RevokedNeverLaunched] else h, 3;
    }
    t := RecoveryRereads(t, i, n, h);
    RecoveryEnds(t, i, n - 2, h);
    if s.history != [] { ReleasedExactly(s.history); }
  }

  /** Who saves which phase: release and abandonment are the original worker's, others revoke only after its loss. */
  lemma SavedExactlyBy(s: State, i: nat)
    requires Inv(s) && Enabled(s, Act(i))
    ensures var a, t := s.actors[i], Apply(s, Act(i));
            && (t.history == s.history + [MayLaunch] <==> a.op.Confirm? && a.original && s.history == [Unreleased])
            && (t.history == s.history + [Launched] <==> a.op.Launch? && s.history == [Unreleased, MayLaunch])
            && (t.history == s.history + [RevokedNeverLaunched] <==>
                  && s.history == [Unreleased]
                  && ((a.op.Abandon? && a.original) || (a.op.Reconcile? && !s.workerLives)))
  {
    assert ActorOk(s, i);
    var h, t := s.history, Apply(s, Act(i)).history;
    assert s.file == Present(s.actors[i].pc.copy) && s.actors[i].pc.copy.phase == h[|h| - 1];
    assert forall p :: |h + [p]| == |h| + 1 && (h + [p])[|h|] == p;
    assert t != h ==> t[|h|] == Target(s.actors[i].op);
  }
}
