/**
 * Cancel admission against empty-tree discharge (src/state.rs). A request that finds no
 * supervisor to wake, terminal or not, is admitted under custody.lock; a request to a live
 * supervisor creates the same marker under completion.lock. Drain is recorded by the adopting
 * reaper alone, which is the supervisor and after its exit the guardian: inside its discharge,
 * after it saw an acceptance, or under completion.lock when it publishes a cancellation that
 * nobody requested. Every marker is created, synced and, when the sync fails, rolled back unless
 * its removal fails too.
 */
module CancelAdmission {

  import opened BootMarkers

  datatype Request = Requesting | Checking | Creating | Syncing | Settled

  datatype LiveRequest = LiveWaiting | LiveCreating | LiveSyncing | LiveSettled

  datatype Actor = Requester(request: Request) | Live(live: LiveRequest)

  /** `Marking` has created the drained marker and not yet synced it; the last four hold custody.lock. */
  datatype Reaper = Resting | Marking | Reading | Draining | MarkingInside | Removing

  /** The acceptance marker; `creator` is the request that created it. */
  datatype Acceptance = Unaccepted | AcceptedBy(creator: nat)

  datatype Files = Files(physical: Marker, acceptance: Acceptance, drained: bool)

  const NOBODY: int := -1

  const REAPER: int := -2

  /** `reports` counts custody requests that were told yes; `saw` is the acceptance the reaper last read. */
  datatype State = State(
    boot: string, files: Files, terminal: bool, custody: int, completion: int,
    actors: map<nat, Actor>, reports: nat, reaper: Reaper, saw: bool)

  datatype Event =
    | BecomeTerminal
    | LiveAsk(i: nat) | LiveLock(i: nat) | LiveCreate(i: nat) | LiveSynced(i: nat)
    | LiveSyncFails(i: nat, removed: bool)
    | Ask(i: nat) | TakeLock(i: nat) | Check(i: nat) | Create(i: nat) | Synced(i: nat)
    | SyncFails(i: nat, removed: bool)
    | Lose(i: nat)
    | Look | DrainSeen | DrainUnasked | DrainSynced | DrainFails(removed: bool)
    | Discharge | ReadAcceptance | WriteDrained | InsideSynced | InsideFails(removed: bool) | RemoveCustody
    | RemoveFails
    | LoseReaper
    | Reboot(boot: string)

  predicate RequestAt(s: State, i: nat, r: Request) {
    i in s.actors && s.actors[i] == Requester(r)
  }

  predicate LiveAt(s: State, i: nat, r: LiveRequest) {
    i in s.actors && s.actors[i] == Live(r)
  }

  predicate ByRequest(e: Event) {
    e.Ask? || e.TakeLock? || e.Check? || e.Create? || e.Synced? || e.SyncFails?
  }

  predicate ByLive(e: Event) {
    e.LiveAsk? || e.LiveLock? || e.LiveCreate? || e.LiveSynced? || e.LiveSyncFails?
  }

  predicate Enabled(s: State, e: Event) {
    match e
    case BecomeTerminal => s.completion == NOBODY
    case LiveAsk(i) => i !in s.actors
    case LiveLock(i) => LiveAt(s, i, LiveWaiting) && s.completion == NOBODY
    case LiveCreate(i) => LiveAt(s, i, LiveCreating)
    case LiveSynced(i) => LiveAt(s, i, LiveSyncing)
    case LiveSyncFails(i, _) => LiveAt(s, i, LiveSyncing)
    case Ask(i) => i !in s.actors
    case TakeLock(i) => RequestAt(s, i, Requesting) && s.custody == NOBODY
    case Check(i) => RequestAt(s, i, Checking)
    case Create(i) => RequestAt(s, i, Creating)
    case Synced(i) => RequestAt(s, i, Syncing)
    case SyncFails(i, _) => RequestAt(s, i, Syncing)
    case Lose(i) => i in s.actors
    case Look => s.reaper.Resting?
    case DrainSeen => s.reaper.Resting? && s.saw
    case DrainUnasked => s.reaper.Resting? && s.completion == NOBODY
    case DrainSynced => s.reaper.Marking?
    case DrainFails(_) => s.reaper.Marking?
    case Discharge => s.reaper.Resting? && s.custody == NOBODY
    case ReadAcceptance => s.reaper.Reading?
    case WriteDrained => s.reaper.Draining?
    case InsideSynced => s.reaper.MarkingInside?
    case InsideFails(_) => s.reaper.MarkingInside?
    case RemoveCustody => s.reaper.Removing?
    case RemoveFails => s.reaper.Removing?
    case LoseReaper => true
    case Reboot(boot) => boot != s.boot
  }

  function Move(s: State, i: nat, a: Actor): State {
    s.(actors := s.actors[i := a])
  }

  /** The boot-stamped custody marker of this boot is there. */
  predicate Held(s: State) {
    s.files.physical == Holds(s.boot) && ValidBootId(s.boot)
  }

  function Accept(f: Files, a: Acceptance): Files {
    f.(acceptance := a)
  }

  function ApplyRequest(s: State, e: Event): State
    requires ByRequest(e) && Enabled(s, e)
  {
    var out := Move(s, e.i, Requester(Settled)).(custody := NOBODY);
    match e
    case Ask(i) => Move(s, i, Requester(Requesting))
    case TakeLock(i) => Move(s, i, Requester(Checking)).(custody := i)
    case Check(i) => if Held(s) && !s.files.drained then Move(s, i, Requester(Creating)) else out
    case Create(i) =>
      if s.files.acceptance.AcceptedBy? then out
      else Move(s, i, Requester(Syncing)).(files := Accept(s.files, AcceptedBy(i)))
    case Synced(i) => out.(reports := s.reports + 1)
    case SyncFails(i, removed) => if removed then out.(files := Accept(s.files, Unaccepted)) else out
  }

  function ApplyLive(s: State, e: Event): State
    requires ByLive(e) && Enabled(s, e)
  {
    var out := Move(s, e.i, Live(LiveSettled)).(completion := NOBODY);
    match e
    case LiveAsk(i) => Move(s, i, Live(LiveWaiting))
    case LiveLock(i) => if s.terminal then out else Move(s, i, Live(LiveCreating)).(completion := i)
    case LiveCreate(i) =>
      if s.files.acceptance.AcceptedBy? then out
      else Move(s, i, Live(LiveSyncing)).(files := Accept(s.files, AcceptedBy(i)))
    case LiveSynced(i) => out
    case LiveSyncFails(i, removed) => if removed then out.(files := Accept(s.files, Unaccepted)) else out
  }

  function Drain(s: State, next: Reaper): State {
    s.(files := s.files.(drained := true), reaper := next)
  }

  function Unmark(s: State, removed: bool): State {
    s.(files := s.files.(drained := !removed), reaper := Resting)
  }

  function ApplyReaper(s: State, e: Event): State
    requires Enabled(s, e) && !ByRequest(e) && !ByLive(e)
  {
    match e
    case BecomeTerminal => s.(terminal := true)
    case Lose(i) =>
      s.(actors := s.actors - {i}, custody := if s.custody == i then NOBODY else s.custody,
         completion := if s.completion == i then NOBODY else s.completion)
    case Look => s.(saw := s.files.acceptance.AcceptedBy?)
    case DrainSeen => if s.files.drained then s else Drain(s, Marking)
    case DrainUnasked => if s.files.drained then s else Drain(s, Marking).(completion := REAPER)
    case DrainSynced => s.(reaper := Resting, completion := if s.completion == REAPER then NOBODY else s.completion)
    case DrainFails(removed) => Unmark(s, removed).(completion := if s.completion == REAPER
        then NOBODY else s.completion)
    case Discharge => s.(reaper := Reading, custody := REAPER)
    case ReadAcceptance => s.(reaper := if s.files.acceptance.AcceptedBy? then Draining else Removing)
    case WriteDrained => if s.files.drained then s.(reaper := Removing) else Drain(s, MarkingInside)
    case InsideSynced => s.(reaper := Removing)
    case InsideFails(removed) => Unmark(s, removed).(custody := NOBODY)
    case RemoveCustody => s.(files := s.files.(physical := Absent), reaper := Resting, custody := NOBODY)
    case RemoveFails => s.(reaper := Resting, custody := NOBODY)
    case LoseReaper =>
      s.(reaper := Resting, saw := false, custody := if s.custody == REAPER then NOBODY else s.custody,
         completion := if s.completion == REAPER then NOBODY else s.completion)
    case Reboot(boot) =>
      s.(boot := boot, actors := map[], custody := NOBODY, completion := NOBODY, reaper := Resting, saw := false)
  }

  function Apply(s: State, e: Event): State
    requires Enabled(s, e)
  {
    if ByRequest(e) then ApplyRequest(s, e) else if ByLive(e) then ApplyLive(s, e) else ApplyReaper(s, e)
  }

  function Start(boot: string): State {
    State(boot, Files(Holds(boot), Unaccepted, false), false, NOBODY, NOBODY, map[], 0, Resting, false)
  }

  // ---------------------------------------------------------------- invariant

  predicate InSection(r: Request) {
    r.Checking? || r.Creating? || r.Syncing?
  }

  predicate ReaperInside(r: Reaper) {
    r.Reading? || r.Draining? || r.MarkingInside? || r.Removing?
  }

  /** A marker that is still being synced was created by that very request, and nobody was told yes before. */
  predicate ActorOk(s: State, i: nat)
    requires i in s.actors
  {
    match s.actors[i]
    case Requester(r) =>
      && (InSection(r) <==> s.custody == i)
      && (r.Creating? || r.Syncing? ==> Held(s))
      && (r.Syncing? ==> s.files.acceptance == AcceptedBy(i) && s.reports == 0)
    case Live(r) => s.custody != i && (r.LiveSyncing? ==> s.files.acceptance == AcceptedBy(i) && s.reports == 0)
  }

  ghost predicate ActorsOk(s: State) {
    forall i {:trigger ActorOk(s, i)} :: i in s.actors ==> ActorOk(s, i)
  }

  /** A terminal yes stands: the marker stays, and custody goes only after drain. */
  predicate MarkersOk(s: State) {
    && (s.reports > 0 ==> s.files.acceptance.AcceptedBy?)
    && (s.reports > 0 && (s.files.physical.Absent? || s.reaper.Removing?) ==> s.files.drained)
    && (s.reports > 0 && s.reaper.Marking? ==> s.files.physical.Holds?)
    && (s.reports > 0 && s.reaper.MarkingInside? ==> s.files.physical.Holds?)
    && (s.reaper.Marking? || s.reaper.MarkingInside? ==> s.files.drained)
    && (s.custody == REAPER <==> ReaperInside(s.reaper))
    && (s.custody == NOBODY || s.custody == REAPER || (s.custody >= 0 && s.custody in s.actors))
  }

  ghost predicate Inv(s: State) {
    MarkersOk(s) && ActorsOk(s)
  }

  lemma RequestKeepsMarkers(s: State, e: Event)
    requires Inv(s) && ByRequest(e) && Enabled(s, e)
    ensures MarkersOk(Apply(s, e))
  {
    assert e.i in s.actors ==> ActorOk(s, e.i);
  }

  lemma LiveKeepsMarkers(s: State, e: Event)
    requires Inv(s) && ByLive(e) && Enabled(s, e)
    ensures MarkersOk(Apply(s, e))
  {
    assert e.i in s.actors ==> ActorOk(s, e.i);
  }

  lemma ReaperKeepsMarkers(s: State, e: Event)
    requires Inv(s) && !ByRequest(e) && !ByLive(e) && Enabled(s, e)
    ensures MarkersOk(Apply(s, e))
  {
  }

  lemma RequestKeepsActor(s: State, e: Event, k: nat)
    requires Inv(s) && ByRequest(e) && Enabled(s, e) && k in Apply(s, e).actors
    ensures ActorOk(Apply(s, e), k)
  {
    assert e.i in s.actors ==> ActorOk(s, e.i);
    assert k in s.actors ==> ActorOk(s, k);
  }

  lemma LiveKeepsActor(s: State, e: Event, k: nat)
    requires Inv(s) && ByLive(e) && Enabled(s, e) && k in Apply(s, e).actors
    ensures ActorOk(Apply(s, e), k)
  {
    assert e.i in s.actors ==> ActorOk(s, e.i);
    assert k in s.actors ==> ActorOk(s, k);
  }

  lemma ReaperKeepsActor(s: State, e: Event, k: nat)
    requires Inv(s) && !ByRequest(e) && !ByLive(e) && Enabled(s, e) && k in Apply(s, e).actors
    ensures ActorOk(Apply(s, e), k)
  {
    assert k in s.actors ==> ActorOk(s, k);
  }

  lemma StepPreserves(s: State, e: Event)
    requires Inv(s) && Enabled(s, e)
    ensures Inv(Apply(s, e))
  {
    if ByRequest(e) {
      RequestKeepsMarkers(s, e);
      forall k | k in Apply(s, e).actors ensures ActorOk(Apply(s, e), k) { RequestKeepsActor(s, e, k); }
    } else if ByLive(e) {
      LiveKeepsMarkers(s, e);
      forall k | k in Apply(s, e).actors ensures ActorOk(Apply(s, e), k) { LiveKeepsActor(s, e, k); }
    } else {
      ReaperKeepsMarkers(s, e);
      forall k | k in Apply(s, e).actors ensures ActorOk(Apply(s, e), k) { ReaperKeepsActor(s, e, k); }
    }
  }

  // ---------------------------------------------------------------- runs

  ghost predicate Run(states: seq<State>, events: seq<Event>) {
    && |states| == |events| + 1
    && states[0] == Start(states[0].boot)
    && forall i {:trigger events[i]} :: 0 <= i < |events| ==>
         Enabled(states[i], events[i]) && states[i + 1] == Apply(states[i], events[i])
  }

  lemma {:induction false} RunKeepsInv(states: seq<State>, events: seq<Event>, i: nat)
    requires Run(states, events) && i < |states|
    ensures Inv(states[i])
  {
    if i > 0 {
      RunKeepsInv(states, events, i - 1);
      StepPreserves(states[i - 1], events[i - 1]);
    }
  }

  /**
   * In every interleaving and after every crash: once a custody request was told yes, the custody
   * marker is gone only if the drained marker is there; and a request can reach acceptance only
   * while custody is held.
   */
  lemma AcceptedCancelIsDrainedFirst(states: seq<State>, events: seq<Event>, i: nat)
    requires Run(states, events) && i < |states|
    ensures var s := states[i];
      && (s.reports > 0 && s.files.physical.Absent? ==> s.files.drained)
      && (forall k :: RequestAt(s, k, Creating) || RequestAt(s, k, Syncing) ==> Held(s))
  {
    RunKeepsInv(states, events, i);
    forall k | RequestAt(states[i], k, Creating) || RequestAt(states[i], k, Syncing) ensures Held(states[i]) {
      assert ActorOk(states[i], k);
    }
  }

  /** Of all custody requests, duplicates included, at most one is ever told yes. */
  lemma {:induction false} OneAcceptance(states: seq<State>, events: seq<Event>, i: nat)
    requires Run(states, events) && i < |states|
    ensures states[i].reports <= 1
  {
    if i > 0 {
      OneAcceptance(states, events, i - 1);
      RunKeepsInv(states, events, i - 1);
      StepAddsOneReport(states[i - 1], events[i - 1]);
    }
  }

  lemma StepAddsOneReport(s: State, e: Event)
    requires Inv(s) && Enabled(s, e) && s.reports <= 1
    ensures Apply(s, e).reports <= 1
  {
    assert e.Synced? ==> ActorOk(s, e.i);
  }

  lemma {:induction false} ReportsStay(states: seq<State>, events: seq<Event>, i: nat, j: nat)
    requires Run(states, events) && i <= j < |states|
    ensures states[i].reports <= states[j].reports
    decreases j
  {
    if i < j {
      ReportsStay(states, events, i, j - 1);
      assert Enabled(states[j - 1], events[j - 1]);
    }
  }

  /** So two custody requests, whatever lies between them, are never both answered yes. */
  lemma OneAnswer(states: seq<State>, events: seq<Event>, i: nat, j: nat)
    requires Run(states, events) && i < |events| && j < |events| && events[i].Synced? && events[j].Synced?
    ensures i == j
  {
    if i < j {
      ReportsStay(states, events, i + 1, j);
      OneAcceptance(states, events, j + 1);
    } else if j < i {
      ReportsStay(states, events, j + 1, i);
      OneAcceptance(states, events, i + 1);
    }
  }

  /** What a reaper drains for it has itself read: an acceptance, since it last began. */
  lemma {:induction false} SeenWasThere(states: seq<State>, events: seq<Event>, j: nat) returns (m: nat)
    requires Run(states, events) && j < |states| && states[j].saw
    ensures m < j && events[m] == Look && states[m].files.acceptance.AcceptedBy?
    ensures forall k {:trigger events[k]} :: m <= k < j ==> !events[k].LoseReaper? && !events[k].Reboot?
    decreases j
  {
    assert j > 0;
    assert Enabled(states[j - 1], events[j - 1]) && states[j] == Apply(states[j - 1], events[j - 1]);
    if events[j - 1] == Look { m := j - 1; } else { m := SeenWasThere(states, events, j - 1); }
  }

  // ---------------------------------------------------------------- nothing live is created once terminal

  /** A live request creates its marker under completion.lock. */
  predicate UnderCompletion(s: State, i: nat) {
    LiveAt(s, i, LiveCreating) || LiveAt(s, i, LiveSyncing) ==> s.completion == i
  }

  ghost predicate LiveHoldsCompletion(s: State) {
    forall i: nat :: UnderCompletion(s, i)
  }

  lemma ActorKeepsCompletion(s: State, e: Event, i: nat)
    requires UnderCompletion(s, i) && Enabled(s, e) && (ByLive(e) ==> UnderCompletion(s, e.i))
    ensures UnderCompletion(Apply(s, e), i)
  {
  }

  lemma StepKeepsCompletion(s: State, e: Event)
    requires LiveHoldsCompletion(s) && Enabled(s, e)
    ensures LiveHoldsCompletion(Apply(s, e))
  {
    forall i: nat ensures UnderCompletion(Apply(s, e), i) {
      assert UnderCompletion(s, i) && (ByLive(e) ==> UnderCompletion(s, e.i));
      ActorKeepsCompletion(s, e, i);
    }
  }

  lemma StepKeepsTerminal(s: State, e: Event)
    requires Enabled(s, e) && (ByLive(e) ==> UnderCompletion(s, e.i)) && s.terminal && s.completion < 0
    ensures Apply(s, e).terminal && Apply(s, e).completion < 0
  {
  }

  lemma {:induction false} RunKeepsCompletion(states: seq<State>, events: seq<Event>, i: nat)
    requires Run(states, events) && i < |states|
    ensures LiveHoldsCompletion(states[i])
  {
    if i > 0 {
      RunKeepsCompletion(states, events, i - 1);
      StepKeepsCompletion(states[i - 1], events[i - 1]);
    }
  }

  /** Once a handle is terminal no live request creates a marker, not even one that was already waiting. */
  lemma {:induction false} NothingLiveOnceTerminal(states: seq<State>, events: seq<Event>, i: nat, j: nat)
    requires Run(states, events) && i < j < |states| && events[i] == BecomeTerminal
    ensures states[j].terminal && states[j].completion < 0
    ensures j < |events| ==> !events[j].LiveCreate?
    decreases j
  {
    RunKeepsCompletion(states, events, j);
    if i < j - 1 {
      RunKeepsCompletion(states, events, j - 1);
      NothingLiveOnceTerminal(states, events, i, j - 1);
      assert ByLive(events[j - 1]) ==> UnderCompletion(states[j - 1], events[j - 1].i);
      StepKeepsTerminal(states[j - 1], events[j - 1]);
    }
    assert j < |events| && events[j].LiveCreate? ==> UnderCompletion(states[j], events[j].i);
  }

  // ---------------------------------------------------------------- nothing is accepted after drain

  predicate Rollback(e: Event) {
    (e.SyncFails? || e.LiveSyncFails?) && e.removed
  }

  /** The drained marker is there and its own rollback is no longer possible. */
  predicate DrainStands(s: State) {
    s.files.drained && !s.reaper.Marking? && !s.reaper.MarkingInside?
  }

  /** Some request has passed its check and not yet created the acceptance. */
  predicate Admitted(s: State, j: nat) {
    RequestAt(s, j, Creating)
  }

  /** First failing branch: an acceptance the reaper saw is rolled back while custody is held and no drain stands. */
  predicate SeenRollback(s: State, e: Event) {
    Rollback(e) && s.saw && Held(s) && !DrainStands(s)
  }

  /** Second: a live acceptance is rolled back after drain, under an admitted request. */
  predicate RollbackUnder(s: State, e: Event, j: nat) {
    Rollback(e) && s.files.drained && Admitted(s, j)
  }

  /** Third: the reaper records a drain nobody asked for, under an admitted request. */
  predicate DrainUnder(s: State, e: Event, j: nat) {
    e.DrainUnasked? && !s.files.drained && s.files.acceptance.Unaccepted? && Admitted(s, j)
  }

  ghost predicate Spoils(s: State, e: Event) {
    SeenRollback(s, e) || exists j: nat :: RollbackUnder(s, e, j) || DrainUnder(s, e, j)
  }

  /** A request that will create an acceptance past a drain its own check did not see. */
  predicate LateRequest(s: State, j: nat) {
    Admitted(s, j) && s.files.acceptance.Unaccepted? && s.files.drained
  }

  /** Until one of the three happens, what the reaper saw is still there or drained, and no request is late. */
  ghost predicate OnTime(s: State) {
    && Sighted(s)
    && forall j :: !LateRequest(s, j)
  }

  predicate Sighted(s: State) {
    s.saw && Held(s) ==> s.files.acceptance.AcceptedBy? || DrainStands(s)
  }

  lemma StepKeepsSight(s: State, e: Event)
    requires Inv(s) && Sighted(s) && Enabled(s, e) && !SeenRollback(s, e)
    ensures Sighted(Apply(s, e))
  {
  }

  lemma RequestKeepsPunctual(s: State, e: Event, j: nat)
    requires Inv(s) && OnTime(s) && Enabled(s, e) && ByRequest(e)
    ensures !LateRequest(Apply(s, e), j)
  {
    assert Admitted(s, j) ==> ActorOk(s, j) && !LateRequest(s, j);
    assert e.i in s.actors ==> ActorOk(s, e.i);
  }

  lemma LiveKeepsPunctual(s: State, e: Event, j: nat)
    requires Inv(s) && OnTime(s) && Enabled(s, e) && !RollbackUnder(s, e, j) && ByLive(e)
    ensures !LateRequest(Apply(s, e), j)
  {
    assert Admitted(s, j) ==> !LateRequest(s, j);
  }

  lemma ReaperKeepsPunctual(s: State, e: Event, j: nat)
    requires Inv(s) && OnTime(s) && Enabled(s, e) && !DrainUnder(s, e, j) && !ByRequest(e) && !ByLive(e)
    ensures !LateRequest(Apply(s, e), j)
  {
    assert Admitted(s, j) ==> ActorOk(s, j) && !LateRequest(s, j);
  }

  lemma StepKeepsOnTime(s: State, e: Event)
    requires Inv(s) && OnTime(s) && Enabled(s, e) && !Spoils(s, e)
    ensures OnTime(Apply(s, e))
  {
    StepKeepsSight(s, e);
    forall j: nat ensures !LateRequest(Apply(s, e), j) {
      assert !RollbackUnder(s, e, j) && !DrainUnder(s, e, j);
      if ByRequest(e) { RequestKeepsPunctual(s, e, j); }
      else if ByLive(e) { LiveKeepsPunctual(s, e, j); }
      else { ReaperKeepsPunctual(s, e, j); }
    }
  }

  lemma {:induction false} RunStaysOnTime(states: seq<State>, events: seq<Event>, i: nat)
    requires Run(states, events) && i < |states|
    requires forall k {:trigger events[k]} :: 0 <= k < i ==> !Spoils(states[k], events[k])
    ensures OnTime(states[i])
  {
    if i > 0 {
      RunStaysOnTime(states, events, i - 1);
      RunKeepsInv(states, events, i - 1);
      assert !Spoils(states[i - 1], events[i - 1]);
      StepKeepsOnTime(states[i - 1], events[i - 1]);
    }
  }

  /** Unless one of the three branches was taken, no custody request creates its acceptance after drain or discharge. */
  lemma NothingAcceptedAfterDrain(states: seq<State>, events: seq<Event>, i: nat)
    requires Run(states, events) && i < |events|
    requires forall k {:trigger events[k]} :: 0 <= k < i ==> !Spoils(states[k], events[k])
    requires events[i].Create? && states[i].files.acceptance.Unaccepted?
    ensures !states[i].files.drained && Held(states[i])
  {
    RunKeepsInv(states, events, i);
    RunStaysOnTime(states, events, i);
    var j := events[i].i;
    assert Admitted(states[i], j) && ActorOk(states[i], j) && !LateRequest(states[i], j);
  }

  // ---------------------------------------------------------------- the three branches are exact

  function Last(states: seq<State>): State
    requires states != []
  {
    states[|states| - 1]
  }

  lemma Take(states: seq<State>, events: seq<Event>, e: Event) returns (states': seq<State>, events': seq<Event>)
    requires Run(states, events) && Enabled(Last(states), e)
    ensures Run(states', events') && Last(states') == Apply(Last(states), e) && events' == events + [e]
  {
    states', events' := states + [Apply(Last(states), e)], events + [e];
    forall i | 0 <= i < |events'| ensures Enabled(states'[i], events'[i])
        && states'[i + 1] == Apply(states'[i], events'[i]) {
      if i < |events| { assert states'[i] == states[i] && states'[i + 1] == states[i + 1] && events'[i] == events[i]; }
    }
  }

  /** The second and the third branch make the admitted request late at once. */
  lemma LateAtOnce(s: State, e: Event, j: nat)
    requires Inv(s) && Enabled(s, e) && (RollbackUnder(s, e, j) || DrainUnder(s, e, j))
    ensures LateRequest(Apply(s, e), j) && Enabled(Apply(s, e), Create(j))
    ensures Apply(Apply(s, e), Create(j)).files.acceptance == AcceptedBy(j)
  {
    assert ActorOk(s, j);
    assert Rollback(e) ==> ActorOk(s, e.i);
  }

  /** What the first branch leaves behind: a reaper about to record drain, and nothing accepted or drained for good. */
  predicate Misled(s: State) {
    s.saw && Held(s) && s.files.acceptance.Unaccepted? && !DrainStands(s)
  }

  lemma RollbackMisleads(s: State, e: Event)
    requires Inv(s) && Enabled(s, e) && SeenRollback(s, e)
    ensures Misled(Apply(s, e)) && Apply(s, e).actors.Keys == s.actors.Keys
  {
    assert ActorOk(s, e.i);
  }

  predicate Ready(s: State) {
    Misled(s) && s.reaper.Resting? && s.custody == NOBODY
  }

  /** A reaper that is marking or inside its section gives up, its own drain rolled back, custody kept. */
  lemma ReaperGivesUp(states: seq<State>, events: seq<Event>) returns (states': seq<State>, events': seq<Event>)
    requires Run(states, events) && Misled(Last(states)) && Inv(Last(states))
    requires Last(states).reaper.Marking? || Last(states).reaper.MarkingInside? || Last(states).reaper.Removing?
    ensures Run(states', events') && events <= events' && Misled(Last(states')) && Last(states').reaper.Resting?
    ensures Last(states').actors == Last(states).actors
    ensures Last(states').custody == if Last(states).custody == REAPER then NOBODY else Last(states).custody
  {
    states', events' := Take(states, events, match Last(states).reaper
                                             case Marking => DrainFails(true)
                                             case MarkingInside => InsideFails(true)
                                             case _ => RemoveFails);
  }

  lemma ReaperLeaves(states: seq<State>, events: seq<Event>) returns (states': seq<State>, events': seq<Event>)
    requires Run(states, events) && Misled(Last(states)) && Inv(Last(states))
    ensures Run(states', events') && events <= events' && Misled(Last(states')) && Last(states').reaper.Resting?
    ensures Last(states').actors == Last(states).actors
    ensures Last(states').custody == if Last(states).custody == REAPER then NOBODY else Last(states).custody
  {
    states', events' := states, events;
    if Last(states').reaper.Reading? {
      states', events' := Take(states', events', ReadAcceptance);
    } else if Last(states').reaper.Draining? {
      states', events' := Take(states', events', WriteDrained);
    }
    if !Last(states').reaper.Resting? {
      RunKeepsInv(states', events', |states'| - 1);
      states', events' := ReaperGivesUp(states', events');
    }
  }

  lemma RequestIsCreating(states: seq<State>, events: seq<Event>, j: nat)
    returns (states': seq<State>, events': seq<Event>)
    requires Run(states, events)
    requires var s := Last(states); j !in s.actors && s.custody == NOBODY && Held(s) && !s.files.drained
    ensures Run(states', events') && events < events'
    ensures var s := Last(states); Last(states') == s.(custody := j, actors := s.actors[j := Requester(Creating)])
  {
    states', events' := Take(states, events, Ask(j));
    states', events' := Take(states', events', TakeLock(j));
    states', events' := Take(states', events', Check(j));
    assert Last(states').actors == Last(states).actors[j := Requester(Creating)];
  }

  /** One further request is admitted, and the reaper then records what it saw. */
  lemma NextRequestIsLate(states: seq<State>, events: seq<Event>, j: nat)
      returns (states': seq<State>, events': seq<Event>)
    requires Run(states, events) && Ready(Last(states)) && j !in Last(states).actors
    ensures Run(states', events') && events < events' && LateRequest(Last(states'), j)
  {
    states', events' := RequestIsCreating(states, events, j);
    states', events' := Take(states', events', DrainSeen);
  }

  lemma MisledIsLate(states: seq<State>, events: seq<Event>, j: nat) returns (states': seq<State>, events': seq<Event>)
    requires Run(states, events) && Misled(Last(states)) && j !in Last(states).actors
    ensures Run(states', events') && events <= events' && LateRequest(Last(states'), j)
  {
    RunKeepsInv(states, events, |states| - 1);
    states', events' := ReaperLeaves(states, events);
    if Last(states').custody != NOBODY {
      states', events' := Take(states', events', Lose(Last(states').custody));
    }
    states', events' := NextRequestIsLate(states', events', j);
  }

  /** Every run that takes the first branch extends to a late request. */
  lemma SeenRollbackAcceptsAfterDrain(states: seq<State>, events: seq<Event>, e: Event, j: nat)
      returns (states': seq<State>, events': seq<Event>)
    requires Run(states, events) && Enabled(Last(states), e) && SeenRollback(Last(states), e)
    requires j !in Last(states).actors
    ensures Run(states', events') && events + [e] <= events' && LateRequest(Last(states'), j)
  {
    RunKeepsInv(states, events, |states| - 1);
    RollbackMisleads(Last(states), e);
    states', events' := Take(states, events, e);
    states', events' := MisledIsLate(states', events', j);
  }

  /** The first branch needs one custody request, or one live request, and one look of the reaper. */
  lemma SeenRollbackIsReachable(boot: string) returns (states: seq<State>, events: seq<Event>)
    requires ValidBootId(boot)
    ensures Run(states, events)
    ensures Enabled(Last(states), SyncFails(1, true)) && SeenRollback(Last(states), SyncFails(1, true))
  {
    states, events := AdmittedIsReachable(boot);
    states, events := Take(states, events, Create(1));
    states, events := Take(states, events, Look);
  }

  lemma LiveSeenRollbackIsReachable(boot: string) returns (states: seq<State>, events: seq<Event>)
    requires ValidBootId(boot)
    ensures Run(states, events)
    ensures Enabled(Last(states), LiveSyncFails(2, true)) && SeenRollback(Last(states), LiveSyncFails(2, true))
  {
    states, events := [Start(boot)], [];
    states, events := LiveIsSeen(states, events);
  }

  lemma LiveIsSeen(states: seq<State>, events: seq<Event>) returns (states': seq<State>, events': seq<Event>)
    requires Run(states, events)
    requires var s := Last(states);
      2 !in s.actors && s.completion == NOBODY && !s.terminal && s.files.acceptance.Unaccepted? && s.reaper.Resting?
    ensures Run(states', events') && LiveAt(Last(states'), 2, LiveSyncing) && Last(states').saw
    ensures Last(states').files == Accept(Last(states).files, AcceptedBy(2))
    ensures Last(states').boot == Last(states).boot && Last(states').reaper == Last(states).reaper
    ensures forall k :: k in Last(states).actors ==>
        k in Last(states').actors && Last(states').actors[k] == Last(states).actors[k]
  {
    states', events' := Take(states, events, LiveAsk(2));
    states', events' := Take(states', events', LiveLock(2));
    states', events' := Take(states', events', LiveCreate(2));
    states', events' := Take(states', events', Look);
  }

  lemma AdmittedIsReachable(boot: string) returns (states: seq<State>, events: seq<Event>)
    requires ValidBootId(boot)
    ensures Run(states, events)
    ensures Last(states) == Start(boot).(custody := 1, actors := map[1 := Requester(Creating)])
  {
    states, events := [Start(boot)], [];
    states, events := RequestIsCreating(states, events, 1);
  }

  /** The second branch: a live request creates, the reaper sees it and drains, and its sync fails. */
  lemma RollbackUnderIsReachable(boot: string) returns (states: seq<State>, events: seq<Event>)
    requires ValidBootId(boot)
    ensures Run(states, events)
    ensures Enabled(Last(states), LiveSyncFails(2, true)) && RollbackUnder(Last(states), LiveSyncFails(2, true), 1)
  {
    states, events := AdmittedIsReachable(boot);
    states, events := LiveIsSeen(states, events);
    states, events := Take(states, events, DrainSeen);
    states, events := Take(states, events, DrainSynced);
  }

  /** The third branch: the live loop publishes its own cancellation while a request is past its check. */
  lemma DrainUnderIsReachable(boot: string) returns (states: seq<State>, events: seq<Event>)
    requires ValidBootId(boot)
    ensures Run(states, events) && Enabled(Last(states), DrainUnasked) && DrainUnder(Last(states), DrainUnasked, 1)
  {
    states, events := AdmittedIsReachable(boot);
  }

  // ---------------------------------------------------------------- live requests after drain or discharge

  predicate Spoilt(s: State) {
    s.files.drained || s.files.physical.Absent?
  }

  /** A live request, which checks neither marker, about to create its acceptance on a drained or discharged handle. */
  predicate LiveLate(s: State, i: nat) {
    LiveAt(s, i, LiveCreating) && s.files.acceptance.Unaccepted? && Spoilt(s)
  }

  /** Its lock is taken over a handle that is drained or discharged and not yet terminal. */
  predicate LockOverSpoilt(s: State, e: Event, i: nat) {
    e == LiveLock(i) && !s.terminal && s.files.acceptance.Unaccepted? && Spoilt(s)
  }

  /** A drain or a discharge falls between its lock and its marker. */
  predicate SpoilUnder(s: State, e: Event, i: nat) {
    && LiveAt(s, i, LiveCreating) && s.files.acceptance.Unaccepted? && !Spoilt(s)
    && (e.DrainSeen? || e.DrainUnasked? || e.WriteDrained? || e.RemoveCustody?)
  }

  /** The acceptance that would have answered it is rolled back on a drained or discharged handle. */
  predicate RollbackUnderLive(s: State, e: Event, i: nat) {
    LiveAt(s, i, LiveCreating) && s.files.acceptance.AcceptedBy? && Spoilt(s) && Rollback(e)
  }

  predicate LiveSpoils(s: State, e: Event, i: nat) {
    LockOverSpoilt(s, e, i) || SpoilUnder(s, e, i) || RollbackUnderLive(s, e, i)
  }

  /** Exactly these three steps make a live request late. */
  lemma LiveLateExactly(s: State, e: Event, i: nat)
    requires Inv(s) && Enabled(s, e)
    ensures !LiveLate(s, i) && LiveLate(Apply(s, e), i) <==> LiveSpoils(s, e, i)
  {
    if ByRequest(e) {
      RequestAndLive(s, e, i);
    } else if ByLive(e) {
      LiveAndLive(s, e, i);
    } else {
      ReaperAndLive(s, e, i);
    }
  }

  lemma RequestAndLive(s: State, e: Event, i: nat)
    requires Inv(s) && Enabled(s, e) && ByRequest(e)
    ensures !LiveLate(s, i) && LiveLate(Apply(s, e), i) <==> RollbackUnderLive(s, e, i)
  {
    assert Rollback(e) ==> ActorOk(s, e.i);
  }

  lemma LiveAndLive(s: State, e: Event, i: nat)
    requires Inv(s) && Enabled(s, e) && ByLive(e)
    ensures !LiveLate(s, i) && LiveLate(Apply(s, e), i) <==> LockOverSpoilt(s, e, i) || RollbackUnderLive(s, e, i)
  {
    assert Rollback(e) ==> ActorOk(s, e.i);
  }

  lemma ReaperAndLive(s: State, e: Event, i: nat)
    requires Inv(s) && Enabled(s, e) && !ByRequest(e) && !ByLive(e)
    ensures !LiveLate(s, i) && LiveLate(Apply(s, e), i) <==> SpoilUnder(s, e, i)
  {
  }

  lemma {:induction false} LiveStaysOnTime(states: seq<State>, events: seq<Event>, n: nat, i: nat)
    requires Run(states, events) && n < |states|
    requires forall k {:trigger events[k]} :: 0 <= k < n ==> !LiveSpoils(states[k], events[k], i)
    ensures !LiveLate(states[n], i)
  {
    if n > 0 {
      LiveStaysOnTime(states, events, n - 1, i);
      RunKeepsInv(states, events, n - 1);
      assert !LiveSpoils(states[n - 1], events[n - 1], i);
      LiveLateExactly(states[n - 1], events[n - 1], i);
    }
  }

  /** Unless one of those steps was taken, a live request creates no acceptance after drain or discharge. */
  lemma NothingLiveAcceptedAfterDrain(states: seq<State>, events: seq<Event>, n: nat, i: nat)
    requires Run(states, events) && n < |events|
    requires forall k {:trigger events[k]} :: 0 <= k < n ==> !LiveSpoils(states[k], events[k], i)
    requires events[n] == LiveCreate(i) && states[n].files.acceptance.Unaccepted?
    ensures !states[n].files.drained && states[n].files.physical.Holds?
  {
    LiveStaysOnTime(states, events, n, i);
    assert LiveAt(states[n], i, LiveCreating);
  }

  /** A late live request goes on to create its acceptance. */
  lemma LateLiveAccepts(s: State, i: nat)
    requires LiveLate(s, i)
    ensures Enabled(s, LiveCreate(i)) && Apply(s, LiveCreate(i)).files.acceptance == AcceptedBy(i)
  {
  }

  /** First: the live loop drains for a cancellation nobody asked for and fails to publish it, and a request follows. */
  lemma LockOverSpoiltIsReachable(boot: string) returns (states: seq<State>, events: seq<Event>)
    ensures Run(states, events) && Enabled(Last(states), LiveLock(2)) && LockOverSpoilt(Last(states), LiveLock(2), 2)
  {
    states, events := [Start(boot)], [];
    states, events := Take(states, events, DrainUnasked);
    states, events := Take(states, events, DrainSynced);
    states, events := Take(states, events, LiveAsk(2));
  }

  lemma LiveIsCreating(boot: string) returns (states: seq<State>, events: seq<Event>)
    ensures Run(states, events)
    ensures Last(states) == Start(boot).(completion := 2, actors := map[2 := Live(LiveCreating)])
  {
    states, events := [Start(boot)], [];
    states, events := Take(states, events, LiveAsk(2));
    states, events := Take(states, events, LiveLock(2));
  }

  /** Second: a discharge that read no acceptance removes custody under the request. */
  lemma SpoilUnderIsReachable(boot: string) returns (states: seq<State>, events: seq<Event>)
    ensures Run(states, events) && Enabled(Last(states), RemoveCustody) && SpoilUnder(Last(states), RemoveCustody, 2)
  {
    states, events := LiveIsCreating(boot);
    states, events := Take(states, events, Discharge);
    states, events := Take(states, events, ReadAcceptance);
  }

  /** Third: a custody request is seen and drained for, and then rolled back under the live request. */
  lemma RollbackUnderLiveIsReachable(boot: string) returns (states: seq<State>, events: seq<Event>)
    requires ValidBootId(boot)
    ensures Run(states, events)
    ensures Enabled(Last(states), SyncFails(1, true)) && RollbackUnderLive(Last(states), SyncFails(1, true), 2)
  {
    states, events := LiveIsCreating(boot);
    states, events := RequestIsCreating(states, events, 1);
    states, events := Take(states, events, Create(1));
    states, events := Take(states, events, Look);
    states, events := Take(states, events, DrainSeen);
  }
}
