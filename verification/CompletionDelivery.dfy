/**
 * Completion delivery of one handle: the durable record, the delivery lock that a forked child
 * inherits, and the owner, custodian and worker that may each be lost between any two writes
 * (src/delivery.rs, record lifecycle in src/state.rs).
 */
module CompletionDelivery {

  import opened Options

  datatype ErrorCode =
    | AttemptInProgress
    | OutcomeUnknown
    | HelperLaunchFailed
    | WorkerLaunchFailed
    | HelperUnavailable
    | HelperChanged
    | HelperInvalid

  datatype DeliveryMeta = DeliveryMeta(
    attempted: bool, exitCode: Option<int>, errorCode: Option<ErrorCode>,
    retryable: Option<bool>, retryCount: nat, skipped: bool)

  datatype Lifecycle =
    | Unclaimed
    | ProvisionalTransfer
    | RetryablePreAdmissionFailure
    | ClosedPreAdmissionFailure
    | NonReplayableUnknownTransfer
    | AdmittedOutcome
    | LegacySkipped
    | Invalid

  function LifecycleOf(m: DeliveryMeta): Lifecycle {
    if m.skipped then
      if !m.attempted && m.errorCode.None? then LegacySkipped else Invalid
    else if m.attempted then
      match m.errorCode
      case Some(AttemptInProgress) => ProvisionalTransfer
      case Some(OutcomeUnknown) => NonReplayableUnknownTransfer
      case _ => AdmittedOutcome
    else if m.errorCode.None? then Unclaimed
    else if m.retryable == Some(true) then RetryablePreAdmissionFailure
    else ClosedPreAdmissionFailure
  }

  predicate PermitsAttempt(l: Lifecycle) {
    l.Unclaimed? || l.RetryablePreAdmissionFailure?
  }

  predicate Permits(m: DeliveryMeta) {
    PermitsAttempt(LifecycleOf(m))
  }

  const UNTRIED: DeliveryMeta := DeliveryMeta(false, None, None, None, 0, false)
  const IN_PROGRESS: DeliveryMeta := DeliveryMeta(true, None, Some(AttemptInProgress), Some(false), 0, false)

  function Unknown(retryCount: nat): DeliveryMeta {
    DeliveryMeta(true, None, Some(OutcomeUnknown), Some(false), retryCount, false)
  }

  function PreAdmission(code: ErrorCode, mayRetry: bool, retryCount: nat): DeliveryMeta {
    DeliveryMeta(false, None, Some(code), Some(mayRetry && retryCount == 0), retryCount, false)
  }

  function Outcome(exitCode: Option<int>): DeliveryMeta {
    DeliveryMeta(true, exitCode, None, None, 0, false)
  }

  // ---------------------------------------------------------------- processes

  datatype HelperResult = Exited(code: Option<int>) | WaitFailed | NotStarted

  datatype Worker = NoWorker | Beginning | Provisional | Concluding(result: HelperResult) | WorkerExited(ok: bool)

  datatype Custodian = NoCustodian | AtGate | Supervising | CReading | CWriting(seen: Lifecycle)
    | CustodianExited(ok: bool)

  datatype Owner = NoOwner | Deciding | Forking | Gating | Waiting | OReading | OWriting(seen: Lifecycle)

  /**
   * `v2` selects the structured continuation helper. `roled` says whether this attempt runs
   * under a role custodian; otherwise the forked child is itself the worker. `spawns` counts
   * helper spawn attempts and `admitted` the helpers that actually started.
   */
  datatype State = State(
    v2: bool, rec: DeliveryMeta,
    owner: Owner, custodian: Custodian, worker: Worker,
    roled: bool, byte: bool, retry: nat,
    spawns: nat, admitted: nat)

  datatype Event =
    | Acquire(roled: bool) | Settle | Decide | ForkFails | ForkChild | Admit
    | PassGate | LeaveGate
    | RequestFails(code: ErrorCode) | WriteProvisional | Spawn(result: HelperResult) | SetupFails | Conclude
    | ObserveWorker | CustodianRead | CustodianWrite
    | ObserveChild | OwnerRead | OwnerWrite
    | LoseOwner | LoseCustodian | LoseWorker

  predicate WorkerLives(w: Worker) {
    w.Beginning? || w.Provisional? || w.Concluding?
  }

  predicate CustodianLives(c: Custodian) {
    c.AtGate? || c.Supervising? || c.CReading? || c.CWriting?
  }

  /** The flock is held as long as any process that inherited its description lives. */
  predicate LockFree(s: State) {
    s.owner.NoOwner? && !CustodianLives(s.custodian) && !WorkerLives(s.worker)
  }

  predicate HelperCode(code: ErrorCode) {
    code.HelperUnavailable? || code.HelperChanged? || code.HelperInvalid?
  }

  predicate ChildExited(s: State) {
    if s.custodian.NoCustodian? then s.worker.WorkerExited? else s.custodian.CustodianExited?
  }

  predicate ChildOk(s: State)
    requires ChildExited(s)
  {
    if s.custodian.NoCustodian? then s.worker.ok else s.custodian.ok
  }

  function Integrate(rec: DeliveryMeta, seen: Lifecycle, retry: nat): DeliveryMeta {
    if PermitsAttempt(seen) then PreAdmission(WorkerLaunchFailed, true, retry)
    else if seen.ProvisionalTransfer? then Unknown(retry)
    else rec
  }

  function Concluded(v2: bool, result: HelperResult, retry: nat): DeliveryMeta {
    match result
    case Exited(code) => if v2 && code != Some(0) then Outcome(None) else Outcome(code)
    case WaitFailed => Outcome(None)
    case NotStarted => if v2 then Outcome(None) else PreAdmission(HelperLaunchFailed, true, retry)
  }

  predicate Enabled(s: State, e: Event) {
    match e
    case Acquire(_) => LockFree(s)
    case Settle => s.owner.Deciding? && !Permits(s.rec)
    case Decide => s.owner.Deciding? && Permits(s.rec)
    case ForkFails => s.owner.Forking?
    case ForkChild => s.owner.Forking?
    case Admit => s.owner.Gating?
    case PassGate => s.custodian.AtGate? && s.byte
    case LeaveGate => s.custodian.AtGate? && (s.byte || !s.owner.Gating?)
    case RequestFails(code) => s.worker.Beginning? && HelperCode(code)
    case WriteProvisional => s.worker.Beginning?
    case Spawn(_) => s.worker.Provisional?
    case SetupFails => s.worker.Provisional?
    case Conclude => s.worker.Concluding?
    case ObserveWorker => s.custodian.Supervising? && s.worker.WorkerExited?
    case CustodianRead => s.custodian.CReading?
    case CustodianWrite => s.custodian.CWriting?
    case ObserveChild => s.owner.Waiting? && ChildExited(s)
    case OwnerRead => s.owner.OReading?
    case OwnerWrite => s.owner.OWriting?
    case LoseOwner => !s.owner.NoOwner?
    case LoseCustodian => CustodianLives(s.custodian)
    case LoseWorker => WorkerLives(s.worker)
  }

  function Apply(s: State, e: Event): State
    requires Enabled(s, e)
  {
    match e
    case Acquire(roled) =>
      s.(owner := Deciding, custodian := NoCustodian, worker := NoWorker, roled := roled, byte := false)
    case Settle =>
      s.(rec := if LifecycleOf(s.rec).ProvisionalTransfer? then Unknown(s.rec.retryCount) else s.rec, owner := NoOwner)
    case Decide =>
      s.(owner := Forking,
         retry := s.rec.retryCount + if LifecycleOf(s.rec).RetryablePreAdmissionFailure? then 1 else 0)
    case ForkFails => s.(rec := Integrate(s.rec, LifecycleOf(s.rec), s.retry), owner := NoOwner)
    case ForkChild => s.(owner := Gating, custodian := AtGate)
    case Admit => s.(owner := Waiting, byte := true)
    case PassGate => s.(custodian := if s.roled then Supervising else NoCustodian, worker := Beginning)
    case LeaveGate => s.(custodian := CustodianExited(false))
    case RequestFails(code) =>
      if s.v2 then s.(worker := WorkerExited(false))
      else s.(rec := PreAdmission(code, !code.HelperInvalid?, s.retry), worker := WorkerExited(true))
    case WriteProvisional => s.(rec := IN_PROGRESS, worker := Provisional)
    case Spawn(result) =>
      s.(worker := Concluding(result), spawns := s.spawns + 1,
         admitted := s.admitted + if result.NotStarted? then 0 else 1)
    case SetupFails => s.(worker := Concluding(NotStarted))
    case Conclude => s.(rec := Concluded(s.v2, s.worker.result, s.retry), worker := WorkerExited(true))
    case ObserveWorker => s.(custodian := if s.worker.ok then CustodianExited(true) else CReading)
    case CustodianRead => s.(custodian := CWriting(LifecycleOf(s.rec)))
    case CustodianWrite =>
      s.(rec := Integrate(s.rec, s.custodian.seen, s.retry), custodian := CustodianExited(true))
    case ObserveChild => s.(owner := if ChildOk(s) then NoOwner else OReading)
    case OwnerRead => s.(owner := OWriting(LifecycleOf(s.rec)))
    case OwnerWrite => s.(rec := Integrate(s.rec, s.owner.seen, s.retry), owner := NoOwner)
    case LoseOwner => s.(owner := NoOwner)
    case LoseCustodian => s.(custodian := CustodianExited(false))
    case LoseWorker => s.(worker := WorkerExited(false))
  }

  predicate Initial(s: State) {
    s == State(s.v2, UNTRIED, NoOwner, NoCustodian, NoWorker, false, false, 0, 0, 0)
  }

  // ---------------------------------------------------------------- invariants

  /** A process of the current attempt that has not yet tried to spawn the helper. */
  predicate PreSpawn(s: State) {
    s.owner.Forking? || s.owner.Gating? || s.custodian.AtGate? || s.worker.Beginning? || s.worker.Provisional?
  }

  /** How the processes of one attempt fit together. */
  predicate Shape(s: State) {
    && (s.owner.Deciding? || s.owner.Forking? ==> s.custodian.NoCustodian? && s.worker.NoWorker?)
    && (s.owner.Deciding? || s.owner.Forking? || s.owner.Gating? ==> !s.byte)
    && (s.owner.OReading? || s.owner.OWriting? ==> !CustodianLives(s.custodian))
    && (s.custodian.AtGate? ==> s.worker.NoWorker?)
    && (!s.byte ==> s.worker.NoWorker? && !s.custodian.Supervising? && !s.custodian.CReading? && !s.custodian.CWriting?)
    && (s.custodian.CReading? || s.custodian.CWriting? ==> s.worker.WorkerExited?)
    && (s.custodian.CWriting? ==> s.custodian.seen == LifecycleOf(s.rec))
  }

  predicate RetryOk(s: State) {
    && (Permits(s.rec) ==> s.rec.retryCount == 0)
    && s.retry <= 1
    && (s.owner.Forking? || s.owner.Gating? ==> Permits(s.rec))
    && (s.custodian.AtGate? ==> Permits(s.rec))
    && (s.worker.Beginning? && s.retry == 0 ==> Permits(s.rec) && (s.owner.OWriting? ==> PermitsAttempt(s.owner.seen)))
    && (s.worker.Provisional? || s.worker.Concluding? ==>
         !LifecycleOf(s.rec).Unclaimed? && (s.retry == 1 ==> !Permits(s.rec)))
    && (PreSpawn(s) && s.retry == 0 ==> s.spawns == 0)
    && (s.worker.Concluding? && s.retry == 0 ==> s.spawns <= 1)
  }

  /** Two spawns are the whole budget: the second one happens in a retry, which can only close. */
  predicate BudgetOk(s: State) {
    && s.spawns <= 2 && s.admitted <= s.spawns
    && (s.spawns >= 1 ==> !LifecycleOf(s.rec).Unclaimed? && (PreSpawn(s) ==> s.retry == 1))
    && (s.spawns == 2 ==> s.retry == 1 && !PreSpawn(s) && !Permits(s.rec))
  }

  /** Which records a worker or an integrating owner can still meet. */
  predicate KindOk(s: State) {
    && ((s.worker.Provisional? || s.worker.Concluding?) && s.retry == 0 && !Permits(s.rec) ==>
          LifecycleOf(s.rec).ProvisionalTransfer? || LifecycleOf(s.rec).NonReplayableUnknownTransfer?)
    && (s.owner.OWriting? && PermitsAttempt(s.owner.seen) ==> !LifecycleOf(s.rec).NonReplayableUnknownTransfer?)
  }

  predicate Inv(s: State) {
    Shape(s) && RetryOk(s) && BudgetOk(s) && KindOk(s)
  }

  predicate ByWorker(e: Event) {
    e.RequestFails? || e.WriteProvisional? || e.Spawn? || e.SetupFails? || e.Conclude? || e.LoseWorker?
  }

  predicate ByCustodian(e: Event) {
    e.PassGate? || e.LeaveGate? || e.ObserveWorker? || e.CustodianRead? || e.CustodianWrite? || e.LoseCustodian?
  }

  lemma WorkerPreserves(s: State, e: Event)
    requires Inv(s) && Enabled(s, e) && ByWorker(e)
    ensures Inv(Apply(s, e))
  {
  }

  lemma CustodianPreserves(s: State, e: Event)
    requires Inv(s) && Enabled(s, e) && ByCustodian(e)
    ensures Inv(Apply(s, e))
  {
  }

  lemma OwnerPreserves(s: State, e: Event)
    requires Inv(s) && Enabled(s, e) && !ByWorker(e) && !ByCustodian(e)
    ensures Inv(Apply(s, e))
  {
  }

  lemma StepPreserves(s: State, e: Event)
    requires Inv(s) && Enabled(s, e)
    ensures Inv(Apply(s, e))
  {
    if ByWorker(e) { WorkerPreserves(s, e); }
    else if ByCustodian(e) { CustodianPreserves(s, e); }
    else { OwnerPreserves(s, e); }
  }

  // ---------------------------------------------------------------- runs

  ghost predicate Path(states: seq<State>, events: seq<Event>) {
    && |states| == |events| + 1
    && forall i {:trigger events[i]} :: 0 <= i < |events| ==>
         Enabled(states[i], events[i]) && states[i + 1] == Apply(states[i], events[i])
  }

  ghost predicate Run(states: seq<State>, events: seq<Event>) {
    Path(states, events) && Initial(states[0])
  }

  lemma {:induction false} RunKeepsInv(states: seq<State>, events: seq<Event>, i: nat)
    requires Run(states, events) && i < |states|
    ensures Inv(states[i])
  {
    if i > 0 {
      RunKeepsInv(states, events, i - 1);
      StepPreserves(states[i - 1], events[i - 1]);
    }
  }

  /** Whatever is lost and whenever, the helper is tried at most twice per handle. */
  lemma AtMostTwoSpawns(states: seq<State>, events: seq<Event>, i: nat)
    requires Run(states, events) && i < |states|
    ensures states[i].admitted <= states[i].spawns <= 2
  {
    RunKeepsInv(states, events, i);
  }

  /** Once the lock was free over a record that permits nothing, nothing ever runs again. */
  predicate Resting(s: State) {
    && !Permits(s.rec) && !CustodianLives(s.custodian) && !WorkerLives(s.worker)
    && (s.owner.NoOwner? || s.owner.Deciding?)
  }

  lemma StepKeepsResting(s: State, e: Event)
    requires Resting(s) && Enabled(s, e)
    ensures var t := Apply(s, e); Resting(t) && t.spawns == s.spawns && t.admitted == s.admitted
  {
  }

  lemma {:induction false} ClosedStaysClosed(states: seq<State>, events: seq<Event>, i: nat, j: nat)
    requires Path(states, events) && i <= j < |states|
    requires LockFree(states[i]) && !Permits(states[i].rec)
    ensures Resting(states[j])
    ensures states[j].spawns == states[i].spawns && states[j].admitted == states[i].admitted
    decreases j
  {
    if i < j {
      ClosedStaysClosed(states, events, i, j - 1);
      StepKeepsResting(states[j - 1], events[j - 1]);
    }
  }

  /** A record that says the attempt is over: admitted, unknown for good, or closed before admission. */
  predicate Over(m: DeliveryMeta) {
    var l := LifecycleOf(m);
    l.AdmittedOutcome? || l.NonReplayableUnknownTransfer? || l.ClosedPreAdmissionFailure?
  }

  /** The orphaned worker of a lost custodian reports that it never started a helper, after the owner wrote unknown. */
  predicate LateReport(s: State, e: Event) {
    && LifecycleOf(s.rec).NonReplayableUnknownTransfer?
    && e.Conclude? && s.worker == Concluding(NotStarted) && !s.v2 && s.retry == 0
  }

  /** The owner integrates a read that the worker has since overtaken with its outcome. */
  predicate StaleIntegration(s: State, e: Event) {
    && (LifecycleOf(s.rec).AdmittedOutcome? || LifecycleOf(s.rec).ClosedPreAdmissionFailure?)
    && e.OwnerWrite? && s.owner.OWriting? && PermitsAttempt(s.owner.seen) && s.retry == 0
  }

  /** Exactly these two writes make a record that is over attemptable again. */
  lemma ReopenedExactlyBy(s: State, e: Event)
    requires Inv(s) && Enabled(s, e) && Over(s.rec)
    ensures Permits(Apply(s, e).rec) <==> LateReport(s, e) || StaleIntegration(s, e)
  {
  }

  // ---------------------------------------------------------------- at most one helper

  /** The owner integrates a lost custodian while the orphaned worker has not yet recorded anything. */
  predicate Overtaken(s: State) {
    s.owner.OReading? && s.worker.Beginning? && s.retry == 0
  }

  predicate Sealed(s: State) {
    && !Permits(s.rec) && !PreSpawn(s)
    && s.worker != Concluding(NotStarted)
    && (s.owner.OWriting? && PermitsAttempt(s.owner.seen) ==> s.retry == 1)
  }

  predicate OnceInv(s: State) {
    && Inv(s)
    && (WorkerLives(s.worker) && s.owner.OWriting? && PermitsAttempt(s.owner.seen) ==> s.retry == 1)
    && (s.worker.Provisional? || s.worker.Concluding? ==> !Permits(s.rec))
    && s.admitted <= 1
    && (s.admitted == 1 ==> Sealed(s))
  }

  lemma StepKeepsOnce(s: State, e: Event)
    requires OnceInv(s) && Enabled(s, e) && !(e.OwnerRead? && Overtaken(s))
    ensures OnceInv(Apply(s, e))
  {
    StepPreserves(s, e);
  }

  /** No owner in this run reads the record back past a worker that has yet to write it. */
  ghost predicate NeverOvertaken(states: seq<State>, events: seq<Event>)
    requires Path(states, events)
  {
    forall i {:trigger events[i]} :: 0 <= i < |events| && events[i].OwnerRead? ==> !Overtaken(states[i])
  }

  /** At most one completion helper is ever admitted, over all crashes of all three processes. */
  lemma {:induction false} AtMostOneHelper(states: seq<State>, events: seq<Event>, i: nat)
    requires Run(states, events) && NeverOvertaken(states, events) && i < |states|
    ensures OnceInv(states[i])
    ensures states[i].admitted <= 1
    ensures states[i].admitted == 1 && LockFree(states[i]) ==> !Permits(states[i].rec)
  {
    if i > 0 {
      AtMostOneHelper(states, events, i - 1);
      assert !(events[i - 1].OwnerRead? && Overtaken(states[i - 1]));
      StepKeepsOnce(states[i - 1], events[i - 1]);
    }
  }

  /** Without a role custodian the owner waits for the worker itself. */
  predicate Direct(s: State) {
    && !s.roled
    && (WorkerLives(s.worker) ==> s.custodian.NoCustodian? && !s.owner.OReading? && !s.owner.OWriting?)
  }

  lemma StepKeepsDirect(s: State, e: Event)
    requires Shape(s) && Direct(s) && Enabled(s, e) && (e.Acquire? ==> !e.roled)
    ensures Direct(Apply(s, e))
  {
  }

  lemma {:induction false} DirectIsNeverOvertaken(states: seq<State>, events: seq<Event>, i: nat)
    requires Run(states, events) && i < |states|
    requires forall k :: 0 <= k < |events| && events[k].Acquire? ==> !events[k].roled
    ensures Direct(states[i]) && !Overtaken(states[i])
  {
    if i > 0 {
      DirectIsNeverOvertaken(states, events, i - 1);
      RunKeepsInv(states, events, i - 1);
      StepKeepsDirect(states[i - 1], events[i - 1]);
    }
  }

  // ---------------------------------------------------------------- the proviso is exact

  function Last(states: seq<State>): State
    requires states != []
  {
    states[|states| - 1]
  }

  lemma Take(states: seq<State>, events: seq<Event>, e: Event) returns (states': seq<State>, events': seq<Event>)
    requires Path(states, events) && Enabled(Last(states), e)
    ensures Path(states', events') && Last(states') == Apply(Last(states), e) && states'[0] == states[0]
    ensures states' == states + [Apply(Last(states), e)] && events' == events + [e]
  {
    states', events' := states + [Apply(Last(states), e)], events + [e];
    forall i | 0 <= i < |events'| ensures Enabled(states'[i], events'[i])
        && states'[i + 1] == Apply(states'[i], events'[i]) {
      if i < |events| { assert states'[i] == states[i] && states'[i + 1] == states[i + 1] && events'[i] == events[i]; }
    }
  }

  /** Any free lock over an attemptable record leads to a worker about to write. */
  lemma AttemptStarts(states: seq<State>, events: seq<Event>, roled: bool)
    returns (states': seq<State>, events': seq<Event>)
    requires Path(states, events) && LockFree(Last(states)) && Permits(Last(states).rec)
    ensures Path(states', events') && states'[0] == states[0]
    ensures var s, t := Last(states), Last(states');
      t == s.(owner := Waiting, custodian := if roled then Supervising else NoCustodian, worker := Beginning,
              roled := roled, byte := true, retry := t.retry)
      && t.retry == s.rec.retryCount + if LifecycleOf(s.rec).RetryablePreAdmissionFailure? then 1 else 0
  {
    states', events' := Take(states, events, Acquire(roled));
    states', events' := Take(states', events', Decide);
    states', events' := Take(states', events', ForkChild);
    states', events' := Take(states', events', Admit);
    states', events' := Take(states', events', PassGate);
  }

  /** Every overtaken read-back can go on to admit a second helper. */
  lemma OvertakenAdmitsTwice(s: State) returns (states: seq<State>, events: seq<Event>)
    requires Inv(s) && Overtaken(s)
    ensures Path(states, events) && states[0] == s && Last(states).admitted == 2
  {
    states, events := [s], [];
    states, events := Take(states, events, OwnerRead);
    states, events := Take(states, events, WriteProvisional);
    states, events := Take(states, events, Spawn(Exited(Some(0))));
    states, events := Take(states, events, Conclude);
    states, events := Take(states, events, OwnerWrite);
    states, events := AttemptStarts(states, events, false);
    states, events := Take(states, events, WriteProvisional);
    states, events := Take(states, events, Spawn(Exited(Some(0))));
  }

  /** The overtaken read-back itself needs only the loss of one custodian. */
  lemma OvertakenIsReachable(v2: bool) returns (states: seq<State>, events: seq<Event>)
    ensures Run(states, events) && Last(states).v2 == v2 && Overtaken(Last(states))
  {
    states, events := [State(v2, UNTRIED, NoOwner, NoCustodian, NoWorker, false, false, 0, 0, 0)], [];
    states, events := AttemptStarts(states, events, true);
    states, events := Take(states, events, LoseCustodian);
    states, events := Take(states, events, ObserveChild);
  }

  // ---------------------------------------------------------------- both reopenings occur

  /** A run without an overtaken read-back, extended by a step that is none. */
  lemma TakeInTime(states: seq<State>, events: seq<Event>, e: Event) returns (states': seq<State>, events': seq<Event>)
    requires Run(states, events) && NeverOvertaken(states, events)
    requires Enabled(Last(states), e) && !(e.OwnerRead? && Overtaken(Last(states)))
    ensures Run(states', events') && NeverOvertaken(states', events') && Last(states') == Apply(Last(states), e)
  {
    states', events' := Take(states, events, e);
    forall i | 0 <= i < |events'| && events'[i].OwnerRead? ensures !Overtaken(states'[i]) {
      if i < |events| { assert events'[i] == events[i] && states'[i] == states[i]; }
    }
  }

  lemma WorkerBegins() returns (states: seq<State>, events: seq<Event>)
    ensures Run(states, events) && NeverOvertaken(states, events)
    ensures Last(states) == State(false, UNTRIED, Waiting, Supervising, Beginning, true, true, 0, 0, 0)
  {
    states, events := [State(false, UNTRIED, NoOwner, NoCustodian, NoWorker, false, false, 0, 0, 0)], [];
    states, events := TakeInTime(states, events, Acquire(true));
    states, events := TakeInTime(states, events, Decide);
    states, events := TakeInTime(states, events, ForkChild);
    states, events := TakeInTime(states, events, Admit);
    states, events := TakeInTime(states, events, PassGate);
  }

  lemma CustodianIsLost() returns (states: seq<State>, events: seq<Event>)
    ensures Run(states, events) && NeverOvertaken(states, events)
    ensures Last(states) == State(false, IN_PROGRESS, OReading, CustodianExited(false), Provisional, true, true, 0,
        0, 0)
  {
    states, events := WorkerBegins();
    states, events := TakeInTime(states, events, WriteProvisional);
    states, events := TakeInTime(states, events, LoseCustodian);
    states, events := TakeInTime(states, events, ObserveChild);
  }

  /** Losing the custodian of a worker that wrote its provisional record suffices, and no read-back is overtaken. */
  lemma LateReportIsReachable() returns (states: seq<State>, events: seq<Event>)
    ensures Run(states, events) && NeverOvertaken(states, events)
    ensures LateReport(Last(states), Conclude) && Enabled(Last(states), Conclude)
  {
    states, events := CustodianIsLost();
    states, events := TakeInTime(states, events, OwnerRead);
    states, events := TakeInTime(states, events, OwnerWrite);
    states, events := TakeInTime(states, events, Spawn(NotStarted));
  }

  lemma StaleIntegrationIsReachable(v2: bool) returns (states: seq<State>, events: seq<Event>)
    ensures Run(states, events) && StaleIntegration(Last(states), OwnerWrite) && Enabled(Last(states), OwnerWrite)
    ensures LifecycleOf(Last(states).rec).AdmittedOutcome?
  {
    states, events := OvertakenIsReachable(v2);
    RunKeepsInv(states, events, |states| - 1);
    states, events := Take(states, events, OwnerRead);
    states, events := Take(states, events, WriteProvisional);
    states, events := Take(states, events, Spawn(Exited(Some(0))));
    states, events := Take(states, events, Conclude);
  }

  // ---------------------------------------------------------------- every attempt is answered

  /** A record that answers an attempt: not provisional, and attemptable only as the one retry of a first try. */
  predicate Answered(s: State) {
    && !LifecycleOf(s.rec).ProvisionalTransfer?
    && (Permits(s.rec) ==> LifecycleOf(s.rec).RetryablePreAdmissionFailure? && s.retry == 0)
  }

  predicate Supervised(s: State) {
    && (s.custodian.Supervising? || s.custodian.CReading? || s.custodian.CWriting?)
    && s.byte && !s.worker.NoWorker?
  }

  /** A worker that ended well has answered; any other end is left to whoever waits for it. */
  predicate WorkerAnswers(s: State) {
    !s.worker.NoWorker? && (s.worker.WorkerExited? && s.worker.ok ==> Answered(s))
  }

  /** Some process of the attempt still has to answer, or the record does. */
  predicate Answering(s: State) {
    match s.owner
    case Deciding => false
    case Forking => s.custodian.NoCustodian?
    case Gating => s.custodian.AtGate?
    case Waiting =>
      if s.custodian.NoCustodian? then WorkerAnswers(s)
      else if s.custodian == CustodianExited(true) then Answered(s) && s.worker.WorkerExited?
      else if s.custodian == CustodianExited(false) then s.worker.NoWorker?
      else s.custodian.AtGate? || WorkerAnswers(s)
    case OReading => !WorkerLives(s.worker)
    case OWriting(seen) => !WorkerLives(s.worker) && seen == LifecycleOf(s.rec)
    case NoOwner =>
      if Supervised(s) then WorkerAnswers(s)
      else Answered(s) && !CustodianLives(s.custodian) && !WorkerLives(s.worker)
  }

  /** The owner is only lost once a role custodian supervises the worker, and the custodian is not. */
  predicate Attended(s: State, e: Event) {
    !e.LoseCustodian? && !e.Acquire? && (e.LoseOwner? ==> Supervised(s))
  }

  lemma StepKeepsAnswering(s: State, e: Event)
    requires Inv(s) && Answering(s) && Enabled(s, e) && Attended(s, e)
    ensures Answering(Apply(s, e))
  {
  }

  /**
   * Whatever the worker does or fails to do, an attended attempt leaves the lock over a record that
   * answers it: a first try ends closed, decided or with one retry left, a retry never leaves another.
   */
  lemma {:induction false} AttemptIsAnswered(states: seq<State>, events: seq<Event>, i: nat, j: nat)
    requires Path(states, events) && i <= j < |states| && Inv(states[i]) && states[i].owner.Forking?
    requires forall k {:trigger events[k]} :: i <= k < j ==> Attended(states[k], events[k])
    ensures Inv(states[j]) && Answering(states[j]) && states[j].retry == states[i].retry
    ensures LockFree(states[j]) ==> Answered(states[j])
    decreases j
  {
    if i < j {
      AttemptIsAnswered(states, events, i, j - 1);
      assert Attended(states[j - 1], events[j - 1]);
      StepPreserves(states[j - 1], events[j - 1]);
      StepKeepsAnswering(states[j - 1], events[j - 1]);
    }
  }

  /** A record of an exit code, or of an admitted outcome without v2, is backed by a helper that started. */
  predicate Backed(s: State) {
    && (s.rec.exitCode.Some? ==> s.admitted > 0)
    && (LifecycleOf(s.rec).AdmittedOutcome? && !s.v2 ==> s.admitted > 0)
    && (s.worker.Concluding? && !s.worker.result.NotStarted? ==> s.admitted > 0)
  }

  lemma {:induction false} AdmittedMeansStarted(states: seq<State>, events: seq<Event>, i: nat)
    requires Run(states, events) && i < |states|
    ensures Backed(states[i])
  {
    if i > 0 {
      AdmittedMeansStarted(states, events, i - 1);
      assert Enabled(states[i - 1], events[i - 1]);
    }
  }

  // ---------------------------------------------------------------- what each write records

  /** Which records permit an attempt, by their fields alone. */
  lemma PermitsExactly(m: DeliveryMeta)
    ensures Permits(m) <==> !m.skipped && !m.attempted && (m.errorCode.None? || m.retryable == Some(true))
  {
  }

  /** A failed request leaves an attemptable record exactly for an unavailable or changed helper at the first try. */
  lemma FailedRequestExactly(s: State, code: ErrorCode)
    requires Enabled(s, RequestFails(code))
    ensures var m := Apply(s, RequestFails(code)).rec;
            if s.v2 then m == s.rec
            else
              && m.errorCode == Some(code) && m.retryCount == s.retry && !m.attempted && m.exitCode.None?
              && (Permits(m) <==> (code.HelperUnavailable? || code.HelperChanged?) && s.retry == 0)
              && (!Permits(m) ==> LifecycleOf(m).ClosedPreAdmissionFailure?)
  {
  }

  /** A conclusion records an admitted outcome with the helper's exit code, unless no helper was started. */
  lemma ConclusionExactly(s: State)
    requires Enabled(s, Conclude)
    ensures var m, result := Apply(s, Conclude).rec, s.worker.result;
            && (s.v2 || !result.NotStarted? ==> LifecycleOf(m).AdmittedOutcome? && m.errorCode.None?)
            && (m.exitCode.Some? ==> result == Exited(m.exitCode) && (s.v2 ==> m.exitCode == Some(0)))
            && (result.Exited? && result.code.Some? && (!s.v2 || result.code == Some(0)) ==> m.exitCode == result.code)
            && (!s.v2 && result.NotStarted? ==>
                  m.errorCode == Some(HelperLaunchFailed) && (Permits(m) <==> s.retry == 0))
  {
  }

  /** Integrating a failed child reopens once what was attemptable when read, and makes a provisional record unknown. */
  lemma IntegrationExactly(s: State)
    requires Enabled(s, OwnerWrite)
    ensures var m, seen := Apply(s, OwnerWrite).rec, s.owner.seen;
            && (PermitsAttempt(seen) ==> m.errorCode == Some(WorkerLaunchFailed) && (Permits(m) <==> s.retry == 0))
            && (seen.ProvisionalTransfer? ==> LifecycleOf(m).NonReplayableUnknownTransfer?)
            && (!PermitsAttempt(seen) && !seen.ProvisionalTransfer? ==> m == s.rec)
  {
  }

  /** Settling a record that permits nothing, under a free lock, makes a provisional one unknown and nothing else. */
  lemma SettleExactly(s: State)
    requires Enabled(s, Settle)
    ensures var m := Apply(s, Settle).rec;
            if LifecycleOf(s.rec).ProvisionalTransfer? then LifecycleOf(m).NonReplayableUnknownTransfer? else m == s.rec
  {
  }

  /** A failed fork, and a custodian whose worker failed, integrate what the record says at that moment. */
  lemma FailuresExactly(s: State, e: Event)
    requires Inv(s) && Enabled(s, e) && (e.ForkFails? || e.CustodianWrite?)
    ensures var m := Apply(s, e).rec;
            && (Permits(s.rec) ==> m.errorCode == Some(WorkerLaunchFailed) && (Permits(m) <==> s.retry == 0))
            && (LifecycleOf(s.rec).ProvisionalTransfer? ==> LifecycleOf(m).NonReplayableUnknownTransfer?)
            && (!Permits(s.rec) && !LifecycleOf(s.rec).ProvisionalTransfer? ==> m == s.rec)
  {
  }

  /** The lifecycle by the record's fields: exactly one applies to every record. */
  lemma LifecycleExactly(m: DeliveryMeta)
    ensures var l := LifecycleOf(m);
            && (l.LegacySkipped? <==> m.skipped && !m.attempted && m.errorCode.None?)
            && (l.Invalid? <==> m.skipped && (m.attempted || m.errorCode.Some?))
            && (l.ProvisionalTransfer? <==> !m.skipped && m.attempted && m.errorCode == Some(AttemptInProgress))
            && (l.NonReplayableUnknownTransfer? <==> !m.skipped && m.attempted && m.errorCode == Some(OutcomeUnknown))
            && (l.Unclaimed? <==> !m.skipped && !m.attempted && m.errorCode.None?)
            && (l.ClosedPreAdmissionFailure? <==>
                  !m.skipped && !m.attempted && m.errorCode.Some? && m.retryable != Some(true))
  {
  }
}
