/**
 * Explicit detach: the claim marker, the delivery mode, the activation outcome and the metadata
 * mirror are four durable files, written one at a time by a worker that shares its parent's
 * delivery lock; either process may be lost between any two writes (src/delivery.rs detach and
 * settlement, src/state.rs activation_transfer_state).
 */
module Activation {

  datatype Mode = Sync | Async

  /** The outcome file; `Absent` when it does not exist. */
  datatype OutcomeFile = Absent | Pending | Succeeded | PreAdmissionFailed | Failed | TransferUnknown

  datatype Files = Files(mode: Mode, mirror: Mode, claimed: bool, outcome: OutcomeFile)

  /** The decisions of activation_transfer_state that settlement and observation take. */
  predicate ClaimedWithoutOutcome(f: Files) {
    f.outcome.Absent? && f.claimed
  }

  predicate MustRollBack(f: Files) {
    ClaimedWithoutOutcome(f) || f.outcome.PreAdmissionFailed?
  }

  /** require_settled_activation succeeds. */
  predicate Settled(f: Files) {
    (f.outcome.Absent? && !f.claimed) || f.outcome.Succeeded?
  }

  /** A helper may have been admitted for this outcome. */
  predicate MayHaveRun(o: OutcomeFile) {
    o.Pending? || o.Succeeded? || o.Failed? || o.TransferUnknown?
  }

  // ---------------------------------------------------------------- settlement

  /** What settlement still has to write; `Rollback(k)` has made the first `k` of its four writes. */
  datatype Plan = NoPlan | Rollback(k: nat) | MarkUnknown

  function PlanFor(f: Files): Plan {
    if MustRollBack(f) then Rollback(0) else if f.outcome.Pending? then MarkUnknown else NoPlan
  }

  function PlanWrite(f: Files, p: Plan): Files
    requires p != NoPlan
  {
    match p
    case MarkUnknown => f.(outcome := TransferUnknown)
    case Rollback(k) =>
      if k == 0 then f.(mode := Sync)
      else if k == 1 then f.(mirror := Sync)
      else if k == 2 then f.(outcome := Absent)
      else f.(claimed := false)
  }

  function PlanNext(p: Plan): Plan
    requires p != NoPlan
  {
    if p.Rollback? && p.k < 3 then Rollback(p.k + 1) else NoPlan
  }

  function Finish(f: Files, p: Plan): Files
    decreases match p case Rollback(k) => 5 - k case MarkUnknown => 1 case NoPlan => 0
    requires p.Rollback? ==> p.k <= 3
  {
    if p.NoPlan? then f else Finish(PlanWrite(f, p), PlanNext(p))
  }

  /** Settlement run to its end. */
  function Settle(f: Files): Files {
    Finish(f, PlanFor(f))
  }

  /** The files when settlement of `f` is lost after `k` writes. */
  function SettleLostAfter(f: Files, p: Plan, k: nat): Files
    decreases k
  {
    if k == 0 || p.NoPlan? then f else SettleLostAfter(PlanWrite(f, p), PlanNext(p), k - 1)
  }

  /** From any files whatever, settlement can be lost after any number of writes and run again. */
  lemma SettlementIsIdempotent(f: Files, k: nat)
    ensures Settle(SettleLostAfter(f, PlanFor(f), k)) == Settle(f)
    ensures Settled(Settle(f)) || Settle(f).outcome.Failed? || Settle(f).outcome.TransferUnknown?
  {
    var p := PlanFor(f);
    if p.Rollback? {
      var f1 := PlanWrite(f, Rollback(0));
      var f2 := PlanWrite(f1, Rollback(1));
      var f3 := PlanWrite(f2, Rollback(2));
      var f4 := PlanWrite(f3, Rollback(3));
      assert Settle(f) == Finish(f1, Rollback(1)) == Finish(f2, Rollback(2)) == Finish(f3, Rollback(3)) == f4;
      assert Settle(f1) == f4 && Settle(f2) == f4 by {
        assert MustRollBack(f1) && MustRollBack(f2);
        Rolls(f1);
        Rolls(f2);
      }
      assert Settle(f3) == f4 by { if MustRollBack(f3) { Rolls(f3); } }
      assert k >= 1 ==> SettleLostAfter(f, p, k) == SettleLostAfter(f1, Rollback(1), k - 1);
      assert k >= 2 ==> SettleLostAfter(f, p, k) == SettleLostAfter(f2, Rollback(2), k - 2);
      assert k >= 3 ==> SettleLostAfter(f, p, k) == SettleLostAfter(f3, Rollback(3), k - 3);
      assert k >= 4 ==> SettleLostAfter(f, p, k) == SettleLostAfter(f4, NoPlan, k - 4) == f4;
    } else if p.MarkUnknown? {
      var f1 := PlanWrite(f, MarkUnknown);
      assert Settle(f) == Finish(f1, NoPlan) == f1;
      assert k >= 1 ==> SettleLostAfter(f, p, k) == SettleLostAfter(f1, NoPlan, k - 1) == f1;
    }
  }

  /** What settlement makes of any files whatever, field by field. */
  lemma SettlesTo(f: Files)
    ensures f.outcome.Pending? ==> Settle(f) == Files(f.mode, f.mirror, f.claimed, TransferUnknown)
    ensures f.outcome.PreAdmissionFailed? || (f.outcome.Absent? && f.claimed) ==>
              Settle(f) == Files(Sync, Sync, false, Absent)
    ensures f.outcome in {Succeeded, Failed, TransferUnknown} || (f.outcome.Absent? && !f.claimed) ==> Settle(f) == f
  {
    if MustRollBack(f) {
      Rolls(f);
    } else if f.outcome.Pending? {
      assert Settle(f) == Finish(PlanWrite(f, MarkUnknown), NoPlan);
    }
  }

  lemma Rolls(f: Files)
    requires MustRollBack(f)
    ensures Settle(f) == Files(Sync, Sync, false, Absent)
  {
    var f1 := PlanWrite(f, Rollback(0));
    var f2 := PlanWrite(f1, Rollback(1));
    var f3 := PlanWrite(f2, Rollback(2));
    assert Settle(f) == Finish(f1, Rollback(1)) == Finish(f2, Rollback(2)) == Finish(f3, Rollback(3));
  }

  // ---------------------------------------------------------------- processes

  datatype Purpose = Query | Detach | AfterWorker

  datatype Parent =
    | NoParent
    | Settling(plan: Plan, purpose: Purpose)
    | Deciding(purpose: Purpose)
    | Waiting
    | Observed(ok: bool, mode: Mode)

  datatype Result = NotStarted | Refused | Accepted

  datatype Worker =
    | NoWorker
    | Claiming
    | SettingMode(mine: bool)
    | Unclaiming
    | Writing
    | Running
    | Concluding(result: Result)
    | Mirroring(ok: bool)
    | Retrying
    | Confirming
    | WorkerSettling(plan: Plan)
    | WorkerExited(ok: bool)

  /**
   * `born` is the mode the handle was created with; `admitted` counts activation helpers that started,
   * and `accepted` the helpers that answered yes and the readbacks that found an earlier request committed.
   */
  datatype State = State(
    v2: bool, born: Mode, files: Files, parent: Parent, worker: Worker, admitted: nat, accepted: nat)

  datatype Event =
    | Lock(purpose: Purpose) | ParentWrite | Decide | ObserveWorker | LoseParent
    | Claim | WriteMode | ModeWriteFails | ModeWriteFailsVisibly | Unclaim
    | WritePending | PendingWriteFails | HelperNotStarted | HelperRan(accepted: bool)
    | WriteOutcome | WriteMirror | RetryRan(started: bool, accepted: bool) | WriteConfirmed | WorkerWrite | LoseWorker

  predicate WorkerLives(w: Worker) {
    !w.NoWorker? && !w.WorkerExited?
  }

  predicate Retryable(s: State) {
    s.v2 && (s.files.outcome.Failed? || s.files.outcome.TransferUnknown?)
  }

  predicate Enabled(s: State, e: Event) {
    match e
    case Lock(purpose) => s.parent.NoParent? && !WorkerLives(s.worker) && !purpose.AfterWorker?
    case ParentWrite => s.parent.Settling?
    case Decide => s.parent.Deciding?
    case ObserveWorker => s.parent.Waiting? && s.worker.WorkerExited?
    case LoseParent => !s.parent.NoParent?
    case Claim => s.worker.Claiming?
    case WriteMode => s.worker.SettingMode?
    case ModeWriteFails => s.worker.SettingMode?
    case ModeWriteFailsVisibly => s.worker.SettingMode?
    case Unclaim => s.worker.Unclaiming?
    case WritePending => s.worker.Writing?
    case PendingWriteFails => s.worker.Writing?
    case HelperNotStarted => s.worker.Running?
    case HelperRan(_) => s.worker.Running?
    case WriteOutcome => s.worker.Concluding?
    case WriteMirror => s.worker.Mirroring?
    case RetryRan(started, accepted) => s.worker.Retrying? && (accepted ==> started || s.admitted > 0)
    case WriteConfirmed => s.worker.Confirming?
    case WorkerWrite => s.worker.WorkerSettling?
    case LoseWorker => WorkerLives(s.worker)
  }

  /** detach reports, and on success repairs the mirror first. */
  function DetachAnswers(s: State, ok: bool): State {
    s.(parent := Observed(ok, s.files.mode), files := if ok then s.files.(mirror := Async) else s.files)
  }

  function Apply(s: State, e: Event): State
    requires Enabled(s, e)
  {
    match e
    case Lock(purpose) => s.(parent := Settling(PlanFor(s.files), purpose), worker := NoWorker)
    case ParentWrite =>
      var p := s.parent.plan;
      if p.NoPlan? then s.(parent := Deciding(s.parent.purpose))
      else s.(files := PlanWrite(s.files, p), parent := Settling(PlanNext(p), s.parent.purpose))
    case Decide =>
      if s.parent.purpose.Detach? then
        if s.files.mode.Sync? then s.(parent := Waiting, worker := Claiming)
        else if Retryable(s) then s.(parent := Waiting, worker := Retrying)
        else DetachAnswers(s, Settled(s.files))
      else if s.parent.purpose.AfterWorker? then
        DetachAnswers(s, Settled(s.files) && s.worker.WorkerExited? && s.worker.ok)
      else s.(parent := Observed(s.files.mode.Sync? || Settled(s.files), s.files.mode))
    case ObserveWorker => s.(parent := Settling(PlanFor(s.files), AfterWorker))
    case LoseParent => s.(parent := NoParent)
    case Claim => s.(files := s.files.(claimed := true), worker := SettingMode(!s.files.claimed))
    case WriteMode =>
      s.(files := s.files.(mode := Async),
         worker := if s.worker.mine then Writing
                   else if Settled(s.files) then Concluding(Accepted) else WorkerExited(false))
    case ModeWriteFails => s.(worker := if s.worker.mine then Unclaiming else WorkerExited(false))
    case ModeWriteFailsVisibly =>
      s.(files := s.files.(mode := Async), worker := if s.worker.mine then Unclaiming else WorkerExited(false))
    case Unclaim => s.(files := s.files.(claimed := false), worker := WorkerExited(false))
    case WritePending => s.(files := s.files.(outcome := Pending), worker := Running)
    case PendingWriteFails => s.(worker := WorkerSettling(PlanFor(s.files)))
    case HelperNotStarted => s.(worker := Concluding(NotStarted))
    case HelperRan(accepted) =>
      s.(admitted := s.admitted + 1, accepted := s.accepted + if accepted then 1 else 0,
         worker := Concluding(if accepted then Accepted else Refused))
    case WriteOutcome =>
      (match s.worker.result
       case NotStarted =>
         var f := s.files.(outcome := PreAdmissionFailed);
         s.(files := f, worker := WorkerSettling(PlanFor(f)))
       case Refused => s.(files := s.files.(outcome := Failed), worker := Mirroring(false))
       case Accepted => s.(files := s.files.(outcome := Succeeded), worker := Mirroring(true)))
    case WriteMirror => s.(files := s.files.(mirror := Async), worker := WorkerExited(s.worker.ok))
    case RetryRan(started, accepted) =>
      s.(admitted := s.admitted + if started then 1 else 0, accepted := s.accepted + if accepted then 1 else 0,
         worker := if accepted then Confirming else WorkerExited(false))
    case WriteConfirmed => s.(files := s.files.(outcome := Succeeded), worker := WorkerExited(true))
    case WorkerWrite =>
      var p := s.worker.plan;
      if p.NoPlan? then s.(worker := WorkerExited(false))
      else s.(files := PlanWrite(s.files, p), worker := WorkerSettling(PlanNext(p)))
    case LoseWorker => s.(worker := WorkerExited(false))
  }

  predicate Initial(s: State) {
    s == State(s.v2, s.born, Files(s.born, s.born, false, Absent), NoParent, NoWorker, 0, 0)
  }

  // ---------------------------------------------------------------- invariant

  predicate PlanOk(f: Files, p: Plan) {
    match p
    case NoPlan => true
    case MarkUnknown => f.outcome.Pending?
    case Rollback(k) =>
      && k <= 3 && f.claimed
      && (if k == 3 then f.outcome.Absent? else f.outcome.Absent? || f.outcome.PreAdmissionFailed?)
      && (k >= 1 ==> f.mode.Sync?)
  }

  predicate FilesOk(s: State) {
    var f := s.files;
    && (MayHaveRun(f.outcome) ==> f.mode.Async? && f.claimed)
    && (f.outcome.PreAdmissionFailed? ==> f.claimed)
    && (s.admitted > 0 ==> MayHaveRun(f.outcome))
    && (f.outcome.Succeeded? ==> s.accepted > 0) && (s.accepted > 0 ==> s.admitted > 0)
  }

  predicate ParentOk(s: State) {
    match s.parent
    case Settling(p, _) =>
      !WorkerLives(s.worker) && PlanOk(s.files, p) && (p.NoPlan? ==> PlanFor(s.files).NoPlan?)
    case Deciding(_) => !WorkerLives(s.worker) && PlanFor(s.files).NoPlan?
    case Waiting => !s.worker.NoWorker?
    case _ => !WorkerLives(s.worker) || s.parent.NoParent?
  }

  predicate WorkerOk(s: State) {
    var f := s.files;
    match s.worker
    case Claiming => f.mode.Sync? && f.outcome.Absent? && !f.claimed && s.admitted == 0
    case SettingMode(mine) => mine && f.mode.Sync? && ClaimedWithoutOutcome(f) && s.admitted == 0
    case Unclaiming => ClaimedWithoutOutcome(f) && s.admitted == 0
    case Writing => f.mode.Async? && ClaimedWithoutOutcome(f) && s.admitted == 0
    case Running => f.outcome.Pending? && s.admitted == 0
    case Concluding(NotStarted) => f.outcome.Pending? && s.admitted == 0
    case Concluding(Accepted) => f.outcome.Pending? && s.accepted > 0
    case Concluding(Refused) => f.outcome.Pending?
    case Mirroring(ok) => if ok then f.outcome.Succeeded? else f.outcome.Failed?
    case Retrying => Retryable(s)
    case Confirming => Retryable(s) && s.accepted > 0
    case WorkerSettling(p) => PlanOk(f, p) && (p.NoPlan? ==> PlanFor(f).NoPlan?)
    case WorkerExited(ok) => ok ==> f.outcome.Succeeded?
    case NoWorker => true
  }

  predicate Inv(s: State) {
    FilesOk(s) && ParentOk(s) && WorkerOk(s) && (!s.v2 ==> s.admitted <= 1)
  }

  /** Settlement writes, by whichever process makes them. */
  predicate Settles(e: Event) {
    e.ParentWrite? || e.WorkerWrite?
  }

  predicate ByParent(e: Event) {
    e.Lock? || e.Decide? || e.ObserveWorker? || e.LoseParent?
  }

  lemma SettlementPreserves(s: State, e: Event)
    requires Inv(s) && Enabled(s, e) && Settles(e)
    ensures Inv(Apply(s, e))
  {
  }

  lemma ParentPreserves(s: State, e: Event)
    requires Inv(s) && Enabled(s, e) && ByParent(e)
    ensures Inv(Apply(s, e))
  {
  }

  /** Everything a worker does before its helper may start. */
  predicate BeforeHelper(e: Event) {
    e.Claim? || e.WriteMode? || e.ModeWriteFails? || e.ModeWriteFailsVisibly? || e.Unclaim? || e.WritePending?
        || e.PendingWriteFails?
  }

  lemma BeforeHelperPreserves(s: State, e: Event)
    requires Inv(s) && Enabled(s, e) && BeforeHelper(e)
    ensures Inv(Apply(s, e))
  {
  }

  lemma HelperPreserves(s: State, e: Event)
    requires Inv(s) && Enabled(s, e) && !Settles(e) && !ByParent(e) && !BeforeHelper(e)
    ensures Inv(Apply(s, e))
  {
  }

  lemma StepPreserves(s: State, e: Event)
    requires Inv(s) && Enabled(s, e)
    ensures Inv(Apply(s, e))
  {
    if Settles(e) { SettlementPreserves(s, e); }
    else if ByParent(e) { ParentPreserves(s, e); }
    else if BeforeHelper(e) { BeforeHelperPreserves(s, e); }
    else { HelperPreserves(s, e); }
  }

  // ---------------------------------------------------------------- runs

  ghost predicate Run(states: seq<State>, events: seq<Event>) {
    && |states| == |events| + 1
    && Initial(states[0])
    && forall i {:trigger events[i]} :: 0 <= i < |events| ==>
         Enabled(states[i], events[i]) && states[i + 1] == Apply(states[i], events[i])
  }

  lemma {:induction false} RunKeepsInv(states: seq<State>, events: seq<Event>, i: nat)
    requires Run(states, events) && i < |states|
    ensures Inv(states[i]) && states[i].v2 == states[0].v2 && states[i].born == states[0].born
  {
    if i > 0 {
      RunKeepsInv(states, events, i - 1);
      StepPreserves(states[i - 1], events[i - 1]);
    }
  }

  /**
   * Over all crash points: an outcome a helper may be behind implies mode Async and the claim
   * marker; a handle whose mode reads Sync has never had an activation admitted; and without
   * v2 no second helper runs.
   */
  lemma ActivationIsSafe(states: seq<State>, events: seq<Event>, i: nat)
    requires Run(states, events) && i < |states|
    ensures var s := states[i];
      && (MayHaveRun(s.files.outcome) ==> s.files.mode.Async? && s.files.claimed)
      && (s.files.mode.Sync? ==> s.admitted == 0)
      && (s.admitted > 0 ==> MayHaveRun(s.files.outcome))
      && (!s.v2 ==> s.admitted <= 1)
  {
    RunKeepsInv(states, events, i);
  }

  /** The mode file says Async only under a claim, on a handle created Sync, unless a rename failed visibly. */
  predicate AsyncIsClaimed(s: State) {
    && (s.files.mode.Async? ==> s.files.claimed)
    && (s.worker.Unclaiming? ==> s.files.mode.Sync?)
  }

  lemma StepKeepsClaim(s: State, e: Event)
    requires Inv(s) && AsyncIsClaimed(s) && Enabled(s, e) && !e.ModeWriteFailsVisibly?
    ensures AsyncIsClaimed(Apply(s, e))
  {
  }

  lemma {:induction false} ClaimGuardsMode(states: seq<State>, events: seq<Event>, i: nat)
    requires Run(states, events) && i < |states| && states[0].born.Sync?
    requires forall k :: 0 <= k < |events| ==> !events[k].ModeWriteFailsVisibly?
    ensures AsyncIsClaimed(states[i])
  {
    if i > 0 {
      ClaimGuardsMode(states, events, i - 1);
      RunKeepsInv(states, events, i - 1);
      StepKeepsClaim(states[i - 1], events[i - 1]);
    }
  }

  /** A successful observation of Async on a handle created Sync means that some helper's activation was accepted. */
  lemma ObservedAsyncMeansActivated(states: seq<State>, events: seq<Event>, i: nat)
    requires Run(states, events) && i < |events| && states[0].born.Sync?
    requires forall k :: 0 <= k < |events| ==> !events[k].ModeWriteFailsVisibly?
    requires events[i].Decide? && states[i + 1].parent == Observed(true, Async)
    ensures states[i].files.outcome.Succeeded? && states[i].accepted > 0 && states[i].admitted > 0
  {
    ClaimGuardsMode(states, events, i);
    RunKeepsInv(states, events, i);
  }

  /**
   * The exception is real for every handle: when the mode write fails after its rename became
   * visible, the rollback of the claim leaves files that read as a settled Async handle, though
   * no helper was ever admitted.
   */
  lemma VisibleFailureFakesActivation(states: seq<State>, events: seq<Event>, i: nat)
    requires Run(states, events) && i < |states| && states[i].worker.SettingMode?
    ensures var s := states[i];
      && s.admitted == 0
      && var t := Apply(s, ModeWriteFailsVisibly);
         && Enabled(t, Unclaim)
         && var u := Apply(t, Unclaim);
            u.files.mode.Async? && Settled(u.files) && !u.files.outcome.Succeeded? && u.admitted == 0
  {
    RunKeepsInv(states, events, i);
  }

  /** Every first detach of a handle created Sync comes to such a mode write. */
  lemma SettingModeIsReachable(v2: bool) returns (states: seq<State>, events: seq<Event>)
    ensures Run(states, events) && states[0].v2 == v2 && states[|states| - 1].worker == SettingMode(true)
  {
    var s := State(v2, Sync, Files(Sync, Sync, false, Absent), NoParent, NoWorker, 0, 0);
    var locked := Apply(s, Lock(Detach));
    var settled := Apply(locked, ParentWrite);
    var waiting := Apply(settled, Decide);
    states := [s, locked, settled, waiting, Apply(waiting, Claim)];
    events := [Lock(Detach), ParentWrite, Decide, Claim];
  }

  /** What the worker's last writes record: a refusal is failed, an acceptance succeeded, and the mirror follows. */
  lemma ConclusionExactly(s: State, e: Event)
    requires Enabled(s, e) && (e.WriteOutcome? || e.WriteMirror? || e.WriteConfirmed?)
    ensures var f := Apply(s, e).files;
            && f.mode == s.files.mode && f.claimed == s.files.claimed
            && (e.WriteMirror? ==> f.mirror == Async && f.outcome == s.files.outcome)
            && (!e.WriteMirror? ==> f.mirror == s.files.mirror)
            && (e.WriteConfirmed? || s.worker == Concluding(Accepted) ==> f.outcome == Succeeded)
            && (s.worker == Concluding(Refused) ==> f.outcome == Failed)
            && (s.worker == Concluding(NotStarted) ==> f.outcome == PreAdmissionFailed)
            && (e.WriteConfirmed? ==> Apply(s, e).worker == WorkerExited(true))
  {
  }

  /** A second helper is tried exactly by a v2 detach that finds Async with a failed or unknown outcome. */
  lemma RetriedExactly(s: State)
    requires Enabled(s, Decide)
    ensures Apply(s, Decide).worker.Retrying? && !s.worker.Retrying? <==>
              && !s.worker.Retrying? && s.parent.purpose.Detach? && s.files.mode.Async? && s.v2
              && s.files.outcome in {Failed, TransferUnknown}
    ensures Apply(s, Decide).worker.Claiming? && !s.worker.Claiming? <==>
              !s.worker.Claiming? && s.parent.purpose.Detach? && s.files.mode.Sync?
  {
  }

  /** Every verdict in the outcome file has its witness. */
  predicate Witnessed(s: State) {
    && (s.files.outcome.Failed? || s.worker == Concluding(Refused) ==> s.admitted > 0)
    && (s.files.outcome.Succeeded? || s.worker == Concluding(Accepted) || s.worker.Confirming? ==> s.accepted > 0)
  }

  /** A failed outcome means that a helper ran, and a succeeded one that an activation was accepted. */
  lemma {:induction false} OutcomeIsWitnessed(states: seq<State>, events: seq<Event>, i: nat)
    requires Run(states, events) && i < |states|
    ensures Witnessed(states[i])
  {
    if i > 0 {
      OutcomeIsWitnessed(states, events, i - 1);
      RunKeepsInv(states, events, i - 1);
      assert Enabled(states[i - 1], events[i - 1]);
    }
  }

  /** Conversely, an acceptance is recorded by every worker that is not lost first. */
  lemma {:induction false} AcceptanceIsRecorded(states: seq<State>, events: seq<Event>, i: nat)
    requires Run(states, events) && i < |states|
    requires forall k :: 0 <= k < |events| ==> !events[k].LoseWorker?
    ensures var s := states[i];
            s.accepted > 0 ==> s.files.outcome.Succeeded? || s.worker == Concluding(Accepted) || s.worker.Confirming?
    ensures states[i].accepted > 0 && !WorkerLives(states[i].worker) ==> states[i].files.outcome.Succeeded?
  {
    if i > 0 {
      AcceptanceIsRecorded(states, events, i - 1);
      RunKeepsInv(states, events, i - 1);
      assert !events[i - 1].LoseWorker?;
    }
  }

  // ---------------------------------------------------------------- who needs settlement, and its answer

  /** Outside a live worker nothing waits for settlement. */
  predicate Orphanless(s: State) {
    (!WorkerLives(s.worker) ==> PlanFor(s.files).NoPlan?) && (s.parent.Settling? ==> s.parent.plan.NoPlan?)
  }

  /** Only the loss of a worker leaves files to settle: every failure it lives to see it undoes or records itself. */
  lemma {:induction false} OnlyLossesOrphan(states: seq<State>, events: seq<Event>, i: nat)
    requires Run(states, events) && i < |states|
    requires forall k :: 0 <= k < |events| ==> !events[k].LoseWorker?
    ensures Orphanless(states[i])
  {
    if i > 0 {
      OnlyLossesOrphan(states, events, i - 1);
      RunKeepsInv(states, events, i - 1);
      assert !events[i - 1].LoseWorker?;
    }
  }

  /** The parent carries on with its settlement, uninterrupted, until it can decide. */
  function SettledBy(s: State): (t: State)
    requires s.parent.Settling? && (s.parent.plan.Rollback? ==> s.parent.plan.k <= 3)
    ensures t.parent == Deciding(s.parent.purpose)
    decreases match s.parent.plan case Rollback(k) => 5 - k case MarkUnknown => 1 case NoPlan => 0
  {
    var t := Apply(s, ParentWrite);
    if s.parent.plan.NoPlan? then t else SettledBy(t)
  }

  lemma {:induction false} SettledByFinishes(s: State)
    requires s.parent.Settling? && (s.parent.plan.Rollback? ==> s.parent.plan.k <= 3)
    ensures SettledBy(s) == s.(files := Finish(s.files, s.parent.plan), parent := Deciding(s.parent.purpose))
    decreases match s.parent.plan case Rollback(k) => 5 - k case MarkUnknown => 1 case NoPlan => 0
  {
    if !s.parent.plan.NoPlan? { SettledByFinishes(Apply(s, ParentWrite)); }
  }

  /**
   * A query answers from the files alone: an undone attempt is Sync, a pending one is an error from now on, and
   * Async is confirmed exactly over a settled outcome.
   */
  lemma QueryAnswersExactly(s: State)
    requires Enabled(s, Lock(Query))
    ensures var t := Apply(s, Lock(Query));
      && t.parent.Settling? && (t.parent.plan.Rollback? ==> t.parent.plan.k <= 3)
      && var u := Apply(SettledBy(t), Decide);
         && (s.files.outcome.PreAdmissionFailed? || (s.files.outcome.Absent? && s.files.claimed) ==>
               u.files == Files(Sync, Sync, false, Absent) && u.parent == Observed(true, Sync))
         && (s.files.outcome.Pending? ==>
               u.files == s.files.(outcome := TransferUnknown)
               && u.parent == Observed(s.files.mode.Sync?, s.files.mode))
         && (s.files.outcome.Succeeded? || (s.files.outcome.Absent? && !s.files.claimed) ==>
               u.files == s.files && u.parent == Observed(true, s.files.mode))
         && (s.files.outcome in {Failed, TransferUnknown} ==>
               u.files == s.files && u.parent == Observed(s.files.mode.Sync?, s.files.mode))
  {
    SettledByFinishes(Apply(s, Lock(Query)));
    SettlesTo(s.files);
  }

  /** A detach that waited for its worker succeeds exactly if the worker did, and then all files agree on Async. */
  lemma DetachAnswersExactly(s: State)
    requires Inv(s) && Enabled(s, ObserveWorker)
    ensures var t := Apply(s, ObserveWorker);
      && t.parent.Settling? && (t.parent.plan.Rollback? ==> t.parent.plan.k <= 3)
      && var u := Apply(SettledBy(t), Decide);
         && u.parent == Observed(s.worker.ok, u.files.mode)
         && (s.worker.ok ==> u.files == Files(Async, Async, true, Succeeded))
         && (!s.worker.ok ==> u.files == Settle(s.files))
  {
    SettledByFinishes(Apply(s, ObserveWorker));
    SettlesTo(s.files);
  }

  /** So a detach that succeeds leaves the mirror Async beside the mode, on first tries, repeats and retries. */
  lemma DetachedIsMirrored(states: seq<State>, events: seq<Event>, i: nat)
    requires Run(states, events) && i < |events| && events[i].Decide? && !states[i].parent.purpose.Query?
    requires states[i + 1].parent.Observed? && states[i + 1].parent.ok
    ensures var t := states[i + 1]; t.parent.mode == Async && t.files.mode == Async && t.files.mirror == Async
  {
    RunKeepsInv(states, events, i);
  }

  // ---------------------------------------------------------------- settlement as the program runs it

  class StateDirectory {
    var mode: Mode
    var mirror: Mode
    var claimed: bool
    var outcome: OutcomeFile

    function Contents(): Files
      reads this
    {
      Files(mode, mirror, claimed, outcome)
    }

    /**
     * settle_orphaned_activation, uninterrupted: an attempt that was pending is unknown from now on, one
     * that admitted nobody is undone, and everything else stays.
     */
    method SettleOrphanedActivation()
      modifies this
      ensures Contents() == Settle(old(Contents()))
      ensures old(outcome) == Pending ==>
                outcome == TransferUnknown && mode == old(mode) && mirror == old(mirror) && claimed == old(claimed)
      ensures old(outcome) == PreAdmissionFailed || (old(outcome) == Absent && old(claimed)) ==>
                outcome == Absent && mode == Sync && mirror == Sync && !claimed
      ensures old(outcome) in {Succeeded, Failed, TransferUnknown} || (old(outcome) == Absent && !old(claimed)) ==>
                Contents() == old(Contents())
    {
      SettlesTo(Contents());
      if (outcome == Absent && claimed) || outcome == PreAdmissionFailed {
        Rolls(Contents());
        mode := Sync;
        mirror := Sync;
        outcome := Absent;
        claimed := false;
      } else if outcome == Pending {
        outcome := TransferUnknown;
      }
    }

    /** settled_delivery_mode: settle, then refuse an Async mode whose activation is not settled. */
    method SettledDeliveryMode() returns (ok: bool, m: Mode)
      modifies this
      ensures Contents() == Settle(old(Contents()))
      ensures m == mode && (ok <==> m.Sync? || Settled(Contents()))
      ensures ok && m.Async? ==> old(outcome) == Succeeded || (old(outcome) == Absent && !old(claimed))
    {
      SettleOrphanedActivation();
      m := mode;
      ok := m == Sync || outcome == Succeeded || (outcome == Absent && !claimed);
    }
  }
}
