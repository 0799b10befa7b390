/**
 * Custody of external transfer helpers (src/delivery.rs: with_external_transfer_custody_cleanup,
 * src/state.rs: begin and end of external transfer custody, retention in state_dir_reap_eligible).
 * Transfers run one at a time under the delivery lock; founding-tree custody is discharged
 * independently of them.
 */
module ExternalCustody {

  import opened BootMarkers

  /** An attempt is inconclusive when its helper may have been admitted and not waited for. */
  datatype Transfer = NoTransfer | Begun(owned: bool) | Ran(owned: bool, conclusive: bool)

  /** `uncertain` says that some attempt of this boot ended inconclusively or was lost. */
  datatype State = State(
    boot: string, physical: Marker, external: Marker,
    transfer: Transfer, uncertain: bool, removed: bool)

  datatype Event =
    | Begin | HelperEnds(conclusive: bool) | End(unlinked: bool) | LoseTransfer
    | Discharge | Reap | Reboot(boot: string)

  /** What state_dir_reap_eligible needs of custody before the directory may be removed. */
  predicate CustodyClear(s: State) {
    !MayRemain(s.physical, s.boot) && !MayRemain(s.external, s.boot)
  }

  predicate Enabled(s: State, e: Event) {
    !s.removed &&
    match e
    case Begin => s.transfer.NoTransfer?
    case HelperEnds(_) => s.transfer.Begun?
    case End(_) => s.transfer.Ran?
    case LoseTransfer => !s.transfer.NoTransfer?
    case Discharge => true
    case Reap => CustodyClear(s) && s.transfer.NoTransfer?
    case Reboot(boot) => boot != s.boot
  }

  function Apply(s: State, e: Event): State
    requires Enabled(s, e)
  {
    match e
    case Begin =>
      if MayRemain(s.external, s.boot) then s.(transfer := Begun(false))
      else s.(external := Holds(s.boot), transfer := Begun(true))
    case HelperEnds(conclusive) =>
      s.(transfer := Ran(s.transfer.owned, conclusive), uncertain := s.uncertain || !conclusive)
    case End(unlinked) =>
      s.(external := if s.transfer.owned && s.transfer.conclusive && unlinked then Absent else s.external,
         transfer := NoTransfer)
    case LoseTransfer => s.(transfer := NoTransfer, uncertain := true)
    case Discharge => s.(physical := Absent)
    case Reap => s.(removed := true)
    case Reboot(boot) => s.(boot := boot, transfer := NoTransfer, uncertain := false)
  }

  predicate Initial(s: State) {
    s == State(s.boot, Holds(s.boot), Absent, NoTransfer, false, false)
  }

  /** The marker is only ever removed by the attempt that created it, and only when conclusive. */
  predicate Inv(s: State) {
    && (s.uncertain || !s.transfer.NoTransfer? ==> MayRemain(s.external, s.boot))
    && (s.transfer.Begun? && s.transfer.owned ==> !s.uncertain)
    && (s.transfer.Ran? && s.transfer.owned && s.transfer.conclusive ==> !s.uncertain)
    && (s.removed ==> !s.uncertain)
  }

  ghost predicate Run(states: seq<State>, events: seq<Event>) {
    && |states| == |events| + 1
    && Initial(states[0])
    && forall i {:trigger events[i]} :: 0 <= i < |events| ==>
         Enabled(states[i], events[i]) && states[i + 1] == Apply(states[i], events[i])
  }

  lemma StepPreserves(s: State, e: Event)
    requires Inv(s) && Enabled(s, e)
    ensures Inv(Apply(s, e))
  {
  }

  lemma {:induction false} RunKeepsInv(states: seq<State>, events: seq<Event>, i: nat)
    requires Run(states, events) && i < |states|
    ensures Inv(states[i])
  {
    if i > 0 {
      RunKeepsInv(states, events, i - 1);
      StepPreserves(states[i - 1], events[i - 1]);
    }
  }

  /**
   * Once an external attempt ended uncertain or was lost, its marker survives every later
   * conclusive attempt and every founding-tree discharge of that boot, so the directory is
   * never eligible and never removed on that boot.
   */
  lemma {:induction false} UncertaintySurvivesTheBoot(states: seq<State>, events: seq<Event>, i: nat, j: nat)
    requires Run(states, events) && i <= j < |states| && states[i].uncertain
    requires forall k {:trigger events[k]} :: i <= k < j ==> !events[k].Reboot?
    ensures var s := states[j];
      s.uncertain && MayRemain(s.external, s.boot) && !CustodyClear(s) && !s.removed && s.boot == states[i].boot
    decreases j
  {
    RunKeepsInv(states, events, j);
    if i < j {
      UncertaintySurvivesTheBoot(states, events, i, j - 1);
      RunKeepsInv(states, events, j - 1);
      assert !events[j - 1].Reboot?;
    }
  }

  /** Without any uncertain or lost attempt, founding custody alone decides eligibility between attempts. */
  predicate Conclusive(s: State) {
    !s.uncertain && (s.transfer.NoTransfer? ==> !MayRemain(s.external, s.boot))
    && (!s.transfer.NoTransfer? ==> s.transfer.owned)
    && (s.transfer.Ran? ==> s.transfer.conclusive)
  }

  lemma {:induction false} ConclusiveAttemptsLeaveNothing(states: seq<State>, events: seq<Event>, i: nat)
    requires Run(states, events) && i < |states|
    requires forall k {:trigger events[k]} :: 0 <= k < |events| ==>
      !events[k].LoseTransfer? && events[k] != HelperEnds(false) && events[k] != End(false) && !events[k].Reboot?
    ensures Conclusive(states[i])
    ensures states[i].transfer.NoTransfer? ==>
              (CustodyClear(states[i]) <==> exists k :: 0 <= k < i && events[k].Discharge?)
    ensures states[i].physical == Absent || states[i].physical == Holds(states[i].boot)
    ensures states[i].physical == Absent <==> exists k :: 0 <= k < i && events[k].Discharge?
  {
    if i > 0 {
      ConclusiveAttemptsLeaveNothing(states, events, i - 1);
      assert !events[i - 1].LoseTransfer? && events[i - 1] != End(false);
      assert events[i - 1].Discharge? ==> states[i].physical == Absent;
    }
  }

  /** A marker whose boot identity is malformed is never discharged, not even by a reboot. */
  lemma {:induction false} MalformedMarkerNeverClears(states: seq<State>, events: seq<Event>, i: nat, j: nat)
    requires Run(states, events) && i <= j < |states|
    requires states[i].transfer.NoTransfer? && states[i].external.Holds? && !ValidBootId(states[i].external.boot)
    ensures states[j].external == states[i].external && !CustodyClear(states[j])
    ensures !states[j].transfer.NoTransfer? ==> !states[j].transfer.owned
    decreases j
  {
    if i < j {
      MalformedMarkerNeverClears(states, events, i, j - 1);
      assert Enabled(states[j - 1], events[j - 1]);
    }
  }

  /** A reboot discharges exactly the markers of another boot, when both identities are well formed. */
  lemma RebootDischargesExactly(s: State, boot: string)
    requires Enabled(s, Reboot(boot)) && MayRemain(s.external, s.boot)
    ensures MayRemain(s.external, boot) <==>
              !ValidBootId(s.external.boot) || !ValidBootId(boot) || s.external.boot == boot
    ensures ValidBootId(s.external.boot) && ValidBootId(boot) && ValidBootId(s.boot) ==> !MayRemain(s.external, boot)
  {
  }

  /** Until founding custody is discharged or the boot ends, the directory is never removed. */
  lemma {:induction false} FoundingCustodyRetains(states: seq<State>, events: seq<Event>, j: nat)
    requires Run(states, events) && j < |states|
    requires forall k {:trigger events[k]} :: 0 <= k < j ==> !events[k].Discharge? && !events[k].Reboot?
    ensures !states[j].removed && states[j].physical == Holds(states[j].boot)
  {
    if j > 0 {
      FoundingCustodyRetains(states, events, j - 1);
      assert !events[j - 1].Discharge? && !events[j - 1].Reboot?;
    }
  }
}
