/**
 * The containment challenge (src/delivery_role.rs: confirm_role, acknowledge_containment).
 *
 * Any number of challengers, one role at a time, and a custodian whose acknowledgement is a
 * load followed by a separate store. `log` records, in order, every challenge issued and
 * every load of the challenge counter by a published custodian.
 *
 * Challenges are issued only by the process that also publishes roles
 * (src/supervisor/descendant_signal.rs:46), and it does not publish while it awaits an answer.
 * Without that a role could answer, retire and be replaced under the same PID in mid-call, and
 * the confirmation would be about a custodian that never answered.
 */
module ContainmentHandshake {

  const MAX_CHALLENGE: nat := 0xFFFF_FFFF_FFFF_FFFF

  /** Successive publications of the slot; PIDs may repeat, generations never do. */
  datatype Role = Vacant | Published(generation: nat, pid: int)

  datatype Loaded = Nothing | Value(challenge: nat)

  datatype Stage = Issued | Matched | Confirmed

  /** `start` is the generation first checked, `at` the log position of the caller's own issue. */
  datatype Caller =
    | Checked(pid: int, start: nat)
    | Challenging(pid: int, start: nat, challenge: nat, at: nat, stage: Stage)
    | Refused

  datatype Mark = Issue(caller: nat, challenge: nat) | Read(generation: nat, challenge: nat)

  datatype State = State(
    role: Role, generations: nat,
    challenge: nat, acknowledged: nat, loaded: Loaded,
    callers: map<nat, Caller>, log: seq<Mark>)

  datatype Event =
    | Publish(pid: int)
    | Retire
    | LoadChallenge
    | StoreAcknowledgement
    | Begin(i: nat, pid: int)
    | IssueChallenge(i: nat)
    | PollPid(i: nat)
    | PollAcknowledged(i: nat)
    | TimeOut(i: nat)
    | LoseOwner

  predicate Initial(s: State) {
    s == State(Vacant, 0, 0, 0, Nothing, map[], [])
  }

  predicate Names(s: State, pid: int) {
    s.role.Published? && s.role.pid == pid
  }

  predicate At(s: State, i: nat, stage: Stage) {
    i in s.callers && s.callers[i].Challenging? && s.callers[i].stage == stage
  }

  /** The caller is inside confirm_role. */
  predicate Active(c: Caller) {
    c.Checked? || (c.Challenging? && !c.stage.Confirmed?)
  }

  predicate Awaits(s: State, i: nat) {
    i in s.callers && Active(s.callers[i])
  }

  ghost predicate Enabled(s: State, e: Event) {
    match e
    case Publish(pid) => s.role.Vacant? && pid > 1 && forall i :: !Awaits(s, i)
    case Retire => s.role.Published?
    case LoadChallenge => s.role.Published? && s.loaded.Nothing?
    case StoreAcknowledgement => s.role.Published? && s.loaded.Value?
    case Begin(i, pid) => i !in s.callers && pid > 1
    case IssueChallenge(i) => i in s.callers && s.callers[i].Checked?
    case PollPid(i) => At(s, i, Issued)
    case PollAcknowledged(i) => At(s, i, Matched)
    case TimeOut(i) => At(s, i, Issued)
    case LoseOwner => true
  }

  ghost function Apply(s: State, e: Event): State
    requires Enabled(s, e)
  {
    match e
    case Publish(pid) => s.(role := Published(s.generations, pid), generations := s.generations + 1, loaded := Nothing)
    case Retire => s.(role := Vacant, loaded := Nothing)
    case LoadChallenge =>
      s.(loaded := Value(s.challenge), log := s.log + [Read(s.role.generation, s.challenge)])
    case StoreAcknowledgement => s.(acknowledged := s.loaded.challenge, loaded := Nothing)
    case Begin(i, pid) =>
      s.(callers := s.callers[i := if Names(s, pid) then Checked(pid, s.role.generation) else Refused])
    case IssueChallenge(i) =>
      var c := s.callers[i];
      if s.challenge < MAX_CHALLENGE
      then s.(challenge := s.challenge + 1, log := s.log + [Issue(i, s.challenge + 1)],
              callers := s.callers[i := Challenging(c.pid, c.start, s.challenge + 1, |s.log|, Issued)])
      else s.(callers := s.callers[i := Refused])
    case PollPid(i) =>
      var c := s.callers[i];
      s.(callers := s.callers[i := if Names(s, c.pid) then c.(stage := Matched) else Refused])
    case PollAcknowledged(i) =>
      var c := s.callers[i];
      s.(callers := s.callers[i := c.(stage := if s.acknowledged == c.challenge then Confirmed else Issued)])
    case TimeOut(i) => s.(callers := s.callers[i := Refused])
    case LoseOwner => s.(callers := map i | i in s.callers && !Active(s.callers[i]) :: s.callers[i])
  }

  // ---------------------------------------------------------------- invariant

  predicate LogOk(s: State, b: nat)
    requires b < |s.log|
  {
    match s.log[b]
    case Issue(_, k) => 0 < k <= s.challenge
    case Read(g, k) => g < s.generations && k <= s.challenge
  }

  /** Challenges are never reused: a later mark never carries a smaller challenge, a later issue a larger one. */
  predicate Ordered(log: seq<Mark>, a: nat, b: nat) {
    a < b < |log| ==>
    && log[a].challenge <= log[b].challenge
    && (log[b].Issue? ==> log[a].challenge < log[b].challenge)
    && (log[a].Read? && log[b].Read? ==> log[a].generation <= log[b].generation)
  }

  /**
   * A caller inside confirm_role asks about the last role published; every read after its own
   * issue is that role's, and the answer of a confirmed caller is such a read.
   */
  predicate CallerOk(s: State, i: nat)
    requires i in s.callers
  {
    var c := s.callers[i];
    && (Active(c) ==> c.start + 1 == s.generations && (s.role.Published? ==> s.role == Published(c.start, c.pid)))
    && (c.Challenging? ==> c.at < |s.log| && s.log[c.at] == Issue(i, c.challenge))
    && (c.Challenging? && Active(c) ==>
          forall b :: c.at < b < |s.log| && s.log[b].Read? ==> s.log[b].generation == c.start)
    && (c.Challenging? && !Active(c) ==> Answered(s.log, c.at, c.start, c.challenge))
  }

  predicate Answered(log: seq<Mark>, at: nat, g: nat, k: nat) {
    exists b: nat :: at < b < |log| && log[b] == Read(g, k)
  }

  ghost predicate Inv(s: State) {
    && (forall b: nat {:trigger LogOk(s, b)} :: b < |s.log| ==> LogOk(s, b))
    && (forall a: nat, b: nat {:trigger Ordered(s.log, a, b)} :: a < b < |s.log| ==> Ordered(s.log, a, b))
    && (s.role.Published? ==> s.role.generation + 1 == s.generations)
    && (s.loaded.Value? ==>
         s.role.Published? && exists b: nat :: b < |s.log| && s.log[b] == Read(s.role.generation, s.loaded.challenge))
    && (s.acknowledged > 0 ==> exists b: nat :: b < |s.log| && s.log[b].Read? && s.log[b].challenge == s.acknowledged)
    && (forall i {:trigger CallerOk(s, i)} :: i in s.callers ==> CallerOk(s, i))
  }

  lemma AppendKeepsLog(s: State, t: State, m: Mark)
    requires Inv(s) && t.log == s.log + [m] && t.generations == s.generations
    requires t.challenge == (if m.Issue? then s.challenge + 1 else s.challenge)
    requires m.challenge == t.challenge && (m.Read? ==> m.generation + 1 == s.generations)
    ensures forall b: nat {:trigger LogOk(t, b)} :: b < |t.log| ==> LogOk(t, b)
    ensures forall a: nat, b: nat {:trigger Ordered(t.log, a, b)} :: a < b < |t.log| ==> Ordered(t.log, a, b)
  {
    forall b: nat | b < |t.log| ensures LogOk(t, b) {
      if b < |s.log| { assert LogOk(s, b); }
    }
    forall a: nat, b: nat | a < b < |t.log| ensures Ordered(t.log, a, b) {
      assert LogOk(s, a);
      if b < |s.log| { assert Ordered(s.log, a, b); }
    }
  }

  lemma StepPreserves(s: State, e: Event)
    requires Inv(s) && Enabled(s, e)
    ensures Inv(Apply(s, e))
  {
    var t := Apply(s, e);
    if t.log != s.log {
      AppendKeepsLog(s, t, t.log[|s.log|]);
    } else {
      forall b: nat | b < |t.log| ensures LogOk(t, b) { assert LogOk(s, b); }
    }
    if t.acknowledged > 0 && e.StoreAcknowledgement? {
      var b: nat :| b < |s.log| && s.log[b] == Read(s.role.generation, s.loaded.challenge);
      assert t.log[b].Read?;
    } else if t.acknowledged > 0 {
      var b: nat :| b < |s.log| && s.log[b].Read? && s.log[b].challenge == s.acknowledged;
      assert t.log[b] == s.log[b];
    }
    if e.LoadChallenge? { assert t.log[|s.log|] == Read(t.role.generation, t.loaded.challenge); }
    else if t.loaded.Value? {
      var b: nat :| b < |s.log| && s.log[b] == Read(s.role.generation, s.loaded.challenge);
      assert t.log[b] == s.log[b];
    }
    forall i | i in t.callers ensures CallerOk(t, i) {
      CallerKept(s, e, i);
    }
  }

  /** Whatever others do, an untouched caller keeps what it knows. */
  lemma CallerUntouched(s: State, t: State, i: nat)
    requires i in s.callers && CallerOk(s, i) && i in t.callers && t.callers[i] == s.callers[i]
    requires s.log <= t.log
    requires Active(s.callers[i]) ==> t.generations == s.generations && (t.role == s.role || t.role.Vacant?)
    requires Active(s.callers[i]) ==>
      forall b :: |s.log| <= b < |t.log| && t.log[b].Read? ==> t.log[b].generation + 1 == s.generations
    ensures CallerOk(t, i)
  {
    var c := s.callers[i];
    if At(s, i, Confirmed) {
      var b: nat :| c.at < b < |s.log| && s.log[b] == Read(c.start, c.challenge);
      assert t.log[b] == s.log[b];
    }
  }

  lemma CallerKept(s: State, e: Event, i: nat)
    requires Inv(s) && Enabled(s, e) && i in Apply(s, e).callers
    ensures CallerOk(Apply(s, e), i)
  {
    var t := Apply(s, e);
    if i in s.callers && t.callers[i] == s.callers[i] {
      assert CallerOk(s, i);
      assert e.Publish? ==> !Awaits(s, i);
      CallerUntouched(s, t, i);
    } else if e.PollAcknowledged? {
      assert CallerOk(s, i);
      if s.acknowledged == s.callers[i].challenge { OwnChallengeWasRead(s, i); }
    } else if i in s.callers {
      assert CallerOk(s, i);
    }
  }

  /** An acknowledgement equal to this caller's challenge was read by its role after this caller issued it. */
  lemma OwnChallengeWasRead(s: State, i: nat)
    requires Inv(s) && At(s, i, Matched) && s.acknowledged == s.callers[i].challenge
    ensures Answered(s.log, s.callers[i].at, s.callers[i].start, s.acknowledged)
  {
    var at := s.callers[i].at;
    assert CallerOk(s, i) && LogOk(s, at);
    var b: nat :| b < |s.log| && s.log[b].Read? && s.log[b].challenge == s.acknowledged;
    assert b < at ==> Ordered(s.log, b, at);
    assert s.log[b] == Read(s.callers[i].start, s.acknowledged);
  }

  // ---------------------------------------------------------------- runs

  ghost predicate Run(states: seq<State>, events: seq<Event>) {
    && |states| == |events| + 1
    && Initial(states[0])
    && forall i {:trigger events[i]} :: 0 <= i < |events| ==>
         Enabled(states[i], events[i]) && states[i + 1] == Apply(states[i], events[i])
  }

  lemma {:induction false} RunKeepsInv(states: seq<State>, events: seq<Event>, i: nat)
    requires Run(states, events) && i < |states|
    ensures Inv(states[i])
  {
    if i > 0 {
      RunKeepsInv(states, events, i - 1);
      StepPreserves(states[i - 1], events[i - 1]);
    }
  }

  /** A published custodian of generation `g` loaded challenge `k` after caller `i` issued it. */
  predicate ReadAfterIssue(log: seq<Mark>, i: nat, k: nat, g: nat) {
    exists a, b :: 0 <= a < b < |log| && log[a] == Issue(i, k) && log[b] == Read(g, k)
  }

  /**
   * Every confirmation, with any number of challengers and any succession of roles: the very
   * role the caller found published read this caller's own challenge after it was issued.
   */
  lemma ConfirmedMeansFreshResponse(states: seq<State>, events: seq<Event>, n: nat, i: nat)
    requires Run(states, events) && n < |states|
    requires At(states[n], i, Confirmed)
    ensures var s := states[n]; var c := s.callers[i]; ReadAfterIssue(s.log, i, c.challenge, c.start)
  {
    RunKeepsInv(states, events, n);
    var s := states[n];
    assert CallerOk(s, i);
    var c := s.callers[i];
    var b: nat :| c.at < b < |s.log| && s.log[b] == Read(c.start, c.challenge);
  }

  /**
   * At the step that confirms, that role is still the last one published: whatever the slot
   * names then is the role and the PID the caller asked about.
   */
  lemma ConfirmedIsAboutTheRole(states: seq<State>, events: seq<Event>, n: nat, i: nat)
    requires Run(states, events) && n < |events|
    requires events[n] == PollAcknowledged(i) && At(states[n + 1], i, Confirmed)
    ensures var s := states[n + 1]; var c := s.callers[i];
      && s.generations == c.start + 1
      && (s.role.Published? ==> s.role == Published(c.start, c.pid))
  {
    RunKeepsInv(states, events, n);
    assert CallerOk(states[n], i);
  }

  /** No challenge is ever issued twice, to anyone. */
  lemma ChallengesAreUnique(states: seq<State>, events: seq<Event>, n: nat, a: nat, b: nat)
    requires Run(states, events) && n < |states|
    requires a < |states[n].log| && b < |states[n].log| && a != b
    requires states[n].log[a].Issue? && states[n].log[b].Issue?
    ensures states[n].log[a].challenge != states[n].log[b].challenge
  {
    RunKeepsInv(states, events, n);
    if a < b { assert Ordered(states[n].log, a, b); } else { assert Ordered(states[n].log, b, a); }
  }

  /** Every confirmed caller saw its PID in the slot after it had issued its challenge. */
  lemma {:induction false} ConfirmedWasNamed(states: seq<State>, events: seq<Event>, n: nat, i: nat) returns (m: nat)
    requires Run(states, events) && n < |states|
    requires At(states[n], i, Matched) || At(states[n], i, Confirmed)
    ensures m < n && events[m] == PollPid(i) && At(states[m], i, Issued)
    ensures Names(states[m], states[n].callers[i].pid)
    ensures states[m].callers[i].challenge == states[n].callers[i].challenge
  {
    assert n > 0;
    assert Enabled(states[n - 1], events[n - 1]) && states[n] == Apply(states[n - 1], events[n - 1]);
    if events[n - 1] == PollPid(i) {
      m := n - 1;
    } else {
      m := ConfirmedWasNamed(states, events, n - 1, i);
    }
  }

  /** The published custodian finishes an acknowledgement it had begun, and makes one more. */
  ghost function Acknowledge(s: State): (t: State)
    requires s.role.Published?
    ensures t.acknowledged == s.challenge && t.role == s.role && t.callers == s.callers
  {
    var idle := if s.loaded.Value? then Apply(s, StoreAcknowledgement) else s;
    Apply(Apply(idle, LoadChallenge), StoreAcknowledgement)
  }

  /** A call about the published role that this role answers is confirmed, until the counter is exhausted. */
  lemma AnsweredCallIsConfirmed(s: State, i: nat, pid: int)
    requires Enabled(s, Begin(i, pid))
    ensures var t := Apply(s, Begin(i, pid));
            if !Names(s, pid) then t.callers[i] == Refused
            else
              && Enabled(t, IssueChallenge(i))
              && var u := Apply(t, IssueChallenge(i));
                 if s.challenge >= 0xFFFF_FFFF_FFFF_FFFF then u.callers[i] == Refused
                 else
                   && u.role == s.role && Enabled(Acknowledge(u), PollPid(i))
                   && var v := Apply(Acknowledge(u), PollPid(i));
                      Enabled(v, PollAcknowledged(i)) && At(Apply(v, PollAcknowledged(i)), i, Confirmed)
  {
  }

  /** A poll that finds no answer goes on polling; a timeout refuses; the owner's loss ends every call. */
  lemma UnansweredCallsExactly(s: State, e: Event)
    requires Enabled(s, e)
    ensures e.PollAcknowledged? && s.acknowledged != s.callers[e.i].challenge ==>
              Enabled(Apply(s, e), PollPid(e.i)) && Enabled(Apply(s, e), TimeOut(e.i))
    ensures e.TimeOut? ==> Apply(s, e) == s.(callers := s.callers[e.i := Refused])
    ensures e.LoseOwner? ==> forall i :: !Awaits(Apply(s, e), i)
  {
  }
}
