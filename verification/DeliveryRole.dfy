/**
 * The delivery-role slot shared by the supervisor, the guardian and the completion
 * custodian (src/delivery_role.rs, fork gate in src/delivery.rs).
 *
 * Every atomic load, compare-exchange and store, and every kernel event (fork, exit with
 * reparenting, reap, subreaper election), is one step of a state machine. Processes are
 * identified by a never-reused `Uid`; the numeric PIDs they carry are reused freely once
 * a process is reaped, which is what the slot has to survive.
 */
module DeliveryRole {

  type Uid = nat

  const INIT: Uid := 0
  const GUARDIAN: Uid := 1
  const SUPERVISOR: Uid := 2

  const UNKNOWN: int := -1

  /** The socket pair between the forking owner and its custodian. */
  datatype Gate = Open | Admitted | Closed

  datatype CustodianPc = AtGate | Preparing | Reaping | Draining | Exiting

  datatype Kind = Infrastructure | Custodian(pc: CustodianPc, gate: Gate) | Ordinary

  /** `role` is the custodian a process descends from (a custodian is its own role), or 0. */
  datatype Process = Process(pid: int, parent: Uid, live: bool, subreaper: bool, role: Uid, kind: Kind)

  /** The single-threaded adopting reaper: the supervisor, and the guardian after reaping it. */
  datatype OwnerPc =
    | Idle
    | Forked(c: Uid)
    | Published(c: Uid)
    | Waitable(z: Uid)
    | Loaded(z: Uid, value: int)
    | Retired(z: Uid)
    | Excluding(value: int)
    | TreeEmpty

  /** `published` is the custodian most recently written into the slot. */
  datatype State = State(slot: int, procs: map<Uid, Process>, next: Uid, pc: OwnerPc, published: Uid)

  datatype Event =
    | ForkCustodian(pid: int) | Publish | OpenGate
    | ObserveWaitable(z: Uid) | LoadSlot | RetireSlot | ReapChild
    | LoadExclusion | OpenExclusion
    | ObserveTreeEmpty | ClearUnknown | ReapSupervisor
    | ReadGate(c: Uid) | FailPreparation(c: Uid) | ElectSubreaper(c: Uid) | ForkWorker(c: Uid, pid: int)
    | CustodianReap(c: Uid, z: Uid) | ObserveNoChildren(c: Uid) | Drain(c: Uid)
    | Fork(u: Uid, pid: int) | BecomeSubreaper(u: Uid) | Exit(u: Uid) | Reap(z: Uid)

  /** What an adopting reaper writes before it frees `pid`. */
  function RetiredSlot(value: int, pid: int): int {
    if value == pid then UNKNOWN else if value == -pid then 0 else value
  }

  type Table = map<Uid, Process>

  /** A slot value that charges, or certifies, the process carrying `pid`. */
  predicate Names(value: int, pid: int) {
    value == pid || value == -pid
  }

  predicate Alive(procs: Table, u: Uid) {
    u in procs && procs[u].live
  }

  predicate Live(s: State, u: Uid) {
    Alive(s.procs, u)
  }

  predicate Waits(s: State, z: Uid, parent: Uid) {
    z in s.procs && !s.procs[z].live && z != INIT && s.procs[z].parent == parent
  }

  predicate IsCustodian(s: State, c: Uid) {
    c in s.procs && s.procs[c].kind.Custodian?
  }

  predicate CustodianAt(s: State, c: Uid, pc: CustodianPc) {
    IsCustodian(s, c) && s.procs[c].live && s.procs[c].kind.pc == pc
  }

  predicate ChildOf(procs: Table, v: Uid, u: Uid) {
    v in procs && v != INIT && procs[v].parent == u
  }

  /** waitpid reports ECHILD. */
  ghost predicate Childless(procs: Table, u: Uid) {
    forall v :: !ChildOf(procs, v, u)
  }

  predicate Carries(procs: Table, v: Uid, pid: int) {
    v in procs && procs[v].pid == pid
  }

  ghost predicate FreshPid(procs: Table, pid: int) {
    pid > 1 && forall v :: !Carries(procs, v, pid)
  }

  /** The supervisor reaps while it lives; the guardian only after it reaped the supervisor. */
  function Active(s: State): Uid {
    if Live(s, SUPERVISOR) then SUPERVISOR
    else if SUPERVISOR !in s.procs && Live(s, GUARDIAN) then GUARDIAN
    else INIT
  }

  predicate Watched(s: State) {
    Live(s, SUPERVISOR) || Live(s, GUARDIAN)
  }

  /** The nearest subreaper at or above `q`: where the kernel reparents orphans. */
  function NearestSubreaper(procs: Table, q: Uid): Uid
    decreases q
  {
    if q !in procs || procs[q].subreaper || procs[q].parent >= q then q
    else NearestSubreaper(procs, procs[q].parent)
  }

  function Orphan(procs: Table, d: Uid): Table
    requires d in procs
  {
    map u | u in procs ::
      if u == d then procs[u].(live := false)
      else if procs[u].parent == d && u != INIT
        then procs[u].(parent := NearestSubreaper(procs, procs[d].parent))
      else procs[u]
  }

  /** Losing the writing end of the gate delivers EOF to a custodian still waiting at it. */
  function CloseGate(procs: Table, c: Uid): Table {
    if c in procs && procs[c].kind.Custodian? && procs[c].kind.gate.Open?
    then procs[c := procs[c].(kind := procs[c].kind.(gate := Closed))]
    else procs
  }

  function PendingGate(pc: OwnerPc): Uid {
    match pc case Forked(c) => c case Published(c) => c case _ => INIT
  }

  function SetPc(s: State, c: Uid, pc: CustodianPc): State
    requires IsCustodian(s, c)
  {
    s.(procs := s.procs[c := s.procs[c].(kind := s.procs[c].kind.(pc := pc))])
  }

  function AddChild(s: State, pid: int, parent: Uid, role: Uid, kind: Kind): State {
    s.(procs := s.procs[s.next := Process(pid, parent, true, false, role, kind)], next := s.next + 1)
  }

  function Remove(s: State, z: Uid): State {
    s.(procs := s.procs - {z})
  }

  ghost predicate Enabled(s: State, e: Event) {
    match e
    case ForkCustodian(pid) => Active(s) != INIT && s.pc.Idle? && FreshPid(s.procs, pid)
    case Publish => Active(s) != INIT && s.pc.Forked? && s.pc.c in s.procs
    case OpenGate => Active(s) != INIT && s.pc.Published? && IsCustodian(s, s.pc.c)
    case ObserveWaitable(z) => Active(s) != INIT && s.pc.Idle? && Waits(s, z, Active(s))
    case LoadSlot => Active(s) != INIT && s.pc.Waitable?
    case RetireSlot => Active(s) != INIT && s.pc.Loaded? && s.pc.z in s.procs
    case ReapChild => Active(s) != INIT && s.pc.Retired?
    case LoadExclusion => Active(s) != INIT && s.pc.Idle?
    case OpenExclusion => Active(s) != INIT && s.pc.Excluding?
    case ObserveTreeEmpty => Active(s) == GUARDIAN && s.pc.Idle? && Childless(s.procs, GUARDIAN)
    case ClearUnknown => Active(s) == GUARDIAN && s.pc.TreeEmpty?
    case ReapSupervisor => Live(s, GUARDIAN) && Waits(s, SUPERVISOR, GUARDIAN)
    case ReadGate(c) => CustodianAt(s, c, AtGate) && !s.procs[c].kind.gate.Open?
    case FailPreparation(c) => CustodianAt(s, c, Preparing)
    case ElectSubreaper(c) => CustodianAt(s, c, Preparing)
    case ForkWorker(c, pid) => CustodianAt(s, c, Preparing) && s.procs[c].subreaper && FreshPid(s.procs, pid)
    case CustodianReap(c, z) => CustodianAt(s, c, Reaping) && Waits(s, z, c)
    case ObserveNoChildren(c) => CustodianAt(s, c, Reaping) && Childless(s.procs, c)
    case Drain(c) => CustodianAt(s, c, Draining)
    case Fork(u, pid) =>
      && Live(s, u) && FreshPid(s.procs, pid)
      && (s.procs[u].kind.Ordinary? || (u == Active(s) && u != INIT && s.pc.Idle?))
    case BecomeSubreaper(u) => Live(s, u) && s.procs[u].kind.Ordinary?
    case Exit(u) => Live(s, u) && u != INIT
    case Reap(z) =>
      exists q :: Waits(s, z, q) && Live(s, q) && (q == INIT || s.procs[q].kind.Ordinary?)
  }

  ghost function Apply(s: State, e: Event): State
    requires Enabled(s, e)
  {
    match e
    case ForkCustodian(pid) =>
      AddChild(s, pid, Active(s), s.next, Custodian(AtGate, Open)).(pc := Forked(s.next))
    case Publish =>
      if s.slot == 0
      then s.(slot := s.procs[s.pc.c].pid, published := s.pc.c, pc := Published(s.pc.c))
      else s.(procs := CloseGate(s.procs, s.pc.c), pc := Idle)
    case OpenGate =>
      var p := s.procs[s.pc.c];
      s.(procs := s.procs[s.pc.c := p.(kind := p.kind.(gate := Admitted))], pc := Idle)
    case ObserveWaitable(z) => s.(pc := Waitable(z))
    case LoadSlot => s.(pc := Loaded(s.pc.z, s.slot))
    case RetireSlot =>
      var retired := RetiredSlot(s.pc.value, s.procs[s.pc.z].pid);
      s.(slot := if retired != s.pc.value && s.slot == s.pc.value then retired else s.slot,
         pc := Retired(s.pc.z))
    case ReapChild => Remove(s, s.pc.z).(pc := Idle)
    case LoadExclusion => if s.slot > 0 then s.(pc := Excluding(s.slot)) else s
    case OpenExclusion => s.(pc := Idle)
    case ObserveTreeEmpty => s.(pc := TreeEmpty)
    case ClearUnknown => s.(slot := if s.slot == UNKNOWN then 0 else s.slot, pc := Idle)
    case ReapSupervisor => Remove(s, SUPERVISOR)
    case ReadGate(c) =>
      SetPc(s, c, if s.procs[c].kind.gate.Admitted? then Preparing else Draining)
    case FailPreparation(c) => SetPc(s, c, Draining)
    case ElectSubreaper(c) => s.(procs := s.procs[c := s.procs[c].(subreaper := true)])
    case ForkWorker(c, pid) => AddChild(SetPc(s, c, Reaping), pid, c, c, Ordinary)
    case CustodianReap(c, z) => Remove(s, z)
    case ObserveNoChildren(c) => SetPc(s, c, Draining)
    case Drain(c) =>
      SetPc(s.(slot := if s.slot == s.procs[c].pid then -s.procs[c].pid else s.slot), c, Exiting)
    case Fork(u, pid) => AddChild(s, pid, u, s.procs[u].role, Ordinary)
    case BecomeSubreaper(u) => s.(procs := s.procs[u := s.procs[u].(subreaper := true)])
    case Exit(u) =>
      if u == Active(s)
      then s.(procs := Orphan(CloseGate(s.procs, PendingGate(s.pc)), u), pc := Idle)
      else s.(procs := Orphan(s.procs, u))
    case Reap(z) => Remove(s, z)
  }

  predicate Initial(s: State) {
    && s.slot == 0 && s.pc.Idle? && s.next == 3 && s.published == INIT
    && s.procs.Keys == {INIT, GUARDIAN, SUPERVISOR}
    && s.procs[INIT] == Process(1, INIT, true, true, 0, Infrastructure)
    && s.procs[GUARDIAN] == Process(s.procs[GUARDIAN].pid, INIT, true, true, 0, Infrastructure)
    && s.procs[SUPERVISOR] == Process(s.procs[SUPERVISOR].pid, GUARDIAN, true, true, 0, Infrastructure)
    && s.procs[GUARDIAN].pid > 1 && s.procs[SUPERVISOR].pid > 1 && s.procs[GUARDIAN].pid != s.procs[SUPERVISOR].pid
  }

  // ---------------------------------------------------------------- invariant

  predicate Member(procs: Table, u: Uid, c: Uid) {
    u in procs && c != 0 && u != c && procs[u].role == c
  }

  predicate IsRole(procs: Table, c: Uid) {
    c in procs && procs[c].kind.Custodian?
  }

  /** A live custodian may have members only after admission, as a subreaper, in its loop. */
  predicate Adopting(p: Process) {
    p.kind.Custodian? && p.subreaper && p.kind.pc.Reaping? && p.kind.gate.Admitted?
  }

  predicate ShapeOk(u: Uid, p: Process) {
    && p.pid >= 1
    && p.role <= u
    && (p.kind.Infrastructure? <==> u <= SUPERVISOR)
    && (p.kind.Infrastructure? ==> p.subreaper && p.role == 0)
    && (p.kind.Custodian? <==> p.role == u && u != 0)
    && (p.kind.Custodian? && (p.kind.pc.Preparing? || p.kind.pc.Reaping?) ==> p.kind.gate.Admitted?)
    && (p.kind.Custodian? && p.kind.gate.Open? ==> p.kind.pc.AtGate?)
  }

  predicate ParentOk(procs: Table, u: Uid, p: Process) {
    u != INIT ==>
      && p.parent < u && Alive(procs, p.parent)
      && (p.kind.Custodian? ==> p.parent <= SUPERVISOR)
      && (u > GUARDIAN && Alive(procs, GUARDIAN) ==> p.parent != INIT)
      && (procs[p.parent].role != 0 ==> p.role == procs[p.parent].role)
  }

  predicate MemberOk(procs: Table, u: Uid, p: Process) {
    p.role != 0 && p.role != u && p.role in procs ==>
      && procs[p.role].kind.Custodian?
      && (procs[p.role].live ==>
            Adopting(procs[p.role]) && p.parent in procs && procs[p.parent].role == p.role)
  }

  /** What the kernel keeps for one process, whoever is watching. */
  ghost predicate ProcessOk(procs: Table, u: Uid)
    requires u in procs
  {
    ShapeOk(u, procs[u]) && ParentOk(procs, u, procs[u]) && MemberOk(procs, u, procs[u])
  }

  ghost predicate DistinctPids(procs: Table) {
    forall u, v {:trigger ProcessOk(procs, u), ProcessOk(procs, v)} ::
      u in procs && v in procs && u != v ==> procs[u].pid != procs[v].pid
  }

  ghost predicate Kernel(procs: Table) {
    && INIT in procs && procs[INIT].live && procs[INIT].pid == 1
    && DistinctPids(procs)
    && forall u {:trigger ProcessOk(procs, u)} :: u in procs ==> ProcessOk(procs, u)
  }

  ghost predicate Unused(s: State) {
    s.next > SUPERVISOR && forall u :: u in s.procs ==> u < s.next
  }

  /** What the slot says about one process while some adopting reaper still watches. */
  predicate SlotOk(slot: int, pc: OwnerPc, procs: Table, u: Uid)
    requires u in procs
  {
    var p := procs[u];
    && (p.kind.Custodian? ==>
          && p.parent == (if Alive(procs, SUPERVISOR) then SUPERVISOR else GUARDIAN)
          && (p.kind.gate.Open? ==> pc == Forked(u) || pc == Published(u))
          && (p.live && p.kind.gate.Admitted? ==> slot == if p.kind.pc.Exiting? then -p.pid else p.pid))
    && (p.role != 0 && p.role != u ==>
          slot == UNKNOWN || (p.role in procs && procs[p.role].pid == slot))
  }

  ghost predicate Charged(slot: int, pc: OwnerPc, procs: Table) {
    forall u {:trigger SlotOk(slot, pc, procs, u)} :: u in procs ==> SlotOk(slot, pc, procs, u)
  }

  predicate PublishedOk(s: State) {
    && (s.slot > 0 ==> IsRole(s.procs, s.published) && s.procs[s.published].pid == s.slot)
    && (s.slot < UNKNOWN ==> IsRole(s.procs, s.published) && s.procs[s.published].pid == -s.slot
                             && (Live(s, s.published) ==> s.procs[s.published].kind.pc.Exiting?))
  }

  predicate OwnerOk(s: State) {
    match s.pc
    case Idle => true
    case Forked(c) => IsRole(s.procs, c) && s.procs[c].kind.gate.Open? && Active(s) != INIT
    case Published(c) => IsRole(s.procs, c) && s.procs[c].kind.gate.Open? && Active(s) != INIT
                         && s.slot == s.procs[c].pid && s.published == c
    case Waitable(z) => Active(s) != INIT && Waits(s, z, Active(s))
    case Loaded(z, v) => Active(s) != INIT && Waits(s, z, Active(s))
                         && (Names(v, s.procs[z].pid) || Names(s.slot, s.procs[z].pid) ==> v == s.slot)
    case Retired(z) => Active(s) != INIT && Waits(s, z, Active(s)) && !Names(s.slot, s.procs[z].pid)
    case Excluding(v) => Active(s) != INIT && v > 0 && IsRole(s.procs, s.published) && s.procs[s.published].pid == v
    case TreeEmpty => Active(s) == GUARDIAN && s.procs.Keys <= {INIT, GUARDIAN}
  }

  ghost predicate Custody(s: State) {
    OwnerOk(s) && PublishedOk(s) && Charged(s.slot, s.pc, s.procs)
  }

  ghost predicate Inv(s: State) {
    Kernel(s.procs) && Unused(s) && (Watched(s) ==> Custody(s))
  }

  // ---------------------------------------------------------------- the process tree

  /** Reparenting lands on a live subreaper above the dying process, under the guardian. */
  lemma {:induction false} SubreaperAbove(procs: Table, q: Uid)
    requires Kernel(procs) && Alive(procs, q)
    ensures var r := NearestSubreaper(procs, q);
            r <= q && Alive(procs, r) && (Alive(procs, GUARDIAN) && q != INIT ==> r != INIT)
    decreases q
  {
    assert ProcessOk(procs, q);
    if q != INIT && !procs[q].subreaper {
      SubreaperAbove(procs, procs[q].parent);
    }
  }

  /** An adopter inside a role only ever adopts members of that role. */
  lemma {:induction false} AdopterInherits(procs: Table, q: Uid)
    requires Kernel(procs) && Alive(procs, q)
    ensures var r := NearestSubreaper(procs, q);
            r in procs && (procs[r].role != 0 ==> procs[q].role == procs[r].role)
    decreases q
  {
    assert ProcessOk(procs, q);
    if q != INIT && !procs[q].subreaper {
      AdopterInherits(procs, procs[q].parent);
    }
  }

  /** While its custodian lives, a role adopts its own orphans. */
  lemma {:induction false} RoleAdopts(procs: Table, q: Uid, c: Uid)
    requires Kernel(procs) && Alive(procs, q) && c != 0 && procs[q].role == c
    requires Alive(procs, c) && procs[c].subreaper
    ensures var r := NearestSubreaper(procs, q); r in procs && procs[r].role == c
    decreases q
  {
    assert ProcessOk(procs, q);
    if !procs[q].subreaper {
      RoleAdopts(procs, procs[q].parent, c);
    }
  }

  /** Under a live guardian everything descends from it, so no children means no processes. */
  lemma {:induction false} EmptyTree(procs: Table, u: Uid)
    requires Kernel(procs) && Alive(procs, GUARDIAN) && Childless(procs, GUARDIAN) && u in procs
    ensures u <= GUARDIAN
    decreases u
  {
    if u > GUARDIAN {
      assert ProcessOk(procs, u) && !ChildOf(procs, u, GUARDIAN);
      EmptyTree(procs, procs[u].parent);
    }
  }

  /** A custodian that saw ECHILD has no descendant left at any depth. */
  lemma {:induction false} EmptyRole(procs: Table, c: Uid, u: Uid)
    requires Kernel(procs) && Alive(procs, c) && Childless(procs, c)
    ensures !Member(procs, u, c)
    decreases u
  {
    if Member(procs, u, c) {
      assert ProcessOk(procs, u) && !ChildOf(procs, u, c);
      EmptyRole(procs, c, procs[u].parent);
    }
  }

  // ---------------------------------------------------------------- kernel steps on the table

  /** A live process changes its own flags. */
  lemma UpdateKeepsKernel(procs: Table, c: Uid, p: Process)
    requires Kernel(procs) && c in procs && ShapeOk(c, p)
    requires p == procs[c].(kind := p.kind, subreaper := p.subreaper)
    requires p.kind.Custodian? == procs[c].kind.Custodian?
    requires procs[c].live && Adopting(procs[c]) && !Adopting(p) ==> forall u :: !Member(procs, u, c)
    ensures Kernel(procs[c := p])
  {
    var after := procs[c := p];
    forall u | u in after ensures ProcessOk(after, u) {
      assert ProcessOk(procs, u) && ProcessOk(procs, c);
      assert !Member(procs, u, c) || !procs[c].live || !Adopting(procs[c]) || Adopting(p);
    }
    forall u, v | u in after && v in after && u != v ensures after[u].pid != after[v].pid {
      assert ProcessOk(procs, u) && ProcessOk(procs, v);
    }
  }

  lemma ForkKeepsKernel(procs: Table, n: Uid, p: Process)
    requires Kernel(procs) && n > SUPERVISOR && n !in procs && FreshPid(procs, p.pid)
    requires forall u :: u in procs ==> u < n
    requires ShapeOk(n, p) && ParentOk(procs, n, p) && MemberOk(procs, n, p)
    ensures Kernel(procs[n := p])
  {
    var after := procs[n := p];
    forall u | u in after ensures ProcessOk(after, u) {
      if u != n { assert ProcessOk(procs, u); }
    }
    forall u, v | u in after && v in after && u != v ensures after[u].pid != after[v].pid {
      if u != n && v != n { assert ProcessOk(procs, u) && ProcessOk(procs, v); }
      assert !Carries(procs, u, p.pid) && !Carries(procs, v, p.pid);
    }
  }

  lemma ReapKeepsKernel(procs: Table, z: Uid)
    requires Kernel(procs) && z in procs && !procs[z].live
    ensures Kernel(procs - {z})
  {
    var after := procs - {z};
    forall u | u in after ensures ProcessOk(after, u) { assert ProcessOk(procs, u); }
    forall u, v | u in after && v in after && u != v ensures after[u].pid != after[v].pid {
      assert ProcessOk(procs, u) && ProcessOk(procs, v);
    }
  }

  /** Where the children of a dying process go. */
  lemma AdopterOk(procs: Table, d: Uid, u: Uid)
    requires Kernel(procs) && Alive(procs, d) && d != INIT && ChildOf(procs, u, d)
    ensures var r := NearestSubreaper(procs, procs[d].parent); var p := procs[u].(parent := r);
            && ParentOk(Orphan(procs, d), u, p) && MemberOk(Orphan(procs, d), u, p)
  {
    assert ProcessOk(procs, d) && ProcessOk(procs, u);
    var q := procs[d].parent;
    SubreaperAbove(procs, q);
    AdopterInherits(procs, q);
    var c := procs[u].role;
    if Member(procs, u, c) && c != d && Alive(procs, c) {
      assert ProcessOk(procs, c);
      RoleAdopts(procs, q, c);
    }
  }

  /** Exit of any process but init. */
  lemma ExitKeepsKernel(procs: Table, d: Uid)
    requires Kernel(procs) && Alive(procs, d) && d != INIT
    ensures Kernel(Orphan(procs, d))
  {
    var after := Orphan(procs, d);
    forall u | u in after ensures ProcessOk(after, u) {
      assert ProcessOk(procs, u) && ProcessOk(procs, d);
      if ChildOf(procs, u, d) { AdopterOk(procs, d, u); }
    }
    forall u, v | u in after && v in after && u != v ensures after[u].pid != after[v].pid {
      assert ProcessOk(procs, u) && ProcessOk(procs, v);
    }
  }

  // ---------------------------------------------------------------- preservation

  lemma InitialOk(s: State)
    requires Initial(s)
    ensures Inv(s)
  {
    assert forall u :: u in s.procs ==> u == INIT || u == GUARDIAN || u == SUPERVISOR;
  }

  /** Members of a role exist only while the slot is UNKNOWN or carries its custodian's PID. */
  lemma UnchargedHasNoMembers(s: State, u: Uid)
    requires Kernel(s.procs) && u in s.procs && SlotOk(s.slot, s.pc, s.procs, u)
    requires s.slot != UNKNOWN && s.slot <= 0
    ensures s.procs[u].role == 0 || s.procs[u].role == u
  {
    assert ProcessOk(s.procs, u);
    if Member(s.procs, u, s.procs[u].role) { assert ProcessOk(s.procs, s.procs[u].role); }
  }

  lemma PublishPreserves(s: State)
    requires Inv(s) && Enabled(s, Publish)
    ensures Inv(Apply(s, Publish))
  {
    var t := Apply(s, Publish);
    var c := s.pc.c;
    assert ProcessOk(s.procs, c);
    if s.slot == 0 {
      forall u | u in t.procs ensures SlotOk(t.slot, t.pc, t.procs, u) {
        assert SlotOk(s.slot, s.pc, s.procs, u) && ProcessOk(s.procs, u);
        UnchargedHasNoMembers(s, u);
      }
    } else {
      UpdateKeepsKernel(s.procs, c, t.procs[c]);
      forall u | u in t.procs ensures SlotOk(t.slot, t.pc, t.procs, u) {
        assert SlotOk(s.slot, s.pc, s.procs, u) && ProcessOk(s.procs, u);
      }
    }
  }

  lemma OpenGatePreserves(s: State)
    requires Inv(s) && Enabled(s, OpenGate)
    ensures Inv(Apply(s, OpenGate))
  {
    var t := Apply(s, OpenGate);
    var c := s.pc.c;
    assert ProcessOk(s.procs, c);
    UpdateKeepsKernel(s.procs, c, t.procs[c]);
    forall u | u in t.procs ensures SlotOk(t.slot, t.pc, t.procs, u) {
      assert SlotOk(s.slot, s.pc, s.procs, u) && ProcessOk(s.procs, u);
    }
  }

  /** Loads, waitable observations and the ECHILD observation leave the slot alone. */
  lemma ObservationPreserves(s: State, e: Event)
    requires Inv(s) && Enabled(s, e)
    requires e.ObserveWaitable? || e.LoadSlot? || e.LoadExclusion? || e.OpenExclusion? || e.ObserveTreeEmpty?
    ensures Inv(Apply(s, e))
  {
    var t := Apply(s, e);
    forall u | u in t.procs ensures SlotOk(t.slot, t.pc, t.procs, u) {
      assert SlotOk(s.slot, s.pc, s.procs, u);
    }
    if e.ObserveTreeEmpty? {
      forall u | u in s.procs ensures u <= GUARDIAN { EmptyTree(s.procs, u); }
    }
  }

  lemma RetireSlotPreserves(s: State)
    requires Inv(s) && Enabled(s, RetireSlot)
    ensures Inv(Apply(s, RetireSlot))
  {
    var t := Apply(s, RetireSlot);
    var z := s.pc.z;
    assert ProcessOk(s.procs, z) && ProcessOk(s.procs, INIT);
    forall u | u in t.procs ensures SlotOk(t.slot, t.pc, t.procs, u) {
      assert SlotOk(s.slot, s.pc, s.procs, u) && ProcessOk(s.procs, u);
      if t.slot == 0 && s.slot != 0 { UnchargedHasNoMembers(s, u); }
    }
  }

  lemma ClearUnknownPreserves(s: State)
    requires Inv(s) && Enabled(s, ClearUnknown)
    ensures Inv(Apply(s, ClearUnknown))
  {
    var t := Apply(s, ClearUnknown);
    forall u | u in t.procs ensures SlotOk(t.slot, t.pc, t.procs, u) {
      assert SlotOk(s.slot, s.pc, s.procs, u) && ProcessOk(s.procs, u);
    }
  }

  /** The owner forks a custodian behind a closed gate. */
  lemma ForkCustodianPreserves(s: State, pid: int)
    requires Inv(s) && Enabled(s, ForkCustodian(pid))
    ensures Inv(Apply(s, ForkCustodian(pid)))
  {
    var t := Apply(s, ForkCustodian(pid));
    assert ProcessOk(s.procs, Active(s));
    ForkKeepsKernel(s.procs, s.next, t.procs[s.next]);
    forall u | u in t.procs ensures SlotOk(t.slot, t.pc, t.procs, u) {
      if u != s.next { assert SlotOk(s.slot, s.pc, s.procs, u); }
    }
  }

  /** A forked child is charged as its parent is. */
  lemma ForkKeepsSlot(s: State, w: Uid, pid: int, u: Uid)
    requires Inv(s) && Enabled(s, Fork(w, pid)) && Watched(s) && u in Apply(s, Fork(w, pid)).procs
    ensures SlotOk(s.slot, s.pc, Apply(s, Fork(w, pid)).procs, u)
  {
    assert ProcessOk(s.procs, w);
    assert SlotOk(s.slot, s.pc, s.procs, if u != s.next then u else w);
  }

  lemma ForkKeepsOwner(s: State, w: Uid, pid: int)
    requires Inv(s) && Enabled(s, Fork(w, pid)) && Watched(s)
    ensures OwnerOk(Apply(s, Fork(w, pid))) && PublishedOk(Apply(s, Fork(w, pid)))
  {
    assert ProcessOk(s.procs, w);
  }

  /** Any process forks; the child stays in its parent's role. */
  lemma ForkPreserves(s: State, w: Uid, pid: int)
    requires Inv(s) && Enabled(s, Fork(w, pid))
    ensures Inv(Apply(s, Fork(w, pid)))
  {
    var t := Apply(s, Fork(w, pid));
    assert ProcessOk(s.procs, w);
    ForkKeepsKernel(s.procs, s.next, t.procs[s.next]);
    if Watched(t) {
      ForkKeepsOwner(s, w, pid);
      forall u | u in t.procs ensures SlotOk(t.slot, t.pc, t.procs, u) {
        ForkKeepsSlot(s, w, pid, u);
      }
    }
  }

  /** The custodian changes its own flags without touching the slot. */
  lemma FlagsPreserve(s: State, c: Uid, p: Process)
    requires Inv(s) && Alive(s.procs, c) && ShapeOk(c, p)
    requires p == s.procs[c].(kind := p.kind, subreaper := p.subreaper)
    requires p.kind.Custodian? == s.procs[c].kind.Custodian?
    requires p.kind.Custodian? ==>
      && p.kind.gate == s.procs[c].kind.gate && !p.kind.gate.Open?
      && !p.kind.pc.Exiting? && !s.procs[c].kind.pc.Exiting?
    requires Adopting(s.procs[c]) && !Adopting(p) ==> forall u :: !Member(s.procs, u, c)
    ensures Inv(s.(procs := s.procs[c := p]))
  {
    var t := s.(procs := s.procs[c := p]);
    assert ProcessOk(s.procs, c);
    UpdateKeepsKernel(s.procs, c, p);
    if Watched(t) {
      forall u | u in t.procs ensures SlotOk(t.slot, t.pc, t.procs, u) {
        assert SlotOk(s.slot, s.pc, s.procs, u);
      }
    }
  }

  lemma CustodianPreserves(s: State, e: Event)
    requires Inv(s) && Enabled(s, e)
    requires e.ReadGate? || e.FailPreparation? || e.ElectSubreaper? || e.ObserveNoChildren?
    ensures Inv(Apply(s, e))
  {
    var t := Apply(s, e);
    assert ProcessOk(s.procs, e.c);
    if e.ObserveNoChildren? {
      forall u ensures !Member(s.procs, u, e.c) { EmptyRole(s.procs, e.c, u); }
    }
    FlagsPreserve(s, e.c, t.procs[e.c]);
  }

  lemma ForkWorkerPreserves(s: State, c: Uid, pid: int)
    requires Inv(s) && Enabled(s, ForkWorker(c, pid))
    ensures Inv(Apply(s, ForkWorker(c, pid)))
  {
    var m := SetPc(s, c, Reaping);
    var t := Apply(s, ForkWorker(c, pid));
    assert ProcessOk(s.procs, c);
    FlagsPreserve(s, c, m.procs[c]);
    forall v ensures !Carries(m.procs, v, pid) { assert !Carries(s.procs, v, pid); }
    ForkKeepsKernel(m.procs, s.next, t.procs[s.next]);
    if Watched(t) {
      forall u | u in t.procs ensures SlotOk(t.slot, t.pc, t.procs, u) {
        if u != s.next { assert SlotOk(m.slot, m.pc, m.procs, u); } else { assert SlotOk(m.slot, m.pc, m.procs, c); }
      }
    }
  }

  /** The ECHILD certificate: only the charged custodian can turn its own PID around. */
  lemma DrainPreserves(s: State, c: Uid)
    requires Inv(s) && Enabled(s, Drain(c))
    ensures Inv(Apply(s, Drain(c)))
  {
    var t := Apply(s, Drain(c));
    assert ProcessOk(s.procs, c) && ProcessOk(s.procs, INIT);
    UpdateKeepsKernel(s.procs, c, t.procs[c]);
    if Watched(t) {
      assert SlotOk(s.slot, s.pc, s.procs, c);
      if s.slot == s.procs[c].pid { assert ProcessOk(s.procs, s.published); }
      forall u | u in t.procs ensures SlotOk(t.slot, t.pc, t.procs, u) {
        assert SlotOk(s.slot, s.pc, s.procs, u) && ProcessOk(s.procs, u);
        if Member(s.procs, u, s.procs[u].role)
            && s.procs[u].role in s.procs { assert ProcessOk(s.procs, s.procs[u].role); }
      }
      DrainKeepsOwner(s, c);
    }
  }

  lemma DrainKeepsOwner(s: State, c: Uid)
    requires Inv(s) && Watched(s) && Enabled(s, Drain(c))
    ensures OwnerOk(Apply(s, Drain(c)))
  {
    assert ProcessOk(s.procs, c);
    match s.pc
    case Forked(k) => assert ProcessOk(s.procs, k);
    case Published(k) => assert ProcessOk(s.procs, k);
    case Loaded(z, v) => assert ProcessOk(s.procs, z);
    case Retired(z) => assert ProcessOk(s.procs, z);
    case _ =>
  }

  lemma SubreaperPreserves(s: State, u: Uid)
    requires Inv(s) && Enabled(s, BecomeSubreaper(u))
    ensures Inv(Apply(s, BecomeSubreaper(u)))
  {
    var t := Apply(s, BecomeSubreaper(u));
    assert ProcessOk(s.procs, u);
    FlagsPreserve(s, u, t.procs[u]);
  }

  predicate Reaps(e: Event) {
    e.ReapChild? || e.ReapSupervisor? || e.CustodianReap? || e.Reap?
  }

  /** The process a reaping step frees. */
  function Reaped(s: State, e: Event): Uid
    requires Reaps(e) && (e.ReapChild? ==> s.pc.Retired?)
  {
    match e
    case ReapChild => s.pc.z
    case ReapSupervisor => SUPERVISOR
    case CustodianReap(_, z) => z
    case Reap(z) => z
  }

  /** Outside the owner's own retire-then-reap sequence no custodian is ever reaped. */
  lemma ReapsOrdinary(s: State, e: Event)
    requires Inv(s) && Watched(s) && Enabled(s, e) && Reaps(e) && !e.ReapChild?
    ensures var z := Reaped(s, e); z in s.procs && !s.procs[z].live && !s.procs[z].kind.Custodian?
    ensures var z := Reaped(s, e); Active(s) == INIT || s.procs[z].parent != Active(s)
  {
    var z := Reaped(s, e);
    assert ProcessOk(s.procs, z) && SlotOk(s.slot, s.pc, s.procs, z);
    assert ProcessOk(s.procs, s.procs[z].parent);
    if Active(s) != INIT { assert ProcessOk(s.procs, Active(s)); }
  }

  /** Freeing a PID never leaves the slot naming it. */
  /** The owner reaps a child whose PID it retired from the slot before. */
  lemma ReapChildPreserves(s: State)
    requires Inv(s) && Enabled(s, ReapChild)
    ensures Inv(Apply(s, ReapChild))
  {
    var t := Apply(s, ReapChild);
    ReapKeepsKernel(s.procs, s.pc.z);
    if Watched(t) {
      assert ProcessOk(s.procs, s.pc.z);
      forall u | u in t.procs ensures SlotOk(t.slot, t.pc, t.procs, u) {
        assert SlotOk(s.slot, s.pc, s.procs, u) && ProcessOk(s.procs, u);
      }
    }
  }

  lemma ReapOtherPreserves(s: State, e: Event)
    requires Inv(s) && Enabled(s, e) && Reaps(e) && !e.ReapChild?
    ensures Inv(Apply(s, e))
  {
    var t := Apply(s, e);
    var z := Reaped(s, e);
    ReapKeepsKernel(s.procs, z);
    if Watched(t) {
      ReapsOrdinary(s, e);
      assert ProcessOk(s.procs, z);
      forall u | u in t.procs ensures SlotOk(t.slot, t.pc, t.procs, u) {
        assert SlotOk(s.slot, s.pc, s.procs, u) && ProcessOk(s.procs, u);
      }
    }
  }

  lemma CloseGateKeepsKernel(procs: Table, c: Uid)
    requires Kernel(procs)
    ensures Kernel(CloseGate(procs, c))
  {
    if c in procs && procs[c].kind.Custodian? && procs[c].kind.gate.Open? {
      assert ProcessOk(procs, c);
      UpdateKeepsKernel(procs, c, CloseGate(procs, c)[c]);
    }
  }

  /** Orphans of the supervisor go to a live guardian. */
  lemma SupervisorOrphans(procs: Table)
    requires Kernel(procs) && Alive(procs, SUPERVISOR) && Alive(procs, GUARDIAN)
    ensures NearestSubreaper(procs, procs[SUPERVISOR].parent) == GUARDIAN
  {
    assert ProcessOk(procs, SUPERVISOR) && ProcessOk(procs, GUARDIAN);
  }

  lemma OtherExitKeepsSlot(s: State, d: Uid, u: Uid)
    requires Inv(s) && Watched(s) && Live(s, d) && d != INIT && d != Active(s) && u in s.procs
    requires Alive(Orphan(s.procs, d), SUPERVISOR) || Alive(Orphan(s.procs, d), GUARDIAN)
    ensures SlotOk(s.slot, s.pc, Orphan(s.procs, d), u)
  {
    assert SlotOk(s.slot, s.pc, s.procs, u);
    assert ProcessOk(s.procs, u) && ProcessOk(s.procs, d);
  }

  lemma OwnerExitKeepsSlot(s: State, procs: Table, u: Uid)
    requires Inv(s) && Watched(s) && Active(s) != INIT
    requires procs == CloseGate(s.procs, PendingGate(s.pc)) && Kernel(procs) && u in procs
    requires Alive(Orphan(procs, Active(s)), SUPERVISOR) || Alive(Orphan(procs, Active(s)), GUARDIAN)
    ensures SlotOk(s.slot, Idle, Orphan(procs, Active(s)), u)
  {
    assert SlotOk(s.slot, s.pc, s.procs, u);
    assert ProcessOk(s.procs, u) && ProcessOk(s.procs, Active(s));
    if Active(s) == SUPERVISOR { SupervisorOrphans(procs); }
  }

  /** The active owner's program counter survives the exit of anybody else. */
  lemma ExitKeepsOwner(s: State, d: Uid)
    requires Inv(s) && Watched(s) && Live(s, d) && d != INIT && d != Active(s)
    requires var t := s.(procs := Orphan(s.procs, d)); Watched(t)
    ensures OwnerOk(s.(procs := Orphan(s.procs, d)))
  {
    var t := s.(procs := Orphan(s.procs, d));
    assert ProcessOk(s.procs, d);
    if Active(s) != INIT { assert Active(t) == Active(s); }
  }

  /** The active owner is lost at any of its program points; a gate it left open is closed. */
  lemma OwnerExitPreserves(s: State, d: Uid)
    requires Inv(s) && Enabled(s, Exit(d)) && d == Active(s)
    ensures Inv(Apply(s, Exit(d)))
  {
    var t := Apply(s, Exit(d));
    var procs := CloseGate(s.procs, PendingGate(s.pc));
    CloseGateKeepsKernel(s.procs, PendingGate(s.pc));
    ExitKeepsKernel(procs, d);
    if Watched(t) {
      forall u | u in t.procs ensures SlotOk(t.slot, t.pc, t.procs, u) {
        OwnerExitKeepsSlot(s, procs, u);
      }
    }
  }

  lemma OtherExitPreserves(s: State, d: Uid)
    requires Inv(s) && Enabled(s, Exit(d)) && d != Active(s)
    ensures Inv(Apply(s, Exit(d)))
  {
    var t := Apply(s, Exit(d));
    ExitKeepsKernel(s.procs, d);
    if Watched(t) {
      forall u | u in t.procs ensures SlotOk(t.slot, t.pc, t.procs, u) {
        OtherExitKeepsSlot(s, d, u);
      }
      ExitKeepsOwner(s, d);
    }
  }

  lemma StepPreserves(s: State, e: Event)
    requires Inv(s) && Enabled(s, e)
    ensures Inv(Apply(s, e))
  {
    match e
    case ForkCustodian(pid) => ForkCustodianPreserves(s, pid);
    case Publish => PublishPreserves(s);
    case OpenGate => OpenGatePreserves(s);
    case RetireSlot => RetireSlotPreserves(s);
    case ClearUnknown => ClearUnknownPreserves(s);
    case ForkWorker(c, pid) => ForkWorkerPreserves(s, c, pid);
    case Drain(c) => DrainPreserves(s, c);
    case Fork(u, pid) => ForkPreserves(s, u, pid);
    case BecomeSubreaper(u) => SubreaperPreserves(s, u);
    case Exit(u) => if u == Active(s) { OwnerExitPreserves(s, u); } else { OtherExitPreserves(s, u); }
    case ReapChild => ReapChildPreserves(s);
    case ReapSupervisor => ReapOtherPreserves(s, e);
    case CustodianReap(_, _) => ReapOtherPreserves(s, e);
    case Reap(_) => ReapOtherPreserves(s, e);
    case ReadGate(_) => CustodianPreserves(s, e);
    case FailPreparation(_) => CustodianPreserves(s, e);
    case ElectSubreaper(_) => CustodianPreserves(s, e);
    case ObserveNoChildren(_) => CustodianPreserves(s, e);
    case ObserveWaitable(_) => ObservationPreserves(s, e);
    case LoadSlot => ObservationPreserves(s, e);
    case LoadExclusion => ObservationPreserves(s, e);
    case OpenExclusion => ObservationPreserves(s, e);
    case ObserveTreeEmpty => ObservationPreserves(s, e);
  }

  // ---------------------------------------------------------------- runs

  ghost predicate Run(states: seq<State>, events: seq<Event>) {
    && |states| == |events| + 1
    && Initial(states[0])
    && forall i {:trigger events[i]} :: 0 <= i < |events| ==>
         Enabled(states[i], events[i]) && states[i + 1] == Apply(states[i], events[i])
  }

  lemma {:induction false} RunKeepsInv(states: seq<State>, events: seq<Event>, i: nat)
    requires Run(states, events) && i < |states|
    ensures Inv(states[i])
  {
    if i == 0 {
      InitialOk(states[0]);
    } else {
      RunKeepsInv(states, events, i - 1);
      StepPreserves(states[i - 1], events[i - 1]);
    }
  }

  /** No process that an admitted custodian started, nor that custodian, is still running. */
  ghost predicate RoleGone(s: State) {
    && (forall u, c :: !Member(s.procs, u, c))
    && (forall c :: IsRole(s.procs, c) && s.procs[c].live ==> !s.procs[c].kind.gate.Admitted?)
  }

  /**
   * The slot in every reachable state, in every interleaving, while a reaper watches:
   * a positive value is the PID of the published, still unreaped custodian and of nobody else;
   * a certificate belongs to an unreaped custodian without descendants; zero means that no
   * admitted role process is left.
   */
  lemma SlotIsSound(states: seq<State>, events: seq<Event>, i: nat)
    requires Run(states, events) && i < |states| && Watched(states[i])
    ensures var s := states[i];
      && (s.slot > 0 ==>
            && IsRole(s.procs, s.published)
            && forall u :: u in s.procs ==> (s.procs[u].pid == s.slot <==> u == s.published))
      && (s.slot < UNKNOWN ==>
            && IsRole(s.procs, s.published) && s.procs[s.published].pid == -s.slot
            && forall u, c :: !Member(s.procs, u, c))
      && (s.slot == 0 ==> RoleGone(s))
  {
    var s := states[i];
    RunKeepsInv(states, events, i);
    forall u | u in s.procs && s.slot > 0 ensures s.procs[u].pid == s.slot <==> u == s.published {
      assert ProcessOk(s.procs, u) && ProcessOk(s.procs, s.published);
    }
    forall u, c | s.slot <= 0 && s.slot != UNKNOWN ensures !Member(s.procs, u, c) {
      if Member(s.procs, u, c) {
        assert SlotOk(s.slot, s.pc, s.procs, u);
        UnchargedHasNoMembers(s, u);
      }
    }
    forall c | s.slot == 0 && IsRole(s.procs, c) && s.procs[c].live ensures !s.procs[c].kind.gate.Admitted? {
      assert SlotOk(s.slot, s.pc, s.procs, c) && ProcessOk(s.procs, c);
    }
  }

  /** No CAS of an owner or custodian moves the slot off UNKNOWN, because PIDs exceed 1. */
  lemma UnknownAbsorbs(s: State, e: Event)
    requires Inv(s) && Enabled(s, e) && s.slot == UNKNOWN && e != ClearUnknown
    ensures Apply(s, e).slot == UNKNOWN
  {
    match e
    case RetireSlot => assert ProcessOk(s.procs, s.pc.z) && ProcessOk(s.procs, INIT);
    case Drain(c) => assert ProcessOk(s.procs, c);
    case _ =>
  }

  /** UNKNOWN is left only by the guardian's whole-tree proof, when nothing else exists. */
  lemma UnknownNeedsTreeProof(states: seq<State>, events: seq<Event>, i: nat)
    requires Run(states, events) && i < |events| && Watched(states[i])
    requires states[i].slot == UNKNOWN && states[i + 1].slot != UNKNOWN
    ensures events[i] == ClearUnknown && Active(states[i]) == GUARDIAN
    ensures states[i].procs.Keys <= {INIT, GUARDIAN} && RoleGone(states[i + 1])
  {
    RunKeepsInv(states, events, i);
    if events[i] != ClearUnknown { UnknownAbsorbs(states[i], events[i]); }
    SlotIsSound(states, events, i + 1);
  }

  /** The PID that cancellation exempts, when it is opened, is carried by the published custodian only. */
  lemma ExclusionNamesTheCustodian(states: seq<State>, events: seq<Event>, i: nat, u: Uid)
    requires Run(states, events) && i < |events| && events[i] == OpenExclusion
    requires Carries(states[i].procs, u, states[i].pc.value)
    ensures u == states[i].published && IsRole(states[i].procs, u)
  {
    var s := states[i];
    RunKeepsInv(states, events, i);
    assert ProcessOk(s.procs, u) && ProcessOk(s.procs, s.published);
  }

  /** At most one admitted custodian runs undrained, and the slot charges it. */
  lemma OneAdmittedRole(states: seq<State>, events: seq<Event>, i: nat, c: Uid, d: Uid)
    requires Run(states, events) && i < |states| && Watched(states[i])
    requires IsRole(states[i].procs, c) && states[i].procs[c].live && states[i].procs[c].kind.gate.Admitted?
    requires IsRole(states[i].procs, d) && states[i].procs[d].live && states[i].procs[d].kind.gate.Admitted?
    ensures c == d
  {
    var s := states[i];
    RunKeepsInv(states, events, i);
    assert SlotOk(s.slot, s.pc, s.procs, c) && SlotOk(s.slot, s.pc, s.procs, d);
    assert ProcessOk(s.procs, c) && ProcessOk(s.procs, d);
  }

  /** A role that runs undrained is always the one that cancellation goes on to exempt. */
  lemma RunningRoleIsExempted(states: seq<State>, events: seq<Event>, i: nat, c: Uid)
    requires Run(states, events) && i < |states| && Watched(states[i]) && Enabled(states[i], LoadExclusion)
    requires IsRole(states[i].procs, c) && states[i].procs[c].live && states[i].procs[c].kind.gate.Admitted?
    requires !states[i].procs[c].kind.pc.Exiting?
    ensures Apply(states[i], LoadExclusion).pc == Excluding(states[i].procs[c].pid)
  {
    RunKeepsInv(states, events, i);
    assert SlotOk(states[i].slot, states[i].pc, states[i].procs, c) && ProcessOk(states[i].procs, c);
  }

  /** After the whole-tree proof the slot is free, so that a new role can be published. */
  lemma TreeProofFreesTheSlot(states: seq<State>, events: seq<Event>, i: nat)
    requires Run(states, events) && i < |events| && events[i] == ClearUnknown && Watched(states[i])
    ensures states[i + 1].slot == 0
  {
    RunKeepsInv(states, events, i);
    var s := states[i];
    assert s.procs.Keys <= {INIT, GUARDIAN};
    assert s.slot != 0 && s.slot != UNKNOWN ==> IsRole(s.procs, s.published) && ProcessOk(s.procs, s.published);
  }

  /** Once it has reaped the supervisor, the guardian owns the slot as it was left, with nothing under way. */
  lemma GuardianSucceeds(states: seq<State>, events: seq<Event>, i: nat)
    requires Run(states, events) && i < |events| && events[i] == ReapSupervisor
    ensures Active(states[i]) == INIT && states[i].pc == Idle
    ensures Active(states[i + 1]) == GUARDIAN && states[i + 1].pc == Idle && states[i + 1].slot == states[i].slot
  {
    RunKeepsInv(states, events, i);
  }

  /** An adopting reaper comes back from every operation: each of its steps is the last one or enables the next. */
  lemma OwnerReturns(s: State, e: Event)
    requires Inv(s) && Enabled(s, e) && Active(s) != INIT
    requires e in {OpenGate, ReapChild, OpenExclusion, ClearUnknown, Publish, LoadSlot, RetireSlot, ObserveTreeEmpty}
    ensures var t := Apply(s, e);
            && (e in {OpenGate, ReapChild, OpenExclusion, ClearUnknown} ==> t.pc == Idle)
            && (e == Publish ==> t.pc == Idle || Enabled(t, OpenGate))
            && (e == LoadSlot ==> Enabled(t, RetireSlot))
            && (e == RetireSlot ==> Enabled(t, ReapChild))
            && (e == ObserveTreeEmpty ==> Enabled(t, ClearUnknown))
            && Active(t) == Active(s)
  {
  }

  /**
   * A custodian that was not admitted drains at once; an admitted one elects itself subreaper before any worker,
   * and drains when that fails or when it has no children left.
   */
  lemma CustodianProceeds(s: State, e: Event, pid: int)
    requires Inv(s) && Enabled(s, e) && (e.ReadGate? || e.FailPreparation? || e.ElectSubreaper? || e.ObserveNoChildren?)
    ensures var t := Apply(s, e);
            && (e.ReadGate? ==> if s.procs[e.c].kind.gate.Admitted? then Enabled(t, ElectSubreaper(e.c))
                                else Enabled(t, Drain(e.c)))
            && (e.FailPreparation? || e.ObserveNoChildren? ==> Enabled(t, Drain(e.c)))
            && (e.ElectSubreaper? && FreshPid(t.procs, pid) ==> Enabled(t, ForkWorker(e.c, pid)))
            && t.slot == s.slot
  {
  }
}
