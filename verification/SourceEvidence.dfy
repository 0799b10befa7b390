/**
 * Source evidence of one registered handle (src/continuation.rs): selection of the first
 * observation, its restoration, freezing of the selected output prefix, and the two-file
 * publication of one bundle. Every file is a write-once register published with link(2).
 * Live observers, guardians and recoveries race, fail and are lost between any two steps.
 */
module SourceEvidence {

  import opened Options

  datatype Kind = Exit | Ready | Cancelled | CeasedStatusUnknown | NeverLaunched

  /** What one observer saw; `trusted` when it captured every output byte through the event. */
  datatype Observation = Observation(observer: nat, kind: Kind, waitStatus: Option<int>, rc: int,
                                     treeDrained: bool, outputClosed: bool, trusted: bool)

  datatype Outcome = Outcome(event: Observation)

  datatype Status = Completed | ReadyStatus | Error | OriginalOutputUnavailable

  /** SHA-256, injective: a digest is as good as the bytes it was taken of. */
  datatype Digest<T> = Sha256(preimage: T)

  /** `producer` is the recovery that attested the loss. */
  datatype Descriptor = Retained(digest: Digest<seq<int>>, byteLen: nat) | MissingOriginal(producer: nat)

  datatype Header = Header(rc: int, status: Status)

  datatype Snapshot = Snapshot(header: Header, output: Descriptor, outcomeDigest: Digest<Outcome>)

  datatype Staged = Staged(outcome: Outcome, header: Header)

  /** The immutable selection record; `length` is absent when no original output could be pinned. */
  datatype Selection = Selection(staged: Staged, length: Option<nat>)

  datatype Bundle = Bundle(outcome: Outcome, snapshot: Snapshot)

  /** The pin of the log inode, and the write-once files; `missing` is the producer of the loss record. */
  datatype Files = Files(
    pinned: bool, selection: Option<Selection>, observation: Option<Staged>,
    output: Option<seq<int>>, missing: Option<nat>,
    bundle: Option<Bundle>, outcome: Option<Outcome>, snapshot: Option<Snapshot>)

  function StatusOf(k: Kind): Status {
    if k.Ready? then ReadyStatus
    else if k.NeverLaunched? || k.CeasedStatusUnknown? || k.Cancelled? then Error
    else Completed
  }

  function StagedOf(o: Observation): Staged {
    Staged(Outcome(o), Header(o.rc, StatusOf(o.kind)))
  }

  function MakeBundle(st: Staged, d: Descriptor): Bundle {
    var header := if d.MissingOriginal? then st.header.(status := OriginalOutputUnavailable) else st.header;
    Bundle(st.outcome, Snapshot(header, d, Sha256(st.outcome)))
  }

  function Describe(body: seq<int>): Descriptor {
    Retained(Sha256(body), |body|)
  }

  /** `immutable` as an atomic operation on a register: the new value and whether it reports success. */
  function Put<T(==)>(register: Option<T>, data: T): (r: (Option<T>, bool)) {
    if register.None? then (Some(data), true) else (register, register.value == data)
  }

  /**
   * The code probes the file first and compares again if link(2) reports that it exists.
   * Between its steps others may create the file but never replace it; the outcome is the
   * same as the atomic operation's at the step that decided it.
   */
  lemma ImmutableIsAtomic<T>(probed: Option<T>, linked: Option<T>, reread: Option<T>, data: T)
    requires probed.Some? ==> linked == probed
    requires linked.Some? ==> reread == linked
    ensures var reported := if probed.Some? then probed.value == data
                            else if linked.None? then true
                            else reread.value == data;
            reported == Put(linked, data).1 && (reported <==> Put(linked, data).0 == Some(data))
  {
  }

  // ---------------------------------------------------------------- observers and recoveries

  datatype Pc =
    | Starting
    | Pinning | Measuring | Selecting(selection: Selection)
    | Restoring | Capturing | Hashing | Bundling(descriptor: Descriptor)
    | Publishing | PublishingSnapshot
    | Finished | Stopped

  /** A recovery carries no observation of its own; an observer's process is `i`, and identities are never reused. */
  datatype Actor = Actor(sees: Option<Observation>, pc: Pc)

  /** What is left of the selected inode: a loss may or may not be provable from the managed directory. */
  datatype Storage = Intact | LostProvably | LostAmbiguously

  /** What an interrupted copy left in its one slot, apart from validated fragments, which count for nothing. */
  datatype Copy = NoCopy | Unvalidated | Complete

  datatype State = State(files: Files, log: seq<int>, storage: Storage, copy: Copy, actors: map<nat, Actor>, next: nat)

  datatype Event =
    | Begin(i: nat, sees: Option<Observation>) | Again(i: nat, sees: Option<Observation>)
    | Probe(i: nat) | Pin(i: nat) | PinFails(i: nat, linked: bool) | Measure(i: nat) | Select(i: nat)
    | Restore(i: nat) | Freeze(i: nat) | Interrupt(i: nat, left: Copy)
    | AttestMissing(i: nat) | Hash(i: nat) | Commit(i: nat)
    | PutOutcome(i: nat) | PutSnapshot(i: nat)
    | Lose(i: nat) | Append(chunk: seq<int>) | LoseLog(provably: bool) | RemovePin

  predicate At(s: State, i: nat, pc: Pc) {
    i in s.actors && s.actors[i].pc == pc
  }

  /** An observer signs with its own identity. */
  predicate Signs(i: nat, sees: Option<Observation>) {
    sees.Some? ==> sees.value.observer == i
  }

  predicate Enabled(s: State, e: Event) {
    match e
    case Begin(i, sees) => i >= s.next && Signs(i, sees)
    case Again(i, sees) => (At(s, i, Stopped) || At(s, i, Finished)) && Signs(i, sees)
    case Probe(i) => At(s, i, Starting)
    case Pin(i) => At(s, i, Pinning) && s.actors[i].sees.Some?
    case PinFails(i, linked) => At(s, i, Pinning) && s.actors[i].sees.Some? && (linked ==> !s.files.pinned)
    case Measure(i) => At(s, i, Measuring) && s.actors[i].sees.Some?
    case Select(i) => i in s.actors && s.actors[i].pc.Selecting?
    case Restore(i) => At(s, i, Restoring)
    case Freeze(i) => At(s, i, Capturing)
    case Interrupt(i, _) => At(s, i, Capturing) && CanFreeze(s)
    case AttestMissing(i) => At(s, i, Capturing) && s.actors[i].sees.None?
    case Hash(i) => At(s, i, Hashing)
    case Commit(i) => i in s.actors && s.actors[i].pc.Bundling?
    case PutOutcome(i) => At(s, i, Publishing)
    case PutSnapshot(i) => At(s, i, PublishingSnapshot)
    case Lose(i) => i in s.actors
    case Append(_) => true
    case LoseLog(provably) => provably || s.storage.Intact?
    case RemovePin => true
  }

  function Move(s: State, i: nat, pc: Pc): State
    requires i in s.actors
  {
    s.(actors := s.actors[i := s.actors[i].(pc := pc)])
  }

  /** Publish `data` in one register: go on where it is now the content, stop on a conflict. */
  function After<T(==)>(register: Option<T>, data: T, next: Pc): Pc {
    if Put(register, data).1 then next else Stopped
  }

  predicate Acceptable(o: Observation) {
    o.kind.Cancelled? ==> o.treeDrained && o.outputClosed
  }

  /** Without a pin the selection records that no original output was retained. */
  function Unpinned(o: Observation): Pc {
    Selecting(Selection(StagedOf(o), None))
  }

  function ProbeNext(f: Files, sees: Option<Observation>): Pc {
    if f.bundle.Some? then Publishing
    else if f.observation.Some? then Capturing
    else if f.selection.Some? then Restoring
    else if sees.None? || !Acceptable(sees.value) then Stopped
    else if sees.value.trusted then Pinning
    else Unpinned(sees.value)
  }

  /** The selected prefix is still there to be copied, in the inode or in a completed copy. */
  predicate Recoverable(s: State) {
    && s.files.selection.Some? && s.files.selection.value.length.Some?
    && s.files.selection.value.length.value <= |s.log|
    && (s.storage.Intact? || s.copy.Complete?)
  }

  predicate CanFreeze(s: State) {
    s.files.output.None? && s.files.missing.None? && Recoverable(s)
  }

  /**
   * The managed directory proves the loss: no orphaned pin where none was selected, no selected
   * inode and no copy of it otherwise.
   */
  predicate LossProven(s: State)
    requires s.files.selection.Some?
  {
    if s.files.selection.value.length.None? then !s.files.pinned else s.storage.LostProvably? && s.copy.NoCopy?
  }

  /** The process that made the selected observation is gone. */
  predicate ObserverGone(s: State)
    requires s.files.selection.Some?
  {
    s.files.selection.value.staged.outcome.event.observer !in s.actors
  }

  predicate MayAttest(s: State) {
    s.files.selection.Some? && LossProven(s) && ObserverGone(s)
  }

  function FreezeOutput(s: State): Files {
    if CanFreeze(s) then s.files.(output := Some(s.log[..s.files.selection.value.length.value])) else s.files
  }

  /** The recorded loss, or a new record signed by this recovery. */
  function Attested(s: State, i: nat): Option<nat> {
    if s.files.output.Some? then None
    else if s.files.missing.Some? then s.files.missing
    else if MayAttest(s) then Some(i)
    else None
  }

  /** Publication: every file is put once, and a conflict stops the actor. */
  function ApplyPublication(s: State, e: Event): State
    requires Enabled(s, e) && (e.Commit? || e.PutOutcome? || e.PutSnapshot?)
  {
    var f := s.files;
    match e
    case Commit(i) =>
      if f.observation.None? then Move(s, i, Stopped)
      else
        var b := MakeBundle(f.observation.value, s.actors[i].pc.descriptor);
        Move(s.(files := f.(bundle := Put(f.bundle, b).0)), i, After(f.bundle, b, Publishing))
    case PutOutcome(i) =>
      if f.bundle.None? || f.bundle.value.snapshot.outcomeDigest != Sha256(f.bundle.value.outcome)
      then Move(s, i, Stopped)
      else Move(s.(files := f.(outcome := Put(f.outcome, f.bundle.value.outcome).0)), i,
                After(f.outcome, f.bundle.value.outcome, PublishingSnapshot))
    case PutSnapshot(i) =>
      if f.bundle.None? then Move(s, i, Stopped)
      else Move(s.(files := f.(snapshot := Put(f.snapshot, f.bundle.value.snapshot).0)), i,
                After(f.snapshot, f.bundle.value.snapshot, Finished))
  }

  function Apply(s: State, e: Event): State
    requires Enabled(s, e)
  {
    var f := s.files;
    match e
    case Begin(i, sees) => s.(actors := s.actors[i := Actor(sees, Starting)], next := i + 1)
    case Again(i, sees) => s.(actors := s.actors[i := Actor(sees, Starting)])
    case Probe(i) => Move(s, i, ProbeNext(f, s.actors[i].sees))
    case Pin(i) =>
      if f.pinned then Move(s, i, Unpinned(s.actors[i].sees.value))
      else Move(s.(files := f.(pinned := true)), i, Measuring)
    case PinFails(i, linked) =>
      Move(s.(files := f.(pinned := f.pinned || linked)), i, Unpinned(s.actors[i].sees.value))
    case Measure(i) =>
      if !f.pinned then Move(s, i, Unpinned(s.actors[i].sees.value))
      else Move(s, i, Selecting(Selection(StagedOf(s.actors[i].sees.value), Some(|s.log|))))
    case Select(i) =>
      var sel := s.actors[i].pc.selection;
      Move(s.(files := f.(selection := Put(f.selection, sel).0)), i, After(f.selection, sel, Restoring))
    case Restore(i) =>
      if f.selection.None? then Move(s, i, Stopped)
      else Move(s.(files := f.(observation := Put(f.observation, f.selection.value.staged).0)), i,
                After(f.observation, f.selection.value.staged, Capturing))
    case Freeze(i) => Move(s.(files := FreezeOutput(s)), i, if FreezeOutput(s).output.Some? then Hashing else Stopped)
    case Interrupt(i, left) => Move(s, i, Stopped).(copy := if s.copy.NoCopy? then left else s.copy)
    case AttestMissing(i) =>
      if Attested(s, i).None? then Move(s, i, Stopped)
      else Move(s.(files := f.(missing := Attested(s, i))), i, Bundling(MissingOriginal(Attested(s, i).value)))
    case Hash(i) =>
      if f.output.None? then Move(s, i, Stopped) else Move(s, i, Bundling(Describe(f.output.value)))
    case Commit(_) => ApplyPublication(s, e)
    case PutOutcome(_) => ApplyPublication(s, e)
    case PutSnapshot(_) => ApplyPublication(s, e)
    case Lose(i) => s.(actors := s.actors - {i})
    case Append(chunk) => s.(log := s.log + chunk)
    case LoseLog(provably) => s.(storage := if provably then LostProvably else LostAmbiguously)
    case RemovePin => s.(files := f.(pinned := false))
  }

  predicate Initial(s: State) {
    s == State(Files(false, None, None, None, None, None, None, None), [], Intact, NoCopy, map[], 0)
  }

  // ---------------------------------------------------------------- invariant

  /** The evidence a descriptor stands for exists. */
  predicate Evidence(f: Files, d: Descriptor) {
    if d.MissingOriginal? then f.missing == Some(d.producer) else f.output.Some? && d == Describe(f.output.value)
  }

  /** A selection is acceptable, complete in itself and signed by a process that existed. */
  predicate SelectionOk(sel: Selection, log: seq<int>, next: nat) {
    && Acceptable(sel.staged.outcome.event) && sel.staged == StagedOf(sel.staged.outcome.event)
    && (sel.length.Some? ==> sel.length.value <= |log| && sel.staged.outcome.event.trusted)
    && sel.staged.outcome.event.observer < next
  }

  predicate FilesOk(s: State) {
    var f := s.files;
    && (f.selection.Some? ==> SelectionOk(f.selection.value, s.log, s.next))
    && (f.observation.Some? ==> f.selection.Some? && f.observation.value == f.selection.value.staged)
    && (f.output.Some? ==> f.selection.Some? && f.missing.None? && f.selection.value.length.Some?
                           && f.output.value == s.log[..f.selection.value.length.value])
    && (f.missing.Some? ==> f.selection.Some? && !Recoverable(s))
    && (f.bundle.Some? ==> f.observation.Some? && Evidence(f, f.bundle.value.snapshot.output)
                           && f.bundle.value == MakeBundle(f.observation.value, f.bundle.value.snapshot.output))
    && (f.outcome.Some? ==> f.bundle.Some? && f.outcome.value == f.bundle.value.outcome)
    && (f.snapshot.Some? ==> f.outcome.Some? && f.snapshot.value == f.bundle.value.snapshot)
  }

  predicate ActorOk(s: State, i: nat)
    requires i in s.actors
  {
    var f := s.files;
    var a := s.actors[i];
    && i < s.next && Signs(i, a.sees)
    && match a.pc
       case Pinning => a.sees.Some? && Acceptable(a.sees.value) && a.sees.value.trusted
       case Measuring => a.sees.Some? && Acceptable(a.sees.value) && a.sees.value.trusted
       case Selecting(sel) => SelectionOk(sel, s.log, s.next)
       case Restoring => f.selection.Some?
       case Capturing => f.observation.Some?
       case Hashing => f.observation.Some? && f.output.Some?
       case Bundling(d) => f.observation.Some? && Evidence(f, d)
       case Publishing => f.bundle.Some?
       case PublishingSnapshot => f.outcome.Some?
       case Finished => f.snapshot.Some?
       case _ => true
  }

  ghost predicate Inv(s: State) {
    FilesOk(s) && forall i {:trigger ActorOk(s, i)} :: i in s.actors ==> ActorOk(s, i)
  }

  predicate Extends<T(==)>(a: Option<T>, b: Option<T>) {
    a.Some? ==> b == a
  }

  /** Registers are written once. */
  predicate Grows(a: Files, b: Files) {
    && Extends(a.selection, b.selection) && Extends(a.observation, b.observation)
    && Extends(a.output, b.output) && Extends(a.missing, b.missing)
    && Extends(a.bundle, b.bundle) && Extends(a.outcome, b.outcome) && Extends(a.snapshot, b.snapshot)
  }

  /** Nobody else's step takes away what an actor relies on. */
  lemma OthersKeepActor(s: State, t: State, i: nat)
    requires i in s.actors && ActorOk(s, i) && i in t.actors && t.actors[i] == s.actors[i]
    requires Grows(s.files, t.files) && |s.log| <= |t.log| && s.next <= t.next
    ensures ActorOk(t, i)
  {
  }

  /** One actor moved, or was lost, and the files only grew. */
  lemma OneMoved(s: State, t: State, i: nat)
    requires Inv(s) && FilesOk(t) && Grows(s.files, t.files) && |s.log| <= |t.log| && s.next <= t.next
    requires forall k :: k in t.actors && k != i ==> k in s.actors && t.actors[k] == s.actors[k]
    requires i in t.actors ==> ActorOk(t, i)
    ensures Inv(t)
  {
    forall k | k in t.actors ensures ActorOk(t, k) {
      if k != i {
        assert ActorOk(s, k);
        OthersKeepActor(s, t, k);
      }
    }
  }

  lemma ProbeStep(s: State, i: nat)
    requires Inv(s) && Enabled(s, Probe(i))
    ensures var t := Apply(s, Probe(i)); Inv(t) && Grows(s.files, t.files)
  {
    assert ActorOk(s, i);
    OneMoved(s, Apply(s, Probe(i)), i);
  }

  /** The pin is no evidence of its own. */
  lemma PinKeepsFiles(s: State, t: State)
    requires FilesOk(s) && t.files == s.files.(pinned := t.files.pinned)
    requires t.log == s.log && t.storage == s.storage && t.copy == s.copy && t.next == s.next
    ensures FilesOk(t) && Grows(s.files, t.files)
  {
  }

  lemma PinStep(s: State, e: Event)
    requires Inv(s) && Enabled(s, e) && (e.Pin? || e.PinFails?)
    ensures var t := Apply(s, e); Inv(t) && Grows(s.files, t.files)
  {
    assert ActorOk(s, e.i);
    PinKeepsFiles(s, Apply(s, e));
    OneMoved(s, Apply(s, e), e.i);
  }

  lemma MeasureStep(s: State, i: nat)
    requires Inv(s) && Enabled(s, Measure(i))
    ensures var t := Apply(s, Measure(i)); Inv(t) && Grows(s.files, t.files)
  {
    assert ActorOk(s, i);
    OneMoved(s, Apply(s, Measure(i)), i);
  }

  lemma SelectStep(s: State, i: nat)
    requires Inv(s) && Enabled(s, Select(i))
    ensures var t := Apply(s, Select(i)); Inv(t) && Grows(s.files, t.files)
  {
    assert ActorOk(s, i);
    OneMoved(s, Apply(s, Select(i)), i);
  }

  lemma RestoreStep(s: State, i: nat)
    requires Inv(s) && Enabled(s, Restore(i))
    ensures var t := Apply(s, Restore(i)); Inv(t) && Grows(s.files, t.files) && t.actors[i].pc != Stopped
  {
    assert ActorOk(s, i);
    OneMoved(s, Apply(s, Restore(i)), i);
  }

  lemma FreezeStep(s: State, i: nat)
    requires Inv(s) && Enabled(s, Freeze(i))
    ensures var t := Apply(s, Freeze(i)); Inv(t) && Grows(s.files, t.files)
  {
    assert ActorOk(s, i);
    OneMoved(s, Apply(s, Freeze(i)), i);
  }

  lemma AttestStep(s: State, i: nat)
    requires Inv(s) && Enabled(s, AttestMissing(i))
    ensures var t := Apply(s, AttestMissing(i)); Inv(t) && Grows(s.files, t.files)
  {
    assert ActorOk(s, i);
    OneMoved(s, Apply(s, AttestMissing(i)), i);
  }

  lemma HashStep(s: State, i: nat)
    requires Inv(s) && Enabled(s, Hash(i))
    ensures var t := Apply(s, Hash(i)); Inv(t) && Grows(s.files, t.files)
  {
    assert ActorOk(s, i);
    OneMoved(s, Apply(s, Hash(i)), i);
  }

  /** Output and attested loss exclude each other, so every bundle anyone can build is the same one. */
  lemma OneBundle(f: Files, d: Descriptor, d': Descriptor)
    requires Evidence(f, d) && Evidence(f, d') && (f.output.Some? ==> f.missing.None?)
    ensures d == d'
  {
  }

  lemma CommitStep(s: State, i: nat)
    requires Inv(s) && Enabled(s, Commit(i))
    ensures var t := Apply(s, Commit(i)); Inv(t) && Grows(s.files, t.files) && t.actors[i].pc != Stopped
  {
    assert ActorOk(s, i);
    if s.files.bundle.Some? {
      OneBundle(s.files, s.actors[i].pc.descriptor, s.files.bundle.value.snapshot.output);
    }
    OneMoved(s, Apply(s, Commit(i)), i);
  }

  lemma PutOutcomeStep(s: State, i: nat)
    requires Inv(s) && Enabled(s, PutOutcome(i))
    ensures var t := Apply(s, PutOutcome(i)); Inv(t) && Grows(s.files, t.files) && t.actors[i].pc != Stopped
  {
    assert ActorOk(s, i);
    OneMoved(s, Apply(s, PutOutcome(i)), i);
  }

  lemma PutSnapshotStep(s: State, i: nat)
    requires Inv(s) && Enabled(s, PutSnapshot(i))
    ensures var t := Apply(s, PutSnapshot(i)); Inv(t) && Grows(s.files, t.files) && t.actors[i].pc != Stopped
  {
    assert ActorOk(s, i);
    OneMoved(s, Apply(s, PutSnapshot(i)), i);
  }

  lemma PublicationStep(s: State, e: Event)
    requires Inv(s) && Enabled(s, e) && (e.Restore? || e.Commit? || e.PutOutcome? || e.PutSnapshot?)
    ensures var t := Apply(s, e); Inv(t) && Grows(s.files, t.files) && t.actors[e.i].pc != Stopped
  {
    if e.Restore? {
      RestoreStep(s, e.i);
    } else if e.Commit? {
      CommitStep(s, e.i);
    } else if e.PutOutcome? {
      PutOutcomeStep(s, e.i);
    } else {
      PutSnapshotStep(s, e.i);
    }
  }

  /** A process begins, retries, is lost, or is interrupted in mid-copy. */
  lemma ProcessStep(s: State, e: Event)
    requires Inv(s) && Enabled(s, e) && (e.Begin? || e.Again? || e.Lose? || e.Interrupt?)
    ensures var t := Apply(s, e); Inv(t) && Grows(s.files, t.files)
  {
    assert e.i in s.actors ==> ActorOk(s, e.i);
    OneMoved(s, Apply(s, e), e.i);
  }

  /** The log grows, or storage is lost or changed from outside. */
  lemma StorageStep(s: State, e: Event)
    requires Inv(s) && Enabled(s, e) && (e.Append? || e.LoseLog? || e.RemovePin?)
    ensures var t := Apply(s, e); Inv(t) && Grows(s.files, t.files)
  {
    if e.Append? && s.files.output.Some? {
      var n := s.files.selection.value.length.value;
      assert (s.log + e.chunk)[..n] == s.log[..n];
    }
    var t := Apply(s, e);
    forall k | k in t.actors ensures ActorOk(t, k) {
      assert ActorOk(s, k);
      OthersKeepActor(s, t, k);
    }
  }

  lemma StepPreserves(s: State, e: Event)
    requires Inv(s) && Enabled(s, e)
    ensures Inv(Apply(s, e)) && Grows(s.files, Apply(s, e).files)
  {
    if e.Probe? { ProbeStep(s, e.i); }
    else if e.Pin? || e.PinFails? { PinStep(s, e); }
    else if e.Measure? { MeasureStep(s, e.i); }
    else if e.Select? { SelectStep(s, e.i); }
    else if e.Freeze? { FreezeStep(s, e.i); }
    else if e.AttestMissing? { AttestStep(s, e.i); }
    else if e.Hash? { HashStep(s, e.i); }
    else if e.Restore? || e.Commit? || e.PutOutcome? || e.PutSnapshot? { PublicationStep(s, e); }
    else if e.Append? || e.LoseLog? || e.RemovePin? { StorageStep(s, e); }
    else { ProcessStep(s, e); }
  }

  // ---------------------------------------------------------------- runs

  ghost predicate Path(states: seq<State>, events: seq<Event>) {
    && |states| == |events| + 1
    && forall i {:trigger events[i]} :: 0 <= i < |events| ==>
         Enabled(states[i], events[i]) && states[i + 1] == Apply(states[i], events[i])
  }

  ghost predicate Run(states: seq<State>, events: seq<Event>) {
    Path(states, events) && Initial(states[0])
  }

  lemma {:induction false} RunKeepsInv(states: seq<State>, events: seq<Event>, i: nat)
    requires Run(states, events) && i < |states|
    ensures Inv(states[i])
  {
    if i > 0 {
      RunKeepsInv(states, events, i - 1);
      StepPreserves(states[i - 1], events[i - 1]);
    }
  }

  lemma {:induction false} RunGrows(states: seq<State>, events: seq<Event>, i: nat, j: nat)
    requires Run(states, events) && i <= j < |states|
    ensures Grows(states[i].files, states[j].files)
    decreases j
  {
    if i < j {
      RunGrows(states, events, i, j - 1);
      RunKeepsInv(states, events, j - 1);
      StepPreserves(states[j - 1], events[j - 1]);
    }
  }

  /**
   * First observation wins: once a selection is committed, every outcome published on that run,
   * by whichever observer or recovery, is the selected one, and a cancellation is selected only
   * with the tree drained and the output closed.
   */
  lemma FirstObservationWins(states: seq<State>, events: seq<Event>, i: nat, j: nat)
    requires Run(states, events) && i <= j < |states| && states[i].files.selection.Some?
    ensures var selected := states[i].files.selection.value; var f := states[j].files;
      && f.selection == Some(selected)
      && (f.observation.Some? ==> f.observation.value == selected.staged)
      && (f.outcome.Some? ==> f.outcome.value == selected.staged.outcome)
      && (selected.staged.outcome.event.kind.Cancelled? ==>
            selected.staged.outcome.event.treeDrained && selected.staged.outcome.event.outputClosed)
  {
    RunKeepsInv(states, events, j);
    RunGrows(states, events, i, j);
  }

  /** OUTCOME and SNAPSHOT are the two halves of one bundle; SNAPSHOT never appears alone. */
  lemma PublishedHalvesMatch(states: seq<State>, events: seq<Event>, i: nat)
    requires Run(states, events) && i < |states| && states[i].files.snapshot.Some?
    ensures var f := states[i].files;
      && f.outcome.Some? && f.bundle == Some(Bundle(f.outcome.value, f.snapshot.value))
      && f.snapshot.value.outcomeDigest == Sha256(f.outcome.value)
      && Evidence(f, f.snapshot.value.output)
  {
    RunKeepsInv(states, events, i);
  }

  /** A published snapshot says what was seen: its status names the kind of event, or that the output is missing. */
  lemma PublishedHeaderIsExact(states: seq<State>, events: seq<Event>, i: nat)
    requires Run(states, events) && i < |states| && states[i].files.snapshot.Some?
    ensures states[i].files.selection.Some?
    ensures var o := states[i].files.selection.value.staged.outcome.event; var n := states[i].files.snapshot.value;
      && n.header.rc == o.rc
      && (n.header.status == OriginalOutputUnavailable <==> n.output.MissingOriginal?)
      && (n.output.Retained? ==>
            && (n.header.status == ReadyStatus <==> o.kind == Ready)
            && (n.header.status == Completed <==> o.kind == Exit)
            && (n.header.status == Error <==> o.kind in {Cancelled, CeasedStatusUnknown, NeverLaunched}))
  {
    RunKeepsInv(states, events, i);
  }

  /** Only the first link of the chain can lose a race: no later publication ever conflicts. */
  lemma OnlySelectionConflicts(states: seq<State>, events: seq<Event>, i: nat)
    requires Run(states, events) && i < |events|
    requires events[i].Restore? || events[i].Commit? || events[i].PutOutcome? || events[i].PutSnapshot?
    ensures states[i + 1].actors[events[i].i].pc != Stopped
  {
    RunKeepsInv(states, events, i);
    PublicationStep(states[i], events[i]);
  }

  /** A length that an actor is about to select was measured, by that actor, as the whole log of that moment. */
  lemma {:induction false} LengthIsMeasured(states: seq<State>, events: seq<Event>, j: nat, i: nat) returns (m: nat)
    requires Run(states, events) && j < |states| && i in states[j].actors && states[j].actors[i].pc.Selecting?
    requires states[j].actors[i].pc.selection.length.Some?
    ensures m < j && events[m] == Measure(i) && states[j].actors[i].pc.selection.length == Some(|states[m].log|)
    ensures states[j].actors[i].pc.selection.staged.outcome.event.observer == i
    decreases j
  {
    assert j > 0;
    assert Enabled(states[j - 1], events[j - 1]) && states[j] == Apply(states[j - 1], events[j - 1]);
    RunKeepsInv(states, events, j - 1);
    if events[j - 1] == Measure(i) {
      m := j - 1;
      assert ActorOk(states[j - 1], i);
    } else {
      m := LengthIsMeasured(states, events, j - 1, i);
    }
  }

  /** So the selected prefix is every byte logged when the selecting observer measured, and not one more. */
  lemma {:induction false} SelectionIsMeasured(states: seq<State>, events: seq<Event>, j: nat) returns (m: nat)
    requires Run(states, events) && j < |states| && states[j].files.selection.Some?
    requires states[j].files.selection.value.length.Some?
    ensures m < j && events[m].Measure? && states[j].files.selection.value.length == Some(|states[m].log|)
    ensures states[j].files.selection.value.staged.outcome.event.observer == events[m].i
    decreases j
  {
    assert j > 0;
    assert Enabled(states[j - 1], events[j - 1]) && states[j] == Apply(states[j - 1], events[j - 1]);
    if states[j - 1].files.selection.Some? {
      RunKeepsInv(states, events, j - 1);
      StepPreserves(states[j - 1], events[j - 1]);
      m := SelectionIsMeasured(states, events, j - 1);
    } else {
      m := LengthIsMeasured(states, events, j - 1, events[j - 1].i);
    }
  }

  /**
   * An observer selects its own observation whatever becomes of the pin, with the log's length exactly if the
   * pin it made itself is still there when it measures.
   */
  lemma SelectsExactly(s: State, e: Event)
    requires Inv(s) && Enabled(s, e) && (e.Pin? || e.PinFails? || e.Measure?)
    ensures var pc, o := Apply(s, e).actors[e.i].pc, s.actors[e.i].sees.value;
            if e.Pin? && !s.files.pinned then pc == Measuring
            else
              && pc.Selecting? && pc.selection.staged.outcome.event == o
              && pc.selection.length == if e.Measure? && s.files.pinned then Some(|s.log|) else None
    ensures e.PinFails? ==> Apply(s, e).files.pinned == (s.files.pinned || e.linked)
  {
  }

  lemma {:induction false} LogGrows(states: seq<State>, events: seq<Event>, m: nat, j: nat)
    requires Run(states, events) && m <= j < |states|
    ensures |states[m].log| <= |states[j].log| && states[j].log[..|states[m].log|] == states[m].log
    decreases j
  {
    if m < j {
      LogGrows(states, events, m, j - 1);
      assert Enabled(states[j - 1], events[j - 1]) && states[j] == Apply(states[j - 1], events[j - 1]);
    }
  }

  /**
   * Published output is what its observer saw: digest and length are those of the whole log at the moment the
   * selecting observer, who had captured every byte, measured it, whatever was appended since.
   */
  lemma PublishedOutputIsMeasured(states: seq<State>, events: seq<Event>, j: nat) returns (m: nat)
    requires Run(states, events) && j < |states| && states[j].files.snapshot.Some?
    requires states[j].files.snapshot.value.output.Retained?
    ensures m < j && events[m].Measure? && states[j].files.outcome.Some?
    ensures var event := states[j].files.outcome.value.event; event.observer == events[m].i && event.trusted
    ensures states[j].files.snapshot.value.output == Retained(Sha256(states[m].log), |states[m].log|)
  {
    RunKeepsInv(states, events, j);
    m := SelectionIsMeasured(states, events, j);
    LogGrows(states, events, m, j);
  }

  /** A loss is newly recorded exactly where the directory proves it after the observer is gone, and by whom. */
  lemma AttestedExactly(s: State, i: nat)
    requires Inv(s) && Enabled(s, AttestMissing(i)) && s.files.missing.None?
    ensures Apply(s, AttestMissing(i)).files.missing.Some? <==>
              && s.files.output.None? && s.files.selection.Some? && LossProven(s)
              && s.files.selection.value.staged.outcome.event.observer !in s.actors
    ensures Apply(s, AttestMissing(i)).files.missing.Some? ==> Apply(s, AttestMissing(i)).files.missing == Some(i)
  {
    assert ActorOk(s, i);
  }

  // ---------------------------------------------------------------- convergence

  predicate Decided(f: Files) {
    f.output.Some? || f.missing.Some?
  }

  /** The descriptor every recovery from here publishes, where it is determined. */
  function Answer(s: State): Option<Descriptor> {
    if s.files.output.Some? then Some(Describe(s.files.output.value))
    else if s.files.missing.Some? then Some(MissingOriginal(s.files.missing.value))
    else if Recoverable(s) then Some(Describe(s.log[..s.files.selection.value.length.value]))
    else None
  }

  /** What a recovery publishes for a descriptor. */
  function Final(s: State, d: Descriptor): Bundle
    requires s.files.selection.Some?
  {
    MakeBundle(s.files.selection.value.staged, d)
  }

  /** The loss of the log at this step takes away a prefix that was only there. */
  predicate LosesPrefix(s: State, e: Event) {
    e.LoseLog? && Recoverable(s) && !s.copy.Complete? && !Decided(s.files)
  }

  /** An answer stays what it is, and without one only a recorded loss can still become the answer. */
  lemma StepKeepsAnswer(s: State, e: Event)
    requires Inv(s) && Enabled(s, e) && s.files.selection.Some?
    ensures Apply(s, e).files.selection == s.files.selection
    ensures Answer(s).Some? && !LosesPrefix(s, e) ==> Answer(Apply(s, e)) == Answer(s)
    ensures LosesPrefix(s, e) ==> Answer(s).Some? && Answer(s).value.Retained? && Answer(Apply(s, e)).None?
    ensures Answer(s).None? && Answer(Apply(s, e)).Some? ==> Answer(Apply(s, e)).value.MissingOriginal?
  {
    StepPreserves(s, e);
    if e.Append? && s.files.selection.value.length.Some? {
      var n := s.files.selection.value.length.value;
      assert (s.log + e.chunk)[..n] == s.log[..n];
    }
  }

  /** Losing the log changes the answer exactly while the selected prefix is only in the log. */
  lemma LossMatters(s: State, provably: bool)
    requires Inv(s) && s.files.selection.Some? && Enabled(s, LoseLog(provably))
    ensures Answer(Apply(s, LoseLog(provably))) != Answer(s) <==>
              Recoverable(s) && !s.copy.Complete? && !Decided(s.files)
  {
    StepKeepsAnswer(s, LoseLog(provably));
  }

  /** Whatever is committed is the answer. */
  lemma PublishedIsAnswer(s: State)
    requires Inv(s) && s.files.bundle.Some?
    ensures Decided(s.files) && Answer(s).Some? && s.files.bundle.value == Final(s, Answer(s).value)
  {
  }

  /** Some loss between `i` and `j` took away a prefix that was only in the log. */
  ghost predicate PrefixLost(states: seq<State>, events: seq<Event>, i: nat, j: nat)
    requires Path(states, events) && i <= j < |states|
  {
    exists k {:trigger events[k]} :: i <= k < j && LosesPrefix(states[k], events[k])
  }

  lemma {:induction false} AnswerAlong(states: seq<State>, events: seq<Event>, i: nat, j: nat)
    requires Run(states, events) && i <= j < |states| && states[i].files.selection.Some?
    ensures states[j].files.selection == states[i].files.selection
    ensures Answer(states[i]).Some? && !PrefixLost(states, events, i, j) ==> Answer(states[j]) == Answer(states[i])
    ensures PrefixLost(states, events, i, j) ==> Answer(states[i]).Some? && Answer(states[i]).value.Retained?
    ensures Answer(states[i]).None? || PrefixLost(states, events, i, j) ==>
              Answer(states[j]).None? || Answer(states[j]).value.MissingOriginal?
    decreases j
  {
    if i < j {
      AnswerAlong(states, events, i, j - 1);
      RunKeepsInv(states, events, j - 1);
      StepKeepsAnswer(states[j - 1], events[j - 1]);
    }
  }

  /**
   * Retries converge. Where the answer is determined, by the retained output, by a recorded loss or
   * by a prefix that can still be copied, every later recovery of the run gives the same answer
   * exactly when no loss of the log in between took away a prefix that was only there. Where it is
   * not, or was taken away, only a recorded loss can become the answer, and from that record on it
   * is determined.
   */
  lemma RetriesConverge(states: seq<State>, events: seq<Event>, i: nat, j: nat)
    requires Run(states, events) && i <= j < |states| && states[i].files.selection.Some?
    ensures states[j].files.selection == states[i].files.selection
    ensures Answer(states[i]).Some? ==>
              (Answer(states[j]) == Answer(states[i]) <==> !PrefixLost(states, events, i, j))
    ensures Answer(states[i]).None? || PrefixLost(states, events, i, j) ==>
              Answer(states[j]).None? || Answer(states[j]).value.MissingOriginal?
    ensures states[j].files.bundle.Some? ==>
              Answer(states[j]).Some? && states[j].files.bundle.value == Final(states[j], Answer(states[j]).value)
    ensures states[j].files.outcome.Some? ==>
              states[j].files.outcome.value == states[i].files.selection.value.staged.outcome
    ensures states[j].files.snapshot.Some? && Answer(states[i]).Some? ==>
              (states[j].files.snapshot.value == Final(states[i], Answer(states[i]).value).snapshot
               <==> !PrefixLost(states, events, i, j))
  {
    AnswerAlong(states, events, i, j);
    RunKeepsInv(states, events, j);
    if states[j].files.bundle.Some? {
      PublishedIsAnswer(states[j]);
    }
  }

  /** Everything published is the bundle of the answer, its outcome the selected one, and it never changes. */
  lemma PublishedForGood(states: seq<State>, events: seq<Event>, i: nat, j: nat)
    requires Run(states, events) && i <= j < |states| && states[i].files.bundle.Some?
    ensures states[i].files.selection.Some? && Answer(states[i]).Some? && !PrefixLost(states, events, i, j)
    ensures states[j].files.bundle == states[i].files.bundle == Some(Final(states[i], Answer(states[i]).value))
    ensures states[j].files.outcome.Some? ==> states[j].files.outcome.value == states[i].files.bundle.value.outcome
    ensures states[j].files.snapshot.Some? ==> states[j].files.snapshot.value == states[i].files.bundle.value.snapshot
  {
    RunKeepsInv(states, events, i);
    RunKeepsInv(states, events, j);
    RunGrows(states, events, i, j);
    PublishedIsAnswer(states[i]);
    PublishedIsAnswer(states[j]);
    AnswerAlong(states, events, i, j);
  }

  // ---------------------------------------------------------------- recovery

  /**
   * Recovery answers "pending": nothing is decided, the prefix cannot be copied, and the loss cannot
   * be attested, because the managed directory does not prove it or the original observer still exists.
   */
  predicate Pending(s: State) {
    s.files.selection.Some? && !Decided(s.files) && !Recoverable(s) && !MayAttest(s)
  }

  /** Outside help: the original observer ends, or storage is changed so that the loss becomes provable. */
  predicate Unblocks(s: State, e: Event) {
    || (s.files.selection.Some? && e == Lose(s.files.selection.value.staged.outcome.event.observer))
    || e.RemovePin? || e == LoseLog(true)
  }

  lemma StepKeepsPending(s: State, e: Event)
    requires Inv(s) && Pending(s) && Enabled(s, e) && !Unblocks(s, e)
    ensures Pending(Apply(s, e))
  {
  }

  /** While a handle is pending and nobody helps from outside, no recovery and no observer ever publishes. */
  lemma {:induction false} PendingStays(states: seq<State>, events: seq<Event>, i: nat, j: nat)
    requires Run(states, events) && i <= j < |states| && Pending(states[i])
    requires forall k {:trigger events[k]} :: i <= k < j ==> !Unblocks(states[k], events[k])
    ensures Pending(states[j])
    ensures var f := states[j].files; f.bundle.None? && f.outcome.None? && f.snapshot.None?
    decreases j
  {
    RunKeepsInv(states, events, j);
    if i < j {
      PendingStays(states, events, i, j - 1);
      RunKeepsInv(states, events, j - 1);
      assert !Unblocks(states[j - 1], events[j - 1]);
      StepKeepsPending(states[j - 1], events[j - 1]);
    }
  }

  /** The loss is not provable, whoever is gone: an orphaned pin, an unvalidated copy or an ambiguous loss. */
  predicate Stuck(s: State) {
    s.files.selection.Some? && !Decided(s.files) && !Recoverable(s) && !LossProven(s)
  }

  lemma StepKeepsStuck(s: State, e: Event)
    requires Inv(s) && Stuck(s) && Enabled(s, e) && !e.RemovePin? && e != LoseLog(true)
    ensures Stuck(Apply(s, e))
  {
  }

  /** A stuck handle stays stuck after every process of the program is gone: nothing in it removes the obstacle. */
  lemma {:induction false} StuckForGood(states: seq<State>, events: seq<Event>, i: nat, j: nat)
    requires Run(states, events) && i <= j < |states| && Stuck(states[i])
    requires forall k {:trigger events[k]} :: i <= k < j ==> !events[k].RemovePin? && events[k] != LoseLog(true)
    ensures Stuck(states[j])
    ensures var f := states[j].files; f.bundle.None? && f.outcome.None? && f.snapshot.None?
    decreases j
  {
    RunKeepsInv(states, events, j);
    if i < j {
      StuckForGood(states, events, i, j - 1);
      RunKeepsInv(states, events, j - 1);
      assert !events[j - 1].RemovePin? && events[j - 1] != LoseLog(true);
      StepKeepsStuck(states[j - 1], events[j - 1]);
    }
  }

  function Last(states: seq<State>): State
    requires states != []
  {
    states[|states| - 1]
  }

  lemma Take(states: seq<State>, events: seq<Event>, e: Event) returns (states': seq<State>, events': seq<Event>)
    requires Path(states, events) && Enabled(Last(states), e)
    ensures Path(states', events') && Last(states') == Apply(Last(states), e) && states'[0] == states[0]
    ensures events' == events + [e]
  {
    states', events' := states + [Apply(Last(states), e)], events + [e];
    forall k | 0 <= k < |events'|
      ensures Enabled(states'[k], events'[k]) && states'[k + 1] == Apply(states'[k], events'[k])
    {
      if k < |events| {
        assert states'[k] == states[k] && states'[k + 1] == states[k + 1] && events'[k] == events[k];
      }
    }
  }

  /** What one recovery `i` publishes from here: the answer, or a loss it attests itself. */
  function Verdict(s: State, i: nat): Descriptor {
    if Answer(s).Some? then Answer(s).value else MissingOriginal(i)
  }

  /** What reconcile does: begin or begin again, probe, restore, freeze or attest, hash, commit and publish. */
  predicate RecoveryStep(e: Event, i: nat) {
    || e == Begin(i, None) || e == Again(i, None) || e == Probe(i) || e == Restore(i)
    || e == Freeze(i) || e == AttestMissing(i) || e == Hash(i)
    || e == Commit(i) || e == PutOutcome(i) || e == PutSnapshot(i)
  }

  predicate OnlyBy(events: seq<Event>, i: nat) {
    forall k :: 0 <= k < |events| ==> RecoveryStep(events[k], i)
  }

  /** A path of steps of one recovery, keeping the invariant, the answer and the selection. */
  ghost predicate Recovery(states: seq<State>, events: seq<Event>, s: State, i: nat) {
    && Path(states, events) && states[0] == s && OnlyBy(events, i)
    && Inv(Last(states)) && s.files.selection.Some? && Last(states).files.selection == s.files.selection
    && !Pending(Last(states)) && Verdict(Last(states), i) == Verdict(s, i)
  }

  lemma Proceed(states: seq<State>, events: seq<Event>, s: State, i: nat, e: Event)
    returns (states': seq<State>, events': seq<Event>)
    requires Recovery(states, events, s, i) && Enabled(Last(states), e) && RecoveryStep(e, i)
    ensures Recovery(states', events', s, i) && Last(states') == Apply(Last(states), e)
  {
    states', events' := Take(states, events, e);
    StepPreserves(Last(states), e);
    StepKeepsAnswer(Last(states), e);
    OwnStepKeepsVerdict(Last(states), e, i);
  }

  /** A recovery's own steps neither make the handle pending nor change what it publishes. */
  lemma OwnStepKeepsVerdict(s: State, e: Event, i: nat)
    requires Inv(s) && Enabled(s, e) && s.files.selection.Some? && !Pending(s) && RecoveryStep(e, i)
    ensures !Pending(Apply(s, e)) && Verdict(Apply(s, e), i) == Verdict(s, i)
  {
  }

  /** A recovery that can freeze and hash the output, or attest its loss, comes to hold a descriptor. */
  lemma DescriptorIsFound(states: seq<State>, events: seq<Event>, s: State, i: nat)
    returns (states': seq<State>, events': seq<Event>)
    requires Recovery(states, events, s, i) && At(Last(states), i, Capturing) && Last(states).actors[i].sees.None?
    ensures Recovery(states', events', s, i) && i in Last(states').actors && Last(states').actors[i].pc.Bundling?
  {
    if Last(states).files.output.Some? || CanFreeze(Last(states)) {
      states', events' := Proceed(states, events, s, i, Freeze(i));
      states', events' := Proceed(states', events', s, i, Hash(i));
    } else {
      states', events' := Proceed(states, events, s, i, AttestMissing(i));
    }
  }

  lemma CaptureCompletes(states: seq<State>, events: seq<Event>, s: State, i: nat)
    returns (states': seq<State>, events': seq<Event>)
    requires Recovery(states, events, s, i) && At(Last(states), i, Capturing) && Last(states).actors[i].sees.None?
    ensures Recovery(states', events', s, i) && At(Last(states'), i, Publishing)
  {
    states', events' := DescriptorIsFound(states, events, s, i);
    assert ActorOk(Last(states'), i);
    PublicationStep(Last(states'), Commit(i));
    states', events' := Proceed(states', events', s, i, Commit(i));
  }

  lemma PublicationCompletes(states: seq<State>, events: seq<Event>, s: State, i: nat)
    returns (states': seq<State>, events': seq<Event>)
    requires Recovery(states, events, s, i) && At(Last(states), i, Publishing)
    ensures Recovery(states', events', s, i) && Last(states').files.snapshot.Some?
  {
    assert ActorOk(Last(states), i);
    PublicationStep(Last(states), PutOutcome(i));
    states', events' := Proceed(states, events, s, i, PutOutcome(i));
    assert ActorOk(Last(states'), i);
    PublicationStep(Last(states'), PutSnapshot(i));
    states', events' := Proceed(states', events', s, i, PutSnapshot(i));
    assert ActorOk(Last(states'), i);
  }

  /** From exactly the states that are not pending, one undisturbed recovery, new or repeated, publishes both halves. */
  lemma RecoveryCompletes(s: State, i: nat) returns (states: seq<State>, events: seq<Event>)
    requires Inv(s) && s.files.selection.Some? && !Pending(s)
    requires i >= s.next || At(s, i, Stopped) || At(s, i, Finished)
    ensures Recovery(states, events, s, i)
    ensures Last(states).files.outcome == Some(Final(s, Verdict(s, i)).outcome)
    ensures Last(states).files.snapshot == Some(Final(s, Verdict(s, i)).snapshot)
  {
    states, events := [s], [];
    states, events := Proceed(states, events, s, i, if i >= s.next then Begin(i, None) else Again(i, None));
    states, events := Proceed(states, events, s, i, Probe(i));
    if At(Last(states), i, Restoring) {
      states, events := Proceed(states, events, s, i, Restore(i));
    }
    if At(Last(states), i, Capturing) {
      states, events := CaptureCompletes(states, events, s, i);
    }
    states, events := PublicationCompletes(states, events, s, i);
    PublishedIsAnswer(Last(states));
  }

  // ---------------------------------------------------------------- stuck handles occur

  function Seen(observer: nat): Observation {
    Observation(observer, Exit, Some(0), 0, true, true, true)
  }

  /** An observer on its way to the pin. */
  lemma ObserverArrives(states: seq<State>, events: seq<Event>, i: nat)
    returns (states': seq<State>, events': seq<Event>)
    requires Path(states, events) && i >= Last(states).next
    requires var f := Last(states).files; f.selection.None? && f.observation.None? && f.bundle.None?
    ensures Path(states', events') && states'[0] == states[0]
    ensures var s := Last(states);
      Last(states') == s.(actors := s.actors[i := Actor(Some(Seen(i)), Pinning)], next := i + 1)
  {
    states', events' := Take(states, events, Begin(i, Some(Seen(i))));
    states', events' := Take(states', events', Probe(i));
    assert Last(states).actors[i := Actor(Some(Seen(i)), Starting)][i := Actor(Some(Seen(i)), Pinning)]
        == Last(states).actors[i := Actor(Some(Seen(i)), Pinning)];
  }

  /**
   * One crash between pin and selection orphans the pin, and the next observer commits a selection without a
   * length.
   */
  lemma OrphanedPinIsReachable() returns (states: seq<State>, events: seq<Event>)
    ensures Run(states, events) && Stuck(Last(states)) && ObserverGone(Last(states))
  {
    states, events := [State(Files(false, None, None, None, None, None, None, None), [], Intact, NoCopy, map[], 0)], [];
    states, events := ObserverArrives(states, events, 0);
    states, events := Take(states, events, Pin(0));
    states, events := Take(states, events, Lose(0));
    states, events := ObserverArrives(states, events, 1);
    states, events := UnpinnedIsSelected(states, events, Pin(1), 1);
  }

  /** So does a pin that is linked and then not synced, without any crash. */
  lemma FailedPinIsReachable() returns (states: seq<State>, events: seq<Event>)
    ensures Run(states, events) && Stuck(Last(states)) && ObserverGone(Last(states))
  {
    states, events := [State(Files(false, None, None, None, None, None, None, None), [], Intact, NoCopy, map[], 0)], [];
    states, events := ObserverArrives(states, events, 0);
    states, events := UnpinnedIsSelected(states, events, PinFails(0, true), 0);
  }

  lemma UnpinnedIsSelected(states: seq<State>, events: seq<Event>, e: Event, i: nat)
    returns (states': seq<State>, events': seq<Event>)
    requires Path(states, events) && At(Last(states), i, Pinning) && Last(states).actors[i].sees == Some(Seen(i))
    requires Enabled(Last(states), e)
    requires (e == Pin(i) && Last(states).files.pinned) || e == PinFails(i, true)
    requires var f := Last(states).files; f.selection.None? && !Decided(f)
    ensures Path(states', events') && states'[0] == states[0] && Stuck(Last(states')) && ObserverGone(Last(states'))
  {
    states', events' := Take(states, events, e);
    states', events' := Take(states', events', Select(i));
    states', events' := Take(states', events', Lose(i));
  }
}
