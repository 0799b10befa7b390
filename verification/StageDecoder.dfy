/**
 * The decoder of a root's stage lines (src/root_v1.rs:241-548): it reads events in whatever order
 * they come and says what they establish. The loop's flags and buffers are one record, each line is
 * one step, and the verdict is proved to match a grammar of whole transcripts. JSON text is already
 * parsed; the digest is any function of the bytes.
 */
module StageDecoder {
  import opened Base64
  import opened Options
  import Utf8
  import WaitStatus

  const OUTPUT_PREFIX_BYTES: nat := 64 * 1024

  /** A JSON value as far as the decoder looks; an absent field is Null, and what it never inspects is Opaque. */
  datatype Json = Null | Bool(b: bool) | Number(n: int) | Text(s: string) | Opaque(id: nat)

  function AsU64(j: Json): Option<nat> {
    if j.Number? && 0 <= j.n < 0x1_0000_0000_0000_0000 then Some(j.n) else None
  }

  /** The parts of a record's identity, when that field parses. */
  datatype Identity = Identity(root: string, work: int, bytes: nat, sha: string)

  datatype Retained =
    | Absent
    | Record(identity: Option<Identity>, root: Json, work: Json, bytes: Json, sha: Json, received: Json,
             state: Json, losses: bool)

  datatype Acceptance = Acceptance(durable: Json, root: Json, work: Json)

  datatype Closure = Closure(state: Json, bytes: Json)

  /** A stage line, by its `event` name. */
  datatype Event =
    | Output(b64: Option<seq<Byte>>)
    | Refused(reason: Json)
    | Accepted(acceptance: Acceptance)
    | Started(execError: Json)
    | OutputClosed(count: Json)
    | OutputFailed
    | End(status: string, observer: string, closure: Closure, retained: Retained)
    | LaunchFailed(notStarted: Json, retained: Retained)
    | LaunchUnknown(retained: Retained)
    | EndUnknown(retained: Retained)
    | LeftToSuccessor(retained: Retained)
    | Unnamed(name: string)

  datatype Line = Unreadable | Unparseable | Parsed(event: Event)

  datatype Fault =
    | ReadFailed | UnparseableLine | OutputBeforeStarted | InvalidBase64 | OutputAfterClosure
    | ExecErrorWithoutAcceptance | ExecErrorInvalid | CountMismatch | OwnerOutputFailed | UnexpectedStage
    | RetainedMismatch | NoFinalStage | NoUsableWaitStatus | OutputNotClosed | EndOutputMismatch

  // ---------------------------------------------------------------- one line

  datatype Stage = OutputStage(chunks: nat, bytes: nat) | EventStage(event: Event)

  datatype Halt = Going | Stopped | RefusedBy(reason: Json)

  /** What was received: the presented prefix, the count, and what the stream digest has absorbed. */
  datatype Received = Received(output: seq<Byte>, bytes: nat, hashed: seq<Byte>)

  datatype Log = Log(stages: seq<Stage>, outputStage: Option<nat>, chunks: nat)

  datatype Blamed = Blamed(faults: seq<Fault>, outputFault: bool, orderFault: bool)

  /** The decoder's variables. */
  datatype Run = Run(log: Log, got: Received, blame: Blamed, accepted: bool, started: bool, execError: Option<string>,
                     closed: bool, terminal: Option<Event>, halt: Halt)

  const START: Run :=
    Run(Log([], None, 0), Received([], 0, []), Blamed([], false, false), false, false, None, false, None, Going)

  function Blame(s: Run, f: Fault): Run {
    s.(blame := s.blame.(faults := s.blame.faults + [f]))
  }

  /** A stage out of order makes the outcome unknown. */
  function OutOfOrder(s: Run, f: Fault): Run {
    s.(blame := Blamed(s.blame.faults + [f], s.blame.outputFault, true))
  }

  /** An output fault leaves the output unproven. */
  function Unproven(s: Run, f: Fault): Run {
    s.(blame := Blamed(s.blame.faults + [f], true, s.blame.orderFault))
  }

  function AcceptanceOf(stages: seq<Stage>): Acceptance {
    if stages != [] && stages[0].EventStage? && stages[0].event.Accepted? then stages[0].event.acceptance
    else Acceptance(Null, Null, Null)
  }

  predicate UsableAcceptance(a: Acceptance) {
    && a.durable == Bool(true) && a.root.Text? && a.root.s != ""
    && a.work.Number? && 0 < a.work.n < 0x8000_0000_0000_0000
  }

  datatype ExecError = ExecOk(error: Option<string>) | ExecFault(fault: Fault)

  /** Missing or null is not a positive failure, and only a usable acceptance makes an error one. */
  function StartedExecError(e: Json, a: Acceptance): ExecError {
    if e == Null then ExecOk(None)
    else if e.Text? && e.s != "" then
      if UsableAcceptance(a) then ExecOk(Some(e.s)) else ExecFault(ExecErrorWithoutAcceptance)
    else ExecFault(ExecErrorInvalid)
  }

  /** Keep what of a chunk still fits the presented prefix; count and digest all of it. */
  function Receive(g: Received, chunk: seq<Byte>): Received {
    var room := if |g.output| <= OUTPUT_PREFIX_BYTES then OUTPUT_PREFIX_BYTES - |g.output| else 0;
    var keep := if |chunk| < room then |chunk| else room;
    Received(g.output + chunk[..keep], g.bytes + |chunk|, g.hashed + chunk)
  }

  function Chunk(b64: Option<seq<Byte>>): Option<seq<Byte>> {
    if b64.None? then None else Base64.Decode(b64.value)
  }

  function OnOutput(s: Run, b64: Option<seq<Byte>>): Run {
    var chunk := Chunk(b64);
    var t := if !s.started then OutOfOrder(s, OutputBeforeStarted)
             else if chunk.None? then Unproven(s, InvalidBase64)
             else if s.closed then Unproven(s, OutputAfterClosure)
             else s.(got := Receive(s.got, chunk.value));
    t.(log := Counted(t.log, t.got.bytes))
  }

  /** Output lines share one summary stage, made by the first of them. */
  function Counted(l: Log, bytes: nat): Log {
    var at := if l.outputStage.Some? then l.outputStage.value else |l.stages|;
    var summary := OutputStage(l.chunks + 1, bytes);
    Log(if at < |l.stages| then l.stages[at := summary] else l.stages + [summary], Some(at), l.chunks + 1)
  }

  predicate TerminalLooking(e: Event) {
    e.Refused? || e.End? || e.EndUnknown? || e.LaunchFailed? || e.LaunchUnknown? || e.LeftToSuccessor?
  }

  function OnStage(was: Run, e: Event): Run
    requires !e.Output?
  {
    var s := was.(log := was.log.(stages := was.log.stages + [EventStage(e)]));
    if e.Refused? && |s.log.stages| == 1 then s.(halt := RefusedBy(e.reason))
    else if e.Accepted? && |s.log.stages| == 1 then s.(accepted := true)
    else if e.Started? && s.accepted && !s.started then OnStarted(s.(started := true), e.execError)
    else if e.OutputClosed? && s.started && !s.closed then OnClosed(s.(closed := true), e.count)
    else if e.OutputFailed? && s.started then Unproven(s, OwnerOutputFailed)
    else if e.End? && s.started then s.(terminal := Some(e), halt := Stopped)
    else if (e.LaunchFailed? || e.LaunchUnknown?) && s.accepted && !s.started then
      s.(terminal := Some(e), halt := Stopped)
    else if (e.EndUnknown? || e.LeftToSuccessor?) && s.accepted then s.(terminal := Some(e), halt := Stopped)
    else OutOfOrder(s, UnexpectedStage).(halt := if TerminalLooking(e) then Stopped else Going)
  }

  function OnStarted(s: Run, execError: Json): Run {
    match StartedExecError(execError, AcceptanceOf(s.log.stages))
    case ExecOk(error) => s.(execError := error)
    case ExecFault(fault) => OutOfOrder(s, fault)
  }

  function OnClosed(s: Run, count: Json): Run {
    if AsU64(count) != Some(s.got.bytes) then Unproven(s, CountMismatch) else s
  }

  function Step(s: Run, line: Line): Run
    requires s.halt == Going
  {
    match line
    case Unreadable => Blame(s, ReadFailed).(halt := Stopped)
    case Unparseable => OutOfOrder(s, UnparseableLine).(halt := Stopped)
    case Parsed(e) => if e.Output? then OnOutput(s, e.b64) else OnStage(s, e)
  }

  function Fold(s: Run, lines: seq<Line>): Run
    decreases |lines|
  {
    if s.halt != Going || lines == [] then s else Fold(Step(s, lines[0]), lines[1..])
  }

  // ---------------------------------------------------------------- the verdict

  predicate ValidRecord(r: Retained) {
    && r.Record? && r.identity.Some?
    && r.root == Text(r.identity.value.root) && r.work == Number(r.identity.value.work)
    && r.bytes == Number(r.identity.value.bytes) && r.sha == Text(r.identity.value.sha)
    && (r.state == Text("complete") || r.state == Text("partial")) && r.losses
  }

  /** A retained record must be well formed, name this work, and, if complete, be this very stream. */
  predicate RetainedAgrees(r: Retained, a: Acceptance, received: seq<Byte>, hash: seq<Byte> -> string) {
    || r.Absent? || r.state == Text("unsealed")
    || (&& ValidRecord(r) && a.work == r.work && a.root == r.root
        && (r.state == Text("complete") ==>
              AsU64(r.received) == Some(|received|) && AsU64(r.bytes) == Some(|received|)
                  && r.sha == Text(hash(received))))
  }

  datatype Remainder = NoRemainder | RetainedByOwner | PartialOwnerRetention | Discarded

  datatype Delivery = NothingDelivered | UnprovenDelivery | PartialDelivery | CompleteDelivery

  datatype Presentation = Presentation(bytes: nat, presented: nat, omitted: int, remainder: Remainder,
      payload: seq<Byte>)

  datatype Meaning = PossibleEffectUnknown | AcceptedEndUnknown | EndedStatusUnknown | LeftToSuccessorMeaning

  datatype Outcome =
    | RefusedOutcome(reason: Json) | NotStarted | Ended | EndedOutputUnproven | Unknown(meaning: Meaning)

  datatype Verdict = Verdict(outcome: Outcome, effectsPossible: bool, retrySafe: bool, execError: Option<string>,
                             wait: Option<WaitStatus.Wait>, delivery: Delivery, output: Option<Presentation>,
                             faults: seq<Fault>)

  /** A truncated payload also drops a last character it would cut in two. */
  function Payload(g: Received): seq<Byte> {
    var scan := Utf8.Check(g.output);
    if g.bytes > |g.output| && scan.ValidUpTo? && scan.unfinished && scan.at <= |g.output| then g.output[..scan.at]
    else g.output
  }

  function TerminalRetained(s: Run): Retained {
    match s.terminal
    case Some(End(_, _, _, r)) => r
    case Some(LaunchFailed(_, r)) => r
    case Some(LaunchUnknown(r)) => r
    case Some(EndUnknown(r)) => r
    case Some(LeftToSuccessor(r)) => r
    case _ => Absent
  }

  function Presented(s: Run, trusted: bool): Presentation {
    var payload := Payload(s.got);
    var state := if trusted && TerminalRetained(s).Record? then TerminalRetained(s).state else Null;
    Presentation(s.got.bytes, |payload|, s.got.bytes - |payload|,
                 if s.got.bytes == |payload| then NoRemainder
                 else if state == Text("complete") then RetainedByOwner
                 else if state == Text("partial") then PartialOwnerRetention
                 else Discarded,
                 payload)
  }

  function UnknownVerdict(s: Run, trusted: bool, meaning: Meaning, faults: seq<Fault>): Verdict {
    Verdict(Unknown(meaning), true, false, s.execError, None, UnprovenDelivery, Some(Presented(s, trusted)), faults)
  }

  function Finish(s: Run, hash: seq<Byte> -> string): Verdict {
    var trusted := RetainedAgrees(TerminalRetained(s), AcceptanceOf(s.log.stages), s.got.hashed, hash);
    var faults := if trusted then s.blame.faults else s.blame.faults + [RetainedMismatch];
    if s.terminal.None? || s.blame.orderFault then
      UnknownVerdict(s, trusted, if s.accepted then AcceptedEndUnknown else PossibleEffectUnknown,
                     if s.blame.orderFault then faults else faults + [NoFinalStage])
    else match s.terminal.value
      case End(status, observer, closure, _) =>
        var wait := WaitStatus.Parse(status);
        if wait.None? || observer != "work-pid1-wait" then
          UnknownVerdict(s, trusted, EndedStatusUnknown, faults + [NoUsableWaitStatus])
        else
          var open := if s.closed then [] else [OutputNotClosed];
          var differs := if closure.state != Text("closed")
              || AsU64(closure.bytes) != Some(s.got.bytes) then [EndOutputMismatch] else [];
          var all := faults + open + differs;
          var complete := !s.blame.outputFault && all == [];
          var p := Presented(s, trusted);
          Verdict(if complete then Ended else EndedOutputUnproven, true, false, s.execError, wait,
                  if !complete then UnprovenDelivery else if p.omitted > 0 then PartialDelivery else CompleteDelivery,
                  Some(p), all)
      case LaunchFailed(notStarted, _) =>
        if notStarted == Bool(true) then Verdict(NotStarted, false, true, None, None, NothingDelivered, None, faults)
        else UnknownVerdict(s, trusted, PossibleEffectUnknown, faults)
      case LaunchUnknown(_) => UnknownVerdict(s, trusted, PossibleEffectUnknown, faults)
      case LeftToSuccessor(_) => UnknownVerdict(s, trusted, LeftToSuccessorMeaning, faults)
      case _ => UnknownVerdict(s, trusted, AcceptedEndUnknown, faults)
  }

  function Decision(lines: seq<Line>, hash: seq<Byte> -> string): Verdict {
    var s := Fold(START, lines);
    if s.halt.RefusedBy? then Verdict(RefusedOutcome(s.halt.reason), false, true, None, None, NothingDelivered,
        None, [])
    else Finish(s, hash)
  }

  /** decode, as the loop it is: read lines until a stage ends the reply. */
  method DecodeLines(lines: seq<Line>, hash: seq<Byte> -> string) returns (v: Verdict)
    ensures v == Decision(lines, hash)
  {
    var s := START;
    var i := 0;
    assert lines[0..] == lines;
    while i < |lines| && s.halt == Going
      invariant i <= |lines| && Fold(s, lines[i..]) == Fold(START, lines)
    {
      assert lines[i..][1..] == lines[i + 1..];
      s := Step(s, lines[i]);
      i := i + 1;
    }
    if s.halt.RefusedBy? {
      return Verdict(RefusedOutcome(s.halt.reason), false, true, None, None, NothingDelivered, None, []);
    }
    v := Finish(s, hash);
  }

  // ---------------------------------------------------------------- conservation

  /** What is presented is a prefix of what was received, and nothing received is uncounted. */
  predicate Accounts(g: Received) {
    && g.bytes == |g.hashed|
    && g.output == g.hashed[..if |g.hashed| < OUTPUT_PREFIX_BYTES then |g.hashed| else OUTPUT_PREFIX_BYTES]
  }

  lemma ReceiveAccounts(g: Received, chunk: seq<Byte>)
    requires Accounts(g)
    ensures Accounts(Receive(g, chunk))
  {
    var all := g.hashed + chunk;
    if |g.hashed| >= OUTPUT_PREFIX_BYTES {
      assert all[..OUTPUT_PREFIX_BYTES] == g.hashed[..OUTPUT_PREFIX_BYTES];
    } else {
      assert g.output == g.hashed;
      var n := if |all| < OUTPUT_PREFIX_BYTES then |all| else OUTPUT_PREFIX_BYTES;
      assert all[..n] == g.hashed + chunk[..n - |g.hashed|];
    }
  }

  /** Only an output line touches the received bytes. */
  lemma StagesReceiveNothing(s: Run, e: Event)
    requires !e.Output?
    ensures OnStage(s, e).got == s.got
  {
  }

  lemma StepAccounts(s: Run, line: Line)
    requires s.halt == Going && Accounts(s.got)
    ensures Accounts(Step(s, line).got)
  {
    if line.Parsed? {
      if !line.event.Output? {
        StagesReceiveNothing(s, line.event);
      } else if Chunk(line.event.b64).Some? {
        ReceiveAccounts(s.got, Chunk(line.event.b64).value);
      }
    }
  }

  lemma {:induction false} FoldAccounts(s: Run, lines: seq<Line>)
    requires Accounts(s.got)
    ensures Accounts(Fold(s, lines).got)
    decreases |lines|
  {
    if s.halt == Going && lines != [] {
      StepAccounts(s, lines[0]);
      FoldAccounts(Step(s, lines[0]), lines[1..]);
    }
  }

  // ---------------------------------------------------------------- what counts as received

  /** A line after which nothing is read. */
  predicate Ends(line: Line) {
    !line.Parsed? || TerminalLooking(line.event)
  }

  predicate ReadUpTo(lines: seq<Line>, i: nat)
    requires i <= |lines|
  {
    forall j :: 0 <= j < i ==> !Ends(lines[j])
  }

  predicate AcceptedFirst(lines: seq<Line>) {
    lines != [] && lines[0].Parsed? && lines[0].event.Accepted?
  }

  predicate IsStart(line: Line) {
    line.Parsed? && line.event.Started?
  }

  predicate IsClosing(line: Line) {
    line.Parsed? && line.event.OutputClosed?
  }

  /** The first line accepted and a later one before `i` started the work. */
  predicate StartedBy(lines: seq<Line>, i: nat)
    requires i <= |lines|
  {
    AcceptedFirst(lines) && exists j :: 0 < j < i && IsStart(lines[j])
  }

  predicate ClosedBy(lines: seq<Line>, i: nat)
    requires i <= |lines|
  {
    exists j :: 0 <= j < i && IsClosing(lines[j]) && StartedBy(lines, j)
  }

  /** The valid output among the first `i` lines: chunks that were read, after the start and before the closure. */
  function ReceivedBy(lines: seq<Line>, i: nat): seq<Byte>
    requires i <= |lines|
  {
    if i == 0 then []
    else if Heard(lines, i - 1) then ReceivedBy(lines, i - 1) + Chunk(lines[i - 1].event.b64).value
    else ReceivedBy(lines, i - 1)
  }

  predicate Heard(lines: seq<Line>, i: nat)
    requires i < |lines|
  {
    ReadUpTo(lines, i) && StartedBy(lines, i) && !ClosedBy(lines, i) && IsChunk(lines[i])
  }

  /** The decoder's flags say exactly this of the lines before `i`. */
  predicate Tracks(s: Run, lines: seq<Line>, i: nat)
    requires i <= |lines|
  {
    && (s.halt == Going <==> ReadUpTo(lines, i))
    && (s.halt == Going ==>
          && (s.log.stages == [] <==> i == 0)
          && (s.accepted <==> i > 0 && AcceptedFirst(lines))
          && (s.started <==> StartedBy(lines, i)) && (s.closed <==> ClosedBy(lines, i)))
    && s.got.hashed == ReceivedBy(lines, i)
  }

  lemma OneMoreLine(lines: seq<Line>, i: nat)
    requires i < |lines|
    ensures ReadUpTo(lines, i + 1) <==> ReadUpTo(lines, i) && !Ends(lines[i])
    ensures StartedBy(lines, i + 1) <==> StartedBy(lines, i) || (AcceptedFirst(lines) && i > 0 && IsStart(lines[i]))
    ensures ClosedBy(lines, i + 1) <==> ClosedBy(lines, i) || (IsClosing(lines[i]) && StartedBy(lines, i))
  {
  }

  lemma StepTracks(s: Run, lines: seq<Line>, i: nat)
    requires i < |lines| && Tracks(s, lines, i) && s.halt == Going
    ensures Tracks(Step(s, lines[i]), lines, i + 1)
  {
    OneMoreLine(lines, i);
    if lines[i].Parsed? && !lines[i].event.Output? {
      StagesReceiveNothing(s, lines[i].event);
    }
  }

  lemma {:induction false} NothingHeardLater(lines: seq<Line>, i: nat, n: nat)
    requires i <= n <= |lines| && !ReadUpTo(lines, i)
    ensures ReceivedBy(lines, n) == ReceivedBy(lines, i)
  {
    if i < n {
      NothingHeardLater(lines, i, n - 1);
    }
  }

  lemma {:induction false} FoldTracks(s: Run, lines: seq<Line>, i: nat)
    requires i <= |lines| && Tracks(s, lines, i)
    ensures Fold(s, lines[i..]).got.hashed == ReceivedBy(lines, |lines|)
    decreases |lines| - i
  {
    if s.halt != Going {
      NothingHeardLater(lines, i, |lines|);
    } else if i < |lines| {
      StepTracks(s, lines, i);
      assert lines[i..][1..] == lines[i + 1..];
      FoldTracks(Step(s, lines[i]), lines, i + 1);
    }
  }

  /** What the decoder counts and digests is exactly the valid output of the transcript. */
  lemma CountsTheValidOutput(lines: seq<Line>)
    ensures Fold(START, lines).got.hashed == ReceivedBy(lines, |lines|)
  {
    assert lines[0..] == lines;
    FoldTracks(START, lines, 0);
  }

  lemma FinishShows(s: Run, hash: seq<Byte> -> string)
    ensures var v := Finish(s, hash);
            v.output.Some? ==>
              && v.output.value.payload == Payload(s.got) && v.output.value.presented == |Payload(s.got)|
              && v.output.value.bytes == s.got.bytes && v.output.value.omitted == s.got.bytes - |Payload(s.got)|
    ensures var v := Finish(s, hash);
            v.outcome == Ended ==>
              v.output.Some? && v.delivery == if v.output.value.omitted > 0 then PartialDelivery else CompleteDelivery
  {
  }

  lemma ShownIsPayload(lines: seq<Line>, hash: seq<Byte> -> string)
    ensures var v := Decision(lines, hash);
            var g := Fold(START, lines).got;
            v.output.Some? ==>
              && v.output.value.payload == Payload(g) && v.output.value.presented == |Payload(g)|
              && v.output.value.bytes == g.bytes && v.output.value.omitted == g.bytes - |Payload(g)|
  {
    FinishShows(Fold(START, lines), hash);
  }

  /** For every transcript that reaches presentation: bytes add up, and the payload is a prefix of at most 64 KiB. */
  lemma PresentationIsExact(lines: seq<Line>, hash: seq<Byte> -> string)
    ensures var v := Decision(lines, hash);
            var received := ReceivedBy(lines, |lines|);
            v.output.Some? ==>
              && v.output.value.presented + v.output.value.omitted == v.output.value.bytes == |received|
              && v.output.value.omitted >= 0
              && |v.output.value.payload| == v.output.value.presented <= 65536
              && v.output.value.payload <= received
  {
    ShownIsPayload(lines, hash);
    CountsTheValidOutput(lines);
    FoldAccounts(START, lines);
  }

  /** A stream of text stays text when it is cut, and the cut costs at most three further bytes. */
  lemma ValidStreamStaysValid(lines: seq<Line>, hash: seq<Byte> -> string)
    requires Utf8.IsText(ReceivedBy(lines, |lines|))
    ensures var v := Decision(lines, hash);
            var received := ReceivedBy(lines, |lines|);
            v.output.Some? ==>
              && Utf8.IsText(v.output.value.payload)
              && (|received| <= 65536 ==> v.output.value.payload == received)
              && (|received| > 65536 ==> 65533 <= v.output.value.presented)
  {
    ShownIsPayload(lines, hash);
    CountsTheValidOutput(lines);
    FoldAccounts(START, lines);
    CutPayload(Fold(START, lines).got);
  }

  lemma CutPayload(g: Received)
    requires Accounts(g) && Utf8.IsText(g.hashed)
    ensures Utf8.IsText(Payload(g)) && |g.output| - 3 <= |Payload(g)|
    ensures |g.hashed| <= OUTPUT_PREFIX_BYTES ==> Payload(g) == g.hashed
  {
    Utf8.ValidExactly(g.hashed);
    Utf8.CutOfValid(g.hashed, |g.output|);
    Utf8.ValidPartIsValid(g.output);
    Utf8.ValidExactly(Payload(g));
    if |g.hashed| <= OUTPUT_PREFIX_BYTES {
      assert g.output == g.hashed;
    }
  }

  /** What the presented prefix consists of: `text` and the beginning of a character. */
  predicate CutsCharacter(prefix: seq<Byte>, text: seq<Utf8.Scalar>, rest: seq<Byte>) {
    prefix == Utf8.EncodeText(text) + rest && rest != []
  }

  /**
   * Whatever was received: a stream that fits is presented whole. Of a longer one the first 64 KiB are
   * presented, without a last character they would cut in two and with nothing else taken away.
   */
  lemma PayloadExactly(g: Received, text: seq<Utf8.Scalar>, rest: seq<Byte>)
    requires Accounts(g)
    ensures |g.hashed| <= OUTPUT_PREFIX_BYTES ==> Payload(g) == g.hashed
    ensures |g.hashed| > OUTPUT_PREFIX_BYTES && CutsCharacter(g.output, text, rest) && Utf8.BeginsCharacter(rest) ==>
              Payload(g) == Utf8.EncodeText(text)
    ensures Payload(g) != g.output ==>
              && |g.hashed| > OUTPUT_PREFIX_BYTES && Utf8.IsText(Payload(g))
              && Utf8.BeginsCharacter(g.output[|Payload(g)|..])
  {
    if |g.hashed| <= OUTPUT_PREFIX_BYTES {
      assert g.output == g.hashed;
    } else if CutsCharacter(g.output, text, rest) && Utf8.BeginsCharacter(rest) {
      Utf8.StopsInCharacter(text, rest);
    }
    Utf8.ScanExactly(g.output);
  }

  // ---------------------------------------------------------------- what every line keeps

  /** What the flags say about the stages seen. */
  predicate Consistent(s: Run) {
    && (s.accepted ==> s.log.stages != [] && s.log.stages[0].EventStage? && s.log.stages[0].event.Accepted?)
    && (s.started ==> s.accepted)
    && (s.closed ==> s.started)
    && (s.terminal.Some? ==> s.accepted && s.halt == Stopped)
    && (s.log.outputStage.Some? ==>
          && s.log.outputStage.value < |s.log.stages|
          && s.log.stages[s.log.outputStage.value] == OutputStage(s.log.chunks, s.got.bytes))
    && (s.log.outputStage.None? ==> s.log.chunks == 0)
  }

  lemma StageIsConsistent(s: Run, e: Event)
    requires s.halt == Going && Consistent(s) && !e.Output?
    ensures Consistent(OnStage(s, e))
  {
  }

  lemma StepIsConsistent(s: Run, line: Line)
    requires s.halt == Going && Consistent(s)
    ensures Consistent(Step(s, line))
  {
    if line.Parsed? {
      if !line.event.Output? {
        StageIsConsistent(s, line.event);
      }
    }
  }

  /** In every run a reply ends only after an acceptance that is the first stage, and output lines share one stage. */
  lemma {:induction false} RunIsConsistent(s: Run, lines: seq<Line>)
    requires Consistent(s)
    ensures Consistent(Fold(s, lines))
    decreases |lines|
  {
    if s.halt == Going && lines != [] {
      StepIsConsistent(s, lines[0]);
      RunIsConsistent(Step(s, lines[0]), lines[1..]);
    }
  }

  /** No fault of any kind so far. */
  predicate Clean(s: Run) {
    s.blame.faults == [] && !s.blame.orderFault && !s.blame.outputFault
  }

  lemma StepKeepsFaults(s: Run, line: Line)
    requires s.halt == Going
    ensures Clean(Step(s, line)) ==> Clean(s)
    ensures s.blame.orderFault ==> Step(s, line).blame.orderFault
  {
  }

  lemma {:induction false} FaultsStay(s: Run, lines: seq<Line>)
    ensures Clean(Fold(s, lines)) ==> Clean(s)
    ensures s.blame.orderFault ==> Fold(s, lines).blame.orderFault
    decreases |lines|
  {
    if s.halt == Going && lines != [] {
      StepKeepsFaults(s, lines[0]);
      FaultsStay(Step(s, lines[0]), lines[1..]);
    }
  }

  // ---------------------------------------------------------------- a grammar of transcripts

  /** An output line whose text is canonical base64. */
  predicate IsChunk(line: Line) {
    line.Parsed? && line.event.Output? && Chunk(line.event.b64).Some?
  }

  /** The bytes of a run of output lines. */
  function Content(lines: seq<Line>): seq<Byte>
    requires forall i :: 0 <= i < |lines| ==> IsChunk(lines[i])
  {
    if lines == [] then []
    else
      assert IsChunk(lines[0]);
      Chunk(lines[0].event.b64).value + Content(lines[1..])
  }

  /** An end observed by the work's own wait, agreeing with the received bytes in every count and digest. */
  predicate MatchingEnd(line: Line, a: Acceptance, received: seq<Byte>, hash: seq<Byte> -> string) {
    && line.Parsed? && line.event.End?
    && WaitStatus.Parse(line.event.status).Some? && line.event.observer == "work-pid1-wait"
    && line.event.closure.state == Text("closed") && AsU64(line.event.closure.bytes) == Some(|received|)
    && RetainedAgrees(line.event.retained, a, received, hash)
  }

  predicate IsClosure(line: Line, received: seq<Byte>) {
    line.Parsed? && line.event.OutputClosed? && AsU64(line.event.count) == Some(|received|)
  }

  /** `k` chunks, one closure with their exact count, one matching end, then anything. */
  predicate TailAt(lines: seq<Line>, k: nat, before: seq<Byte>, a: Acceptance, hash: seq<Byte> -> string) {
    && k + 1 < |lines| && (forall i :: 0 <= i < k ==> IsChunk(lines[i]))
    && IsClosure(lines[k], before + Content(lines[..k]))
    && MatchingEnd(lines[k + 1], a, before + Content(lines[..k]), hash)
  }

  predicate StartsWork(lines: seq<Line>) {
    && |lines| >= 2 && lines[0].Parsed? && lines[0].event.Accepted? && lines[1].Parsed? && lines[1].event.Started?
    && StartedExecError(lines[1].event.execError, lines[0].event.acceptance).ExecOk?
  }

  /** Accepted, started, `k` chunks, a closure with their exact count, a matching end. */
  predicate EndedTranscript(lines: seq<Line>, k: nat, hash: seq<Byte> -> string) {
    StartsWork(lines) && TailAt(lines[2..], k, [], lines[0].event.acceptance, hash)
  }

  /** The same grammar read line by line. */
  predicate Tail(lines: seq<Line>, before: seq<Byte>, a: Acceptance, hash: seq<Byte> -> string)
    decreases |lines|
  {
    && lines != []
    && if IsChunk(lines[0]) then Tail(lines[1..], before + Chunk(lines[0].event.b64).value, a, hash)
       else IsClosure(lines[0], before) && |lines| > 1 && MatchingEnd(lines[1], a, before, hash)
  }

  lemma ContentOfMore(lines: seq<Line>, k: nat, before: seq<Byte>)
    requires 0 < k <= |lines| && IsChunk(lines[0]) && forall i :: 0 <= i < k ==> IsChunk(lines[i])
    ensures before + Content(lines[..k]) == (before + Chunk(lines[0].event.b64).value) + Content(lines[1..][..k - 1])
  {
    assert lines[..k][1..] == lines[1..][..k - 1];
  }

  lemma {:induction false} TailHasEnd(lines: seq<Line>, before: seq<Byte>, a: Acceptance, hash: seq<Byte> -> string)
      returns (k: nat)
    requires Tail(lines, before, a, hash)
    ensures TailAt(lines, k, before, a, hash)
    decreases |lines|
  {
    if IsChunk(lines[0]) {
      var j := TailHasEnd(lines[1..], before + Chunk(lines[0].event.b64).value, a, hash);
      k := j + 1;
      assert forall i :: 0 < i < k ==> lines[i] == lines[1..][i - 1];
      ContentOfMore(lines, k, before);
    } else {
      k := 0;
      assert before + Content(lines[..0]) == before;
    }
  }

  lemma TailAtNext(lines: seq<Line>, k: nat, before: seq<Byte>, a: Acceptance, hash: seq<Byte> -> string)
    requires TailAt(lines, k, before, a, hash) && k > 0
    ensures IsChunk(lines[0])
    ensures var grown := before + Chunk(lines[0].event.b64).value;
            && TailAt(lines[1..], k - 1, grown, a, hash)
            && before + Content(lines[..k]) == grown + Content(lines[1..][..k - 1])
  {
    assert IsChunk(lines[0]);
    ContentOfMore(lines, k, before);
  }

  lemma {:induction false} TailAtIsTail(lines: seq<Line>, k: nat, before: seq<Byte>, a: Acceptance,
      hash: seq<Byte> -> string)
    requires TailAt(lines, k, before, a, hash)
    ensures Tail(lines, before, a, hash)
    decreases |lines|
  {
    if k == 0 {
      assert before + Content(lines[..0]) == before;
    } else {
      TailAtNext(lines, k, before, a, hash);
      TailAtIsTail(lines[1..], k - 1, before + Chunk(lines[0].event.b64).value, a, hash);
    }
  }

  // ---------------------------------------------------------------- the decoder accepts exactly the grammar

  /** Work has started and nothing is wrong. */
  predicate Sound(s: Run, a: Acceptance) {
    && s.halt == Going && Clean(s) && s.accepted && s.started && s.terminal.None?
    && s.log.stages != [] && s.log.stages[0] == EventStage(Accepted(a))
    && (s.log.outputStage.Some? ==> s.log.outputStage.value > 0)
    && s.got.bytes == |s.got.hashed|
  }

  predicate EndedRun(s: Run, hash: seq<Byte> -> string) {
    Finish(s, hash).outcome == Ended
  }

  /** An outcome of "ended" says exactly this of the final state. */
  lemma EndedMeans(s: Run, hash: seq<Byte> -> string)
    ensures EndedRun(s, hash) ==> Clean(s) && s.terminal.Some? && s.terminal.value.End?
    ensures Clean(s) && s.terminal.Some? && s.terminal.value.End? && s.closed && s.got.bytes == |s.got.hashed| ==>
              (EndedRun(s, hash) <==>
                  MatchingEnd(Parsed(s.terminal.value), AcceptanceOf(s.log.stages), s.got.hashed, hash))
    ensures EndedRun(s, hash) ==> s.closed
  {
  }

  /** A line that faults, or stops the reading otherwise than by an end, rules out "ended" for good. */
  lemma NeverEnded(s: Run, lines: seq<Line>, hash: seq<Byte> -> string)
    requires !Clean(s) || (s.halt != Going && !(s.terminal.Some? && s.terminal.value.End?))
    ensures !EndedRun(Fold(s, lines), hash)
  {
    FaultsStay(s, lines);
    EndedMeans(Fold(s, lines), hash);
  }

  lemma SoundStep(s: Run, line: Line, a: Acceptance)
    requires Sound(s, a)
    ensures IsChunk(line) && !s.closed ==>
              Sound(Step(s, line), a) && !Step(s, line).closed
                  && Step(s, line).got.hashed == s.got.hashed + Chunk(line.event.b64).value
    ensures IsClosure(line, s.got.hashed) && !s.closed ==>
              Sound(Step(s, line), a) && Step(s, line).closed && Step(s, line).got == s.got
  {
  }

  /** Before the closure only a chunk or the exact closure, after it only an end, keeps "ended" possible. */
  lemma OtherLinesFault(s: Run, line: Line, a: Acceptance)
    requires Sound(s, a)
    requires if s.closed then !(line.Parsed? && line.event.End?) else !IsChunk(line) && !IsClosure(line, s.got.hashed)
    ensures var t := Step(s, line);
            || !Clean(t) || (t.halt != Going && !t.closed)
            || (t.halt != Going && !(t.terminal.Some? && t.terminal.value.End?))
  {
  }

  lemma {:induction false} ClosedExactly(s: Run, lines: seq<Line>, a: Acceptance, hash: seq<Byte> -> string)
    requires Sound(s, a) && s.closed
    ensures EndedRun(Fold(s, lines), hash) <==> lines != [] && MatchingEnd(lines[0], a, s.got.hashed, hash)
  {
    if lines == [] {
      EndedMeans(s, hash);
    } else {
      var t := Step(s, lines[0]);
      if lines[0].Parsed? && lines[0].event.End? {
        assert Fold(s, lines) == t;
        EndedMeans(t, hash);
      } else {
        OtherLinesFault(s, lines[0], a);
        NeverEnded(t, lines[1..], hash);
      }
    }
  }

  lemma {:induction false} OpenExactly(s: Run, lines: seq<Line>, a: Acceptance, hash: seq<Byte> -> string)
    requires Sound(s, a) && !s.closed
    ensures EndedRun(Fold(s, lines), hash) <==> Tail(lines, s.got.hashed, a, hash)
    decreases |lines|
  {
    if lines == [] {
      EndedMeans(s, hash);
    } else {
      var t := Step(s, lines[0]);
      SoundStep(s, lines[0], a);
      if IsChunk(lines[0]) {
        OpenExactly(t, lines[1..], a, hash);
      } else if IsClosure(lines[0], s.got.hashed) {
        ClosedExactly(t, lines[1..], a, hash);
      } else {
        OtherLinesFault(s, lines[0], a);
        if t.halt != Going && !t.closed {
          EndedMeans(t, hash);
        } else {
          NeverEnded(t, lines[1..], hash);
        }
      }
    }
  }

  lemma FoldOne(lines: seq<Line>)
    requires lines != []
    ensures Fold(START, lines) == Fold(Step(START, lines[0]), lines[1..])
    ensures Step(START, lines[0]).halt != Going || |lines| == 1 ==> Fold(START, lines) == Step(START, lines[0])
  {
  }

  lemma FoldTwo(lines: seq<Line>)
    requires |lines| >= 2 && Step(START, lines[0]).halt == Going
    ensures Fold(START, lines) == Fold(Step(Step(START, lines[0]), lines[1]), lines[2..])
  {
    var s := Step(START, lines[0]);
    assert lines[1..][1..] == lines[2..];
    assert Fold(s, lines[1..]) == Fold(Step(s, lines[1]), lines[2..]);
  }

  /** After an acceptance only a start without a fault keeps "ended" possible. */
  lemma SecondLine(first: Line, second: Line)
    requires first.Parsed? && first.event.Accepted?
    ensures var s := Step(START, first);
            && s.halt == Going && Clean(s)
            && var t := Step(s, second);
               if second.Parsed? && second.event.Started?
                   && StartedExecError(second.event.execError, first.event.acceptance).ExecOk? then
                 Sound(t, first.event.acceptance) && !t.closed && t.got.hashed == []
               else !Clean(t) || (t.halt != Going && !(t.terminal.Some? && t.terminal.value.End?))
  {
  }

  lemma FirstLine(first: Line)
    requires !(first.Parsed? && first.event.Accepted?)
    ensures var s := Step(START, first); !Clean(s) || s.halt.RefusedBy?
  {
  }

  /** A transcript that does not start work in order is never called ended. */
  lemma NoStartNoEnd(lines: seq<Line>, hash: seq<Byte> -> string)
    requires !StartsWork(lines)
    ensures Decision(lines, hash).outcome != Ended
  {
    if !AcceptedFirst(lines) {
      NoAcceptanceNoEnd(lines, hash);
    } else if |lines| == 1 {
      SecondLine(lines[0], lines[0]);
      FoldOne(lines);
      EndedMeans(Step(START, lines[0]), hash);
    } else {
      SecondLine(lines[0], lines[1]);
      FoldTwo(lines);
      NeverEnded(Step(Step(START, lines[0]), lines[1]), lines[2..], hash);
    }
  }

  lemma NoAcceptanceNoEnd(lines: seq<Line>, hash: seq<Byte> -> string)
    requires !AcceptedFirst(lines)
    ensures Decision(lines, hash).outcome != Ended
  {
    if lines == [] {
      assert Fold(START, lines) == START;
      EndedMeans(START, hash);
    } else {
      FirstLine(lines[0]);
      FoldOne(lines);
      var s := Step(START, lines[0]);
      if !Clean(s) {
        NeverEnded(s, lines[1..], hash);
      }
    }
  }

  lemma HeadExactly(lines: seq<Line>, hash: seq<Byte> -> string)
    ensures Decision(lines, hash).outcome == Ended <==>
              StartsWork(lines) && Tail(lines[2..], [], lines[0].event.acceptance, hash)
  {
    if StartsWork(lines) {
      SecondLine(lines[0], lines[1]);
      FoldTwo(lines);
      var t := Step(Step(START, lines[0]), lines[1]);
      NeverRefused(t, lines[2..]);
      OpenExactly(t, lines[2..], lines[0].event.acceptance, hash);
    } else {
      NoStartNoEnd(lines, hash);
    }
  }

  /** A refusal counts only as the very first stage. */
  lemma {:induction false} NeverRefused(s: Run, lines: seq<Line>)
    requires !s.halt.RefusedBy? && s.log.stages != []
    ensures !Fold(s, lines).halt.RefusedBy?
    decreases |lines|
  {
    if s.halt == Going && lines != [] {
      NeverRefused(Step(s, lines[0]), lines[1..]);
    }
  }

  /** "ended" exactly for: accepted, started, chunks, one exact closure, one matching end. */
  lemma EndedExactly(lines: seq<Line>, hash: seq<Byte> -> string)
    ensures Decision(lines, hash).outcome == Ended <==> exists k: nat :: EndedTranscript(lines, k, hash)
  {
    HeadExactly(lines, hash);
    if Decision(lines, hash).outcome == Ended {
      var k := TailHasEnd(lines[2..], [], lines[0].event.acceptance, hash);
      assert EndedTranscript(lines, k, hash);
    }
    if k: nat :| EndedTranscript(lines, k, hash) {
      TailAtIsTail(lines[2..], k, [], lines[0].event.acceptance, hash);
    }
  }

  lemma {:induction false} TailReceives(s: Run, lines: seq<Line>, k: nat, a: Acceptance, hash: seq<Byte> -> string)
    requires Sound(s, a) && !s.closed && TailAt(lines, k, s.got.hashed, a, hash)
    ensures Fold(s, lines).got.hashed == s.got.hashed + Content(lines[..k])
    decreases k
  {
    SoundStep(s, lines[0], a);
    if k == 0 {
      ClosureIsLast(s, lines, a, hash);
    } else {
      TailAtNext(lines, k, s.got.hashed, a, hash);
      TailReceives(Step(s, lines[0]), lines[1..], k - 1, a, hash);
    }
  }

  lemma ClosureIsLast(s: Run, lines: seq<Line>, a: Acceptance, hash: seq<Byte> -> string)
    requires Sound(s, a) && !s.closed && TailAt(lines, 0, s.got.hashed, a, hash)
    ensures Fold(s, lines).got.hashed == s.got.hashed + Content(lines[..0])
  {
    assert s.got.hashed + Content(lines[..0]) == s.got.hashed;
    SoundStep(s, lines[0], a);
    EndIsLast(Step(s, lines[0]), lines[1..], a);
  }

  lemma EndIsLast(s: Run, lines: seq<Line>, a: Acceptance)
    requires Sound(s, a) && lines != [] && lines[0].Parsed? && lines[0].event.End?
    ensures Fold(s, lines).got == s.got
  {
  }

  /**
   * The output of an "ended" verdict is the chunks between start and closure: all of them, or a prefix called
   * partial.
   */
  lemma EndedOutputIsTheChunks(lines: seq<Line>, k: nat, hash: seq<Byte> -> string)
    requires EndedTranscript(lines, k, hash)
    ensures var v, content := Decision(lines, hash), Content(lines[2..][..k]);
            && v.outcome == Ended && v.output.Some? && v.output.value.payload <= content
            && v.delivery == (if v.output.value.payload == content then CompleteDelivery else PartialDelivery)
            && (|content| <= 65536 ==> v.output.value.payload == content)
  {
    EndedExactly(lines, hash);
    SecondLine(lines[0], lines[1]);
    FoldTwo(lines);
    var s := Fold(START, lines);
    var content := Content(lines[2..][..k]);
    TailReceives(Step(Step(START, lines[0]), lines[1]), lines[2..], k, lines[0].event.acceptance, hash);
    assert [] + content == content;
    FoldAccounts(START, lines);
    FinishShows(s, hash);
    ShownIsPayload(lines, hash);
    PresentationIsExact(lines, hash);
    WholeOrPartial(s.got);
  }

  /**
   * What every verdict says of delivery: nothing where no command ran, complete or partial only for a proved end,
   * and unproven for everything between; only the first kind is without effects.
   */
  lemma DeliveryExactly(lines: seq<Line>, hash: seq<Byte> -> string)
    ensures var v := Decision(lines, hash);
            && (v.delivery == NothingDelivered <==> v.outcome == NotStarted || v.outcome.RefusedOutcome?)
            && (v.delivery == NothingDelivered <==> v.output.None?)
            && (v.delivery == NothingDelivered <==> !v.effectsPossible)
            && (v.delivery == UnprovenDelivery <==> v.outcome == EndedOutputUnproven || v.outcome.Unknown?)
            && (v.wait.Some? <==> v.outcome == Ended || v.outcome == EndedOutputUnproven)
            && (v.outcome == Ended ==> v.faults == [])
  {
  }

  lemma WholeOrPartial(g: Received)
    requires Accounts(g)
    ensures Payload(g) <= g.hashed && (g.bytes - |Payload(g)| > 0 <==> Payload(g) != g.hashed)
    ensures |g.hashed| <= OUTPUT_PREFIX_BYTES ==> Payload(g) == g.hashed
  {
  }

  // ---------------------------------------------------------------- when a retry is safe

  /** A leading refusal, or an acceptance followed directly by a positive not-started. */
  predicate SafeTranscript(lines: seq<Line>) {
    || (lines != [] && lines[0].Parsed? && lines[0].event.Refused?)
    || (&& |lines| >= 2 && lines[0].Parsed? && lines[0].event.Accepted?
        && lines[1].Parsed? && lines[1].event.LaunchFailed? && lines[1].event.notStarted == Bool(true))
  }

  predicate LaunchFailedRun(s: Run) {
    s.terminal.Some? && s.terminal.value.LaunchFailed?
  }

  /** No later line can make a retry safe. */
  predicate Committed(s: Run) {
    && !s.halt.RefusedBy?
    && (s.halt == Going ==> s.log.stages != [] && s.terminal.None?)
    && (s.blame.orderFault || (!LaunchFailedRun(s) && (s.halt == Going ==> s.started)))
  }

  lemma CommittedStep(s: Run, line: Line)
    requires Committed(s) && s.halt == Going
    ensures Committed(Step(s, line))
  {
  }

  lemma {:induction false} CommittedStays(s: Run, lines: seq<Line>)
    requires Committed(s)
    ensures Committed(Fold(s, lines))
    decreases |lines|
  {
    if s.halt == Going && lines != [] {
      CommittedStep(s, lines[0]);
      CommittedStays(Step(s, lines[0]), lines[1..]);
    }
  }

  lemma SafeMeans(s: Run, hash: seq<Byte> -> string)
    ensures Finish(s, hash).retrySafe <==>
        LaunchFailedRun(s) && !s.blame.orderFault && s.terminal.value.notStarted == Bool(true)
    ensures Finish(s, hash).retrySafe <==> Finish(s, hash).outcome == NotStarted
    ensures Finish(s, hash).effectsPossible == !Finish(s, hash).retrySafe
  {
  }

  lemma SafeSecondLine(first: Line, second: Line)
    requires first.Parsed? && first.event.Accepted?
    ensures var t := Step(Step(START, first), second);
            if second.Parsed? && second.event.LaunchFailed? then
              t.halt == Stopped && !t.blame.orderFault && t.terminal == Some(second.event)
            else Committed(t)
  {
  }

  lemma SafeFirstLine(first: Line)
    requires !(first.Parsed? && first.event.Accepted?)
    ensures var s := Step(START, first);
            if first.Parsed? && first.event.Refused? then s.halt == RefusedBy(first.event.reason) else Committed(s)
  {
  }

  /** A retry is called safe exactly for those two transcripts, and then no effect is possible. */
  lemma RetrySafeExactly(lines: seq<Line>, hash: seq<Byte> -> string)
    ensures Decision(lines, hash).retrySafe <==> SafeTranscript(lines)
    ensures Decision(lines, hash).effectsPossible == !Decision(lines, hash).retrySafe
  {
    SafeMeans(Fold(START, lines), hash);
    if lines != [] {
      var s := Step(START, lines[0]);
      if !(lines[0].Parsed? && lines[0].event.Accepted?) {
        SafeFirstLine(lines[0]);
        FoldOne(lines);
        if !s.halt.RefusedBy? {
          CommittedStays(s, lines[1..]);
        }
      } else if |lines| >= 2 {
        SecondLine(lines[0], lines[1]);
        FoldTwo(lines);
        SafeSecondLine(lines[0], lines[1]);
        var t := Step(s, lines[1]);
        if !LaunchFailedRun(t) {
          CommittedStays(t, lines[2..]);
        }
      } else {
        SecondLine(lines[0], lines[0]);
        FoldOne(lines);
      }
    }
  }

  // ---------------------------------------------------------------- when an exit is reported

  predicate UsableEnd(line: Line) {
    && line.Parsed? && line.event.End?
    && WaitStatus.Parse(line.event.status).Some? && line.event.observer == "work-pid1-wait"
  }

  /** A line that may stand between start and end: output, its failure, or its first closure. */
  predicate Ordinary(lines: seq<Line>, i: nat)
    requires i < |lines|
  {
    && lines[i].Parsed?
    && (lines[i].event.Output? || lines[i].event.OutputFailed? || (lines[i].event.OutputClosed? && !ClosedBy(lines, i)))
  }

  /** Ordinary lines from `i` on, then a usable end at `j`. */
  predicate EndsAt(lines: seq<Line>, i: nat, j: nat) {
    i <= j < |lines| && (forall k :: i <= k < j ==> Ordinary(lines, k)) && UsableEnd(lines[j])
  }

  predicate Orderly(s: Run) {
    s.halt == Going && !s.blame.orderFault && s.accepted && s.started && s.terminal.None?
  }

  /** No later line can make an exit reported. */
  predicate Exitless(s: Run) {
    s.blame.orderFault || (s.halt != Going && !(s.terminal.Some? && s.terminal.value.End?))
  }

  lemma WaitMeans(s: Run, hash: seq<Byte> -> string)
    ensures var v := Finish(s, hash);
            && (v.wait.Some? <==> !s.blame.orderFault && s.terminal.Some? && UsableEnd(Parsed(s.terminal.value)))
            && (v.wait.Some? ==> v.wait == WaitStatus.Parse(s.terminal.value.status))
            && (v.wait.Some? <==> v.outcome == Ended || v.outcome == EndedOutputUnproven)
  {
  }

  lemma ExitlessStays(s: Run, lines: seq<Line>, hash: seq<Byte> -> string)
    requires Exitless(s)
    ensures Finish(Fold(s, lines), hash).wait.None?
  {
    FaultsStay(s, lines);
    WaitMeans(Fold(s, lines), hash);
  }

  lemma OrderlyStep(s: Run, lines: seq<Line>, i: nat)
    requires i < |lines| && Tracks(s, lines, i) && Orderly(s)
    ensures var t := Step(s, lines[i]);
            if Ordinary(lines, i) then Orderly(t)
            else if lines[i].Parsed? && lines[i].event.End? then
              t.halt == Stopped && !t.blame.orderFault && t.terminal == Some(lines[i].event)
            else Exitless(t)
  {
  }

  lemma EndsLater(lines: seq<Line>, i: nat, j: nat)
    requires i < |lines|
    ensures Ordinary(lines, i) ==> (EndsAt(lines, i, j) <==> EndsAt(lines, i + 1, j))
    ensures !Ordinary(lines, i) ==> (EndsAt(lines, i, j) <==> j == i && UsableEnd(lines[i]))
  {
  }

  function ExitOf(s: Run, lines: seq<Line>, hash: seq<Byte> -> string): Option<WaitStatus.Wait> {
    Finish(Fold(s, lines), hash).wait
  }

  lemma OrderlyNext(s: Run, lines: seq<Line>, i: nat, hash: seq<Byte> -> string)
    requires i < |lines| && Tracks(s, lines, i) && Orderly(s)
    ensures Tracks(Step(s, lines[i]), lines, i + 1)
    ensures if Ordinary(lines, i) then
              Orderly(Step(s, lines[i]))
                  && ExitOf(s, lines[i..], hash) == ExitOf(Step(s, lines[i]), lines[i + 1..], hash)
            else
              ExitOf(s, lines[i..], hash)
              == if UsableEnd(lines[i]) then WaitStatus.Parse(lines[i].event.status) else None
  {
    var t := Step(s, lines[i]);
    OrderlyStep(s, lines, i);
    StepTracks(s, lines, i);
    assert lines[i..][0] == lines[i] && lines[i..][1..] == lines[i + 1..];
    assert Fold(s, lines[i..]) == Fold(t, lines[i + 1..]);
    if !Ordinary(lines, i) {
      if lines[i].Parsed? && lines[i].event.End? {
        WaitMeans(t, hash);
      } else {
        ExitlessStays(t, lines[i + 1..], hash);
      }
    }
  }

  /** A usable end after ordinary lines is reported. */
  lemma {:induction false} EndIsReported(s: Run, lines: seq<Line>, i: nat, j: nat, hash: seq<Byte> -> string)
    requires i <= |lines| && Tracks(s, lines, i) && Orderly(s) && EndsAt(lines, i, j)
    ensures ExitOf(s, lines[i..], hash) == WaitStatus.Parse(lines[j].event.status)
    decreases |lines| - i
  {
    OrderlyNext(s, lines, i, hash);
    EndsLater(lines, i, j);
    if Ordinary(lines, i) {
      EndIsReported(Step(s, lines[i]), lines, i + 1, j, hash);
    }
  }

  /** Whatever is reported is such an end. */
  lemma {:induction false} ReportHasEnd(s: Run, lines: seq<Line>, i: nat, hash: seq<Byte> -> string) returns (j: nat)
    requires i <= |lines| && Tracks(s, lines, i) && Orderly(s) && ExitOf(s, lines[i..], hash).Some?
    ensures EndsAt(lines, i, j)
    decreases |lines| - i
  {
    if i == |lines| {
      WaitMeans(s, hash);
      j := i;
    } else {
      OrderlyNext(s, lines, i, hash);
      j := i;
      if Ordinary(lines, i) {
        j := ReportHasEnd(Step(s, lines[i]), lines, i + 1, hash);
      }
      EndsLater(lines, i, j);
    }
  }

  lemma WaitFirstLine(first: Line)
    requires !(first.Parsed? && first.event.Accepted?)
    ensures var s := Step(START, first); Exitless(s)
  {
  }

  lemma WaitSecondLine(first: Line, second: Line)
    requires first.Parsed? && first.event.Accepted?
    ensures var t := Step(Step(START, first), second);
            if StartsWork([first, second]) then Orderly(t) else Exitless(t)
  {
  }

  /** A transcript that does not start work in order never has an exit. */
  lemma NoStartNoExit(lines: seq<Line>, hash: seq<Byte> -> string)
    requires !StartsWork(lines)
    ensures Decision(lines, hash).wait.None?
  {
    WaitMeans(Fold(START, lines), hash);
    if lines != [] {
      FoldOne(lines);
      var s := Step(START, lines[0]);
      if !AcceptedFirst(lines) {
        WaitFirstLine(lines[0]);
        ExitlessStays(s, lines[1..], hash);
      } else if |lines| >= 2 {
        SecondLine(lines[0], lines[1]);
        FoldTwo(lines);
        WaitSecondLine(lines[0], lines[1]);
        ExitlessStays(Step(s, lines[1]), lines[2..], hash);
      }
    }
  }

  lemma ExitAfterStart(lines: seq<Line>, hash: seq<Byte> -> string)
    requires StartsWork(lines)
    ensures var t := Step(Step(START, lines[0]), lines[1]);
            Orderly(t) && Tracks(t, lines, 2) && Decision(lines, hash).wait == ExitOf(t, lines[2..], hash)
  {
    SecondLine(lines[0], lines[1]);
    FoldTwo(lines);
    WaitSecondLine(lines[0], lines[1]);
    NeverRefused(Step(Step(START, lines[0]), lines[1]), lines[2..]);
    StepTracks(START, lines, 0);
    StepTracks(Step(START, lines[0]), lines, 1);
  }

  /** Accepted, started without a fault, ordinary lines, and a usable end at line `j`. */
  predicate ExitTranscript(lines: seq<Line>, j: nat) {
    StartsWork(lines) && EndsAt(lines, 2, j)
  }

  /**
   * An exit is reported exactly when the work was accepted, started without a fault and, after
   * output lines only, ended with a usable wait; and it is the exit code or the signal that this
   * end's status spells. Whether the output is proven is independent of it.
   */
  lemma ExitReportedExactly(lines: seq<Line>, hash: seq<Byte> -> string)
    ensures var v := Decision(lines, hash);
            && (v.wait.Some? <==> exists j: nat :: ExitTranscript(lines, j))
            && forall j: nat :: ExitTranscript(lines, j) ==>
                 v.wait.Some? && WaitStatus.Says(lines[j].event.status, v.wait.value)
  {
    forall j: nat | ExitTranscript(lines, j)
      ensures Decision(lines, hash).wait.Some?
      ensures WaitStatus.Says(lines[j].event.status, Decision(lines, hash).wait.value)
    {
      TranscriptIsReported(lines, j, hash);
      WaitStatus.ParseExactly(lines[j].event.status, Decision(lines, hash).wait.value);
    }
    if Decision(lines, hash).wait.Some? {
      var j := ReportIsTranscript(lines, hash);
    }
  }

  /** A usable end is one whose status spells an exit code or a signal, observed by the work's own wait. */
  lemma UsableExactly(line: Line)
    ensures UsableEnd(line) <==>
              && line.Parsed? && line.event.End? && line.event.observer == "work-pid1-wait"
              && exists w :: WaitStatus.Says(line.event.status, w)
  {
    if line.Parsed? && line.event.End? {
      var p := WaitStatus.Parse(line.event.status);
      if p.Some? {
        WaitStatus.ParseExactly(line.event.status, p.value);
      }
      if w :| WaitStatus.Says(line.event.status, w) {
        WaitStatus.ParseExactly(line.event.status, w);
      }
    }
  }

  lemma TranscriptIsReported(lines: seq<Line>, j: nat, hash: seq<Byte> -> string)
    requires ExitTranscript(lines, j)
    ensures Decision(lines, hash).wait == WaitStatus.Parse(lines[j].event.status)
  {
    ExitAfterStart(lines, hash);
    EndIsReported(Step(Step(START, lines[0]), lines[1]), lines, 2, j, hash);
  }

  lemma ReportIsTranscript(lines: seq<Line>, hash: seq<Byte> -> string) returns (j: nat)
    requires Decision(lines, hash).wait.Some?
    ensures ExitTranscript(lines, j)
  {
    if StartsWork(lines) {
      ExitAfterStart(lines, hash);
      j := ReportHasEnd(Step(Step(START, lines[0]), lines[1]), lines, 2, hash);
    } else {
      NoStartNoExit(lines, hash);
      assert false;
    }
  }

  // ---------------------------------------------------------------- what else a verdict says

  lemma {:induction false} AcceptedStays(s: Run, lines: seq<Line>)
    requires s.log.stages != [] || s.halt != Going
    ensures Fold(s, lines).accepted == s.accepted
    ensures s.started ==> Fold(s, lines).started && Fold(s, lines).execError == s.execError
    decreases |lines|
  {
    if s.halt == Going && lines != [] {
      AcceptedStays(Step(s, lines[0]), lines[1..]);
    }
  }

  lemma AcceptedExactly(lines: seq<Line>)
    ensures Fold(START, lines).accepted <==> AcceptedFirst(lines)
  {
    if lines != [] {
      FoldOne(lines);
      AcceptedStays(Step(START, lines[0]), lines[1..]);
    }
  }

  /** An exec failure is reported exactly when a usable acceptance is followed by a start that names it. */
  lemma ExecErrorExactly(lines: seq<Line>, hash: seq<Byte> -> string, error: string)
    requires AcceptedFirst(lines) && |lines| >= 2 && IsStart(lines[1])
    ensures var a := lines[0].event.acceptance;
            Decision(lines, hash).execError == Some(error) <==>
              && lines[1].event.execError == Text(error) && error != ""
              && a.durable == Bool(true) && a.root.Text? && a.root.s != ""
              && a.work.Number? && 0 < a.work.n < 0x8000_0000_0000_0000
  {
    SecondLine(lines[0], lines[1]);
    FoldTwo(lines);
    var t := Step(Step(START, lines[0]), lines[1]);
    StartedExactly(lines[0], lines[1], error);
    AcceptedStays(t, lines[2..]);
    NeverRefused(t, lines[2..]);
    CommittedStays(t, lines[2..]);
    FinishKeepsExecError(Fold(START, lines), hash);
  }

  lemma StartedExactly(first: Line, second: Line, error: string)
    requires first.Parsed? && first.event.Accepted? && IsStart(second)
    ensures var a := first.event.acceptance; var t := Step(Step(START, first), second);
            && t.started && t.log.stages != [] && Committed(t)
            && (t.execError == Some(error) <==>
                  && second.event.execError == Text(error) && error != ""
                  && a.durable == Bool(true) && a.root.Text? && a.root.s != ""
                  && a.work.Number? && 0 < a.work.n < 0x8000_0000_0000_0000)
  {
  }

  lemma FinishKeepsExecError(s: Run, hash: seq<Byte> -> string)
    requires Committed(s)
    ensures Finish(s, hash).execError == s.execError
  {
  }
}
