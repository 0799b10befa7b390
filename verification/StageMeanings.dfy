/**
 * What the verdict on a transcript says besides its output and its exit (src/root_v1.rs:421-548): the
 * meaning of every outcome, the faults that explain it, and who still holds omitted bytes. Each is
 * stated over the lines themselves.
 */
module StageMeanings {
  import opened Base64
  import opened Options
  import opened StageDecoder

  // ---------------------------------------------------------------- the line that ends a reply in order

  predicate EndsWork(e: Event) {
    e.End? || e.EndUnknown? || e.LeftToSuccessor?
  }

  predicate EndsLaunch(e: Event) {
    e.LaunchFailed? || e.LaunchUnknown? || e.EndUnknown? || e.LeftToSuccessor?
  }

  /** The first line from `i` on that is not ordinary, if it ends started work. */
  function FirstFinal(lines: seq<Line>, i: nat): Option<Event>
    requires i <= |lines|
    decreases |lines| - i
  {
    if i == |lines| then None
    else if Ordinary(lines, i) then FirstFinal(lines, i + 1)
    else if lines[i].Parsed? && EndsWork(lines[i].event) then Some(lines[i].event)
    else None
  }

  /** The event that ends the reply, when everything before it was in order. */
  function EndInOrder(lines: seq<Line>): Option<Event> {
    if !AcceptedFirst(lines) || |lines| < 2 then None
    else if StartsWork(lines) then FirstFinal(lines, 2)
    else if lines[1].Parsed? && EndsLaunch(lines[1].event) then Some(lines[1].event)
    else None
  }

  function Recognised(s: Run): Option<Event> {
    if s.blame.orderFault then None else s.terminal
  }

  lemma RecognisedStays(s: Run, lines: seq<Line>)
    requires s.blame.orderFault || s.halt != Going
    ensures Recognised(Fold(s, lines)) == Recognised(s)
  {
    FaultsStay(s, lines);
  }

  lemma OrderlyLine(s: Run, lines: seq<Line>, i: nat)
    requires i < |lines| && Tracks(s, lines, i) && Orderly(s) && !Ordinary(lines, i)
    ensures var t := Step(s, lines[i]);
            && (t.blame.orderFault || t.halt != Going)
            && Recognised(t) == if lines[i].Parsed? && EndsWork(lines[i].event) then Some(lines[i].event) else None
  {
  }

  lemma {:induction false} OrderlyEnd(s: Run, lines: seq<Line>, i: nat)
    requires i <= |lines| && Tracks(s, lines, i) && Orderly(s)
    ensures Recognised(Fold(s, lines[i..])) == FirstFinal(lines, i)
    decreases |lines| - i
  {
    if i < |lines| {
      var t := Step(s, lines[i]);
      assert lines[i..][0] == lines[i] && lines[i..][1..] == lines[i + 1..];
      assert Fold(s, lines[i..]) == Fold(t, lines[i + 1..]);
      if Ordinary(lines, i) {
        OrderlyStep(s, lines, i);
        StepTracks(s, lines, i);
        OrderlyEnd(t, lines, i + 1);
      } else {
        OrderlyLine(s, lines, i);
        RecognisedStays(t, lines[i + 1..]);
      }
    }
  }

  lemma UnstartedLine(first: Line, second: Line)
    requires first.Parsed? && first.event.Accepted? && !StartsWork([first, second])
    ensures var t := Step(Step(START, first), second);
            && (t.blame.orderFault || t.halt != Going)
            && Recognised(t) == if second.Parsed? && EndsLaunch(second.event) then Some(second.event) else None
  {
  }

  lemma UnacceptedLine(first: Line)
    requires !(first.Parsed? && first.event.Accepted?)
    ensures var s := Step(START, first); (s.blame.orderFault || s.halt != Going) && Recognised(s).None?
  {
  }

  /** The decoder recognises exactly the event that ends a reply in order. */
  lemma RecognisedExactly(lines: seq<Line>)
    ensures Recognised(Fold(START, lines)) == EndInOrder(lines)
  {
    if lines != [] {
      FoldOne(lines);
      var s := Step(START, lines[0]);
      if !AcceptedFirst(lines) {
        UnacceptedLine(lines[0]);
        RecognisedStays(s, lines[1..]);
      } else if |lines| == 1 {
        SecondLine(lines[0], lines[0]);
      } else {
        SecondLine(lines[0], lines[1]);
        FoldTwo(lines);
        if StartsWork(lines) {
          StartTracks(lines);
          OrderlyEnd(Step(s, lines[1]), lines, 2);
        } else {
          UnstartedLine(lines[0], lines[1]);
          RecognisedStays(Step(s, lines[1]), lines[2..]);
        }
      }
    }
  }

  lemma StartTracks(lines: seq<Line>)
    requires StartsWork(lines)
    ensures var t := Step(Step(START, lines[0]), lines[1]);
            Step(START, lines[0]).halt == Going && Orderly(t) && Tracks(t, lines, 2)
  {
    SecondLine(lines[0], lines[1]);
    WaitSecondLine(lines[0], lines[1]);
    StepTracks(START, lines, 0);
    StepTracks(Step(START, lines[0]), lines, 1);
  }

  // ---------------------------------------------------------------- outcome and meaning

  predicate RefusedFirst(lines: seq<Line>) {
    lines != [] && lines[0].Parsed? && lines[0].event.Refused?
  }

  lemma RefusedExactly(lines: seq<Line>)
    ensures Fold(START, lines).halt.RefusedBy? <==> RefusedFirst(lines)
    ensures RefusedFirst(lines) ==> Fold(START, lines).halt == RefusedBy(lines[0].event.reason)
  {
    if lines != [] {
      FoldOne(lines);
      var s := Step(START, lines[0]);
      if s.log.stages != [] && !s.halt.RefusedBy? {
        NeverRefused(s, lines[1..]);
      }
    }
  }

  /** The outcome of a final state, by the event it recognises. */
  lemma OutcomeOf(s: Run, hash: seq<Byte> -> string)
    ensures var o := Finish(s, hash).outcome;
            match Recognised(s)
            case None => o == Unknown(if s.accepted then AcceptedEndUnknown else PossibleEffectUnknown)
            case Some(e) =>
              && (e.LeftToSuccessor? ==> o == Unknown(LeftToSuccessorMeaning))
              && (e.EndUnknown? ==> o == Unknown(AcceptedEndUnknown))
              && (e.LaunchUnknown? ==> o == Unknown(PossibleEffectUnknown))
              && (e.LaunchFailed? ==>
                    o == if e.notStarted == Bool(true) then NotStarted else Unknown(PossibleEffectUnknown))
              && (e.End? ==> if UsableEnd(Parsed(e)) then o == Ended || o == EndedOutputUnproven
                             else o == Unknown(EndedStatusUnknown))
  {
  }

  /** Every outcome and its meaning, for every transcript. */
  lemma MeaningExactly(lines: seq<Line>, hash: seq<Byte> -> string)
    ensures var o := Decision(lines, hash).outcome;
            if RefusedFirst(lines) then o == RefusedOutcome(lines[0].event.reason)
            else match EndInOrder(lines)
              case None => o == Unknown(if AcceptedFirst(lines) then AcceptedEndUnknown else PossibleEffectUnknown)
              case Some(e) =>
                && (e.LeftToSuccessor? ==> o == Unknown(LeftToSuccessorMeaning))
                && (e.EndUnknown? ==> o == Unknown(AcceptedEndUnknown))
                && (e.LaunchUnknown? ==> o == Unknown(PossibleEffectUnknown))
                && (e.LaunchFailed? ==>
                      o == if e.notStarted == Bool(true) then NotStarted else Unknown(PossibleEffectUnknown))
                && (e.End? ==> if UsableEnd(Parsed(e)) then o == Ended || o == EndedOutputUnproven
                               else o == Unknown(EndedStatusUnknown))
  {
    RefusedExactly(lines);
    RecognisedExactly(lines);
    AcceptedExactly(lines);
    OutcomeOf(Fold(START, lines), hash);
  }

  /** A verdict that is unknown, or whose output is unproven, for want of order or of an end names a fault. */
  lemma UnknownIsExplained(lines: seq<Line>, hash: seq<Byte> -> string)
    requires !RefusedFirst(lines) && EndInOrder(lines).None?
    ensures Decision(lines, hash).faults != []
  {
    RefusedExactly(lines);
    RecognisedExactly(lines);
    OrderFaultIsNamed(START, lines);
  }

  lemma {:induction false} OrderFaultIsNamed(s: Run, lines: seq<Line>)
    requires s.blame.orderFault ==> s.blame.faults != []
    ensures Fold(s, lines).blame.orderFault ==> Fold(s, lines).blame.faults != []
    decreases |lines|
  {
    if s.halt == Going && lines != [] {
      OrderFaultIsNamed(Step(s, lines[0]), lines[1..]);
    }
  }

  // ---------------------------------------------------------------- counts and retained records

  /** A JSON number is a count exactly in the 64-bit range. */
  lemma CountExactly(j: Json, n: nat)
    ensures AsU64(j) == Some(n) <==> j == Number(n) && n <= 0xFFFF_FFFF_FFFF_FFFF
  {
  }

  /** Output lines among those that are read. */
  function OutputLines(lines: seq<Line>): nat {
    if lines == [] || Ends(lines[0]) then 0
    else (if lines[0].event.Output? then 1 else 0) + OutputLines(lines[1..])
  }

  lemma StepCounts(s: Run, line: Line)
    requires s.halt == Going
    ensures var t := Step(s, line);
            && (t.halt == Going <==> !Ends(line))
            && t.log.chunks == s.log.chunks + if line.Parsed? && line.event.Output? then 1 else 0
  {
  }

  lemma {:induction false} EveryOutputLineIsCounted(s: Run, lines: seq<Line>)
    requires s.halt == Going
    ensures Fold(s, lines).log.chunks == s.log.chunks + OutputLines(lines)
    decreases |lines|
  {
    if lines != [] {
      StepCounts(s, lines[0]);
      if !Ends(lines[0]) {
        EveryOutputLineIsCounted(Step(s, lines[0]), lines[1..]);
      }
    }
  }

  /** What makes a retained record of a stream believable, field by field. */
  predicate Believable(r: Retained, a: Acceptance, received: seq<Byte>, hash: seq<Byte> -> string) {
    match r
    case Absent => true
    case Record(identity, root, work, bytes, sha, counted, state, losses) =>
      || state == Text("unsealed")
      || (match identity
          case None => false
          case Some(id) =>
            && root == Text(id.root) == a.root && work == Number(id.work) == a.work && losses
            && bytes == Number(id.bytes) && sha == Text(id.sha)
            && (|| state == Text("partial")
                || (&& state == Text("complete") && id.bytes == |received| < 0x1_0000_0000_0000_0000
                    && counted == Number(id.bytes) && id.sha == hash(received))))
  }

  lemma BelievedExactly(r: Retained, a: Acceptance, received: seq<Byte>, hash: seq<Byte> -> string)
    ensures RetainedAgrees(r, a, received, hash) <==> Believable(r, a, received, hash)
  {
  }

  /** Whether the end's record is believed shows in the faults. */
  lemma MismatchExactly(s: Run, hash: seq<Byte> -> string)
    requires RetainedMismatch !in s.blame.faults
    ensures RetainedMismatch in Finish(s, hash).faults <==>
              !Believable(TerminalRetained(s), AcceptanceOf(s.log.stages), s.got.hashed, hash)
  {
    BelievedExactly(TerminalRetained(s), AcceptanceOf(s.log.stages), s.got.hashed, hash);
  }

  /** And in what is said of the omitted bytes. */
  lemma RetainedExactly(s: Run, hash: seq<Byte> -> string)
    ensures var v, r := Finish(s, hash), TerminalRetained(s);
            var believed := Believable(r, AcceptanceOf(s.log.stages), s.got.hashed, hash);
            v.output.Some? ==>
              && (v.output.value.remainder.NoRemainder? <==> v.output.value.omitted == 0)
              && (v.output.value.remainder.RetainedByOwner? <==>
                    v.output.value.omitted != 0 && believed && r.Record? && r.state == Text("complete"))
              && (v.output.value.remainder.PartialOwnerRetention? <==>
                    v.output.value.omitted != 0 && believed && r.Record? && r.state == Text("partial"))
  {
    BelievedExactly(TerminalRetained(s), AcceptanceOf(s.log.stages), s.got.hashed, hash);
  }

  lemma StepAddsNoMismatch(s: Run, line: Line)
    requires s.halt == Going && RetainedMismatch !in s.blame.faults
    ensures RetainedMismatch !in Step(s, line).blame.faults
  {
  }

  lemma {:induction false} NoMismatchYet(s: Run, lines: seq<Line>)
    requires RetainedMismatch !in s.blame.faults
    ensures RetainedMismatch !in Fold(s, lines).blame.faults
    decreases |lines|
  {
    if s.halt == Going && lines != [] {
      StepAddsNoMismatch(s, lines[0]);
      NoMismatchYet(Step(s, lines[0]), lines[1..]);
    }
  }

  /** Bytes are said to be retained by the owner exactly when its complete record is of the received stream. */
  lemma RemainderExactly(lines: seq<Line>, hash: seq<Byte> -> string)
    ensures var v, s := Decision(lines, hash), Fold(START, lines);
            var r, received := TerminalRetained(s), ReceivedBy(lines, |lines|);
            var believed := Believable(r, AcceptanceOf(s.log.stages), received, hash);
            v.output.Some? ==>
              && (RetainedMismatch in v.faults <==> !believed)
              && (v.output.value.remainder.NoRemainder? <==> v.output.value.omitted == 0)
              && (v.output.value.remainder.RetainedByOwner? <==>
                    v.output.value.omitted != 0 && believed && r.Record? && r.state == Text("complete"))
              && (v.output.value.remainder.PartialOwnerRetention? <==>
                    v.output.value.omitted != 0 && believed && r.Record? && r.state == Text("partial"))
  {
    CountsTheValidOutput(lines);
    NoMismatchYet(START, lines);
    MismatchExactly(Fold(START, lines), hash);
    RetainedExactly(Fold(START, lines), hash);
  }
}
