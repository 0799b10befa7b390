/**
 * Optional live capture (src/live_capture.rs): a ring of recent output records under a byte
 * budget, with exact gaps for what was evicted. It is proved against the whole history of
 * non-empty chunks, which the ring itself never keeps.
 */
module LiveCaptureModel {

  import opened Options

  const RECORD_CHARGE: nat := 64

  type Byte = x: int | 0 <= x < 256

  datatype Channel = Stdout | Stderr

  datatype Chunk = Chunk(channel: Channel, bytes: seq<Byte>)

  datatype Position = Position(seqno: nat, stdoutBytes: nat, stderrBytes: nat) {
    function Advance(channel: Channel, len: nat): Position {
      match channel
      case Stdout => Position(seqno + 1, stdoutBytes + len, stderrBytes)
      case Stderr => Position(seqno + 1, stdoutBytes, stderrBytes + len)
    }
  }

  datatype Record = LiveRecord(start: Position, chunk: Chunk)

  datatype Gap = Gap(from: Position, to: Position)

  datatype Read = Read(gap: Option<Gap>, records: seq<Record>, next: Position)

  // ---------------------------------------------------------------- specification over the history

  function Charge(c: Chunk): nat {
    |c.bytes| + RECORD_CHARGE
  }

  /** The charge of the chunks a, a + 1, .., b - 1 of a history. */
  function ChargeBetween(h: seq<Chunk>, a: nat, b: nat): nat
    requires a <= b <= |h|
    decreases b - a
  {
    if a == b then 0 else Charge(h[a]) + ChargeBetween(h, a + 1, b)
  }

  function On(c: Chunk, channel: Channel): nat {
    if c.channel == channel then |c.bytes| else 0
  }

  /** Bytes of one channel among the first `k` chunks. */
  function BytesUpTo(h: seq<Chunk>, k: nat, channel: Channel): nat
    requires k <= |h|
  {
    if k == 0 then 0 else BytesUpTo(h, k - 1, channel) + On(h[k - 1], channel)
  }

  /** The position after the first `k` chunks. */
  function PositionAt(h: seq<Chunk>, k: nat): Position
    requires k <= |h|
  {
    Position(k, BytesUpTo(h, k, Stdout), BytesUpTo(h, k, Stderr))
  }

  /** `start` begins the longest suffix of the first `n` chunks whose charges fit the budget. */
  predicate LongestFit(h: seq<Chunk>, n: nat, budget: nat, start: nat)
    requires n <= |h|
  {
    && start <= n
    && ChargeBetween(h, start, n) <= budget
    && forall i {:trigger ChargeBetween(h, i, n)} :: 0 <= i < start ==> ChargeBetween(h, i, n) > budget
  }

  /** The records of the chunks a, .., b - 1, each at its own position. */
  function RecordsBetween(h: seq<Chunk>, a: nat, b: nat): seq<Record>
    requires a <= b <= |h|
    decreases b - a
  {
    if a == b then [] else [LiveRecord(PositionAt(h, a), h[a])] + RecordsBetween(h, a + 1, b)
  }

  /** The ring holds exactly the chunks from `start` on, and is charged for them. */
  predicate Window(h: seq<Chunk>, n: nat, start: nat, records: seq<Record>, charged: nat)
    requires n <= |h|
  {
    start <= n && records == RecordsBetween(h, start, n) && charged == ChargeBetween(h, start, n)
  }

  /** There is exactly one longest fitting suffix, and some suffix always fits. */
  lemma LongestFitIsUnique(h: seq<Chunk>, n: nat, budget: nat, a: nat, b: nat)
    requires n <= |h| && LongestFit(h, n, budget, a) && LongestFit(h, n, budget, b)
    ensures a == b
  {
  }

  lemma {:induction false} ChargeOfOneMore(h: seq<Chunk>, a: nat, n: nat)
    requires a <= n < |h|
    ensures ChargeBetween(h, a, n + 1) == ChargeBetween(h, a, n) + Charge(h[n])
    decreases n - a
  {
    if a < n {
      ChargeOfOneMore(h, a + 1, n);
    }
  }

  lemma {:induction false} RecordsOfOneMore(h: seq<Chunk>, a: nat, n: nat)
    requires a <= n < |h|
    ensures RecordsBetween(h, a, n + 1) == RecordsBetween(h, a, n) + [LiveRecord(PositionAt(h, n), h[n])]
    decreases n - a
  {
    if a < n {
      RecordsOfOneMore(h, a + 1, n);
    }
  }

  lemma {:induction false} RecordCount(h: seq<Chunk>, a: nat, b: nat)
    requires a <= b <= |h|
    ensures |RecordsBetween(h, a, b)| == b - a
    decreases b - a
  {
    if a < b {
      RecordCount(h, a + 1, b);
    }
  }

  // What a prefix of the history says does not depend on what follows it.

  lemma {:induction false} PositionOfPrefix(g: seq<Chunk>, h: seq<Chunk>, k: nat)
    requires k <= |g| && g <= h
    ensures PositionAt(g, k) == PositionAt(h, k)
  {
    if k > 0 {
      PositionOfPrefix(g, h, k - 1);
    }
  }

  lemma {:induction false} RangeOfPrefix(g: seq<Chunk>, h: seq<Chunk>, a: nat, b: nat)
    requires a <= b <= |g| && g <= h
    ensures ChargeBetween(g, a, b) == ChargeBetween(h, a, b)
    ensures RecordsBetween(g, a, b) == RecordsBetween(h, a, b)
    decreases b - a
  {
    if a < b {
      PositionOfPrefix(g, h, a);
      RangeOfPrefix(g, h, a + 1, b);
    }
  }

  lemma FitOfPrefix(g: seq<Chunk>, h: seq<Chunk>, n: nat, budget: nat, start: nat)
    requires n <= |g| && g <= h && LongestFit(g, n, budget, start)
    ensures LongestFit(h, n, budget, start)
  {
    RangeOfPrefix(g, h, start, n);
    forall i | 0 <= i < start ensures ChargeBetween(h, i, n) > budget {
      RangeOfPrefix(g, h, i, n);
    }
  }

  // ---------------------------------------------------------------- the ring

  /** The records at or after one sequence number. */
  function Retained(records: seq<Record>, from: nat): seq<Record> {
    if records == [] then []
    else if records[0].start.seqno >= from then [records[0]] + Retained(records[1..], from)
    else Retained(records[1..], from)
  }

  /** A ring over its whole history: the longest fitting suffix, its charge, and the position after everything. */
  predicate RingOk(h: seq<Chunk>, budget: nat, records: seq<Record>, charged: nat, next: Position) {
    && |records| <= |h|
    && LongestFit(h, |h|, budget, |h| - |records|)
    && Window(h, |h|, |h| - |records|, records, charged)
    && next == PositionAt(h, |h|)
  }

  class LiveCapture {
    const budget: nat
    var charged: nat
    var records: seq<Record>
    var next: Position
    ghost var history: seq<Chunk>

    /** The retained window is the longest fitting suffix of everything ever recorded. */
    ghost predicate Valid()
      reads this
    {
      RingOk(history, budget, records, charged, next)
    }

    constructor (budget: nat)
      ensures Valid() && history == [] && this.budget == budget
    {
      this.budget := budget;
      charged, records, next := 0, [], Position(0, 0, 0);
      history := [];
    }

    /** The eviction loop: the oldest records go until `charge` fits, and the ring is never found empty. */
    method EvictFor(charge: nat, ghost g: seq<Chunk>) returns (ghost i: nat)
      requires |g| > |records| && charge == Charge(g[|g| - 1]) <= budget
      requires Overfull(g, |g| - 1 - |records|, records, charged, budget)
      modifies this`records, this`charged
      ensures i < |g|
      ensures Overfull(g, i, records, charged, budget) && charged + charge <= budget
    {
      i := |g| - 1 - |records|;
      while charged + charge > budget
        invariant Overfull(g, i, records, charged, budget)
        decreases |g| - i
      {
        Evicted(g, |g| - 1, i, records, charged, budget);
        var evicted := records[0];
        records := records[1..];
        charged := charged - (|evicted.chunk.bytes| + RECORD_CHARGE);
        i := i + 1;
      }
    }

    /** record: total, and the eviction never finds the ring empty. */
    method Record(channel: Channel, bytes: seq<Byte>)
      requires Valid()
      modifies this
      ensures Valid()
      ensures history == if bytes == [] then old(history) else old(history) + [Chunk(channel, bytes)]
    {
      if bytes == [] {
        return;
      }
      ghost var g := history + [Chunk(channel, bytes)];
      NewestArrives(history, g, budget, records, charged, next);
      var start := next;
      next := start.Advance(channel, |bytes|);
      history := g;
      var charge := |bytes| + RECORD_CHARGE;
      if charge > budget {
        records := [];
        charged := 0;
        NothingFits(g, budget, next);
        return;
      }
      ghost var i := EvictFor(charge, g);
      NewestFits(g, i, records, charged, budget, start);
      charged := charged + charge;
      records := records + [LiveRecord(start, Chunk(channel, bytes))];
    }

    /** Position of the oldest retained record, or `next` when none is retained. */
    function First(): (p: Position)
      requires Valid()
      reads this
      ensures p == PositionAt(history, |history| - |records|)
    {
      if records == [] then next else records[0].start
    }

    /** Everything retained at or after `cursor`, with the exact gap before it. */
    function ReadFrom(cursor: Position): Option<Read>
      requires Valid()
      reads this
    {
      if cursor.seqno > next.seqno then None
      else Some(Read(if cursor.seqno < First().seqno then Some(Gap(cursor, First())) else None,
                     Retained(records, cursor.seqno), next))
    }
  }

  /** Every suffix starting before `i` overflows once chunk `n` joins it. */
  predicate TooLong(g: seq<Chunk>, n: nat, i: nat, budget: nat)
    requires i <= n < |g|
  {
    forall j {:trigger ChargeBetween(g, j, n)} :: 0 <= j < i ==> ChargeBetween(g, j, n) + Charge(g[n]) > budget
  }

  /** The ring holds the chunks from `i` on without the last one, and no longer suffix can keep that one. */
  predicate Overfull(g: seq<Chunk>, i: nat, records: seq<Record>, charged: nat, budget: nat) {
    i < |g| && Window(g, |g| - 1, i, records, charged) && TooLong(g, |g| - 1, i, budget)
  }

  /** Before anything is evicted, the ring is a window of the history without its newest chunk. */
  lemma NewestArrives(h: seq<Chunk>, g: seq<Chunk>, budget: nat, records: seq<Record>, charged: nat, next: Position)
    requires |g| == |h| + 1 && h <= g && RingOk(h, budget, records, charged, next)
    ensures Overfull(g, |h| - |records|, records, charged, budget)
    ensures next == PositionAt(g, |h|)
    ensures next.Advance(g[|h|].channel, |g[|h|].bytes|) == PositionAt(g, |g|)
  {
    PositionOfPrefix(h, g, |h|);
    RangeOfPrefix(h, g, |h| - |records|, |h|);
    FitOfPrefix(h, g, |h|, budget, |h| - |records|);
  }

  /** A chunk that cannot fit at all leaves only the empty suffix. */
  lemma NothingFits(g: seq<Chunk>, budget: nat, next: Position)
    requires g != [] && Charge(g[|g| - 1]) > budget && next == PositionAt(g, |g|)
    ensures RingOk(g, budget, [], 0, next)
  {
    var m := |g|;
    forall i | 0 <= i < m ensures ChargeBetween(g, i, m) > budget {
      ChargeOfOneMore(g, i, m - 1);
    }
  }

  lemma NewestFits(g: seq<Chunk>, i: nat, records: seq<Record>, charged: nat, budget: nat, start: Position)
    requires Overfull(g, i, records, charged, budget) && charged + Charge(g[|g| - 1]) <= budget
    requires start == PositionAt(g, |g| - 1)
    ensures RingOk(g, budget, records + [LiveRecord(start, g[|g| - 1])], charged + Charge(g[|g| - 1]),
        PositionAt(g, |g|))
  {
    Appended(g, |g| - 1, i, records, charged, budget);
  }

  /** An overfull ring is not empty, and without its oldest record it is still a window of the history. */
  lemma Evicted(g: seq<Chunk>, n: nat, i: nat, records: seq<Record>, charged: nat, budget: nat)
    requires |g| == n + 1 && i <= n && Window(g, n, i, records, charged) && TooLong(g, n, i, budget)
    requires charged + Charge(g[n]) > budget >= Charge(g[n])
    ensures i < n && records != [] && Charge(records[0].chunk) <= charged
    ensures Window(g, n, i + 1, records[1..], charged - Charge(records[0].chunk)) && TooLong(g, n, i + 1, budget)
  {
  }

  lemma Appended(g: seq<Chunk>, n: nat, i: nat, records: seq<Record>, charged: nat, budget: nat)
    requires |g| == n + 1 && i <= n && Window(g, n, i, records, charged) && TooLong(g, n, i, budget)
    requires charged + Charge(g[n]) <= budget
    ensures LongestFit(g, n + 1, budget, i) && |records| == n - i
    ensures Window(g, n + 1, i, records + [LiveRecord(PositionAt(g, n), g[n])], charged + Charge(g[n]))
  {
    RecordCount(g, i, n);
    RecordsOfOneMore(g, i, n);
    ChargeOfOneMore(g, i, n);
    var m := n + 1;
    forall j | 0 <= j < i ensures ChargeBetween(g, j, m) > budget {
      ChargeOfOneMore(g, j, n);
    }
  }

  /** Bytes of some records. */
  function Payload(rs: seq<Record>): nat {
    if rs == [] then 0 else |rs[0].chunk.bytes| + Payload(rs[1..])
  }

  lemma {:induction false} ChargeCountsRecords(h: seq<Chunk>, a: nat, b: nat)
    requires a <= b <= |h|
    ensures ChargeBetween(h, a, b) == Payload(RecordsBetween(h, a, b)) + 64 * (b - a)
    decreases b - a
  {
    if a < b {
      var r, rest := LiveRecord(PositionAt(h, a), h[a]), RecordsBetween(h, a + 1, b);
      assert ([r] + rest)[1..] == rest;
      ChargeCountsRecords(h, a + 1, b);
    }
  }

  /** Whatever was recorded, payload and 64 bytes for every record stay within the budget. */
  lemma RingIsBounded(capture: LiveCapture)
    requires capture.Valid()
    ensures Payload(capture.records) + 64 * |capture.records| == capture.charged <= capture.budget
  {
    ChargeCountsRecords(capture.history, |capture.history| - |capture.records|, |capture.history|);
  }

  // ---------------------------------------------------------------- reading

  /** What a reader resuming at chunk `k` is given after `n` chunks, in terms of the history alone. */
  function SpecRead(h: seq<Chunk>, n: nat, first: nat, k: nat): Read
    requires first <= n <= |h| && k <= n
  {
    Read(if k < first then Some(Gap(PositionAt(h, k), PositionAt(h, first))) else None,
         RecordsBetween(h, if k < first then first else k, n), PositionAt(h, n))
  }

  lemma {:induction false} RetainedIsSuffix(h: seq<Chunk>, first: nat, n: nat, k: nat)
    requires first <= n <= |h| && k <= n
    ensures Retained(RecordsBetween(h, first, n), k) == RecordsBetween(h, if k < first then first else k, n)
    decreases n - first
  {
    if first < n {
      var rest := RecordsBetween(h, first + 1, n);
      assert RecordsBetween(h, first, n)[1..] == rest;
      RetainedIsSuffix(h, first + 1, n, k);
    }
  }

  /** Whatever was recorded later, the ring answers a position of its history as the history itself would. */
  lemma ReadRefinesHistory(capture: LiveCapture, h: seq<Chunk>, k: nat)
    requires capture.Valid() && capture.history <= h && k <= |capture.history|
    ensures var n := |capture.history|;
            var first := n - |capture.records|;
            && LongestFit(h, n, capture.budget, first)
            && capture.ReadFrom(PositionAt(h, k)) == Some(SpecRead(h, n, first, k))
  {
    var n, g := |capture.history|, capture.history;
    var first := n - |capture.records|;
    FitOfPrefix(g, h, n, capture.budget, first);
    RetainedIsSuffix(g, first, n, k);
    RangeOfPrefix(g, h, if k < first then first else k, n);
    PositionOfPrefix(g, h, k);
    PositionOfPrefix(g, h, first);
    PositionOfPrefix(g, h, n);
  }

  /** A cursor is refused exactly when it lies beyond everything recorded. */
  lemma OnlyFutureCursorsAreRefused(capture: LiveCapture, cursor: Position)
    requires capture.Valid()
    ensures capture.ReadFrom(cursor) == None <==> cursor.seqno > |capture.history|
  {
  }

  /** One visit of a reader: how long the history was, and where the ring began. */
  datatype Visit = Visit(length: nat, first: nat)

  /** A reader that always resumes from the position it was last given, over a growing history. */
  ghost predicate Visits(h: seq<Chunk>, budget: nat, visits: seq<Visit>) {
    forall v: nat {:trigger VisitOk(h, budget, visits, v)} :: v < |visits| ==> VisitOk(h, budget, visits, v)
  }

  predicate VisitOk(h: seq<Chunk>, budget: nat, visits: seq<Visit>, v: nat)
    requires v < |visits|
  {
    && Cursor(visits, v) <= visits[v].length <= |h|
    && LongestFit(h, visits[v].length, budget, visits[v].first)
  }

  /** The chunk a reader resumes at after `v` visits. */
  function Cursor(visits: seq<Visit>, v: nat): nat
    requires v <= |visits|
  {
    if v == 0 then 0 else visits[v - 1].length
  }

  /** What the visit number `v` returns. */
  ghost function Result(h: seq<Chunk>, budget: nat, visits: seq<Visit>, v: nat): Read
    requires Visits(h, budget, visits) && v < |visits|
  {
    assert VisitOk(h, budget, visits, v);
    SpecRead(h, visits[v].length, visits[v].first, Cursor(visits, v))
  }

  function GapBytes(gap: Option<Gap>, channel: Channel): int {
    if gap.None? then 0
    else if channel.Stdout? then gap.value.to.stdoutBytes - gap.value.from.stdoutBytes
    else gap.value.to.stderrBytes - gap.value.from.stderrBytes
  }

  function Chunks(rs: seq<Record>): seq<Chunk> {
    if rs == [] then [] else [rs[0].chunk] + Chunks(rs[1..])
  }

  function RecordBytes(rs: seq<Record>, channel: Channel): nat {
    if rs == [] then 0 else On(rs[0].chunk, channel) + RecordBytes(rs[1..], channel)
  }

  /** The chunks of the history a gap stands for: those between its two sequence numbers. */
  function Skipped(h: seq<Chunk>, gap: Option<Gap>): seq<Chunk> {
    if gap.None? || !(gap.value.from.seqno <= gap.value.to.seqno <= |h|) then []
    else h[gap.value.from.seqno..gap.value.to.seqno]
  }

  /** The chunks one read accounts for. */
  function Shown(h: seq<Chunk>, r: Read): seq<Chunk> {
    Skipped(h, r.gap) + Chunks(r.records)
  }

  /** The history rebuilt from what the reader saw: every gap, then every record, visit by visit. */
  ghost function Rebuilt(h: seq<Chunk>, budget: nat, visits: seq<Visit>, v: nat): seq<Chunk>
    requires Visits(h, budget, visits) && v <= |visits|
  {
    if v == 0 then []
    else Rebuilt(h, budget, visits, v - 1) + Shown(h, Result(h, budget, visits, v - 1))
  }

  /** Bytes lost in gaps plus bytes delivered over the first `v` visits. */
  ghost function Accounted(h: seq<Chunk>, budget: nat, visits: seq<Visit>, v: nat, channel: Channel): int
    requires Visits(h, budget, visits) && v <= |visits|
  {
    if v == 0 then 0
    else var r := Result(h, budget, visits, v - 1);
         Accounted(h, budget, visits, v - 1, channel) + GapBytes(r.gap, channel) + RecordBytes(r.records, channel)
  }

  lemma {:induction false} ChunksOfRecords(h: seq<Chunk>, a: nat, b: nat)
    requires a <= b <= |h|
    ensures Chunks(RecordsBetween(h, a, b)) == h[a..b]
    decreases b - a
  {
    if a < b {
      var rest := RecordsBetween(h, a + 1, b);
      assert RecordsBetween(h, a, b)[1..] == rest;
      ChunksOfRecords(h, a + 1, b);
    }
  }

  lemma ConsRecord(r: Record, rest: seq<Record>, channel: Channel)
    ensures RecordBytes([r] + rest, channel) == On(r.chunk, channel) + RecordBytes(rest, channel)
  {
    assert ([r] + rest)[1..] == rest;
  }

  lemma {:induction false} BytesOfRecords(h: seq<Chunk>, a: nat, b: nat, channel: Channel)
    requires a <= b <= |h|
    ensures RecordBytes(RecordsBetween(h, a, b), channel) == BytesUpTo(h, b, channel) - BytesUpTo(h, a, channel)
    decreases b - a
  {
    if a < b {
      ConsRecord(LiveRecord(PositionAt(h, a), h[a]), RecordsBetween(h, a + 1, b), channel);
      BytesOfRecords(h, a + 1, b, channel);
    }
  }

  /** One read covers exactly the chunks between its cursor and the end of the history. */
  lemma ReadIsExact(h: seq<Chunk>, n: nat, first: nat, k: nat)
    requires first <= n <= |h| && k <= n
    ensures Shown(h, SpecRead(h, n, first, k)) == h[k..n]
  {
    var from := if k < first then first else k;
    ChunksOfRecords(h, from, n);
  }

  lemma ReadBytesAreExact(h: seq<Chunk>, n: nat, first: nat, k: nat, channel: Channel)
    requires first <= n <= |h| && k <= n
    ensures var r := SpecRead(h, n, first, k);
            GapBytes(r.gap, channel) + RecordBytes(r.records, channel)
                == BytesUpTo(h, n, channel) - BytesUpTo(h, k, channel)
  {
    BytesOfRecords(h, if k < first then first else k, n, channel);
  }

  lemma PrefixOf(h: seq<Chunk>, k: nat, n: nat)
    requires k <= n <= |h|
    ensures h[..k] + h[k..n] == h[..n]
  {
  }

  predicate Covered(h: seq<Chunk>, rebuilt: seq<Chunk>, n: nat) {
    n <= |h| && rebuilt == h[..n]
  }

  lemma CoveredByOneMore(h: seq<Chunk>, rebuilt: seq<Chunk>, n: nat, first: nat, k: nat)
    requires Covered(h, rebuilt, k) && k <= n && first <= n <= |h|
    ensures Covered(h, rebuilt + Shown(h, SpecRead(h, n, first, k)), n)
  {
    ReadIsExact(h, n, first, k);
    PrefixOf(h, k, n);
  }

  /** Gaps and records of any visiting schedule partition the history: nothing duplicated, lost unseen or reordered. */
  lemma {:induction false} VisitsPartitionHistory(h: seq<Chunk>, budget: nat, visits: seq<Visit>, v: nat)
    requires Visits(h, budget, visits) && v <= |visits|
    ensures Covered(h, Rebuilt(h, budget, visits, v), Cursor(visits, v))
  {
    if v == 0 {
      assert h[..0] == [];
    } else {
      VisitsPartitionHistory(h, budget, visits, v - 1);
      assert VisitOk(h, budget, visits, v - 1);
      CoveredByOneMore(h, Rebuilt(h, budget, visits, v - 1), visits[v - 1].length, visits[v - 1].first,
          Cursor(visits, v - 1));
    }
  }

  /** Per channel, gap lengths plus delivered bytes are exactly the bytes recorded up to the last visit. */
  lemma {:induction false} EveryByteIsAccountedFor(h: seq<Chunk>, budget: nat, visits: seq<Visit>, v: nat,
      channel: Channel)
    requires Visits(h, budget, visits) && v <= |visits|
    ensures Cursor(visits, v) <= |h|
    ensures Accounted(h, budget, visits, v, channel) == BytesUpTo(h, Cursor(visits, v), channel)
  {
    if v > 0 {
      EveryByteIsAccountedFor(h, budget, visits, v - 1, channel);
      assert VisitOk(h, budget, visits, v - 1);
      ReadBytesAreExact(h, visits[v - 1].length, visits[v - 1].first, Cursor(visits, v - 1), channel);
    }
  }
}
