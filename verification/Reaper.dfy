/**
 * Removal of retired state directories (src/state.rs: reap_state_dirs, next_reap_shard,
 * handle_reap_shard, causal_parent_retains). Everything else that eligibility, locks and
 * remove_dir_all decide about a handle is an arbitrary predicate of each pass.
 */
module Reaper {

  /** A directory name, as the bytes the shard hash runs over. */
  type Handle = seq<bv8>

  /** The accepted-work evidence of a handle; a nested parent is one path component. */
  datatype Registration = NoAcceptance | Unreadable | Root | Nested(parent: Handle)

  type Directories = map<Handle, Registration>

  const HANDLE_PREFIX: Handle := [97, 98, 95]

  predicate IsHandle(name: Handle) {
    HANDLE_PREFIX <= name
  }

  /** Missing or malformed evidence fails closed. */
  predicate CausalParentRetains(dirs: Directories, h: Handle)
    requires h in dirs
  {
    match dirs[h]
    case NoAcceptance => false
    case Unreadable => true
    case Root => false
    case Nested(p) => !IsHandle(p) || p in dirs
  }

  /** No registered parent retains the handle: none was registered, it is a root, or its parent handle is gone. */
  predicate Loose(dirs: Directories, r: Registration) {
    r == NoAcceptance || r == Root || (r.Nested? && IsHandle(r.parent) && r.parent !in dirs)
  }

  function ReapOne(dirs: Directories, h: Handle, clear: Handle -> bool): Directories {
    if h in dirs && !CausalParentRetains(dirs, h) && clear(h) then dirs - {h} else dirs
  }

  /** One pass over the examined handles, in directory order. */
  function ReapAll(dirs: Directories, examined: seq<Handle>, clear: Handle -> bool): Directories {
    if examined == [] then dirs
    else ReapOne(ReapAll(dirs, examined[..|examined| - 1], clear), examined[|examined| - 1], clear)
  }

  function ShardHash(name: Handle): bv64 {
    if name == [] then 2_166_136_261
    else (ShardHash(name[..|name| - 1]) * 16_777_619) ^ (name[|name| - 1] as bv64)
  }

  function HandleShard(name: Handle, shards: nat): (shard: nat)
    ensures shards > 0 ==> shard < shards
  {
    (ShardHash(name) as nat) % (if shards == 0 then 1 else shards)
  }

  /** The hash of the shortest handle name, "ab_", and its shard among a thousand; no shards are one shard. */
  lemma ShardHashOfPrefix()
    ensures ShardHash(HANDLE_PREFIX) == 18_099_426_966_017_683_319 && HandleShard(HANDLE_PREFIX, 1000) == 319
    ensures HandleShard(HANDLE_PREFIX, 0) == 0
  {
    var a, ab: Handle := [97], [97, 98];
    assert a[..0] == [] && ab[..1] == a && HANDLE_PREFIX[..2] == ab;
  }

  /** The entry is a handle directory of this shard. */
  predicate InShard(name: Handle, shards: nat, shard: nat) {
    IsHandle(name) && HandleShard(name, shards) == shard
  }

  datatype Cursor = NoCursor | Cursor(value: nat)

  function CurrentShard(c: Cursor, shards: nat): nat {
    if shards <= 1 then 0 else (if c.Cursor? then c.value else 0) % shards
  }

  function NextCursor(c: Cursor, shards: nat): Cursor {
    if shards <= 1 then c else Cursor((CurrentShard(c, shards) + 1) % shards)
  }

  datatype Stats = Stats(scanned: nat, reaped: nat)

  /** The entries a pass is responsible for. */
  function Responsible(shards: nat, shard: nat): Handle -> bool {
    h => InShard(h, shards, shard)
  }

  function Assigned(entries: seq<Handle>, mine: Handle -> bool): seq<Handle> {
    if entries == [] then []
    else
      var rest := Assigned(entries[..|entries| - 1], mine);
      var h := entries[|entries| - 1];
      if mine(h) then rest + [h] else rest
  }

  class StateRoot {
    var dirs: Directories
    var cursor: Cursor

    /** next_reap_shard; a failed cursor write is ignored by the program. */
    method NextReapShard(shards: nat, writeFails: bool) returns (shard: nat)
      modifies this`cursor
      ensures shard == CurrentShard(old(cursor), shards)
      ensures shards <= 1 || old(cursor) == NoCursor ==> shard == 0
      ensures cursor == if writeFails then old(cursor) else NextCursor(old(cursor), shards)
    {
      if shards <= 1 {
        return 0;
      }
      var current := if cursor.Cursor? then cursor.value else 0;
      shard := current % shards;
      if !writeFails {
        cursor := Cursor((shard + 1) % shards);
      }
    }

    /** reap_state_entry: remove the directory unless something retains it, and say whether it was removed. */
    method ReapStateEntry(h: Handle, clear: Handle -> bool) returns (reaped: bool)
      modifies this`dirs
      ensures dirs == ReapOne(old(dirs), h, clear)
      ensures |dirs| == |old(dirs)| - if reaped then 1 else 0
      ensures reaped <==> h in old(dirs) && clear(h) && Loose(old(dirs), old(dirs)[h])
      ensures forall k :: k in dirs <==> k in old(dirs) && !(reaped && k == h)
      ensures forall k :: k in dirs ==> dirs[k] == old(dirs)[k]
    {
      reaped := h in dirs && !CausalParentRetains(dirs, h) && clear(h);
      if reaped {
        RemovalShrinks(dirs, h);
        dirs := dirs - {h};
      }
    }

    /** The loop over one directory listing: examine what is ours until a cap is reached. */
    method ReapAssigned(entries: seq<Handle>, maxDirs: nat, maxScan: nat, mine: Handle -> bool, clear: Handle -> bool)
      returns (stats: Stats, examined: seq<Handle>)
      modifies this`dirs
      ensures dirs == ReapAll(old(dirs), examined, clear)
      ensures examined <= Assigned(entries, mine)
      ensures stats.scanned == |examined| <= maxScan && stats.reaped <= maxDirs
      ensures stats.reaped == |old(dirs)| - |dirs|
      ensures stats.scanned < maxScan && stats.reaped < maxDirs ==> examined == Assigned(entries, mine)
    {
      stats, examined := Stats(0, 0), [];
      var i := 0;
      while i < |entries| && stats.scanned < maxScan && stats.reaped < maxDirs
        invariant 0 <= i <= |entries|
        invariant examined == Assigned(entries[..i], mine)
        invariant dirs == ReapAll(old(dirs), examined, clear)
        invariant stats.scanned == |examined| <= maxScan && stats.reaped <= maxDirs
        invariant stats.reaped == |old(dirs)| - |dirs|
      {
        AssignedStep(entries, i, mine);
        if mine(entries[i]) {
          ReapStep(old(dirs), examined, entries[i], clear);
          stats := stats.(scanned := stats.scanned + 1);
          examined := examined + [entries[i]];
          var reaped := ReapStateEntry(entries[i], clear);
          if reaped {
            stats := stats.(reaped := stats.reaped + 1);
          }
        }
        i := i + 1;
      }
      AssignedPrefix(entries, i, mine);
      assert entries[..|entries|] == entries;
    }

    /**
     * reap_state_dirs over one directory listing. `clear` answers for a handle whose locks were
     * free, whose other evidence allows removal and whose removal succeeds.
     */
    method ReapStateDirs(entries: seq<Handle>, maxDirs: nat, maxScan: nat, shards: nat,
                         clear: Handle -> bool, cursorWriteFails: bool)
      returns (stats: Stats, examined: seq<Handle>)
      modifies this
      ensures dirs == ReapAll(old(dirs), examined, clear)
      ensures examined <= Assigned(entries, Responsible(shards, CurrentShard(old(cursor), shards)))
      ensures stats.scanned == |examined| <= maxScan && stats.reaped <= maxDirs
      ensures stats.reaped == |old(dirs)| - |dirs|
      ensures maxScan > 0 && maxDirs > 0 && stats.scanned < maxScan && stats.reaped < maxDirs ==>
        examined == Assigned(entries, Responsible(shards, CurrentShard(old(cursor), shards)))
      ensures cursor == if maxDirs == 0 || maxScan == 0 || cursorWriteFails then old(cursor)
                        else NextCursor(old(cursor), shards)
    {
      stats, examined := Stats(0, 0), [];
      if maxDirs == 0 || maxScan == 0 {
        return;
      }
      var shard := NextReapShard(shards, cursorWriteFails);
      stats, examined := ReapAssigned(entries, maxDirs, maxScan, Responsible(shards, shard), clear);
    }
  }

  /** One entry further. */
  lemma AssignedStep(entries: seq<Handle>, i: nat, mine: Handle -> bool)
    requires i < |entries|
    ensures Assigned(entries[..i + 1], mine) == Assigned(entries[..i], mine) + if mine(entries[i])
        then [entries[i]] else []
  {
    assert entries[..i + 1][..i] == entries[..i];
  }

  lemma ReapStep(dirs: Directories, examined: seq<Handle>, h: Handle, clear: Handle -> bool)
    ensures ReapAll(dirs, examined + [h], clear) == ReapOne(ReapAll(dirs, examined, clear), h, clear)
  {
    assert (examined + [h])[..|examined|] == examined;
  }

  lemma RemovalShrinks(dirs: Directories, h: Handle)
    requires h in dirs
    ensures |dirs - {h}| == |dirs| - 1
  {
    assert (dirs - {h}).Keys == dirs.Keys - {h};
    assert |(dirs - {h}).Keys| == |dirs.Keys| - 1;
  }

  lemma {:induction false} AssignedPrefix(entries: seq<Handle>, i: nat, mine: Handle -> bool)
    requires i <= |entries|
    ensures Assigned(entries[..i], mine) <= Assigned(entries, mine)
    decreases |entries|
  {
    if i < |entries| {
      AssignedPrefix(entries[..|entries| - 1], i, mine);
      assert entries[..|entries| - 1][..i] == entries[..i];
    } else {
      assert entries[..i] == entries;
    }
  }

  // ---------------------------------------------------------------- causal ancestry

  /** Every handle whose causal parent is still there afterwards is still there itself. */
  lemma {:induction false} PassKeepsChildren(dirs: Directories, examined: seq<Handle>, clear: Handle -> bool, h: Handle)
    requires h in dirs && dirs[h].Nested? && dirs[h].parent in ReapAll(dirs, examined, clear)
    ensures h in ReapAll(dirs, examined, clear)
  {
    PassShrinks(dirs, examined, clear);
    if examined != [] {
      var front := examined[..|examined| - 1];
      PassShrinks(dirs, front, clear);
      PassKeepsChildren(dirs, front, clear, h);
    }
  }

  /** The handle had its turn, everything else allowed its removal, and at that turn nothing retained it. */
  ghost predicate HadItsTurn(dirs: Directories, examined: seq<Handle>, clear: Handle -> bool, h: Handle) {
    h in dirs && clear(h)
    && exists k {:trigger examined[k]} :: 0 <= k < |examined| && examined[k] == h
         && Loose(ReapAll(dirs, examined[..k], clear), dirs[h])
  }

  lemma OneTurn(dirs: Directories, front: seq<Handle>, last: Handle, clear: Handle -> bool, h: Handle)
    ensures var before, after := ReapAll(dirs, front, clear), ReapAll(dirs, front + [last], clear);
            h in after <==> h in before && !(h == last && clear(h) && Loose(before, before[h]))
  {
    ReapStep(dirs, front, last, clear);
  }

  /** A pass removes exactly the handles that had their turn: never one that is locked, ineligible or unreadable. */
  lemma {:induction false} PassRemovesExactly(
      dirs: Directories, examined: seq<Handle>, clear: Handle -> bool, h: Handle)
    ensures h in dirs && h !in ReapAll(dirs, examined, clear) <==> HadItsTurn(dirs, examined, clear, h)
    decreases |examined|
  {
    if examined != [] && h in dirs {
      var n := |examined| - 1;
      var front := examined[..n];
      assert examined == front + [examined[n]];
      PassRemovesExactly(dirs, front, clear, h);
      OneTurn(dirs, front, examined[n], clear, h);
      PassShrinks(dirs, front, clear);
      TurnOfFront(dirs, examined, clear, h);
    }
  }

  /** A turn is one of the front's, or the last entry's own. */
  lemma TurnOfFront(dirs: Directories, examined: seq<Handle>, clear: Handle -> bool, h: Handle)
    requires examined != [] && h in dirs
    ensures var n := |examined| - 1;
            HadItsTurn(dirs, examined, clear, h) <==>
              || HadItsTurn(dirs, examined[..n], clear, h)
              || (examined[n] == h && clear(h) && Loose(ReapAll(dirs, examined[..n], clear), dirs[h]))
  {
    var n := |examined| - 1;
    var front := examined[..n];
    forall k | 0 <= k < n ensures front[k] == examined[k] && front[..k] == examined[..k] {
    }
    if HadItsTurn(dirs, front, clear, h) {
      var k :| 0 <= k < n && front[k] == h && Loose(ReapAll(dirs, front[..k], clear), dirs[h]);
      assert examined[k] == h;
    }
    if HadItsTurn(dirs, examined, clear, h) {
      var k :| 0 <= k <= n && examined[k] == h && Loose(ReapAll(dirs, examined[..k], clear), dirs[h]);
      if k < n {
        assert front[k] == h;
      }
    }
  }

  lemma {:induction false} PassShrinks(dirs: Directories, examined: seq<Handle>, clear: Handle -> bool)
    ensures forall h :: h in ReapAll(dirs, examined, clear) ==>
        h in dirs && ReapAll(dirs, examined, clear)[h] == dirs[h]
  {
    if examined != [] {
      PassShrinks(dirs, examined[..|examined| - 1], clear);
    }
  }

  /** Handles come into being under names never used before, and go only through reap passes. */
  datatype Event = Create(h: Handle, registration: Registration) | Pass(examined: seq<Handle>, clear: Handle -> bool)

  datatype State = State(dirs: Directories, used: set<Handle>)

  predicate Enabled(s: State, e: Event) {
    e.Create? ==> e.h !in s.used && IsHandle(e.h)
  }

  function Apply(s: State, e: Event): State {
    match e
    case Create(h, r) => State(s.dirs[h := r], s.used + {h})
    case Pass(examined, clear) => s.(dirs := ReapAll(s.dirs, examined, clear))
  }

  ghost predicate Run(states: seq<State>, events: seq<Event>) {
    && |states| == |events| + 1
    && states[0].dirs.Keys <= states[0].used
    && forall i {:trigger events[i]} :: 0 <= i < |events| ==>
         Enabled(states[i], events[i]) && states[i + 1] == Apply(states[i], events[i])
  }

  lemma {:induction false} NamesStayUsed(states: seq<State>, events: seq<Event>, i: nat, j: nat)
    requires Run(states, events) && i <= j < |states|
    ensures states[i].used <= states[j].used && states[j].dirs.Keys <= states[j].used
    decreases j
  {
    if j > 0 {
      NamesStayUsed(states, events, if i < j then i else j - 1, j - 1);
      if events[j - 1].Pass? { PassShrinks(states[j - 1].dirs, events[j - 1].examined, events[j - 1].clear); }
    }
  }

  /** Over any run of passes and creations, a handle outlives no retained causal parent. */
  lemma {:induction false} ParentRetainsChild(states: seq<State>, events: seq<Event>, i: nat, j: nat, h: Handle)
    requires Run(states, events) && i <= j < |states|
    requires h in states[i].dirs && states[i].dirs[h].Nested?
    requires states[i].dirs[h].parent in states[i].dirs && states[i].dirs[h].parent in states[j].dirs
    ensures h in states[j].dirs && states[j].dirs[h] == states[i].dirs[h]
    decreases j
  {
    if i < j {
      var s, e := states[j - 1], events[j - 1];
      var p := states[i].dirs[h].parent;
      NamesStayUsed(states, events, i, i);
      NamesStayUsed(states, events, i, j - 1);
      if e.Pass? { PassShrinks(s.dirs, e.examined, e.clear); }
      assert p in s.dirs;
      ParentRetainsChild(states, events, i, j - 1, h);
      if e.Pass? { PassKeepsChildren(s.dirs, e.examined, e.clear, h); }
    }
  }

  /** Evidence that cannot be read, or a parent that is no handle, retains a directory on every run. */
  lemma {:induction false} MalformedIsNeverRemoved(states: seq<State>, events: seq<Event>, i: nat, j: nat, h: Handle)
    requires Run(states, events) && i <= j < |states| && h in states[i].dirs
    requires states[i].dirs[h] == Unreadable || (states[i].dirs[h].Nested? && !IsHandle(states[i].dirs[h].parent))
    ensures h in states[j].dirs && states[j].dirs[h] == states[i].dirs[h]
    decreases j
  {
    if i < j {
      var s, e := states[j - 1], events[j - 1];
      MalformedIsNeverRemoved(states, events, i, j - 1, h);
      NamesStayUsed(states, events, i, j - 1);
      if e.Pass? {
        PassShrinks(s.dirs, e.examined, e.clear);
        PassRemovesExactly(s.dirs, e.examined, e.clear, h);
      }
    }
  }

  /** A causal chain from a descendant up to an ancestor. */
  predicate Chain(dirs: Directories, chain: seq<Handle>) {
    && chain != []
    && (forall k :: 0 <= k < |chain| ==> chain[k] in dirs)
    && (forall k :: 0 <= k < |chain| - 1 ==> dirs[chain[k]] == Nested(chain[k + 1]))
  }

  /** At any depth: while an ancestor is retained, every link of the chain below it is. */
  lemma {:induction false} AncestorRetainsDescendants(states: seq<State>, events: seq<Event>, i: nat, j: nat,
      chain: seq<Handle>)
    requires Run(states, events) && i <= j < |states|
    requires Chain(states[i].dirs, chain) && chain[|chain| - 1] in states[j].dirs
    ensures forall k :: 0 <= k < |chain| ==> chain[k] in states[j].dirs
    decreases |chain|
  {
    if |chain| > 1 {
      var upper := chain[1..];
      assert forall k :: 0 <= k < |upper| - 1 ==> states[i].dirs[upper[k]] == Nested(upper[k + 1]);
      AncestorRetainsDescendants(states, events, i, j, upper);
      assert upper[0] in states[j].dirs;
      ParentRetainsChild(states, events, i, j, chain[0]);
      forall k | 0 <= k < |chain| ensures chain[k] in states[j].dirs {
        if k > 0 { assert chain[k] == upper[k - 1]; }
      }
    }
  }

  // ---------------------------------------------------------------- shard coverage

  function CursorAfter(c: Cursor, shards: nat, passes: nat): Cursor {
    if passes == 0 then c else NextCursor(CursorAfter(c, shards, passes - 1), shards)
  }

  lemma {:induction false} ShardOfPass(c: Cursor, shards: nat, k: nat)
    requires shards > 1
    ensures CurrentShard(CursorAfter(c, shards, k), shards) == (CurrentShard(c, shards) + k) % shards
  {
    if k > 0 {
      ShardOfPass(c, shards, k - 1);
      var x := CurrentShard(c, shards) + k - 1;
      WrapsOne(x, shards);
    }
  }

  lemma WrapsOne(x: nat, n: nat)
    requires n > 1
    ensures ((x % n + 1) % n) % n == (x + 1) % n
  {
    var q, r := x / n, x % n;
    assert x == n * q + r;
    if r + 1 == n {
      assert n * (q + 1) == n * q + n;
      RemainderIs(x + 1, q + 1, 0, n);
      RemainderIs(n, 1, 0, n);
      RemainderIs(0, 0, 0, n);
    } else {
      RemainderIs(x + 1, q, r + 1, n);
      RemainderIs(r + 1, 0, r + 1, n);
    }
  }

  lemma RemainderIs(x: nat, q: nat, r: nat, n: nat)
    requires n > 0 && x == n * q + r && r < n
    ensures x % n == r
  {
    var d := x / n - q;
    assert n * d == n * (x / n) - n * q;
    OnlyZeroIsSmall(n, d);
  }

  lemma OnlyZeroIsSmall(n: int, d: int)
    requires -n < n * d < n
    ensures d == 0
  {
  }

  /** Every shard has its turn in any `shards` consecutive passes with written cursors. */
  lemma PassOfShard(c: Cursor, shards: nat, shard: nat) returns (k: nat)
    requires shard < shards
    ensures k < shards && CurrentShard(CursorAfter(c, shards, k), shards) == shard
  {
    if shards == 1 {
      k := 0;
    } else {
      var c0 := CurrentShard(c, shards);
      k := if c0 <= shard then shard - c0 else shard + shards - c0;
      ShardOfPass(c, shards, k);
      if c0 <= shard { RemainderIs(shard, 0, shard, shards); } else { RemainderIs(shard + shards, 1, shard, shards); }
    }
  }

  /** A handle is among those its pass examines. */
  lemma {:induction false} AssignedContains(entries: seq<Handle>, mine: Handle -> bool, h: Handle)
    requires h in entries && mine(h)
    ensures h in Assigned(entries, mine)
  {
    if entries[|entries| - 1] != h {
      AssignedContains(entries[..|entries| - 1], mine, h);
    }
  }

  /** Nothing but handle directories, "ab_..", of the pass's own shard is ever examined. */
  lemma {:induction false} OnlyHandlesAreAssigned(entries: seq<Handle>, shards: nat, shard: nat, h: Handle)
    requires h in Assigned(entries, Responsible(shards, shard))
    ensures h in entries && |h| >= 3 && h[0] == 97 && h[1] == 98 && h[2] == 95 && HandleShard(h, shards) == shard
  {
    if entries[|entries| - 1] != h || !Responsible(shards, shard)(h) {
      OnlyHandlesAreAssigned(entries[..|entries| - 1], shards, shard, h);
    }
  }

  /**
   * Of any `shards` consecutive passes with written cursors, over whatever listings that contain
   * the handle, one has it among the entries it is responsible for.
   */
  lemma EveryHandleIsExamined(c: Cursor, shards: nat, listings: seq<seq<Handle>>, h: Handle) returns (k: nat)
    requires shards > 0 && |listings| == shards && IsHandle(h)
    requires forall i :: 0 <= i < shards ==> h in listings[i]
    ensures k < shards && h in Assigned(listings[k],
        Responsible(shards, CurrentShard(CursorAfter(c, shards, k), shards)))
  {
    k := PassOfShard(c, shards, HandleShard(h, shards));
    AssignedContains(listings[k], Responsible(shards, HandleShard(h, shards)), h);
  }
}
