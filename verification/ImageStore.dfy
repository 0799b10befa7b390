/**
 * The image custodian's store (src/image.rs:468-560): a cache of sealed executable images under a
 * count and a byte budget, evicted least recently used first, and the token bucket that limits how
 * fast images are created. Requests, the clock and the outcome of materialising are inputs.
 */
module ImageStore {

  import opened Options

  datatype Key = Key(len: nat, digest: string)

  /** A sealed image; `key` is the length and digest its bytes were checked against. */
  datatype Image = Image(key: Key, file: nat)

  datatype Limits = Limits(bytes: nat, count: nat)

  // ---------------------------------------------------------------- recency

  /** Total length of the images of some keys. */
  function Lengths(keys: seq<Key>): nat {
    if keys == [] then 0 else keys[0].len + Lengths(keys[1..])
  }

  function Without(keys: seq<Key>, key: Key): seq<Key> {
    if keys == [] then []
    else if keys[0] == key then Without(keys[1..], key)
    else [keys[0]] + Without(keys[1..], key)
  }

  /** The distinct keys of a log of uses, least recently used first. */
  function ByLastUse(uses: seq<Key>): seq<Key> {
    if uses == [] then []
    else Without(ByLastUse(uses[..|uses| - 1]), uses[|uses| - 1]) + [uses[|uses| - 1]]
  }

  /** One past the position of the last use of a key, zero when it was never used. */
  function LastUse(uses: seq<Key>, key: Key): nat {
    if uses == [] then 0
    else if uses[|uses| - 1] == key then |uses|
    else LastUse(uses[..|uses| - 1], key)
  }

  predicate Distinct(keys: seq<Key>) {
    forall i, j :: 0 <= i < j < |keys| ==> keys[i] != keys[j]
  }

  predicate SuffixOf(a: seq<Key>, b: seq<Key>) {
    |a| <= |b| && a == b[|b| - |a|..]
  }

  lemma {:induction false} WithoutIsOthers(keys: seq<Key>, key: Key)
    ensures forall k :: k in Without(keys, key) <==> k in keys && k != key
  {
    if keys != [] {
      WithoutIsOthers(keys[1..], key);
      assert keys == [keys[0]] + keys[1..];
    }
  }

  lemma {:induction false} WithoutConcat(a: seq<Key>, b: seq<Key>, key: Key)
    ensures Without(a + b, key) == Without(a, key) + Without(b, key)
  {
    if a == [] {
      assert a + b == b;
    } else {
      assert (a + b)[1..] == a[1..] + b;
      WithoutConcat(a[1..], b, key);
    }
  }

  lemma {:induction false} WithoutAbsent(keys: seq<Key>, key: Key)
    requires key !in keys
    ensures Without(keys, key) == keys
  {
    if keys != [] {
      WithoutAbsent(keys[1..], key);
      assert keys == [keys[0]] + keys[1..];
    }
  }

  lemma {:induction false} LengthsConcat(a: seq<Key>, b: seq<Key>)
    ensures Lengths(a + b) == Lengths(a) + Lengths(b)
  {
    if a == [] {
      assert a + b == b;
    } else {
      assert (a + b)[1..] == a[1..] + b;
      LengthsConcat(a[1..], b);
    }
  }

  /** Removing the one occurrence of a key shortens by one, and by its length. */
  lemma {:induction false} WithoutPresent(keys: seq<Key>, key: Key)
    requires key in keys && Distinct(keys)
    ensures |Without(keys, key)| == |keys| - 1 && Lengths(Without(keys, key)) == Lengths(keys) - key.len
  {
    assert keys == [keys[0]] + keys[1..];
    if keys[0] == key {
      WithoutAbsent(keys[1..], key);
    } else {
      WithoutPresent(keys[1..], key);
      LengthsConcat([keys[0]], Without(keys[1..], key));
    }
  }

  /** An order by last use: each key strictly later than those before it. */
  predicate Ordered(keys: seq<Key>, uses: seq<Key>) {
    forall i, j :: 0 <= i < j < |keys| ==> LastUse(uses, keys[i]) < LastUse(uses, keys[j])
  }

  lemma {:induction false} LastUseBounds(uses: seq<Key>, key: Key)
    ensures LastUse(uses, key) <= |uses|
    ensures LastUse(uses, key) > 0 <==> key in uses
    ensures LastUse(uses, key) > 0 ==> uses[LastUse(uses, key) - 1] == key
    ensures forall i :: LastUse(uses, key) <= i < |uses| ==> uses[i] != key
  {
    if uses != [] {
      LastUseBounds(uses[..|uses| - 1], key);
      assert uses == uses[..|uses| - 1] + [uses[|uses| - 1]];
    }
  }

  lemma {:induction false} WithoutKeepsOrder(keys: seq<Key>, uses: seq<Key>, key: Key)
    requires Ordered(keys, uses)
    ensures Ordered(Without(keys, key), uses)
  {
    if keys != [] {
      var rest := keys[1..];
      WithoutKeepsOrder(rest, uses, key);
      WithoutIsOthers(rest, key);
      forall k | k in rest ensures LastUse(uses, keys[0]) < LastUse(uses, k) {
        var i :| 0 <= i < |rest| && rest[i] == k;
        assert keys[i + 1] == k;
      }
      var w := Without(keys, key);
      if keys[0] != key {
        forall i, j | 0 <= i < j < |w| ensures LastUse(uses, w[i]) < LastUse(uses, w[j]) {
          assert w[j] == Without(rest, key)[j - 1];
          if i > 0 { assert w[i] == Without(rest, key)[i - 1]; }
        }
      }
    }
  }

  /** The order holds exactly the used keys, and orders them by their last use. */
  lemma {:induction false} ByLastUseIsTheOrder(uses: seq<Key>)
    ensures forall k :: k in ByLastUse(uses) <==> k in uses
    ensures Ordered(ByLastUse(uses), uses)
  {
    if uses != [] {
      var n := |uses| - 1;
      var before, key := uses[..n], uses[n];
      ByLastUseIsTheOrder(before);
      var o := ByLastUse(before);
      WithoutIsOthers(o, key);
      WithoutKeepsOrder(o, before, key);
      assert uses == before + [key];
      OrderAfterUse(Without(o, key), before, key);
    }
  }

  lemma OrderAfterUse(others: seq<Key>, before: seq<Key>, key: Key)
    requires Ordered(others, before) && key !in others
    ensures Ordered(others + [key], before + [key])
  {
    var uses := before + [key];
    assert uses[..|uses| - 1] == before;
    forall i, j | 0 <= i < j < |others + [key]|
      ensures LastUse(uses, (others + [key])[i]) < LastUse(uses, (others + [key])[j])
    {
      assert others[i] != key;
      LastUseBounds(before, others[i]);
      if j < |others| {
        assert others[j] != key;
      }
    }
  }

  lemma SuffixIsOrdered(keys: seq<Key>, uses: seq<Key>)
    requires SuffixOf(keys, ByLastUse(uses))
    ensures Ordered(keys, uses) && Distinct(keys)
  {
    ByLastUseIsTheOrder(uses);
    var all := ByLastUse(uses);
    var d := |all| - |keys|;
    forall i, j | 0 <= i < j < |keys| ensures LastUse(uses, keys[i]) < LastUse(uses, keys[j]) {
      assert keys[i] == all[d + i] && keys[j] == all[d + j];
    }
  }

  lemma UseMovesToEnd(uses: seq<Key>, key: Key)
    ensures ByLastUse(uses + [key]) == Without(ByLastUse(uses), key) + [key]
  {
    assert (uses + [key])[..|uses|] == uses;
  }

  lemma SuffixOfConcat(dropped: seq<Key>, keys: seq<Key>)
    ensures SuffixOf(keys, dropped + keys)
  {
  }

  lemma UseMovesWithin(dropped: seq<Key>, keys: seq<Key>, key: Key)
    ensures Without(dropped + keys, key) + [key] == Without(dropped, key) + (Without(keys, key) + [key])
  {
    WithoutConcat(dropped, keys, key);
  }

  lemma SuffixAfterUse(all: seq<Key>, keys: seq<Key>, key: Key)
    requires SuffixOf(keys, all)
    ensures SuffixOf(Without(keys, key) + [key], Without(all, key) + [key])
  {
    var dropped := all[..|all| - |keys|];
    assert all == dropped + keys;
    UseMovesWithin(dropped, keys, key);
    SuffixOfConcat(Without(dropped, key), Without(keys, key) + [key]);
  }

  /** One more use moves its key to the end of the order, and of any suffix of it. */
  lemma UseKeepsSuffix(keys: seq<Key>, uses: seq<Key>, key: Key)
    requires SuffixOf(keys, ByLastUse(uses))
    ensures SuffixOf(Without(keys, key) + [key], ByLastUse(uses + [key]))
  {
    UseMovesToEnd(uses, key);
    SuffixAfterUse(ByLastUse(uses), keys, key);
  }

  // ---------------------------------------------------------------- token bucket

  /** Nanoseconds. */
  const SECOND: nat := 1_000_000_000

  datatype Bucket = Bucket(available: nat, refill: nat)

  function Min(a: nat, b: nat): nat { if a < b then a else b }

  /** Whole seconds since the last refill; none when the clock reads earlier. */
  function Elapsed(b: Bucket, now: nat): nat {
    if now < b.refill then 0 else (now - b.refill) / SECOND
  }

  /** The refill of CreationRate::take, all elapsed seconds at once. */
  function Refilled(b: Bucket, now: nat, count: nat): Bucket {
    var elapsed := Elapsed(b, now);
    if elapsed > 0 then Bucket(Min(b.available + Min(elapsed, count), count), b.refill + elapsed * SECOND) else b
  }

  /** A bucket of `count` tokens that gains one token each second it is not full. */
  function Drip(b: Bucket, now: nat, count: nat): Bucket
    decreases now - b.refill
  {
    if now < b.refill + SECOND then b
    else Drip(Bucket(Min(b.available + 1, count), b.refill + SECOND), now, count)
  }

  lemma {:induction false} BatchedRefillIsDrip(b: Bucket, now: nat, count: nat)
    requires b.available <= count
    ensures Refilled(b, now, count) == Drip(b, now, count)
    decreases now - b.refill
  {
    if now >= b.refill + SECOND {
      var next := Bucket(Min(b.available + 1, count), b.refill + SECOND);
      OneSecondLess(b.refill, now);
      BatchedRefillIsDrip(next, now, count);
    }
  }

  lemma OneSecondLess(refill: nat, now: nat)
    requires now >= refill + SECOND
    ensures (now - refill) / SECOND == 1 + (now - (refill + SECOND)) / SECOND
  {
  }

  /** One call: refill, then grant a token if there is one. */
  function Granted(b: Bucket, now: nat, count: nat): bool {
    Refilled(b, now, count).available > 0
  }

  function Taken(b: Bucket, now: nat, count: nat): Bucket {
    var r := Refilled(b, now, count);
    if r.available == 0 then r else r.(available := r.available - 1)
  }

  /** Tokens granted to calls at the given times. */
  function Grants(b: Bucket, times: seq<nat>, count: nat): nat
    decreases |times|
  {
    if times == [] then 0
    else (if Granted(b, times[0], count) then 1 else 0) + Grants(Taken(b, times[0], count), times[1..], count)
  }

  function Whole(from: nat, to: nat): nat {
    if to < from then 0 else (to - from) / SECOND
  }

  lemma TakenAccounts(b: Bucket, now: nat, count: nat, end: nat)
    requires b.available <= count && now <= end
    ensures var t := Taken(b, now, count);
            && t.available <= count
            && (if Granted(b, now, count) then 1 else 0) + t.available + Whole(t.refill, end)
               <= b.available + Whole(b.refill, end)
  {
    var elapsed := Elapsed(b, now);
    if elapsed > 0 {
      Later(b.refill, elapsed, end);
    }
  }

  lemma Later(refill: nat, elapsed: nat, end: nat)
    requires refill + elapsed * SECOND <= end
    ensures Whole(refill, end) == elapsed + Whole(refill + elapsed * SECOND, end)
  {
  }

  /** From any state, in any order of clock readings: no more grants than tokens in hand plus whole seconds passed. */
  lemma {:induction false} GrantsAreBounded(b: Bucket, times: seq<nat>, count: nat, end: nat)
    requires b.available <= count && forall i :: 0 <= i < |times| ==> times[i] <= end
    ensures Grants(b, times, count) <= b.available + Whole(b.refill, end)
    decreases |times|
  {
    if times != [] {
      TakenAccounts(b, times[0], count, end);
      GrantsAreBounded(Taken(b, times[0], count), times[1..], count, end);
    }
  }

  /** Seconds of the elapsed ones at which the bucket was not full: the tokens it gained. */
  function Gained(b: Bucket, now: nat, count: nat): nat
    decreases now - b.refill
  {
    if now < b.refill + SECOND then 0
    else (if b.available < count then 1 else 0)
         + Gained(Bucket(Min(b.available + 1, count), b.refill + SECOND), now, count)
  }

  /** The bucket after calls at the given times. */
  function AfterCalls(b: Bucket, times: seq<nat>, count: nat): Bucket
    decreases |times|
  {
    if times == [] then b else AfterCalls(Taken(b, times[0], count), times[1..], count)
  }

  /** All tokens gained over the calls. */
  function Earned(b: Bucket, times: seq<nat>, count: nat): nat
    decreases |times|
  {
    if times == [] then 0 else Gained(b, times[0], count) + Earned(Taken(b, times[0], count), times[1..], count)
  }

  lemma {:induction false} DripGains(b: Bucket, now: nat, count: nat)
    requires b.available <= count
    ensures Drip(b, now, count).available == b.available + Gained(b, now, count) <= count
    decreases now - b.refill
  {
    if now >= b.refill + SECOND {
      DripGains(Bucket(Min(b.available + 1, count), b.refill + SECOND), now, count);
    }
  }

  /** One call takes a token from the refilled bucket if there is one, and nothing else. */
  lemma TakenExactly(b: Bucket, now: nat, count: nat)
    requires b.available <= count
    ensures Granted(b, now, count) <==> b.available + Gained(b, now, count) > 0
    ensures Taken(b, now, count).refill == Drip(b, now, count).refill
    ensures Taken(b, now, count).available + (if Granted(b, now, count) then 1 else 0)
         == b.available + Gained(b, now, count)
    ensures Taken(b, now, count).available <= count
  {
    BatchedRefillIsDrip(b, now, count);
    DripGains(b, now, count);
  }

  /** Tokens are conserved over any calls: what is granted and what is left is what there was and what was gained. */
  lemma {:induction false} TokensAreConserved(b: Bucket, times: seq<nat>, count: nat)
    requires b.available <= count
    ensures AfterCalls(b, times, count).available <= count
    ensures Grants(b, times, count) + AfterCalls(b, times, count).available == b.available + Earned(b, times, count)
    decreases |times|
  {
    if times != [] {
      TakenExactly(b, times[0], count);
      TokensAreConserved(Taken(b, times[0], count), times[1..], count);
    }
  }

  /** A call is refused exactly when the grants so far have used up the first tokens and all gained since. */
  lemma RefusedExactly(b: Bucket, times: seq<nat>, now: nat, count: nat)
    requires b.available <= count
    ensures !Granted(AfterCalls(b, times, count), now, count) <==>
              Grants(b, times, count)
              == b.available + Earned(b, times, count) + Gained(AfterCalls(b, times, count), now, count)
  {
    TokensAreConserved(b, times, count);
    TakenExactly(AfterCalls(b, times, count), now, count);
  }

  /** An empty bucket grants again after a full second of nanoseconds, and not one nanosecond earlier. */
  lemma OneTokenASecond(t: nat, count: nat)
    requires count > 0
    ensures Granted(Bucket(0, t), t + 1_000_000_000, count) && !Granted(Bucket(0, t), t + 999_999_999, count)
  {
  }

  /** The first calls are granted as long as tokens are in hand, whatever the clock says. */
  lemma {:induction false} BurstIsGranted(b: Bucket, times: seq<nat>, count: nat)
    requires |times| <= b.available <= count
    ensures Grants(b, times, count) == |times|
    decreases |times|
  {
    if times != [] {
      TakenExactly(b, times[0], count);
      BurstIsGranted(Taken(b, times[0], count), times[1..], count);
    }
  }

  class CreationRate {
    var available: nat
    var refill: nat

    function Value(): Bucket
      reads this
    {
      Bucket(available, refill)
    }

    constructor (count: nat, now: nat)
      ensures Value() == Bucket(count, now)
    {
      available, refill := count, now;
    }

    /** A bucket filled each second it was not full grants exactly when it holds a token. */
    method Take(now: nat, count: nat) returns (granted: bool)
      requires available <= count
      modifies this
      ensures available <= count
      ensures granted == Granted(old(Value()), now, count)
      ensures granted <==> Drip(old(Value()), now, count).available > 0
      ensures Value() == Taken(old(Value()), now, count)
      ensures refill == Drip(old(Value()), now, count).refill
      ensures available + (if granted then 1 else 0) == Drip(old(Value()), now, count).available
    {
      BatchedRefillIsDrip(Value(), now, count);
      var elapsed := if now < refill then 0 else (now - refill) / SECOND;
      if elapsed > 0 {
        available := Min(available + Min(elapsed, count), count);
        refill := refill + elapsed * SECOND;
      }
      if available == 0 {
        return false;
      }
      available := available - 1;
      return true;
    }
  }

  // ---------------------------------------------------------------- the store

  /** There is room for `len` more bytes once the first `n` keys are gone. */
  predicate RoomAfter(keys: seq<Key>, limits: Limits, len: nat, n: nat)
    requires n <= |keys|
  {
    |keys| - n < limits.count && Lengths(keys[n..]) + len <= limits.bytes
  }

  /** `n` is the least number of evictions, oldest first, that makes room. */
  predicate Evicts(keys: seq<Key>, limits: Limits, len: nat, n: nat) {
    && n <= |keys| && RoomAfter(keys, limits, len, n)
    && forall m :: 0 <= m < n ==> !RoomAfter(keys, limits, len, m)
  }

  /** Whether a request's digest is lower-case hexadecimal. */
  predicate HexDigest(digest: string) {
    forall i :: 0 <= i < |digest| ==> '0' <= digest[i] <= '9' || 'a' <= digest[i] <= 'f'
  }

  lemma HexDigestExactly(digest: string)
    ensures HexDigest(digest) <==> forall i :: 0 <= i < |digest| ==> digest[i] in "0123456789abcdef"
  {
    forall i | 0 <= i < |digest|
      ensures digest[i] in "0123456789abcdef" <==> '0' <= digest[i] <= '9' || 'a' <= digest[i] <= 'f'
    {
      HexLetter(digest[i]);
    }
  }

  lemma HexLetter(c: char)
    ensures c in "0123456789abcdef" <==> '0' <= c <= '9' || 'a' <= c <= 'f'
  {
    assert c in "0123456789" <==> '0' <= c <= '9' by {
      assert c in "0123456789" <==>
        || c == '0' || c == '1' || c == '2' || c == '3' || c == '4'
        || c == '5' || c == '6' || c == '7' || c == '8' || c == '9';
    }
    assert c in "abcdef" <==> 'a' <= c <= 'f' by {
      assert c in "abcdef" <==> c == 'a' || c == 'b' || c == 'c' || c == 'd' || c == 'e' || c == 'f';
    }
    assert "0123456789abcdef" == "0123456789" + "abcdef";
  }

  datatype Outcome = Invalid | Busy | NotMaterialized | Served(image: Image)

  datatype Cache = Cache(images: map<Key, Image>, bytes: nat, recency: seq<Key>)

  /**
   * The cached images are exactly the most recently used distinct keys of the whole log of uses, in
   * order of last use; `bytes` is the sum of their lengths, both budgets hold, and every image is
   * the one its key names.
   */
  ghost predicate Good(c: Cache, limits: Limits, uses: seq<Key>) {
    && SuffixOf(c.recency, ByLastUse(uses))
    && |c.images| == |c.recency| <= limits.count
    && c.bytes == Lengths(c.recency) <= limits.bytes
    && forall k {:trigger KeyGood(c, k)} :: KeyGood(c, k)
  }

  predicate KeyGood(c: Cache, k: Key) {
    (k in c.images <==> k in c.recency) && (k in c.images ==> c.images[k].key == k)
  }

  /**
   * Recency is a duplicate-free order of the cached keys by last use, and whatever else was used was last
   * used earlier.
   */
  lemma CachedAreMostRecent(c: Cache, limits: Limits, uses: seq<Key>, cached: Key, gone: Key)
    requires Good(c, limits, uses) && cached in c.images && gone in uses && gone !in c.images
    ensures Ordered(c.recency, uses) && Distinct(c.recency)
    ensures LastUse(uses, gone) < LastUse(uses, cached)
  {
    SuffixIsOrdered(c.recency, uses);
    ByLastUseIsTheOrder(uses);
    assert KeyGood(c, cached) && KeyGood(c, gone);
    var all := ByLastUse(uses);
    var d := |all| - |c.recency|;
    var i :| 0 <= i < |all| && all[i] == gone;
    var j :| 0 <= j < |c.recency| && c.recency[j] == cached;
    assert all[d + j] == cached;
    assert i < d;
  }

  predicate NeedsRoom(c: Cache, limits: Limits, len: nat) {
    |c.images| >= limits.count || len + c.bytes > limits.bytes
  }

  /** The body of the eviction loop. */
  function Pop(c: Cache): Cache
    requires c.recency != []
  {
    var key := c.recency[0];
    Cache(c.images - {key}, if key.len <= c.bytes then c.bytes - key.len else 0, c.recency[1..])
  }

  lemma OneFewer(m: map<Key, Image>, k: Key)
    requires k in m
    ensures |m - {k}| == |m| - 1
  {
    assert (m - {k}).Keys == m.Keys - {k};
  }

  lemma OneMore(m: map<Key, Image>, k: Key, image: Image)
    requires k !in m
    ensures |m[k := image]| == |m| + 1
  {
    assert m[k := image].Keys == m.Keys + {k};
  }

  lemma PopKeepsKeys(c: Cache, k: Key)
    requires c.recency != [] && c.recency[0] !in c.recency[1..] && KeyGood(c, k)
    ensures KeyGood(Pop(c), k)
  {
    assert c.recency == [c.recency[0]] + c.recency[1..];
  }

  lemma PopKeepsSuffix(keys: seq<Key>, uses: seq<Key>)
    requires keys != [] && SuffixOf(keys, ByLastUse(uses))
    ensures SuffixOf(keys[1..], ByLastUse(uses)) && keys[0] !in keys[1..]
  {
    SuffixIsOrdered(keys, uses);
  }

  /** Eviction never pops an empty queue nor goes below zero bytes, and keeps the cache good. */
  lemma PopKeepsGood(c: Cache, limits: Limits, uses: seq<Key>, len: nat)
    requires Good(c, limits, uses) && limits.count > 0 && len <= limits.bytes && NeedsRoom(c, limits, len)
    ensures c.recency != [] && c.recency[0].len <= c.bytes && Good(Pop(c), limits, uses)
  {
    PopKeepsSuffix(c.recency, uses);
    assert KeyGood(c, c.recency[0]);
    OneFewer(c.images, c.recency[0]);
    forall k ensures KeyGood(Pop(c), k) {
      assert KeyGood(c, k);
      PopKeepsKeys(c, k);
    }
  }

  /** No image of `c` differs from the one `was` held for its key. */
  ghost predicate SameImages(was: Cache, c: Cache) {
    forall k {:trigger SameImage(was, c, k)} :: SameImage(was, c, k)
  }

  predicate SameImage(was: Cache, c: Cache, k: Key) {
    k in c.images ==> k in was.images && c.images[k] == was.images[k]
  }

  lemma ImagesAlone(was: Cache, c: Cache)
    requires SameImages(was, c)
    ensures SameImages(was, Cache(c.images, 0, []))
  {
    forall k ensures SameImage(was, Cache(c.images, 0, []), k) {
      assert SameImage(was, c, k);
    }
  }

  lemma PopKeepsImages(was: Cache, c: Cache)
    requires c.recency != [] && SameImages(was, c)
    ensures SameImages(was, Pop(c))
  {
    forall k ensures SameImage(was, Pop(c), k) {
      assert SameImage(was, c, k);
    }
  }

  /** What the eviction loop keeps after `n` turns. */
  ghost predicate Evicting(was: Cache, c: Cache, n: nat, limits: Limits, uses: seq<Key>, len: nat) {
    && Good(c, limits, uses)
    && n <= |was.recency| && c.recency == was.recency[n..] && SameImages(was, c)
    && forall m :: 0 <= m < n ==> !RoomAfter(was.recency, limits, len, m)
  }

  /** What the loop leaves: the shortest prefix of least recent keys is gone, and nothing else changed. */
  ghost predicate Evicted(was: Cache, c: Cache, n: nat, limits: Limits, uses: seq<Key>, len: nat) {
    && Good(c, limits, uses) && Evicts(was.recency, limits, len, n)
    && c.recency == was.recency[n..] && SameImages(was, c)
  }

  lemma EvictingStarts(c: Cache, limits: Limits, uses: seq<Key>, len: nat)
    requires Good(c, limits, uses)
    ensures Evicting(c, c, 0, limits, uses, len)
  {
  }

  lemma EvictingGoesOn(was: Cache, c: Cache, n: nat, limits: Limits, uses: seq<Key>, len: nat)
    requires Evicting(was, c, n, limits, uses, len) && limits.count > 0 && len <= limits.bytes
        && NeedsRoom(c, limits, len)
    ensures c.recency != [] && c.recency[0].len <= c.bytes && Evicting(was, Pop(c), n + 1, limits, uses, len)
  {
    PopKeepsGood(c, limits, uses, len);
    PopKeepsSuffix(c.recency, uses);
    PopKeepsImages(was, c);
  }

  lemma EvictingEnds(was: Cache, c: Cache, n: nat, limits: Limits, uses: seq<Key>, len: nat)
    requires Evicting(was, c, n, limits, uses, len) && !NeedsRoom(c, limits, len)
    ensures Evicted(was, c, n, limits, uses, len)
  {
  }

  /** The new cache after a use of `key`, which `images` and `bytes` already count. */
  function Used(c: Cache, key: Key): Cache {
    c.(recency := Without(c.recency, key) + [key])
  }

  lemma HitKeepsGood(c: Cache, limits: Limits, uses: seq<Key>, key: Key)
    requires Good(c, limits, uses) && key in c.images && KeyGood(c, key)
    ensures Good(Used(c, key), limits, uses + [key])
  {
    UseKeepsSuffix(c.recency, uses, key);
    SuffixIsOrdered(c.recency, uses);
    WithoutPresent(c.recency, key);
    WithoutIsOthers(c.recency, key);
    LengthsConcat(Without(c.recency, key), [key]);
    forall k ensures KeyGood(Used(c, key), k) {
      assert KeyGood(c, k);
    }
  }

  /** The new cache after a new image is added and used. */
  function Added(c: Cache, image: Image): Cache {
    Used(Cache(c.images[image.key := image], c.bytes + image.key.len, c.recency), image.key)
  }

  lemma AddKeepsKeys(c: Cache, image: Image, k: Key)
    requires KeyGood(c, k)
    ensures KeyGood(Added(c, image), k)
  {
    WithoutIsOthers(c.recency, image.key);
  }

  lemma MissKeepsGood(c: Cache, limits: Limits, uses: seq<Key>, image: Image)
    requires Good(c, limits, uses) && image.key !in c.images && !NeedsRoom(c, limits, image.key.len)
    ensures Without(c.recency, image.key) == c.recency
    ensures Good(Added(c, image), limits, uses + [image.key])
  {
    var key := image.key;
    assert KeyGood(c, key);
    UseKeepsSuffix(c.recency, uses, key);
    WithoutAbsent(c.recency, key);
    LengthsConcat(c.recency, [key]);
    OneMore(c.images, key, image);
    forall k ensures KeyGood(Added(c, image), k) {
      assert KeyGood(c, k);
      AddKeepsKeys(c, image, k);
    }
  }

  /** An added image is the only one that was not there before. */
  lemma AddKeepsImages(was: Cache, c: Cache, image: Image)
    requires SameImages(was, c) && image.key !in c.images
    ensures SameImages(was, Cache(c.images[image.key := image] - {image.key}, 0, []))
  {
    assert c.images[image.key := image] - {image.key} == c.images;
    ImagesAlone(was, c);
  }

  datatype View = View(cache: Cache, bucket: Bucket, uses: seq<Key>)

  /** What one valid request does: a hit only moves its key; a miss spends a token, evicts the fewest and adds one. */
  ghost predicate Acquired(key: Key, now: nat, made: Option<Image>, limits: Limits, was: View, after: View,
      r: Outcome, n: nat) {
    if key in was.cache.images then
      r == Served(was.cache.images[key]) && after == Touched(was, key)
    else
      && after.bucket == Taken(was.bucket, now, limits.count)
      && if !Granted(was.bucket, now, limits.count) then
           r == Busy && after.cache == was.cache && after.uses == was.uses
         else
           && Evicts(was.cache.recency, limits, key.len, n)
           && match made
              case None =>
                && r == NotMaterialized && after.uses == was.uses
                && after.cache.recency == was.cache.recency[n..] && SameImages(was.cache, after.cache)
              case Some(image) =>
                && r == Served(image) && after.uses == was.uses + [key]
                && after.cache.recency == was.cache.recency[n..] + [key]
                && key in after.cache.images && after.cache.images[key] == image
                && SameImages(was.cache, Cache(after.cache.images - {key}, 0, []))
  }

  /**
   * What the branch for a key that is not cached does, before the key is marked used; `room` is the cache
   * after evictions.
   */
  ghost predicate Created(key: Key, now: nat, made: Option<Image>, limits: Limits, was: View, after: View,
                          r: Outcome, n: nat, room: Cache) {
    && after.uses == was.uses && after.bucket == Taken(was.bucket, now, limits.count)
    && if !Granted(was.bucket, now, limits.count) then r == Busy && after.cache == was.cache
       else
         && Evicted(was.cache, room, n, limits, was.uses, key.len)
         && match made
            case None => r == NotMaterialized && after.cache == room
            case Some(image) =>
              && r == Served(image) && key !in room.images && image.key == key
              && after.cache == Cache(room.images[key := image], room.bytes + key.len, room.recency)
              && Without(room.recency, key) == room.recency
  }

  function Touched(v: View, key: Key): View {
    View(Used(v.cache, key), v.bucket, v.uses + [key])
  }

  lemma CreatedIsAcquired(key: Key, now: nat, made: Option<Image>, limits: Limits, was: View, after: View,
                          r: Outcome, n: nat, room: Cache)
    requires Created(key, now, made, limits, was, after, r, n, room) && key !in was.cache.images
    ensures Acquired(key, now, made, limits, was, if r.Served? then Touched(after, key) else after, r, n)
  {
    if Granted(was.bucket, now, limits.count) && made.Some? {
      AddKeepsImages(was.cache, room, made.value);
    }
  }

  class Store {
    var images: map<Key, Image>
    var bytes: nat
    const limits: Limits
    var recency: seq<Key>
    const creation: CreationRate
    /** Every use of an image ever made, oldest first. */
    ghost var uses: seq<Key>

    function State(): Cache
      reads this
    {
      Cache(images, bytes, recency)
    }

    /** The whole state: the cache, the bucket and the log. */
    ghost function Seen(): View
      reads this, creation
    {
      View(State(), creation.Value(), uses)
    }

    ghost predicate Valid()
      reads this, creation
    {
      limits.count > 0 && creation.available <= limits.count && Good(State(), limits, uses)
    }

    constructor (limits: Limits, now: nat)
      requires limits.count > 0
      ensures Valid() && images == map[] && uses == [] && this.limits == limits
      ensures fresh(creation) && creation.Value() == Bucket(limits.count, now)
    {
      this.limits := limits;
      images, bytes, recency, uses := map[], 0, [], [];
      creation := new CreationRate(limits.count, now);
    }

    /** The body of the eviction loop. */
    method EvictOldest()
      requires recency != [] && recency[0].len <= bytes
      modifies this
      ensures State() == Pop(old(State())) && uses == old(uses)
    {
      var key := recency[0];
      recency := recency[1..];
      images := images - {key};
      bytes := bytes - key.len;
    }

    /** Evicts the least recently used images, and only as many as room requires. */
    method MakeRoom(len: nat) returns (ghost n: nat)
      requires Valid() && len <= limits.bytes
      modifies this
      ensures Valid() && uses == old(uses) && !NeedsRoom(State(), limits, len)
      ensures Evicted(old(State()), State(), n, limits, uses, len)
    {
      ghost var was := State();
      n := 0;
      EvictingStarts(was, limits, uses, len);
      while |images| >= limits.count || len > limits.bytes - bytes
        invariant Evicting(was, State(), n, limits, uses, len) && uses == old(uses)
        decreases |recency|
      {
        EvictingGoesOn(was, State(), n, limits, uses, len);
        EvictOldest();
        n := n + 1;
      }
      EvictingEnds(was, State(), n, limits, uses, len);
    }

    /** The tail that a hit and a miss share: the key becomes the most recently used. */
    method Touch(key: Key)
      requires Good(Used(State(), key), limits, uses + [key])
      modifies this
      ensures Seen() == Touched(old(Seen()), key) && Good(State(), limits, uses)
    {
      recency := Without(recency, key) + [key];
      uses := uses + [key];
    }

    /**
     * A key that is not cached: spend a token, make room, materialise. `room` is the cache before the image
     * joins it.
     */
    method Create(key: Key, now: nat, made: Option<Image>) returns (r: Outcome, ghost n: nat, ghost room: Cache)
      requires Valid() && key !in images && key.len <= limits.bytes && (made.Some? ==> made.value.key == key)
      modifies this, creation
      ensures creation.available <= limits.count
      ensures Created(key, now, made, limits, old(Seen()), Seen(), r, n, room)
      ensures if r.Served? then Good(Used(State(), key), limits, uses + [key]) else Good(State(), limits, uses)
    {
      n, room := 0, State();
      ghost var was := State();
      var granted := creation.Take(now, limits.count);
      if !granted {
        return Busy, n, room;
      }
      n := MakeRoom(key.len);
      room := State();
      if made.None? {
        return NotMaterialized, n, room;
      }
      assert SameImage(was, room, key);
      MissKeepsGood(room, limits, uses, made.value);
      images := images[key := made.value];
      bytes := bytes + key.len;
      r := Served(made.value);
    }

    /** A valid request: serve the image, creating it if it is not cached and the rate allows. */
    method Acquire(key: Key, now: nat, made: Option<Image>) returns (r: Outcome, ghost n: nat)
      requires Valid() && key.len <= limits.bytes && (made.Some? ==> made.value.key == key)
      modifies this, creation
      ensures Valid()
      ensures Acquired(key, now, made, limits, old(Seen()), Seen(), r, n)
      ensures r.Served? ==> r.image.key == key
    {
      n := 0;
      if key !in images {
        ghost var room;
        ghost var was := Seen();
        r, n, room := Create(key, now, made);
        CreatedIsAcquired(key, now, made, limits, was, Seen(), r, n, room);
        if !r.Served? {
          return;
        }
      } else {
        assert KeyGood(State(), key);
        HitKeepsGood(State(), limits, uses, key);
        r := Served(images[key]);
      }
      Touch(key);
    }

    /**
     * One request. `source` is the size of an executable regular file, if the descriptor names one;
     * `made` is what materialising it yields. Every exit leaves the store valid, and what is sent is
     * always an image of exactly the requested length and digest.
     */
    method Serve(key: Key, source: Option<nat>, now: nat, made: Option<Image>) returns (r: Outcome, ghost n: nat)
      requires Valid() && (made.Some? ==> made.value.key == key)
      modifies this, creation
      ensures Valid()
      ensures r == Invalid <==> !HexDigest(key.digest) || source != Some(key.len) || key.len > limits.bytes
      ensures r == Invalid ==> Seen() == old(Seen())
      ensures r != Invalid ==> Acquired(key, now, made, limits, old(Seen()), Seen(), r, n)
      ensures r.Served? ==> r.image.key == key
    {
      if !HexDigest(key.digest) || source.None? || source.value > limits.bytes || source.value != key.len {
        return Invalid, 0;
      }
      r, n := Acquire(key, now, made);
    }
  }
}
