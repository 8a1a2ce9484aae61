/**
 Arithmetic of shards: which shard owns a token, how many connections each shard may have, and
 how the first connections of a pool are spread over the shards.
 */
module Sharding {
  import opened Sequences
  import opened Pooling

  const TWO32: int := 0x1_0000_0000
  const TWO63: int := 0x8000_0000_0000_0000
  const TWO64: int := 0x1_0000_0000_0000_0000

  function Pow2(n: nat): nat
  {
    if n == 0 then 1 else 2 * Pow2(n - 1)
  }

  /** The token moved to the unsigned range and shifted left, both modulo 2^64. */
  function Biased(token: int, ignoreMsb: nat): (t: int)
    ensures 0 <= t < TWO64
  {
    ((token + TWO63) % TWO64 * Pow2(ignoreMsb)) % TWO64
  }

  lemma {:induction false} Pow2Sum(a: nat, b: nat)
    ensures Pow2(a + b) == Pow2(a) * Pow2(b)
    decreases b
  {
    if b > 0 {
      Pow2Sum(a, b - 1);
      assert Pow2(a + b) == 2 * (Pow2(a) * Pow2(b - 1)) == Pow2(a) * (2 * Pow2(b - 1));
    }
  }

  lemma Pow2Of64()
    ensures Pow2(64) == TWO64
  {
    assert Pow2(8) == 0x100;
    Pow2Sum(8, 8);
    Pow2Sum(16, 16);
    Pow2Sum(32, 32);
  }

  /** Scaling both by the same factor scales the remainder. */
  lemma ScaledRemainder(x: int, m: int, f: int)
    requires m >= 1 && f >= 1
    ensures m * f >= 1 && x * f % (m * f) == x % m * f
  {
    var q, r := x / m, x % m;
    assert x == q * m + r;
    MulAtMost(1, m, f);
    MulAtMost(r, m - 1, f);
    assert x * f == q * (m * f) + r * f;
    assert 0 <= r * f < m * f;
    RemainderOf(q, m * f, r * f);
  }

  lemma RemainderOf(q: int, m: int, r: int)
    requires 0 <= r < m
    ensures (q * m + r) % m == r
  {
    var d := (q * m + r) / m;
    assert q * m + r == d * m + (q * m + r) % m;
    assert (q - d) * m == (q * m + r) % m - r;
    if q - d >= 1 { MulAtMost(1, q - d, m); }
    if q - d <= -1 { MulAtMost(1, d - q, m); }
  }

  /** The shift drops the ignored bits at the top of the token and nothing else: what is left of the
      biased token fills the range again. */
  lemma BiasedDropsTheTop(token: int, ignoreMsb: nat)
    requires ignoreMsb <= 64
    ensures Pow2(64 - ignoreMsb) >= 1
    ensures Biased(token, ignoreMsb) == (token + TWO63) % Pow2(64 - ignoreMsb) * Pow2(ignoreMsb)
  {
    var m, f, x := Pow2(64 - ignoreMsb), Pow2(ignoreMsb), token + TWO63;
    Pow2Positive(64 - ignoreMsb);
    Pow2Positive(ignoreMsb);
    Pow2Of64();
    Pow2Sum(64 - ignoreMsb, ignoreMsb);
    assert m * f == TWO64;
    ScaledRemainder(x, m, f);
    BiasedIsShifted(token, ignoreMsb);
  }

  /** Taking the token to the unsigned range first makes no difference. */
  lemma BiasedIsShifted(token: int, ignoreMsb: nat)
    ensures Biased(token, ignoreMsb) == (token + TWO63) * Pow2(ignoreMsb) % TWO64
  {
    var f, x := Pow2(ignoreMsb), token + TWO63;
    var q, r := x / TWO64, x % TWO64;
    assert x * f == (q * TWO64 + r) * f == (q * f) * TWO64 + r * f;
    SameRemainder(r * f, q * f, TWO64);
  }

  lemma SameRemainder(x: int, q: int, m: int)
    requires m >= 1
    ensures (q * m + x) % m == x % m
  {
    assert q * m + x == (q + x / m) * m + x % m;
    RemainderOf(q + x / m, m, x % m);
  }

  lemma {:induction false} Pow2Positive(n: nat)
    ensures Pow2(n) >= 1
  {
    if n > 0 { Pow2Positive(n - 1); }
  }

  /** The high and the low 32 bits are multiplied separately so that 64 bits suffice. */
  function ShardOf(token: int, shards: int, ignoreMsb: nat): int
  {
    var t := Biased(token, ignoreMsb);
    ((t % TWO32 * shards) / TWO32 + t / TWO32 * shards) / TWO32
  }

  lemma MulAtMost(a: int, b: int, c: int)
    requires 0 <= a <= b && c >= 0
    ensures 0 <= a * c <= b * c
  {
  }

  lemma SplitProduct(t: int, shards: int, lo: int, hi: int)
    requires t == hi * TWO32 + lo && 0 <= lo < TWO32 && 0 <= hi < TWO32 && shards >= 1
    ensures t * shards == hi * shards * TWO32 + lo * shards
    ensures 0 <= lo * shards < shards * TWO32 && 0 <= hi * shards <= (TWO32 - 1) * shards
  {
    MulAtMost(lo, TWO32 - 1, shards);
    MulAtMost(hi, TWO32 - 1, shards);
    assert t * shards == (hi * TWO32) * shards + lo * shards;
    assert (hi * TWO32) * shards == hi * shards * TWO32;
  }

  /** The split multiplication is the scaling of the biased token to the number of shards, so the
      result is always a valid shard. */
  lemma ShardOfIsScaledToken(token: int, shards: int, ignoreMsb: nat)
    requires shards >= 1
    ensures ShardOf(token, shards, ignoreMsb) == Biased(token, ignoreMsb) * shards / TWO64
    ensures 0 <= ShardOf(token, shards, ignoreMsb) < shards
  {
    var t := Biased(token, ignoreMsb);
    SplitProduct(t, shards, t % TWO32, t / TWO32);
  }

  /** Signed 64-bit arithmetic suffices for the split, whatever the token: neither product nor their
      sum reaches 2^63 for any number of shards that fits a signed 32-bit integer. */
  lemma SplitFitsIn64Bits(token: int, shards: int, ignoreMsb: nat)
    requires 1 <= shards < 0x8000_0000
    ensures var t := Biased(token, ignoreMsb);
      && 0 <= t % TWO32 * shards < TWO63 && 0 <= t / TWO32 * shards < TWO63
      && 0 <= (t % TWO32 * shards) / TWO32 + t / TWO32 * shards < TWO63
  {
    var t := Biased(token, ignoreMsb);
    var lo, hi := t % TWO32, t / TWO32;
    assert 0 <= lo <= TWO32 - 1 && 0 <= hi <= TWO32 - 1;
    MulAtMost(lo, TWO32 - 1, shards);
    MulAtMost(hi, TWO32 - 1, shards);
    assert (TWO32 - 1) * shards == TWO32 * shards - shards;
    assert lo * shards < TWO32 * shards;
    assert (lo * shards) / TWO32 < shards;
  }

  /** With no bits ignored each shard owns one contiguous range of tokens. */
  lemma ShardsAreTokenRanges(a: int, b: int, shards: int)
    requires -TWO63 <= a <= b < TWO63 && shards >= 1
    ensures ShardOf(a, shards, 0) <= ShardOf(b, shards, 0)
  {
    hide ShardOf, Biased;
    ShardOfIsScaledToken(a, shards, 0);
    ShardOfIsScaledToken(b, shards, 0);
    UnshiftedBias(a);
    UnshiftedBias(b);
    MulAtMost(Biased(a, 0), Biased(b, 0), shards);
  }

  lemma UnshiftedBias(token: int)
    requires -TWO63 <= token < TWO63
    ensures Biased(token, 0) == token + TWO63
  {
  }

  // ---------------------------------------------------------------- quotas

  function ConnsPerShard(n: nat, shards: nat): nat
    requires shards >= 1
  {
    n / shards + if n % shards != 0 then 1 else 0
  }

  /** The capacity of the pool is the least multiple of the shard count not below `n`. */
  lemma CapacityIsLeastMultiple(n: nat, shards: nat, m: nat)
    requires shards >= 1
    ensures ConnsPerShard(n, shards) * shards >= n
    ensures m * shards >= n ==> m >= ConnsPerShard(n, shards)
    ensures n >= 1 ==> ConnsPerShard(n, shards) >= 1
  {
    var d, r := n / shards, n % shards;
    assert n == d * shards + r;
    var q := ConnsPerShard(n, shards);
    if r == 0 { assert q * shards == d * shards; } else { assert q * shards == d * shards + shards; }
    if m < q {
      assert m <= q - 1 && m * shards <= (q - 1) * shards;
      assert (q - 1) * shards < n || (r == 0 && (q - 1) * shards == d * shards - shards);
    }
  }

  /** How many of the first `n` connectors are sent to the shard when connector i goes to i % shards. */
  function Assigned(n: nat, shards: nat, s: nat): nat
    requires shards >= 1
  {
    if n == 0 then 0 else Assigned(n - 1, shards, s) + if (n - 1) % shards == s then 1 else 0
  }

  lemma {:induction false} AssignedCount(n: nat, shards: nat, s: nat)
    requires s < shards
    ensures Assigned(n, shards, s) == n / shards + if s < n % shards then 1 else 0
    ensures Assigned(n, shards, s) <= ConnsPerShard(n, shards)
  {
    if n > 0 {
      AssignedCount(n - 1, shards, s);
      NextQuotient(n - 1, shards);
    } else {
      assert 0 / shards == 0 && 0 % shards == 0;
    }
  }

  lemma NextQuotient(n: nat, shards: nat)
    requires shards >= 1
    ensures if n % shards == shards - 1 then (n + 1) / shards == n / shards + 1 && (n + 1) % shards == 0
            else (n + 1) / shards == n / shards && (n + 1) % shards == n % shards + 1
  {
    var d, r := n / shards, n % shards;
    if r == shards - 1 {
      assert n + 1 == (d + 1) * shards + 0;
      QuotientIs(n + 1, shards, d + 1, 0);
    } else {
      assert n + 1 == d * shards + (r + 1);
      QuotientIs(n + 1, shards, d, r + 1);
    }
  }

  lemma QuotientIs(n: int, m: int, d: int, r: int)
    requires m >= 1 && n == d * m + r && 0 <= r < m
    ensures n / m == d && n % m == r
  {
    var d', r' := n / m, n % m;
    assert n == d' * m + r';
    assert (d - d') * m == r' - r;
    assert d - d' >= 1 ==> (d - d') * m >= m;
    assert d - d' <= -1 ==> (d - d') * m <= -m;
  }

  /** The connectors sent to a shard. */
  function Slots(n: nat, shards: nat, s: nat): set<nat>
    requires shards >= 1
  {
    set i | 0 <= i < n && i % shards == s
  }

  lemma {:induction false} SlotsCount(n: nat, shards: nat, s: nat)
    requires shards >= 1
    ensures |Slots(n, shards, s)| == Assigned(n, shards, s)
  {
    if n == 0 {
      assert Slots(0, shards, s) == {};
    } else {
      SlotsCount(n - 1, shards, s);
      assert Slots(n, shards, s) == Slots(n - 1, shards, s) + if (n - 1) % shards == s then {n - 1} else {};
    }
  }

  function OnShard(candidates: seq<Conn>, s: nat): (r: seq<Conn>)
    ensures forall c :: c in r <==> c in candidates && c.shard == s
    decreases |candidates|
  {
    if candidates == [] then []
    else
      var k := |candidates| - 1;
      assert candidates == candidates[..k] + [candidates[k]];
      OnShard(candidates[..k], s) + if candidates[k].shard == s then [candidates[k]] else []
  }

  lemma {:induction false} OnShardDistinct(candidates: seq<Conn>, s: nat)
    requires Distinct(candidates)
    ensures Distinct(OnShard(candidates, s))
    decreases |candidates|
  {
    if candidates != [] {
      var k := |candidates| - 1;
      OnShardDistinct(candidates[..k], s);
      DistinctAppend(OnShard(candidates[..k], s), candidates[k]);
    }
  }

  lemma {:induction false} AtMostSlots(cs: seq<Conn>, slots: set<nat>)
    requires Distinct(cs) && forall c :: c in cs ==> c.id in slots
    requires forall c, d :: c in cs && d in cs && c.id == d.id ==> c == d
    ensures |cs| <= |slots|
    decreases |cs|
  {
    if cs != [] {
      var k := |cs| - 1;
      assert cs == cs[..k] + [cs[k]];
      DistinctAppend(cs[..k], cs[k]);
      AtMostSlots(cs[..k], slots - {cs[k].id});
    }
  }

  /** Connection i came from connector i and is on the shard that connector was sent to. */
  ghost predicate Landed(n: nat, shards: nat, candidates: seq<Conn>)
    requires shards >= 1
  {
    Distinct(candidates) && forall c :: c in candidates ==> c.id < n && c.shard == c.id % shards
  }

  lemma ShardFits(n: nat, shards: nat, candidates: seq<Conn>, s: nat)
    requires s < shards && Landed(n, shards, candidates)
    ensures |OnShard(candidates, s)| <= ConnsPerShard(n, shards)
  {
    OnShardDistinct(candidates, s);
    AtMostSlots(OnShard(candidates, s), Slots(n, shards, s));
    SlotsCount(n, shards, s);
    AssignedCount(n, shards, s);
  }

  /** If every connection is on the shard its connector was sent to, then whichever of the `n`
      connectors succeeded, and in whatever order, the pool's constructor keeps all connections:
      none is surplus, and each shard holds its own, in order. */
  lemma {:induction false} InitialAssignmentFits(n: nat, shards: nat, portAware: bool, candidates: seq<Conn>)
    requires shards >= 1 && Landed(n, shards, candidates)
    ensures var p := Admit(Empty(Config(shards, ConnsPerShard(n, shards), portAware)), candidates);
      && p.surplus == [] && |p.conns| == shards
      && forall s :: 0 <= s < shards ==> p.conns[s] == OnShard(candidates, s)
    decreases |candidates|
  {
    var e := Empty(Config(shards, ConnsPerShard(n, shards), portAware));
    if candidates != [] {
      var k := |candidates| - 1;
      var c := candidates[k];
      assert candidates == candidates[..k] + [c];
      assert c in candidates && forall d :: d in candidates[..k] ==> d in candidates;
      InitialAssignmentFits(n, shards, portAware, candidates[..k]);
      AdmitKeepsConfig(e, candidates[..k]);
      assert c.shard < shards;
      ShardFits(n, shards, candidates, c.shard);
      assert HasRoom(Admit(e, candidates[..k]), c.shard);
    }
  }

  lemma {:induction false} AdmitKeepsConfig(p: Pool, candidates: seq<Conn>)
    ensures Admit(p, candidates).config == p.config
    decreases |candidates|
  {
    if candidates != [] { AdmitKeepsConfig(p, candidates[..|candidates| - 1]); }
  }
}
