/** The canonical byte stream that is fed to the hash. Encoders take what follows as `rest`, so an
    encoding is uniquely decodable when equal streams have equal values and equal rests. */
module Fingerprints {

  import opened Outcomes

  type Byte = b: nat | b < 256

  const U64_BOUND: nat := 0x1_0000_0000_0000_0000
  const U32_BOUND: nat := 0x1_0000_0000

  type U64Value = n: nat | n < U64_BOUND
  type U32Value = n: nat | n < U32_BOUND

  /** A byte string whose length fits the length prefix. */
  type Text = s: seq<Byte> | |s| < U64_BOUND

  // ---------------------------------------------------------------------------
  // Encoders
  // ---------------------------------------------------------------------------

  /** The last `k` base-256 digits of `n`, most significant first. */
  function BigEndian(n: nat, k: nat): (bytes: seq<Byte>)
    ensures |bytes| == k
  {
    if k == 0 then [] else BigEndian(n / 256, k - 1) + [n % 256]
  }

  function U64(n: U64Value, rest: seq<Byte>): seq<Byte> {
    BigEndian(n, 8) + rest
  }

  function U32(n: U32Value, rest: seq<Byte>): seq<Byte> {
    BigEndian(n, 4) + rest
  }

  function Tag(tag: Byte, rest: seq<Byte>): seq<Byte> {
    [tag] + rest
  }

  function Str(value: Text, rest: seq<Byte>): seq<Byte> {
    U64(|value|, value + rest)
  }

  function Optional(value: Option<Text>, rest: seq<Byte>): seq<Byte> {
    match value
    case Some(v) => Tag(1, Str(v, rest))
    case None => Tag(0, rest)
  }

  /** Strings one after the other, without a count. */
  function Strs(values: seq<Text>, rest: seq<Byte>): seq<Byte> {
    if values == [] then rest else Str(values[0], Strs(values[1..], rest))
  }

  /** A count and then the strings. */
  function Counted(values: seq<Text>, rest: seq<Byte>): seq<Byte>
    requires |values| < U64_BOUND
  {
    U64(|values|, Strs(values, rest))
  }

  // ---------------------------------------------------------------------------
  // Each encoder can be read back
  // ---------------------------------------------------------------------------

  function Power256(k: nat): nat {
    if k == 0 then 1 else 256 * Power256(k - 1)
  }

  lemma {:induction false} BigEndianIsInjective(n: nat, m: nat, k: nat)
    requires n < Power256(k) && m < Power256(k) && BigEndian(n, k) == BigEndian(m, k)
    ensures n == m
  {
    if k > 0 {
      var a, b := BigEndian(n, k), BigEndian(m, k);
      assert a[..k - 1] == BigEndian(n / 256, k - 1) && b[..k - 1] == BigEndian(m / 256, k - 1);
      assert a[k - 1] == n % 256 && b[k - 1] == m % 256;
      BigEndianIsInjective(n / 256, m / 256, k - 1);
    }
  }

  lemma {:induction false} AppendSplits(a: seq<Byte>, r: seq<Byte>, b: seq<Byte>, s: seq<Byte>)
    requires |a| == |b| && a + r == b + s
    ensures a == b && r == s
  {
    assert (a + r)[..|a|] == a && (b + s)[..|b|] == b;
    assert (a + r)[|a|..] == r && (b + s)[|b|..] == s;
  }

  lemma {:induction false} Powers()
    ensures Power256(8) == U64_BOUND && Power256(4) == U32_BOUND
  {
    assert Power256(4) == 256 * (256 * (256 * (256 * Power256(0))));
    assert Power256(8) == 256 * (256 * (256 * (256 * Power256(4))));
  }

  lemma {:induction false} U64Splits(n: U64Value, r: seq<Byte>, m: U64Value, s: seq<Byte>)
    requires U64(n, r) == U64(m, s)
    ensures n == m && r == s
  {
    AppendSplits(BigEndian(n, 8), r, BigEndian(m, 8), s);
    Powers();
    BigEndianIsInjective(n, m, 8);
  }

  lemma {:induction false} U32Splits(n: U32Value, r: seq<Byte>, m: U32Value, s: seq<Byte>)
    requires U32(n, r) == U32(m, s)
    ensures n == m && r == s
  {
    AppendSplits(BigEndian(n, 4), r, BigEndian(m, 4), s);
    Powers();
    BigEndianIsInjective(n, m, 4);
  }

  lemma {:induction false} TagSplits(a: Byte, r: seq<Byte>, b: Byte, s: seq<Byte>)
    requires Tag(a, r) == Tag(b, s)
    ensures a == b && r == s
  {
    AppendSplits([a], r, [b], s);
    assert [a][0] == [b][0];
  }

  lemma {:induction false} StrSplits(a: Text, r: seq<Byte>, b: Text, s: seq<Byte>)
    requires Str(a, r) == Str(b, s)
    ensures a == b && r == s
  {
    U64Splits(|a|, a + r, |b|, b + s);
    AppendSplits(a, r, b, s);
  }

  lemma {:induction false} OptionalSplits(a: Option<Text>, r: seq<Byte>, b: Option<Text>, s: seq<Byte>)
    requires Optional(a, r) == Optional(b, s)
    ensures a == b && r == s
  {
    TagSplits(if a.Some? then 1 else 0, if a.Some? then Str(a.value, r) else r,
              if b.Some? then 1 else 0, if b.Some? then Str(b.value, s) else s);
    if a.Some? {
      StrSplits(a.value, r, b.value, s);
    }
  }

  lemma {:induction false} StrsSplits(a: seq<Text>, r: seq<Byte>, b: seq<Text>, s: seq<Byte>)
    requires |a| == |b| && Strs(a, r) == Strs(b, s)
    ensures a == b && r == s
    decreases |a|
  {
    if a != [] {
      StrSplits(a[0], Strs(a[1..], r), b[0], Strs(b[1..], s));
      StrsSplits(a[1..], r, b[1..], s);
    }
  }

  lemma {:induction false} CountedSplits(a: seq<Text>, r: seq<Byte>, b: seq<Text>, s: seq<Byte>)
    requires |a| < U64_BOUND && |b| < U64_BOUND && Counted(a, r) == Counted(b, s)
    ensures a == b && r == s
  {
    U64Splits(|a|, Strs(a, r), |b|, Strs(b, s));
    StrsSplits(a, r, b, s);
  }

  // ---------------------------------------------------------------------------
  // The builder
  // ---------------------------------------------------------------------------

  /** The hasher's input so far. Each method says what it wrote relative to whatever follows. */
  class FingerprintBuilder {
    var stream: seq<Byte>

    constructor (domain: Text, ghost rest: seq<Byte>)
      ensures stream + rest == Str(domain, rest)
    {
      stream := [];
      new;
      WriteStr(domain, rest);
      assert [] + Str(domain, rest) == Str(domain, rest);
    }

    method WriteTag(tag: Byte, ghost rest: seq<Byte>)
      modifies this
      ensures stream + rest == old(stream) + Tag(tag, rest)
    {
      assert stream + Tag(tag, rest) == (stream + [tag]) + rest;
      stream := stream + [tag];
    }

    method WriteU32(value: U32Value, ghost rest: seq<Byte>)
      modifies this
      ensures stream + rest == old(stream) + U32(value, rest)
    {
      assert stream + U32(value, rest) == (stream + BigEndian(value, 4)) + rest;
      stream := stream + BigEndian(value, 4);
    }

    method WriteU64(value: U64Value, ghost rest: seq<Byte>)
      modifies this
      ensures stream + rest == old(stream) + U64(value, rest)
    {
      assert stream + U64(value, rest) == (stream + BigEndian(value, 8)) + rest;
      stream := stream + BigEndian(value, 8);
    }

    method WriteStr(value: Text, ghost rest: seq<Byte>)
      modifies this
      ensures stream + rest == old(stream) + Str(value, rest)
    {
      WriteU64(|value|, value + rest);
      assert stream + (value + rest) == (stream + value) + rest;
      stream := stream + value;
    }

    method WriteOptional(value: Option<Text>, ghost rest: seq<Byte>)
      modifies this
      ensures stream + rest == old(stream) + Optional(value, rest)
    {
      match value {
        case Some(v) =>
          WriteTag(1, Str(v, rest));
          WriteStr(v, rest);
        case None => WriteTag(0, rest);
      }
    }

    method WriteStrs(values: seq<Text>, ghost rest: seq<Byte>)
      modifies this
      ensures stream + rest == old(stream) + Strs(values, rest)
    {
      assert values[0..] == values;
      for i := 0 to |values|
        invariant stream + Strs(values[i..], rest) == old(stream) + Strs(values, rest)
      {
        assert values[i..][0] == values[i] && values[i..][1..] == values[i + 1..];
        WriteStr(values[i], Strs(values[i + 1..], rest));
      }
    }

    method WriteCounted(values: seq<Text>, ghost rest: seq<Byte>)
      requires |values| < U64_BOUND
      modifies this
      ensures stream + rest == old(stream) + Counted(values, rest)
    {
      WriteU64(|values|, Strs(values, rest));
      WriteStrs(values, rest);
    }
  }
}
