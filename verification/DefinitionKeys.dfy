/** The key schemas of decisions, condition definitions and compiled conditions. */
module DefinitionKeys {

  import opened Fingerprints
  import opened CacheKeys

  const DECISION_DOMAIN: Text := Ascii("openfga.check-decision-key.v1")
  const DEFINITION_DOMAIN: Text := Ascii("openfga.condition.compiled.v1")
  const COMPILATION_DOMAIN: Text := Ascii("openfga.condition.compilation-cache.v1")

  /** A 256-bit digest, as opaque bytes. */
  type Digest = s: seq<Byte> | |s| == 32 witness seq(32, _ => 0)

  // ---------------------------------------------------------------------------
  // Decisions
  // ---------------------------------------------------------------------------

  /** Every semantic input of a Check; the two context digests are keyed together. */
  datatype Decision = Decision(store: Text, model: Text, modelDigest: Digest, tuple: Digest, context: Digest, version: U32Value)

  function DecisionStream(d: Decision): seq<Byte> {
    Str(DECISION_DOMAIN,
        Str(d.store, Str(d.model, Str(d.modelDigest, Str(d.tuple, Str(d.context, U32(d.version, [])))))))
  }

  /** Equal decision keys come from the same store, model, tuple, context and evaluator version. */
  lemma {:induction false} DecisionStreamIsInjective(a: Decision, b: Decision)
    requires DecisionStream(a) == DecisionStream(b)
    ensures a == b
  {
    hide Str; hide U32;
    var x5, y5 := U32(a.version, []), U32(b.version, []);
    var x4, y4 := Str(a.context, x5), Str(b.context, y5);
    var x3, y3 := Str(a.tuple, x4), Str(b.tuple, y4);
    var x2, y2 := Str(a.modelDigest, x3), Str(b.modelDigest, y3);
    var x1, y1 := Str(a.model, x2), Str(b.model, y2);
    StrSplits(DECISION_DOMAIN, Str(a.store, x1), DECISION_DOMAIN, Str(b.store, y1));
    StrSplits(a.store, x1, b.store, y1);
    StrSplits(a.model, x2, b.model, y2);
    StrSplits(a.modelDigest, x3, b.modelDigest, y3);
    StrSplits(a.tuple, x4, b.tuple, y4);
    StrSplits(a.context, x5, b.context, y5);
    U32Splits(a.version, [], b.version, []);
  }

  method DecisionKey(d: Decision) returns (stream: seq<Byte>)
    ensures stream == DecisionStream(d)
  {
    hide Str; hide U32;
    ghost var t5 := U32(d.version, []);
    ghost var t4 := Str(d.context, t5);
    ghost var t3 := Str(d.tuple, t4);
    ghost var t2 := Str(d.modelDigest, t3);
    ghost var t1 := Str(d.model, t2);
    var builder := new FingerprintBuilder(DECISION_DOMAIN, Str(d.store, t1));
    builder.WriteStr(d.store, t1);
    builder.WriteStr(d.model, t2);
    builder.WriteStr(d.modelDigest, t3);
    builder.WriteStr(d.tuple, t4);
    builder.WriteStr(d.context, t5);
    builder.WriteU32(d.version, []);
    assert builder.stream + [] == builder.stream;
    return builder.stream;
  }

  /** What is keyed for the two context digests: their fixed widths keep them apart. */
  lemma {:induction false} ContextInputSplits(a: Digest, b: Digest, c: Digest, d: Digest)
    requires a + b == c + d
    ensures a == c && b == d
  {
    AppendSplits(a, b, c, d);
  }

  // ---------------------------------------------------------------------------
  // Condition definitions
  // ---------------------------------------------------------------------------

  datatype ParameterType =
    | AnyParameter | BoolParameter | StringParameter | IntParameter | UintParameter | DoubleParameter | BytesParameter
    | DurationParameter | TimestampParameter | IpAddressParameter
    | ListParameter(element: ParameterType)
    | MapParameter(element: ParameterType)

  function TypeTag(t: ParameterType): Byte {
    match t
    case AnyParameter => 0 case BoolParameter => 1 case StringParameter => 2 case IntParameter => 3
    case UintParameter => 4 case DoubleParameter => 5 case BytesParameter => 6 case DurationParameter => 7
    case TimestampParameter => 8 case IpAddressParameter => 9 case ListParameter(_) => 10 case MapParameter(_) => 11
  }

  function TypeCode(t: ParameterType, rest: seq<Byte>): seq<Byte> {
    Tag(TypeTag(t), if t.ListParameter? || t.MapParameter? then TypeCode(t.element, rest) else rest)
  }

  /** The type code is prefix-free: what follows a type cannot be mistaken for part of it. */
  lemma {:induction false} TypeSplits(a: ParameterType, r: seq<Byte>, b: ParameterType, s: seq<Byte>)
    requires TypeCode(a, r) == TypeCode(b, s)
    ensures a == b && r == s
    decreases a
  {
    TagSplits(TypeTag(a), if a.ListParameter? || a.MapParameter? then TypeCode(a.element, r) else r,
              TypeTag(b), if b.ListParameter? || b.MapParameter? then TypeCode(b.element, s) else s);
    if a.ListParameter? || a.MapParameter? {
      TypeSplits(a.element, r, b.element, s);
    }
  }

  /** A definition's parameters appear in name order. */
  datatype Definition = Definition(name: Text, expression: Text, parameters: seq<(Text, ParameterType)>)

  function Parameters(ps: seq<(Text, ParameterType)>, rest: seq<Byte>): seq<Byte> {
    if ps == [] then rest else Str(ps[0].0, TypeCode(ps[0].1, Parameters(ps[1..], rest)))
  }

  lemma {:induction false} ParametersSplit(
    a: seq<(Text, ParameterType)>, r: seq<Byte>, b: seq<(Text, ParameterType)>, s: seq<Byte>)
    requires |a| == |b| && Parameters(a, r) == Parameters(b, s)
    ensures a == b && r == s
    decreases |a|
  {
    if a != [] {
      var x, y := Parameters(a[1..], r), Parameters(b[1..], s);
      StrSplits(a[0].0, TypeCode(a[0].1, x), b[0].0, TypeCode(b[0].1, y));
      TypeSplits(a[0].1, x, b[0].1, y);
      ParametersSplit(a[1..], r, b[1..], s);
    }
  }

  function DefinitionStream(d: Definition): seq<Byte>
    requires |d.parameters| < U64_BOUND
  {
    Str(DEFINITION_DOMAIN,
        Str(d.name, Str(d.expression, U64(|d.parameters|, Parameters(d.parameters, [])))))
  }

  lemma {:induction false} DefinitionStreamIsInjective(a: Definition, b: Definition)
    requires |a.parameters| < U64_BOUND && |b.parameters| < U64_BOUND && DefinitionStream(a) == DefinitionStream(b)
    ensures a == b
  {
    hide Str; hide U64; hide Parameters;
    var x3, y3 := Parameters(a.parameters, []), Parameters(b.parameters, []);
    var x2, y2 := U64(|a.parameters|, x3), U64(|b.parameters|, y3);
    var x1, y1 := Str(a.expression, x2), Str(b.expression, y2);
    StrSplits(DEFINITION_DOMAIN, Str(a.name, x1), DEFINITION_DOMAIN, Str(b.name, y1));
    StrSplits(a.name, x1, b.name, y1);
    StrSplits(a.expression, x2, b.expression, y2);
    U64Splits(|a.parameters|, x3, |b.parameters|, y3);
    ParametersSplit(a.parameters, [], b.parameters, []);
  }

  method WriteType(builder: FingerprintBuilder, t: ParameterType, ghost rest: seq<Byte>)
    modifies builder
    ensures builder.stream + rest == old(builder.stream) + TypeCode(t, rest)
    decreases t
  {
    match t {
      case ListParameter(element) =>
        builder.WriteTag(10, TypeCode(element, rest));
        WriteType(builder, element, rest);
      case MapParameter(element) =>
        builder.WriteTag(11, TypeCode(element, rest));
        WriteType(builder, element, rest);
      case _ => builder.WriteTag(TypeTag(t), rest);
    }
  }

  method FingerprintDefinition(d: Definition) returns (stream: seq<Byte>)
    requires |d.parameters| < U64_BOUND
    ensures stream == DefinitionStream(d)
  {
    hide Str; hide U64; hide TypeCode;
    ghost var t3 := Parameters(d.parameters, []);
    ghost var t2 := U64(|d.parameters|, t3);
    ghost var t1 := Str(d.expression, t2);
    var builder := new FingerprintBuilder(DEFINITION_DOMAIN, Str(d.name, t1));
    builder.WriteStr(d.name, t1);
    builder.WriteStr(d.expression, t2);
    builder.WriteU64(|d.parameters|, t3);
    assert d.parameters[0..] == d.parameters;
    for i := 0 to |d.parameters|
      invariant builder.stream + Parameters(d.parameters[i..], []) == DefinitionStream(d)
    {
      var (name, type_) := d.parameters[i];
      ghost var tail := Parameters(d.parameters[i + 1..], []);
      assert d.parameters[i..][0] == d.parameters[i] && d.parameters[i..][1..] == d.parameters[i + 1..];
      builder.WriteStr(name, TypeCode(type_, tail));
      WriteType(builder, type_, tail);
    }
    assert builder.stream + [] == builder.stream;
    return builder.stream;
  }

  // ---------------------------------------------------------------------------
  // Compiled conditions
  // ---------------------------------------------------------------------------

  /** Every limit that compilation looks at, in the order it is written. */
  datatype CompileLimits = CompileLimits(
    expressionBytes: U64Value, astNodes: U64Value, astDepth: U64Value, identifiers: U64Value, literals: U64Value,
    comprehensions: U64Value, parameters: U64Value, collectionItems: U64Value, runtimeValueBytes: U64Value,
    runtimeCollectionItems: U64Value)

  function Values(l: CompileLimits): (vs: seq<U64Value>)
    ensures |vs| == 10
  {
    [l.expressionBytes, l.astNodes, l.astDepth, l.identifiers, l.literals, l.comprehensions, l.parameters,
     l.collectionItems, l.runtimeValueBytes, l.runtimeCollectionItems]
  }

  function U64s(vs: seq<U64Value>, rest: seq<Byte>): seq<Byte> {
    if vs == [] then rest else U64(vs[0], U64s(vs[1..], rest))
  }

  function CompilationStream(definition: Digest, l: CompileLimits): seq<Byte> {
    Str(COMPILATION_DOMAIN, Str(definition, U64s(Values(l), [])))
  }

  lemma {:induction false} U64sSplit(a: seq<U64Value>, r: seq<Byte>, b: seq<U64Value>, s: seq<Byte>)
    requires |a| == |b| && U64s(a, r) == U64s(b, s)
    ensures a == b && r == s
    decreases |a|
  {
    if a != [] {
      U64Splits(a[0], U64s(a[1..], r), b[0], U64s(b[1..], s));
      U64sSplit(a[1..], r, b[1..], s);
    }
  }

  /** A compiled condition is shared only for one definition under one set of limits. */
  lemma {:induction false} CompilationStreamIsInjective(d: Digest, l: CompileLimits, e: Digest, m: CompileLimits)
    requires CompilationStream(d, l) == CompilationStream(e, m)
    ensures d == e && l == m
  {
    hide Str; hide U64s;
    var x, y := U64s(Values(l), []), U64s(Values(m), []);
    StrSplits(COMPILATION_DOMAIN, Str(d, x), COMPILATION_DOMAIN, Str(e, y));
    StrSplits(d, x, e, y);
    U64sSplit(Values(l), [], Values(m), []);
    assert forall i :: 0 <= i < 10 ==> Values(l)[i] == Values(m)[i];
  }

  method CompilationKey(definition: Digest, l: CompileLimits) returns (stream: seq<Byte>)
    ensures stream == CompilationStream(definition, l)
  {
    hide Str; hide U64;
    var vs := Values(l);
    var builder := new FingerprintBuilder(COMPILATION_DOMAIN, Str(definition, U64s(vs, [])));
    builder.WriteStr(definition, U64s(vs, []));
    assert vs[0..] == vs;
    for i := 0 to |vs|
      invariant builder.stream + U64s(vs[i..], []) == CompilationStream(definition, l)
    {
      assert vs[i..][0] == vs[i] && vs[i..][1..] == vs[i + 1..];
      builder.WriteU64(vs[i], U64s(vs[i + 1..], []));
    }
    assert builder.stream + [] == builder.stream;
    return builder.stream;
  }
}
