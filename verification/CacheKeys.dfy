/** The key schemas of the tuple, decision and compilation caches. */
module CacheKeys {

  import opened Outcomes
  import opened Fingerprints

  const COLON: Byte := 58
  const HASH: Byte := 35
  const STAR: Text := [42]

  function Ascii(s: string): (t: Text)
    requires |s| < 100 && forall i :: 0 <= i < |s| ==> s[i] < 128 as char
    ensures |t| == |s| && forall i :: 0 <= i < |s| ==> t[i] == s[i] as nat
  {
    seq(|s|, i requires 0 <= i < |s| => s[i] as nat)
  }

  const READ_DOMAIN: Text := Ascii("openfga.tuple-read-key.v1")
  const PAGE: Text := Ascii("page")
  const EXACT: Text := Ascii("exact")
  const EXISTS: Text := Ascii("exists")
  const OBJECT_RELATION: Text := Ascii("object_relation")
  const COUNT_OBJECT_RELATION: Text := Ascii("count_object_relation")
  const USERSET: Text := Ascii("userset")
  const REVERSE: Text := Ascii("reverse")

  // ---------------------------------------------------------------------------
  // Rendered references
  // ---------------------------------------------------------------------------

  datatype Object = Object(objectType: Text, id: Text)

  datatype Subject = One(object_: Object) | Userset(object_: Object, relation: Text) | Wildcard(objectType: Text)

  /** A component of a rendered reference contains neither separator. */
  predicate Component(t: Text) {
    COLON !in t && HASH !in t
  }

  /** Parsed references: clean components, an identifier that is not the wildcard, a bounded rendering. */
  predicate ValidObject(o: Object) {
    Component(o.objectType) && Component(o.id) && o.id != STAR && |o.objectType| + |o.id| + 1 < U32_BOUND
  }

  predicate ValidSubject(s: Subject) {
    match s
    case One(o) => ValidObject(o)
    case Userset(o, relation) => ValidObject(o) && Component(relation) && |relation| < U32_BOUND
    case Wildcard(t) => Component(t) && |t| < U32_BOUND
  }

  function ObjectText(o: Object): Text
    requires ValidObject(o)
  {
    o.objectType + [COLON] + o.id
  }

  function SubjectText(s: Subject): Text
    requires ValidSubject(s)
  {
    match s
    case One(o) => ObjectText(o)
    case Userset(o, relation) => ObjectText(o) + [HASH] + relation
    case Wildcard(t) => t + [COLON] + STAR
  }

  lemma {:induction false} FirstSeparator(a: seq<Byte>, r: seq<Byte>, b: seq<Byte>, s: seq<Byte>, sep: Byte)
    requires sep !in a && sep !in b && a + [sep] + r == b + [sep] + s
    ensures a == b && r == s
  {
    var x, y := a + [sep] + r, b + [sep] + s;
    assert x[|a|] == sep && y[|b|] == sep;
    assert (forall i :: 0 <= i < |a| ==> x[i] == a[i] != sep) && (forall i :: 0 <= i < |b| ==> y[i] == b[i] != sep);
    AppendSplits(a + [sep], r, b + [sep], s);
    AppendSplits(a, [sep], b, [sep]);
  }

  /** Rendering an object loses nothing. */
  lemma {:induction false} ObjectTextIsInjective(a: Object, b: Object)
    requires ValidObject(a) && ValidObject(b) && ObjectText(a) == ObjectText(b)
    ensures a == b
  {
    FirstSeparator(a.objectType, a.id, b.objectType, b.id, COLON);
  }

  /** Rendering a subject loses nothing: an object, a userset and a wildcard never read alike. */
  lemma {:induction false} SubjectTextIsInjective(a: Subject, b: Subject)
    requires ValidSubject(a) && ValidSubject(b) && SubjectText(a) == SubjectText(b)
    ensures a == b
  {
    var x, y := SubjectText(a), SubjectText(b);
    HashMarksUsersets(a);
    HashMarksUsersets(b);
    if a.Userset? && b.Userset? {
      FirstSeparator(ObjectText(a.object_), a.relation, ObjectText(b.object_), b.relation, HASH);
      ObjectTextIsInjective(a.object_, b.object_);
    } else if !a.Userset? && !b.Userset? {
      var (ta, ia) := if a.One? then (a.object_.objectType, a.object_.id) else (a.objectType, STAR);
      var (tb, ib) := if b.One? then (b.object_.objectType, b.object_.id) else (b.objectType, STAR);
      FirstSeparator(ta, ia, tb, ib, COLON);
    }
  }

  lemma {:induction false} HashMarksUsersets(s: Subject)
    requires ValidSubject(s)
    ensures HASH in SubjectText(s) <==> s.Userset?
    ensures s.Userset? ==> HASH !in ObjectText(s.object_)
  {
    if s.Userset? {
      assert SubjectText(s)[|ObjectText(s.object_)|] == HASH;
    }
  }

  // ---------------------------------------------------------------------------
  // Tuple reads
  // ---------------------------------------------------------------------------

  datatype Conditions = AnyCondition | Unconditional | Named(names: seq<Text>)

  /** The inputs of a cached tuple read; sets appear in their own order. */
  datatype Query =
    | Page(objectType: Option<Text>, objectId: Option<Text>, relationFilter: Option<Text>, subject: Option<Subject>,
           maximum: U64Value, after: Option<Text>)
    | Exact(tuple: Text)
    | Exists(tuple: Text)
    | ObjectRelation(object_: Object, relation: Text, subjects: seq<Subject>, conditions: Conditions, maximum: U64Value)
    | CountObjectRelation(object_: Object, relation: Text, subjects: seq<Subject>, conditions: Conditions,
                          maximum: U64Value)
    | UsersetTuples(object_: Object, relation: Text, allowed: seq<(Text, Text)>, conditions: Conditions,
                    maximum: U64Value)
    | ReverseTuples(reverseType: Text, relation: Text, subjects: seq<Subject>, objectIds: seq<Text>,
                    conditions: Conditions, maximum: U64Value)

  datatype TupleRead = TupleRead(store: Text, query: Query)

  function Operation(q: Query): Text {
    match q
    case Page(_, _, _, _, _, _) => PAGE
    case Exact(_) => EXACT
    case Exists(_) => EXISTS
    case ObjectRelation(_, _, _, _, _) => OBJECT_RELATION
    case CountObjectRelation(_, _, _, _, _) => COUNT_OBJECT_RELATION
    case UsersetTuples(_, _, _, _, _) => USERSET
    case ReverseTuples(_, _, _, _, _, _) => REVERSE
  }

  predicate ValidSubjects(subjects: seq<Subject>) {
    |subjects| < U64_BOUND && forall i :: 0 <= i < |subjects| ==> ValidSubject(subjects[i])
  }

  predicate ValidConditions(c: Conditions) {
    c.Named? ==> |c.names| < U64_BOUND
  }

  predicate ValidQuery(q: Query) {
    match q
    case Page(_, _, _, subject, _, _) => subject.Some? ==> ValidSubject(subject.value)
    case Exact(_) => true
    case Exists(_) => true
    case ObjectRelation(o, _, subjects, c, _) => ValidObject(o) && ValidSubjects(subjects) && ValidConditions(c)
    case CountObjectRelation(o, _, subjects, c, _) => ValidObject(o) && ValidSubjects(subjects) && ValidConditions(c)
    case UsersetTuples(o, _, allowed, c, _) => ValidObject(o) && |allowed| < U64_BOUND && ValidConditions(c)
    case ReverseTuples(_, _, subjects, ids, c, _) => ValidSubjects(subjects) && |ids| < U64_BOUND && ValidConditions(c)
  }

  function SubjectTexts(subjects: seq<Subject>): (ts: seq<Text>)
    requires ValidSubjects(subjects)
    ensures |ts| == |subjects| && forall i :: 0 <= i < |ts| ==> ts[i] == SubjectText(subjects[i])
  {
    seq(|subjects|, i requires 0 <= i < |subjects| => SubjectText(subjects[i]))
  }

  function OptionalSubject(subject: Option<Subject>): Option<Text>
    requires subject.Some? ==> ValidSubject(subject.value)
  {
    if subject.Some? then Some(SubjectText(subject.value)) else None
  }

  function ConditionsCode(c: Conditions, rest: seq<Byte>): seq<Byte>
    requires ValidConditions(c)
  {
    match c
    case AnyCondition => Tag(0, rest)
    case Unconditional => Tag(1, rest)
    case Named(names) => Tag(2, Counted(names, rest))
  }

  /** Each allowed pair as two strings. */
  function Flat(pairs: seq<(Text, Text)>): (ts: seq<Text>)
    ensures |ts| == 2 * |pairs|
  {
    if pairs == [] then [] else [pairs[0].0, pairs[0].1] + Flat(pairs[1..])
  }

  function Body(q: Query): seq<Byte>
    requires ValidQuery(q)
  {
    match q
    case Page(t, id, r, subject, max, after) =>
      Optional(t, Optional(id, Optional(r, Optional(OptionalSubject(subject), U64(max, Optional(after, []))))))
    case Exact(tuple) => Str(tuple, [])
    case Exists(tuple) => Str(tuple, [])
    case ObjectRelation(o, r, subjects, c, max) => RelationBody(o, r, subjects, c, max)
    case CountObjectRelation(o, r, subjects, c, max) => RelationBody(o, r, subjects, c, max)
    case UsersetTuples(o, r, allowed, c, max) =>
      Str(ObjectText(o), Str(r, U64(|allowed|, Strs(Flat(allowed), ConditionsCode(c, U64(max, []))))))
    case ReverseTuples(t, r, subjects, ids, c, max) =>
      Str(t, Str(r, Counted(SubjectTexts(subjects), Counted(ids, ConditionsCode(c, U64(max, []))))))
  }

  function RelationBody(o: Object, r: Text, subjects: seq<Subject>, c: Conditions, max: U64Value): seq<Byte>
    requires ValidObject(o) && ValidSubjects(subjects) && ValidConditions(c)
  {
    Str(ObjectText(o), Str(r, Counted(SubjectTexts(subjects), ConditionsCode(c, U64(max, [])))))
  }

  /** The whole stream of a tuple-read key. */
  function ReadStream(read: TupleRead): seq<Byte>
    requires ValidQuery(read.query)
  {
    Str(READ_DOMAIN, Str(Operation(read.query), Str(read.store, Body(read.query))))
  }

  lemma {:induction false} OperationsAreDistinct(a: Query, b: Query)
    requires Operation(a) == Operation(b)
    ensures a.Page? == b.Page? && a.Exact? == b.Exact? && a.Exists? == b.Exists?
    ensures a.ObjectRelation? == b.ObjectRelation? && a.CountObjectRelation? == b.CountObjectRelation?
    ensures a.UsersetTuples? == b.UsersetTuples? && a.ReverseTuples? == b.ReverseTuples?
  {
    assert |Operation(a)| == |Operation(b)| && Operation(a)[0] == Operation(b)[0];
  }

  lemma {:induction false} ConditionsSplit(a: Conditions, r: seq<Byte>, b: Conditions, s: seq<Byte>)
    requires ValidConditions(a) && ValidConditions(b) && ConditionsCode(a, r) == ConditionsCode(b, s)
    ensures a == b && r == s
  {
    TagSplits(Code(a), if a.Named? then Counted(a.names, r) else r, Code(b), if b.Named? then Counted(b.names, s) else s);
    if a.Named? {
      CountedSplits(a.names, r, b.names, s);
    }
  }

  function Code(c: Conditions): Byte {
    match c case AnyCondition => 0 case Unconditional => 1 case Named(_) => 2
  }

  lemma {:induction false} SubjectTextsAreInjective(a: seq<Subject>, b: seq<Subject>)
    requires ValidSubjects(a) && ValidSubjects(b) && SubjectTexts(a) == SubjectTexts(b)
    ensures a == b
  {
    assert |a| == |SubjectTexts(a)| && |b| == |SubjectTexts(b)|;
    forall i | 0 <= i < |a| ensures a[i] == b[i] {
      assert SubjectTexts(a)[i] == SubjectTexts(b)[i];
      SubjectTextIsInjective(a[i], b[i]);
    }
  }

  lemma {:induction false} FlatIsInjective(a: seq<(Text, Text)>, b: seq<(Text, Text)>)
    requires Flat(a) == Flat(b)
    ensures a == b
    decreases |a|
  {
    assert |Flat(a)| == 2 * |a| && |Flat(b)| == 2 * |b|;
    if a != [] {
      assert Flat(a)[0] == a[0].0 && Flat(b)[0] == b[0].0 && Flat(a)[1] == a[0].1 && Flat(b)[1] == b[0].1;
      assert Flat(a)[2..] == Flat(a[1..]) && Flat(b)[2..] == Flat(b[1..]);
      FlatIsInjective(a[1..], b[1..]);
    }
  }

  lemma {:induction false} TailSplits(a: Conditions, m: U64Value, b: Conditions, n: U64Value)
    requires ValidConditions(a) && ValidConditions(b) && ConditionsCode(a, U64(m, [])) == ConditionsCode(b, U64(n, []))
    ensures a == b && m == n
  {
    ConditionsSplit(a, U64(m, []), b, U64(n, []));
    U64Splits(m, [], n, []);
  }

  lemma {:induction false} RelationBodySplits(
    o: Object, r: Text, ss: seq<Subject>, c: Conditions, m: U64Value,
    p: Object, q: Text, ts: seq<Subject>, d: Conditions, n: U64Value)
    requires ValidObject(o) && ValidSubjects(ss) && ValidConditions(c)
    requires ValidObject(p) && ValidSubjects(ts) && ValidConditions(d)
    requires RelationBody(o, r, ss, c, m) == RelationBody(p, q, ts, d, n)
    ensures o == p && r == q && ss == ts && c == d && m == n
  {
    hide Str; hide Counted; hide ConditionsCode; hide U64; hide ObjectText;
    var x4, y4 := ConditionsCode(c, U64(m, [])), ConditionsCode(d, U64(n, []));
    var x3, y3 := Counted(SubjectTexts(ss), x4), Counted(SubjectTexts(ts), y4);
    StrSplits(ObjectText(o), Str(r, x3), ObjectText(p), Str(q, y3));
    StrSplits(r, x3, q, y3);
    CountedSplits(SubjectTexts(ss), x4, SubjectTexts(ts), y4);
    ObjectTextIsInjective(o, p);
    SubjectTextsAreInjective(ss, ts);
    TailSplits(c, m, d, n);
  }

  lemma {:induction false} PageSplits(a: Query, b: Query)
    requires a.Page? && b.Page? && ValidQuery(a) && ValidQuery(b) && Body(a) == Body(b)
    ensures a == b
  {
    hide Optional; hide U64; hide SubjectText;
    var x5, y5 := Optional(a.after, []), Optional(b.after, []);
    var x4, y4 := U64(a.maximum, x5), U64(b.maximum, y5);
    var x3, y3 := Optional(OptionalSubject(a.subject), x4), Optional(OptionalSubject(b.subject), y4);
    var x2, y2 := Optional(a.relationFilter, x3), Optional(b.relationFilter, y3);
    var x1, y1 := Optional(a.objectId, x2), Optional(b.objectId, y2);
    OptionalSplits(a.objectType, x1, b.objectType, y1);
    OptionalSplits(a.objectId, x2, b.objectId, y2);
    OptionalSplits(a.relationFilter, x3, b.relationFilter, y3);
    OptionalSplits(OptionalSubject(a.subject), x4, OptionalSubject(b.subject), y4);
    U64Splits(a.maximum, x5, b.maximum, y5);
    OptionalSplits(a.after, [], b.after, []);
    if a.subject.Some? && b.subject.Some? {
      SubjectTextIsInjective(a.subject.value, b.subject.value);
    }
  }

  lemma {:induction false} UsersetSplits(a: Query, b: Query)
    requires a.UsersetTuples? && b.UsersetTuples? && ValidQuery(a) && ValidQuery(b) && Body(a) == Body(b)
    ensures a == b
  {
    hide Str; hide Strs; hide ConditionsCode; hide U64; hide ObjectText; hide Flat;
    var x4, y4 := ConditionsCode(a.conditions, U64(a.maximum, [])), ConditionsCode(b.conditions, U64(b.maximum, []));
    var x3, y3 := Strs(Flat(a.allowed), x4), Strs(Flat(b.allowed), y4);
    var x2, y2 := U64(|a.allowed|, x3), U64(|b.allowed|, y3);
    StrSplits(ObjectText(a.object_), Str(a.relation, x2), ObjectText(b.object_), Str(b.relation, y2));
    StrSplits(a.relation, x2, b.relation, y2);
    U64Splits(|a.allowed|, x3, |b.allowed|, y3);
    StrsSplits(Flat(a.allowed), x4, Flat(b.allowed), y4);
    FlatIsInjective(a.allowed, b.allowed);
    ObjectTextIsInjective(a.object_, b.object_);
    TailSplits(a.conditions, a.maximum, b.conditions, b.maximum);
  }

  lemma {:induction false} ReverseSplits(a: Query, b: Query)
    requires a.ReverseTuples? && b.ReverseTuples? && ValidQuery(a) && ValidQuery(b) && Body(a) == Body(b)
    ensures a == b
  {
    hide Str; hide Counted; hide ConditionsCode; hide U64;
    var x4, y4 := ConditionsCode(a.conditions, U64(a.maximum, [])), ConditionsCode(b.conditions, U64(b.maximum, []));
    var x3, y3 := Counted(a.objectIds, x4), Counted(b.objectIds, y4);
    var x2, y2 := Counted(SubjectTexts(a.subjects), x3), Counted(SubjectTexts(b.subjects), y3);
    StrSplits(a.reverseType, Str(a.relation, x2), b.reverseType, Str(b.relation, y2));
    StrSplits(a.relation, x2, b.relation, y2);
    CountedSplits(SubjectTexts(a.subjects), x3, SubjectTexts(b.subjects), y3);
    CountedSplits(a.objectIds, x4, b.objectIds, y4);
    SubjectTextsAreInjective(a.subjects, b.subjects);
    TailSplits(a.conditions, a.maximum, b.conditions, b.maximum);
  }

  lemma {:induction false} BodiesSplit(a: Query, b: Query)
    requires ValidQuery(a) && ValidQuery(b) && Operation(a) == Operation(b) && Body(a) == Body(b)
    ensures a == b
  {
    hide Operation; hide RelationBody;
    OperationsAreDistinct(a, b);
    match a {
      case Page(_, _, _, _, _, _) => PageSplits(a, b);
      case Exact(tuple) => StrSplits(tuple, [], b.tuple, []);
      case Exists(tuple) => StrSplits(tuple, [], b.tuple, []);
      case ObjectRelation(o, r, ss, c, m) =>
        RelationBodySplits(o, r, ss, c, m, b.object_, b.relation, b.subjects, b.conditions, b.maximum);
      case CountObjectRelation(o, r, ss, c, m) =>
        RelationBodySplits(o, r, ss, c, m, b.object_, b.relation, b.subjects, b.conditions, b.maximum);
      case UsersetTuples(_, _, _, _, _) => UsersetSplits(a, b);
      case ReverseTuples(_, _, _, _, _, _) => ReverseSplits(a, b);
    }
  }

  /** Equal streams come from the same operation on the same inputs: no two tuple reads collide. */
  lemma {:induction false} ReadStreamIsInjective(a: TupleRead, b: TupleRead)
    requires ValidQuery(a.query) && ValidQuery(b.query) && ReadStream(a) == ReadStream(b)
    ensures a == b
  {
    hide Str; hide Body; hide RelationBody; hide Operation;
    var x, y := Str(a.store, Body(a.query)), Str(b.store, Body(b.query));
    StrSplits(READ_DOMAIN, Str(Operation(a.query), x),
              READ_DOMAIN, Str(Operation(b.query), y));
    StrSplits(Operation(a.query), x, Operation(b.query), y);
    StrSplits(a.store, Body(a.query), b.store, Body(b.query));
    BodiesSplit(a.query, b.query);
  }

  // ---------------------------------------------------------------------------
  // Writing the keys
  // ---------------------------------------------------------------------------

  method WriteSubjects(builder: FingerprintBuilder, subjects: seq<Subject>, ghost rest: seq<Byte>)
    requires ValidSubjects(subjects)
    modifies builder
    ensures builder.stream + rest == old(builder.stream) + Counted(SubjectTexts(subjects), rest)
  {
    ghost var texts := SubjectTexts(subjects);
    builder.WriteU64(|subjects|, Strs(texts, rest));
    assert texts[0..] == texts;
    for i := 0 to |subjects|
      invariant builder.stream + Strs(texts[i..], rest) == old(builder.stream) + Counted(texts, rest)
    {
      assert texts[i..][0] == texts[i] && texts[i..][1..] == texts[i + 1..];
      builder.WriteStr(SubjectText(subjects[i]), Strs(texts[i + 1..], rest));
    }
  }

  method WriteAllowed(builder: FingerprintBuilder, allowed: seq<(Text, Text)>, ghost rest: seq<Byte>)
    requires |allowed| < U64_BOUND
    modifies builder
    ensures builder.stream + rest == old(builder.stream) + U64(|allowed|, Strs(Flat(allowed), rest))
  {
    builder.WriteU64(|allowed|, Strs(Flat(allowed), rest));
    assert allowed[0..] == allowed;
    for i := 0 to |allowed|
      invariant builder.stream + Strs(Flat(allowed[i..]), rest) ==
                old(builder.stream) + U64(|allowed|, Strs(Flat(allowed), rest))
    {
      ghost var tail := Flat(allowed[i + 1..]);
      assert allowed[i..][0] == allowed[i] && allowed[i..][1..] == allowed[i + 1..];
      assert Strs(Flat(allowed[i..]), rest) == Str(allowed[i].0, Str(allowed[i].1, Strs(tail, rest))) by {
        TwoStrs(allowed[i].0, allowed[i].1, tail, rest);
      }
      builder.WriteStr(allowed[i].0, Str(allowed[i].1, Strs(tail, rest)));
      builder.WriteStr(allowed[i].1, Strs(tail, rest));
    }
  }

  lemma {:induction false} TwoStrs(a: Text, b: Text, tail: seq<Text>, rest: seq<Byte>)
    ensures Strs([a, b] + tail, rest) == Str(a, Str(b, Strs(tail, rest)))
  {
    assert ([a, b] + tail)[1..] == [b] + tail && ([b] + tail)[1..] == tail;
  }

  method WriteConditions(builder: FingerprintBuilder, c: Conditions, ghost rest: seq<Byte>)
    requires ValidConditions(c)
    modifies builder
    ensures builder.stream + rest == old(builder.stream) + ConditionsCode(c, rest)
  {
    match c {
      case AnyCondition => builder.WriteTag(0, rest);
      case Unconditional => builder.WriteTag(1, rest);
      case Named(names) =>
        builder.WriteTag(2, Counted(names, rest));
        builder.WriteCounted(names, rest);
    }
  }

  method WriteTail(builder: FingerprintBuilder, c: Conditions, maximum: U64Value)
    requires ValidConditions(c)
    modifies builder
    ensures builder.stream == old(builder.stream) + ConditionsCode(c, U64(maximum, []))
  {
    WriteConditions(builder, c, U64(maximum, []));
    builder.WriteU64(maximum, []);
    assert builder.stream + [] == builder.stream;
  }

  method WriteRelation(builder: FingerprintBuilder, o: Object, r: Text, subjects: seq<Subject>, c: Conditions, maximum: U64Value)
    requires ValidObject(o) && ValidSubjects(subjects) && ValidConditions(c)
    modifies builder
    ensures builder.stream == old(builder.stream) + RelationBody(o, r, subjects, c, maximum)
  {
    hide Str; hide Counted; hide ConditionsCode;
    ghost var t3 := ConditionsCode(c, U64(maximum, []));
    ghost var t2 := Counted(SubjectTexts(subjects), t3);
    builder.WriteStr(ObjectText(o), Str(r, t2));
    builder.WriteStr(r, t2);
    WriteSubjects(builder, subjects, t3);
    WriteTail(builder, c, maximum);
  }

  method WritePage(builder: FingerprintBuilder, q: Query)
    requires q.Page? && ValidQuery(q)
    modifies builder
    ensures builder.stream == old(builder.stream) + Body(q)
  {
    hide Optional; hide U64;
    ghost var t5 := Optional(q.after, []);
    ghost var t4 := U64(q.maximum, t5);
    ghost var t3 := Optional(OptionalSubject(q.subject), t4);
    ghost var t2 := Optional(q.relationFilter, t3);
    builder.WriteOptional(q.objectType, Optional(q.objectId, t2));
    builder.WriteOptional(q.objectId, t2);
    builder.WriteOptional(q.relationFilter, t3);
    builder.WriteOptional(OptionalSubject(q.subject), t4);
    builder.WriteU64(q.maximum, t5);
    builder.WriteOptional(q.after, []);
    assert builder.stream + [] == builder.stream;
  }

  method WriteQuery(builder: FingerprintBuilder, q: Query)
    requires ValidQuery(q)
    modifies builder
    ensures builder.stream == old(builder.stream) + Body(q)
  {
    hide Str; hide Counted; hide ConditionsCode; hide RelationBody; hide Strs;
    match q {
      case Page(_, _, _, _, _, _) => WritePage(builder, q);
      case Exact(tuple) =>
        builder.WriteStr(tuple, []);
        assert builder.stream + [] == builder.stream;
      case Exists(tuple) =>
        builder.WriteStr(tuple, []);
        assert builder.stream + [] == builder.stream;
      case ObjectRelation(o, r, subjects, c, maximum) => WriteRelation(builder, o, r, subjects, c, maximum);
      case CountObjectRelation(o, r, subjects, c, maximum) => WriteRelation(builder, o, r, subjects, c, maximum);
      case UsersetTuples(o, r, allowed, c, maximum) =>
        ghost var t3 := ConditionsCode(c, U64(maximum, []));
        ghost var t2 := U64(|allowed|, Strs(Flat(allowed), t3));
        builder.WriteStr(ObjectText(o), Str(r, t2));
        builder.WriteStr(r, t2);
        WriteAllowed(builder, allowed, t3);
        WriteTail(builder, c, maximum);
      case ReverseTuples(t, r, subjects, ids, c, maximum) =>
        ghost var t4 := ConditionsCode(c, U64(maximum, []));
        ghost var t3 := Counted(ids, t4);
        ghost var t2 := Counted(SubjectTexts(subjects), t3);
        builder.WriteStr(t, Str(r, t2));
        builder.WriteStr(r, t2);
        WriteSubjects(builder, subjects, t3);
        builder.WriteCounted(ids, t4);
        WriteTail(builder, c, maximum);
    }
  }

  /** What is hashed for a tuple read. */
  method TupleReadKey(read: TupleRead) returns (stream: seq<Byte>)
    requires ValidQuery(read.query)
    ensures stream == ReadStream(read)
  {
    hide Str; hide Body; hide Operation;
    ghost var t2 := Body(read.query);
    ghost var t1 := Str(read.store, t2);
    var builder := new FingerprintBuilder(READ_DOMAIN, Str(Operation(read.query), t1));
    builder.WriteStr(Operation(read.query), t1);
    builder.WriteStr(read.store, t2);
    WriteQuery(builder, read.query);
    return builder.stream;
  }
}
