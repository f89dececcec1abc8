/** Compiling a condition definition, and the cache of compiled conditions. */
module CompilationCache {

  import opened Outcomes
  import opened Fingerprints
  import opened DefinitionKeys
  import opened ConditionTypes
  import opened ConditionCompiler
  import opened ConditionMeaning
  import opened ConditionTyping
  import ShapeCheck

  /** What compilation takes from elsewhere: the parser, the reading of names, and the digest. */
  datatype Environment = Environment(
    parse: Text -> Option<Expr>, name: Text -> string, digest: seq<Byte> -> Digest)

  datatype CompiledCondition = CompiledCondition(
    name: Text, parameters: seq<(Text, ParameterType)>, program: Program,
    runtimeValueBytes: nat, runtimeCollectionItems: nat)

  function StaticOf(t: ParameterType): StaticType {
    match t
    case AnyParameter => DynType case BoolParameter => BoolType case StringParameter => StringType
    case IntParameter => IntType case UintParameter => UintType case DoubleParameter => DoubleType
    case BytesParameter => BytesType case DurationParameter => DurationType
    case TimestampParameter => TimestampType case IpAddressParameter => IpAddressType
    case ListParameter(element) => ListType(StaticOf(element))
    case MapParameter(element) => MapType(StaticOf(element))
  }

  function ScopeOf(env: Environment, ps: seq<(Text, ParameterType)>): Scope {
    if ps == [] then map[]
    else ScopeOf(env, ps[..|ps| - 1])[env.name(ps[|ps| - 1].0) := StaticOf(ps[|ps| - 1].1)]
  }

  predicate Declares(p: ParameterType, t: StaticType) {
    match t
    case DynType => p.AnyParameter? case NullType => false case BoolType => p.BoolParameter?
    case IntType => p.IntParameter? case UintType => p.UintParameter? case DoubleType => p.DoubleParameter?
    case StringType => p.StringParameter? case BytesType => p.BytesParameter?
    case DurationType => p.DurationParameter? case TimestampType => p.TimestampParameter?
    case IpAddressType => p.IpAddressParameter?
    case ListType(element) => p.ListParameter? && Declares(p.element, element)
    case MapType(element) => p.MapParameter? && Declares(p.element, element)
  }

  lemma {:induction false} StaticIsDeclared(p: ParameterType, t: StaticType)
    ensures StaticOf(p) == t <==> Declares(p, t)
  {
    if (p.ListParameter? && t.ListType?) || (p.MapParameter? && t.MapType?) {
      StaticIsDeclared(p.element, t.element);
    }
  }

  /** Parameter `i` is the last one read as `name`. */
  ghost predicate LastNamed(env: Environment, ps: seq<(Text, ParameterType)>, name: string, i: int) {
    0 <= i < |ps| && env.name(ps[i].0) == name && forall j :: i < j < |ps| ==> env.name(ps[j].0) != name
  }

  /** The scope binds exactly the parameters' names, each to the type its last parameter declares. */
  lemma {:induction false} ScopeDeclares(env: Environment, ps: seq<(Text, ParameterType)>, name: string)
    ensures name in ScopeOf(env, ps) <==> exists i :: LastNamed(env, ps, name, i)
    ensures forall i :: LastNamed(env, ps, name, i) ==> Declares(ps[i].1, ScopeOf(env, ps)[name])
    decreases |ps|
  {
    if ps != [] {
      var n := |ps| - 1;
      if env.name(ps[n].0) == name {
        assert LastNamed(env, ps, name, n);
        StaticIsDeclared(ps[n].1, StaticOf(ps[n].1));
      } else {
        ScopeDeclares(env, ps[..n], name);
        forall i ensures LastNamed(env, ps, name, i) <==> LastNamed(env, ps[..n], name, i) {
          assert 0 <= i < n ==> ps[..n][i] == ps[i];
          assert forall j :: i < j < n && 0 <= i ==> ps[..n][j] == ps[j];
        }
        assert ps[..n] + [ps[n]] == ps;
        if i :| LastNamed(env, ps, name, i) {
          assert ps[..n][i] == ps[i];
        }
      }
    }
  }

  /** The limits that the shape check looks at. */
  function ShapeLimits(l: CompileLimits): ShapeCheck.Limits {
    ShapeCheck.Limits(l.astNodes, l.astDepth, l.identifiers, l.literals, l.comprehensions, l.collectionItems)
  }

  predicate SizesOk(d: Definition, l: CompileLimits) {
    0 < |d.expression| <= l.expressionBytes && |d.parameters| <= l.parameters
  }

  /** The tree keeps the limits on nodes, identifiers, literals, comprehensions, depth and collection items. */
  ghost predicate ShapeOk(e: Expr, l: CompileLimits) {
    var counts := ShapeCheck.Count(e);
    && counts.nodes <= l.astNodes && counts.identifiers <= l.identifiers
    && counts.literals <= l.literals && counts.comprehensions <= l.comprehensions
    && ShapeCheck.Height(e) <= l.astDepth && ShapeCheck.ItemsWithin(e, l.collectionItems)
  }

  lemma {:induction false} ShapeIsWithin(e: Expr, l: CompileLimits)
    ensures ShapeOk(e, l) <==> ShapeCheck.Within(e, ShapeLimits(l))
  {
    hide ShapeCheck.Count; hide ShapeCheck.Height; hide ShapeCheck.ItemsWithin;
  }

  /** What the compilation of a definition under limits comes to: the first violated size, a syntax
      error, a violated shape, a type error, or a program that stands for the parsed expression. */
  ghost predicate CompilesTo(env: Environment, d: Definition, l: CompileLimits, r: Compiled<CompiledCondition>) {
    if !SizesOk(d, l) then r == Rejected(LimitExceeded)
    else if env.parse(d.expression).None? then r == Rejected(Syntax)
    else
      var e, scope := env.parse(d.expression).value, ScopeOf(env, d.parameters);
      var fits := ShapeCheck.Supported(e) && ShapeOk(e, l);
      && (r.Ready? <==> fits && Typed(scope, [], e, BoolType))
      && (!fits ==>
            || (r == Rejected(Unsupported) && !ShapeCheck.Supported(e))
            || (r == Rejected(LimitExceeded) && !ShapeOk(e, l)))
      && (r.Rejected? && fits ==>
            r.error == if TypeOf(scope, [], e).Rejected? then TypeOf(scope, [], e).error else NonBoolean)
      && (r.Ready? ==>
            && Compiles(scope, e, r.value.program)
            && r.value.name == d.name && r.value.parameters == d.parameters
            && r.value.runtimeValueBytes == l.runtimeValueBytes
            && r.value.runtimeCollectionItems == l.runtimeCollectionItems)
  }

  method BuildScope(env: Environment, ps: seq<(Text, ParameterType)>) returns (scope: Scope)
    ensures scope == ScopeOf(env, ps)
  {
    scope := map[];
    for i := 0 to |ps|
      invariant scope == ScopeOf(env, ps[..i])
    {
      assert ps[..i + 1][..i] == ps[..i];
      scope := scope[env.name(ps[i].0) := StaticOf(ps[i].1)];
    }
    assert ps[..|ps|] == ps;
  }

  method CompileUncached(env: Environment, d: Definition, l: CompileLimits) returns (r: Compiled<CompiledCondition>)
    ensures CompilesTo(env, d, l, r)
  {
    hide ShapeCheck.Supported; hide ShapeCheck.Within; hide ShapeOk; hide Typed; hide TypeOf; hide Compiles;
    if |d.expression| == 0 || |d.expression| > l.expressionBytes {
      return Rejected(LimitExceeded);
    }
    if |d.parameters| > l.parameters {
      return Rejected(LimitExceeded);
    }
    var parsed := env.parse(d.expression);
    if parsed.None? {
      return Rejected(Syntax);
    }
    var scope := BuildScope(env, d.parameters);
    ShapeIsWithin(parsed.value, l);
    TypingIsDecided(scope, [], parsed.value);
    var program := Compile(scope, parsed.value, ShapeLimits(l));
    if program.Rejected? {
      return Rejected(program.error);
    }
    return Ready(CompiledCondition(d.name, d.parameters, program.value, l.runtimeValueBytes, l.runtimeCollectionItems));
  }

  // ---------------------------------------------------------------------------
  // The cache
  // ---------------------------------------------------------------------------

  /** A definition small enough for its count to be written. */
  type Countable = d: Definition | |d.parameters| < U64_BOUND witness Definition([], [], [])

  function CacheKey(env: Environment, d: Countable, l: CompileLimits): seq<Byte> {
    CompilationStream(env.digest(DefinitionStream(d)), l)
  }

  /** The digest tells these definitions apart. */
  ghost predicate Collisionless(env: Environment, ds: set<Countable>) {
    forall d, e :: d in ds && e in ds && env.digest(DefinitionStream(d)) == env.digest(DefinitionStream(e)) ==>
      DefinitionStream(d) == DefinitionStream(e)
  }

  /** The key covers everything compilation depends on. */
  lemma {:induction false} KeyCoversCompilation(
    env: Environment, d: Countable, l: CompileLimits, e: Countable, m: CompileLimits, r: Compiled<CompiledCondition>)
    requires Collisionless(env, {d, e}) && CacheKey(env, d, l) == CacheKey(env, e, m)
    ensures d == e && l == m
    ensures CompilesTo(env, d, l, r) <==> CompilesTo(env, e, m, r)
  {
    hide CompilationStream; hide DefinitionStream; hide CompilesTo;
    CompilationStreamIsInjective(env.digest(DefinitionStream(d)), l, env.digest(DefinitionStream(e)), m);
    DefinitionStreamIsInjective(d, e);
  }

  class ConditionCache {
    const env: Environment
    var compiled: map<seq<Byte>, CompiledCondition>
    ghost var requested: set<Countable>

    /** Every entry is what some requested definition compiles to under the limits of its key. */
    ghost predicate Valid()
      reads this
    {
      forall k :: k in compiled ==> exists d: Countable, l :: Entry(k, d, l)
    }

    ghost predicate Entry(k: seq<Byte>, d: Countable, l: CompileLimits)
      reads this
    {
      k in compiled && d in requested && k == CacheKey(env, d, l) && CompilesTo(env, d, l, Ready(compiled[k]))
    }

    constructor (env: Environment)
      ensures Valid() && this.env == env && compiled == map[] && requested == {}
    {
      this.env := env;
      compiled, requested := map[], {};
    }

    /** A cached compilation is the compilation of the very definition and limits asked for; errors
        are not cached. */
    method Compile(d: Countable, l: CompileLimits) returns (r: Compiled<CompiledCondition>)
      requires Valid() && Collisionless(env, requested + {d})
      modifies this
      ensures Valid() && requested == old(requested) + {d}
      ensures CompilesTo(env, d, l, r)
      ensures compiled == if r.Ready? then old(compiled)[CacheKey(env, d, l) := r.value] else old(compiled)
    {
      hide CompilesTo; hide CacheKey;
      var key := CacheKey(env, d, l);
      if key in compiled {
        ghost var e: Countable, m :| Entry(key, e, m);
        KeyCoversCompilation(env, d, l, e, m, Ready(compiled[key]));
        r := Ready(compiled[key]);
        assert compiled == compiled[key := r.value];
      } else {
        r := CompileUncached(env, d, l);
      }
      Remember(key, d, l, r);
    }

    method Remember(key: seq<Byte>, d: Countable, l: CompileLimits, r: Compiled<CompiledCondition>)
      requires Valid() && key == CacheKey(env, d, l) && CompilesTo(env, d, l, r)
      modifies this
      ensures Valid() && requested == old(requested) + {d}
      ensures compiled == if r.Ready? then old(compiled)[key := r.value] else old(compiled)
    {
      hide CompilesTo; hide CacheKey;
      requested := requested + {d};
      if r.Ready? {
        compiled := compiled[key := r.value];
      }
      forall k | k in compiled ensures exists d: Countable, l :: Entry(k, d, l) {
        if r.Ready? && k == key {
          assert Entry(k, d, l);
        } else {
          assert k in old(compiled);
          var e: Countable, m :| old(Entry(k, e, m));
          assert Entry(k, e, m);
        }
      }
    }

    /** Weight-based eviction removes any entries at any time. */
    method Evict(k: seq<Byte>)
      requires Valid()
      modifies this`compiled
      ensures Valid() && compiled == old(compiled) - {k}
    {
      hide CompilesTo; hide CacheKey;
      compiled := compiled - {k};
      forall k' | k' in compiled ensures exists d: Countable, l :: Entry(k', d, l) {
        var e: Countable, m :| old(Entry(k', e, m));
        assert Entry(k', e, m);
      }
    }
  }
}
