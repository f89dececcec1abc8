/** Static types of conditions and the join that types list and map literals. */
module ConditionTypes {

  datatype CompileError =
    | Syntax
    | LimitExceeded
    | Unsupported
    | TypeMismatch
    | UnknownIdentifier(name: string)
    | NoMatchingOverload(name: string)
    | NonBoolean

  datatype Compiled<T> = Ready(value: T) | Rejected(error: CompileError)

  datatype StaticType =
    | DynType | NullType | BoolType | IntType | UintType | DoubleType | StringType | BytesType
    | DurationType | TimestampType | IpAddressType
    | ListType(element: StaticType)
    | MapType(element: StaticType)

  predicate Accepts(a: StaticType, b: StaticType) {
    if a.DynType? || b.DynType? then true
    else if a.ListType? && b.ListType? then Accepts(a.element, b.element)
    else if a.MapType? && b.MapType? then Accepts(a.element, b.element)
    else a == b
  }

  function Unify(a: StaticType, b: StaticType): Compiled<StaticType> {
    if a.DynType? then Ready(b)
    else if b.DynType? then Ready(a)
    else if a.ListType? && b.ListType? then
      match Unify(a.element, b.element) { case Ready(t) => Ready(ListType(t)) case Rejected(e) => Rejected(e) }
    else if a.MapType? && b.MapType? then
      match Unify(a.element, b.element) { case Ready(t) => Ready(MapType(t)) case Rejected(e) => Rejected(e) }
    else if a == b then Ready(a)
    else Rejected(TypeMismatch)
  }

  // ---------------------------------------------------------------------------
  // The precision order
  // ---------------------------------------------------------------------------

  /** `b` says at least as much as `a`: some of `a`'s `dyn` parts are filled in. */
  predicate Below(a: StaticType, b: StaticType) {
    || a.DynType?
    || (a.ListType? && b.ListType? && Below(a.element, b.element))
    || (a.MapType? && b.MapType? && Below(a.element, b.element))
    || a == b
  }

  lemma {:induction false} BelowIsReflexive(a: StaticType)
    ensures Below(a, a)
  {
  }

  lemma {:induction false} BelowIsAntisymmetric(a: StaticType, b: StaticType)
    requires Below(a, b) && Below(b, a)
    ensures a == b
  {
    if (a.ListType? && b.ListType?) || (a.MapType? && b.MapType?) {
      if Below(a.element, b.element) && Below(b.element, a.element) {
        BelowIsAntisymmetric(a.element, b.element);
      }
    }
  }

  lemma {:induction false} BelowIsTransitive(a: StaticType, b: StaticType, c: StaticType)
    requires Below(a, b) && Below(b, c)
    ensures Below(a, c)
  {
    if a != b && b != c && !a.DynType? {
      BelowIsTransitive(a.element, b.element, c.element);
    }
  }

  /** `Unify` is the least upper bound, and fails exactly when there is no upper bound. */
  lemma {:induction false} UnifyIsJoin(a: StaticType, b: StaticType)
    ensures Unify(a, b).Ready? ==> Below(a, Unify(a, b).value) && Below(b, Unify(a, b).value)
    ensures forall u :: Below(a, u) && Below(b, u) ==> Unify(a, b).Ready? && Below(Unify(a, b).value, u)
    ensures Accepts(a, b) <==> Unify(a, b).Ready?
  {
    if !a.DynType? && !b.DynType? && ((a.ListType? && b.ListType?) || (a.MapType? && b.MapType?)) {
      UnifyIsJoin(a.element, b.element);
      forall u | Below(a, u) && Below(b, u)
        ensures Unify(a, b).Ready? && Below(Unify(a, b).value, u)
      {
        BelowIsReflexive(a.element);
        BelowIsReflexive(b.element);
        assert Below(a.element, u.element) && Below(b.element, u.element);
      }
    }
  }

  ghost predicate Compatible(a: StaticType, b: StaticType) {
    exists u :: UpperBound({a, b}, u)
  }

  /** `Accepts` is symmetric and says that the two types have a common refinement. */
  lemma {:induction false} AcceptsIsCompatibility(a: StaticType, b: StaticType)
    ensures Accepts(a, b) <==> Accepts(b, a)
    ensures Accepts(a, b) <==> Compatible(a, b)
  {
    UnifyIsJoin(a, b);
    UnifyIsJoin(b, a);
    if Accepts(a, b) {
      assert UpperBound({a, b}, Unify(a, b).value);
    }
    if Compatible(a, b) {
      var u :| UpperBound({a, b}, u);
      assert Below(a, u) && Below(b, u);
    }
    if Accepts(b, a) {
      assert UpperBound({a, b}, Unify(b, a).value);
    }
  }

  // ---------------------------------------------------------------------------
  // Joining a literal's elements
  // ---------------------------------------------------------------------------

  ghost predicate UpperBound(types: set<StaticType>, u: StaticType) {
    forall t :: t in types ==> Below(t, u)
  }

  /** The most general type that every member of `types` refines into. */
  ghost predicate LeastUpperBound(types: set<StaticType>, t: StaticType) {
    UpperBound(types, t) && forall u :: UpperBound(types, u) ==> Below(t, u)
  }

  function Elements(types: seq<StaticType>): set<StaticType> {
    set t | t in types
  }

  lemma {:induction false} LeastUpperBoundIsUnique(types: set<StaticType>, t: StaticType, u: StaticType)
    requires LeastUpperBound(types, t) && LeastUpperBound(types, u)
    ensures t == u
  {
    BelowIsAntisymmetric(t, u);
  }

  lemma {:induction false} JoinExtends(types: seq<StaticType>, current: StaticType, next: StaticType)
    requires LeastUpperBound(Elements(types), current)
    ensures Unify(current, next).Ready? ==> LeastUpperBound(Elements(types + [next]), Unify(current, next).value)
    ensures Unify(current, next).Rejected? ==> forall u :: !UpperBound(Elements(types + [next]), u)
  {
    UnifyIsJoin(current, next);
    var all := Elements(types + [next]);
    assert next in types + [next];
    assert forall t :: t in types ==> t in types + [next];
    forall u | UpperBound(all, u) ensures Below(current, u) && Below(next, u) {
      assert UpperBound(Elements(types), u);
      assert next in all;
    }
    if Unify(current, next).Ready? {
      var j := Unify(current, next).value;
      forall t | t in all ensures Below(t, j) {
        if t in types {
          assert t in Elements(types);
          BelowIsTransitive(t, current, j);
        }
      }
    }
  }

  /** The element type of a literal is the join of its elements' types; it is refused exactly when
      they have no common refinement. */
  method UnifyNodes(types: seq<StaticType>) returns (r: Compiled<StaticType>)
    ensures r.Ready? ==> LeastUpperBound(Elements(types), r.value)
    ensures r.Rejected? ==> r.error == TypeMismatch && forall u :: !UpperBound(Elements(types), u)
    ensures r == JoinAll(types)
  {
    var current := DynType;
    for i := 0 to |types|
      invariant LeastUpperBound(Elements(types[..i]), current)
      invariant JoinAll(types) == JoinFrom(current, types[i..])
    {
      assert types[..i + 1] == types[..i] + [types[i]];
      assert types[i..][1..] == types[i + 1..];
      JoinExtends(types[..i], current, types[i]);
      if current == DynType {
        current := types[i];
      } else {
        match Unify(current, types[i]) {
          case Ready(t) => current := t;
          case Rejected(e) =>
            NoBoundOfMore(types, i + 1);
            UnifyFailsOneWay(current, types[i]);
            return Rejected(e);
        }
      }
    }
    assert types[..|types|] == types;
    return Ready(current);
  }

  /** The join of `types` on top of `current`. */
  function JoinFrom(current: StaticType, types: seq<StaticType>): Compiled<StaticType>
    decreases |types|
  {
    if types == [] then Ready(current)
    else match Unify(current, types[0]) {
      case Ready(t) => JoinFrom(t, types[1..])
      case Rejected(e) => Rejected(e)
    }
  }

  function JoinAll(types: seq<StaticType>): Compiled<StaticType> {
    JoinFrom(DynType, types)
  }

  lemma {:induction false} UnifyFailsOneWay(a: StaticType, b: StaticType)
    ensures Unify(a, b).Rejected? ==> Unify(a, b).error == TypeMismatch
  {
    if (a.ListType? && b.ListType?) || (a.MapType? && b.MapType?) {
      UnifyFailsOneWay(a.element, b.element);
    }
  }

  lemma {:induction false} NoBoundOfMore(types: seq<StaticType>, i: nat)
    requires i <= |types| && forall u :: !UpperBound(Elements(types[..i]), u)
    ensures forall u :: !UpperBound(Elements(types), u)
  {
    forall u ensures !UpperBound(Elements(types), u) {
      if UpperBound(Elements(types), u) {
        forall t | t in Elements(types[..i]) ensures Below(t, u) {
          assert t in Elements(types);
        }
        assert UpperBound(Elements(types[..i]), u);
      }
    }
  }

  lemma {:induction false} JoinFromIsJoin(types: seq<StaticType>, before: seq<StaticType>, current: StaticType)
    requires LeastUpperBound(Elements(before), current)
    ensures JoinFrom(current, types).Ready? ==> LeastUpperBound(Elements(before + types), JoinFrom(current, types).value)
    ensures JoinFrom(current, types).Rejected? ==> JoinFrom(current, types).error == TypeMismatch
    ensures JoinFrom(current, types).Rejected? ==> forall u :: !UpperBound(Elements(before + types), u)
    decreases |types|
  {
    if types == [] {
      assert before + types == before;
    } else {
      JoinExtends(before, current, types[0]);
      assert before + types == (before + [types[0]]) + types[1..];
      if Unify(current, types[0]).Ready? {
        JoinFromIsJoin(types[1..], before + [types[0]], Unify(current, types[0]).value);
      } else {
        UnifyFailsOneWay(current, types[0]);
        assert (before + types)[..|before| + 1] == before + [types[0]];
        NoBoundOfMore(before + types, |before| + 1);
      }
    }
  }

  /** A literal's element type does not depend on the order, or the repetition, of its elements. */
  lemma {:induction false} JoinIgnoresOrder(types: seq<StaticType>, others: seq<StaticType>)
    requires Elements(types) == Elements(others)
    ensures JoinAll(types) == JoinAll(others)
  {
    assert LeastUpperBound(Elements([]), DynType);
    JoinFromIsJoin(types, [], DynType);
    JoinFromIsJoin(others, [], DynType);
    assert [] + types == types && [] + others == others;
    if JoinAll(types).Ready? && JoinAll(others).Ready? {
      LeastUpperBoundIsUnique(Elements(types), JoinAll(types).value, JoinAll(others).value);
    }
  }

  /** Joining is commutative and idempotent. */
  lemma {:induction false} UnifyCommutes(a: StaticType, b: StaticType)
    ensures Unify(a, b) == Unify(b, a)
    ensures Unify(a, a) == Ready(a)
  {
    hide Unify;
    JoinIgnoresOrder([a, b], [b, a]);
    JoinIgnoresOrder([a, a], [a]);
    UnfoldPair(a, b);
    UnfoldPair(b, a);
    UnfoldPair(a, a);
  }

  /** Joining is associative, also in when it fails. */
  lemma {:induction false} UnifyAssociates(a: StaticType, b: StaticType, c: StaticType)
    ensures (if Unify(b, c).Ready? then Unify(a, Unify(b, c).value) else Unify(b, c)) ==
            (if Unify(a, b).Ready? then Unify(Unify(a, b).value, c) else Unify(a, b))
  {
    hide Unify;
    JoinIgnoresOrder([a, b, c], [b, c, a]);
    UnfoldTriple(a, b, c);
    UnfoldTriple(b, c, a);
    if Unify(b, c).Ready? {
      UnifyCommutes(Unify(b, c).value, a);
    }
    UnifyFailsOneWay(a, b);
    UnifyFailsOneWay(b, c);
    if Unify(a, b).Ready? {
      UnifyFailsOneWay(Unify(a, b).value, c);
    }
  }

  lemma {:induction false} UnfoldPair(a: StaticType, b: StaticType)
    ensures JoinAll([a]) == Ready(a)
    ensures JoinAll([a, b]) == Unify(a, b) && JoinFrom(a, [b]) == Unify(a, b)
  {
    assert Unify(DynType, a) == Ready(a);
    hide Unify;
    assert JoinFrom(a, []) == Ready(a) && [a][1..] == [] && [a, b][1..] == [b];
    assert JoinFrom(a, [b]) == Unify(a, b) by { assert [b][1..] == []; }
  }

  lemma {:induction false} UnfoldTriple(a: StaticType, b: StaticType, c: StaticType)
    ensures JoinAll([a, b, c]) == if Unify(a, b).Ready? then Unify(Unify(a, b).value, c) else Unify(a, b)
  {
    assert Unify(DynType, a) == Ready(a);
    hide Unify;
    assert [a, b, c][1..] == [b, c];
    assert JoinFrom(a, [b, c]) == if Unify(a, b).Ready? then JoinFrom(Unify(a, b).value, [c]) else Unify(a, b) by {
      assert [b, c][1..] == [c];
    }
    if Unify(a, b).Ready? {
      UnfoldPair(Unify(a, b).value, c);
    }
  }
}
