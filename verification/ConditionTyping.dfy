/** The typing rules of conditions as a judgement over tables of signatures, and that the compiler decides it. */
module ConditionTyping {

  import opened Outcomes
  import opened ConditionTypes
  import opened ConditionCompiler

  // ---------------------------------------------------------------------------
  // Tables
  // ---------------------------------------------------------------------------

  /** A set of types that an operand may have. */
  datatype Class = Class(scalars: set<StaticType>, lists: bool, maps: bool)

  predicate Fits(t: StaticType, class_: Class) {
    t in class_.scalars || (t.ListType? && class_.lists) || (t.MapType? && class_.maps)
  }

  const TRUTH := Class({BoolType, DynType}, false, false)
  const TEXT := Class({StringType, DynType}, false, false)
  const ONLY_TEXT := Class({StringType}, false, false)
  const ADDRESS := Class({IpAddressType, DynType}, false, false)
  const SIGNED := Class({IntType, DoubleType, DynType}, false, false)
  const NUMBER := Class({IntType, UintType, DoubleType, DynType}, false, false)
  const NUMERAL := Class({IntType, UintType, DoubleType, StringType, DynType}, false, false)
  const PRINTABLE := Class({IntType, UintType, DoubleType, StringType, BoolType, BytesType, DynType}, false, false)
  const ORDERED :=
    Class({IntType, UintType, DoubleType, StringType, BytesType, DurationType, TimestampType, DynType}, false, false)
  const ADDABLE := Class({IntType, UintType, DoubleType, StringType, BytesType, DynType}, true, false)
  const SIZED := Class({StringType, BytesType, DynType}, true, true)
  const POSITION := Class({IntType, UintType, DynType}, false, false)

  /** One way to write a call: the function, the receiver if it takes one, and its arguments. */
  datatype Signature = Signature(function_: Function, receiver: Option<Class>, arguments: seq<Class>, result: StaticType)

  const SIGNATURES: seq<Signature> := [
    Signature(DurationOf, None, [ONLY_TEXT], DurationType),
    Signature(TimestampOf, None, [ONLY_TEXT], TimestampType),
    Signature(IpAddressOf, None, [ONLY_TEXT], IpAddressType),
    Signature(IntOf, None, [NUMERAL], IntType),
    Signature(UintOf, None, [NUMERAL], UintType),
    Signature(DoubleOf, None, [NUMERAL], DoubleType),
    Signature(StringOf, None, [PRINTABLE], StringType),
    Signature(BytesOf, None, [TEXT], BytesType),
    Signature(Size, None, [SIZED], IntType),
    Signature(Size, Some(SIZED), [], IntType),
    Signature(Contains, Some(TEXT), [TEXT], BoolType),
    Signature(StartsWith, Some(TEXT), [TEXT], BoolType),
    Signature(EndsWith, Some(TEXT), [TEXT], BoolType),
    Signature(InCidr, Some(ADDRESS), [TEXT], BoolType)]

  predicate Matches(s: Signature, f: Function, target: Option<StaticType>, arguments: seq<StaticType>) {
    && s.function_ == f
    && s.receiver.Some? == target.Some? && (target.Some? ==> Fits(target.value, s.receiver.value))
    && |s.arguments| == |arguments| && forall i :: 0 <= i < |arguments| ==> Fits(arguments[i], s.arguments[i])
  }

  predicate UnarySignature(op: UnaryOperator, input: StaticType, result: StaticType) {
    match op
    case Not => Fits(input, TRUTH) && result == BoolType
    case NotStrictlyFalse => Fits(input, TRUTH) && result == BoolType
    case Negate => Fits(input, SIGNED) && result == input
  }

  /** Comparisons and equality give booleans, arithmetic the left operand's type, membership a boolean,
      an index the type of what the container holds. */
  ghost predicate BinarySignature(op: BinaryOperator, left: StaticType, right: StaticType, result: StaticType) {
    match op
    case Equal => Compatible(left, right) && result == BoolType
    case NotEqual => Compatible(left, right) && result == BoolType
    case Less => Fits(left, ORDERED) && Compatible(left, right) && result == BoolType
    case LessEqual => Fits(left, ORDERED) && Compatible(left, right) && result == BoolType
    case Greater => Fits(left, ORDERED) && Compatible(left, right) && result == BoolType
    case GreaterEqual => Fits(left, ORDERED) && Compatible(left, right) && result == BoolType
    case Add => Fits(left, ADDABLE) && Compatible(left, right) && result == left
    case Subtract => Fits(left, NUMBER) && Compatible(left, right) && result == left
    case Multiply => Fits(left, NUMBER) && Compatible(left, right) && result == left
    case Divide => Fits(left, NUMBER) && Compatible(left, right) && result == left
    case Modulo => Fits(left, NUMBER) && Compatible(left, right) && result == left
    case In =>
      && result == BoolType
      && (match right
          case ListType(element) => Compatible(element, left)
          case MapType(_) => Fits(left, TEXT)
          case DynType => true
          case _ => false)
    case Index =>
      match left
      case ListType(element) => Fits(right, POSITION) && result == element
      case MapType(element) => Fits(right, TEXT) && result == element
      case DynType => result == DynType
      case _ => false
  }

  // ---------------------------------------------------------------------------
  // The compiler follows them
  // ---------------------------------------------------------------------------

  lemma {:induction false} AcceptsScalars(t: StaticType)
    ensures Accepts(BoolType, t) <==> Fits(t, TRUTH)
    ensures Accepts(StringType, t) <==> Fits(t, TEXT)
  {
  }

  /** A unary operator accepts exactly the operand types of its signature. */
  lemma {:induction false} UnaryFollows(op: UnaryOperator, input: StaticType, result: StaticType)
    ensures UnaryType(op, input) == Ready(result) <==> UnarySignature(op, input, result)
    ensures UnaryType(op, input).Rejected? ==> UnaryType(op, input) == Rejected(TypeMismatch)
  {
    AcceptsScalars(input);
  }

  lemma {:induction false} Orders(t: StaticType)
    ensures Comparable(t) <==> Fits(t, ORDERED)
  {
  }

  lemma {:induction false} Adds(t: StaticType)
    ensures (t.IntType? || t.UintType? || t.DoubleType? || t.StringType? || t.BytesType? || t.ListType? || t.DynType?) <==>
            Fits(t, ADDABLE)
    ensures (t.IntType? || t.UintType? || t.DoubleType? || t.DynType?) <==> Fits(t, NUMBER)
  {
  }

  lemma {:induction false} MembershipFollows(left: StaticType, right: StaticType, result: StaticType)
    ensures MembershipType(left, right) == Ready(result) <==> BinarySignature(In, left, right, result)
    ensures MembershipType(left, right).Rejected? ==> MembershipType(left, right) == Rejected(TypeMismatch)
  {
    AcceptsScalars(left);
    if right.ListType? {
      AcceptsIsCompatibility(right.element, left);
    }
    hide Accepts; hide Compatible; hide Fits;
  }

  lemma {:induction false} IndexFollows(left: StaticType, right: StaticType, result: StaticType)
    ensures IndexType(left, right) == Ready(result) <==> BinarySignature(Index, left, right, result)
    ensures IndexType(left, right).Rejected? ==> IndexType(left, right) == Rejected(TypeMismatch)
  {
    AcceptsScalars(right);
    hide Accepts; hide Compatible;
  }

  /** A binary operator accepts exactly the operand types of its signature. */
  lemma {:induction false} BinaryFollows(op: BinaryOperator, left: StaticType, right: StaticType, result: StaticType)
    ensures BinaryType(op, left, right) == Ready(result) <==> BinarySignature(op, left, right, result)
    ensures BinaryType(op, left, right).Rejected? ==> BinaryType(op, left, right) == Rejected(TypeMismatch)
  {
    hide Accepts; hide Compatible; hide Fits; hide Comparable; hide MembershipType; hide IndexType;
    if op.In? {
      MembershipFollows(left, right, result);
    } else if op.Index? {
      IndexFollows(left, right, result);
    } else {
      AcceptsIsCompatibility(left, right);
      Orders(left);
      Adds(left);
    }
  }

  lemma {:induction false} Takes(t: StaticType)
    ensures Sizeable(t) <==> Fits(t, SIZED)
    ensures Numeral(t) <==> Fits(t, NUMERAL)
    ensures Numeral(t) || t.BoolType? || t.BytesType? <==> Fits(t, PRINTABLE)
  {
  }

  lemma {:induction false} TakesText(t: StaticType)
    ensures Texty(t) <==> Fits(t, TEXT)
    ensures t.StringType? <==> Fits(t, ONLY_TEXT)
    ensures t.IpAddressType? || t.DynType? <==> Fits(t, ADDRESS)
  {
  }

  /** The row of the table for a function in a position. */
  function RowOf(f: Function, receiver: bool): nat {
    match f
    case DurationOf => 0 case TimestampOf => 1 case IpAddressOf => 2 case IntOf => 3 case UintOf => 4
    case DoubleOf => 5 case StringOf => 6 case BytesOf => 7 case Size => if receiver then 9 else 8
    case Contains => 10 case StartsWith => 11 case EndsWith => 12 case InCidr => 13
  }

  lemma {:induction false} RowFollows(f: Function, target: Option<StaticType>, arguments: seq<StaticType>)
    ensures Matches(SIGNATURES[RowOf(f, target.Some?)], f, target, arguments) ==>
            FunctionType(f, target, arguments) == Ready(SIGNATURES[RowOf(f, target.Some?)].result)
    ensures !Matches(SIGNATURES[RowOf(f, target.Some?)], f, target, arguments) ==>
            FunctionType(f, target, arguments) == Rejected(TypeMismatch)
  {
    if target.Some? {
      Takes(target.value);
      TakesText(target.value);
    }
    if |arguments| == 1 {
      Takes(arguments[0]);
      TakesText(arguments[0]);
    }
    hide Fits; hide Sizeable; hide Numeral; hide Texty;
  }

  lemma {:induction false} RowIsOnly(i: nat, f: Function, target: Option<StaticType>, arguments: seq<StaticType>)
    requires i < |SIGNATURES| && Matches(SIGNATURES[i], f, target, arguments)
    ensures i == RowOf(f, target.Some?)
  {
    hide Fits;
  }

  /** A call is typed exactly by the signatures of its function. */
  lemma {:induction false} FunctionFollows(f: Function, target: Option<StaticType>, arguments: seq<StaticType>, result: StaticType)
    ensures FunctionType(f, target, arguments) == Ready(result) <==>
            exists i :: 0 <= i < |SIGNATURES| && Matches(SIGNATURES[i], f, target, arguments) && SIGNATURES[i].result == result
    ensures FunctionType(f, target, arguments).Rejected? ==> FunctionType(f, target, arguments) == Rejected(TypeMismatch)
  {
    RowFollows(f, target, arguments);
    forall i: nat | i < |SIGNATURES| && Matches(SIGNATURES[i], f, target, arguments)
      ensures i == RowOf(f, target.Some?)
    {
      RowIsOnly(i, f, target, arguments);
    }
    hide Matches; hide FunctionType;
  }

  // ---------------------------------------------------------------------------
  // The judgement
  // ---------------------------------------------------------------------------

  predicate LiteralTyped(l: Literal, t: StaticType) {
    match t
    case NullType => l.NullLiteral?
    case BoolType => l.BoolLiteral?
    case IntType => l.IntLiteral?
    case UintType => l.UintLiteral?
    case DoubleType => l.DoubleLiteral? && l.finite
    case StringType => l.StringLiteral?
    case BytesType => l.BytesLiteral?
    case _ => false
  }

  ghost predicate Innermost(scopes: seq<Scope>, name: string, i: int) {
    0 <= i < |scopes| && name in scopes[i] && forall j :: i < j < |scopes| ==> name !in scopes[j]
  }

  /** The innermost scope that binds a name gives its type, and the parameters if none does. */
  ghost predicate NameTyped(ps: Scope, scopes: seq<Scope>, name: string, t: StaticType) {
    || (exists i :: Innermost(scopes, name, i) && scopes[i][name] == t)
    || ((forall i :: 0 <= i < |scopes| ==> name !in scopes[i]) && name in ps && ps[name] == t)
  }

  /** What a comprehension over a range binds: the accumulator hides the second variable, which hides the
      first; there is no second variable over a list. */
  ghost predicate Binds(e: Expr, range: StaticType, init: StaticType, scope: Scope)
    requires e.ComprehensionExpr?
  {
    && (range.ListType? || range.MapType? || range.DynType?)
    && (forall name ::
          name in scope <==> name == e.iterVar || name == e.accuVar || (e.iterVar2 == Some(name) && !range.ListType?))
    && scope[e.accuVar] == init
    && (e.iterVar2.Some? && !range.ListType? && e.iterVar2.value != e.accuVar ==>
          scope[e.iterVar2.value] == if range.MapType? then range.element else DynType)
    && (e.iterVar != e.accuVar && (e.iterVar2 == Some(e.iterVar) ==> range.ListType?) ==>
          scope[e.iterVar] == if range.ListType? then range.element else if range.MapType? then StringType else DynType)
  }

  /** A call of `callee`, on a receiver type where it takes one, with these argument types. */
  ghost predicate CallTyped(callee: Callee, receiver: Option<StaticType>, ts: seq<StaticType>, t: StaticType) {
    match callee
    case LogicalAndName => |ts| == 2 && Fits(ts[0], TRUTH) && Fits(ts[1], TRUTH) && t == BoolType
    case LogicalOrName => |ts| == 2 && Fits(ts[0], TRUTH) && Fits(ts[1], TRUTH) && t == BoolType
    case ConditionalName => |ts| == 3 && Fits(ts[0], TRUTH) && LeastUpperBound({ts[1], ts[2]}, t)
    case UnaryName(op) => |ts| == 1 && UnarySignature(op, ts[0], t)
    case BinaryName(op) => |ts| == 2 && BinarySignature(op, ts[0], ts[1], t)
    case OtherName(name) =>
      exists i ::
        && 0 <= i < |SIGNATURES| && NameOf(SIGNATURES[i].function_) == name
        && Matches(SIGNATURES[i], SIGNATURES[i].function_, receiver, ts) && SIGNATURES[i].result == t
  }

  /** Expression `e` has type `t` where `scopes` and `ps` give the types of names. */
  ghost predicate Typed(ps: Scope, scopes: seq<Scope>, e: Expr, t: StaticType)
    decreases e, 1
  {
    match e
    case Unspecified => false
    case Struct => false
    case LiteralExpr(l) => LiteralTyped(l, t)
    case Ident(name) => NameTyped(ps, scopes, name, t)
    case ListExpr(es) => t.ListType? && exists ts :: TypedAll(ps, scopes, es, ts) && LeastUpperBound(Elements(ts), t.element)
    case MapExpr(entries) =>
      t.MapType? && exists ts :: TypedEntries(ps, scopes, entries, ts) && LeastUpperBound(Elements(ts), t.element)
    case SelectExpr(operand, _, test) =>
      if test
      then t == BoolType && exists o: StaticType :: Typed(ps, scopes, operand, o) && (o.MapType? || o.DynType?)
      else Typed(ps, scopes, operand, MapType(t)) || (t == DynType && Typed(ps, scopes, operand, DynType))
    case CallExpr(callee, target, args) =>
      && ((callee.UnaryName? || callee.BinaryName?) ==> target.None?)
      && (exists r, ts ::
            && (if callee.OtherName? then TypedTarget(ps, scopes, target, r) else r == None)
            && TypedAll(ps, scopes, args, ts) && CallTyped(callee, r, ts, t))
    case ComprehensionExpr(range, _, _, _, init, _, _, _) =>
      exists r, a, scope ::
        && Typed(ps, scopes, range, r) && Typed(ps, scopes, init, a) && Binds(e, r, a, scope)
        && TypedInside(ps, scopes + [scope], e, a, t)
  }

  ghost predicate TypedAll(ps: Scope, scopes: seq<Scope>, es: seq<Expr>, ts: seq<StaticType>)
    decreases es, 2
  {
    |ts| == |es| && forall i :: 0 <= i < |es| ==> Typed(ps, scopes, es[i], ts[i])
  }

  ghost predicate TypedEntries(ps: Scope, scopes: seq<Scope>, entries: seq<Entry>, ts: seq<StaticType>)
    decreases entries, 2
  {
    |ts| == |entries| && forall i :: 0 <= i < |entries| ==> TypedEntry(ps, scopes, entries[i], ts[i])
  }

  ghost predicate TypedEntry(ps: Scope, scopes: seq<Scope>, entry: Entry, t: StaticType)
    decreases entry, 2
  {
    entry.MapEntry? && !entry.optional && Typed(ps, scopes, entry.key, StringType) && Typed(ps, scopes, entry.value, t)
  }

  ghost predicate TypedTarget(ps: Scope, scopes: seq<Scope>, target: Option<Expr>, r: Option<StaticType>)
    decreases target, 2
  {
    target.Some? == r.Some? && (target.Some? ==> Typed(ps, scopes, target.value, r.value))
  }

  ghost predicate TypedInside(ps: Scope, inner: seq<Scope>, e: Expr, accumulator: StaticType, t: StaticType)
    requires e.ComprehensionExpr?
    decreases e, 0
  {
    && Typed(ps, inner, e.result, t)
    && (exists c :: Typed(ps, inner, e.cond, c) && Fits(c, TRUTH))
    && (exists s :: Typed(ps, inner, e.step, s) && Compatible(accumulator, s))
  }

  // ---------------------------------------------------------------------------
  // The compiler decides the judgement
  // ---------------------------------------------------------------------------

  ghost predicate Agrees(ps: Scope, scopes: seq<Scope>, e: Expr) {
    forall t :: Typed(ps, scopes, e, t) <==> TypeOf(ps, scopes, e) == Ready(t)
  }

  lemma {:induction false} AllAgree(ps: Scope, scopes: seq<Scope>, es: seq<Expr>, ts: seq<StaticType>)
    requires forall i :: 0 <= i < |es| ==> Agrees(ps, scopes, es[i])
    ensures TypedAll(ps, scopes, es, ts) <==> TypesOf(ps, scopes, es) == Ready(ts)
    decreases |es|
  {
    hide Typed; hide TypeOf;
    if |es| > 0 {
      var n := |es| - 1;
      if |ts| > 0 {
        AllAgree(ps, scopes, es[..n], ts[..|ts| - 1]);
        assert ts == ts[..|ts| - 1] + [ts[|ts| - 1]];
      }
      assert Agrees(ps, scopes, es[n]);
    }
  }

  lemma {:induction false} EntryAgrees(ps: Scope, scopes: seq<Scope>, entry: Entry, t: StaticType)
    requires entry.MapEntry? ==> Agrees(ps, scopes, entry.key) && Agrees(ps, scopes, entry.value)
    ensures TypedEntry(ps, scopes, entry, t) <==> EntryType(ps, scopes, entry) == Ready(t)
  {
    hide Typed; hide TypeOf;
  }

  lemma {:induction false} EntriesAgree(ps: Scope, scopes: seq<Scope>, entries: seq<Entry>, ts: seq<StaticType>)
    requires forall i :: 0 <= i < |entries| && entries[i].MapEntry? ==>
               Agrees(ps, scopes, entries[i].key) && Agrees(ps, scopes, entries[i].value)
    ensures TypedEntries(ps, scopes, entries, ts) <==> EntryTypes(ps, scopes, entries) == Ready(ts)
    decreases |entries|
  {
    hide Typed; hide TypeOf; hide TypedEntry; hide EntryType; hide Agrees;
    if |entries| > 0 {
      var n := |entries| - 1;
      if |ts| > 0 {
        EntriesAgree(ps, scopes, entries[..n], ts[..|ts| - 1]);
        EntryAgrees(ps, scopes, entries[n], ts[|ts| - 1]);
        assert ts == ts[..|ts| - 1] + [ts[|ts| - 1]];
      }
    }
  }

  /** The join of a literal's elements is their least upper bound, whenever there is one. */
  lemma {:induction false} JoinIsBound(types: seq<StaticType>, t: StaticType)
    ensures JoinAll(types) == Ready(t) <==> LeastUpperBound(Elements(types), t)
  {
    assert LeastUpperBound(Elements([]), DynType);
    JoinFromIsJoin(types, [], DynType);
    assert [] + types == types;
    if JoinAll(types).Ready? && LeastUpperBound(Elements(types), t) {
      LeastUpperBoundIsUnique(Elements(types), JoinAll(types).value, t);
    }
  }

  lemma {:induction false} NameAgrees(ps: Scope, scopes: seq<Scope>, name: string, t: StaticType)
    ensures NameTyped(ps, scopes, name, t) <==> TypeOf(ps, scopes, Ident(name)) == Ready(t)
  {
    if Bound(scopes, name) {
      InnermostIsBound(scopes, name);
    }
  }

  lemma {:induction false} InnermostIsBound(scopes: seq<Scope>, name: string)
    requires Bound(scopes, name)
    ensures exists i :: Innermost(scopes, name, i) && scopes[i][name] == BoundType(scopes, name)
    decreases |scopes|
  {
    var n := |scopes| - 1;
    if name in scopes[n] {
      assert Innermost(scopes, name, n);
    } else {
      var k :| 0 <= k < |scopes| && name in scopes[k];
      assert scopes[..n][k] == scopes[k];
      InnermostIsBound(scopes[..n], name);
      var i :| Innermost(scopes[..n], name, i) && scopes[..n][i][name] == BoundType(scopes[..n], name);
      forall j | i < j < |scopes| ensures name !in scopes[j] {
        if j < n {
          assert scopes[..n][j] == scopes[j];
        }
      }
      assert Innermost(scopes, name, i);
    }
  }

  lemma {:induction false} ListAgrees(ps: Scope, scopes: seq<Scope>, es: seq<Expr>, t: StaticType)
    requires forall i :: 0 <= i < |es| ==> Agrees(ps, scopes, es[i])
    ensures Typed(ps, scopes, ListExpr(es), t) <==> TypeOf(ps, scopes, ListExpr(es)) == Ready(t)
  {
    hide TypedAll; hide TypesOf; hide JoinAll; hide LeastUpperBound; hide Agrees;
    if Typed(ps, scopes, ListExpr(es), t) {
      var ts :| TypedAll(ps, scopes, es, ts) && LeastUpperBound(Elements(ts), t.element);
      AllAgree(ps, scopes, es, ts);
      JoinIsBound(ts, t.element);
    }
    if TypeOf(ps, scopes, ListExpr(es)) == Ready(t) {
      var ts := TypesOf(ps, scopes, es).value;
      AllAgree(ps, scopes, es, ts);
      JoinIsBound(ts, t.element);
    }
  }

  lemma {:induction false} MapAgrees(ps: Scope, scopes: seq<Scope>, entries: seq<Entry>, t: StaticType)
    requires forall i :: 0 <= i < |entries| && entries[i].MapEntry? ==>
               Agrees(ps, scopes, entries[i].key) && Agrees(ps, scopes, entries[i].value)
    ensures Typed(ps, scopes, MapExpr(entries), t) <==> TypeOf(ps, scopes, MapExpr(entries)) == Ready(t)
  {
    hide TypedEntries; hide EntryTypes; hide JoinAll; hide LeastUpperBound; hide Agrees;
    if Typed(ps, scopes, MapExpr(entries), t) {
      var ts :| TypedEntries(ps, scopes, entries, ts) && LeastUpperBound(Elements(ts), t.element);
      EntriesAgree(ps, scopes, entries, ts);
      JoinIsBound(ts, t.element);
    }
    if TypeOf(ps, scopes, MapExpr(entries)) == Ready(t) {
      var ts := EntryTypes(ps, scopes, entries).value;
      EntriesAgree(ps, scopes, entries, ts);
      JoinIsBound(ts, t.element);
    }
  }

  lemma {:induction false} SelectAgrees(ps: Scope, scopes: seq<Scope>, e: Expr)
    requires e.SelectExpr? && Agrees(ps, scopes, e.operand)
    ensures Agrees(ps, scopes, e)
  {
  }

  lemma {:induction false} TargetAgrees(ps: Scope, scopes: seq<Scope>, target: Option<Expr>, r: Option<StaticType>)
    requires target.Some? ==> Agrees(ps, scopes, target.value)
    ensures TypedTarget(ps, scopes, target, r) <==> TargetType(ps, scopes, target) == Ready(r)
  {
    hide Typed; hide TypeOf;
  }

  lemma {:induction false} PairIsBound(a: StaticType, b: StaticType, t: StaticType)
    ensures Unify(a, b) == Ready(t) <==> LeastUpperBound({a, b}, t)
  {
    JoinIsBound([a, b], t);
    UnfoldPair(a, b);
    assert Elements([a, b]) == {a, b};
  }

  /** A call of operands with given types is typed by its operator's or function's signature. */
  lemma {:induction false} CallAgrees(e: Expr, receiver: Option<StaticType>, ts: seq<StaticType>, t: StaticType)
    requires e.CallExpr? && |ts| == |e.args| && receiver.Some? == (e.callee.OtherName? && e.target.Some?)
    requires (e.callee.UnaryName? || e.callee.BinaryName?) ==> e.target.None?
    ensures CallTyped(e.callee, receiver, ts, t) <==> Shaped(e) && ResultType(e, receiver, ts) == Ready(t)
  {
    match e.callee {
      case LogicalAndName =>
        if |ts| == 2 { AcceptsScalars(ts[0]); AcceptsScalars(ts[1]); }
      case LogicalOrName =>
        if |ts| == 2 { AcceptsScalars(ts[0]); AcceptsScalars(ts[1]); }
      case ConditionalName =>
        if |ts| == 3 { AcceptsScalars(ts[0]); PairIsBound(ts[1], ts[2], t); }
      case UnaryName(op) =>
        if |ts| == 1 { UnaryFollows(op, ts[0], t); }
      case BinaryName(op) =>
        if |ts| == 2 { BinaryFollows(op, ts[0], ts[1], t); }
      case OtherName(name) =>
        NamedCallAgrees(name, receiver, ts, t);
    }
    hide Accepts; hide Fits; hide LeastUpperBound; hide Unify; hide UnarySignature; hide UnaryType;
    hide BinarySignature; hide BinaryType; hide FunctionNamed; hide FunctionType; hide Matches; hide NameOf;
  }

  lemma {:induction false} NamedCallAgrees(name: string, receiver: Option<StaticType>, ts: seq<StaticType>, t: StaticType)
    ensures CallTyped(OtherName(name), receiver, ts, t) <==>
            FunctionNamed(name, receiver.Some?).Some? && FunctionType(FunctionNamed(name, receiver.Some?).value, receiver, ts) == Ready(t)
  {
    NamesResolve(name, receiver.Some?);
    if FunctionNamed(name, receiver.Some?).Some? {
      FunctionFollows(FunctionNamed(name, receiver.Some?).value, receiver, ts, t);
    }
    forall i | 0 <= i < |SIGNATURES| && Matches(SIGNATURES[i], SIGNATURES[i].function_, receiver, ts)
      ensures Written(SIGNATURES[i].function_, receiver.Some?)
    {
      RowIsWritten(i);
    }
    hide FunctionNamed; hide FunctionType; hide NameOf; hide Written; hide Fits;
  }

  lemma {:induction false} RowIsWritten(i: nat)
    requires i < |SIGNATURES|
    ensures Written(SIGNATURES[i].function_, SIGNATURES[i].receiver.Some?)
  {
  }

  lemma {:induction false} CallExprAgrees(ps: Scope, scopes: seq<Scope>, e: Expr, t: StaticType)
    requires e.CallExpr? && (e.target.Some? ==> Agrees(ps, scopes, e.target.value))
    requires forall i :: 0 <= i < |e.args| ==> Agrees(ps, scopes, e.args[i])
    ensures Typed(ps, scopes, e, t) <==> TypeOf(ps, scopes, e) == Ready(t)
  {
    hide TypedAll; hide TypesOf; hide CallTyped; hide ResultType; hide Agrees; hide TypedTarget; hide TargetType;
    if Typed(ps, scopes, e, t) {
      var r, ts :| (if e.callee.OtherName? then TypedTarget(ps, scopes, e.target, r) else r == None) &&
                   TypedAll(ps, scopes, e.args, ts) && CallTyped(e.callee, r, ts, t);
      AllAgree(ps, scopes, e.args, ts);
      TargetAgrees(ps, scopes, e.target, r);
      assert r.Some? == (e.callee.OtherName? && e.target.Some?) by { TargetIsThere(ps, scopes, e.target, r); }
      CallAgrees(e, r, ts, t);
    }
    if TypeOf(ps, scopes, e) == Ready(t) {
      assert CallType(ps, scopes, e) == Ready(t);
      var ts := TypesOf(ps, scopes, e.args).value;
      AllAgree(ps, scopes, e.args, ts);
      var r := if e.callee.OtherName? then TargetType(ps, scopes, e.target).value else None;
      TargetAgrees(ps, scopes, e.target, r);
      assert r.Some? == (e.callee.OtherName? && e.target.Some?) by { TargetIsThere(ps, scopes, e.target, r); }
      CallAgrees(e, r, ts, t);
    }
  }

  lemma {:induction false} TargetIsThere(ps: Scope, scopes: seq<Scope>, target: Option<Expr>, r: Option<StaticType>)
    ensures TypedTarget(ps, scopes, target, r) ==> r.Some? == target.Some?
  {
  }

  lemma {:induction false} ScopeBinds(e: Expr, range: StaticType, init: StaticType)
    requires e.ComprehensionExpr?
    ensures IterableTypes(range).Ready? <==> range.ListType? || range.MapType? || range.DynType?
    ensures IterableTypes(range).Ready? ==> Binds(e, range, init, ComprehensionScope(e, IterableTypes(range).value, init))
  {
  }

  lemma {:induction false} BindingIsUnique(e: Expr, range: StaticType, init: StaticType, scope: Scope, other: Scope)
    requires e.ComprehensionExpr? && Binds(e, range, init, scope) && Binds(e, range, init, other)
    ensures scope == other
  {
    forall name ensures name in scope <==> name in other {
    }
    forall name | name in scope ensures scope[name] == other[name] {
    }
  }

  lemma {:induction false} ScopeIsBound(e: Expr, range: StaticType, init: StaticType, scope: Scope)
    requires e.ComprehensionExpr?
    ensures Binds(e, range, init, scope) <==>
            IterableTypes(range).Ready? && scope == ComprehensionScope(e, IterableTypes(range).value, init)
  {
    ScopeBinds(e, range, init);
    if Binds(e, range, init, scope) {
      hide IterableTypes; hide ComprehensionScope;
      var other := ComprehensionScope(e, IterableTypes(range).value, init);
      assert Binds(e, range, init, other);
      hide Binds;
      BindingIsUnique(e, range, init, scope, other);
    }
  }

  /** The compiler gives an expression a type exactly when the judgement does, and then the same one. */
  lemma {:induction false} TypingIsDecided(ps: Scope, scopes: seq<Scope>, e: Expr)
    ensures Agrees(ps, scopes, e)
    decreases e
  {
    hide Typed; hide TypeOf;
    match e {
      case Unspecified => LeafAgrees(ps, scopes, e);
      case Struct => LeafAgrees(ps, scopes, e);
      case LiteralExpr(_) => LeafAgrees(ps, scopes, e);
      case Ident(_) => LeafAgrees(ps, scopes, e);
      case ListExpr(es) =>
        forall i | 0 <= i < |es| ensures Agrees(ps, scopes, es[i]) {
          TypingIsDecided(ps, scopes, es[i]);
        }
        forall t ensures Typed(ps, scopes, e, t) <==> TypeOf(ps, scopes, e) == Ready(t) {
          ListAgrees(ps, scopes, es, t);
        }
      case MapExpr(entries) =>
        forall i | 0 <= i < |entries| && entries[i].MapEntry?
          ensures Agrees(ps, scopes, entries[i].key) && Agrees(ps, scopes, entries[i].value)
        {
          TypingIsDecided(ps, scopes, entries[i].key);
          TypingIsDecided(ps, scopes, entries[i].value);
        }
        forall t ensures Typed(ps, scopes, e, t) <==> TypeOf(ps, scopes, e) == Ready(t) {
          MapAgrees(ps, scopes, entries, t);
        }
      case SelectExpr(operand, _, _) =>
        TypingIsDecided(ps, scopes, operand);
        SelectAgrees(ps, scopes, e);
      case CallExpr(_, target, args) =>
        if target.Some? {
          TypingIsDecided(ps, scopes, target.value);
        }
        forall i | 0 <= i < |args| ensures Agrees(ps, scopes, args[i]) {
          TypingIsDecided(ps, scopes, args[i]);
        }
        forall t ensures Typed(ps, scopes, e, t) <==> TypeOf(ps, scopes, e) == Ready(t) {
          CallExprAgrees(ps, scopes, e, t);
        }
      case ComprehensionExpr(range, _, _, _, init, cond, step, result) =>
        TypingIsDecided(ps, scopes, range);
        TypingIsDecided(ps, scopes, init);
        forall inner: seq<Scope>
          ensures Agrees(ps, inner, cond) && Agrees(ps, inner, step) && Agrees(ps, inner, result)
        {
          TypingIsDecided(ps, inner, cond);
          TypingIsDecided(ps, inner, step);
          TypingIsDecided(ps, inner, result);
        }
        forall t ensures Typed(ps, scopes, e, t) <==> TypeOf(ps, scopes, e) == Ready(t) {
          ComprehensionAgrees(ps, scopes, e, t);
        }
    }
  }

  lemma {:induction false} LeafAgrees(ps: Scope, scopes: seq<Scope>, e: Expr)
    requires e.Unspecified? || e.Struct? || e.LiteralExpr? || e.Ident?
    ensures Agrees(ps, scopes, e)
  {
    if e.Ident? {
      forall t ensures Typed(ps, scopes, e, t) <==> TypeOf(ps, scopes, e) == Ready(t) {
        NameAgrees(ps, scopes, e.name, t);
      }
    }
  }

  lemma {:induction false} InsideAgrees(ps: Scope, inner: seq<Scope>, e: Expr, a: StaticType, t: StaticType)
    requires e.ComprehensionExpr? && Agrees(ps, inner, e.cond) && Agrees(ps, inner, e.step) && Agrees(ps, inner, e.result)
    ensures TypedInside(ps, inner, e, a, t) <==> InsideType(ps, inner, e, a) == Ready(t)
  {
    GuardAgrees(ps, inner, e.cond);
    StepAgrees(ps, inner, e.step, a);
    hide Typed; hide TypeOf; hide Accepts; hide Compatible; hide Fits;
  }

  lemma {:induction false} GuardAgrees(ps: Scope, scopes: seq<Scope>, e: Expr)
    requires Agrees(ps, scopes, e)
    ensures (exists c :: Typed(ps, scopes, e, c) && Fits(c, TRUTH)) <==>
            TypeOf(ps, scopes, e).Ready? && Accepts(BoolType, TypeOf(ps, scopes, e).value)
  {
    hide Typed; hide TypeOf; hide Accepts; hide Fits;
    if TypeOf(ps, scopes, e).Ready? {
      AcceptsScalars(TypeOf(ps, scopes, e).value);
    }
  }

  lemma {:induction false} StepAgrees(ps: Scope, scopes: seq<Scope>, e: Expr, a: StaticType)
    requires Agrees(ps, scopes, e)
    ensures (exists s :: Typed(ps, scopes, e, s) && Compatible(a, s)) <==>
            TypeOf(ps, scopes, e).Ready? && Accepts(a, TypeOf(ps, scopes, e).value)
  {
    hide Typed; hide TypeOf; hide Accepts; hide Compatible;
    if TypeOf(ps, scopes, e).Ready? {
      AcceptsIsCompatibility(a, TypeOf(ps, scopes, e).value);
    }
  }

  /** The type of a comprehension whose names are bound. */
  function InsideType(ps: Scope, inner: seq<Scope>, e: Expr, a: StaticType): Compiled<StaticType>
    requires e.ComprehensionExpr?
  {
    var c, s, o := TypeOf(ps, inner, e.cond), TypeOf(ps, inner, e.step), TypeOf(ps, inner, e.result);
    if c.Rejected? then c else if s.Rejected? then s else if o.Rejected? then o
    else if Accepts(BoolType, c.value) && Accepts(a, s.value) then o else Rejected(TypeMismatch)
  }

  lemma {:induction false} ComprehensionAgrees(ps: Scope, scopes: seq<Scope>, e: Expr, t: StaticType)
    requires e.ComprehensionExpr? && Agrees(ps, scopes, e.range) && Agrees(ps, scopes, e.init)
    requires forall inner: seq<Scope> :: Agrees(ps, inner, e.cond) && Agrees(ps, inner, e.step) && Agrees(ps, inner, e.result)
    ensures Typed(ps, scopes, e, t) <==> TypeOf(ps, scopes, e) == Ready(t)
  {
    hide Typed; hide TypeOf; hide Agrees;
    if Typed(ps, scopes, e, t) {
      TypedIsFound(ps, scopes, e, t);
    }
    if TypeOf(ps, scopes, e) == Ready(t) {
      FoundIsTyped(ps, scopes, e, t);
    }
  }

  lemma {:induction false} TypedIsFound(ps: Scope, scopes: seq<Scope>, e: Expr, t: StaticType)
    requires e.ComprehensionExpr? && Agrees(ps, scopes, e.range) && Agrees(ps, scopes, e.init)
    requires forall inner: seq<Scope> :: Agrees(ps, inner, e.cond) && Agrees(ps, inner, e.step) && Agrees(ps, inner, e.result)
    requires Typed(ps, scopes, e, t)
    ensures TypeOf(ps, scopes, e) == Ready(t)
  {
    UnfoldTyped(ps, scopes, e, t);
    UnfoldComprehension(ps, scopes, e);
    hide Typed; hide TypeOf; hide TypedInside; hide Binds; hide InsideType; hide ComprehensionScope; hide IterableTypes;
    var r, a, scope :| Typed(ps, scopes, e.range, r) && Typed(ps, scopes, e.init, a) && Binds(e, r, a, scope) &&
                       TypedInside(ps, scopes + [scope], e, a, t);
    ScopeIsBound(e, r, a, scope);
    InsideAgrees(ps, scopes + [scope], e, a, t);
  }

  lemma {:induction false} FoundIsTyped(ps: Scope, scopes: seq<Scope>, e: Expr, t: StaticType)
    requires e.ComprehensionExpr? && Agrees(ps, scopes, e.range) && Agrees(ps, scopes, e.init)
    requires forall inner: seq<Scope> :: Agrees(ps, inner, e.cond) && Agrees(ps, inner, e.step) && Agrees(ps, inner, e.result)
    requires TypeOf(ps, scopes, e) == Ready(t)
    ensures Typed(ps, scopes, e, t)
  {
    UnfoldComprehension(ps, scopes, e);
    hide TypeOf; hide TypedInside; hide Binds; hide InsideType; hide ComprehensionScope; hide IterableTypes;
    var r, a := TypeOf(ps, scopes, e.range).value, TypeOf(ps, scopes, e.init).value;
    var scope := ComprehensionScope(e, IterableTypes(r).value, a);
    ScopeIsBound(e, r, a, scope);
    InsideAgrees(ps, scopes + [scope], e, a, t);
  }

  lemma {:induction false} UnfoldTyped(ps: Scope, scopes: seq<Scope>, e: Expr, t: StaticType)
    requires e.ComprehensionExpr? && Typed(ps, scopes, e, t)
    ensures exists r, a, scope ::
              && Typed(ps, scopes, e.range, r) && Typed(ps, scopes, e.init, a) && Binds(e, r, a, scope)
              && TypedInside(ps, scopes + [scope], e, a, t)
  {
    hide Binds; hide TypedInside;
  }

  lemma {:induction false} UnfoldComprehension(ps: Scope, scopes: seq<Scope>, e: Expr)
    requires e.ComprehensionExpr?
    ensures TypeOf(ps, scopes, e) ==
            var r, a := TypeOf(ps, scopes, e.range), TypeOf(ps, scopes, e.init);
            if r.Rejected? then r
            else if IterableTypes(r.value).Rejected? then Rejected(IterableTypes(r.value).error)
            else if a.Rejected? then a
            else InsideType(ps, scopes + [ComprehensionScope(e, IterableTypes(r.value).value, a.value)], e, a.value)
  {
    hide ComprehensionScope; hide IterableTypes; hide Accepts;
  }
}
