/** Lowering a parsed condition into an arena of nodes. */
module ConditionCompiler {

  import opened Outcomes
  import opened ConditionTypes

  type NodeId = nat

  datatype Literal =
    | NullLiteral
    | BoolLiteral(bool)
    | IntLiteral(int)
    | UintLiteral(nat)
    | DoubleLiteral(bits: nat, finite: bool)
    | StringLiteral(string)
    | BytesLiteral(seq<nat>)

  datatype UnaryOperator = Not | Negate | NotStrictlyFalse

  datatype BinaryOperator =
    | Add | Subtract | Multiply | Divide | Modulo
    | Equal | NotEqual | Greater | GreaterEqual | Less | LessEqual
    | In | Index

  datatype Function =
    | DurationOf | TimestampOf | IpAddressOf | IntOf | UintOf | DoubleOf | StringOf | BytesOf
    | Size | Contains | StartsWith | EndsWith | InCidr

  /** The callee of a call expression: the parser's operator names, or any other name. */
  datatype Callee =
    | LogicalAndName
    | LogicalOrName
    | ConditionalName
    | UnaryName(unary: UnaryOperator)
    | BinaryName(binary: BinaryOperator)
    | OtherName(name: string)

  /** The parsed expression. */
  datatype Expr =
    | Unspecified
    | Struct
    | LiteralExpr(literal: Literal)
    | Ident(name: string)
    | ListExpr(elements: seq<Expr>)
    | MapExpr(entries: seq<Entry>)
    | SelectExpr(operand: Expr, field: string, test: bool)
    | CallExpr(callee: Callee, target: Option<Expr>, args: seq<Expr>)
    | ComprehensionExpr(range: Expr, iterVar: string, iterVar2: Option<string>, accuVar: string,
                        init: Expr, cond: Expr, step: Expr, result: Expr)

  datatype Entry = MapEntry(key: Expr, value: Expr, optional: bool) | OtherEntry

  datatype NodeKind =
    | LiteralNode(literal: Literal)
    | Parameter(name: string)
    | Local(name: string)
    | ListNode(elements: seq<NodeId>)
    | MapNode(entries: seq<(NodeId, NodeId)>)
    | Select(operand: NodeId, field: string, test: bool)
    | Unary(unary: UnaryOperator, operand: NodeId)
    | Binary(binary: BinaryOperator, left: NodeId, right: NodeId)
    | LogicalAnd(left: NodeId, right: NodeId)
    | LogicalOr(left: NodeId, right: NodeId)
    | Conditional(condition: NodeId, truthy: NodeId, falsy: NodeId)
    | Call(function_: Function, target: Option<NodeId>, arguments: seq<NodeId>)
    | Comprehension(range: NodeId, iterVar: string, iterVar2: Option<string>, accuVar: string,
                    init: NodeId, cond: NodeId, step: NodeId, result: NodeId)

  datatype Node = Node(kind: NodeKind, type_: StaticType)

  type Scope = map<string, StaticType>

  // ---------------------------------------------------------------------------
  // Typing rules
  // ---------------------------------------------------------------------------

  function LiteralType(l: Literal): Compiled<StaticType> {
    match l
    case NullLiteral => Ready(NullType)
    case BoolLiteral(_) => Ready(BoolType)
    case IntLiteral(_) => Ready(IntType)
    case UintLiteral(_) => Ready(UintType)
    case DoubleLiteral(_, finite) => if finite then Ready(DoubleType) else Rejected(TypeMismatch)
    case StringLiteral(_) => Ready(StringType)
    case BytesLiteral(_) => Ready(BytesType)
  }

  function UnaryType(op: UnaryOperator, input: StaticType): Compiled<StaticType> {
    if !op.Negate? && Accepts(BoolType, input) then Ready(BoolType)
    else if op.Negate? && (input.IntType? || input.DoubleType? || input.DynType?) then Ready(input)
    else Rejected(TypeMismatch)
  }

  predicate Comparable(t: StaticType) {
    t.IntType? || t.UintType? || t.DoubleType? || t.StringType? || t.BytesType? || t.DurationType? ||
    t.TimestampType? || t.DynType?
  }

  function MembershipType(left: StaticType, right: StaticType): Compiled<StaticType> {
    if (right.ListType? && Accepts(right.element, left)) || (right.MapType? && Accepts(StringType, left)) || right.DynType?
    then Ready(BoolType)
    else Rejected(TypeMismatch)
  }

  function IndexType(left: StaticType, right: StaticType): Compiled<StaticType> {
    if left.ListType? && (right.IntType? || right.UintType? || right.DynType?) then Ready(left.element)
    else if left.MapType? && Accepts(StringType, right) then Ready(left.element)
    else if left.DynType? then Ready(DynType)
    else Rejected(TypeMismatch)
  }

  function BinaryType(op: BinaryOperator, left: StaticType, right: StaticType): Compiled<StaticType> {
    match op
    case Equal => if Accepts(left, right) then Ready(BoolType) else Rejected(TypeMismatch)
    case NotEqual => if Accepts(left, right) then Ready(BoolType) else Rejected(TypeMismatch)
    case In => MembershipType(left, right)
    case Index => IndexType(left, right)
    case Add =>
      if Accepts(left, right) && (left.IntType? || left.UintType? || left.DoubleType? || left.StringType? ||
                                  left.BytesType? || left.ListType? || left.DynType?)
      then Ready(left) else Rejected(TypeMismatch)
    case _ =>
      if op.Greater? || op.GreaterEqual? || op.Less? || op.LessEqual? then
        if Comparable(left) && Accepts(left, right) then Ready(BoolType) else Rejected(TypeMismatch)
      else
        if Accepts(left, right) && (left.IntType? || left.UintType? || left.DoubleType? || left.DynType?)
        then Ready(left) else Rejected(TypeMismatch)
  }

  function BinaryFunctionName(op: BinaryOperator): string {
    match op
    case Add => "_+_" case Subtract => "_-_" case Multiply => "_*_" case Divide => "_/_" case Modulo => "_%_"
    case Equal => "_==_" case NotEqual => "_!=_" case Greater => "_>_" case GreaterEqual => "_>=_"
    case Less => "_<_" case LessEqual => "_<=_" case In => "_in_" case Index => "_[_]"
  }

  function FunctionNamed(name: string, receiver: bool): Option<Function> {
    if name == "size" then Some(Size)
    else if receiver then
      if name == "contains" then Some(Contains)
      else if name == "startsWith" then Some(StartsWith)
      else if name == "endsWith" then Some(EndsWith)
      else if name == "in_cidr" then Some(InCidr)
      else None
    else
      if name == "duration" then Some(DurationOf)
      else if name == "timestamp" then Some(TimestampOf)
      else if name == "ipaddress" then Some(IpAddressOf)
      else if name == "int" then Some(IntOf)
      else if name == "uint" then Some(UintOf)
      else if name == "double" then Some(DoubleOf)
      else if name == "string" then Some(StringOf)
      else if name == "bytes" then Some(BytesOf)
      else None
  }

  /** How a function is written. */
  function NameOf(f: Function): string {
    match f
    case DurationOf => "duration" case TimestampOf => "timestamp" case IpAddressOf => "ipaddress"
    case IntOf => "int" case UintOf => "uint" case DoubleOf => "double" case StringOf => "string" case BytesOf => "bytes"
    case Size => "size"
    case Contains => "contains" case StartsWith => "startsWith" case EndsWith => "endsWith" case InCidr => "in_cidr"
  }

  /** Where a function may be written: on a receiver, without one, or both. */
  predicate Written(f: Function, receiver: bool) {
    match f
    case Size => true
    case Contains => receiver case StartsWith => receiver case EndsWith => receiver case InCidr => receiver
    case _ => !receiver
  }

  /** A name in a position stands for the one function written so there, if there is one. */
  lemma {:induction false} NamesResolve(name: string, receiver: bool)
    ensures FunctionNamed(name, receiver).Some? <==> exists f :: NameOf(f) == name && Written(f, receiver)
    ensures FunctionNamed(name, receiver).Some? ==>
            NameOf(FunctionNamed(name, receiver).value) == name && Written(FunctionNamed(name, receiver).value, receiver)
    ensures forall f :: Written(f, receiver) ==> FunctionNamed(NameOf(f), receiver) == Some(f)
  {
    forall f | Written(f, receiver) ensures FunctionNamed(NameOf(f), receiver) == Some(f) {
      NameResolves(f, receiver);
    }
    if FunctionNamed(name, receiver).Some? {
      ResolvedHasName(name, receiver);
    }
  }

  lemma {:induction false} ResolvedHasName(name: string, receiver: bool)
    requires FunctionNamed(name, receiver).Some?
    ensures NameOf(FunctionNamed(name, receiver).value) == name && Written(FunctionNamed(name, receiver).value, receiver)
  {
  }

  lemma {:induction false} NameResolves(f: Function, receiver: bool)
    requires Written(f, receiver)
    ensures FunctionNamed(NameOf(f), receiver) == Some(f)
  {
  }

  predicate Sizeable(t: StaticType) {
    t.StringType? || t.BytesType? || t.ListType? || t.MapType? || t.DynType?
  }

  predicate Numeral(t: StaticType) {
    t.IntType? || t.UintType? || t.DoubleType? || t.StringType? || t.DynType?
  }

  predicate Texty(t: StaticType) {
    t.StringType? || t.DynType?
  }

  /** The overload table. */
  function FunctionType(f: Function, target: Option<StaticType>, args: seq<StaticType>): Compiled<StaticType> {
    if f.Size? && target.Some? && args == [] && Sizeable(target.value) then Ready(IntType)
    else if f.Size? && target.None? && |args| == 1 && Sizeable(args[0]) then Ready(IntType)
    else if target.None? && |args| == 1 then
      match f
      case DurationOf => if args[0].StringType? then Ready(DurationType) else Rejected(TypeMismatch)
      case TimestampOf => if args[0].StringType? then Ready(TimestampType) else Rejected(TypeMismatch)
      case IpAddressOf => if args[0].StringType? then Ready(IpAddressType) else Rejected(TypeMismatch)
      case IntOf => if Numeral(args[0]) then Ready(IntType) else Rejected(TypeMismatch)
      case UintOf => if Numeral(args[0]) then Ready(UintType) else Rejected(TypeMismatch)
      case DoubleOf => if Numeral(args[0]) then Ready(DoubleType) else Rejected(TypeMismatch)
      case StringOf =>
        if Numeral(args[0]) || args[0].BoolType? || args[0].BytesType? then Ready(StringType) else Rejected(TypeMismatch)
      case BytesOf => if Texty(args[0]) then Ready(BytesType) else Rejected(TypeMismatch)
      case _ => Rejected(TypeMismatch)
    else if target.Some? && |args| == 1 && Texty(args[0]) then
      if (f.Contains? || f.StartsWith? || f.EndsWith?) && Texty(target.value) then Ready(BoolType)
      else if f.InCidr? && (target.value.IpAddressType? || target.value.DynType?) then Ready(BoolType)
      else Rejected(TypeMismatch)
    else Rejected(TypeMismatch)
  }

  function IterableTypes(t: StaticType): Compiled<(StaticType, Option<StaticType>)> {
    match t
    case ListType(element) => Ready((element, None))
    case MapType(value) => Ready((StringType, Some(value)))
    case DynType => Ready((DynType, Some(DynType)))
    case _ => Rejected(TypeMismatch)
  }

  // ---------------------------------------------------------------------------
  // The type of an expression, by recursion on the tree
  // ---------------------------------------------------------------------------

  predicate Bound(scopes: seq<Scope>, name: string) {
    exists i :: 0 <= i < |scopes| && name in scopes[i]
  }

  /** The type of the innermost binding. */
  function BoundType(scopes: seq<Scope>, name: string): StaticType
    requires Bound(scopes, name)
  {
    var n := |scopes| - 1;
    if name in scopes[n] then scopes[n][name] else BoundType(scopes[..n], name)
  }

  /** The names a comprehension binds around its condition, step and result. */
  function ComprehensionScope(e: Expr, range: (StaticType, Option<StaticType>), init: StaticType): Scope
    requires e.ComprehensionExpr?
  {
    var scope := map[e.iterVar := range.0];
    var scope := if e.iterVar2.Some? && range.1.Some? then scope[e.iterVar2.value := range.1.value] else scope;
    scope[e.accuVar := init]
  }

  function TypeOf(ps: Scope, scopes: seq<Scope>, e: Expr): Compiled<StaticType>
    decreases e, 1
  {
    match e
    case Unspecified => Rejected(Unsupported)
    case Struct => Rejected(Unsupported)
    case LiteralExpr(l) => LiteralType(l)
    case Ident(name) =>
      if Bound(scopes, name) then Ready(BoundType(scopes, name))
      else if name in ps then Ready(ps[name])
      else Rejected(UnknownIdentifier(name))
    case ListExpr(es) =>
      (match TypesOf(ps, scopes, es)
       case Rejected(x) => Rejected(x)
       case Ready(ts) => Wrapped(JoinAll(ts), t => ListType(t)))
    case MapExpr(entries) =>
      (match EntryTypes(ps, scopes, entries)
       case Rejected(x) => Rejected(x)
       case Ready(ts) => Wrapped(JoinAll(ts), t => MapType(t)))
    case SelectExpr(operand, _, test) =>
      (match TypeOf(ps, scopes, operand)
       case Rejected(x) => Rejected(x)
       case Ready(t) => SelectType(t, test))
    case CallExpr(callee, target, args) => CallType(ps, scopes, e)
    case ComprehensionExpr(range, _, _, _, init, cond, step, result) =>
      var rt := TypeOf(ps, scopes, range);
      if rt.Rejected? then rt else
      var it := IterableTypes(rt.value);
      if it.Rejected? then Rejected(it.error) else
      var at := TypeOf(ps, scopes, init);
      if at.Rejected? then at else
      var inner := scopes + [ComprehensionScope(e, it.value, at.value)];
      var ct := TypeOf(ps, inner, cond);
      if ct.Rejected? then ct else
      var st := TypeOf(ps, inner, step);
      if st.Rejected? then st else
      var ot := TypeOf(ps, inner, result);
      if ot.Rejected? then ot else
      if Accepts(BoolType, ct.value) && Accepts(at.value, st.value) then ot else Rejected(TypeMismatch)
  }

  function Wrapped(t: Compiled<StaticType>, wrap: StaticType -> StaticType): Compiled<StaticType> {
    match t case Ready(v) => Ready(wrap(v)) case Rejected(x) => Rejected(x)
  }

  function SelectType(t: StaticType, test: bool): Compiled<StaticType> {
    if t.MapType? then Ready(if test then BoolType else t.element)
    else if t.DynType? then Ready(if test then BoolType else DynType)
    else Rejected(TypeMismatch)
  }

  /** The types of several expressions, left to right; the first rejection wins. */
  function TypesOf(ps: Scope, scopes: seq<Scope>, es: seq<Expr>): (ts: Compiled<seq<StaticType>>)
    ensures ts.Ready? ==> |ts.value| == |es|
    decreases es, |es|
  {
    if es == [] then Ready([])
    else
      var init := es[..|es| - 1];
      match TypesOf(ps, scopes, init)
      case Rejected(x) => Rejected(x)
      case Ready(ts) =>
        match TypeOf(ps, scopes, es[|es| - 1])
        case Rejected(x) => Rejected(x)
        case Ready(t) => Ready(ts + [t])
  }

  /** The value types of map entries, left to right. */
  function EntryTypes(ps: Scope, scopes: seq<Scope>, entries: seq<Entry>): (ts: Compiled<seq<StaticType>>)
    ensures ts.Ready? ==> |ts.value| == |entries|
    decreases entries, |entries|
  {
    if entries == [] then Ready([])
    else
      match EntryTypes(ps, scopes, entries[..|entries| - 1])
      case Rejected(x) => Rejected(x)
      case Ready(ts) =>
        match EntryType(ps, scopes, entries[|entries| - 1])
        case Rejected(x) => Rejected(x)
        case Ready(t) => Ready(ts + [t])
  }

  /** The value type of an entry whose key is a string. */
  function EntryType(ps: Scope, scopes: seq<Scope>, entry: Entry): Compiled<StaticType>
    decreases entry
  {
    if entry.OtherEntry? || entry.optional then Rejected(Unsupported) else
    match TypeOf(ps, scopes, entry.key)
    case Rejected(x) => Rejected(x)
    case Ready(k) => if k != StringType then Rejected(TypeMismatch) else TypeOf(ps, scopes, entry.value)
  }

  /** The number of operands an operator takes, and whether it refuses a receiver. */
  predicate Shaped(e: Expr)
    requires e.CallExpr?
  {
    match e.callee
    case LogicalAndName => |e.args| == 2
    case LogicalOrName => |e.args| == 2
    case ConditionalName => |e.args| == 3
    case UnaryName(_) => |e.args| == 1 && e.target.None?
    case BinaryName(_) => |e.args| == 2 && e.target.None?
    case OtherName(name) => FunctionNamed(name, e.target.Some?).Some?
  }

  function CallType(ps: Scope, scopes: seq<Scope>, e: Expr): Compiled<StaticType>
    requires e.CallExpr?
    decreases e, 0
  {
    if !Shaped(e) then Rejected(Unsupported) else
    var tt := if e.callee.OtherName? then TargetType(ps, scopes, e.target) else Ready(None);
    if tt.Rejected? then Rejected(tt.error) else
    match TypesOf(ps, scopes, e.args)
    case Rejected(x) => Rejected(x)
    case Ready(ts) => ResultType(e, tt.value, ts)
  }

  function TargetType(ps: Scope, scopes: seq<Scope>, target: Option<Expr>): Compiled<Option<StaticType>>
    decreases target
  {
    match target
    case None => Ready(None)
    case Some(t) => (match TypeOf(ps, scopes, t) case Rejected(x) => Rejected(x) case Ready(v) => Ready(Some(v)))
  }

  /** What a call on operands of the given types returns. */
  function ResultType(e: Expr, target: Option<StaticType>, ts: seq<StaticType>): Compiled<StaticType>
    requires e.CallExpr? && Shaped(e) && |ts| == |e.args|
  {
    match e.callee
    case LogicalAndName => if Accepts(BoolType, ts[0]) && Accepts(BoolType, ts[1]) then Ready(BoolType) else Rejected(TypeMismatch)
    case LogicalOrName => if Accepts(BoolType, ts[0]) && Accepts(BoolType, ts[1]) then Ready(BoolType) else Rejected(TypeMismatch)
    case ConditionalName => if Accepts(BoolType, ts[0]) then Unify(ts[1], ts[2]) else Rejected(TypeMismatch)
    case UnaryName(op) => UnaryType(op, ts[0])
    case BinaryName(op) => Overloaded(BinaryType(op, ts[0], ts[1]), BinaryFunctionName(op))
    case OtherName(name) => Overloaded(FunctionType(FunctionNamed(name, e.target.Some?).value, target, ts), name)
  }

  /** A mismatch is reported as a missing overload. */
  function Overloaded(t: Compiled<StaticType>, name: string): Compiled<StaticType> {
    if t.Rejected? && (t.error.TypeMismatch? || t.error.Unsupported?) then Rejected(NoMatchingOverload(name)) else t
  }

  // ---------------------------------------------------------------------------
  // What a node stands for
  // ---------------------------------------------------------------------------

  predicate Earlier(ids: seq<NodeId>, id: NodeId) {
    forall i :: 0 <= i < |ids| ==> ids[i] < id
  }

  /** The node refers only to smaller identifiers. */
  predicate RefersBack(kind: NodeKind, id: NodeId) {
    match kind
    case LiteralNode(_) => true
    case Parameter(_) => true
    case Local(_) => true
    case ListNode(ids) => Earlier(ids, id)
    case MapNode(pairs) => forall i :: 0 <= i < |pairs| ==> pairs[i].0 < id && pairs[i].1 < id
    case Select(operand, _, _) => operand < id
    case Unary(_, operand) => operand < id
    case Binary(_, left, right) => left < id && right < id
    case LogicalAnd(left, right) => left < id && right < id
    case LogicalOr(left, right) => left < id && right < id
    case Conditional(c, t, f) => c < id && t < id && f < id
    case Call(_, target, ids) => (target.Some? ==> target.value < id) && Earlier(ids, id)
    case Comprehension(range, _, _, _, init, cond, step, result) =>
      range < id && init < id && cond < id && step < id && result < id
  }

  predicate Arena(nodes: seq<Node>) {
    forall id: nat :: id < |nodes| ==> RefersBack(nodes[id].kind, id)
  }

  /** Node `id` is a lowering of `e` inside `scopes`, with the type of `e`. */
  ghost predicate Represents(ps: Scope, scopes: seq<Scope>, e: Expr, nodes: seq<Node>, id: NodeId)
    decreases e
  {
    && id < |nodes|
    && TypeOf(ps, scopes, e) == Ready(nodes[id].type_)
    && var kind := nodes[id].kind;
       match e
       case Unspecified => false
       case Struct => false
       case LiteralExpr(l) => kind == LiteralNode(l)
       case Ident(name) => kind == if Bound(scopes, name) then Local(name) else Parameter(name)
       case ListExpr(es) =>
         && kind.ListNode? && |kind.elements| == |es|
         && forall i :: 0 <= i < |es| ==> Represents(ps, scopes, es[i], nodes, kind.elements[i])
       case MapExpr(entries) =>
         && kind.MapNode? && |kind.entries| == |entries|
         && forall i :: 0 <= i < |entries| ==> RepresentsEntry(ps, scopes, entries[i], nodes, kind.entries[i])
       case SelectExpr(operand, field, test) =>
         kind.Select? && kind.field == field && kind.test == test && Represents(ps, scopes, operand, nodes, kind.operand)
       case CallExpr(callee, target, args) =>
         && Shaped(e)
         && CallKind(e, kind)
         && (forall i :: 0 <= i < |args| ==> Represents(ps, scopes, args[i], nodes, Operands(kind)[i]))
         && (callee.OtherName? && target.Some? ==> Represents(ps, scopes, target.value, nodes, kind.target.value))
       case ComprehensionExpr(range, iterVar, iterVar2, accuVar, init, cond, step, result) =>
         && kind.Comprehension?
         && kind.iterVar == iterVar && kind.iterVar2 == iterVar2 && kind.accuVar == accuVar
         && Represents(ps, scopes, range, nodes, kind.range)
         && Represents(ps, scopes, init, nodes, kind.init)
         && var inner := InnerScopes(ps, scopes, e);
            && Represents(ps, inner, cond, nodes, kind.cond)
            && Represents(ps, inner, step, nodes, kind.step)
            && Represents(ps, inner, result, nodes, kind.result)
  }

  ghost predicate RepresentsEntry(ps: Scope, scopes: seq<Scope>, entry: Entry, nodes: seq<Node>, pair: (NodeId, NodeId))
    decreases entry
  {
    && entry.MapEntry?
    && Represents(ps, scopes, entry.key, nodes, pair.0)
    && Represents(ps, scopes, entry.value, nodes, pair.1)
  }

  /** The scopes around a comprehension's condition, step and result. */
  function InnerScopes(ps: Scope, scopes: seq<Scope>, e: Expr): seq<Scope>
    requires e.ComprehensionExpr?
  {
    var rt, at := TypeOf(ps, scopes, e.range), TypeOf(ps, scopes, e.init);
    if rt.Ready? && IterableTypes(rt.value).Ready? && at.Ready? then
      scopes + [ComprehensionScope(e, IterableTypes(rt.value).value, at.value)]
    else scopes
  }

  function Operands(kind: NodeKind): seq<NodeId> {
    match kind
    case Unary(_, operand) => [operand]
    case Binary(_, left, right) => [left, right]
    case LogicalAnd(left, right) => [left, right]
    case LogicalOr(left, right) => [left, right]
    case Conditional(c, t, f) => [c, t, f]
    case Call(_, _, ids) => ids
    case _ => []
  }

  /** The kind of node a call lowers to. */
  predicate CallKind(e: Expr, kind: NodeKind)
    requires e.CallExpr? && Shaped(e)
  {
    && |Operands(kind)| == |e.args|
    && match e.callee
       case LogicalAndName => kind.LogicalAnd?
       case LogicalOrName => kind.LogicalOr?
       case ConditionalName => kind.Conditional?
       case UnaryName(op) => kind.Unary? && kind.unary == op
       case BinaryName(op) => kind.Binary? && kind.binary == op
       case OtherName(name) =>
         kind.Call? && kind.function_ == FunctionNamed(name, e.target.Some?).value && kind.target.Some? == e.target.Some?
  }

  /** Later pushes change no earlier lowering. */
  lemma {:induction false} RepresentsGrows(
    ps: Scope, scopes: seq<Scope>, e: Expr, nodes: seq<Node>, more: seq<Node>, id: NodeId)
    requires nodes <= more && Represents(ps, scopes, e, nodes, id)
    ensures Represents(ps, scopes, e, more, id)
    decreases e
  {
    var kind := nodes[id].kind;
    assert more[id] == nodes[id];
    match e {
      case ListExpr(es) =>
        forall i | 0 <= i < |es| ensures Represents(ps, scopes, es[i], more, kind.elements[i]) {
          RepresentsGrows(ps, scopes, es[i], nodes, more, kind.elements[i]);
        }
      case MapExpr(entries) =>
        forall i | 0 <= i < |entries| ensures RepresentsEntry(ps, scopes, entries[i], more, kind.entries[i]) {
          EntryGrows(ps, scopes, entries[i], nodes, more, kind.entries[i]);
        }
      case SelectExpr(operand, _, _) => RepresentsGrows(ps, scopes, operand, nodes, more, kind.operand);
      case CallExpr(callee, target, args) =>
        forall i | 0 <= i < |args| ensures Represents(ps, scopes, args[i], more, Operands(kind)[i]) {
          RepresentsGrows(ps, scopes, args[i], nodes, more, Operands(kind)[i]);
        }
        if callee.OtherName? && target.Some? {
          RepresentsGrows(ps, scopes, target.value, nodes, more, kind.target.value);
        }
      case ComprehensionExpr(range, _, _, _, init, cond, step, result) =>
        var inner := InnerScopes(ps, scopes, e);
        RepresentsGrows(ps, scopes, range, nodes, more, kind.range);
        RepresentsGrows(ps, scopes, init, nodes, more, kind.init);
        RepresentsGrows(ps, inner, cond, nodes, more, kind.cond);
        RepresentsGrows(ps, inner, step, nodes, more, kind.step);
        RepresentsGrows(ps, inner, result, nodes, more, kind.result);
      case _ =>
    }
  }

  lemma {:induction false} EntryGrows(
    ps: Scope, scopes: seq<Scope>, entry: Entry, nodes: seq<Node>, more: seq<Node>, pair: (NodeId, NodeId))
    requires nodes <= more && RepresentsEntry(ps, scopes, entry, nodes, pair)
    ensures RepresentsEntry(ps, scopes, entry, more, pair)
    decreases entry
  {
    RepresentsGrows(ps, scopes, entry.key, nodes, more, pair.0);
    RepresentsGrows(ps, scopes, entry.value, nodes, more, pair.1);
  }
}
