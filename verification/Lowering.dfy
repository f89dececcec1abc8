/** The lowering pass: one push per expression, scopes pushed and popped around comprehensions. */
module Lowering {

  import opened Outcomes
  import opened ConditionTypes
  import opened ConditionCompiler

  /** Lowering `e` extended the arena and either produced a node that stands for `e` with its type,
      or failed with the error its typing gives. */
  ghost predicate Lowered(
    ps: Scope, scopes: seq<Scope>, e: Expr, before: seq<Node>, after: seq<Node>, r: Compiled<NodeId>)
  {
    && before <= after
    && Arena(after)
    && match TypeOf(ps, scopes, e) {
         case Rejected(x) => r == Rejected(x)
         case Ready(_) => r.Ready? && Represents(ps, scopes, e, after, r.value)
       }
  }

  /** The same for several expressions, left to right. */
  ghost predicate LoweredAll(
    ps: Scope, scopes: seq<Scope>, es: seq<Expr>, before: seq<Node>, after: seq<Node>, r: Compiled<seq<NodeId>>)
  {
    && before <= after
    && Arena(after)
    && match TypesOf(ps, scopes, es) {
         case Rejected(x) => r == Rejected(x)
         case Ready(ts) => r.Ready? && RepresentsAll(ps, scopes, es, after, r.value) && ts == Types(after, r.value)
       }
  }

  ghost predicate RepresentsAll(ps: Scope, scopes: seq<Scope>, es: seq<Expr>, nodes: seq<Node>, ids: seq<NodeId>) {
    && |ids| == |es|
    && Earlier(ids, |nodes|)
    && forall i :: 0 <= i < |es| ==> Represents(ps, scopes, es[i], nodes, ids[i])
  }

  function Types(nodes: seq<Node>, ids: seq<NodeId>): seq<StaticType>
    requires Earlier(ids, |nodes|)
  {
    seq(|ids|, i requires 0 <= i < |ids| => nodes[ids[i]].type_)
  }

  lemma {:induction false} RepresentedHasType(ps: Scope, scopes: seq<Scope>, e: Expr, nodes: seq<Node>, id: NodeId)
    requires Represents(ps, scopes, e, nodes, id)
    ensures id < |nodes| && TypeOf(ps, scopes, e) == Ready(nodes[id].type_)
  {
  }

  lemma {:induction false} RepresentsAllGrows(
    ps: Scope, scopes: seq<Scope>, es: seq<Expr>, nodes: seq<Node>, more: seq<Node>, ids: seq<NodeId>)
    requires nodes <= more && RepresentsAll(ps, scopes, es, nodes, ids)
    ensures RepresentsAll(ps, scopes, es, more, ids) && Types(more, ids) == Types(nodes, ids)
  {
    forall i | 0 <= i < |es| ensures Represents(ps, scopes, es[i], more, ids[i]) {
      RepresentsGrows(ps, scopes, es[i], nodes, more, ids[i]);
    }
    assert forall i :: 0 <= i < |ids| ==> more[ids[i]] == nodes[ids[i]];
  }

  lemma {:induction false} TypesOfSnoc(ps: Scope, scopes: seq<Scope>, es: seq<Expr>, i: nat)
    requires i < |es|
    ensures TypesOf(ps, scopes, es[..i + 1]) ==
            match TypesOf(ps, scopes, es[..i])
            case Rejected(x) => Rejected(x)
            case Ready(ts) =>
              match TypeOf(ps, scopes, es[i])
              case Rejected(x) => Rejected(x)
              case Ready(t) => Ready(ts + [t])
  {
    assert es[..i + 1][..i] == es[..i];
  }

  lemma {:induction false} TypesSnoc(nodes: seq<Node>, ids: seq<NodeId>, id: NodeId)
    requires Earlier(ids, |nodes|) && id < |nodes|
    ensures Earlier(ids + [id], |nodes|) && Types(nodes, ids + [id]) == Types(nodes, ids) + [nodes[id].type_]
  {
  }

  lemma {:induction false} NothingYet(ps: Scope, scopes: seq<Scope>, nodes: seq<Node>)
    ensures TypesOf(ps, scopes, []) == Ready(Types(nodes, [])) && EntryTypes(ps, scopes, []) == Ready(Types(nodes, []))
  {
    assert Types(nodes, []) == [];
  }

  lemma {:induction false} TypesOfRejects(ps: Scope, scopes: seq<Scope>, es: seq<Expr>, i: nat)
    requires i <= |es| && TypesOf(ps, scopes, es[..i]).Rejected?
    ensures TypesOf(ps, scopes, es) == TypesOf(ps, scopes, es[..i])
    decreases |es| - i
  {
    if i < |es| {
      TypesOfSnoc(ps, scopes, es, i);
      TypesOfRejects(ps, scopes, es, i + 1);
    } else {
      assert es[..i] == es;
    }
  }

  class Lowerer {
    const parameters: Scope
    var nodes: seq<Node>
    var scopes: seq<Scope>

    constructor (parameters: Scope)
      ensures this.parameters == parameters && nodes == [] && scopes == []
    {
      this.parameters := parameters;
      nodes, scopes := [], [];
    }

    method Push(kind: NodeKind, type_: StaticType) returns (id: NodeId)
      requires Arena(nodes) && RefersBack(kind, |nodes|)
      modifies this`nodes
      ensures nodes == old(nodes) + [Node(kind, type_)] && id == |old(nodes)| && Arena(nodes)
    {
      id := |nodes|;
      nodes := nodes + [Node(kind, type_)];
    }

    method Lower(e: Expr) returns (r: Compiled<NodeId>)
      requires Arena(nodes)
      modifies this
      ensures scopes == old(scopes) && Lowered(parameters, scopes, e, old(nodes), nodes, r)
      decreases e, 2
    {
      match e {
        case LiteralExpr(_) => r := LowerLiteral(e);
        case Ident(_) => r := LowerIdentifier(e);
        case ListExpr(_) => r := LowerList(e);
        case MapExpr(_) => r := LowerMap(e);
        case SelectExpr(_, _, _) => r := LowerSelect(e);
        case CallExpr(_, _, _) => r := LowerCall(e);
        case ComprehensionExpr(_, _, _, _, _, _, _, _) => r := LowerComprehension(e);
        case _ => r := Rejected(Unsupported);
      }
    }

    method LowerLiteral(e: Expr) returns (r: Compiled<NodeId>)
      requires Arena(nodes) && e.LiteralExpr?
      modifies this
      ensures scopes == old(scopes) && Lowered(parameters, scopes, e, old(nodes), nodes, r)
    {
      match LiteralType(e.literal) {
        case Ready(t) =>
          var id := Push(LiteralNode(e.literal), t);
          r := Ready(id);
        case Rejected(x) => r := Rejected(x);
      }
    }

    method LowerIdentifier(e: Expr) returns (r: Compiled<NodeId>)
      requires Arena(nodes) && e.Ident?
      modifies this
      ensures scopes == old(scopes) && Lowered(parameters, scopes, e, old(nodes), nodes, r)
    {
      var i := |scopes|;
      assert scopes[..i] == scopes;
      while i > 0
        invariant 0 <= i <= |scopes| && nodes == old(nodes) && scopes == old(scopes)
        invariant Bound(scopes, e.name) <==> Bound(scopes[..i], e.name)
        invariant Bound(scopes, e.name) ==> BoundType(scopes, e.name) == BoundType(scopes[..i], e.name)
      {
        i := i - 1;
        assert scopes[..i + 1][..i] == scopes[..i];
        if e.name in scopes[i] {
          assert scopes[..i + 1][i] == scopes[i];
          var id := Push(Local(e.name), scopes[i][e.name]);
          return Ready(id);
        }
        Inward(scopes[..i + 1], e.name);
      }
      if e.name in parameters {
        var id := Push(Parameter(e.name), parameters[e.name]);
        r := Ready(id);
      } else {
        r := Rejected(UnknownIdentifier(e.name));
      }
    }

    /** Lowers expressions in order and stops at the first error. */
    method LowerAll(es: seq<Expr>) returns (r: Compiled<seq<NodeId>>)
      requires Arena(nodes)
      modifies this
      ensures scopes == old(scopes) && LoweredAll(parameters, scopes, es, old(nodes), nodes, r)
      decreases es, 0
    {
      var ids: seq<NodeId> := [];
      NothingYet(parameters, scopes, nodes);
      assert es[..0] == [];
      for i := 0 to |es|
        invariant scopes == old(scopes) && old(nodes) <= nodes && Arena(nodes)
        invariant RepresentsAll(parameters, scopes, es[..i], nodes, ids)
        invariant TypesOf(parameters, scopes, es[..i]) == Ready(Types(nodes, ids))
      {
        hide Represents; hide Arena; hide Types; hide TypesOf; hide TypeOf;
        ghost var before := nodes;
        var one := Lower(es[i]);
        TypesOfSnoc(parameters, scopes, es, i);
        if one.Rejected? {
          TypesOfRejects(parameters, scopes, es, i + 1);
          return Rejected(one.error);
        }
        RepresentsAllGrows(parameters, scopes, es[..i], before, nodes, ids);
        RepresentedHasType(parameters, scopes, es[i], nodes, one.value);
        TypesSnoc(nodes, ids, one.value);
        ids := ids + [one.value];
        assert es[..i + 1] == es[..i] + [es[i]];
      }
      assert es[..|es|] == es;
      return Ready(ids);
    }

    method LowerList(e: Expr) returns (r: Compiled<NodeId>)
      requires Arena(nodes) && e.ListExpr?
      modifies this
      ensures scopes == old(scopes) && Lowered(parameters, scopes, e, old(nodes), nodes, r)
      decreases e, 1
    {
      var ids := LowerAll(e.elements);
      if ids.Rejected? {
        return Rejected(ids.error);
      }
      ghost var before := nodes;
      var t := UnifyNodes(Types(nodes, ids.value));
      if t.Rejected? {
        return Rejected(t.error);
      }
      var id := Push(ListNode(ids.value), ListType(t.value));
      RepresentsAllGrows(parameters, scopes, e.elements, before, nodes, ids.value);
      return Ready(id);
    }

    method LowerEntry(entry: Entry) returns (r: Compiled<(NodeId, NodeId)>)
      requires Arena(nodes)
      modifies this
      ensures scopes == old(scopes) && LoweredEntry(parameters, scopes, entry, old(nodes), nodes, r)
      decreases entry
    {
      if entry.OtherEntry? || entry.optional {
        return Rejected(Unsupported);
      }
      var key := Lower(entry.key);
      if key.Rejected? {
        return Rejected(key.error);
      }
      if nodes[key.value].type_ != StringType {
        return Rejected(TypeMismatch);
      }
      ghost var before := nodes;
      var value := Lower(entry.value);
      if value.Rejected? {
        return Rejected(value.error);
      }
      RepresentsGrows(parameters, scopes, entry.key, before, nodes, key.value);
      return Ready((key.value, value.value));
    }

    /** Lowers map entries in order and stops at the first error. */
    method LowerEntries(entries: seq<Entry>) returns (r: Compiled<(seq<(NodeId, NodeId)>, seq<NodeId>)>)
      requires Arena(nodes)
      modifies this
      ensures scopes == old(scopes) && old(nodes) <= nodes && Arena(nodes)
      ensures r.Rejected? ==> EntryTypes(parameters, scopes, entries) == Rejected(r.error)
      ensures r.Ready? ==>
                && RepresentsEntries(parameters, scopes, entries, nodes, r.value.0, r.value.1)
                && EntryTypes(parameters, scopes, entries) == Ready(Types(nodes, r.value.1))
      decreases entries, 0
    {
      var pairs: seq<(NodeId, NodeId)> := [];
      var values: seq<NodeId> := [];
      NothingYet(parameters, scopes, nodes);
      assert entries[..0] == [];
      for i := 0 to |entries|
        invariant scopes == old(scopes) && old(nodes) <= nodes && Arena(nodes)
        invariant RepresentsEntries(parameters, scopes, entries[..i], nodes, pairs, values)
        invariant EntryTypes(parameters, scopes, entries[..i]) == Ready(Types(nodes, values))
      {
        hide RepresentsEntry; hide Arena; hide Types; hide EntryTypes; hide EntryType;
        ghost var before := nodes;
        var pair := LowerEntry(entries[i]);
        EntryTypesSnoc(parameters, scopes, entries, i);
        if pair.Rejected? {
          EntryTypesReject(parameters, scopes, entries, i + 1);
          return Rejected(pair.error);
        }
        EntriesGrow(parameters, scopes, entries[..i], before, nodes, pairs, values);
        TypesSnoc(nodes, values, pair.value.1);
        pairs, values := pairs + [pair.value], values + [pair.value.1];
        assert entries[..i + 1] == entries[..i] + [entries[i]];
      }
      assert entries[..|entries|] == entries;
      return Ready((pairs, values));
    }

    method LowerMap(e: Expr) returns (r: Compiled<NodeId>)
      requires Arena(nodes) && e.MapExpr?
      modifies this
      ensures scopes == old(scopes) && Lowered(parameters, scopes, e, old(nodes), nodes, r)
      decreases e, 1
    {
      var lowered := LowerEntries(e.entries);
      if lowered.Rejected? {
        return Rejected(lowered.error);
      }
      var (pairs, values) := lowered.value;
      ghost var before := nodes;
      var t := UnifyNodes(Types(nodes, values));
      if t.Rejected? {
        return Rejected(t.error);
      }
      var id := Push(MapNode(pairs), MapType(t.value));
      EntriesGrow(parameters, scopes, e.entries, before, nodes, pairs, values);
      return Ready(id);
    }

    method LowerSelect(e: Expr) returns (r: Compiled<NodeId>)
      requires Arena(nodes) && e.SelectExpr?
      modifies this
      ensures scopes == old(scopes) && Lowered(parameters, scopes, e, old(nodes), nodes, r)
      decreases e, 1
    {
      var operand := Lower(e.operand);
      if operand.Rejected? {
        return operand;
      }
      ghost var before := nodes;
      match SelectType(nodes[operand.value].type_, e.test) {
        case Rejected(x) => return Rejected(x);
        case Ready(t) =>
          var id := Push(Select(operand.value, e.field, e.test), t);
          RepresentsGrows(parameters, scopes, e.operand, before, nodes, operand.value);
          return Ready(id);
      }
    }

    method LowerCall(e: Expr) returns (r: Compiled<NodeId>)
      requires Arena(nodes) && e.CallExpr?
      modifies this
      ensures scopes == old(scopes) && Lowered(parameters, scopes, e, old(nodes), nodes, r)
      decreases e, 1
    {
      CallTypes(parameters, scopes, e);
      if !Shaped(e) {
        return Rejected(Unsupported);
      }
      if e.callee.OtherName? {
        r := LowerFunction(e);
      } else {
        r := LowerOperator(e);
      }
    }

    method LowerOperator(e: Expr) returns (r: Compiled<NodeId>)
      requires Arena(nodes) && e.CallExpr? && Shaped(e) && !e.callee.OtherName?
      modifies this
      ensures scopes == old(scopes) && Lowered(parameters, scopes, e, old(nodes), nodes, r)
      decreases e, 0
    {
      hide TypeOf; hide TypesOf; hide Represents; hide ResultType;
      var ids := LowerAll(e.args);
      CallTypes(parameters, scopes, e);
      if ids.Rejected? {
        return Rejected(ids.error);
      }
      match ResultType(e, None, Types(nodes, ids.value)) {
        case Rejected(x) => return Rejected(x);
        case Ready(t) =>
          CallRepresents(parameters, scopes, e, nodes, OperatorKind(e, ids.value), t);
          var id := Push(OperatorKind(e, ids.value), t);
          return Ready(id);
      }
    }

    method LowerFunction(e: Expr) returns (r: Compiled<NodeId>)
      requires Arena(nodes) && e.CallExpr? && Shaped(e) && e.callee.OtherName?
      modifies this
      ensures scopes == old(scopes) && Lowered(parameters, scopes, e, old(nodes), nodes, r)
      decreases e, 0
    {
      hide TypeOf; hide TypesOf; hide Represents; hide FunctionType;
      CallTypes(parameters, scopes, e);
      var target := LowerTarget(e.target);
      if target.Rejected? {
        return Rejected(target.error);
      }
      ghost var before := nodes;
      var ids := LowerAll(e.args);
      if ids.Rejected? {
        return Rejected(ids.error);
      }
      if target.value.Some? {
        RepresentsGrows(parameters, scopes, e.target.value, before, nodes, target.value.value);
        assert nodes[target.value.value] == before[target.value.value];
      }
      var function_ := FunctionNamed(e.callee.name, e.target.Some?).value;
      var tt := if target.value.Some? then Some(nodes[target.value.value].type_) else None;
      match Overloaded(FunctionType(function_, tt, Types(nodes, ids.value)), e.callee.name) {
        case Rejected(x) => return Rejected(x);
        case Ready(t) =>
          var kind := Call(function_, target.value, ids.value);
          CallRepresents(parameters, scopes, e, nodes, kind, t);
          var id := Push(kind, t);
          return Ready(id);
      }
    }

    method LowerTarget(target: Option<Expr>) returns (r: Compiled<Option<NodeId>>)
      requires Arena(nodes)
      modifies this
      ensures scopes == old(scopes) && old(nodes) <= nodes && Arena(nodes)
      ensures r.Rejected? ==> TargetType(parameters, scopes, target) == Rejected(r.error)
      ensures r.Ready? ==> r.value.Some? == target.Some?
      ensures r.Ready? && target.None? ==> TargetType(parameters, scopes, target) == Ready(None)
      ensures r.Ready? && target.Some? ==>
                && Represents(parameters, scopes, target.value, nodes, r.value.value)
                && r.value.value < |nodes|
                && TargetType(parameters, scopes, target) == Ready(Some(nodes[r.value.value].type_))
      decreases target
    {
      if target.None? {
        return Ready(None);
      }
      var one := Lower(target.value);
      if one.Rejected? {
        return Rejected(one.error);
      }
      return Ready(Some(one.value));
    }

    method LowerComprehension(e: Expr) returns (r: Compiled<NodeId>)
      requires Arena(nodes) && e.ComprehensionExpr?
      modifies this
      ensures scopes == old(scopes) && Lowered(parameters, scopes, e, old(nodes), nodes, r)
      decreases e, 1
    {
      var range := Lower(e.range);
      if range.Rejected? {
        return range;
      }
      var types := IterableTypes(nodes[range.value].type_);
      if types.Rejected? {
        return Rejected(types.error);
      }
      ghost var before := nodes;
      var init := Lower(e.init);
      if init.Rejected? {
        return init;
      }
      RepresentsGrows(parameters, scopes, e.range, before, nodes, range.value);
      var accuType := nodes[init.value].type_;
      scopes := scopes + [ComprehensionScope(e, types.value, accuType)];
      r := LowerComprehensionScope(e, range.value, init.value, accuType, old(scopes));
      scopes := scopes[..|scopes| - 1];
    }

    /** Lowers the parts that see the comprehension's names. */
    method LowerComprehensionScope(e: Expr, range: NodeId, init: NodeId, accuType: StaticType, ghost outer: seq<Scope>)
      returns (r: Compiled<NodeId>)
      requires Arena(nodes) && e.ComprehensionExpr?
      requires Represents(parameters, outer, e.range, nodes, range) && IterableTypes(nodes[range].type_).Ready?
      requires Represents(parameters, outer, e.init, nodes, init) && accuType == nodes[init].type_
      requires scopes == InnerScopes(parameters, outer, e)
      modifies this
      ensures scopes == old(scopes) && Lowered(parameters, outer, e, old(nodes), nodes, r)
      decreases e, 0
    {
      hide TypeOf; hide Represents; hide InnerScopes;
      RepresentedHasType(parameters, outer, e.range, nodes, range);
      RepresentedHasType(parameters, outer, e.init, nodes, init);
      ComprehensionTypes(parameters, outer, e);
      ghost var n0 := nodes;
      var cond := Lower(e.cond);
      if cond.Rejected? {
        return cond;
      }
      ghost var n1 := nodes;
      var step := Lower(e.step);
      if step.Rejected? {
        return step;
      }
      ghost var n2 := nodes;
      var result := Lower(e.result);
      if result.Rejected? {
        return result;
      }
      RepresentsGrows(parameters, scopes, e.step, n2, nodes, step.value);
      RepresentsGrows(parameters, scopes, e.cond, n1, nodes, cond.value);
      RepresentsGrows(parameters, outer, e.range, n0, nodes, range);
      RepresentsGrows(parameters, outer, e.init, n0, nodes, init);
      RepresentedHasType(parameters, scopes, e.cond, nodes, cond.value);
      RepresentedHasType(parameters, scopes, e.step, nodes, step.value);
      RepresentedHasType(parameters, scopes, e.result, nodes, result.value);
      if !Accepts(BoolType, nodes[cond.value].type_) || !Accepts(accuType, nodes[step.value].type_) {
        return Rejected(TypeMismatch);
      }
      var kind := Comprehension(range, e.iterVar, e.iterVar2, e.accuVar, init, cond.value, step.value, result.value);
      ComprehensionRepresents(parameters, outer, e, nodes, kind, nodes[result.value].type_);
      var id := Push(kind, nodes[result.value].type_);
      return Ready(id);
    }
  }

  /** A call's type from the types of its operands. */
  lemma {:induction false} CallTypes(ps: Scope, scopes: seq<Scope>, e: Expr)
    requires e.CallExpr?
    ensures !Shaped(e) ==> TypeOf(ps, scopes, e) == Rejected(Unsupported)
    ensures Shaped(e) && e.callee.OtherName? && TargetType(ps, scopes, e.target).Rejected? ==>
              TypeOf(ps, scopes, e) == Rejected(TargetType(ps, scopes, e.target).error)
    ensures Shaped(e) && (e.callee.OtherName? ==> TargetType(ps, scopes, e.target).Ready?) ==>
              var tt := if e.callee.OtherName? then TargetType(ps, scopes, e.target).value else None;
              TypeOf(ps, scopes, e) == match TypesOf(ps, scopes, e.args)
              case Rejected(x) => Rejected(x)
              case Ready(ts) => ResultType(e, tt, ts)
  {
  }

  /** A comprehension's type from the types of its parts, once range and initial value are typed. */
  lemma {:induction false} ComprehensionTypes(ps: Scope, scopes: seq<Scope>, e: Expr)
    requires e.ComprehensionExpr? && TypeOf(ps, scopes, e.range).Ready? && TypeOf(ps, scopes, e.init).Ready?
    requires IterableTypes(TypeOf(ps, scopes, e.range).value).Ready?
    ensures
      var inner := InnerScopes(ps, scopes, e);
      var ct, st, ot := TypeOf(ps, inner, e.cond), TypeOf(ps, inner, e.step), TypeOf(ps, inner, e.result);
      TypeOf(ps, scopes, e) ==
      if ct.Rejected? then ct else if st.Rejected? then st else if ot.Rejected? then ot
      else if Accepts(BoolType, ct.value) && Accepts(TypeOf(ps, scopes, e.init).value, st.value) then ot
      else Rejected(TypeMismatch)
  {
  }

  lemma {:induction false} ComprehensionRepresents(ps: Scope, scopes: seq<Scope>, e: Expr, nodes: seq<Node>, kind: NodeKind, t: StaticType)
    requires e.ComprehensionExpr? && TypeOf(ps, scopes, e) == Ready(t)
    requires kind.Comprehension? && kind.iterVar == e.iterVar && kind.iterVar2 == e.iterVar2 && kind.accuVar == e.accuVar
    requires Represents(ps, scopes, e.range, nodes, kind.range) && Represents(ps, scopes, e.init, nodes, kind.init)
    requires Represents(ps, InnerScopes(ps, scopes, e), e.cond, nodes, kind.cond)
    requires Represents(ps, InnerScopes(ps, scopes, e), e.step, nodes, kind.step)
    requires Represents(ps, InnerScopes(ps, scopes, e), e.result, nodes, kind.result)
    ensures Represents(ps, scopes, e, nodes + [Node(kind, t)], |nodes|)
  {
    var more, inner := nodes + [Node(kind, t)], InnerScopes(ps, scopes, e);
    RepresentsGrows(ps, scopes, e.range, nodes, more, kind.range);
    RepresentsGrows(ps, scopes, e.init, nodes, more, kind.init);
    RepresentsGrows(ps, inner, e.cond, nodes, more, kind.cond);
    RepresentsGrows(ps, inner, e.step, nodes, more, kind.step);
    RepresentsGrows(ps, inner, e.result, nodes, more, kind.result);
    hide InnerScopes; hide TypeOf;
    assert more[|nodes|] == Node(kind, t);
  }

  lemma {:induction false} CallRepresents(
    ps: Scope, scopes: seq<Scope>, e: Expr, nodes: seq<Node>, kind: NodeKind, t: StaticType)
    requires e.CallExpr? && Shaped(e) && CallKind(e, kind) && TypeOf(ps, scopes, e) == Ready(t)
    requires RepresentsAll(ps, scopes, e.args, nodes, Operands(kind))
    requires e.callee.OtherName? && e.target.Some? ==> Represents(ps, scopes, e.target.value, nodes, kind.target.value)
    ensures Represents(ps, scopes, e, nodes + [Node(kind, t)], |nodes|)
  {
    var more := nodes + [Node(kind, t)];
    RepresentsAllGrows(ps, scopes, e.args, nodes, more, Operands(kind));
    if e.callee.OtherName? && e.target.Some? {
      RepresentsGrows(ps, scopes, e.target.value, nodes, more, kind.target.value);
    }
  }

  /** The node an operator call lowers to. */
  function OperatorKind(e: Expr, ids: seq<NodeId>): (kind: NodeKind)
    requires e.CallExpr? && Shaped(e) && !e.callee.OtherName? && |ids| == |e.args|
    ensures CallKind(e, kind) && Operands(kind) == ids
  {
    match e.callee
    case LogicalAndName => LogicalAnd(ids[0], ids[1])
    case LogicalOrName => LogicalOr(ids[0], ids[1])
    case ConditionalName => Conditional(ids[0], ids[1], ids[2])
    case UnaryName(op) => Unary(op, ids[0])
    case BinaryName(op) => Binary(op, ids[0], ids[1])
  }

  ghost predicate LoweredEntry(
    ps: Scope, scopes: seq<Scope>, entry: Entry, before: seq<Node>, after: seq<Node>, r: Compiled<(NodeId, NodeId)>)
  {
    && before <= after
    && Arena(after)
    && match EntryType(ps, scopes, entry) {
         case Rejected(x) => r == Rejected(x)
         case Ready(t) =>
           && r.Ready? && RepresentsEntry(ps, scopes, entry, after, r.value)
           && r.value.0 < |after| && r.value.1 < |after| && after[r.value.1].type_ == t
       }
  }

  ghost predicate RepresentsEntries(
    ps: Scope, scopes: seq<Scope>, entries: seq<Entry>, nodes: seq<Node>, pairs: seq<(NodeId, NodeId)>, values: seq<NodeId>)
  {
    && |pairs| == |entries| == |values|
    && Earlier(values, |nodes|)
    && forall i :: 0 <= i < |entries| ==>
         RepresentsEntry(ps, scopes, entries[i], nodes, pairs[i]) && pairs[i].0 < |nodes| && pairs[i].1 == values[i]
  }

  lemma {:induction false} EntriesGrow(
    ps: Scope, scopes: seq<Scope>, entries: seq<Entry>, nodes: seq<Node>, more: seq<Node>,
    pairs: seq<(NodeId, NodeId)>, values: seq<NodeId>)
    requires nodes <= more && RepresentsEntries(ps, scopes, entries, nodes, pairs, values)
    ensures RepresentsEntries(ps, scopes, entries, more, pairs, values) && Types(more, values) == Types(nodes, values)
  {
    forall i | 0 <= i < |entries| ensures RepresentsEntry(ps, scopes, entries[i], more, pairs[i]) {
      EntryGrows(ps, scopes, entries[i], nodes, more, pairs[i]);
    }
    assert forall i :: 0 <= i < |values| ==> more[values[i]] == nodes[values[i]];
  }

  lemma {:induction false} EntryTypesSnoc(ps: Scope, scopes: seq<Scope>, entries: seq<Entry>, i: nat)
    requires i < |entries|
    ensures EntryTypes(ps, scopes, entries[..i + 1]) ==
            match EntryTypes(ps, scopes, entries[..i])
            case Rejected(x) => Rejected(x)
            case Ready(ts) =>
              match EntryType(ps, scopes, entries[i])
              case Rejected(x) => Rejected(x)
              case Ready(t) => Ready(ts + [t])
  {
    assert entries[..i + 1][..i] == entries[..i];
  }

  lemma {:induction false} EntryTypesReject(ps: Scope, scopes: seq<Scope>, entries: seq<Entry>, i: nat)
    requires i <= |entries| && EntryTypes(ps, scopes, entries[..i]).Rejected?
    ensures EntryTypes(ps, scopes, entries) == EntryTypes(ps, scopes, entries[..i])
    decreases |entries| - i
  {
    if i < |entries| {
      EntryTypesSnoc(ps, scopes, entries, i);
      EntryTypesReject(ps, scopes, entries, i + 1);
    } else {
      assert entries[..i] == entries;
    }
  }

  lemma {:induction false} Inward(scopes: seq<Scope>, name: string)
    requires scopes != [] && name !in scopes[|scopes| - 1]
    ensures Bound(scopes, name) <==> Bound(scopes[..|scopes| - 1], name)
    ensures Bound(scopes, name) ==> BoundType(scopes, name) == BoundType(scopes[..|scopes| - 1], name)
  {
    if Bound(scopes, name) {
      var i :| 0 <= i < |scopes| && name in scopes[i];
      assert scopes[..|scopes| - 1][i] == scopes[i];
    }
  }
}
