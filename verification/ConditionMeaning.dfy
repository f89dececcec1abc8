/** What expressions and arenas evaluate to, for every interpretation of the operators. */
module ConditionMeaning {

  import opened Outcomes
  import opened ConditionTypes
  import opened ConditionCompiler
  import opened Lowering
  import ShapeCheck

  /** What a comprehension finds in its range: items with an optional second value, or a final value. */
  datatype Range<V> = Items(items: seq<(V, Option<V>)>) | NoRange(value: V)

  /** What a comprehension makes of its condition. */
  datatype Guard<V> = Holds | Fails | NoGuard(value: V)

  /** An interpretation of literals, parameters, operators and function names. Values include errors and
      unknowns: operators see them and decide, a comprehension stops on a value that has `failed`. */
  datatype Interpretation<!V> = Interpretation(
    literal: Literal -> V,
    parameter: string -> V,
    unbound: string -> V,
    unsupported: V,
    list: seq<V> -> V,
    dictionary: seq<(V, V)> -> V,
    select: (V, string, bool) -> V,
    unary: (UnaryOperator, V) -> V,
    binary: (BinaryOperator, V, V) -> V,
    both: (V, V) -> V,
    either: (V, V) -> V,
    choose: (V, V, V) -> V,
    call: (string, Option<V>, seq<V>) -> V,
    items: V -> Range<V>,
    guard: V -> Guard<V>,
    failed: V -> bool)

  /** Local values, innermost scope last. */
  type Env<V> = seq<map<string, V>>

  function LocalValue<V>(I: Interpretation<V>, env: Env<V>, name: string): V {
    if env == [] then I.unbound(name)
    else if name in env[|env| - 1] then env[|env| - 1][name]
    else LocalValue(I, env[..|env| - 1], name)
  }

  datatype Names = Names(iterVar: string, iterVar2: Option<string>, accuVar: string)

  /** The comprehension loop: names live in one scope that keeps its last values; the loop ends when
      the items run out or the condition fails, and then the result sees that scope. */
  function Iterate<V>(
    I: Interpretation<V>, names: Names, items: seq<(V, Option<V>)>, accumulator: V, env: Env<V>, scope: map<string, V>,
    cond: Env<V> -> V, step: Env<V> -> V, result: Env<V> -> V): V
    decreases |items|
  {
    if items == [] then
      result(env + [scope[names.accuVar := accumulator]])
    else
      var first := scope[names.iterVar := items[0].0];
      var second :=
        if names.iterVar2.Some? && items[0].1.Some? then first[names.iterVar2.value := items[0].1.value] else first;
      var inner := second[names.accuVar := accumulator];
      match I.guard(cond(env + [inner]))
      case NoGuard(v) => v
      case Fails => result(env + [inner])
      case Holds =>
        var next := step(env + [inner]);
        if I.failed(next) then next else Iterate(I, names, items[1..], next, env, inner, cond, step, result)
  }

  function Comprehend<V>(
    I: Interpretation<V>, names: Names, range: V, init: V, env: Env<V>,
    cond: Env<V> -> V, step: Env<V> -> V, result: Env<V> -> V): V
  {
    match I.items(range)
    case NoRange(v) => v
    case Items(items) => if I.failed(init) then init else Iterate(I, names, items, init, env, map[], cond, step, result)
  }

  // ---------------------------------------------------------------------------
  // Evaluating the arena
  // ---------------------------------------------------------------------------

  function EvalAt<V>(I: Interpretation<V>, nodes: seq<Node>, id: NodeId, env: Env<V>): V
    requires Arena(nodes) && id < |nodes|
    decreases id, 0
  {
    assert RefersBack(nodes[id].kind, id);
    match nodes[id].kind
    case LiteralNode(l) => I.literal(l)
    case Parameter(name) => I.parameter(name)
    case Local(name) => LocalValue(I, env, name)
    case ListNode(ids) => I.list(seq(|ids|, i requires 0 <= i < |ids| => EvalAt(I, nodes, ids[i], env)))
    case MapNode(pairs) =>
      I.dictionary(seq(|pairs|, i requires 0 <= i < |pairs| =>
        (EvalAt(I, nodes, pairs[i].0, env), EvalAt(I, nodes, pairs[i].1, env))))
    case Select(operand, field, test) => I.select(EvalAt(I, nodes, operand, env), field, test)
    case Unary(op, operand) => I.unary(op, EvalAt(I, nodes, operand, env))
    case Binary(op, left, right) => I.binary(op, EvalAt(I, nodes, left, env), EvalAt(I, nodes, right, env))
    case LogicalAnd(left, right) => I.both(EvalAt(I, nodes, left, env), EvalAt(I, nodes, right, env))
    case LogicalOr(left, right) => I.either(EvalAt(I, nodes, left, env), EvalAt(I, nodes, right, env))
    case Conditional(c, t, f) =>
      I.choose(EvalAt(I, nodes, c, env), EvalAt(I, nodes, t, env), EvalAt(I, nodes, f, env))
    case Call(f, target, ids) =>
      I.call(NameOf(f), if target.Some? then Some(EvalAt(I, nodes, target.value, env)) else None,
             seq(|ids|, i requires 0 <= i < |ids| => EvalAt(I, nodes, ids[i], env)))
    case Comprehension(range, iterVar, iterVar2, accuVar, init, cond, step, result) =>
      Comprehend(I, Names(iterVar, iterVar2, accuVar), EvalAt(I, nodes, range, env), EvalAt(I, nodes, init, env), env,
                 At(I, nodes, cond), At(I, nodes, step), At(I, nodes, result))
  }

  function At<V>(I: Interpretation<V>, nodes: seq<Node>, id: NodeId): Env<V> -> V
    requires Arena(nodes) && id < |nodes|
    decreases id, 1
  {
    env => EvalAt(I, nodes, id, env)
  }

  // ---------------------------------------------------------------------------
  // Evaluating the tree
  // ---------------------------------------------------------------------------

  /** A name means the innermost comprehension variable in scope, and otherwise a parameter. */
  function Denote<V>(I: Interpretation<V>, ps: Scope, scopes: seq<Scope>, e: Expr, env: Env<V>): V
    decreases e, 0
  {
    match e
    case Unspecified => I.unsupported
    case Struct => I.unsupported
    case LiteralExpr(l) => I.literal(l)
    case Ident(name) => if Bound(scopes, name) then LocalValue(I, env, name) else I.parameter(name)
    case ListExpr(es) => I.list(seq(|es|, i requires 0 <= i < |es| => Denote(I, ps, scopes, es[i], env)))
    case MapExpr(entries) =>
      I.dictionary(seq(|entries|, i requires 0 <= i < |entries| => DenoteEntry(I, ps, scopes, entries[i], env)))
    case SelectExpr(operand, field, test) => I.select(Denote(I, ps, scopes, operand, env), field, test)
    case CallExpr(callee, target, args) =>
      if !Shaped(e) then I.unsupported else
      var vs := seq(|args|, i requires 0 <= i < |args| => Denote(I, ps, scopes, args[i], env));
      (match callee
       case LogicalAndName => I.both(vs[0], vs[1])
       case LogicalOrName => I.either(vs[0], vs[1])
       case ConditionalName => I.choose(vs[0], vs[1], vs[2])
       case UnaryName(op) => I.unary(op, vs[0])
       case BinaryName(op) => I.binary(op, vs[0], vs[1])
       case OtherName(name) =>
         I.call(name, if target.Some? then Some(Denote(I, ps, scopes, target.value, env)) else None, vs))
    case ComprehensionExpr(range, iterVar, iterVar2, accuVar, init, cond, step, result) =>
      var inner := InnerScopes(ps, scopes, e);
      Comprehend(I, Names(iterVar, iterVar2, accuVar), Denote(I, ps, scopes, range, env), Denote(I, ps, scopes, init, env),
                 env, Denotation(I, ps, inner, cond), Denotation(I, ps, inner, step), Denotation(I, ps, inner, result))
  }

  function DenoteEntry<V>(I: Interpretation<V>, ps: Scope, scopes: seq<Scope>, entry: Entry, env: Env<V>): (V, V)
    decreases entry, 0
  {
    if entry.OtherEntry? then (I.unsupported, I.unsupported)
    else (Denote(I, ps, scopes, entry.key, env), Denote(I, ps, scopes, entry.value, env))
  }

  function Denotation<V>(I: Interpretation<V>, ps: Scope, scopes: seq<Scope>, e: Expr): Env<V> -> V
    decreases e, 1
  {
    env => Denote(I, ps, scopes, e, env)
  }

  // ---------------------------------------------------------------------------
  // They agree
  // ---------------------------------------------------------------------------

  lemma {:induction false} IterateSame<V(!new)>(
    I: Interpretation<V>, names: Names, items: seq<(V, Option<V>)>, accumulator: V, env: Env<V>, scope: map<string, V>,
    cond: Env<V> -> V, step: Env<V> -> V, result: Env<V> -> V,
    cond2: Env<V> -> V, step2: Env<V> -> V, result2: Env<V> -> V)
    requires forall x :: cond(x) == cond2(x)
    requires forall x :: step(x) == step2(x)
    requires forall x :: result(x) == result2(x)
    ensures Iterate(I, names, items, accumulator, env, scope, cond, step, result) ==
            Iterate(I, names, items, accumulator, env, scope, cond2, step2, result2)
    decreases |items|
  {
    if items != [] {
      var first := scope[names.iterVar := items[0].0];
      var second :=
        if names.iterVar2.Some? && items[0].1.Some? then first[names.iterVar2.value := items[0].1.value] else first;
      var inner := second[names.accuVar := accumulator];
      IterateSame(I, names, items[1..], step(env + [inner]), env, inner, cond, step, result, cond2, step2, result2);
    }
  }

  /** Lowering preserves meaning: a node that stands for an expression evaluates, in every
      environment and under every interpretation, to what the expression does. */
  lemma {:induction false} MeaningIsPreserved<V(!new)>(
    I: Interpretation<V>, ps: Scope, scopes: seq<Scope>, e: Expr, nodes: seq<Node>, id: NodeId, env: Env<V>)
    requires Arena(nodes) && Represents(ps, scopes, e, nodes, id)
    ensures EvalAt(I, nodes, id, env) == Denote(I, ps, scopes, e, env)
    decreases e, 2
  {
    hide TypeOf;
    var kind := nodes[id].kind;
    match e {
      case ListExpr(es) =>
        var ids := kind.elements;
        assert RefersBack(kind, id);
        ElementsAgree(I, ps, scopes, e, es, nodes, ids, env);
        assert seq(|ids|, i requires 0 <= i < |ids| => EvalAt(I, nodes, ids[i], env)) ==
               seq(|es|, i requires 0 <= i < |es| => Denote(I, ps, scopes, es[i], env));
      case MapExpr(entries) => EntriesAgree(I, ps, scopes, e, nodes, id, env);
      case SelectExpr(operand, _, _) => MeaningIsPreserved(I, ps, scopes, operand, nodes, kind.operand, env);
      case CallExpr(_, _, _) => CallIsPreserved(I, ps, scopes, e, nodes, id, env);
      case ComprehensionExpr(_, _, _, _, _, _, _, _) => ComprehensionIsPreserved(I, ps, scopes, e, nodes, id, env);
      case _ =>
    }
  }

  lemma {:induction false} ElementsAgree<V(!new)>(
    I: Interpretation<V>, ps: Scope, scopes: seq<Scope>, e: Expr, es: seq<Expr>, nodes: seq<Node>, ids: seq<NodeId>,
    env: Env<V>)
    requires Arena(nodes) && |ids| == |es|
    requires (e.ListExpr? && e.elements == es) || (e.CallExpr? && e.args == es)
    requires forall i :: 0 <= i < |es| ==> Represents(ps, scopes, es[i], nodes, ids[i])
    ensures forall i :: 0 <= i < |es| ==>
              ids[i] < |nodes| && EvalAt(I, nodes, ids[i], env) == Denote(I, ps, scopes, es[i], env)
    decreases e, 0
  {
    forall i | 0 <= i < |es|
      ensures ids[i] < |nodes| && EvalAt(I, nodes, ids[i], env) == Denote(I, ps, scopes, es[i], env)
    {
      MeaningIsPreserved(I, ps, scopes, es[i], nodes, ids[i], env);
    }
  }

  lemma {:induction false} EntriesAgree<V(!new)>(
    I: Interpretation<V>, ps: Scope, scopes: seq<Scope>, e: Expr, nodes: seq<Node>, id: NodeId, env: Env<V>)
    requires Arena(nodes) && e.MapExpr? && Represents(ps, scopes, e, nodes, id)
    ensures EvalAt(I, nodes, id, env) == Denote(I, ps, scopes, e, env)
    decreases e, 0
  {
    var pairs := nodes[id].kind.entries;
    assert RefersBack(nodes[id].kind, id);
    forall i | 0 <= i < |pairs|
      ensures (EvalAt(I, nodes, pairs[i].0, env), EvalAt(I, nodes, pairs[i].1, env)) ==
              DenoteEntry(I, ps, scopes, e.entries[i], env)
    {
      EntryAgrees(I, ps, scopes, e.entries[i], nodes, pairs[i], env);
    }
    assert seq(|pairs|, i requires 0 <= i < |pairs| =>
             (EvalAt(I, nodes, pairs[i].0, env), EvalAt(I, nodes, pairs[i].1, env))) ==
           seq(|e.entries|, i requires 0 <= i < |e.entries| => DenoteEntry(I, ps, scopes, e.entries[i], env));
  }

  lemma {:induction false} EntryAgrees<V(!new)>(
    I: Interpretation<V>, ps: Scope, scopes: seq<Scope>, entry: Entry, nodes: seq<Node>, pair: (NodeId, NodeId), env: Env<V>)
    requires Arena(nodes) && RepresentsEntry(ps, scopes, entry, nodes, pair)
    ensures pair.0 < |nodes| && pair.1 < |nodes|
    ensures (EvalAt(I, nodes, pair.0, env), EvalAt(I, nodes, pair.1, env)) == DenoteEntry(I, ps, scopes, entry, env)
    decreases entry, 0
  {
    MeaningIsPreserved(I, ps, scopes, entry.key, nodes, pair.0, env);
    MeaningIsPreserved(I, ps, scopes, entry.value, nodes, pair.1, env);
  }

  lemma {:induction false} CallIsPreserved<V(!new)>(
    I: Interpretation<V>, ps: Scope, scopes: seq<Scope>, e: Expr, nodes: seq<Node>, id: NodeId, env: Env<V>)
    requires Arena(nodes) && e.CallExpr? && Represents(ps, scopes, e, nodes, id)
    ensures EvalAt(I, nodes, id, env) == Denote(I, ps, scopes, e, env)
    decreases e, 1
  {
    hide TypeOf;
    var kind := nodes[id].kind;
    var ids := Operands(kind);
    assert RefersBack(kind, id);
    ElementsAgree(I, ps, scopes, e, e.args, nodes, ids, env);
    if e.callee.OtherName? {
      if e.target.Some? {
        MeaningIsPreserved(I, ps, scopes, e.target.value, nodes, kind.target.value, env);
      }
      ResolvedHasName(e.callee.name, e.target.Some?);
      assert seq(|ids|, i requires 0 <= i < |ids| => EvalAt(I, nodes, ids[i], env)) ==
             seq(|e.args|, i requires 0 <= i < |e.args| => Denote(I, ps, scopes, e.args[i], env));
    }
  }

  lemma {:induction false} ComprehensionIsPreserved<V(!new)>(
    I: Interpretation<V>, ps: Scope, scopes: seq<Scope>, e: Expr, nodes: seq<Node>, id: NodeId, env: Env<V>)
    requires Arena(nodes) && e.ComprehensionExpr? && Represents(ps, scopes, e, nodes, id)
    ensures EvalAt(I, nodes, id, env) == Denote(I, ps, scopes, e, env)
    decreases e, 1
  {
    hide TypeOf;
    var kind, inner := nodes[id].kind, InnerScopes(ps, scopes, e);
    assert RefersBack(kind, id);
    MeaningIsPreserved(I, ps, scopes, e.range, nodes, kind.range, env);
    MeaningIsPreserved(I, ps, scopes, e.init, nodes, kind.init, env);
    PartAgrees(I, ps, inner, e.cond, nodes, kind.cond);
    PartAgrees(I, ps, inner, e.step, nodes, kind.step);
    PartAgrees(I, ps, inner, e.result, nodes, kind.result);
    var range, init := Denote(I, ps, scopes, e.range, env), Denote(I, ps, scopes, e.init, env);
    if I.items(range).Items? {
      IterateSame(I, Names(e.iterVar, e.iterVar2, e.accuVar), I.items(range).items, init, env, map[],
                  At(I, nodes, kind.cond), At(I, nodes, kind.step), At(I, nodes, kind.result),
                  Denotation(I, ps, inner, e.cond), Denotation(I, ps, inner, e.step), Denotation(I, ps, inner, e.result));
    }
  }

  lemma {:induction false} PartAgrees<V(!new)>(
    I: Interpretation<V>, ps: Scope, scopes: seq<Scope>, e: Expr, nodes: seq<Node>, id: NodeId)
    requires Arena(nodes) && Represents(ps, scopes, e, nodes, id)
    ensures id < |nodes| && forall x :: At(I, nodes, id)(x) == Denotation(I, ps, scopes, e)(x)
    decreases e, 3
  {
    forall x ensures At(I, nodes, id)(x) == Denotation(I, ps, scopes, e)(x) {
      MeaningIsPreserved(I, ps, scopes, e, nodes, id, x);
    }
  }

  /** Later pushes never change what an earlier node evaluates to. */
  lemma {:induction false} EarlierNodesAreStable<V(!new)>(
    I: Interpretation<V>, nodes: seq<Node>, more: seq<Node>, id: NodeId, env: Env<V>)
    requires nodes <= more && Arena(nodes) && Arena(more) && id < |nodes|
    ensures EvalAt(I, nodes, id, env) == EvalAt(I, more, id, env)
    decreases id, 0
  {
    assert more[id] == nodes[id] && RefersBack(nodes[id].kind, id);
    forall k: nat, x: Env<V> | k < id ensures EvalAt(I, nodes, k, x) == EvalAt(I, more, k, x) {
      EarlierNodesAreStable(I, nodes, more, k, x);
    }
    match nodes[id].kind {
      case ListNode(ids) =>
        assert seq(|ids|, i requires 0 <= i < |ids| => EvalAt(I, nodes, ids[i], env)) ==
               seq(|ids|, i requires 0 <= i < |ids| => EvalAt(I, more, ids[i], env));
      case MapNode(pairs) =>
        assert seq(|pairs|, i requires 0 <= i < |pairs| =>
                 (EvalAt(I, nodes, pairs[i].0, env), EvalAt(I, nodes, pairs[i].1, env))) ==
               seq(|pairs|, i requires 0 <= i < |pairs| =>
                 (EvalAt(I, more, pairs[i].0, env), EvalAt(I, more, pairs[i].1, env)));
      case Call(_, _, ids) =>
        assert seq(|ids|, i requires 0 <= i < |ids| => EvalAt(I, nodes, ids[i], env)) ==
               seq(|ids|, i requires 0 <= i < |ids| => EvalAt(I, more, ids[i], env));
      case Comprehension(range, iterVar, iterVar2, accuVar, init, cond, step, result) =>
        var r := EvalAt(I, nodes, range, env);
        PartIsStable(I, nodes, more, cond);
        PartIsStable(I, nodes, more, step);
        PartIsStable(I, nodes, more, result);
        if I.items(r).Items? {
          IterateSame(I, Names(iterVar, iterVar2, accuVar), I.items(r).items, EvalAt(I, nodes, init, env), env, map[],
                      At(I, nodes, cond), At(I, nodes, step), At(I, nodes, result),
                      At(I, more, cond), At(I, more, step), At(I, more, result));
        }
      case _ =>
    }
  }

  lemma {:induction false} PartIsStable<V(!new)>(I: Interpretation<V>, nodes: seq<Node>, more: seq<Node>, id: NodeId)
    requires nodes <= more && Arena(nodes) && Arena(more) && id < |nodes|
    ensures forall x :: At(I, nodes, id)(x) == At(I, more, id)(x)
    decreases id, 1
  {
    forall x ensures At(I, nodes, id)(x) == At(I, more, id)(x) {
      EarlierNodesAreStable(I, nodes, more, id, x);
    }
  }

  datatype Program = Program(nodes: seq<Node>, root: NodeId)

  ghost predicate Compiles(ps: Scope, e: Expr, program: Program) {
    Arena(program.nodes) && Represents(ps, [], e, program.nodes, program.root)
  }

  /** Compiling accepts exactly the supported expressions of type `bool` within the limits, and the
      program stands for the expression. */
  method Compile(parameters: Scope, e: Expr, limits: ShapeCheck.Limits) returns (r: Compiled<Program>)
    ensures r.Ready? <==>
              && ShapeCheck.Supported(e) && ShapeCheck.Within(e, limits) && TypeOf(parameters, [], e) == Ready(BoolType)
    ensures r.Ready? ==> Compiles(parameters, e, r.value)
    ensures r.Rejected? && ShapeCheck.Supported(e) && ShapeCheck.Within(e, limits) ==>
              r == Rejected(if TypeOf(parameters, [], e).Rejected? then TypeOf(parameters, [], e).error else NonBoolean)
    ensures !(ShapeCheck.Supported(e) && ShapeCheck.Within(e, limits)) ==>
              || (r == Rejected(Unsupported) && !ShapeCheck.Supported(e))
              || (r == Rejected(LimitExceeded) && !ShapeCheck.Within(e, limits))
  {
    hide TypeOf; hide Represents; hide ShapeCheck.Supported; hide ShapeCheck.Within;
    var shape := ShapeCheck.ValidateShape(e, limits);
    if shape.Rejected? {
      return Rejected(shape.error);
    }
    var lowerer := new Lowerer(parameters);
    var root := lowerer.Lower(e);
    if root.Rejected? {
      return Rejected(root.error);
    }
    RepresentedHasType(parameters, [], e, lowerer.nodes, root.value);
    if lowerer.nodes[root.value].type_ != BoolType {
      return Rejected(NonBoolean);
    }
    return Ready(Program(lowerer.nodes, root.value));
  }

  /** A compiled condition evaluates to what its source does, under every interpretation. */
  lemma {:induction false} CompiledMeansSource<V(!new)>(I: Interpretation<V>, ps: Scope, e: Expr, program: Program)
    requires Compiles(ps, e, program)
    ensures program.root < |program.nodes| && EvalAt(I, program.nodes, program.root, []) == Denote(I, ps, [], e, [])
  {
    MeaningIsPreserved(I, ps, [], e, program.nodes, program.root, []);
  }
}
