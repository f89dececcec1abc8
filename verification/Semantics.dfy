/** The recursive meaning of a Check query: branch-path evaluation with cycle denial. */
module Semantics {
  import opened Kleene
  import opened Outcomes
  import opened CompiledModels

  datatype Verdict = Evaluated(met: bool, cost: nat) | Failed(error: OutsideError)

  /** Everything fixed during one root evaluation. */
  datatype World = World(
    model: CompiledModel,
    contextual: (ObjectRef, string) -> seq<RelationshipTuple>,
    stored: (ObjectRef, string) -> seq<RelationshipTuple>,
    verdict: RelationshipTuple -> Verdict)

  datatype SemanticKey = SemanticKey(obj: ObjectRef, relation: RelationId, subject: SubjectRef)

  type Path = set<SemanticKey>

  function Rows(w: World, obj: ObjectRef, relation: RelationId): seq<RelationshipTuple>
    requires relation < |w.model.relations|
  {
    var name := w.model.relations[relation].name;
    w.contextual(obj, name) + w.stored(obj, name)
  }

  function RowClass(w: World, relation: RelationId, t: RelationshipTuple): Result<Option<DirectClass>>
    requires relation < |w.model.relations|
  {
    MatchingRestriction(t, w.model.relations[relation].restrictions, w.model)
  }

  function ConditionTruth(w: World, t: RelationshipTuple): Truth {
    if t.condition.Unconditional? then True
    else match w.verdict(t)
         case Evaluated(met, _) => FromBool(met)
         case Failed(_) => Unknown
  }

  predicate Reachable(m: CompiledModel, relation: RelationId, subject: SubjectRef)
    requires SubjectType(subject) in m.typeLookup
  {
    var table := if subject.WildcardSubject? then m.reachableWildcards else m.reachableTypes;
    relation < |table| && m.typeLookup[SubjectType(subject)] in table[relation]
  }

  predicate TargetFits(m: CompiledModel, target: RelationId, obj: ObjectRef) {
    && target < |m.relations|
    && m.relations[target].objectType < |m.typeNames|
    && m.typeNames[m.relations[target].objectType] == obj.objectType
  }

  function Fuel(limit: nat, path: Path): nat {
    if |path| <= limit then limit + 1 - |path| else 0
  }

  /** The value of a semantic key on one branch. `limit` bounds the number of semantic
      edges on the branch; a key already on the branch is denied. */
  function Eval(w: World, limit: nat, key: SemanticKey, path: Path): Truth
    requires ValidModel(w.model)
    decreases Fuel(limit, path), 0, 0
  {
    if |path| > limit then Unknown
    else if key in path then False
    else if SubjectType(key.subject) !in w.model.typeLookup then Unknown
    else if !Reachable(w.model, key.relation, key.subject) then False
    else if key.relation >= |w.model.relations| then Unknown
    else EvalNode(w, limit, key.obj, key.subject, w.model.relations[key.relation].root, path + {key})
  }

  function EvalNode(
    w: World, limit: nat, obj: ObjectRef, subject: SubjectRef, node: NodeId, path: Path): Truth
    requires ValidModel(w.model)
    decreases Fuel(limit, path), node + 1, 1
  {
    if node >= |w.model.nodes| then Unknown
    else
      assert ValidNode(w.model, node, w.model.nodes[node]);
      match w.model.nodes[node]
      case DirectNode(relation) =>
        Any(DirectRows(w, limit, subject, relation, Rows(w, obj, relation), path))
      case ComputedNode(relation) => Eval(w, limit, SemanticKey(obj, relation, subject), path)
      case TtuNode(tupleset, targets) =>
        Any(TtuRows(w, limit, subject, tupleset, targets, Rows(w, obj, tupleset), path))
      case UnionNode(ns) => Any(EvalNodes(w, limit, obj, subject, node, ns, path))
      case IntersectionNode(ns) => All(EvalNodes(w, limit, obj, subject, node, ns, path))
      case DifferenceNode(base, subtract) =>
        Minus(EvalNode(w, limit, obj, subject, base, path),
              EvalNode(w, limit, obj, subject, subtract, path))
  }

  /** The values of operand nodes, all below `bound`. */
  function EvalNodes(
    w: World, limit: nat, obj: ObjectRef, subject: SubjectRef, bound: NodeId, ns: seq<NodeId>, path: Path)
    : (vs: seq<Truth>)
    requires ValidModel(w.model)
    requires forall i :: 0 <= i < |ns| ==> ns[i] < bound
    ensures |vs| == |ns|
    ensures forall i :: 0 <= i < |ns| ==> vs[i] == EvalNode(w, limit, obj, subject, ns[i], path)
    decreases Fuel(limit, path), bound + 1, 0
  {
    seq(|ns|, i requires 0 <= i < |ns| => EvalNode(w, limit, obj, subject, ns[i], path))
  }

  function DirectRows(
    w: World, limit: nat, subject: SubjectRef, relation: RelationId, rows: seq<RelationshipTuple>, path: Path)
    : (vs: seq<Truth>)
    requires ValidModel(w.model) && relation < |w.model.relations|
    ensures |vs| == |rows|
    ensures forall i :: 0 <= i < |rows| ==> vs[i] == DirectRow(w, limit, subject, relation, rows[i], path)
    decreases Fuel(limit, path), 0, 2
  {
    seq(|rows|, i requires 0 <= i < |rows| => DirectRow(w, limit, subject, relation, rows[i], path))
  }

  function TtuRows(
    w: World, limit: nat, subject: SubjectRef, tupleset: RelationId, targets: seq<RelationId>,
    rows: seq<RelationshipTuple>, path: Path): (vs: seq<Truth>)
    requires ValidModel(w.model) && tupleset < |w.model.relations|
    ensures |vs| == |rows|
    ensures forall i :: 0 <= i < |rows| ==> vs[i] == TtuRow(w, limit, subject, tupleset, targets, rows[i], path)
    decreases Fuel(limit, path), 0, 4
  {
    seq(|rows|, i requires 0 <= i < |rows| => TtuRow(w, limit, subject, tupleset, targets, rows[i], path))
  }

  /** What one row of a direct relation contributes. */
  function DirectRow(
    w: World, limit: nat, subject: SubjectRef, relation: RelationId, t: RelationshipTuple, path: Path): Truth
    requires ValidModel(w.model) && relation < |w.model.relations|
    decreases Fuel(limit, path), 0, 1
  {
    match RowClass(w, relation, t)
    case Err(_) => Unknown
    case Ok(None) => False
    case Ok(Some(ObjectClass)) => if t.subject == subject then ConditionTruth(w, t) else False
    case Ok(Some(WildcardClass)) =>
      if t.subject == subject || WildcardMatches(t.subject, subject) then ConditionTruth(w, t) else False
    case Ok(Some(UsersetClass(r))) =>
      if !t.subject.UsersetSubject? then False
      else if ConditionTruth(w, t) != True then ConditionTruth(w, t)
      else if t.subject == subject then True
      else Eval(w, limit, SemanticKey(t.subject.obj, r, subject), path)
  }

  /** What one row of a tupleset contributes: its object, asked about every fitting target. */
  function TtuRow(
    w: World, limit: nat, subject: SubjectRef, tupleset: RelationId, targets: seq<RelationId>,
    t: RelationshipTuple, path: Path): Truth
    requires ValidModel(w.model) && tupleset < |w.model.relations|
    decreases Fuel(limit, path), 0, 3
  {
    match RowClass(w, tupleset, t)
    case Err(_) => Unknown
    case Ok(Some(ObjectClass)) =>
      if ConditionTruth(w, t) != True then ConditionTruth(w, t)
      else if !t.subject.ObjectSubject? then False
      else Any(TargetValues(w, limit, subject, t.subject.obj, targets, path))
    case Ok(_) => False
  }

  function TargetValues(
    w: World, limit: nat, subject: SubjectRef, target: ObjectRef, targets: seq<RelationId>, path: Path)
    : (vs: seq<Truth>)
    requires ValidModel(w.model)
    ensures |vs| == |targets|
    ensures forall i :: 0 <= i < |targets| ==> vs[i] == TargetValue(w, limit, subject, target, targets[i], path)
    decreases Fuel(limit, path), 0, 2
  {
    seq(|targets|, i requires 0 <= i < |targets| => TargetValue(w, limit, subject, target, targets[i], path))
  }

  function TargetValue(
    w: World, limit: nat, subject: SubjectRef, target: ObjectRef, relation: RelationId, path: Path): Truth
    requires ValidModel(w.model)
    decreases Fuel(limit, path), 0, 1
  {
    if TargetFits(w.model, relation, target)
    then Eval(w, limit, SemanticKey(target, relation, subject), path)
    else False
  }

  /** In a valid model a row's class never fails to resolve: the row is admitted exactly when some
      restriction admits it, and its class is its subject's. */
  lemma {:induction false} RowClassResolves(w: World, relation: RelationId, t: RelationshipTuple)
    requires ValidModel(w.model) && relation < |w.model.relations|
    ensures RowClass(w, relation, t).Ok?
    ensures RowClass(w, relation, t).value.Some? <==> RowAdmitted(w, relation, t)
    ensures RowClass(w, relation, t).value.Some? ==> IsClass(w.model, t.subject, RowClass(w, relation, t).value.value)
  {
    AdmittedIff(t, w.model.relations[relation].restrictions, w.model);
  }

  predicate RowAdmitted(w: World, relation: RelationId, t: RelationshipTuple)
    requires relation < |w.model.relations|
  {
    exists i :: 0 <= i < |w.model.relations[relation].restrictions| && Admits(w.model, w.model.relations[relation].restrictions[i], t)
  }
}
