/** The compiled authorization model and relationship tuples, as the Check
    evaluator reads them (crates/openfga-model, crates/openfga-check). */
module CompiledModels {
  import opened Outcomes

  type TypeId = nat
  type RelationId = nat
  type ConditionId = nat
  type NodeId = nat

  datatype ObjectRef = ObjectRef(objectType: string, objectId: string)

  datatype SubjectRef =
    | ObjectSubject(obj: ObjectRef)
    | UsersetSubject(obj: ObjectRef, relation: string)
    | WildcardSubject(wildcard: string)

  function SubjectType(s: SubjectRef): string {
    match s
    case ObjectSubject(o) => o.objectType
    case UsersetSubject(o, _) => o.objectType
    case WildcardSubject(t) => t
  }

  datatype ConditionReference = Unconditional | Conditional(name: string, context: string)

  datatype RelationshipTuple = RelationshipTuple(
    obj: ObjectRef, relation: string, subject: SubjectRef, condition: ConditionReference)

  datatype RestrictionKind = ObjectKind | UsersetKind(relation: RelationId) | WildcardKind

  datatype ConditionRequirement = NoCondition | Required(condition: ConditionId)

  datatype DirectRestriction = DirectRestriction(
    subjectType: TypeId, kind: RestrictionKind, condition: ConditionRequirement)

  datatype RewriteNode =
    | DirectNode(relation: RelationId)
    | ComputedNode(relation: RelationId)
    | TtuNode(tupleset: RelationId, targets: seq<RelationId>)
    | UnionNode(nodes: seq<NodeId>)
    | IntersectionNode(nodes: seq<NodeId>)
    | DifferenceNode(base: NodeId, subtract: NodeId)

  datatype CompiledRelation = CompiledRelation(
    objectType: TypeId, name: string, root: NodeId, restrictions: seq<DirectRestriction>)

  datatype CompiledModel = CompiledModel(
    typeLookup: map<string, TypeId>,
    typeNames: seq<string>,
    relationLookup: map<(string, string), RelationId>,
    relations: seq<CompiledRelation>,
    nodes: seq<RewriteNode>,
    conditions: seq<string>,
    conditionLookup: map<string, ConditionId>,
    reachableTypes: seq<set<TypeId>>,
    reachableWildcards: seq<set<TypeId>>)

  /** What the model compiler guarantees: identifiers resolve, operand nodes precede the
      nodes that use them, and n-ary nodes have an operand. */
  predicate ValidModel(m: CompiledModel) {
    && (forall n :: 0 <= n < |m.nodes| ==> ValidNode(m, n, m.nodes[n]))
    && (forall r :: 0 <= r < |m.relations| ==> ValidRelation(m, m.relations[r]))
    && (forall k :: k in m.relationLookup ==> m.relationLookup[k] < |m.relations|)
    && (forall c :: 0 <= c < |m.conditions| ==> m.conditions[c] in m.conditionLookup)
    && (forall n :: n in m.conditionLookup ==> m.conditionLookup[n] < |m.conditions|)
  }

  predicate ValidNode(m: CompiledModel, id: NodeId, node: RewriteNode) {
    match node
    case DirectNode(r) => r < |m.relations|
    case ComputedNode(r) => r < |m.relations|
    case TtuNode(t, targets) =>
      t < |m.relations| && forall i :: 0 <= i < |targets| ==> targets[i] < |m.relations|
    case UnionNode(ns) => |ns| > 0 && forall i :: 0 <= i < |ns| ==> ns[i] < id
    case IntersectionNode(ns) => |ns| > 0 && forall i :: 0 <= i < |ns| ==> ns[i] < id
    case DifferenceNode(b, s) => b < id && s < id
  }

  predicate ValidRelation(m: CompiledModel, r: CompiledRelation) {
    && r.root < |m.nodes|
    && r.objectType < |m.typeNames|
    && forall i :: 0 <= i < |r.restrictions| ==> ValidRestriction(m, r.restrictions[i])
  }

  predicate ValidRestriction(m: CompiledModel, r: DirectRestriction) {
    && (r.kind.UsersetKind? ==> r.kind.relation < |m.relations|)
    && (r.condition.Required? ==> r.condition.condition < |m.conditions|)
  }

  datatype DirectClass = ObjectClass | UsersetClass(relation: RelationId) | WildcardClass

  function Classify(t: RelationshipTuple, m: CompiledModel): Option<DirectClass> {
    match t.subject
    case ObjectSubject(_) => Some(ObjectClass)
    case WildcardSubject(_) => Some(WildcardClass)
    case UsersetSubject(o, relation) =>
      if (o.objectType, relation) in m.relationLookup
      then Some(UsersetClass(m.relationLookup[(o.objectType, relation)]))
      else None
  }

  predicate RestrictionKindMatches(kind: RestrictionKind, c: DirectClass) {
    match (kind, c)
    case (ObjectKind, ObjectClass) => true
    case (WildcardKind, WildcardClass) => true
    case (UsersetKind(expected), UsersetClass(actual)) => expected == actual
    case _ => false
  }

  function ConditionRequirementMatches(
    requirement: ConditionRequirement, reference: ConditionReference, conditions: seq<string>): Result<bool>
  {
    match (requirement, reference)
    case (NoCondition, Unconditional) => Ok(true)
    case (Required(id), Conditional(name, _)) =>
      if id < |conditions| then Ok(conditions[id] == name)
      else Err(CheckError(InvalidModel, "restriction_condition_invalid"))
    case _ => Ok(false)
  }

  /** Scans the restrictions in order for one that admits the tuple. */
  function Admitted(
    t: RelationshipTuple, subjectType: TypeId, c: DirectClass,
    restrictions: seq<DirectRestriction>, conditions: seq<string>): Result<bool>
  {
    if |restrictions| == 0 then Ok(false)
    else
      var r := restrictions[0];
      if r.subjectType != subjectType || !RestrictionKindMatches(r.kind, c) then
        Admitted(t, subjectType, c, restrictions[1..], conditions)
      else
        var matched := ConditionRequirementMatches(r.condition, t.condition, conditions);
        if matched.Err? then matched
        else if matched.value then Ok(true)
        else Admitted(t, subjectType, c, restrictions[1..], conditions)
  }

  function MatchingRestriction(
    t: RelationshipTuple, restrictions: seq<DirectRestriction>, m: CompiledModel): Result<Option<DirectClass>>
  {
    if SubjectType(t.subject) !in m.typeLookup then Ok(None)
    else
      match Classify(t, m)
      case None => Ok(None)
      case Some(c) =>
        match Admitted(t, m.typeLookup[SubjectType(t.subject)], c, restrictions, m.conditions)
        case Err(e) => Err(e)
        case Ok(admitted) => Ok(if admitted then Some(c) else None)
  }

  predicate WildcardMatches(tupleSubject: SubjectRef, querySubject: SubjectRef) {
    && tupleSubject.WildcardSubject? && querySubject.ObjectSubject?
    && tupleSubject.wildcard == querySubject.obj.objectType
  }

  /** The wildcard of a type covers exactly the objects of that type. */
  lemma {:induction false} WildcardCovers(tupleSubject: SubjectRef, querySubject: SubjectRef)
    ensures WildcardMatches(tupleSubject, querySubject) <==>
            exists name, id :: tupleSubject == WildcardSubject(name) && querySubject == ObjectSubject(ObjectRef(name, id))
  {
    if WildcardMatches(tupleSubject, querySubject) {
      assert querySubject == ObjectSubject(ObjectRef(tupleSubject.wildcard, querySubject.obj.objectId));
    }
  }

  // ---------------------------------------------------------------------------
  // What a restriction asks of a tuple, without the scan
  // ---------------------------------------------------------------------------

  predicate HasType(m: CompiledModel, name: string, id: TypeId) {
    name in m.typeLookup && m.typeLookup[name] == id
  }

  /** The restriction's type is the subject's, and its kind is the subject's shape; for a userset it
      names exactly the userset's relation. */
  predicate AdmitsSubject(m: CompiledModel, r: DirectRestriction, subject: SubjectRef) {
    match subject
    case ObjectSubject(o) => HasType(m, o.objectType, r.subjectType) && r.kind == ObjectKind
    case WildcardSubject(name) => HasType(m, name, r.subjectType) && r.kind == WildcardKind
    case UsersetSubject(o, relation) =>
      && HasType(m, o.objectType, r.subjectType)
      && (o.objectType, relation) in m.relationLookup
      && r.kind == UsersetKind(m.relationLookup[(o.objectType, relation)])
  }

  /** No condition where none is asked for, and exactly the named one where one is. */
  predicate AdmitsCondition(m: CompiledModel, r: DirectRestriction, condition: ConditionReference) {
    match condition
    case Unconditional => r.condition == NoCondition
    case Conditional(name, _) =>
      r.condition.Required? && r.condition.condition < |m.conditions| && m.conditions[r.condition.condition] == name
  }

  predicate Admits(m: CompiledModel, r: DirectRestriction, t: RelationshipTuple) {
    AdmitsSubject(m, r, t.subject) && AdmitsCondition(m, r, t.condition)
  }

  /** The class of an admitted subject. */
  predicate IsClass(m: CompiledModel, subject: SubjectRef, c: DirectClass) {
    match subject
    case ObjectSubject(_) => c == ObjectClass
    case WildcardSubject(_) => c == WildcardClass
    case UsersetSubject(o, relation) =>
      (o.objectType, relation) in m.relationLookup && c == UsersetClass(m.relationLookup[(o.objectType, relation)])
  }

  /** The scan finds a restriction exactly when one admits the tuple, and then gives the subject's
      class; no lookup can fail in a valid model. */
  lemma {:induction false} AdmittedIff(t: RelationshipTuple, restrictions: seq<DirectRestriction>, m: CompiledModel)
    requires forall i :: 0 <= i < |restrictions| ==> ValidRestriction(m, restrictions[i])
    ensures MatchingRestriction(t, restrictions, m).Ok?
    ensures MatchingRestriction(t, restrictions, m).value.Some? <==>
            exists i :: 0 <= i < |restrictions| && Admits(m, restrictions[i], t)
    ensures MatchingRestriction(t, restrictions, m).value.Some? ==>
            IsClass(m, t.subject, MatchingRestriction(t, restrictions, m).value.value)
  {
    if SubjectType(t.subject) in m.typeLookup && Classify(t, m).Some? {
      ScanFinds(t, m.typeLookup[SubjectType(t.subject)], Classify(t, m).value, restrictions, m);
    }
  }

  lemma {:induction false} ScanFinds(
    t: RelationshipTuple, subjectType: TypeId, c: DirectClass, restrictions: seq<DirectRestriction>, m: CompiledModel)
    requires forall i :: 0 <= i < |restrictions| ==> ValidRestriction(m, restrictions[i])
    requires SubjectType(t.subject) in m.typeLookup && subjectType == m.typeLookup[SubjectType(t.subject)]
    requires Classify(t, m) == Some(c)
    ensures Admitted(t, subjectType, c, restrictions, m.conditions).Ok?
    ensures Admitted(t, subjectType, c, restrictions, m.conditions).value <==>
            exists i :: 0 <= i < |restrictions| && Admits(m, restrictions[i], t)
  {
    if |restrictions| > 0 {
      ScanFinds(t, subjectType, c, restrictions[1..], m);
      forall i | 0 < i < |restrictions| ensures restrictions[i] == restrictions[1..][i - 1] {}
    }
  }
}
