/** Branch-local cycle denial computes the perfect model of the rewrite rules: on models without
    differences their least fixed point, and in general the least fixed point layer by layer,
    whenever no subtrahend depends back on its own relation. */
module FixedPoint {
  import opened Kleene
  import opened Outcomes
  import opened CompiledModels
  import opened Semantics

  /** One total reading of the tuple conditions. */
  type Reading = RelationshipTuple -> bool

  /** `c` is the verdict of every condition that evaluates, and resolves the failing ones somehow. */
  ghost predicate Resolves(w: World, c: Reading) {
    forall t: RelationshipTuple :: t.condition.Conditional? && w.verdict(t).Evaluated? ==> c(t) == w.verdict(t).met
  }

  predicate Met(c: Reading, t: RelationshipTuple) {
    t.condition.Unconditional? || c(t)
  }

  // ---------------------------------------------------------------------------
  // The rewrite rules as set rules, with no path and no pruning
  // ---------------------------------------------------------------------------

  /** A contextual or stored row of the object's relation. */
  predicate Given(w: World, obj: ObjectRef, relation: RelationId, t: RelationshipTuple)
    requires relation < |w.model.relations|
  {
    || t in w.contextual(obj, w.model.relations[relation].name)
    || t in w.stored(obj, w.model.relations[relation].name)
  }

  lemma {:induction false} GivenIsRow(w: World, obj: ObjectRef, relation: RelationId, t: RelationshipTuple)
    requires relation < |w.model.relations|
    ensures Given(w, obj, relation, t) <==> t in Rows(w, obj, relation)
  {
  }

  /** An admitted row whose condition is met names the subject, a wildcard over it, or a userset it is in. */
  ghost predicate RowHolds(
    w: World, c: Reading, known: iset<SemanticKey>, subject: SubjectRef, relation: RelationId, t: RelationshipTuple)
    requires relation < |w.model.relations|
  {
    && RowAdmitted(w, relation, t) && Met(c, t)
    && match t.subject
       case ObjectSubject(_) => t.subject == subject
       case WildcardSubject(name) => t.subject == subject || (subject.ObjectSubject? && subject.obj.objectType == name)
       case UsersetSubject(o, name) =>
         || t.subject == subject
         || ((o.objectType, name) in w.model.relationLookup
             && SemanticKey(o, w.model.relationLookup[(o.objectType, name)], subject) in known)
  }

  /** An admitted row whose condition is met names an object with a known target relation of its type. */
  ghost predicate TtuRowHolds(
    w: World, c: Reading, known: iset<SemanticKey>, subject: SubjectRef,
    tupleset: RelationId, targets: seq<RelationId>, t: RelationshipTuple)
    requires tupleset < |w.model.relations|
  {
    && RowAdmitted(w, tupleset, t) && Met(c, t) && t.subject.ObjectSubject?
    && exists target :: target in targets && TargetHolds(w, known, subject, t.subject.obj, target)
  }

  ghost predicate TargetHolds(w: World, known: iset<SemanticKey>, subject: SubjectRef, obj: ObjectRef, target: RelationId) {
    && target < |w.model.relations| && w.model.relations[target].objectType < |w.model.typeNames|
    && w.model.typeNames[w.model.relations[target].objectType] == obj.objectType
    && SemanticKey(obj, target, subject) in known
  }

  /** A subtrahend is looked up in `lower`, the keys already settled. */
  ghost predicate NodeHolds(
    w: World, c: Reading, known: iset<SemanticKey>, lower: iset<SemanticKey>,
    obj: ObjectRef, subject: SubjectRef, node: NodeId)
    requires ValidModel(w.model)
    decreases node
  {
    node < |w.model.nodes| &&
    assert ValidNode(w.model, node, w.model.nodes[node]);
    match w.model.nodes[node]
    case DirectNode(r) => exists t :: Given(w, obj, r, t) && RowHolds(w, c, known, subject, r, t)
    case ComputedNode(r) => SemanticKey(obj, r, subject) in known
    case TtuNode(r, targets) =>
      exists t :: Given(w, obj, r, t) && TtuRowHolds(w, c, known, subject, r, targets, t)
    case UnionNode(ns) => exists i :: 0 <= i < |ns| && NodeHolds(w, c, known, lower, obj, subject, ns[i])
    case IntersectionNode(ns) => forall i :: 0 <= i < |ns| ==> NodeHolds(w, c, known, lower, obj, subject, ns[i])
    case DifferenceNode(b, s) =>
      NodeHolds(w, c, known, lower, obj, subject, b) && !NodeHolds(w, c, lower, lower, obj, subject, s)
  }

  ghost predicate KeyHolds(w: World, c: Reading, known: iset<SemanticKey>, lower: iset<SemanticKey>, key: SemanticKey)
    requires ValidModel(w.model)
  {
    && key.relation < |w.model.relations|
    && NodeHolds(w, c, known, lower, key.obj, key.subject, w.model.relations[key.relation].root)
  }

  /** Membership in the least set closed under the rewrite rules and the tuples, for models without
      differences. */
  ghost predicate Derivable(w: World, c: Reading, key: SemanticKey)
    requires ValidModel(w.model)
  {
    forall known: iset<SemanticKey> ::
      (forall k :: KeyHolds(w, c, known, iset{}, k) ==> k in known) ==> key in known
  }

  predicate DifferenceFree(m: CompiledModel) {
    forall n :: 0 <= n < |m.nodes| ==> !m.nodes[n].DifferenceNode?
  }

  // ---------------------------------------------------------------------------
  // Layers
  // ---------------------------------------------------------------------------

  /** The layer of every relation. */
  type Ranking = seq<nat>

  function Rank(rank: Ranking, key: SemanticKey): nat {
    if key.relation < |rank| then rank[key.relation] else 0
  }

  /** What the node asks about lies in layers below `pos`, what a subtrahend in it asks about below `neg`. */
  predicate Asks(m: CompiledModel, rank: Ranking, pos: nat, neg: nat, node: NodeId)
    requires ValidModel(m) && |rank| == |m.relations|
    decreases node
  {
    node < |m.nodes| ==>
      assert ValidNode(m, node, m.nodes[node]);
      match m.nodes[node]
      case DirectNode(owner) => RestrictionsBelow(m, rank, pos, owner)
      case ComputedNode(r) => rank[r] < pos
      case TtuNode(_, targets) => forall i :: 0 <= i < |targets| ==> rank[targets[i]] < pos
      case UnionNode(ns) => forall i :: 0 <= i < |ns| ==> Asks(m, rank, pos, neg, ns[i])
      case IntersectionNode(ns) => forall i :: 0 <= i < |ns| ==> Asks(m, rank, pos, neg, ns[i])
      case DifferenceNode(b, s) => Asks(m, rank, pos, neg, b) && Asks(m, rank, neg, neg, s)
  }

  predicate RestrictionsBelow(m: CompiledModel, rank: Ranking, pos: nat, owner: RelationId)
    requires ValidModel(m) && |rank| == |m.relations| && owner < |m.relations|
  {
    forall i :: 0 <= i < |m.relations[owner].restrictions| && m.relations[owner].restrictions[i].kind.UsersetKind? ==>
      assert ValidRelation(m, m.relations[owner]);
      rank[m.relations[owner].restrictions[i].kind.relation] < pos
  }

  /** A relation asks about its own layer and lower ones, and subtracts only from lower ones. */
  predicate Stratified(m: CompiledModel, rank: Ranking)
    requires ValidModel(m)
  {
    && |rank| == |m.relations|
    && forall r :: 0 <= r < |m.relations| ==> Asks(m, rank, rank[r] + 1, rank[r], m.relations[r].root)
  }

  /** Closed under the rules of layer `k`, above the settled keys. */
  ghost predicate Closed(w: World, c: Reading, rank: Ranking, k: nat, lower: iset<SemanticKey>, known: iset<SemanticKey>)
    requires ValidModel(w.model)
  {
    && lower <= known
    && forall key :: Rank(rank, key) == k && KeyHolds(w, c, known, lower, key) ==> key in known
  }

  ghost predicate Forced(w: World, c: Reading, rank: Ranking, k: nat, lower: iset<SemanticKey>, key: SemanticKey)
    requires ValidModel(w.model)
  {
    forall known: iset<SemanticKey> :: Closed(w, c, rank, k, lower, known) ==> key in known
  }

  /** The perfect model below layer `k`: every layer is the least set closed over the ones before. */
  ghost function Perfect(w: World, c: Reading, rank: Ranking, k: nat): iset<SemanticKey>
    requires ValidModel(w.model)
  {
    if k == 0 then iset{}
    else
      var lower := Perfect(w, c, rank, k - 1);
      lower + iset key | Rank(rank, key) == k - 1 && Forced(w, c, rank, k - 1, lower, key)
  }

  ghost predicate InModel(w: World, c: Reading, rank: Ranking, key: SemanticKey)
    requires ValidModel(w.model)
  {
    key in Perfect(w, c, rank, Rank(rank, key) + 1)
  }

  /** A key is settled by its own layer: lower models do not hold it, higher ones do not change it. */
  lemma {:induction false} PerfectSettles(w: World, c: Reading, rank: Ranking, k: nat, key: SemanticKey)
    requires ValidModel(w.model)
    ensures key in Perfect(w, c, rank, k) <==> Rank(rank, key) < k && InModel(w, c, rank, key)
  {
    hide ValidModel; hide Forced;
    if k > 0 {
      PerfectSettles(w, c, rank, k - 1, key);
      if Rank(rank, key) == k - 1 {
        assert key !in Perfect(w, c, rank, k - 1);
      }
    }
  }

  // ---------------------------------------------------------------------------
  // Stages: keys of one layer derivable within n rule applications
  // ---------------------------------------------------------------------------

  ghost function Stage(w: World, c: Reading, rank: Ranking, k: nat, n: nat): iset<SemanticKey>
    requires ValidModel(w.model)
  {
    var lower := Perfect(w, c, rank, k);
    if n == 0 then lower
    else
      var before := Stage(w, c, rank, k, n - 1);
      lower + iset key | Rank(rank, key) == k && KeyHolds(w, c, before, lower, key)
  }

  ghost function Reached(w: World, c: Reading, rank: Ranking, k: nat): iset<SemanticKey>
    requires ValidModel(w.model)
  {
    iset key, n: nat | key in Stage(w, c, rank, k, n) :: key
  }

  lemma {:induction false} NodeMonotone(
    w: World, c: Reading, s: iset<SemanticKey>, t: iset<SemanticKey>, lower: iset<SemanticKey>,
    obj: ObjectRef, subject: SubjectRef, node: NodeId)
    requires ValidModel(w.model) && s <= t
    requires NodeHolds(w, c, s, lower, obj, subject, node)
    ensures NodeHolds(w, c, t, lower, obj, subject, node)
    decreases node
  {
    assert ValidNode(w.model, node, w.model.nodes[node]);
    match w.model.nodes[node] {
      case DirectNode(r) =>
        var x :| Given(w, obj, r, x) && RowHolds(w, c, s, subject, r, x);
        assert RowHolds(w, c, t, subject, r, x);
      case ComputedNode(_) =>
      case TtuNode(r, targets) =>
        var x :| Given(w, obj, r, x) && TtuRowHolds(w, c, s, subject, r, targets, x);
        var target :| target in targets && TargetHolds(w, s, subject, x.subject.obj, target);
        assert TargetHolds(w, t, subject, x.subject.obj, target);
        assert TtuRowHolds(w, c, t, subject, r, targets, x);
      case UnionNode(ns) =>
        var i :| 0 <= i < |ns| && NodeHolds(w, c, s, lower, obj, subject, ns[i]);
        NodeMonotone(w, c, s, t, lower, obj, subject, ns[i]);
      case IntersectionNode(ns) =>
        forall i | 0 <= i < |ns| ensures NodeHolds(w, c, t, lower, obj, subject, ns[i]) {
          NodeMonotone(w, c, s, t, lower, obj, subject, ns[i]);
        }
      case DifferenceNode(b, _) => NodeMonotone(w, c, s, t, lower, obj, subject, b);
    }
  }

  lemma {:induction false} StageGrows(w: World, c: Reading, rank: Ranking, k: nat, m: nat, n: nat)
    requires ValidModel(w.model) && m <= n
    ensures Stage(w, c, rank, k, m) <= Stage(w, c, rank, k, n)
    decreases n
  {
    hide Perfect; hide NodeHolds;
    if 0 < m {
      StageGrows(w, c, rank, k, m - 1, n - 1);
      forall key | key in Stage(w, c, rank, k, m) && key !in Perfect(w, c, rank, k) ensures key in Stage(w, c, rank, k, n) {
        NodeMonotone(w, c, Stage(w, c, rank, k, m - 1), Stage(w, c, rank, k, n - 1), Perfect(w, c, rank, k), key.obj, key.subject,
                     w.model.relations[key.relation].root);
      }
    }
  }

  lemma {:induction false} StageIsForced(w: World, c: Reading, rank: Ranking, k: nat, n: nat, known: iset<SemanticKey>)
    requires ValidModel(w.model) && Closed(w, c, rank, k, Perfect(w, c, rank, k), known)
    ensures Stage(w, c, rank, k, n) <= known
  {
    hide ValidModel; hide NodeHolds; hide Perfect;
    if n > 0 {
      StageIsForced(w, c, rank, k, n - 1, known);
      forall key | key in Stage(w, c, rank, k, n) ensures key in known {
        if key !in Perfect(w, c, rank, k) {
          NodeMonotone(w, c, Stage(w, c, rank, k, n - 1), known, Perfect(w, c, rank, k), key.obj, key.subject,
                       w.model.relations[key.relation].root);
          assert KeyHolds(w, c, known, Perfect(w, c, rank, k), key);
        }
      }
    }
  }

  /** Every rule has finitely many premises, so a rule enabled by all stages is enabled by one. */
  lemma {:induction false} NodeHoldsAtStage(
    w: World, c: Reading, rank: Ranking, k: nat, obj: ObjectRef, subject: SubjectRef, node: NodeId) returns (n: nat)
    requires ValidModel(w.model)
    requires NodeHolds(w, c, Reached(w, c, rank, k), Perfect(w, c, rank, k), obj, subject, node)
    ensures NodeHolds(w, c, Stage(w, c, rank, k, n), Perfect(w, c, rank, k), obj, subject, node)
    decreases node, 1, 0
  {
    hide Perfect; hide Stage;
    assert ValidNode(w.model, node, w.model.nodes[node]);
    var all, lower := Reached(w, c, rank, k), Perfect(w, c, rank, k);
    match w.model.nodes[node] {
      case DirectNode(r) =>
        var x :| Given(w, obj, r, x) && RowHolds(w, c, all, subject, r, x);
        if x.subject.UsersetSubject? && x.subject != subject {
          var key := SemanticKey(x.subject.obj, w.model.relationLookup[(x.subject.obj.objectType, x.subject.relation)], subject);
          assert key in all;
          n :| key in Stage(w, c, rank, k, n);
        } else {
          n := 0;
        }
        assert RowHolds(w, c, Stage(w, c, rank, k, n), subject, r, x);
      case ComputedNode(r) =>
        assert SemanticKey(obj, r, subject) in all;
        n :| SemanticKey(obj, r, subject) in Stage(w, c, rank, k, n);
      case TtuNode(r, targets) =>
        var x :| Given(w, obj, r, x) && TtuRowHolds(w, c, all, subject, r, targets, x);
        var target :| target in targets && TargetHolds(w, all, subject, x.subject.obj, target);
        n :| SemanticKey(x.subject.obj, target, subject) in Stage(w, c, rank, k, n);
        assert TargetHolds(w, Stage(w, c, rank, k, n), subject, x.subject.obj, target);
        assert TtuRowHolds(w, c, Stage(w, c, rank, k, n), subject, r, targets, x);
      case UnionNode(ns) =>
        var i :| 0 <= i < |ns| && NodeHolds(w, c, all, lower, obj, subject, ns[i]);
        n := NodeHoldsAtStage(w, c, rank, k, obj, subject, ns[i]);
      case IntersectionNode(ns) =>
        n := NodesHoldAtStage(w, c, rank, k, obj, subject, node, ns);
      case DifferenceNode(b, _) =>
        n := NodeHoldsAtStage(w, c, rank, k, obj, subject, b);
    }
  }

  lemma {:induction false} NodesHoldAtStage(
    w: World, c: Reading, rank: Ranking, k: nat, obj: ObjectRef, subject: SubjectRef, bound: NodeId, ns: seq<NodeId>)
    returns (n: nat)
    requires ValidModel(w.model)
    requires forall i :: 0 <= i < |ns| ==> ns[i] < bound
    requires forall i :: 0 <= i < |ns| ==> NodeHolds(w, c, Reached(w, c, rank, k), Perfect(w, c, rank, k), obj, subject, ns[i])
    ensures forall i :: 0 <= i < |ns| ==> NodeHolds(w, c, Stage(w, c, rank, k, n), Perfect(w, c, rank, k), obj, subject, ns[i])
    decreases bound, 0, |ns|
  {
    hide Perfect; hide Stage;
    if |ns| == 0 {
      n := 0;
    } else {
      var a := NodeHoldsAtStage(w, c, rank, k, obj, subject, ns[0]);
      var b := NodesHoldAtStage(w, c, rank, k, obj, subject, bound, ns[1..]);
      n := if a < b then b else a;
      StageGrows(w, c, rank, k, a, n);
      StageGrows(w, c, rank, k, b, n);
      forall i | 0 <= i < |ns| ensures NodeHolds(w, c, Stage(w, c, rank, k, n), Perfect(w, c, rank, k), obj, subject, ns[i]) {
        var m := if i == 0 then a else b;
        if i > 0 {
          assert ns[i] == ns[1..][i - 1];
        }
        NodeMonotone(w, c, Stage(w, c, rank, k, m), Stage(w, c, rank, k, n), Perfect(w, c, rank, k), obj, subject, ns[i]);
      }
    }
  }

  /** The stages exhaust the least closed set of the layer. */
  lemma {:induction false} ForcedIsStaged(w: World, c: Reading, rank: Ranking, k: nat, key: SemanticKey) returns (n: nat)
    requires ValidModel(w.model) && Forced(w, c, rank, k, Perfect(w, c, rank, k), key)
    ensures key in Stage(w, c, rank, k, n)
  {
    var all, lower := Reached(w, c, rank, k), Perfect(w, c, rank, k);
    forall q | Rank(rank, q) == k && KeyHolds(w, c, all, lower, q) ensures q in all {
      var m := NodeHoldsAtStage(w, c, rank, k, q.obj, q.subject, w.model.relations[q.relation].root);
      assert q in Stage(w, c, rank, k, m + 1);
    }
    forall q | q in lower ensures q in all {
      assert q in Stage(w, c, rank, k, 0);
    }
    assert Closed(w, c, rank, k, lower, all);
    n :| key in Stage(w, c, rank, k, n);
  }

  /** A layer holds exactly what is staged in it. */
  lemma {:induction false} StagedIsInModel(w: World, c: Reading, rank: Ranking, k: nat, n: nat, key: SemanticKey)
    requires ValidModel(w.model) && key in Stage(w, c, rank, k, n)
    ensures Rank(rank, key) <= k && InModel(w, c, rank, key)
  {
    PerfectSettles(w, c, rank, k, key);
    if key !in Perfect(w, c, rank, k) {
      forall known: iset<SemanticKey> | Closed(w, c, rank, k, Perfect(w, c, rank, k), known) ensures key in known {
        StageIsForced(w, c, rank, k, n, known);
      }
    }
  }

  // ---------------------------------------------------------------------------
  // Reachability pruning is conservative
  // ---------------------------------------------------------------------------

  /** The closure the reachability tables of a compiled model satisfy below one node. */
  predicate NodeCovered(m: CompiledModel, relation: RelationId, node: NodeId)
    requires ValidModel(m)
    requires |m.reachableTypes| == |m.relations| == |m.reachableWildcards| && relation < |m.relations|
    decreases node
  {
    node < |m.nodes| ==>
      assert ValidNode(m, node, m.nodes[node]);
      match m.nodes[node]
      case DirectNode(owner) =>
        forall i :: 0 <= i < |m.relations[owner].restrictions| ==>
          RestrictionCovered(m, relation, m.relations[owner].restrictions[i])
      case ComputedNode(r) => TargetCovered(m, relation, r)
      case TtuNode(_, targets) => forall i :: 0 <= i < |targets| ==> TargetCovered(m, relation, targets[i])
      case UnionNode(ns) => forall i :: 0 <= i < |ns| ==> NodeCovered(m, relation, ns[i])
      case IntersectionNode(ns) => forall i :: 0 <= i < |ns| ==> NodeCovered(m, relation, ns[i])
      case DifferenceNode(b, s) => NodeCovered(m, relation, b) && NodeCovered(m, relation, s)
  }

  predicate TargetCovered(m: CompiledModel, relation: RelationId, target: RelationId)
    requires |m.reachableTypes| == |m.relations| == |m.reachableWildcards| && relation < |m.relations|
  {
    target < |m.relations| ==>
      && m.reachableTypes[target] <= m.reachableTypes[relation]
      && m.reachableWildcards[target] <= m.reachableWildcards[relation]
  }

  predicate RestrictionCovered(m: CompiledModel, relation: RelationId, r: DirectRestriction)
    requires |m.reachableTypes| == |m.relations| == |m.reachableWildcards| && relation < |m.relations|
  {
    && r.subjectType in m.reachableTypes[relation]
    && (r.kind.WildcardKind? ==> r.subjectType in m.reachableWildcards[relation])
    && (r.kind.UsersetKind? ==> TargetCovered(m, relation, r.kind.relation))
  }

  predicate ReachabilityClosed(m: CompiledModel) {
    && ValidModel(m)
    && |m.reachableTypes| == |m.relations| == |m.reachableWildcards|
    && forall r :: 0 <= r < |m.relations| ==> NodeCovered(m, r, m.relations[r].root)
  }

  ghost predicate AllReachable(m: CompiledModel, known: iset<SemanticKey>) {
    forall k :: k in known ==> SubjectType(k.subject) in m.typeLookup && Reachable(m, k.relation, k.subject)
  }

  lemma {:induction false} RowHoldsReachable(
    w: World, c: Reading, known: iset<SemanticKey>, subject: SubjectRef,
    relation: RelationId, owner: RelationId, t: RelationshipTuple)
    requires ReachabilityClosed(w.model) && AllReachable(w.model, known)
    requires relation < |w.model.relations| && owner < |w.model.relations|
    requires forall i :: 0 <= i < |w.model.relations[owner].restrictions| ==>
               RestrictionCovered(w.model, relation, w.model.relations[owner].restrictions[i])
    requires RowHolds(w, c, known, subject, owner, t)
    ensures SubjectType(subject) in w.model.typeLookup && Reachable(w.model, relation, subject)
  {
    var m := w.model;
    var rs := m.relations[owner].restrictions;
    var i :| 0 <= i < |rs| && Admits(m, rs[i], t);
    assert RestrictionCovered(m, relation, rs[i]);
    if t.subject.UsersetSubject? && t.subject != subject {
      assert SemanticKey(t.subject.obj, rs[i].kind.relation, subject) in known;
    }
  }

  lemma {:induction false} NodeHoldsReachable(
    w: World, c: Reading, known: iset<SemanticKey>, lower: iset<SemanticKey>, obj: ObjectRef, subject: SubjectRef,
    relation: RelationId, node: NodeId)
    requires ReachabilityClosed(w.model) && AllReachable(w.model, known)
    requires relation < |w.model.relations| && NodeCovered(w.model, relation, node)
    requires NodeHolds(w, c, known, lower, obj, subject, node)
    ensures SubjectType(subject) in w.model.typeLookup && Reachable(w.model, relation, subject)
    decreases node
  {
    var m := w.model;
    assert ValidNode(m, node, m.nodes[node]);
    match m.nodes[node] {
      case DirectNode(owner) =>
        var t :| Given(w, obj, owner, t) && RowHolds(w, c, known, subject, owner, t);
        RowHoldsReachable(w, c, known, subject, relation, owner, t);
      case ComputedNode(r) =>
        assert SemanticKey(obj, r, subject) in known;
      case TtuNode(r, targets) =>
        var t :| Given(w, obj, r, t) && TtuRowHolds(w, c, known, subject, r, targets, t);
        var target :| target in targets && TargetHolds(w, known, subject, t.subject.obj, target);
        var i :| 0 <= i < |targets| && targets[i] == target;
        assert TargetCovered(m, relation, targets[i]);
      case UnionNode(ns) =>
        var i :| 0 <= i < |ns| && NodeHolds(w, c, known, lower, obj, subject, ns[i]);
        NodeHoldsReachable(w, c, known, lower, obj, subject, relation, ns[i]);
      case IntersectionNode(ns) =>
        NodeHoldsReachable(w, c, known, lower, obj, subject, relation, ns[0]);
      case DifferenceNode(b, _) =>
        NodeHoldsReachable(w, c, known, lower, obj, subject, relation, b);
    }
  }

  lemma {:induction false} StageReachable(w: World, c: Reading, rank: Ranking, k: nat, n: nat)
    requires ReachabilityClosed(w.model)
    ensures AllReachable(w.model, Stage(w, c, rank, k, n))
    decreases k, 1, n
  {
    hide ValidModel; hide NodeCovered; hide NodeHolds; hide Perfect; hide Reachable;
    PerfectReachable(w, c, rank, k);
    if n > 0 {
      StageReachable(w, c, rank, k, n - 1);
      forall q | q in Stage(w, c, rank, k, n)
        ensures SubjectType(q.subject) in w.model.typeLookup && Reachable(w.model, q.relation, q.subject)
      {
        if q !in Perfect(w, c, rank, k) {
          NodeHoldsReachable(w, c, Stage(w, c, rank, k, n - 1), Perfect(w, c, rank, k), q.obj, q.subject, q.relation,
                             w.model.relations[q.relation].root);
        }
      }
    }
  }

  lemma {:induction false} PerfectReachable(w: World, c: Reading, rank: Ranking, k: nat)
    requires ReachabilityClosed(w.model)
    ensures AllReachable(w.model, Perfect(w, c, rank, k))
    decreases k, 0, 0
  {
    hide ValidModel; hide NodeCovered; hide Stage; hide Closed; hide Reachable;
    if k > 0 {
      PerfectReachable(w, c, rank, k - 1);
      forall q | q in Perfect(w, c, rank, k)
        ensures SubjectType(q.subject) in w.model.typeLookup && Reachable(w.model, q.relation, q.subject)
      {
        if q !in Perfect(w, c, rank, k - 1) {
          var n := ForcedIsStaged(w, c, rank, k - 1, q);
          StageReachable(w, c, rank, k - 1, n);
        }
      }
    }
  }

  // ---------------------------------------------------------------------------
  // One rule at a time
  // ---------------------------------------------------------------------------

  /** On this branch, what is allowed below layer `b` is known. */
  ghost predicate Sound(w: World, limit: nat, rank: Ranking, path: Path, b: nat, known: iset<SemanticKey>)
    requires ValidModel(w.model)
  {
    forall key :: Rank(rank, key) < b && Eval(w, limit, key, path) == True ==> key in known
  }

  /** On this branch, nothing known below layer `b` is denied. */
  ghost predicate Complete(w: World, limit: nat, rank: Ranking, path: Path, b: nat, known: iset<SemanticKey>)
    requires ValidModel(w.model)
  {
    forall key :: Rank(rank, key) < b && key in known ==> Eval(w, limit, key, path) != False
  }

  /** A userset row belongs to a restriction that names its relation. */
  lemma {:induction false} UsersetRank(w: World, rank: Ranking, b: nat, r: RelationId, t: RelationshipTuple)
    requires ValidModel(w.model) && |rank| == |w.model.relations| && r < |w.model.relations|
    requires RestrictionsBelow(w.model, rank, b, r)
    requires RowClass(w, r, t).Ok? && RowClass(w, r, t).value.Some? && RowClass(w, r, t).value.value.UsersetClass?
    ensures RowClass(w, r, t).value.value.relation < |rank| && rank[RowClass(w, r, t).value.value.relation] < b
  {
    var m := w.model;
    var rs := m.relations[r].restrictions;
    assert ValidRelation(m, m.relations[r]);
    RowClassResolves(w, r, t);
    var i :| 0 <= i < |rs| && Admits(m, rs[i], t);
    assert ValidRestriction(m, rs[i]);
  }

  /** An evaluated condition is read as its verdict. */
  lemma {:induction false} ConditionIsRead(w: World, c: Reading, t: RelationshipTuple)
    requires Resolves(w, c)
    ensures Refines(ConditionTruth(w, t), FromBool(Met(c, t)))
  {
  }

  lemma {:induction false} RowSound(
    w: World, c: Reading, limit: nat, rank: Ranking, b: nat, known: iset<SemanticKey>,
    subject: SubjectRef, r: RelationId, t: RelationshipTuple, path: Path)
    requires ValidModel(w.model) && |rank| == |w.model.relations| && Resolves(w, c) && Sound(w, limit, rank, path, b, known)
    requires r < |w.model.relations| && RestrictionsBelow(w.model, rank, b, r)
    requires DirectRow(w, limit, subject, r, t, path) == True
    ensures RowHolds(w, c, known, subject, r, t)
  {
    hide Eval; hide ValidModel; hide RestrictionsBelow;
    RowClassResolves(w, r, t);
    ConditionIsRead(w, c, t);
    var admitted := RowClass(w, r, t).value.value;
    if admitted.UsersetClass? && t.subject != subject {
      UsersetRank(w, rank, b, r, t);
      assert Eval(w, limit, SemanticKey(t.subject.obj, admitted.relation, subject), path) == True;
    }
  }

  lemma {:induction false} RowComplete(
    w: World, c: Reading, limit: nat, rank: Ranking, b: nat, known: iset<SemanticKey>,
    subject: SubjectRef, r: RelationId, t: RelationshipTuple, path: Path)
    requires ValidModel(w.model) && |rank| == |w.model.relations| && Resolves(w, c) && Complete(w, limit, rank, path, b, known)
    requires r < |w.model.relations| && RestrictionsBelow(w.model, rank, b, r)
    requires RowHolds(w, c, known, subject, r, t)
    ensures DirectRow(w, limit, subject, r, t, path) != False
  {
    hide Eval; hide ValidModel; hide RestrictionsBelow;
    RowClassResolves(w, r, t);
    ConditionIsRead(w, c, t);
    var admitted := RowClass(w, r, t).value.value;
    if admitted.UsersetClass? && t.subject != subject {
      UsersetRank(w, rank, b, r, t);
      assert Eval(w, limit, SemanticKey(t.subject.obj, admitted.relation, subject), path) != False;
    }
  }

  lemma {:induction false} TtuRowSound(
    w: World, c: Reading, limit: nat, rank: Ranking, b: nat, known: iset<SemanticKey>,
    subject: SubjectRef, r: RelationId, targets: seq<RelationId>, t: RelationshipTuple, path: Path)
    requires ValidModel(w.model) && Resolves(w, c) && Sound(w, limit, rank, path, b, known)
    requires forall i :: 0 <= i < |targets| ==> targets[i] < |rank| && rank[targets[i]] < b
    requires r < |w.model.relations| && TtuRow(w, limit, subject, r, targets, t, path) == True
    ensures TtuRowHolds(w, c, known, subject, r, targets, t)
  {
    hide Eval; hide ValidModel;
    RowClassResolves(w, r, t);
    ConditionIsRead(w, c, t);
    var j :| 0 <= j < |targets| && TargetValue(w, limit, subject, t.subject.obj, targets[j], path) == True;
    assert targets[j] in targets;
    assert TargetHolds(w, known, subject, t.subject.obj, targets[j]);
  }

  lemma {:induction false} TtuRowComplete(
    w: World, c: Reading, limit: nat, rank: Ranking, b: nat, known: iset<SemanticKey>,
    subject: SubjectRef, r: RelationId, targets: seq<RelationId>, t: RelationshipTuple, path: Path)
    requires ValidModel(w.model) && Resolves(w, c) && Complete(w, limit, rank, path, b, known)
    requires forall i :: 0 <= i < |targets| ==> targets[i] < |rank| && rank[targets[i]] < b
    requires r < |w.model.relations| && TtuRowHolds(w, c, known, subject, r, targets, t)
    ensures TtuRow(w, limit, subject, r, targets, t, path) != False
  {
    hide Eval; hide ValidModel;
    RowClassResolves(w, r, t);
    ConditionIsRead(w, c, t);
    var target :| target in targets && TargetHolds(w, known, subject, t.subject.obj, target);
    var j :| 0 <= j < |targets| && targets[j] == target;
    assert Eval(w, limit, SemanticKey(t.subject.obj, target, subject), path) != False;
    if ConditionTruth(w, t) == True {
      AnyIsNotFalse(TargetValues(w, limit, subject, t.subject.obj, targets, path), j);
    }
  }

  lemma {:induction false} AnyIsNotFalse(vs: seq<Truth>, i: nat)
    requires i < |vs| && vs[i] != False
    ensures Any(vs) != False
  {
    assert vs[i] in vs;
  }

  /** A node allowed on the branch holds: its own premises are known, and a denied subtrahend is
      settled as absent. */
  lemma {:induction false} NodeSound(
    w: World, c: Reading, limit: nat, rank: Ranking, pos: nat, neg: nat, known: iset<SemanticKey>, lower: iset<SemanticKey>,
    obj: ObjectRef, subject: SubjectRef, node: NodeId, path: Path)
    requires ValidModel(w.model) && |rank| == |w.model.relations| && Resolves(w, c) && Asks(w.model, rank, pos, neg, node)
    requires Sound(w, limit, rank, path, pos, known)
    requires Sound(w, limit, rank, path, neg, lower) && Complete(w, limit, rank, path, neg, lower)
    requires EvalNode(w, limit, obj, subject, node, path) == True
    ensures NodeHolds(w, c, known, lower, obj, subject, node)
    decreases node
  {
    hide Eval; hide Resolves; hide RowHolds; hide TtuRowHolds; hide DirectRow; hide TtuRow; hide RestrictionsBelow;
    assert ValidNode(w.model, node, w.model.nodes[node]);
    match w.model.nodes[node] {
      case DirectNode(r) =>
        var rows := Rows(w, obj, r);
        var i :| 0 <= i < |rows| && DirectRow(w, limit, subject, r, rows[i], path) == True;
        RowSound(w, c, limit, rank, pos, known, subject, r, rows[i], path);
      case ComputedNode(r) =>
      case TtuNode(r, targets) =>
        var rows := Rows(w, obj, r);
        var i :| 0 <= i < |rows| && TtuRow(w, limit, subject, r, targets, rows[i], path) == True;
        TtuRowSound(w, c, limit, rank, pos, known, subject, r, targets, rows[i], path);
      case UnionNode(ns) =>
        var i :| 0 <= i < |ns| && EvalNode(w, limit, obj, subject, ns[i], path) == True;
        NodeSound(w, c, limit, rank, pos, neg, known, lower, obj, subject, ns[i], path);
      case IntersectionNode(ns) =>
        var vs := EvalNodes(w, limit, obj, subject, node, ns, path);
        forall i | 0 <= i < |ns| ensures NodeHolds(w, c, known, lower, obj, subject, ns[i]) {
          assert vs[i] in vs;
          NodeSound(w, c, limit, rank, pos, neg, known, lower, obj, subject, ns[i], path);
        }
      case DifferenceNode(b, s) =>
        NodeSound(w, c, limit, rank, pos, neg, known, lower, obj, subject, b, path);
        if NodeHolds(w, c, lower, lower, obj, subject, s) {
          NodeComplete(w, c, limit, rank, neg, neg, lower, lower, obj, subject, s, path);
        }
    }
  }

  /** A node that holds is not denied on the branch. */
  lemma {:induction false} NodeComplete(
    w: World, c: Reading, limit: nat, rank: Ranking, pos: nat, neg: nat, known: iset<SemanticKey>, lower: iset<SemanticKey>,
    obj: ObjectRef, subject: SubjectRef, node: NodeId, path: Path)
    requires ValidModel(w.model) && |rank| == |w.model.relations| && Resolves(w, c) && Asks(w.model, rank, pos, neg, node)
    requires Complete(w, limit, rank, path, pos, known)
    requires Sound(w, limit, rank, path, neg, lower) && Complete(w, limit, rank, path, neg, lower)
    requires NodeHolds(w, c, known, lower, obj, subject, node)
    ensures EvalNode(w, limit, obj, subject, node, path) != False
    decreases node
  {
    hide Eval; hide Resolves; hide RowHolds; hide TtuRowHolds; hide DirectRow; hide TtuRow; hide RestrictionsBelow;
    assert ValidNode(w.model, node, w.model.nodes[node]);
    match w.model.nodes[node] {
      case DirectNode(r) =>
        var rows := Rows(w, obj, r);
        var t :| Given(w, obj, r, t) && RowHolds(w, c, known, subject, r, t);
        GivenIsRow(w, obj, r, t);
        var i :| 0 <= i < |rows| && rows[i] == t;
        RowComplete(w, c, limit, rank, pos, known, subject, r, t, path);
        AnyIsNotFalse(DirectRows(w, limit, subject, r, rows, path), i);
      case ComputedNode(r) =>
      case TtuNode(r, targets) =>
        var rows := Rows(w, obj, r);
        var t :| Given(w, obj, r, t) && TtuRowHolds(w, c, known, subject, r, targets, t);
        GivenIsRow(w, obj, r, t);
        var i :| 0 <= i < |rows| && rows[i] == t;
        TtuRowComplete(w, c, limit, rank, pos, known, subject, r, targets, t, path);
        AnyIsNotFalse(TtuRows(w, limit, subject, r, targets, rows, path), i);
      case UnionNode(ns) =>
        var i :| 0 <= i < |ns| && NodeHolds(w, c, known, lower, obj, subject, ns[i]);
        NodeComplete(w, c, limit, rank, pos, neg, known, lower, obj, subject, ns[i], path);
        AnyIsNotFalse(EvalNodes(w, limit, obj, subject, node, ns, path), i);
      case IntersectionNode(ns) =>
        forall i | 0 <= i < |ns| ensures EvalNode(w, limit, obj, subject, ns[i], path) != False {
          NodeComplete(w, c, limit, rank, pos, neg, known, lower, obj, subject, ns[i], path);
        }
      case DifferenceNode(b, s) =>
        NodeComplete(w, c, limit, rank, pos, neg, known, lower, obj, subject, b, path);
        if EvalNode(w, limit, obj, subject, s, path) == True {
          NodeSound(w, c, limit, rank, neg, neg, lower, lower, obj, subject, s, path);
        }
    }
  }

  // ---------------------------------------------------------------------------
  // Layer by layer
  // ---------------------------------------------------------------------------

  /** Branches run down the layers: nothing on this one lies below layer `k`. */
  predicate Above(rank: Ranking, k: nat, path: Path) {
    forall p :: p in path ==> k <= Rank(rank, p)
  }

  /** No key of the branch is derivable as early as stage n. */
  ghost predicate Later(w: World, c: Reading, rank: Ranking, k: nat, n: nat, path: Path)
    requires ValidModel(w.model)
  {
    forall p :: p in path ==> p !in Stage(w, c, rank, k, n)
  }

  /** Whatever the lower layers hold is settled rightly on the branch. */
  lemma {:induction false} LowerIsJudged(w: World, c: Reading, limit: nat, rank: Ranking, k: nat, path: Path)
    requires ReachabilityClosed(w.model) && Stratified(w.model, rank) && Resolves(w, c) && Above(rank, k, path)
    ensures Sound(w, limit, rank, path, k, Perfect(w, c, rank, k))
    ensures Complete(w, limit, rank, path, k, Perfect(w, c, rank, k))
    decreases k, 0, 0
  {
    hide ValidModel; hide NodeCovered; hide Eval; hide Stratified; hide Resolves; hide Perfect;
    forall key | Rank(rank, key) < k
      ensures Eval(w, limit, key, path) == True ==> key in Perfect(w, c, rank, k)
      ensures key in Perfect(w, c, rank, k) ==> Eval(w, limit, key, path) != False
    {
      KeyIsJudged(w, c, limit, rank, key, path);
      PerfectSettles(w, c, rank, k, key);
    }
  }

  /** A key above whose layer the whole branch lies is judged as the perfect model says. */
  lemma {:induction false} KeyIsJudged(w: World, c: Reading, limit: nat, rank: Ranking, key: SemanticKey, path: Path)
    requires ReachabilityClosed(w.model) && Stratified(w.model, rank) && Resolves(w, c) && Above(rank, Rank(rank, key) + 1, path)
    ensures Eval(w, limit, key, path) == True ==> InModel(w, c, rank, key)
    ensures InModel(w, c, rank, key) ==> Eval(w, limit, key, path) != False
    decreases Rank(rank, key), 3, 0
  {
    hide ValidModel; hide NodeCovered; hide Eval; hide Stratified; hide Resolves; hide Stage;
    var k := Rank(rank, key);
    var lower := Perfect(w, c, rank, k);
    if Eval(w, limit, key, path) == True {
      forall known: iset<SemanticKey> | Closed(w, c, rank, k, lower, known) ensures key in known {
        AllowedIsForced(w, c, limit, rank, k, known, key, path);
      }
      assert Forced(w, c, rank, k, lower, key);
    }
    if InModel(w, c, rank, key) {
      PerfectSettles(w, c, rank, k, key);
      assert Forced(w, c, rank, k, lower, key);
      var n := ForcedIsStaged(w, c, rank, k, key);
      forall p | p in path ensures p !in Stage(w, c, rank, k, n) {
        if p in Stage(w, c, rank, k, n) {
          StagedIsInModel(w, c, rank, k, n, p);
        }
      }
      StagedIsNotFalse(w, c, limit, rank, k, n, key, path);
    }
  }

  lemma {:induction false} AllowedIsExpanded(w: World, limit: nat, key: SemanticKey, path: Path)
    requires ValidModel(w.model) && Eval(w, limit, key, path) == True
    ensures key.relation < |w.model.relations| && Fuel(limit, path + {key}) < Fuel(limit, path)
    ensures EvalNode(w, limit, key.obj, key.subject, w.model.relations[key.relation].root, path + {key}) == True
  {
  }

  /** An allowed key lies in every closed set of its layer. */
  lemma {:induction false} AllowedIsForced(
    w: World, c: Reading, limit: nat, rank: Ranking, k: nat, known: iset<SemanticKey>, key: SemanticKey, path: Path)
    requires ReachabilityClosed(w.model) && Stratified(w.model, rank) && Resolves(w, c) && Above(rank, k, path)
    requires Closed(w, c, rank, k, Perfect(w, c, rank, k), known)
    requires Rank(rank, key) <= k && Eval(w, limit, key, path) == True
    ensures key in known
    decreases k, 1, Fuel(limit, path)
  {
    hide Stratified; hide Resolves; hide Perfect; hide EvalNode; hide Asks; hide ValidModel; hide NodeHolds; hide NodeCovered;
    hide Eval; hide Fuel;
    var lower := Perfect(w, c, rank, k);
    if Rank(rank, key) < k {
      LowerIsJudged(w, c, limit, rank, k, path);
    } else {
      var deeper := path + {key};
      AllowedIsExpanded(w, limit, key, path);
      assert Above(rank, k, deeper);
      LowerIsJudged(w, c, limit, rank, k, deeper);
      forall q | Rank(rank, q) < k + 1 && Eval(w, limit, q, deeper) == True ensures q in known {
        AllowedIsForced(w, c, limit, rank, k, known, q, deeper);
      }
      RuleOf(w.model, rank, key);
      NodeSound(w, c, limit, rank, k + 1, k, known, lower, key.obj, key.subject, w.model.relations[key.relation].root, deeper);
      assert KeyHolds(w, c, known, lower, key);
    }
  }

  lemma {:induction false} RuleOf(m: CompiledModel, rank: Ranking, key: SemanticKey)
    requires ValidModel(m) && Stratified(m, rank) && key.relation < |m.relations|
    ensures |rank| == |m.relations|
    ensures Asks(m, rank, Rank(rank, key) + 1, Rank(rank, key), m.relations[key.relation].root)
  {
  }

  /** Cycle denial never denies a key that is staged before everything on its branch. */
  lemma {:induction false} StagedIsNotFalse(
    w: World, c: Reading, limit: nat, rank: Ranking, k: nat, n: nat, key: SemanticKey, path: Path)
    requires ReachabilityClosed(w.model) && Stratified(w.model, rank) && Resolves(w, c) && Above(rank, k, path)
    requires Rank(rank, key) == k && key in Stage(w, c, rank, k, n) && Later(w, c, rank, k, n, path)
    ensures Eval(w, limit, key, path) != False
    decreases k, 2, n
  {
    hide Stratified; hide Resolves; hide Perfect; hide EvalNode; hide Asks; hide NodeCovered; hide ValidModel; hide NodeHolds;
    PerfectSettles(w, c, rank, k, key);
    StageGrows(w, c, rank, k, n - 1, n);
    StageReachable(w, c, rank, k, n);
    assert Later(w, c, rank, k, n - 1, path);
    if key in Stage(w, c, rank, k, n - 1) {
      StagedIsNotFalse(w, c, limit, rank, k, n - 1, key, path);
    } else {
      var deeper, before := path + {key}, Stage(w, c, rank, k, n - 1);
      assert Above(rank, k, deeper) && Later(w, c, rank, k, n - 1, deeper);
      LowerIsJudged(w, c, limit, rank, k, deeper);
      forall q | Rank(rank, q) < k + 1 && q in before ensures Eval(w, limit, q, deeper) != False {
        if Rank(rank, q) == k {
          StagedIsNotFalse(w, c, limit, rank, k, n - 1, q, deeper);
        } else {
          StagedIsInModel(w, c, rank, k, n - 1, q);
          PerfectSettles(w, c, rank, k, q);
        }
      }
      RuleOf(w.model, rank, key);
      NodeComplete(w, c, limit, rank, k + 1, k, before, Perfect(w, c, rank, k), key.obj, key.subject,
                   w.model.relations[key.relation].root, deeper);
    }
  }

  /** Whenever no subtrahend depends back on its own relation, every decided answer of the branch-path
      evaluation is membership in the perfect model, for every depth limit and however the failing
      conditions would resolve; cyclic usersets and tuple-to-userset loops included. */
  lemma {:induction false} CycleDenialIsPerfectModel(w: World, c: Reading, limit: nat, rank: Ranking, key: SemanticKey)
    requires ReachabilityClosed(w.model) && Stratified(w.model, rank) && Resolves(w, c)
    ensures Eval(w, limit, key, {}) == True ==> InModel(w, c, rank, key)
    ensures Eval(w, limit, key, {}) == False ==> !InModel(w, c, rank, key)
  {
    KeyIsJudged(w, c, limit, rank, key, {});
  }

  lemma {:induction false} OneLayer(m: CompiledModel, rank: Ranking, node: NodeId)
    requires ValidModel(m) && DifferenceFree(m) && |rank| == |m.relations| && forall r :: 0 <= r < |rank| ==> rank[r] == 0
    ensures Asks(m, rank, 1, 0, node)
    decreases node
  {
    if node < |m.nodes| {
      assert ValidNode(m, node, m.nodes[node]);
      match m.nodes[node] {
        case DirectNode(owner) => assert ValidRelation(m, m.relations[owner]);
        case UnionNode(ns) =>
          forall i | 0 <= i < |ns| ensures Asks(m, rank, 1, 0, ns[i]) {
            OneLayer(m, rank, ns[i]);
          }
        case IntersectionNode(ns) =>
          forall i | 0 <= i < |ns| ensures Asks(m, rank, 1, 0, ns[i]) {
            OneLayer(m, rank, ns[i]);
          }
        case _ =>
      }
    }
  }

  /** On models without differences the perfect model is the least fixed point. */
  lemma {:induction false} CycleDenialIsLeastFixedPoint(w: World, c: Reading, limit: nat, key: SemanticKey)
    requires ReachabilityClosed(w.model) && DifferenceFree(w.model) && Resolves(w, c)
    ensures Eval(w, limit, key, {}) == True ==> Derivable(w, c, key)
    ensures Eval(w, limit, key, {}) == False ==> !Derivable(w, c, key)
  {
    hide Eval; hide KeyHolds; hide Resolves;
    var rank := seq(|w.model.relations|, _ => 0);
    forall r | 0 <= r < |w.model.relations| ensures Asks(w.model, rank, 1, 0, w.model.relations[r].root) {
      OneLayer(w.model, rank, w.model.relations[r].root);
    }
    assert Stratified(w.model, rank);
    CycleDenialIsPerfectModel(w, c, limit, rank, key);
    assert Perfect(w, c, rank, 0) == iset{};
    assert InModel(w, c, rank, key) <==> Forced(w, c, rank, 0, iset{}, key);
    assert Forced(w, c, rank, 0, iset{}, key) <==> Derivable(w, c, key) by {
      forall known: iset<SemanticKey>
        ensures Closed(w, c, rank, 0, iset{}, known) <==> forall k :: KeyHolds(w, c, known, iset{}, k) ==> k in known
      {
      }
    }
  }

  // ---------------------------------------------------------------------------
  // When the evaluation is decided
  // ---------------------------------------------------------------------------

  /** Every semantic key the node asks about is in `universe`. */
  ghost predicate NodeWithin(w: World, universe: set<SemanticKey>, obj: ObjectRef, subject: SubjectRef, node: NodeId)
    requires ValidModel(w.model)
    decreases node
  {
    node < |w.model.nodes| &&
    assert ValidNode(w.model, node, w.model.nodes[node]);
    match w.model.nodes[node]
    case DirectNode(r) => forall t :: t in Rows(w, obj, r) ==> RowWithin(w, universe, subject, t)
    case ComputedNode(r) => SemanticKey(obj, r, subject) in universe
    case TtuNode(r, targets) =>
      forall t, target :: t in Rows(w, obj, r) && target in targets ==> TargetWithin(w, universe, subject, t, target)
    case UnionNode(ns) => forall i :: 0 <= i < |ns| ==> NodeWithin(w, universe, obj, subject, ns[i])
    case IntersectionNode(ns) => forall i :: 0 <= i < |ns| ==> NodeWithin(w, universe, obj, subject, ns[i])
    case DifferenceNode(b, s) =>
      NodeWithin(w, universe, obj, subject, b) && NodeWithin(w, universe, obj, subject, s)
  }

  ghost predicate TargetWithin(
    w: World, universe: set<SemanticKey>, subject: SubjectRef, t: RelationshipTuple, target: RelationId)
  {
    t.subject.ObjectSubject? && TargetFits(w.model, target, t.subject.obj) ==>
      SemanticKey(t.subject.obj, target, subject) in universe
  }

  ghost predicate RowWithin(w: World, universe: set<SemanticKey>, subject: SubjectRef, t: RelationshipTuple) {
    var admitted := Classify(t, w.model);
    admitted.Some? && admitted.value.UsersetClass? ==>
      SemanticKey(t.subject.obj, admitted.value.relation, subject) in universe
  }

  /** A finite set of well-typed keys closed under asking. */
  ghost predicate Universe(w: World, universe: set<SemanticKey>)
    requires ValidModel(w.model)
  {
    forall k :: k in universe ==>
      && SubjectType(k.subject) in w.model.typeLookup
      && k.relation < |w.model.relations|
      && NodeWithin(w, universe, k.obj, k.subject, w.model.relations[k.relation].root)
  }

  ghost predicate ConditionsEvaluate(w: World) {
    forall t: RelationshipTuple :: t.condition.Conditional? ==> w.verdict(t).Evaluated?
  }

  lemma {:induction false} SubsetSize<T>(s: set<T>, t: set<T>)
    requires s <= t
    ensures |s| <= |t|
    ensures |s| == |t| ==> s == t
  {
    assert t == s + (t - s);
  }

  lemma {:induction false} KeyIsDecided(w: World, limit: nat, universe: set<SemanticKey>, key: SemanticKey, path: Path)
    requires ValidModel(w.model) && Universe(w, universe) && ConditionsEvaluate(w)
    requires |universe| <= limit && key in universe && path <= universe
    ensures Eval(w, limit, key, path) != Unknown
    decreases Fuel(limit, path), 0, 0
  {
    SubsetSize(path, universe);
    if key !in path {
      SubsetSize(path + {key}, universe);
      NodeIsDecided(w, limit, universe, key.obj, key.subject, w.model.relations[key.relation].root, path + {key});
    }
  }

  lemma {:induction false} NodeIsDecided(
    w: World, limit: nat, universe: set<SemanticKey>, obj: ObjectRef, subject: SubjectRef, node: NodeId, path: Path)
    requires ValidModel(w.model) && Universe(w, universe) && ConditionsEvaluate(w)
    requires |universe| <= limit && path <= universe && NodeWithin(w, universe, obj, subject, node)
    ensures EvalNode(w, limit, obj, subject, node, path) != Unknown
    decreases Fuel(limit, path), node + 1, 1
  {
    assert ValidNode(w.model, node, w.model.nodes[node]);
    match w.model.nodes[node] {
      case DirectNode(r) =>
        var rows := Rows(w, obj, r);
        forall i | 0 <= i < |rows| ensures DirectRow(w, limit, subject, r, rows[i], path) != Unknown {
          assert rows[i] in rows && RowWithin(w, universe, subject, rows[i]);
          RowClassResolves(w, r, rows[i]);
          var admitted := RowClass(w, r, rows[i]).value;
          if admitted.Some? && admitted.value.UsersetClass? {
            KeyIsDecided(w, limit, universe,
                         SemanticKey(rows[i].subject.obj, admitted.value.relation, subject), path);
          }
        }
      case ComputedNode(r) => KeyIsDecided(w, limit, universe, SemanticKey(obj, r, subject), path);
      case TtuNode(r, targets) =>
        var rows := Rows(w, obj, r);
        forall i | 0 <= i < |rows| ensures TtuRow(w, limit, subject, r, targets, rows[i], path) != Unknown {
          assert rows[i] in rows;
          RowClassResolves(w, r, rows[i]);
          if rows[i].subject.ObjectSubject? {
            var target := rows[i].subject.obj;
            forall j | 0 <= j < |targets| ensures TargetValue(w, limit, subject, target, targets[j], path) != Unknown {
              if TargetFits(w.model, targets[j], target) {
                assert targets[j] in targets;
                KeyIsDecided(w, limit, universe, SemanticKey(target, targets[j], subject), path);
              }
            }
          }
        }
      case UnionNode(ns) =>
        forall i | 0 <= i < |ns| ensures EvalNode(w, limit, obj, subject, ns[i], path) != Unknown {
          NodeIsDecided(w, limit, universe, obj, subject, ns[i], path);
        }
      case IntersectionNode(ns) =>
        forall i | 0 <= i < |ns| ensures EvalNode(w, limit, obj, subject, ns[i], path) != Unknown {
          NodeIsDecided(w, limit, universe, obj, subject, ns[i], path);
        }
      case DifferenceNode(b, s) =>
        NodeIsDecided(w, limit, universe, obj, subject, b, path);
        NodeIsDecided(w, limit, universe, obj, subject, s, path);
    }
  }

  /** With evaluable conditions and a depth limit covering the finitely many keys in play,
      branch-path evaluation is membership in the perfect model, in both directions. */
  lemma {:induction false} EvaluationIsPerfectModel(
    w: World, c: Reading, limit: nat, rank: Ranking, universe: set<SemanticKey>, key: SemanticKey)
    requires ReachabilityClosed(w.model) && Stratified(w.model, rank)
    requires Resolves(w, c) && ConditionsEvaluate(w)
    requires Universe(w, universe) && key in universe && |universe| <= limit
    ensures Eval(w, limit, key, {}) == FromBool(InModel(w, c, rank, key))
    ensures DifferenceFree(w.model) ==> Eval(w, limit, key, {}) == FromBool(Derivable(w, c, key))
  {
    KeyIsDecided(w, limit, universe, key, {});
    CycleDenialIsPerfectModel(w, c, limit, rank, key);
    if DifferenceFree(w.model) {
      CycleDenialIsLeastFixedPoint(w, c, limit, key);
    }
  }
}
