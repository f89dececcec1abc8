/** Reachability pruning never changes an answer, set differences included. */
module Pruning {
  import opened Kleene
  import opened CompiledModels
  import opened Semantics
  import opened FixedPoint

  /** `open` is the world `w` with reachability tables that prune nothing. */
  ghost predicate Unpruned(w: World, open: World) {
    && open == w.(model := open.model)
    && w.model == open.model.(reachableTypes := w.model.reachableTypes,
                              reachableWildcards := w.model.reachableWildcards)
    && forall r: RelationId, subject: SubjectRef ::
         r < |w.model.relations| && SubjectType(subject) in w.model.typeLookup ==> Reachable(open.model, r, subject)
  }

  predicate Pruned(m: CompiledModel, relation: RelationId, subject: SubjectRef) {
    SubjectType(subject) in m.typeLookup && !Reachable(m, relation, subject)
  }

  /** The two worlds have the same nodes and the same rows. */
  lemma {:induction false} SameRows(w: World, open: World)
    requires ReachabilityClosed(w.model) && Unpruned(w, open)
    ensures ValidModel(w.model) && ValidModel(open.model) && open.model.nodes == w.model.nodes
    ensures forall n :: 0 <= n < |w.model.nodes| ==> ValidNode(w.model, n, w.model.nodes[n])
    ensures |open.model.relations| == |w.model.relations|
    ensures forall obj, r: RelationId :: r < |w.model.relations| ==> Rows(open, obj, r) == Rows(w, obj, r)
  {
  }

  lemma {:induction false} PrunedKeyIsNotTrue(w: World, open: World, limit: nat, key: SemanticKey, path: Path)
    requires ReachabilityClosed(w.model) && Unpruned(w, open)
    requires Pruned(w.model, key.relation, key.subject)
    ensures Eval(open, limit, key, path) != True
    decreases Fuel(limit, path), 0, 0
  {
    if key !in path && |path| <= limit && key.relation < |w.model.relations| {
      PrunedNodeIsNotTrue(w, open, limit, key.relation, key.obj, key.subject,
                          w.model.relations[key.relation].root, path + {key});
    }
  }

  lemma {:induction false} PrunedNodeIsNotTrue(
    w: World, open: World, limit: nat, relation: RelationId,
    obj: ObjectRef, subject: SubjectRef, node: NodeId, path: Path)
    requires ReachabilityClosed(w.model) && Unpruned(w, open)
    requires relation < |w.model.relations| && NodeCovered(w.model, relation, node)
    requires Pruned(w.model, relation, subject)
    ensures EvalNode(open, limit, obj, subject, node, path) != True
    decreases Fuel(limit, path), node + 1, 1
  {
    SameRows(w, open);
    hide ValidModel; hide ReachabilityClosed; hide Unpruned; hide Rows; hide DirectRow; hide TtuRow; hide Eval; hide Pruned;
    var m := w.model;
    if node < |m.nodes| {
      assert ValidNode(m, node, m.nodes[node]);
      match m.nodes[node] {
        case DirectNode(owner) =>
          var rows := Rows(w, obj, owner);
          forall i | 0 <= i < |rows| ensures DirectRow(open, limit, subject, owner, rows[i], path) != True {
            PrunedRowIsNotTrue(w, open, limit, relation, subject, owner, rows[i], path);
          }
        case ComputedNode(r) => PrunedKeyIsNotTrue(w, open, limit, SemanticKey(obj, r, subject), path);
        case TtuNode(r, targets) =>
          var rows := Rows(w, obj, r);
          forall i | 0 <= i < |rows| ensures TtuRow(open, limit, subject, r, targets, rows[i], path) != True {
            PrunedTtuRowIsNotTrue(w, open, limit, relation, subject, r, targets, rows[i], path);
          }
        case UnionNode(ns) =>
          forall i | 0 <= i < |ns| ensures EvalNode(open, limit, obj, subject, ns[i], path) != True {
            PrunedNodeIsNotTrue(w, open, limit, relation, obj, subject, ns[i], path);
          }
        case IntersectionNode(ns) =>
          PrunedNodeIsNotTrue(w, open, limit, relation, obj, subject, ns[0], path);
          var vs := EvalNodes(open, limit, obj, subject, node, ns, path);
          assert vs[0] in vs;
        case DifferenceNode(b, _) => PrunedNodeIsNotTrue(w, open, limit, relation, obj, subject, b, path);
      }
    }
  }

  lemma {:induction false} PrunedRowIsNotTrue(
    w: World, open: World, limit: nat, relation: RelationId, subject: SubjectRef,
    owner: RelationId, t: RelationshipTuple, path: Path)
    requires ReachabilityClosed(w.model) && Unpruned(w, open)
    requires relation < |w.model.relations| && owner < |w.model.relations|
    requires forall i :: 0 <= i < |w.model.relations[owner].restrictions| ==>
               RestrictionCovered(w.model, relation, w.model.relations[owner].restrictions[i])
    requires Pruned(w.model, relation, subject)
    ensures DirectRow(open, limit, subject, owner, t, path) != True
    decreases Fuel(limit, path), 0, 1
  {
    var m := w.model;
    var rs := m.relations[owner].restrictions;
    RowClassResolves(open, owner, t);
    var admitted := RowClass(open, owner, t).value;
    if admitted.Some? {
      var i :| 0 <= i < |rs| && Admits(open.model, rs[i], t);
      assert RestrictionCovered(m, relation, rs[i]);
      if admitted.value.UsersetClass? {
        PrunedKeyIsNotTrue(w, open, limit, SemanticKey(t.subject.obj, admitted.value.relation, subject), path);
      }
    }
  }

  lemma {:induction false} PrunedTtuRowIsNotTrue(
    w: World, open: World, limit: nat, relation: RelationId, subject: SubjectRef,
    tupleset: RelationId, targets: seq<RelationId>, t: RelationshipTuple, path: Path)
    requires ReachabilityClosed(w.model) && Unpruned(w, open)
    requires relation < |w.model.relations| && tupleset < |w.model.relations|
    requires forall i :: 0 <= i < |targets| ==> TargetCovered(w.model, relation, targets[i])
    requires Pruned(w.model, relation, subject)
    ensures TtuRow(open, limit, subject, tupleset, targets, t, path) != True
    decreases Fuel(limit, path), 0, 1
  {
    if t.subject.ObjectSubject? {
      var target := t.subject.obj;
      forall i | 0 <= i < |targets| ensures TargetValue(open, limit, subject, target, targets[i], path) != True {
        PrunedKeyIsNotTrue(w, open, limit, SemanticKey(target, targets[i], subject), path);
      }
    }
  }

  lemma {:induction false} PruningRefinesKey(w: World, open: World, limit: nat, key: SemanticKey, path: Path)
    requires ReachabilityClosed(w.model) && Unpruned(w, open)
    ensures Refines(Eval(open, limit, key, path), Eval(w, limit, key, path))
    decreases Fuel(limit, path), 0, 0
  {
    if |path| <= limit && key !in path && SubjectType(key.subject) in w.model.typeLookup {
      if Reachable(w.model, key.relation, key.subject) {
        PruningRefinesNode(w, open, limit, key.obj, key.subject,
                           w.model.relations[key.relation].root, path + {key});
      } else {
        PrunedKeyIsNotTrue(w, open, limit, key, path);
      }
    }
  }

  lemma {:induction false} PruningRefinesNode(
    w: World, open: World, limit: nat, obj: ObjectRef, subject: SubjectRef, node: NodeId, path: Path)
    requires ReachabilityClosed(w.model) && Unpruned(w, open)
    ensures Refines(EvalNode(open, limit, obj, subject, node, path), EvalNode(w, limit, obj, subject, node, path))
    decreases Fuel(limit, path), node + 1, 1
  {
    SameRows(w, open);
    hide ValidModel; hide ReachabilityClosed; hide Unpruned; hide Rows; hide DirectRow; hide TtuRow; hide Eval; hide Refines;
    if node < |w.model.nodes| {
      assert ValidNode(w.model, node, w.model.nodes[node]);
      match w.model.nodes[node] {
        case DirectNode(r) =>
          var rows := Rows(w, obj, r);
          forall i | 0 <= i < |rows|
            ensures Refines(DirectRow(open, limit, subject, r, rows[i], path),
                            DirectRow(w, limit, subject, r, rows[i], path))
          {
            PruningRefinesRow(w, open, limit, subject, r, rows[i], path);
          }
          ConnectivesAreMonotone(DirectRows(open, limit, subject, r, rows, path),
                                 DirectRows(w, limit, subject, r, rows, path));
        case ComputedNode(r) => PruningRefinesKey(w, open, limit, SemanticKey(obj, r, subject), path);
        case TtuNode(r, targets) =>
          var rows := Rows(w, obj, r);
          forall i | 0 <= i < |rows|
            ensures Refines(TtuRow(open, limit, subject, r, targets, rows[i], path),
                            TtuRow(w, limit, subject, r, targets, rows[i], path))
          {
            PruningRefinesTtuRow(w, open, limit, subject, r, targets, rows[i], path);
          }
          ConnectivesAreMonotone(TtuRows(open, limit, subject, r, targets, rows, path),
                                 TtuRows(w, limit, subject, r, targets, rows, path));
        case UnionNode(ns) => PruningRefinesNodes(w, open, limit, obj, subject, node, ns, path);
        case IntersectionNode(ns) => PruningRefinesNodes(w, open, limit, obj, subject, node, ns, path);
        case DifferenceNode(b, s) => PruningRefinesNodes(w, open, limit, obj, subject, node, [b, s], path);
      }
    }
  }

  lemma {:induction false} PruningRefinesRow(
    w: World, open: World, limit: nat, subject: SubjectRef, owner: RelationId, t: RelationshipTuple, path: Path)
    requires ReachabilityClosed(w.model) && Unpruned(w, open) && owner < |w.model.relations|
    ensures Refines(DirectRow(open, limit, subject, owner, t, path), DirectRow(w, limit, subject, owner, t, path))
    decreases Fuel(limit, path), 0, 1
  {
    var admitted := RowClass(w, owner, t);
    if admitted.Ok? && admitted.value.Some? && admitted.value.value.UsersetClass? && t.subject.UsersetSubject? {
      PruningRefinesKey(w, open, limit, SemanticKey(t.subject.obj, admitted.value.value.relation, subject), path);
    }
  }

  lemma {:induction false} PruningRefinesNodes(
    w: World, open: World, limit: nat, obj: ObjectRef, subject: SubjectRef,
    bound: NodeId, ns: seq<NodeId>, path: Path)
    requires ReachabilityClosed(w.model) && Unpruned(w, open)
    requires forall i :: 0 <= i < |ns| ==> ns[i] < bound
    ensures var s, t := EvalNodes(open, limit, obj, subject, bound, ns, path),
                        EvalNodes(w, limit, obj, subject, bound, ns, path);
            && Refines(Any(s), Any(t)) && Refines(All(s), All(t))
            && (|ns| == 2 ==> Refines(Minus(s[0], s[1]), Minus(t[0], t[1])))
    decreases Fuel(limit, path), bound + 1, 0
  {
    forall i | 0 <= i < |ns|
      ensures Refines(EvalNode(open, limit, obj, subject, ns[i], path),
                      EvalNode(w, limit, obj, subject, ns[i], path))
    {
      PruningRefinesNode(w, open, limit, obj, subject, ns[i], path);
    }
    ConnectivesAreMonotone(EvalNodes(open, limit, obj, subject, bound, ns, path),
                           EvalNodes(w, limit, obj, subject, bound, ns, path));
  }

  lemma {:induction false} PruningRefinesTarget(
    w: World, open: World, limit: nat, subject: SubjectRef, obj: ObjectRef, target: RelationId, path: Path)
    requires ReachabilityClosed(w.model) && Unpruned(w, open)
    ensures Refines(TargetValue(open, limit, subject, obj, target, path), TargetValue(w, limit, subject, obj, target, path))
    decreases Fuel(limit, path), 0, 1
  {
    PruningRefinesKey(w, open, limit, SemanticKey(obj, target, subject), path);
  }

  lemma {:induction false} PruningRefinesTtuRow(
    w: World, open: World, limit: nat, subject: SubjectRef,
    tupleset: RelationId, targets: seq<RelationId>, t: RelationshipTuple, path: Path)
    requires ReachabilityClosed(w.model) && Unpruned(w, open) && tupleset < |w.model.relations|
    ensures Refines(TtuRow(open, limit, subject, tupleset, targets, t, path),
                    TtuRow(w, limit, subject, tupleset, targets, t, path))
    decreases Fuel(limit, path), 0, 3
  {
    SameRows(w, open);
    hide ValidModel; hide ReachabilityClosed; hide Rows; hide Eval; hide TargetValues; hide Any;
    if t.subject.ObjectSubject? {
      PruningRefinesTargets(w, open, limit, subject, t.subject.obj, targets, path);
    }
  }

  lemma {:induction false} PruningRefinesTargets(
    w: World, open: World, limit: nat, subject: SubjectRef, obj: ObjectRef, targets: seq<RelationId>, path: Path)
    requires ReachabilityClosed(w.model) && Unpruned(w, open)
    ensures Refines(Any(TargetValues(open, limit, subject, obj, targets, path)),
                    Any(TargetValues(w, limit, subject, obj, targets, path)))
    decreases Fuel(limit, path), 0, 2
  {
    SameRows(w, open);
    hide ValidModel; hide ReachabilityClosed; hide Rows; hide Eval; hide TargetValue;
    forall i | 0 <= i < |targets|
      ensures Refines(TargetValue(open, limit, subject, obj, targets[i], path),
                      TargetValue(w, limit, subject, obj, targets[i], path))
    {
      PruningRefinesTarget(w, open, limit, subject, obj, targets[i], path);
    }
    ConnectivesAreMonotone(TargetValues(open, limit, subject, obj, targets, path),
                           TargetValues(w, limit, subject, obj, targets, path));
  }
}
