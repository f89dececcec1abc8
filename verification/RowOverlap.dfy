/** A query whose answer is determined and whose run nevertheless meets the fatal read: two rows
    that both name the subject, in a direct relation that is an operand of an intersection. */
module RowOverlap {
  import opened Kleene
  import opened Outcomes
  import opened CompiledModels
  import opened Semantics
  import opened FixedPoint
  import opened Scheduling

  const DOC: ObjectRef := ObjectRef("doc", "1")
  const ANNE: SubjectRef := ObjectSubject(ObjectRef("user", "anne"))
  const ROOT: SemanticKey := SemanticKey(DOC, 0, ANNE)

  /** `viewer: [user, user:*] and [user, user:*]`; the compiler interns the equal operands. */
  function Model(): CompiledModel {
    CompiledModel(
      map["user" := 0, "doc" := 1], ["user", "doc"], map[("doc", "viewer") := 0],
      [CompiledRelation(1, "viewer", 1, [DirectRestriction(0, ObjectKind, NoCondition), DirectRestriction(0, WildcardKind, NoCondition)])],
      [DirectNode(0), IntersectionNode([0, 0])],
      [], map[], [{0}], [{0}])
  }

  /** The rows `doc:1#viewer@user:anne` and `doc:1#viewer@user:*`. */
  function Stored(): seq<RelationshipTuple> {
    [RelationshipTuple(DOC, "viewer", ANNE, Unconditional),
     RelationshipTuple(DOC, "viewer", WildcardSubject("user"), Unconditional)]
  }

  function Example(): World {
    World(Model(), (_, _) => [], (_, _) => Stored(), _ => Evaluated(true, 1))
  }

  lemma {:induction false} ModelIsClosed()
    ensures ReachabilityClosed(Model())
  {
  }

  /** Both rows allow at once. */
  lemma {:induction false} BothRowsAllow(k: nat)
    requires k < 2
    ensures AllowsAtOnce(Example(), ANNE, 0, Stored()[k])
  {
    var t, rs, m := Stored()[k], Model().relations[0].restrictions, Model();
    AdmittedIff(t, rs, m);
    assert Admits(m, rs[k], t);
  }

  lemma {:induction false} RowsOverlap()
    ensures Rows(Example(), DOC, 0) == Stored() && Overlap(Example(), ANNE, 0, Stored())
  {
    hide AllowsAtOnce; hide AnswersAtOnce;
    BothRowsAllow(0);
    BothRowsAllow(1);
    AllowingAnswers(Example(), ANNE, 0, Stored()[1]);
    assert [] + Stored() == Stored();
  }

  lemma {:induction false} FirstRowIsTrue(limit: nat)
    requires ValidModel(Model())
    ensures DirectRow(Example(), limit, ANNE, 0, Stored()[0], {ROOT}) == True
  {
    hide ValidModel; hide Eval;
    BothRowsAllow(0);
    RowClassResolves(Example(), 0, Stored()[0]);
  }

  lemma {:induction false} DirectIsTrue(limit: nat)
    requires ValidModel(Model())
    ensures EvalNode(Example(), limit, DOC, ANNE, 0, {ROOT}) == True
  {
    hide ValidModel; hide DirectRow; hide Rows; hide Stored;
    RowsOverlap();
    FirstRowIsTrue(limit);
    assert DirectRows(Example(), limit, ANNE, 0, Stored(), {ROOT})[0] == True;
  }

  lemma {:induction false} RootIsTrue(limit: nat)
    requires ValidModel(Model())
    ensures Eval(Example(), limit, ROOT, {}) == True
  {
    hide ValidModel; hide DirectRow; hide Rows; hide Stored;
    DirectIsTrue(limit);
    assert {} + {ROOT} == {ROOT};
    assert EvalNodes(Example(), limit, DOC, ANNE, 1, [0, 0], {ROOT}) == [True, True];
    assert EvalNode(Example(), limit, DOC, ANNE, 1, {ROOT}) == True;
  }

  /** Anne is a viewer on every reading of the rows, and yet the query is of the class whose every
      unhindered run ends in the reducer-state error. */
  lemma {:induction false} TwoRowsUnderAnIntersection(limit: nat)
    ensures ReachabilityClosed(Model()) && Eval(Example(), limit, ROOT, {}) == True
    ensures FatalRoot(Example(), ROOT)
  {
    hide Overlap; hide Eval; hide Rows; hide Stored; hide ReachabilityClosed; hide ValidModel;
    ModelIsClosed();
    assert ValidModel(Model()) by { ClosedIsValid(); }
    RootIsTrue(limit);
    RowsOverlap();
    assert OverlapsIn(Example(), ROOT, 0);
  }

  lemma {:induction false} ClosedIsValid()
    requires ReachabilityClosed(Model())
    ensures ValidModel(Model())
  {
  }
}
