/** The Check work-graph scheduler (crates/openfga-check/src/evaluator.rs): an arena of
    work slots, a ready queue, reads finishing in any order, a memo table and five budgets. */
module Scheduling {
  import opened Kleene
  import opened Outcomes
  import opened CompiledModels
  import opened Semantics
  import opened Reducers
  import opened WorkGraph
  import WorkMeter

  const U32_MAX: nat := 0xffff_ffff

  datatype CheckBudget = CheckBudget(
    depth: nat, dispatches: nat, datastoreQueries: nat,
    tupleItems: nat, conditionCost: nat, concurrentReads: nat)

  predicate ValidBudget(b: CheckBudget) {
    && 1 <= b.depth <= 1_000 && 1 <= b.dispatches <= 1_000_000
    && 1 <= b.datastoreQueries <= 100_000 && 1 <= b.tupleItems <= 1_000_000
    && 1 <= b.conditionCost <= 1_000_000 && 1 <= b.concurrentReads <= 1_024
  }

  datatype Counters = Counters(
    dispatches: nat, datastoreQueries: nat, tupleItems: nat, conditionCost: nat)

  /** What a root did: how it was disturbed, what it counted and saw, and what it performed and was granted. */
  datatype Usage = Usage(
    interfered: bool, starved: set<RelationshipTuple>, counters: Counters, rowsSeen: nat,
    performed: WorkMeter.Work, granted: WorkMeter.Work)

  /** The environment interfered, or a budget was exceeded. */
  predicate HinderedBy(usage: Usage, budget: CheckBudget) {
    || usage.interfered || usage.starved != {}
    || usage.counters.dispatches > budget.dispatches
    || usage.counters.datastoreQueries > budget.datastoreQueries
    || usage.rowsSeen > budget.tupleItems
  }

  predicate WithinBudget(usage: Usage, budget: CheckBudget, metered: bool) {
    && usage.performed.dispatches <= budget.dispatches
    && usage.performed.queries <= budget.datastoreQueries
    && usage.performed.items <= budget.tupleItems
    && usage.counters.conditionCost <= budget.conditionCost
    && (metered ==> WorkMeter.Accounted(usage.granted, usage.performed))
  }

  datatype Candidate = Immediate(outcome: Evaluation) | Follow(work: WorkKind)

  function DepthExceededError(): CheckError { CheckError(DepthExceeded, "check_depth_exceeded") }
  function DispatchError(): CheckError { CheckError(DispatchExceeded, "check_dispatch_exceeded") }
  function DatastoreError(): CheckError { CheckError(DatastoreQueryExceeded, "check_datastore_query_exceeded") }
  function TupleItemsError(): CheckError { CheckError(TupleItemExceeded, "check_tuple_items_exceeded") }
  function ConditionCostError(): CheckError { CheckError(ConditionCostExceeded, "check_condition_cost_exceeded") }
  function ReducerStateError(): CheckError { InternalError("parent_reducer_state_invalid") }

  function NextDepth(depth: nat): Result<nat> {
    if depth < U32_MAX then Ok(depth + 1) else Err(DepthExceededError())
  }

  // ---------------------------------------------------------------------------
  // What the scheduler is measured against
  // ---------------------------------------------------------------------------

  function RootNodes(m: CompiledModel): seq<NodeId> {
    seq(|m.relations|, r requires 0 <= r < |m.relations| => m.relations[r].root)
  }

  ghost function Meaning(w: World, limit: nat, work: WorkKind): Truth {
    if !ValidModel(w.model) then Unknown else
    match work
    case Semantic(key, path, _) => Eval(w, limit, key, path)
    case Rewrite(obj, node, subject, path, _) => EvalNode(w, limit, obj, subject, node, path)
  }

  /** The candidate's outcome is exact for its row's value, or it follows a key with that value,
      about the same subject. */
  ghost predicate CandidateOk(g: Target, h: bool, subject: SubjectRef, c: Candidate, v: Truth) {
    match c
    case Immediate(o) => Exact(h, o, v)
    case Follow(work) =>
      work.Semantic? && DepthIsPathSize(g.limit, work) && g.value(work) == v && SubjectOf(work) == subject
  }

  ghost predicate CandidatesOk(g: Target, h: bool, subject: SubjectRef, cs: seq<Candidate>, vs: seq<Truth>) {
    |cs| == |vs| && forall i :: 0 <= i < |cs| ==> CandidateOk(g, h, subject, cs[i], vs[i])
  }

  lemma {:induction false} CandidatesHinder(g: Target, h: bool, h': bool, subject: SubjectRef, cs: seq<Candidate>, vs: seq<Truth>)
    requires CandidatesOk(g, h, subject, cs, vs) && (h ==> h')
    ensures CandidatesOk(g, h', subject, cs, vs)
  {
    forall i | 0 <= i < |cs| ensures CandidateOk(g, h', subject, cs[i], vs[i]) {}
  }

  /** Two candidates that both answer at once, the first of them allowing. */
  predicate Clash(cs: seq<Candidate>) {
    exists i, j :: 0 <= i < j < |cs| && cs[i].Immediate? && Allows(cs[i].outcome) && cs[j].Immediate?
  }

  /** The row names the subject itself, or a wildcard over it. */
  predicate NamesSubject(w: World, subject: SubjectRef, relation: RelationId, t: RelationshipTuple)
    requires relation < |w.model.relations|
  {
    && RowClass(w, relation, t).Ok? && RowClass(w, relation, t).value.Some?
    && (t.subject == subject || (RowClass(w, relation, t).value == Some(WildcardClass) && WildcardMatches(t.subject, subject)))
  }

  /** The row allows the subject without following any userset. */
  predicate AllowsAtOnce(w: World, subject: SubjectRef, relation: RelationId, t: RelationshipTuple)
    requires relation < |w.model.relations|
  {
    ConditionTruth(w, t) == True && NamesSubject(w, subject, relation, t)
  }

  /** The row answers without following any userset: it allows, or it fails its condition. */
  predicate AnswersAtOnce(w: World, subject: SubjectRef, relation: RelationId, t: RelationshipTuple)
    requires relation < |w.model.relations|
  {
    || AllowsAtOnce(w, subject, relation, t)
    || (ConditionTruth(w, t) == Unknown
        && (NamesSubject(w, subject, relation, t)
            || (RowClass(w, relation, t).Ok? && RowClass(w, relation, t).value.Some? && RowClass(w, relation, t).value.value.UsersetClass?)))
  }

  /** A row allows the subject at once and, further on, a row also answers at once. */
  ghost predicate Overlap(w: World, subject: SubjectRef, relation: RelationId, rows: seq<RelationshipTuple>)
    requires relation < |w.model.relations|
  {
    exists i, j :: 0 <= i < j < |rows| && AllowsAtOnce(w, subject, relation, rows[i])
                   && AnswersAtOnce(w, subject, relation, rows[j])
  }

  /** Rows of some object overlap for the subject in a direct relation that is an operand of an
      intersection, or the base of a difference. */
  ghost predicate Overlapping(w: World, subject: SubjectRef) {
    exists obj: ObjectRef, d: NodeId :: OverlapsAt(w, subject, obj, d)
  }

  ghost predicate OverlapsAt(w: World, subject: SubjectRef, obj: ObjectRef, d: NodeId) {
    && d < |w.model.nodes| && w.model.nodes[d].DirectNode? && Outlasted(w.model.nodes, d)
    && w.model.nodes[d].relation < |w.model.relations|
    && Overlap(w, subject, w.model.nodes[d].relation, Rows(w, obj, w.model.nodes[d].relation))
  }

  /** The candidates of the first `n` rows, in row order, each with the row it came from: exactly the
      rows that answer at once have a candidate that does, and it allows exactly when the row does. */
  ghost predicate Sourced(
    w: World, h: bool, subject: SubjectRef, relation: RelationId,
    rows: seq<RelationshipTuple>, n: nat, cs: seq<Candidate>, src: seq<nat>)
    requires relation < |w.model.relations| && n <= |rows|
  {
    && |src| == |cs|
    && (forall k :: 0 <= k < |src| ==> src[k] < n)
    && (forall k, l :: 0 <= k < l < |src| ==> src[k] < src[l])
    && (h || forall k :: 0 <= k < |cs| ==> Telling(w, subject, relation, rows[src[k]], cs[k]))
    && (h || forall m :: 0 <= m < n && AnswersAtOnce(w, subject, relation, rows[m]) ==> m in src)
  }

  /** The candidate answers at once as its row does. */
  predicate Telling(w: World, subject: SubjectRef, relation: RelationId, t: RelationshipTuple, c: Candidate)
    requires relation < |w.model.relations|
  {
    && (c.Immediate? <==> AnswersAtOnce(w, subject, relation, t))
    && (c.Immediate? ==> (Allows(c.outcome) <==> AllowsAtOnce(w, subject, relation, t)))
  }

  lemma {:induction false} ClashIsOverlap(
    w: World, h: bool, subject: SubjectRef, relation: RelationId,
    rows: seq<RelationshipTuple>, cs: seq<Candidate>, src: seq<nat>)
    requires relation < |w.model.relations| && Sourced(w, h, subject, relation, rows, |rows|, cs, src)
    ensures h || (Clash(cs) <==> Overlap(w, subject, relation, rows))
  {
    hide AllowsAtOnce; hide AnswersAtOnce; hide Telling; hide Overlap; hide Sourced;
    if !h && Clash(cs) {
      ClashOverlaps(w, subject, relation, rows, cs, src);
    }
    if !h && Overlap(w, subject, relation, rows) {
      OverlapClashes(w, subject, relation, rows, cs, src);
    }
  }

  lemma {:induction false} ClashOverlaps(
    w: World, subject: SubjectRef, relation: RelationId,
    rows: seq<RelationshipTuple>, cs: seq<Candidate>, src: seq<nat>)
    requires relation < |w.model.relations| && Sourced(w, false, subject, relation, rows, |rows|, cs, src) && Clash(cs)
    ensures Overlap(w, subject, relation, rows)
  {
    hide AllowsAtOnce; hide AnswersAtOnce;
    var i, j :| 0 <= i < j < |cs| && cs[i].Immediate? && Allows(cs[i].outcome) && cs[j].Immediate?;
    assert src[i] < src[j];
    assert Telling(w, subject, relation, rows[src[i]], cs[i]) && Telling(w, subject, relation, rows[src[j]], cs[j]);
  }

  lemma {:induction false} OverlapClashes(
    w: World, subject: SubjectRef, relation: RelationId,
    rows: seq<RelationshipTuple>, cs: seq<Candidate>, src: seq<nat>)
    requires relation < |w.model.relations| && Sourced(w, false, subject, relation, rows, |rows|, cs, src)
    requires Overlap(w, subject, relation, rows)
    ensures Clash(cs)
  {
    hide AllowsAtOnce; hide AnswersAtOnce;
    var i, j :| 0 <= i < j < |rows| && AllowsAtOnce(w, subject, relation, rows[i])
                && AnswersAtOnce(w, subject, relation, rows[j]);
    AllowingAnswers(w, subject, relation, rows[i]);
    assert i in src && j in src;
    var k :| 0 <= k < |src| && src[k] == i;
    var l :| 0 <= l < |src| && src[l] == j;
    assert k < l;
    assert Telling(w, subject, relation, rows[src[k]], cs[k]) && Telling(w, subject, relation, rows[src[l]], cs[l]);
  }

  lemma {:induction false} AllowingAnswers(w: World, subject: SubjectRef, relation: RelationId, t: RelationshipTuple)
    requires relation < |w.model.relations|
    ensures AllowsAtOnce(w, subject, relation, t) ==> AnswersAtOnce(w, subject, relation, t)
  {
  }

  /** While candidates are being started: the slot waits, and only candidates that answered at
      once have outcomes; or one of them allowed and completed the slot. */
  ghost predicate Started(state: WorkState, cs: seq<Candidate>, n: nat)
    requires n <= |cs|
  {
    match state
    case Waiting(r) =>
      && r.kind == UnionOf && |r.outcomes| == |cs|
      && forall j :: 0 <= j < |cs| && r.outcomes[j].Some? ==> j < n && cs[j] == Immediate(r.outcomes[j].value)
    case Completed => n == |cs| || exists j :: 0 <= j < n && cs[j].Immediate? && Allows(cs[j].outcome)
    case _ => false
  }

  lemma {:induction false} StartedNext(r: ReducerState, cs: seq<Candidate>, n: nat)
    requires WellFormed(r) && n < |cs| && cs[n].Immediate? && Started(Waiting(r), cs, n)
    ensures var (r', reduction) := AcceptSpec(r, n, cs[n].outcome);
            reduction.Ok? ==> Started(if reduction.value.None? then Waiting(r') else Completed, cs, n + 1)
  {
    var outcomes := r.outcomes[n := Some(cs[n].outcome)];
    MissingUpdate(r.outcomes, n, cs[n].outcome);
    MissingZero(outcomes);
    if n + 1 < |cs| {
      assert outcomes[n + 1].None?;
      if AnyAllows(outcomes) {
        var j :| 0 <= j < |outcomes| && outcomes[j].Some? && Allows(outcomes[j].value);
        assert j < n + 1 && cs[j] == Immediate(outcomes[j].value);
      }
    }
  }

  // What starting the candidates of slot `i` does to the slots, from `s0` on. The slot waits as a
  // union until a candidate allows at once; then it is completed, and either its parent keeps
  // waiting, so that the loop goes on, or the slot is no longer wanted.

  predicate NoAllow(cs: seq<Candidate>, n: nat)
    requires n <= |cs|
  {
    forall j :: 0 <= j < n && cs[j].Immediate? ==> !Allows(cs[j].outcome)
  }

  /** What the waiting slot will answer when a candidate allows. */
  function UnionAnswer(slots: seq<WorkSlot>, i: WorkId): Evaluation
    requires i < |slots| && slots[i].state.Waiting?
  {
    Ok(Allow(OrElse(slots[i].state.reducer.resolution, Union)))
  }

  /** Some candidate allows at once, a later one also answers at once, and the slot stays wanted after
      its answer because its parent keeps waiting. */
  ghost predicate Fatal(s0: seq<WorkSlot>, i: WorkId, cs: seq<Candidate>)
    requires Linked(s0) && i < |s0| && s0[i].state.Waiting?
  {
    Clash(cs) && StaysWanted(s0, i, UnionAnswer(s0, i))
  }

  ghost predicate Quiet(s0: seq<WorkSlot>, s: seq<WorkSlot>, i: WorkId) {
    && i < |s0| <= |s| && s0[i].state.Waiting? && s[i].state.Waiting?
    && s[i].state.reducer.resolution == s0[i].state.reducer.resolution
    && s[i].parent == s0[i].parent
    && forall k :: 0 <= k < |s0| && k != i ==> s[k] == s0[k]
  }

  ghost predicate Spent(s0: seq<WorkSlot>, s: seq<WorkSlot>, i: WorkId, cs: seq<Candidate>, n: nat)
    requires Linked(s) && i < |s| && i < |s0| && s0[i].state.Waiting? && n <= |cs|
  {
    && Done(s, i)
    && if ParentWaitsOn(s0, i, UnionAnswer(s0, i)) then Alive(s, i) && !Clash(cs[..n]) else !Alive(s, i)
  }

  ghost predicate Trace(s0: seq<WorkSlot>, s: seq<WorkSlot>, i: WorkId, cs: seq<Candidate>, n: nat)
    requires Linked(s0) && Linked(s) && i < |s0| <= |s| && s0[i].state.Waiting? && n <= |cs|
  {
    && (n == 0 ==> s == s0)
    && (n > 0 ==> Alive(s0, i))
    && if NoAllow(cs, n) then Quiet(s0, s, i) || n == |cs| else Spent(s0, s, i, cs, n)
  }

  lemma {:induction false} TraceStarts(s0: seq<WorkSlot>, i: WorkId, cs: seq<Candidate>)
    requires Linked(s0) && i < |s0| && s0[i].state.Waiting?
    ensures Trace(s0, s0, i, cs, 0)
  {
  }

  /** The fatal case in terms of the slot before it started to wait. */
  lemma {:induction false} FatalFromTheStart(
    slots: seq<WorkSlot>, i: WorkId, cs: seq<Candidate>, resolution: CheckResolution)
    requires Linked(slots) && i < |slots|
    requires Linked(slots[i := slots[i].(state := Waiting(Fresh(UnionOf, |cs|, Some(resolution))))])
    ensures Fatal(slots[i := slots[i].(state := Waiting(Fresh(UnionOf, |cs|, Some(resolution))))], i, cs)
            <==> Clash(cs) && StaysWanted(slots, i, Ok(Allow(resolution)))
  {
    StaysWantedSame(slots, i, Waiting(Fresh(UnionOf, |cs|, Some(resolution))), Ok(Allow(resolution)));
  }

  /** The read of a direct relation whose rows overlap, for a slot that stays wanted after allowing. */
  ghost predicate FatalRead(w: World, slots: seq<WorkSlot>, i: WorkId, read: ReadContinuation) {
    && read.DirectRead? && read.relation < |w.model.relations|
    && Overlap(w, read.subject, read.relation, Rows(w, read.obj, read.relation))
    && StaysWanted(slots, i, Ok(Allow(Direct)))
  }

  lemma {:induction false} FatalReadOverlaps(g: Target, h: bool, a: Arena, i: WorkId, w: World, read: ReadContinuation)
    requires GraphOk(g, h, a, Some(i), None) && 0 < i && g.nodes == w.model.nodes
    requires Resumes(g.nodes, a.works[i], read) && FatalRead(w, a.slots, i, read)
    ensures Overlapping(w, SubjectOf(a.works[0]))
  {
    hide Overlap; hide Rows; hide Outlasted;
    WaitingParentOutlasts(g, h, a, i, None, Direct);
    SubjectIsTheRoots(g, a.slots, a.works, i);
    assert OverlapsAt(w, read.subject, read.obj, a.works[i].node);
  }

  /** A scheduled child leaves the other slots alone. */
  lemma {:induction false} FollowTrace(s0: seq<WorkSlot>, s: seq<WorkSlot>, t: seq<WorkSlot>, i: WorkId, cs: seq<Candidate>, n: nat)
    requires Linked(s0) && Linked(s) && Linked(t) && i < |s0| <= |s| && s0[i].state.Waiting? && n < |cs|
    requires Trace(s0, s, i, cs, n) && cs[n].Follow? && Alive(s, i) && s <= t
    ensures Trace(s0, t, i, cs, n + 1)
  {
    AliveSame(s, t, i, i);
    assert cs[..n + 1] == cs[..n] + [cs[n]];
    assert Clash(cs[..n + 1]) ==> Clash(cs[..n]);
  }

  /** An operand accepted by a union that has seen no allow. */
  lemma {:induction false} UnionAccepts(r: ReducerState, cs: seq<Candidate>, n: nat)
    requires WellFormed(r) && n < |cs| && cs[n].Immediate? && Started(Waiting(r), cs, n) && NoAllow(cs, n)
    ensures var (r', reduction) := AcceptSpec(r, n, cs[n].outcome);
            && (Allows(cs[n].outcome) ==> reduction == Ok(Some(Ok(Allow(OrElse(r.resolution, Union))))))
            && (!Allows(cs[n].outcome) && n + 1 < |cs| ==> reduction == Ok(None) && r'.resolution == r.resolution)
  {
    var outcomes := r.outcomes[n := Some(cs[n].outcome)];
    MissingUpdate(r.outcomes, n, cs[n].outcome);
    MissingZero(outcomes);
    MissingZero(r.outcomes);
    if Allows(cs[n].outcome) {
      assert outcomes[n] == Some(cs[n].outcome);
    } else if n + 1 < |cs| {
      assert outcomes[n + 1].None?;
    }
  }

  /** An operand answered at once: it completes the slot when it allows. */
  lemma {:induction false} ImmediateTrace(s0: seq<WorkSlot>, s: seq<WorkSlot>, t: seq<WorkSlot>, i: WorkId, cs: seq<Candidate>, n: nat)
    requires Linked(s0) && Linked(s) && Linked(t) && 0 < i < |s0| <= |s| <= |t| && s0[i].state.Waiting? && n < |cs|
    requires Trace(s0, s, i, cs, n) && cs[n].Immediate? && Alive(s, i)
    requires s[i].state.Waiting? && WellFormed(s[i].state.reducer) && Started(s[i].state, cs, n)
    requires Continues(s, t)
    requires
      var (reducer, reduction) := AcceptSpec(s[i].state.reducer, n, cs[n].outcome);
      && reduction.Ok?
      && t[i].state == (if reduction.value.None? then Waiting(reducer) else Completed)
      && (reduction.value.None? ==> t == s[i := s[i].(state := Waiting(reducer))])
      && (reduction.value.Some? && ParentWaitsOn(s, i, reduction.value.value) ==>
            |t| == |s| && forall k: nat :: k != i ==> (Done(t, k) <==> Done(s, k)))
      && (reduction.value.Some? && !ParentWaitsOn(s, i, reduction.value.value) ==> ParentIsDone(t, i))
    ensures Trace(s0, t, i, cs, n + 1)
  {
    hide AcceptSpec;
    assert NoAllow(cs, n) && Quiet(s0, s, i);
    UnionAccepts(s[i].state.reducer, cs, n);
    assert cs[..n + 1] == cs[..n] + [cs[n]];
    if Allows(cs[n].outcome) {
      var answer := UnionAnswer(s0, i);
      ParentWaitsSame(s0, s, i, answer);
      assert !Clash(cs[..n + 1]);
      if ParentWaitsOn(s, i, answer) {
        AliveSame(s, t, i, i);
      } else {
        DoneParentIsDead(t, i);
      }
    }
  }

  lemma {:induction false} ParentWaitsSame(s0: seq<WorkSlot>, s: seq<WorkSlot>, i: WorkId, outcome: Evaluation)
    requires Quiet(s0, s, i)
    ensures ParentWaitsOn(s0, i, outcome) <==> ParentWaitsOn(s, i, outcome)
  {
    hide AcceptSpec;
  }

  /** The loop meets a completed slot that is still wanted only in the fatal case. */
  lemma {:induction false} DoneTrace(s0: seq<WorkSlot>, s: seq<WorkSlot>, i: WorkId, cs: seq<Candidate>, n: nat)
    requires Linked(s0) && Linked(s) && i < |s0| <= |s| && s0[i].state.Waiting? && n < |cs|
    requires Trace(s0, s, i, cs, n) && cs[n].Immediate? && Alive(s, i) && !s[i].state.Waiting?
    ensures Fatal(s0, i, cs)
  {
    hide AcceptSpec; hide ParentWaitsOn;
    var j :| 0 <= j < n && cs[j].Immediate? && Allows(cs[j].outcome);
  }

  /** The loop stops early, or ends, only outside the fatal case. */
  lemma {:induction false} StopTrace(s0: seq<WorkSlot>, s: seq<WorkSlot>, i: WorkId, cs: seq<Candidate>, n: nat)
    requires Linked(s0) && Linked(s) && i < |s0| <= |s| && s0[i].state.Waiting? && n <= |cs|
    requires Trace(s0, s, i, cs, n) && (n == |cs| || !Alive(s, i))
    ensures !Fatal(s0, i, cs)
  {
    hide AcceptSpec; hide ParentWaitsOn;
    if n == |cs| {
      assert cs[..n] == cs;
    } else if NoAllow(cs, n) {
      AliveSame(s0, s, i, i);
    }
  }

  // A class of queries that always end in that error. From the root on, slots only open: nothing is
  // completed and no operand is answered until the first read finishes, and that read is fatal.

  /** The root's relation is an intersection of two or more direct operands, and in each of them the
      object's rows overlap for the subject. */
  ghost predicate FatalRoot(w: World, root: SemanticKey) {
    && SubjectType(root.subject) in w.model.typeLookup && Reachable(w.model, root.relation, root.subject)
    && root.relation < |w.model.relations|
    && var node := w.model.relations[root.relation].root;
       && node < |w.model.nodes| && w.model.nodes[node].IntersectionNode? && |w.model.nodes[node].nodes| > 1
       && forall j :: 0 <= j < |w.model.nodes[node].nodes| ==> OverlapsIn(w, root, w.model.nodes[node].nodes[j])
  }

  ghost predicate OverlapsIn(w: World, root: SemanticKey, d: NodeId) {
    && d < |w.model.nodes| && w.model.nodes[d].DirectNode? && w.model.nodes[d].relation < |w.model.relations|
    && Overlap(w, root.subject, w.model.nodes[d].relation, Rows(w, root.obj, w.model.nodes[d].relation))
  }

  predicate IsDirect(nodes: seq<RewriteNode>, work: WorkKind) {
    work.Rewrite? && work.node < |nodes| && nodes[work.node].DirectNode?
  }

  /** No slot is completed, no operand is answered and no direct relation has its rows. */
  predicate Pristine(nodes: seq<RewriteNode>, slots: seq<WorkSlot>, works: seq<WorkKind>) {
    && |slots| == |works|
    && forall k :: 0 <= k < |slots| ==>
         && !slots[k].state.Completed?
         && (slots[k].state.Waiting? ==>
               && !IsDirect(nodes, works[k])
               && forall j :: 0 <= j < |slots[k].state.reducer.outcomes| ==> slots[k].state.reducer.outcomes[j].None?)
  }

  /** The slot starts to wait and new slots are queued; nothing else happens. */
  predicate Opened(before: seq<WorkSlot>, after: seq<WorkSlot>, i: WorkId, kind: ReducerKind, n: nat, resolution: Option<CheckResolution>)
    requires i < |before|
  {
    && before[i := before[i].(state := Waiting(Fresh(kind, n, resolution)))] <= after
    && forall k :: |before| <= k < |after| ==> after[k].state.Queued?
  }

  lemma {:induction false} OpenedIsPristine(
    nodes: seq<RewriteNode>, before: seq<WorkSlot>, after: seq<WorkSlot>, works: seq<WorkKind>, works': seq<WorkKind>,
    i: WorkId, kind: ReducerKind, n: nat, resolution: Option<CheckResolution>)
    requires i < |before| && Pristine(nodes, before, works) && Opened(before, after, i, kind, n, resolution)
    requires works <= works' && |works'| == |after| && !IsDirect(nodes, works[i])
    ensures Pristine(nodes, after, works')
  {
    var waiting := before[i := before[i].(state := Waiting(Fresh(kind, n, resolution)))];
    forall k | 0 <= k < |before| ensures after[k] == waiting[k] && works'[k] == works[k] {}
  }

  function RootRewrite(w: World, root: SemanticKey, node: NodeId): WorkKind {
    Rewrite(root.obj, node, root.subject, {root}, 0)
  }

  predicate OperandOfRoot(a: Arena, w: World, root: SemanticKey, node: NodeId, i: WorkId) {
    && i < |a.works| && i < |a.slots| && node < |w.model.nodes| && w.model.nodes[node].IntersectionNode?
    && a.works[i].Rewrite? && a.works[i].node in w.model.nodes[node].nodes
    && a.works[i] == RootRewrite(w, root, a.works[i].node)
    && a.slots[i].parent.Some? && a.slots[i].parent.value.work < |a.works|
    && a.works[a.slots[i].parent.value.work] == RootRewrite(w, root, node)
  }

  lemma {:induction false} FreshIntersectionWaits(r: ReducerState, operand: nat, resolution: CheckResolution)
    requires WellFormed(r) && r.kind == IntersectionOf && |r.outcomes| > 1 && operand < |r.outcomes|
    requires forall j :: 0 <= j < |r.outcomes| ==> r.outcomes[j].None?
    ensures AcceptSpec(r, operand, Ok(Allow(resolution))).1 == Ok(None)
  {
    var outcome: Evaluation := Ok(Allow(resolution));
    var outcomes := r.outcomes[operand := Some(outcome)];
    MissingUpdate(r.outcomes, operand, outcome);
    MissingZero(outcomes);
    MissingZero(r.outcomes);
    assert outcomes[if operand == 0 then 1 else 0].None?;
  }

  lemma {:induction false} NothingDoneIsAlive(slots: seq<WorkSlot>, i: WorkId)
    requires Linked(slots) && i < |slots| && forall k :: 0 <= k < |slots| ==> !slots[k].state.Completed?
    ensures Alive(slots, i)
    decreases i
  {
    if i > 0 {
      assert ChildOf(slots, i, slots[i].parent.value.work, slots[i].parent.value.operand);
      NothingDoneIsAlive(slots, slots[i].parent.value.work);
    }
  }

  /** All the work there is: the root, its intersection, and the intersection's direct operands. */
  lemma {:induction false} WorkOfFatalRoot(
    g: Target, h: bool, a: Arena, busy: Option<WorkId>, open: Option<ParentLink>, w: World, root: SemanticKey, i: WorkId)
    requires GraphOk(g, h, a, busy, open) && g.nodes == w.model.nodes && g.roots == RootNodes(w.model)
    requires FatalRoot(w, root) && Pristine(g.nodes, a.slots, a.works) && i < |a.works|
    requires a.works[0] == Semantic(root, {}, 0)
    ensures var node := w.model.relations[root.relation].root;
            i == 0 || a.works[i] == RootRewrite(w, root, node) || OperandOfRoot(a, w, root, node, i)
    decreases i
  {
    hide SlotsOk; hide Fed; hide OverlapsIn; hide OpenOk;
    var node := w.model.relations[root.relation].root;
    if i > 0 {
      var link := a.slots[i].parent.value;
      assert ChildOf(a.slots, i, link.work, link.operand);
      WorkOfFatalRoot(g, h, a, busy, open, w, root, link.work);
      assert a.slots[link.work].state.Waiting? && !IsDirect(g.nodes, a.works[link.work]);
      assert Begets(g, a.works[link.work], link.operand, a.works[i]);
      if link.work == 0 {
        assert {} + {root} == {root};
      } else {
        assert a.works[link.work] == RootRewrite(w, root, node) by {
          if OperandOfRoot(a, w, root, node, link.work) {
            var j :| 0 <= j < |g.nodes[node].nodes| && g.nodes[node].nodes[j] == a.works[link.work].node;
            assert OverlapsIn(w, root, g.nodes[node].nodes[j]);
            DirectIn(w, root, g.nodes[node].nodes[j]);
            assert false;
          }
        }
      }
    }
  }

  ghost predicate DoomedAt(w: World, slots: seq<WorkSlot>, works: seq<WorkKind>, memo: map<MemoKey, Decision>) {
    && |works| > 0 && works[0].Semantic? && works[0] == Semantic(works[0].key, {}, 0)
    && FatalRoot(w, works[0].key) && memo == map[] && Pristine(w.model.nodes, slots, works)
  }

  /** A slot that is queued, taken in hand or reading is no completion. */
  lemma {:induction false} DoomedStill(
    w: World, slots: seq<WorkSlot>, works: seq<WorkKind>, memo: map<MemoKey, Decision>, i: WorkId, slot: WorkSlot)
    requires i < |slots| && (slot.state.Queued? || slot.state.Processing? || slot.state.Reading?)
    ensures DoomedAt(w, slots, works, memo) ==> DoomedAt(w, slots[i := slot], works, memo)
  {
    hide FatalRoot;
  }

  /** Nor is a slot that starts to wait for operands queued after it. */
  lemma {:induction false} DoomedOpens(
    w: World, before: seq<WorkSlot>, after: seq<WorkSlot>, works: seq<WorkKind>, works': seq<WorkKind>, memo: map<MemoKey, Decision>,
    i: WorkId, kind: ReducerKind, n: nat, resolution: Option<CheckResolution>)
    requires i < |before| && Opened(before, after, i, kind, n, resolution) && i < |works|
    requires works <= works' && |works'| == |after| && !IsDirect(w.model.nodes, works[i])
    ensures DoomedAt(w, before, works, memo) ==> DoomedAt(w, after, works', memo)
  {
    hide FatalRoot; hide Pristine; hide Opened;
    if DoomedAt(w, before, works, memo) {
      OpenedIsPristine(w.model.nodes, before, after, works, works', i, kind, n, resolution);
    }
  }

  lemma {:induction false} DirectIn(w: World, root: SemanticKey, d: NodeId)
    requires OverlapsIn(w, root, d)
    ensures d < |w.model.nodes| && w.model.nodes[d].DirectNode?
  {
  }

  /** Extending the collected candidates by one row. */
  lemma {:induction false} ExtendRows(
    w: World, limit: nat, subject: SubjectRef, relation: RelationId, rows: seq<RelationshipTuple>,
    n: nat, path: Path, vs: seq<Truth>)
    requires ValidModel(w.model) && relation < |w.model.relations| && n < |rows|
    requires Any(vs) == Any(DirectRows(w, limit, subject, relation, rows[..n], path))
    ensures var v := DirectRow(w, limit, subject, relation, rows[n], path);
            && Any(vs + [v]) == Any(DirectRows(w, limit, subject, relation, rows[..n + 1], path))
            && (v == False ==> Any(vs) == Any(DirectRows(w, limit, subject, relation, rows[..n + 1], path)))
  {
    hide GraphCode; hide DirectRow;
    var v := DirectRow(w, limit, subject, relation, rows[n], path);
    var before := DirectRows(w, limit, subject, relation, rows[..n], path);
    assert DirectRows(w, limit, subject, relation, rows[..n + 1], path) == before + [v];
    AnyAppend(vs, [v]);
    AnyAppend(before, [v]);
  }

  lemma {:induction false} ExtendTtuRows(
    w: World, limit: nat, subject: SubjectRef, relation: RelationId, targets: seq<RelationId>,
    rows: seq<RelationshipTuple>, n: nat, path: Path, vs: seq<Truth>, us: seq<Truth>)
    requires ValidModel(w.model) && relation < |w.model.relations| && n < |rows|
    requires Any(vs) == Any(TtuRows(w, limit, subject, relation, targets, rows[..n], path))
    requires Any(us) == TtuRow(w, limit, subject, relation, targets, rows[n], path)
    ensures Any(vs + us) == Any(TtuRows(w, limit, subject, relation, targets, rows[..n + 1], path))
  {
    hide GraphCode; hide TtuRow;
    var v := TtuRow(w, limit, subject, relation, targets, rows[n], path);
    var before := TtuRows(w, limit, subject, relation, targets, rows[..n], path);
    assert TtuRows(w, limit, subject, relation, targets, rows[..n + 1], path) == before + [v];
    AnyAppend(vs, us);
    AnyAppend(before, [v]);
  }

  lemma {:induction false} ExtendTargets(
    w: World, limit: nat, subject: SubjectRef, target: ObjectRef, targets: seq<RelationId>, n: nat, path: Path,
    vs: seq<Truth>)
    requires ValidModel(w.model) && n < |targets|
    requires Any(vs) == Any(TargetValues(w, limit, subject, target, targets[..n], path))
    ensures var v := TargetValue(w, limit, subject, target, targets[n], path);
            && Any(vs + [v]) == Any(TargetValues(w, limit, subject, target, targets[..n + 1], path))
            && (v == False ==> Any(vs) == Any(TargetValues(w, limit, subject, target, targets[..n + 1], path)))
  {
    hide GraphCode; hide TargetValue;
    var v := TargetValue(w, limit, subject, target, targets[n], path);
    var before := TargetValues(w, limit, subject, target, targets[..n], path);
    assert TargetValues(w, limit, subject, target, targets[..n + 1], path) == before + [v];
    AnyAppend(vs, [v]);
    AnyAppend(before, [v]);
  }

  /** A memo entry holds the true value of its key on its branch; the depth is the branch's size. */
  ghost predicate MemoOk(g: Target, memo: map<MemoKey, Decision>) {
    forall k :: k in memo ==>
      g.value(Semantic(k.semantic, k.branchPath, |k.branchPath|)) == FromBool(memo[k].allowed)
  }

  predicate Readable(m: CompiledModel, read: ReadContinuation) {
    match read
    case DirectRead(r, _, _, _, _) => r < |m.relations|
    case TtuRead(r, targets, _, _, _, _) =>
      r < |m.relations| && forall i :: 0 <= i < |targets| ==> targets[i] < |m.relations|
  }

  function ReadRelation(read: ReadContinuation): RelationId {
    if read.DirectRead? then read.relation else read.tupleset
  }

  /** The true value of the work a read belongs to, over the rows the read concerns. */
  ghost function ReadMeaning(w: World, limit: nat, read: ReadContinuation): Truth
    requires ValidModel(w.model) && Readable(w.model, read)
  {
    var rows := Rows(w, read.obj, ReadRelation(read));
    match read
    case DirectRead(r, _, subject, path, _) => Any(DirectRows(w, limit, subject, r, rows, path))
    case TtuRead(r, targets, _, subject, path, _) => Any(TtuRows(w, limit, subject, r, targets, rows, path))
  }

  lemma {:induction false} ReadIsReadable(w: World, limit: nat, work: WorkKind, read: ReadContinuation)
    requires ValidModel(w.model) && Resumes(w.model.nodes, work, read) && DepthIsPathSize(limit, work)
    ensures Readable(w.model, read) && |read.path| == read.depth + 1 && read.depth <= limit
    ensures Meaning(w, limit, work) == ReadMeaning(w, limit, read)
  {
    RewriteMeaning(w, limit, work.obj, work.node, work.subject, work.path, work.depth);
  }

  // ---------------------------------------------------------------------------
  // One unfolding of the meaning of each kind of work
  // ---------------------------------------------------------------------------

  lemma {:induction false} SemanticMeaning(w: World, limit: nat, key: SemanticKey, path: Path, depth: nat)
    requires ValidModel(w.model)
    ensures Meaning(w, limit, Semantic(key, path, depth)) ==
            if |path| > limit then Unknown
            else if key in path then False
            else if SubjectType(key.subject) !in w.model.typeLookup then Unknown
            else if !Reachable(w.model, key.relation, key.subject) then False
            else if key.relation >= |w.model.relations| then Unknown
            else Meaning(w, limit, Rewrite(key.obj, w.model.relations[key.relation].root,
                                           key.subject, path + {key}, depth))
  {
  }

  /** The values of rewrite operands, as work of their own. */
  ghost function NodeMeanings(
    w: World, limit: nat, obj: ObjectRef, subject: SubjectRef, ns: seq<NodeId>, path: Path, depth: nat): (vs: seq<Truth>)
    ensures |vs| == |ns|
    ensures forall i :: 0 <= i < |ns| ==> vs[i] == Meaning(w, limit, Rewrite(obj, ns[i], subject, path, depth))
  {
    seq(|ns|, i requires 0 <= i < |ns| => Meaning(w, limit, Rewrite(obj, ns[i], subject, path, depth)))
  }

  ghost function Unfolded(
    w: World, limit: nat, obj: ObjectRef, node: NodeId, subject: SubjectRef, path: Path, depth: nat): Truth
    requires ValidModel(w.model) && node < |w.model.nodes|
  {
    assert ValidNode(w.model, node, w.model.nodes[node]);
    match w.model.nodes[node]
    case DirectNode(r) => Any(DirectRows(w, limit, subject, r, Rows(w, obj, r), path))
    case ComputedNode(r) => Meaning(w, limit, Semantic(SemanticKey(obj, r, subject), path, depth + 1))
    case TtuNode(r, targets) => Any(TtuRows(w, limit, subject, r, targets, Rows(w, obj, r), path))
    case UnionNode(ns) => Any(NodeMeanings(w, limit, obj, subject, ns, path, depth))
    case IntersectionNode(ns) => All(NodeMeanings(w, limit, obj, subject, ns, path, depth))
    case DifferenceNode(b, s) =>
      var vs := NodeMeanings(w, limit, obj, subject, [b, s], path, depth);
      Minus(vs[0], vs[1])
  }

  lemma {:induction false} RewriteMeaning(
    w: World, limit: nat, obj: ObjectRef, node: NodeId, subject: SubjectRef, path: Path, depth: nat)
    requires ValidModel(w.model) && node < |w.model.nodes|
    ensures ValidNode(w.model, node, w.model.nodes[node])
    ensures Meaning(w, limit, Rewrite(obj, node, subject, path, depth)) ==
            Unfolded(w, limit, obj, node, subject, path, depth)
  {
    assert ValidNode(w.model, node, w.model.nodes[node]);
    match w.model.nodes[node] {
      case UnionNode(ns) =>
        assert EvalNodes(w, limit, obj, subject, node, ns, path) == NodeMeanings(w, limit, obj, subject, ns, path, depth);
      case IntersectionNode(ns) =>
        assert EvalNodes(w, limit, obj, subject, node, ns, path) == NodeMeanings(w, limit, obj, subject, ns, path, depth);
      case _ =>
    }
  }

  function Recorded(memo: map<MemoKey, Decision>, key: Option<MemoKey>, outcome: Evaluation): map<MemoKey, Decision> {
    if key.Some? && outcome.Ok? then memo[key.value := outcome.value] else memo
  }

  /** Recording the exact decision of a semantic slot under its key and branch, without its depth. */
  lemma {:induction false} RecordedIsOk(
    g: Target, h: bool, memo: map<MemoKey, Decision>, slot: WorkSlot, work: WorkKind, outcome: Evaluation)
    requires MemoOk(g, memo) && MemoKeyOk(slot, work) && DepthIsPathSize(g.limit, work)
    requires Exact(h, outcome, g.value(work))
    ensures MemoOk(g, Recorded(memo, slot.memoKey, outcome))
  {
  }

  predicate OperandsAre(nodes: seq<RewriteNode>, node: NodeId, ns: seq<NodeId>) {
    node < |nodes| && forall j :: 0 <= j < |ns| ==> OperandAt(nodes[node], j, ns[j])
  }

  lemma {:induction false} NodeMissing(w: World, limit: nat, work: WorkKind)
    requires work.Rewrite? && work.node >= |w.model.nodes|
    ensures Meaning(w, limit, work) == Unknown
  {
  }

  lemma {:induction false} SemanticIs(w: World, limit: nat, key: SemanticKey, path: Path, depth: nat)
    requires ValidModel(w.model)
    ensures Meaning(w, limit, Semantic(key, path, depth)) == Eval(w, limit, key, path)
  {
  }

  /** The condition an admitted row names is one the model knows. */
  lemma {:induction false} AdmittedConditionKnown(w: World, relation: RelationId, t: RelationshipTuple)
    requires ValidModel(w.model) && relation < |w.model.relations|
    requires RowClass(w, relation, t).Ok? && RowClass(w, relation, t).value.Some? && t.condition.Conditional?
    ensures t.condition.name in w.model.conditionLookup
    ensures w.model.conditionLookup[t.condition.name] < |w.model.conditions|
  {
    var rs := w.model.relations[relation].restrictions;
    AdmittedIff(t, rs, w.model);
    var i :| 0 <= i < |rs| && Admits(w.model, rs[i], t);
    assert ValidRelation(w.model, w.model.relations[relation]);
  }

  /** The two internal errors a run can give. */
  lemma {:induction false} KnownInternalErrors()
    ensures !Broken(ReducerStateError()) && !Broken(InternalError("datastore_read_task_failed"))
  {
  }

  lemma {:induction false} AnyErrorIsExact(e: CheckError, v: Truth)
    requires !Broken(e)
    ensures Exact(true, Err(e), v)
  {
  }

  lemma {:induction false} CombineSingle(v: Truth)
    ensures Combine(SingleOf, [v]) == v
  {
  }

  lemma {:induction false} RememberQueues(slots: seq<WorkSlot>, i: WorkId, key: MemoKey, ready: seq<WorkId>, inflight: set<WorkId>)
    requires i < |slots| && QueuesOk(slots, ready, inflight, Some(i))
    ensures QueuesOk(slots[i := slots[i].(memoKey := Some(key))], ready, inflight, Some(i))
    ensures Pending(slots[i := slots[i].(memoKey := Some(key))]) == Pending(slots)
    ensures Childless(slots, i) ==> Childless(slots[i := slots[i].(memoKey := Some(key))], i)
  {
    var after := slots[i := slots[i].(memoKey := Some(key))];
    QueuesSame(slots, after, ready, inflight, Some(i), Some(i));
    PendingUpdate(slots, i, after[i]);
    forall c: nat, p: nat, j: nat ensures ChildOf(after, c, p, j) <==> ChildOf(slots, c, p, j) {}
  }

  lemma {:induction false} OneQueuedIsPristine(nodes: seq<RewriteNode>, slots: seq<WorkSlot>, works: seq<WorkKind>)
    requires |slots| == |works| == 1 && slots[0].state.Queued?
    ensures Pristine(nodes, slots, works)
  {
  }

  lemma {:induction false} QueuesFacts(slots: seq<WorkSlot>, ready: seq<WorkId>, inflight: set<WorkId>, i: WorkId)
    requires QueuesOk(slots, ready, inflight, None) && i in inflight
    ensures i < |slots| && slots[i].state.Reading?
  {
  }

  lemma {:induction false} FreshSize(kind: ReducerKind, n: nat, resolution: Option<CheckResolution>)
    ensures |Fresh(kind, n, resolution).outcomes| == n
  {
  }

  class Scheduler {
    const world: World
    const budget: CheckBudget
    const metered: bool
    ghost const goal: Target
    var counters: Counters
    var cycles: nat
    var maximumDepth: nat
    var memo: map<MemoKey, Decision>
    var slots: seq<WorkSlot>
    var ready: seq<WorkId>
    var inflight: set<WorkId>
    var rootResult: Option<Evaluation>
    ghost var works: seq<WorkKind>
    ghost var ops: seq<seq<Truth>>
    /** The environment got in the way: cancellation, deadline, a failed read, a refused meter. */
    ghost var interfered: bool
    /** Tuples whose condition met an exhausted budget, or cost more than was left of it. */
    ghost var starved: set<RelationshipTuple>
    ghost var rowsSeen: nat
    ghost var rowsHanded: nat
    ghost var readsStarted: nat
    /** What the shared meter granted and refused this root. */
    ghost var ledger: WorkMeter.Ledger

    /** The graph's target is the branch-path evaluation of this world. */
    ghost predicate Configured() {
      && ValidModel(world.model) && ValidBudget(budget)
      && goal.nodes == world.model.nodes && goal.roots == RootNodes(world.model) && goal.limit == budget.depth
      && forall work :: goal.value(work) == Meaning(world, budget.depth, work)
    }

    ghost function Graph(): Arena
      reads this`slots, this`works, this`ops
    {
      Arena(slots, works, ops)
    }

    ghost predicate Hindered()
      reads this`interfered, this`starved, this`counters, this`rowsSeen
    {
      || interfered || starved != {}
      || counters.dispatches > budget.dispatches
      || counters.datastoreQueries > budget.datastoreQueries
      || rowsSeen > budget.tupleItems
    }

    ghost predicate SlotBudgetOk()
      reads this`slots, this`counters, this`ledger
    {
      && |slots| <= counters.dispatches <= U32_MAX && |slots| <= budget.dispatches
      && AtMost(counters.dispatches, budget.dispatches) == |slots| + ledger.refused.dispatches
      && (metered ==> |slots| == ledger.granted.dispatches)
    }

    static function AtMost(n: nat, limit: nat): nat {
      if n <= limit then n else limit
    }

    ghost predicate WorkBudgetOk()
      reads this`inflight, this`counters, this`starved, this`rowsSeen, this`rowsHanded, this`readsStarted, this`ledger
    {
      && ValidBudget(budget)
      && readsStarted <= counters.datastoreQueries <= U32_MAX && readsStarted <= budget.datastoreQueries
      && AtMost(counters.datastoreQueries, budget.datastoreQueries) == readsStarted + ledger.refused.queries
      && (metered ==> readsStarted == ledger.granted.queries && rowsHanded <= ledger.granted.items)
      && (!metered ==> ledger == WorkMeter.Ledger(WorkMeter.NO_WORK, WorkMeter.NO_WORK))
      && rowsHanded <= counters.tupleItems && rowsHanded <= budget.tupleItems
      && counters.tupleItems <= rowsSeen && counters.tupleItems <= U32_MAX
      && counters.conditionCost <= budget.conditionCost
      && |inflight| <= budget.concurrentReads
      && StarvedOk(starved, counters.conditionCost)
    }

    /** A condition was starved only by a budget that is spent, or too small for its own cost. */
    ghost predicate StarvedOk(starved: set<RelationshipTuple>, spent: nat) {
      forall t :: t in starved ==>
        || spent == budget.conditionCost
        || (world.verdict(t).Evaluated? && spent + world.verdict(t).cost > budget.conditionCost)
    }

    /** All limits hold; every attempt within a limit became work or was refused by the meter, and a
        metered root did exactly what it was granted. */
    ghost predicate BudgetOk()
      reads this`slots, this`inflight, this`counters, this`starved, this`rowsSeen, this`rowsHanded, this`readsStarted, this`ledger
    {
      SlotBudgetOk() && WorkBudgetOk()
    }

    ghost function Performed(): WorkMeter.Work
      reads this`slots, this`readsStarted, this`rowsHanded
    {
      WorkMeter.Work(|slots|, readsStarted, rowsHanded)
    }

    ghost function Report(): Usage
      reads this
    {
      Usage(interfered, starved, counters, rowsSeen, Performed(), ledger.granted)
    }

    lemma {:induction false} ReportIsTrue()
      requires BudgetOk()
      ensures HinderedBy(Report(), budget) <==> Hindered()
      ensures WithinBudget(Report(), budget, metered)
    {
    }

    ghost predicate RootOk()
      reads this
    {
      && |slots| > 0 && |works| == |slots| && works[0].Semantic?
      && (rootResult.Some? <==> Done(slots, 0))
      && (rootResult.Some? ==> Exact(Hindered(), rootResult.value, goal.value(works[0])))
    }

    /** The whole invariant: `busy` is the slot whose state is in flux, `held` the slot taken
        out of its queue, `open` the slot whose operands are still being scheduled. */
    ghost predicate Inv(busy: Option<WorkId>, held: Option<WorkId>, open: Option<ParentLink>)
      reads this
    {
      && BudgetOk()
      && GraphOk(goal, Hindered(), Graph(), busy, open)
      && QueuesOk(slots, ready, inflight, held)
      && MemoOk(goal, memo)
      && RootOk()
    }

    ghost function MeasureOf(slots: seq<WorkSlot>): int {
      4 * (budget.dispatches - |slots|) + Pending(slots)
    }

    ghost function Measure(): int
      reads this`slots
    {
      MeasureOf(slots)
    }

    lemma {:induction false} MeasureSame(slots: seq<WorkSlot>, i: WorkId, state: WorkState)
      requires i < |slots|
      ensures MeasureOf(slots[i := slots[i].(state := state)])
              == MeasureOf(slots) + Stage(state) - Stage(slots[i].state)
    {
      PendingUpdate(slots, i, slots[i].(state := state));
    }

    /** The environment or a budget explains the error, or two rows answered one slot at once. */
    ghost predicate Explained(e: CheckError, subject: SubjectRef)
      reads this
    {
      !Broken(e) && (Hindered() || (e == ReducerStateError() && Overlapping(world, subject)))
    }

    /** The query is of the fatal class and no read has finished yet. */
    ghost predicate Doomed()
      reads this`slots, this`works, this`memo
    {
      DoomedAt(world, slots, works, memo)
    }

    twostate predicate KeepsDoom()
      reads this
    {
      old(Doomed()) && !Hindered() ==> Doomed()
    }

    /** Which work is there in a doomed run. */
    lemma {:induction false} DoomedWork(i: WorkId, busy: Option<WorkId>, open: Option<ParentLink>)
      requires Configured() && GraphOk(goal, Hindered(), Graph(), busy, open) && Doomed() && i < |works|
      ensures works[0].Semantic? && works[0] == Semantic(works[0].key, {}, 0) && memo == map[]
      ensures SubjectType(works[0].key.subject) in world.model.typeLookup
      ensures Reachable(world.model, works[0].key.relation, works[0].key.subject)
      ensures works[0].key.relation < |world.model.relations|
      ensures world.model.relations[works[0].key.relation].root < |world.model.nodes|
      ensures works[i].Semantic? ==> i == 0
      ensures works[i].Rewrite? ==> i > 0 && works[i].node < |world.model.nodes|
                                    && (world.model.nodes[works[i].node].IntersectionNode? || IsDirect(world.model.nodes, works[i]))
    {
      hide GraphOk; hide Pristine; hide Meaning; hide OverlapsIn;
      WorkOfFatalRoot(goal, Hindered(), Graph(), busy, open, world, works[0].key, i);
      var node := world.model.relations[works[0].key.relation].root;
      if i > 0 && OperandOfRoot(Graph(), world, works[0].key, node, i) {
        var j :| 0 <= j < |goal.nodes[node].nodes| && goal.nodes[node].nodes[j] == works[i].node;
        DirectIn(world, works[0].key, goal.nodes[node].nodes[j]);
      }
    }

    lemma {:induction false} DoomedIsAlive(i: WorkId)
      requires Linked(slots) && i < |slots| && Doomed()
      ensures Alive(slots, i)
    {
      NothingDoneIsAlive(slots, i);
    }

    lemma {:induction false} DoomedHasNoResult()
      requires RootOk() && Doomed()
      ensures rootResult.None?
    {
    }

    /** In a doomed run every read in flight is fatal. */
    lemma {:induction false} DoomedReads(i: WorkId)
      requires Configured() && GraphOk(goal, Hindered(), Graph(), None, None) && Doomed()
      requires i < |slots| && slots[i].state.Reading?
      ensures FatalRead(world, slots, i, slots[i].state.continuation)
    {
      hide Meaning; hide Overlap; hide Rows; hide Fed; hide Combine; hide ValidModel;
      WorkOfFatalRoot(goal, Hindered(), Graph(), None, None, world, works[0].key, i);
      var root := works[0].key;
      var node := world.model.relations[root.relation].root;
      assert Resumes(goal.nodes, works[i], slots[i].state.continuation);
      assert OperandOfRoot(Graph(), world, root, node, i);
      var j :| 0 <= j < |goal.nodes[node].nodes| && goal.nodes[node].nodes[j] == works[i].node;
      assert OverlapsIn(world, root, goal.nodes[node].nodes[j]);
      var link := slots[i].parent.value;
      assert ChildOf(slots, i, link.work, link.operand);
      assert StateOk(goal, Hindered(), slots[link.work].state, works[link.work], ops[link.work]);
      FreshIntersectionWaits(slots[link.work].state.reducer, link.operand, Direct);
      NothingDoneIsAlive(slots, i);
    }

    twostate predicate Evolves()
      reads this
    {
      && old(works) <= works
      && (old(Hindered()) ==> Hindered())
      && Continues(old(slots), slots)
      && old(ready) <= ready
      && old(inflight) <= inflight
    }

    constructor (world: World, budget: CheckBudget, metered: bool)
      requires ValidModel(world.model) && ValidBudget(budget)
      ensures this.world == world && this.budget == budget && this.metered == metered && Configured()
      ensures BudgetOk() && slots == [] && works == [] && ops == [] && ready == [] && inflight == {}
      ensures memo == map[] && rootResult == None && !Hindered()
    {
      this.world := world;
      this.budget := budget;
      this.metered := metered;
      goal := Target(work => Meaning(world, budget.depth, work), world.model.nodes, RootNodes(world.model), budget.depth);
      counters := Counters(0, 0, 0, 0);
      cycles, maximumDepth, memo := 0, 0, map[];
      slots, ready, inflight, rootResult := [], [], {}, None;
      works, ops, interfered, starved := [], [], false, {};
      rowsSeen, rowsHanded, readsStarted := 0, 0, 0;
      ledger := WorkMeter.Ledger(WorkMeter.NO_WORK, WorkMeter.NO_WORK);
    }

    // -------------------------------------------------------------------------
    // Environment
    // -------------------------------------------------------------------------

    /** Cancellation and deadline: the environment decides. */
    method CheckContext() returns (r: Result<()>)
      modifies this`interfered
      ensures r.Ok? ==> interfered == old(interfered)
      ensures r.Err? ==> interfered && !Broken(r.error)
    {
      if * {
        interfered := true;
        return Err(CheckError(Cancelled, "check_cancelled"));
      } else if * {
        interfered := true;
        return Err(CheckError(Timeout, "check_deadline_elapsed"));
      }
      return Ok(());
    }

    /** A shared work meter, charged concurrently by other roots, grants the amount or refuses it. */
    method MeterRefuses(resource: WorkMeter.Resource, amount: nat) returns (refused: bool)
      modifies this`interfered, this`ledger
      ensures refused ==> metered && interfered
      ensures !refused ==> interfered == old(interfered)
      ensures ledger == if metered then WorkMeter.Booked(old(ledger), resource, amount, !refused) else old(ledger)
    {
      refused := false;
      if metered {
        if * {
          interfered := true;
          refused := true;
        }
        ledger := WorkMeter.Booked(ledger, resource, amount, !refused);
      }
    }

    // -------------------------------------------------------------------------
    // Slots
    // -------------------------------------------------------------------------

    /** Charges one dispatch to the root and to the shared meter; the caller creates its slot. */
    method ChargeDispatch() returns (admitted: bool)
      requires BudgetOk()
      modifies this`counters, this`interfered, this`ledger
      ensures WorkBudgetOk() && counters == old(counters).(dispatches := counters.dispatches)
      ensures old(Hindered()) ==> Hindered()
      ensures !admitted ==> BudgetOk() && Hindered()
      ensures admitted ==>
                && interfered == old(interfered) && (Hindered() ==> old(Hindered()))
                && counters.dispatches == |slots| + 1 + ledger.refused.dispatches <= budget.dispatches
                && (metered ==> ledger.granted.dispatches == |slots| + 1)
    {
      hide StarvedOk;
      if counters.dispatches == U32_MAX {
        return false;
      }
      counters := counters.(dispatches := counters.dispatches + 1);
      if counters.dispatches > budget.dispatches {
        return false;
      }
      var refused := MeterRefuses(WorkMeter.Dispatches, 1);
      return !refused;
    }

    method Schedule(kind: WorkKind, parent: Option<ParentLink>) returns (r: Result<WorkId>)
      requires BudgetOk()
      modifies this`counters, this`slots, this`ready, this`works, this`ops, this`interfered, this`ledger
      ensures BudgetOk()
      ensures counters == old(counters).(dispatches := counters.dispatches)
      ensures old(Hindered()) ==> Hindered()
      ensures r.Err? ==> r.error == DispatchError() && Hindered()
                         && slots == old(slots) && ready == old(ready) && works == old(works) && ops == old(ops)
      ensures r.Ok? ==>
                && r.value == |old(slots)| && interfered == old(interfered)
                && slots == old(slots) + [WorkSlot(parent, None, Queued(kind))]
                && ready == old(ready) + [|old(slots)|]
                && works == old(works) + [kind] && ops == old(ops) + [[]]
                && (Hindered() ==> old(Hindered()))
    {
      var admitted := ChargeDispatch();
      if !admitted {
        return Err(DispatchError());
      }
      hide StarvedOk;
      assert counters.dispatches <= U32_MAX;
      var id := |slots|;
      slots := slots + [WorkSlot(parent, None, Queued(kind))];
      ready := ready + [id];
      works, ops := works + [kind], ops + [[]];
      return Ok(id);
    }

    /** Whether every proper ancestor of the slot is still at work; the slot itself is skipped. */
    method IsActive(i: WorkId) returns (r: Result<bool>)
      requires Linked(slots) && i < |slots|
      ensures r == Ok(Alive(slots, i))
    {
      var current: Option<WorkId> := Some(i);
      while current.Some?
        invariant current.Some? ==> current.value <= i
        invariant current.Some? ==>
                    (Alive(slots, i) <==>
                       (current.value == i || !Done(slots, current.value)) && Alive(slots, current.value))
        invariant current.None? ==> Alive(slots, i)
        decreases if current.Some? then current.value + 1 else 0
      {
        var id := current.value;
        if id >= |slots| {
          return Err(InternalError("work_slot_invalid"));
        }
        if id != i && slots[id].state.Completed? {
          return Ok(false);
        }
        if slots[id].parent.Some? {
          var link := slots[id].parent.value;
          assert ChildOf(slots, id, link.work, link.operand);
          current := Some(link.work);
        } else {
          current := None;
        }
      }
      return Ok(true);
    }

    /** Completes one slot, records its decision and hands its outcome to its parent; returns
        the parent and its outcome when that settles it. */
    method CompleteOne(
      i: WorkId, outcome: Evaluation, ghost held: Option<WorkId>, ghost open: Option<ParentLink>)
      returns (r: Settlement)
      requires Inv(Some(i), held, open) && Exact(Hindered(), outcome, goal.value(works[i]))
      requires held.Some? ==> held == Some(i)
      requires rootResult.None?
      modifies this`slots, this`memo, this`rootResult
      ensures (slots, r) == Settle(old(slots), i, outcome)
      ensures r.Ok? && Continues(old(slots), slots) && |slots| == |old(slots)|
      ensures Done(slots, i) && Measure() < old(Measure())
      ensures r.value.None? ==> Inv(None, None, open)
      ensures r.value.Some? ==>
                && r.value.value.0 < i && rootResult.None? && Inv(Some(r.value.value.0), None, open)
                && Exact(Hindered(), r.value.value.1, goal.value(works[r.value.value.0]))
    {
      hide GraphCode; hide Pending; hide GraphOk; hide Linked; hide QueuesOk; hide WorkBudgetOk; hide MemoOk; hide Settle; hide Recorded;
      hide Exact; hide Continues;
      GraphFacts(goal, Hindered(), Graph(), Some(i), open);
      SettleIsSound(goal, Hindered(), Graph(), i, outcome, open);
      SettleQueues(slots, i, outcome, ready, inflight, held);
      var parent, memoKey := slots[i].parent, slots[i].memoKey;
      RecordedIsOk(goal, Hindered(), memo, slots[i], works[i], outcome);
      var (settled, next) := Settle(slots, i, outcome);
      slots := settled;
      memo := Recorded(memo, memoKey, outcome);
      if parent.None? {
        rootResult := Some(outcome);
      }
      return next;
    }

    /** Completes the slot in hand and every ancestor its answer settles. */
    method Complete(i: WorkId, outcome: Evaluation, ghost held: Option<WorkId>, ghost open: Option<ParentLink>)
      returns (r: Result<()>)
      requires Inv(Some(i), held, open) && Exact(Hindered(), outcome, goal.value(works[i]))
      requires held.Some? ==> held == Some(i)
      requires rootResult.None?
      modifies this`slots, this`memo, this`rootResult
      ensures r.Ok? && Inv(None, None, open) && Evolves()
      ensures Done(slots, i) && Measure() < old(Measure())
      ensures Settle(old(slots), i, outcome).1.Ok?
      ensures Settle(old(slots), i, outcome).1 == Ok(None) ==> slots == Settle(old(slots), i, outcome).0
      ensures var first := Settle(old(slots), i, outcome).1;
              first.Ok? && first.value.Some? ==> Done(slots, first.value.value.0)
    {
      hide GraphCode; hide Pending; hide GraphOk; hide Linked; hide QueuesOk; hide MemoOk; hide BudgetOk; hide Settle;
      var settled: Settlement := CompleteOne(i, outcome, held, open);
      assert settled.Ok?;
      ghost var first := settled.value;
      while settled.value.Some?
        invariant settled.Ok? && Continues(old(slots), slots) && Done(slots, i) && Measure() < old(Measure())
        invariant settled.value.None? ==> Inv(None, None, open)
        invariant Settle(old(slots), i, outcome).1 == Ok(first)
        invariant first.None? ==> settled.value.None? && slots == Settle(old(slots), i, outcome).0
        invariant first.Some? ==> settled.value == first || Done(slots, first.value.0)
        invariant settled.value.Some? ==>
                    && rootResult.None? && settled.value.value.0 < i && |slots| == |old(slots)| && Inv(Some(settled.value.value.0), None, open)
                    && Exact(Hindered(), settled.value.value.1, goal.value(works[settled.value.value.0]))
        decreases if settled.value.Some? then settled.value.value.0 + 1 else 0
      {
        settled := CompleteOne(settled.value.value.0, settled.value.value.1, None, open);
        assert settled.Ok?;
      }
      return Ok(());
    }

    // -------------------------------------------------------------------------
    // Operands
    // -------------------------------------------------------------------------

    lemma {:induction false} GoalIs(work: WorkKind)
      requires Configured()
      ensures goal.value(work) == Meaning(world, budget.depth, work)
    {
    }

    /** The slot that is scheduling its operands: still waiting with these true values, or done. */
    ghost predicate Scheduling(i: WorkId, operand: nat, vs: seq<Truth>)
      reads this
    {
      && Inv(None, None, Some(ParentLink(i, operand)))
      && i < |slots| && i < |ops| && ops[i] == vs && operand <= |vs|
      && (slots[i].state.Waiting? || slots[i].state.Completed?)
      && (slots[i].state.Waiting? ==> |slots[i].state.reducer.outcomes| == |vs|)
    }

    /** Completes a waiting slot: only the slot itself is done when its parent keeps waiting, and the
        parent is done too when it does not. */
    method CompleteWaiting(i: WorkId, outcome: Evaluation, ghost open: Option<ParentLink>)
      requires Inv(Some(i), None, open) && Exact(Hindered(), outcome, goal.value(works[i])) && rootResult.None?
      modifies this`slots, this`memo, this`rootResult
      ensures Inv(None, None, open) && Evolves() && Done(slots, i) && Measure() < old(Measure())
      ensures ParentWaitsOn(old(slots), i, outcome) ==>
                |slots| == |old(slots)| && forall k: nat :: k != i ==> (Done(slots, k) <==> Done(old(slots), k))
      ensures i > 0 && !ParentWaitsOn(old(slots), i, outcome) ==> ParentIsDone(slots, i)
    {
      hide GraphCode; hide Pending; hide GraphOk; hide QueuesOk; hide MemoOk; hide BudgetOk; hide Settle; hide ParentWaitsOn;
      ghost var before := slots;
      GraphFacts(goal, Hindered(), Graph(), Some(i), open);
      var done := Complete(i, outcome, None, open);
      assert done.Ok?;
      if ParentWaitsOn(before, i, outcome) {
        SettleStops(before, i, outcome);
      } else if i > 0 {
        assert ChildOf(before, i, before[i].parent.value.work, before[i].parent.value.operand);
        SettleReaches(before, i, outcome);
      }
    }

    /** Answers one operand of a waiting slot directly. A slot that is already completed
        cannot take another operand: that is an internal error of the run. */
    method AcceptOperand(i: WorkId, operand: nat, outcome: Evaluation, ghost vs: seq<Truth>) returns (r: Result<()>)
      requires Scheduling(i, operand, vs) && operand < |vs| && rootResult.None?
      requires Exact(Hindered(), outcome, vs[operand])
      modifies this`slots, this`memo, this`rootResult
      ensures BudgetOk()
      ensures r.Ok? <==> old(slots[i].state.Waiting?)
      ensures r.Ok? ==> Scheduling(i, operand + 1, vs) && Evolves() && Measure() <= old(Measure())
      ensures r.Ok? ==>
                var (reducer, reduction) := AcceptSpec(old(slots[i].state.reducer), operand, outcome);
                && reduction.Ok?
                && slots[i].state == (if reduction.value.None? then Waiting(reducer) else Completed)
                && (reduction.value.None? ==> slots == old(slots)[i := old(slots)[i].(state := Waiting(reducer))])
                && (reduction.value.Some? && ParentWaitsOn(old(slots), i, reduction.value.value) ==>
                      |slots| == |old(slots)| && forall k: nat :: k != i ==> (Done(slots, k) <==> Done(old(slots), k)))
                && (reduction.value.Some? && i > 0 && !ParentWaitsOn(old(slots), i, reduction.value.value) ==>
                      ParentIsDone(slots, i))
      ensures r.Err? ==> r.error == ReducerStateError()
    {
      hide GraphCode; hide Pending; hide GraphOk; hide Linked; hide QueuesOk; hide MemoOk; hide WorkBudgetOk; hide AcceptSpec; hide MeasureOf; hide Exact; hide ExactAll; hide WellFormed; hide Combine;
      hide Continues;
      ghost var a, link := Graph(), ParentLink(i, operand);
      match slots[i].state {
        case Waiting(reducer) =>
          WaitingFacts(goal, Hindered(), a, link);
          AcceptIsExact(Hindered(), reducer, vs, operand, outcome);
          var (reducer', reduction) := AcceptSpec(reducer, operand, outcome);
          MeasureSame(slots, i, Waiting(reducer'));
          QueuesSame(slots, WithState(a, i, Waiting(reducer')).slots, ready, inflight, None, None);
          StateContinues(slots, i, Waiting(reducer'));
          slots := slots[i := slots[i].(state := Waiting(reducer'))];
          ghost var waiting := slots;
          assert reduction.Ok?;
          if reduction.value.Some? {
            AnswerFinal(goal, Hindered(), a, link, reducer');
            ParentWaitsStill(a.slots, i, Waiting(reducer'), reduction.value.value);
            CompleteWaiting(i, reduction.value.value, Some(ParentLink(i, operand + 1)));
            ContinuesOn(a.slots, waiting, slots);
            r := Ok(());
          } else {
            AnswerPartial(goal, Hindered(), a, link, outcome);
            r := Ok(());
          }
        case _ =>
          return Err(ReducerStateError());
      }
    }

    /** Creates the slot of one operand, or answers the operand with the budget's error. */
    method ScheduleChildOrError(i: WorkId, operand: nat, kind: WorkKind, ghost vs: seq<Truth>) returns (r: Result<()>)
      requires Scheduling(i, operand, vs) && operand < |vs| && rootResult.None?
      requires DepthIsPathSize(goal.limit, kind) && goal.value(kind) == vs[operand]
      requires Begets(goal, works[i], operand, kind)
      modifies this`counters, this`slots, this`ready, this`works, this`ops, this`interfered, this`ledger, this`memo, this`rootResult
      ensures BudgetOk()
      ensures r.Ok? ==> Scheduling(i, operand + 1, vs) && Evolves() && Measure() <= old(Measure())
      ensures !Hindered() ==>
                && slots == old(slots) + [WorkSlot(Some(ParentLink(i, operand)), None, Queued(kind))]
                && works == old(works) + [kind] && memo == old(memo) && rootResult == old(rootResult)
      ensures r.Err? ==> Hindered() && !Broken(r.error)
    {
      hide GraphCode; hide Pending; hide GraphOk; hide Linked; hide QueuesOk; hide MemoOk; hide WorkBudgetOk; hide Exact; hide AcceptSpec;
      hide Begets;
      ghost var a, h := Graph(), Hindered();
      var link := ParentLink(i, operand);
      GraphFacts(goal, h, a, None, Some(link));
      var id := Schedule(kind, Some(link));
      if id.Ok? {
        var slot := WorkSlot(Some(link), None, Queued(kind));
        PendingAppend(a.slots, slot);
        Push(goal, h, a, link, kind);
        QueuesPush(a.slots, slot, old(ready), inflight);
        return Ok(());
      }
      Hinder(goal, h, true, a, None, Some(link));
      AnyErrorIsExact(id.error, vs[operand]);
      KnownInternalErrors();
      r := AcceptOperand(i, operand, Err(id.error), vs);
    }

    /** The slot in hand starts to wait for operands with the given true values. */
    method AwaitOperands(i: WorkId, kind: ReducerKind, n: nat, resolution: Option<CheckResolution>, ghost vs: seq<Truth>)
      requires Inv(Some(i), Some(i), None) && Childless(slots, i) && slots[i].state.Processing?
      requires n == |vs| && ArityOk(kind, n) && Combine(kind, vs) == goal.value(works[i])
      requires KindFits(goal, works[i], kind, n)
      modifies this`slots, this`ops
      ensures Scheduling(i, 0, vs) && Measure() < old(Measure())
      ensures slots == old(slots)[i := old(slots)[i].(state := Waiting(Fresh(kind, n, resolution)))]
    {
      hide GraphCode; hide Pending; hide GraphOk; hide Linked; hide QueuesOk; hide MemoOk; hide WorkBudgetOk; hide Combine; hide Fresh;
      ghost var a := Graph();
      GraphFacts(goal, Hindered(), a, Some(i), None);
      var state := Waiting(Fresh(kind, n, resolution));
      FreshSize(kind, n, resolution);
      Await(goal, Hindered(), a, i, kind, resolution, vs);
      MeasureSame(slots, i, state);
      QueuesSame(slots, WithState(a, i, state).slots, ready, inflight, Some(i), None);
      slots := slots[i := slots[i].(state := state)];
      ops := ops[i := vs];
    }

    /** The scheduling loop ends: all operands are scheduled, or the slot is no longer wanted. */
    ghost method CloseSlot(i: WorkId, operand: nat, vs: seq<Truth>)
      requires Scheduling(i, operand, vs) && (operand == |vs| || !Alive(slots, i))
      ensures Inv(None, None, None)
    {
      hide GraphCode; hide QueuesOk; hide MemoOk; hide BudgetOk;
      Close(goal, Hindered(), Graph(), ParentLink(i, operand));
    }

    method StartRewriteChildren(
      i: WorkId, work: WorkKind, ns: seq<NodeId>, kind: ReducerKind, resolution: CheckResolution)
      returns (r: Result<()>)
      requires Configured() && Inv(Some(i), Some(i), None) && Childless(slots, i) && slots[i].state.Processing?
      requires work.Rewrite? && works[i] == work && rootResult.None? && ArityOk(kind, |ns|)
      requires Combine(kind, NodeMeanings(world, budget.depth, work.obj, work.subject, ns, work.path, work.depth))
               == goal.value(work)
      requires KindFits(goal, work, kind, |ns|) && OperandsAre(goal.nodes, work.node, ns)
      modifies this`counters, this`slots, this`ready, this`works, this`ops, this`interfered, this`ledger, this`memo, this`rootResult
      ensures BudgetOk()
      ensures r.Ok? ==> Inv(None, None, None) && Evolves() && Measure() < old(Measure())
      ensures !Hindered() ==>
                Opened(old(slots), slots, i, kind, |ns|, Some(resolution)) && memo == old(memo) && rootResult == old(rootResult)
      ensures r.Err? ==> Hindered() && !Broken(r.error)
    {
      hide GraphCode; hide Pending; hide GraphOk; hide Linked; hide QueuesOk; hide MemoOk; hide WorkBudgetOk; hide Exact; hide Combine; hide Configured; hide Meaning;
      GraphFacts(goal, Hindered(), Graph(), Some(i), None);
      ghost var vs := NodeMeanings(world, budget.depth, work.obj, work.subject, ns, work.path, work.depth);
      AwaitOperands(i, kind, |ns|, Some(resolution), vs);
      var operand;
      r, operand := ScheduleRewrites(i, work, ns, vs);
      if r.Ok? {
        CloseSlot(i, operand, vs);
      }
    }

    /** Schedules the operand nodes one by one while the slot is still wanted. */
    method ScheduleRewrites(i: WorkId, work: WorkKind, ns: seq<NodeId>, ghost vs: seq<Truth>)
      returns (r: Result<()>, operand: nat)
      requires Configured() && Scheduling(i, 0, vs) && work.Rewrite? && works[i] == work && DepthIsPathSize(goal.limit, work)
      requires vs == NodeMeanings(world, budget.depth, work.obj, work.subject, ns, work.path, work.depth)
      requires OperandsAre(goal.nodes, work.node, ns)
      modifies this`counters, this`slots, this`ready, this`works, this`ops, this`interfered, this`ledger, this`memo, this`rootResult
      ensures BudgetOk()
      ensures r.Ok? ==> Scheduling(i, operand, vs) && Evolves() && Measure() <= old(Measure())
      ensures r.Ok? ==> operand == |vs| || !Alive(slots, i)
      ensures !Hindered() ==> old(slots) <= slots && memo == old(memo) && rootResult == old(rootResult)
      ensures !Hindered() ==> forall k :: |old(slots)| <= k < |slots| ==> slots[k].state.Queued?
      ensures r.Err? ==> Hindered() && !Broken(r.error)
    {
      hide GraphCode; hide Pending; hide GraphOk; hide Linked; hide QueuesOk; hide MemoOk; hide WorkBudgetOk; hide Exact;
      hide Configured; hide Meaning;
      operand := 0;
      while operand < |ns|
        invariant 0 <= operand <= |ns| && Scheduling(i, operand, vs)
        invariant Evolves() && Measure() <= old(Measure())
        invariant works[i] == work
        invariant !Hindered() ==> old(slots) <= slots && memo == old(memo) && rootResult == old(rootResult)
        invariant !Hindered() ==> forall k :: |old(slots)| <= k < |slots| ==> slots[k].state.Queued?
      {
        GraphFacts(goal, Hindered(), Graph(), None, Some(ParentLink(i, operand)));
        var active := IsActive(i);
        assert active.Ok?;
        if !active.value {
          break;
        }
        AliveHasLiveRoot(slots, i);
        var child := Rewrite(work.obj, ns[operand], work.subject, work.path, work.depth);
        GoalIs(child);
        r := ScheduleChildOrError(i, operand, child, vs);
        if r.Err? {
          return;
        }
        operand := operand + 1;
      }
      r := Ok(());
    }

    // -------------------------------------------------------------------------
    // Processing one ready slot
    // -------------------------------------------------------------------------

    /** A memo entry may leave out the depth: a semantic item's depth is the size of its branch, so a
        hit is what evaluating the item again under the same depth limit gives. */
    lemma {:induction false} MemoHitIsExact(i: WorkId, busy: Option<WorkId>, held: Option<WorkId>, open: Option<ParentLink>)
      requires Configured() && Inv(busy, held, open) && i < |works| && works[i].Semantic?
      requires MemoKey(works[i].key, works[i].path) in memo
      ensures works[i].depth == |works[i].path| && ValidModel(world.model)
      ensures Eval(world, budget.depth, works[i].key, works[i].path)
              == FromBool(memo[MemoKey(works[i].key, works[i].path)].allowed)
    {
      assert ValidModel(world.model) && goal.limit == budget.depth by { ConfiguredFacts(); }
      GraphFacts(goal, Hindered(), Graph(), busy, open);
      assert DepthIsPathSize(goal.limit, works[i]);
      GoalIs(works[i]);
      SemanticIs(world, budget.depth, works[i].key, works[i].path, works[i].depth);
    }

    /** Answers a semantic key from the depth limit, the memo or the branch itself, or expands it. */
    method ProcessSemantic(i: WorkId, work: WorkKind) returns (r: Result<()>)
      requires Configured() && Inv(Some(i), Some(i), None) && Childless(slots, i) && slots[i].state.Processing?
      requires work.Semantic? && works[i] == work && rootResult.None?
      modifies this`counters, this`cycles, this`maximumDepth, this`slots, this`ready, this`works, this`ops,
               this`interfered, this`ledger, this`memo, this`rootResult
      ensures BudgetOk()
      ensures r.Ok? ==> Inv(None, None, None) && Evolves() && Measure() < old(Measure())
      ensures r.Ok? ==> KeepsDoom()
      ensures r.Err? ==> Hindered() && !Broken(r.error)
    {
      hide GraphCode; hide Pending; hide GraphOk; hide Linked; hide QueuesOk; hide WorkBudgetOk; hide Configured; hide Meaning;
      GraphFacts(goal, Hindered(), Graph(), Some(i), None);
      hide DoomedAt;
      assert ValidModel(world.model) && goal.limit == budget.depth by { ConfiguredFacts(); }
      if Doomed() {
        DoomedWork(i, Some(i), None);
      }
      GoalIs(work);
      SemanticMeaning(world, budget.depth, work.key, work.path, work.depth);
      if work.depth > budget.depth {
        r := Complete(i, Err(DepthExceededError()), Some(i), None);
        return;
      }
      maximumDepth := if maximumDepth < work.depth then work.depth else maximumDepth;
      var memoKey := MemoKey(work.key, work.path);
      if memoKey in memo {
        r := Complete(i, Ok(memo[memoKey]), Some(i), None);
        return;
      }
      r := ResolveSemantic(i, work);
    }

    /** A key already on its branch is denied; any other is expanded. */
    method ResolveSemantic(i: WorkId, work: WorkKind) returns (r: Result<()>)
      requires Configured() && Inv(Some(i), Some(i), None) && Childless(slots, i) && slots[i].state.Processing?
      requires work.Semantic? && works[i] == work && rootResult.None? && work.depth <= budget.depth
      modifies this`counters, this`cycles, this`slots, this`ready, this`works, this`ops,
               this`interfered, this`ledger, this`memo, this`rootResult
      ensures BudgetOk()
      ensures r.Ok? ==> Inv(None, None, None) && Evolves() && Measure() < old(Measure())
      ensures r.Ok? ==> KeepsDoom()
      ensures r.Err? ==> Hindered() && !Broken(r.error)
    {
      hide GraphCode; hide Pending; hide GraphOk; hide Linked; hide QueuesOk; hide MemoOk; hide WorkBudgetOk; hide Configured; hide Meaning;
      hide Continues;
      hide DoomedAt;
      GraphFacts(goal, Hindered(), Graph(), Some(i), None);
      if Doomed() {
        DoomedWork(i, Some(i), None);
      }
      DoomedStill(world, slots, works, memo, i, slots[i].(memoKey := Some(MemoKey(work.key, work.path))));
      RememberKey(i, MemoKey(work.key, work.path));
      ghost var remembered := slots;
      if work.key in work.path {
        assert ValidModel(world.model) && goal.limit == budget.depth by { ConfiguredFacts(); }
        GoalIs(work);
        SemanticMeaning(world, budget.depth, work.key, work.path, work.depth);
        cycles := if cycles < U32_MAX then cycles + 1 else U32_MAX;
        r := Complete(i, Ok(Deny(Cycle)), Some(i), None);
        ContinuesOn(old(slots), remembered, slots);
        return;
      }
      r := ExpandSemantic(i, work);
      if r.Ok? {
        ContinuesOn(old(slots), remembered, slots);
      }
    }

    method ExpandSemantic(i: WorkId, work: WorkKind) returns (r: Result<()>)
      requires Configured() && Inv(Some(i), Some(i), None) && Childless(slots, i) && slots[i].state.Processing?
      requires work.Semantic? && works[i] == work && rootResult.None?
      requires work.depth <= budget.depth && work.key !in work.path
      modifies this`counters, this`slots, this`ready, this`works, this`ops, this`interfered, this`ledger, this`memo, this`rootResult
      ensures BudgetOk()
      ensures r.Ok? ==> Inv(None, None, None) && Evolves() && Measure() < old(Measure())
      ensures r.Ok? ==> KeepsDoom()
      ensures r.Err? ==> Hindered() && !Broken(r.error)
    {
      hide GraphCode; hide Pending; hide GraphOk; hide Linked; hide QueuesOk; hide MemoOk; hide WorkBudgetOk; hide Configured; hide Meaning; hide Combine;
      hide Opened; hide DoomedAt;
      GraphFacts(goal, Hindered(), Graph(), Some(i), None);
      if Doomed() {
        DoomedWork(i, Some(i), None);
      }
      assert ValidModel(world.model) && goal.limit == budget.depth && goal.roots == RootNodes(world.model) by { ConfiguredFacts(); }
      var key, path := work.key, work.path;
      GoalIs(work);
      SemanticMeaning(world, budget.depth, key, path, work.depth);
      if SubjectType(key.subject) !in world.model.typeLookup {
        r := Complete(i, Err(CheckError(InvalidModel, "semantic_subject_type_missing")), Some(i), None);
        return;
      }
      if !Reachable(world.model, key.relation, key.subject) {
        r := Complete(i, Ok(Deny(Unreachable)), Some(i), None);
        return;
      }
      if key.relation >= |world.model.relations| {
        r := Complete(i, Err(CheckError(InvalidModel, "semantic_relation_invalid")), Some(i), None);
        return;
      }
      var child := Rewrite(key.obj, world.model.relations[key.relation].root, key.subject, path + {key}, work.depth);
      GoalIs(child);
      r := AwaitOne(i, child, None);
      if !Hindered() {
        DoomedOpens(world, old(slots), slots, old(works), works, memo, i, SingleOf, 1, None);
      }
    }

    /** Waits for a single operand and schedules it. */
    method AwaitOne(i: WorkId, child: WorkKind, resolution: Option<CheckResolution>) returns (r: Result<()>)
      requires Inv(Some(i), Some(i), None) && Childless(slots, i) && slots[i].state.Processing?
      requires rootResult.None? && DepthIsPathSize(goal.limit, child) && goal.value(child) == goal.value(works[i])
      requires Begets(goal, works[i], 0, child) && KindFits(goal, works[i], SingleOf, 1)
      modifies this`counters, this`slots, this`ready, this`works, this`ops, this`interfered, this`ledger, this`memo, this`rootResult
      ensures BudgetOk()
      ensures r.Ok? ==> Inv(None, None, None) && Evolves() && Measure() < old(Measure())
      ensures !Hindered() ==>
                Opened(old(slots), slots, i, SingleOf, 1, resolution) && memo == old(memo) && rootResult == old(rootResult)
      ensures r.Err? ==> Hindered() && !Broken(r.error)
    {
      hide GraphCode; hide Pending; hide GraphOk; hide Linked; hide QueuesOk; hide MemoOk; hide WorkBudgetOk; hide Combine;
      GraphFacts(goal, Hindered(), Graph(), Some(i), None);
      CombineSingle(goal.value(child));
      AwaitOperands(i, SingleOf, 1, resolution, [goal.value(child)]);
      r := ScheduleChildOrError(i, 0, child, [goal.value(child)]);
      if r.Ok? {
        CloseSlot(i, 1, [goal.value(child)]);
      }
    }

    /** Notes where the slot in hand will record its decision. */
    method RememberKey(i: WorkId, key: MemoKey)
      requires Inv(Some(i), Some(i), None) && Childless(slots, i) && slots[i].state.Processing?
      requires works[i].Semantic? && key == MemoKey(works[i].key, works[i].path)
      modifies this`slots
      ensures Inv(Some(i), Some(i), None) && Childless(slots, i)
      ensures slots == old(slots)[i := old(slots)[i].(memoKey := Some(key))] && Measure() == old(Measure())
      ensures Continues(old(slots), slots)
    {
      hide GraphCode; hide Pending; hide GraphOk; hide Linked; hide QueuesOk; hide MemoOk; hide WorkBudgetOk;
      GraphFacts(goal, Hindered(), Graph(), Some(i), None);
      Remember(goal, Hindered(), Graph(), i, key);
      RememberQueues(slots, i, key, ready, inflight);
      slots := slots[i := slots[i].(memoKey := Some(key))];
    }

    lemma {:induction false} ConfiguredFacts()
      requires Configured()
      ensures ValidModel(world.model) && goal.limit == budget.depth && goal.nodes == world.model.nodes && ValidBudget(budget)
      ensures goal.roots == RootNodes(world.model)
    {
    }

    method ProcessComputed(i: WorkId, work: WorkKind, relation: RelationId) returns (r: Result<()>)
      requires Configured() && Inv(Some(i), Some(i), None) && Childless(slots, i) && slots[i].state.Processing?
      requires work.Rewrite? && works[i] == work && rootResult.None?
      requires work.node < |goal.nodes| && goal.nodes[work.node] == ComputedNode(relation)
      requires goal.value(work) == Meaning(world, budget.depth,
                                           Semantic(SemanticKey(work.obj, relation, work.subject), work.path, work.depth + 1))
      modifies this`counters, this`slots, this`ready, this`works, this`ops, this`interfered, this`ledger, this`memo, this`rootResult
      ensures BudgetOk()
      ensures r.Ok? ==> Inv(None, None, None) && Evolves() && Measure() < old(Measure())
      ensures r.Err? ==> Hindered() && !Broken(r.error)
    {
      hide GraphCode; hide Pending; hide GraphOk; hide Linked; hide QueuesOk; hide MemoOk; hide WorkBudgetOk; hide Configured; hide Meaning; hide Combine;
      GraphFacts(goal, Hindered(), Graph(), Some(i), None);
      ConfiguredFacts();
      var depth := NextDepth(work.depth);
      assert depth.Ok?;
      var child := Semantic(SemanticKey(work.obj, relation, work.subject), work.path, depth.value);
      GoalIs(child);
      r := AwaitOne(i, child, Some(Computed));
    }

    method ProcessDifference(i: WorkId, work: WorkKind, base: NodeId, subtract: NodeId) returns (r: Result<()>)
      requires Configured() && Inv(Some(i), Some(i), None) && Childless(slots, i) && slots[i].state.Processing?
      requires work.Rewrite? && works[i] == work && rootResult.None?
      requires Combine(DifferenceOf,
                       NodeMeanings(world, budget.depth, work.obj, work.subject, [base, subtract], work.path, work.depth))
               == goal.value(work)
      requires work.node < |goal.nodes| && goal.nodes[work.node] == DifferenceNode(base, subtract)
      modifies this`counters, this`slots, this`ready, this`works, this`ops, this`interfered, this`ledger, this`memo, this`rootResult
      ensures BudgetOk()
      ensures r.Ok? ==> Inv(None, None, None) && Evolves() && Measure() < old(Measure())
      ensures r.Err? ==> Hindered() && !Broken(r.error)
    {
      r := StartRewriteChildren(i, work, [base, subtract], DifferenceOf, Difference);
    }

    /** Read capacity is full: the slot goes back to the end of the ready queue. */
    method DeferForReadCapacity(i: WorkId, work: WorkKind) returns (deferred: bool)
      requires Inv(Some(i), Some(i), None) && Childless(slots, i) && slots[i].state.Processing?
      requires work.Rewrite? && works[i] == work && rootResult.None?
      modifies this`slots, this`ready
      ensures deferred <==> |inflight| >= budget.concurrentReads
      ensures !deferred ==> slots == old(slots) && ready == old(ready)
      ensures deferred ==> slots == old(slots)[i := old(slots)[i].(state := Queued(work))]
      ensures deferred ==> Inv(None, None, None) && Evolves() && Measure() == old(Measure()) + 1
    {
      hide GraphCode; hide Pending; hide GraphOk; hide Linked; hide QueuesOk; hide MemoOk; hide WorkBudgetOk;
      if |inflight| < budget.concurrentReads {
        return false;
      }
      GraphFacts(goal, Hindered(), Graph(), Some(i), None);
      Suspend(goal, Hindered(), Graph(), i, Queued(work));
      QueuesReturn(slots, i, Queued(work), ready, inflight);
      MeasureSame(slots, i, Queued(work));
      slots := slots[i := slots[i].(state := Queued(work))];
      ready := ready + [i];
      return true;
    }

    /** Charges one datastore query to the root and to the shared meter. */
    method ChargeRead() returns (r: Result<bool>)
      requires BudgetOk()
      modifies this`counters, this`interfered, this`ledger, this`readsStarted
      ensures BudgetOk() && (old(Hindered()) ==> Hindered())
      ensures readsStarted == if r == Ok(true) then old(readsStarted) + 1 else old(readsStarted)
      ensures r != Ok(true) ==> Hindered()
      ensures r.Err? ==> !Broken(r.error)
    {
      hide StarvedOk;
      if counters.datastoreQueries == U32_MAX {
        return Err(DatastoreError());
      }
      counters := counters.(datastoreQueries := counters.datastoreQueries + 1);
      if counters.datastoreQueries > budget.datastoreQueries {
        return Ok(false);
      }
      var refused := MeterRefuses(WorkMeter.Queries, 1);
      if refused {
        return Ok(false);
      }
      readsStarted := readsStarted + 1;
      return Ok(true);
    }

    method StartRead(i: WorkId, work: WorkKind, continuation: ReadContinuation) returns (r: Result<()>)
      requires Configured() && Inv(Some(i), Some(i), None) && Childless(slots, i) && slots[i].state.Processing?
      requires works[i] == work && rootResult.None? && Resumes(goal.nodes, work, continuation)
      requires |inflight| < budget.concurrentReads
      modifies this`counters, this`slots, this`inflight, this`interfered, this`ledger, this`readsStarted, this`memo, this`rootResult
      ensures BudgetOk()
      ensures r.Ok? ==> Inv(None, None, None) && Evolves() && Measure() <= old(Measure())
      ensures r.Ok? ==> KeepsDoom()
      ensures r.Err? ==> Hindered() && !Broken(r.error)
    {
      hide GraphCode; hide Pending; hide GraphOk; hide Linked; hide QueuesOk; hide MemoOk; hide WorkBudgetOk; hide Exact; hide Resumes;
      hide Configured; hide Meaning; hide ReadMeaning; hide ValidModel;
      hide DoomedAt;
      ghost var h := Hindered();
      GraphFacts(goal, h, Graph(), Some(i), None);
      ConfiguredFacts();
      ReadIsReadable(world, budget.depth, work, continuation);
      var admitted := ChargeRead();
      if admitted.Err? {
        return Err(admitted.error);
      }
      Hinder(goal, h, Hindered(), Graph(), Some(i), None);
      if !admitted.value {
        AnyErrorIsExact(DatastoreError(), goal.value(works[i]));
        r := Complete(i, Err(DatastoreError()), Some(i), None);
        return;
      }
      if ReadRelation(continuation) >= |world.model.relations| {
        assert false;
      }
      DoomedStill(world, slots, works, memo, i, slots[i].(state := Reading(continuation)));
      BeginRead(i, continuation);
      return Ok(());
    }

    /** The admitted read is in flight and the slot waits for its rows. */
    method BeginRead(i: WorkId, continuation: ReadContinuation)
      requires Inv(Some(i), Some(i), None) && Childless(slots, i) && slots[i].state.Processing?
      requires Resumes(goal.nodes, works[i], continuation) && |inflight| < budget.concurrentReads
      modifies this`slots, this`inflight
      ensures Inv(None, None, None) && Evolves() && Measure() == old(Measure())
      ensures inflight == old(inflight) + {i}
      ensures slots == old(slots)[i := old(slots)[i].(state := Reading(continuation))]
    {
      hide GraphCode; hide Pending; hide GraphOk; hide Linked; hide QueuesOk; hide MemoOk; hide Resumes;
      GraphFacts(goal, Hindered(), Graph(), Some(i), None);
      var state := Reading(continuation);
      Suspend(goal, Hindered(), Graph(), i, state);
      QueuesReturn(slots, i, state, ready, inflight);
      MeasureSame(slots, i, state);
      slots := slots[i := slots[i].(state := state)];
      inflight := inflight + {i};
    }

    method ProcessRead(i: WorkId, work: WorkKind, continuation: ReadContinuation) returns (r: Result<()>)
      requires Configured() && Inv(Some(i), Some(i), None) && Childless(slots, i) && slots[i].state.Processing?
      requires work.Rewrite? && works[i] == work && rootResult.None? && Resumes(goal.nodes, work, continuation)
      modifies this`counters, this`slots, this`ready, this`inflight, this`interfered, this`ledger, this`readsStarted,
               this`memo, this`rootResult
      ensures BudgetOk()
      ensures r.Ok? ==> Inv(None, None, None) && Evolves()
      ensures r.Ok? ==> Measure() <= old(Measure())
                        || (Measure() == old(Measure()) + 1 && |inflight| >= budget.concurrentReads)
      ensures r.Ok? ==> KeepsDoom()
      ensures r.Err? ==> Hindered() && !Broken(r.error)
    {
      hide GraphCode; hide Pending; hide GraphOk; hide Linked; hide QueuesOk; hide MemoOk; hide WorkBudgetOk; hide Resumes; hide Continues; hide Configured;
      GraphFacts(goal, Hindered(), Graph(), Some(i), None);
      hide DoomedAt;
      DoomedStill(world, slots, works, memo, i, slots[i].(state := Queued(work)));
      var deferred := DeferForReadCapacity(i, work);
      if deferred {
        return Ok(());
      }
      r := StartRead(i, work, continuation);
    }

    method ProcessRewrite(i: WorkId, work: WorkKind) returns (r: Result<()>)
      requires Configured() && Inv(Some(i), Some(i), None) && Childless(slots, i) && slots[i].state.Processing?
      requires work.Rewrite? && works[i] == work && rootResult.None?
      modifies this`counters, this`slots, this`ready, this`inflight, this`works, this`ops,
               this`interfered, this`ledger, this`readsStarted, this`memo, this`rootResult
      ensures BudgetOk()
      ensures r.Ok? ==> Inv(None, None, None) && Evolves()
      ensures r.Ok? ==> Measure() <= old(Measure())
                        || (Measure() == old(Measure()) + 1 && |inflight| >= budget.concurrentReads)
      ensures r.Ok? ==> KeepsDoom()
      ensures r.Err? ==> Hindered() && !Broken(r.error)
    {
      hide GraphCode; hide Pending; hide GraphOk; hide Linked; hide QueuesOk; hide MemoOk; hide WorkBudgetOk; hide Configured; hide Meaning; hide Continues;
      GraphFacts(goal, Hindered(), Graph(), Some(i), None);
      ConfiguredFacts();
      hide DoomedAt; hide Opened;
      GoalIs(work);
      if Doomed() {
        DoomedWork(i, Some(i), None);
      }
      if work.node >= |world.model.nodes| {
        assert goal.value(work) == Unknown by { NodeMissing(world, budget.depth, work); }
        r := Complete(i, Err(CheckError(InvalidModel, "rewrite_node_invalid")), Some(i), None);
        return;
      }
      RewriteMeaning(world, budget.depth, work.obj, work.node, work.subject, work.path, work.depth);
      match world.model.nodes[work.node] {
        case DirectNode(relation) =>
          r := ProcessRead(i, work, DirectRead(relation, work.obj, work.subject, work.path, work.depth));
        case ComputedNode(relation) =>
          r := ProcessComputed(i, work, relation);
        case TtuNode(tupleset, targets) =>
          r := ProcessRead(i, work, TtuRead(tupleset, targets, work.obj, work.subject, work.path, work.depth));
        case UnionNode(ns) =>
          r := StartRewriteChildren(i, work, ns, UnionOf, Union);
        case IntersectionNode(ns) =>
          r := StartRewriteChildren(i, work, ns, IntersectionOf, Intersection);
          if !Hindered() {
            DoomedOpens(world, old(slots), slots, old(works), works, memo, i, IntersectionOf, |ns|, Some(Intersection));
          }
        case DifferenceNode(base, subtract) =>
          r := ProcessDifference(i, work, base, subtract);
      }
    }

    /** Takes one popped slot through one stage, or drops it when an ancestor is already done. */
    method Process(i: WorkId) returns (r: Result<()>)
      requires Configured() && Inv(None, Some(i), None) && i < |slots| && slots[i].state.Queued? && rootResult.None?
      modifies this`counters, this`cycles, this`maximumDepth, this`slots, this`ready, this`inflight, this`works, this`ops,
               this`interfered, this`ledger, this`readsStarted, this`memo, this`rootResult
      ensures BudgetOk()
      ensures r.Ok? ==> Inv(None, None, None) && Evolves()
      ensures r.Ok? ==> Measure() < old(Measure())
                        || (Measure() == old(Measure()) && |inflight| >= budget.concurrentReads)
      ensures r.Ok? ==> KeepsDoom()
      ensures r.Err? ==> Hindered() && !Broken(r.error)
    {
      hide GraphCode; hide Pending; hide GraphOk; hide Linked; hide QueuesOk; hide MemoOk; hide WorkBudgetOk; hide Configured; hide Meaning;
      GraphFacts(goal, Hindered(), Graph(), None, None);
      hide DoomedAt; hide Continues; hide Alive;
      if Doomed() {
        DoomedIsAlive(i);
      }
      DoomedStill(world, slots, works, memo, i, slots[i].(state := Processing));
      var active := IsActive(i);
      assert active.Ok?;
      if !active.value {
        Drop(i);
        return Ok(());
      }
      var kind := slots[i].state.kind;
      Take(i);
      ghost var taken := slots;
      match kind {
        case Semantic(_, _, _) => r := ProcessSemantic(i, kind);
        case Rewrite(_, _, _, _, _) => r := ProcessRewrite(i, kind);
      }
      if r.Ok? {
        ContinuesOn(old(slots), taken, slots);
      }
    }

    /** Drops a queued or reading slot that no live ancestor waits for. */
    method Drop(i: WorkId)
      requires Inv(None, Some(i), None) && i < |slots| && (slots[i].state.Queued? || slots[i].state.Reading?)
      requires !Alive(slots, i)
      modifies this`slots
      ensures Inv(None, None, None) && Evolves() && Measure() < old(Measure())
    {
      hide GraphCode; hide Pending; hide GraphOk; hide Linked; hide QueuesOk; hide MemoOk; hide WorkBudgetOk;
      GraphFacts(goal, Hindered(), Graph(), None, None);
      Abandon(goal, Hindered(), Graph(), i);
      QueuesSame(slots, WithState(Graph(), i, Completed).slots, ready, inflight, Some(i), None);
      MeasureSame(slots, i, Completed);
      slots := slots[i := slots[i].(state := Completed)];
    }

    /** Takes a queued or reading slot in hand. */
    method Take(i: WorkId)
      requires Inv(None, Some(i), None) && i < |slots| && (slots[i].state.Queued? || slots[i].state.Reading?)
      modifies this`slots
      ensures Inv(Some(i), Some(i), None) && Childless(slots, i) && slots[i].state.Processing?
      ensures slots == old(slots)[i := old(slots)[i].(state := Processing)] && Evolves()
      ensures Measure() == old(Measure()) + 2 - Stage(old(slots)[i].state)
      ensures old(slots)[i].state.Queued? ==> works[i] == old(slots)[i].state.kind
      ensures old(slots)[i].state.Reading? ==> Resumes(goal.nodes, works[i], old(slots)[i].state.continuation)
    {
      hide GraphCode; hide Pending; hide GraphOk; hide Linked; hide QueuesOk; hide MemoOk; hide WorkBudgetOk; hide Resumes;
      GraphFacts(goal, Hindered(), Graph(), None, None);
      TakeInHand(goal, Hindered(), Graph(), i);
      QueuesSame(slots, WithState(Graph(), i, Processing).slots, ready, inflight, Some(i), Some(i));
      MeasureSame(slots, i, Processing);
      slots := slots[i := slots[i].(state := Processing)];
    }

    // -------------------------------------------------------------------------
    // Finishing one read
    // -------------------------------------------------------------------------

    /** What the task of a read does: it fetches the stored rows and charges them to the shared meter
        before anything is charged to the root. Storage may fail before or after that. */
    method FetchRows(read: ReadContinuation) returns (r: Result<seq<RelationshipTuple>>)
      requires BudgetOk()
      modifies this`interfered, this`ledger, this`rowsSeen
      ensures BudgetOk() && (old(Hindered()) ==> Hindered())
      ensures r.Err? ==> Hindered() && !Broken(r.error)
      ensures r.Ok? && Readable(world.model, read) ==>
                r.value == world.stored(read.obj, world.model.relations[ReadRelation(read)].name)
      ensures r.Ok? && metered ==> rowsHanded + |r.value| <= ledger.granted.items
    {
      hide StarvedOk;
      assert !Broken(CheckError(Timeout, ""));
      if * {
        interfered := true;
        var error: CheckError :| !Broken(error);
        return Err(error);
      }
      var stored := [];
      if ReadRelation(read) < |world.model.relations| {
        stored := world.stored(read.obj, world.model.relations[ReadRelation(read)].name);
      }
      if |stored| > U32_MAX {
        rowsSeen := rowsSeen + |stored|;
        return Err(TupleItemsError());
      }
      var refused := MeterRefuses(WorkMeter.Items, |stored|);
      if refused {
        return Err(TupleItemsError());
      }
      if * {
        interfered := true;
        var error: CheckError :| !Broken(error);
        return Err(error);
      }
      return Ok(stored);
    }

    /** Charges the rows of one read to the root, and the contextual ones to the shared meter; only
        charged rows are handed on. */
    method ChargeTupleItems(stored: nat, contextual: nat) returns (r: Result<()>)
      requires BudgetOk() && (metered ==> rowsHanded + stored <= ledger.granted.items)
      modifies this`counters, this`interfered, this`ledger, this`rowsSeen, this`rowsHanded
      ensures BudgetOk() && (old(Hindered()) ==> Hindered())
      ensures r.Ok? ==> rowsHanded == old(rowsHanded) + stored + contextual
      ensures r.Err? ==> Hindered() && !Broken(r.error) && rowsHanded == old(rowsHanded)
    {
      hide StarvedOk;
      var total := stored + contextual;
      rowsSeen := rowsSeen + total;
      if contextual > U32_MAX || total > U32_MAX || counters.tupleItems + total > U32_MAX {
        return Err(TupleItemsError());
      }
      counters := counters.(tupleItems := counters.tupleItems + total);
      if counters.tupleItems > budget.tupleItems {
        return Err(TupleItemsError());
      }
      var refused := MeterRefuses(WorkMeter.Items, contextual);
      if refused {
        return Err(TupleItemsError());
      }
      rowsHanded := rowsHanded + total;
      return Ok(());
    }

    /** Evaluates a tuple's condition within the remaining condition budget. */
    method EvaluateTupleCondition(t: RelationshipTuple) returns (r: Result<Option<Evaluation>>)
      requires BudgetOk()
      requires t.condition.Conditional? ==> t.condition.name in world.model.conditionLookup
      requires t.condition.Conditional? ==> world.model.conditionLookup[t.condition.name] < |world.model.conditions|
      modifies this`counters, this`interfered, this`starved
      ensures BudgetOk() && (old(Hindered()) ==> Hindered())
      ensures r.Err? ==> Hindered() && !Broken(r.error)
      ensures r.Ok? && r.value.None? ==> t.condition.Conditional? && world.verdict(t).Evaluated? && !world.verdict(t).met
      ensures r.Ok? && r.value.Some? && r.value.value.Ok? ==>
                && r.value.value == Ok(Allow(Direct))
                && (t.condition.Unconditional? || (world.verdict(t).Evaluated? && world.verdict(t).met))
      ensures r.Ok? && r.value.Some? && r.value.value.Err? ==>
                && !Broken(r.value.value.error) && t.condition.Conditional?
                && (Hindered() || world.verdict(t) == Failed(r.value.value.error))
    {
      match t.condition {
        case Unconditional => return Ok(Some(Ok(Allow(Direct))));
        case Conditional(name, _) =>
          var before := CheckContext();
          if before.Err? {
            return Err(before.error);
          }
          if name !in world.model.conditionLookup {
            return Err(CheckError(InvalidModel, "tuple_condition_missing"));
          }
          if world.model.conditionLookup[name] >= |world.model.conditions| {
            return Err(CheckError(InvalidModel, "tuple_condition_invalid"));
          }
          var verdict := world.verdict(t);
          var remaining := budget.conditionCost - counters.conditionCost;
          if remaining == 0 {
            starved := starved + {t};
            return Ok(Some(Err(ConditionCostError())));
          }
          var after := CheckContext();
          if after.Err? {
            return Err(after.error);
          }
          match verdict {
            case Failed(error) => return Ok(Some(Err(error)));
            case Evaluated(met, cost) =>
              if cost > remaining {
                starved := starved + {t};
                return Ok(Some(Err(ConditionCostError())));
              }
              counters := counters.(conditionCost := counters.conditionCost + cost);
              return Ok(if met then Some(Ok(Allow(Direct))) else None);
          }
      }
    }

    /** What one row of a direct relation adds to the operands: nothing, an answer at once, or a
        key to follow. */
    method DirectCandidate(read: ReadContinuation, t: RelationshipTuple) returns (r: Result<Option<Candidate>>)
      requires Configured() && BudgetOk() && read.DirectRead? && read.relation < |world.model.relations|
      requires |read.path| == read.depth + 1 && read.depth <= budget.depth
      modifies this`counters, this`interfered, this`starved
      ensures BudgetOk() && (old(Hindered()) ==> Hindered())
      ensures r.Err? ==> Hindered() && !Broken(r.error)
      ensures r.Ok? && r.value.None? ==>
                DirectRow(world, budget.depth, read.subject, read.relation, t, read.path) == False
      ensures r.Ok? && r.value.Some? ==>
                && CandidateOk(goal, Hindered(), read.subject, r.value.value,
                               DirectRow(world, budget.depth, read.subject, read.relation, t, read.path))
                && (Hindered() || Telling(world, read.subject, read.relation, t, r.value.value))
      ensures r.Ok? && r.value.None? ==> Hindered() || !AnswersAtOnce(world, read.subject, read.relation, t)
    {
      hide GraphCode; hide BudgetOk; hide Configured; hide Meaning; hide Eval;
      ConfiguredFacts();
      RowClassResolves(world, read.relation, t);
      var admitted := RowClass(world, read.relation, t);
      assert admitted.Ok?;
      if admitted.value.None? {
        return Ok(None);
      }
      if t.condition.Conditional? {
        AdmittedConditionKnown(world, read.relation, t);
      }
      match admitted.value.value {
        case ObjectClass =>
          if t.subject != read.subject {
            return Ok(None);
          }
          var outcome := EvaluateTupleCondition(t);
          r := AtOnce(outcome);
        case WildcardClass =>
          if t.subject != read.subject && !WildcardMatches(t.subject, read.subject) {
            return Ok(None);
          }
          var outcome := EvaluateTupleCondition(t);
          r := AtOnce(outcome);
        case UsersetClass(relation) =>
          if !t.subject.UsersetSubject? {
            return Ok(None);
          }
          var outcome := EvaluateTupleCondition(t);
          if outcome.Err? || outcome.value.None? || outcome.value.value.Err? || t.subject == read.subject {
            r := AtOnce(outcome);
            return;
          }
          var depth := NextDepth(read.depth);
          assert depth.Ok?;
          var key := SemanticKey(t.subject.obj, relation, read.subject);
          var work := Semantic(key, read.path, depth.value);
          GoalIs(work);
          SemanticIs(world, budget.depth, key, read.path, depth.value);
          return Ok(Some(Follow(work)));
      }
    }

    /** A condition's outcome as a candidate. */
    static function AtOnce(outcome: Result<Option<Evaluation>>): Result<Option<Candidate>> {
      match outcome
      case Err(e) => Err(e)
      case Ok(None) => Ok(None)
      case Ok(Some(o)) => Ok(Some(Immediate(o)))
    }

    method CollectDirect(read: ReadContinuation, rows: seq<RelationshipTuple>)
      returns (r: Result<seq<Candidate>>, ghost vs: seq<Truth>)
      requires Configured() && BudgetOk() && read.DirectRead? && read.relation < |world.model.relations|
      requires |read.path| == read.depth + 1 && read.depth <= budget.depth
      modifies this`counters, this`interfered, this`starved
      ensures BudgetOk() && (old(Hindered()) ==> Hindered())
      ensures r.Err? ==> Hindered() && !Broken(r.error)
      ensures r.Ok? ==>
                && CandidatesOk(goal, Hindered(), read.subject, r.value, vs)
                && Any(vs) == Any(DirectRows(world, budget.depth, read.subject, read.relation, rows, read.path))
                && (Hindered() || (Clash(r.value) <==> Overlap(world, read.subject, read.relation, rows)))
    {
      hide GraphCode; hide BudgetOk; hide Configured; hide Meaning; hide DirectRow; hide AnswersAtOnce; hide Telling; hide Overlap; hide Clash;
      ConfiguredFacts();
      var candidates: seq<Candidate> := [];
      ghost var src: seq<nat> := [];
      vs := [];
      var n := 0;
      while n < |rows|
        invariant 0 <= n <= |rows| && BudgetOk() && (old(Hindered()) ==> Hindered())
        invariant CandidatesOk(goal, Hindered(), read.subject, candidates, vs)
        invariant Any(vs) == Any(DirectRows(world, budget.depth, read.subject, read.relation, rows[..n], read.path))
        invariant Sourced(world, Hindered(), read.subject, read.relation, rows, n, candidates, src)
      {
        ExtendRows(world, budget.depth, read.subject, read.relation, rows, n, read.path, vs);
        var candidate := DirectCandidate(read, rows[n]);
        if candidate.Err? {
          r := Err(candidate.error);
          return;
        }
        if candidate.value.Some? {
          candidates := candidates + [candidate.value.value];
          vs := vs + [DirectRow(world, budget.depth, read.subject, read.relation, rows[n], read.path)];
          src := src + [n];
        }
        n := n + 1;
      }
      assert rows[..n] == rows;
      ClashIsOverlap(world, Hindered(), read.subject, read.relation, rows, candidates, src);
      r := Ok(candidates);
    }

    /** The keys one tupleset row leads to: its object under every fitting target. */
    method TtuCandidates(read: ReadContinuation, t: RelationshipTuple)
      returns (r: Result<seq<Candidate>>, ghost vs: seq<Truth>)
      requires Configured() && BudgetOk() && read.TtuRead? && read.tupleset < |world.model.relations|
      requires forall i :: 0 <= i < |read.targets| ==> read.targets[i] < |world.model.relations|
      requires |read.path| == read.depth + 1 && read.depth <= budget.depth
      modifies this`counters, this`interfered, this`starved
      ensures BudgetOk() && (old(Hindered()) ==> Hindered())
      ensures r.Err? ==> Hindered() && !Broken(r.error)
      ensures r.Ok? ==>
                && CandidatesOk(goal, Hindered(), read.subject, r.value, vs)
                && Any(vs) == TtuRow(world, budget.depth, read.subject, read.tupleset, read.targets, t, read.path)
                && forall k :: 0 <= k < |r.value| && r.value[k].Immediate? ==> r.value[k].outcome.Err?
    {
      hide GraphCode; hide BudgetOk; hide Configured; hide Meaning; hide Eval; hide TargetValue;
      ConfiguredFacts();
      vs := [];
      RowClassResolves(world, read.tupleset, t);
      var admitted := RowClass(world, read.tupleset, t);
      assert admitted.Ok?;
      if admitted.value != Some(ObjectClass) {
        r := Ok([]);
        return;
      }
      if t.condition.Conditional? {
        AdmittedConditionKnown(world, read.tupleset, t);
      }
      var condition := EvaluateTupleCondition(t);
      if condition.Err? {
        r := Err(condition.error);
        return;
      }
      if condition.value.None? {
        r := Ok([]);
        return;
      }
      if condition.value.value.Err? {
        vs := [TtuRow(world, budget.depth, read.subject, read.tupleset, read.targets, t, read.path)];
        r := Ok([Immediate(condition.value.value)]);
        return;
      }
      if !t.subject.ObjectSubject? {
        r := Ok([]);
        return;
      }
      r, vs := FollowTargets(read, t.subject.obj);
    }

    method FollowTargets(read: ReadContinuation, target: ObjectRef)
      returns (r: Result<seq<Candidate>>, ghost vs: seq<Truth>)
      requires Configured() && read.TtuRead?
      requires forall i :: 0 <= i < |read.targets| ==> read.targets[i] < |world.model.relations|
      requires |read.path| == read.depth + 1 && read.depth <= budget.depth
      ensures r.Ok? && CandidatesOk(goal, Hindered(), read.subject, r.value, vs)
      ensures Any(vs) == Any(TargetValues(world, budget.depth, read.subject, target, read.targets, read.path))
      ensures forall k :: 0 <= k < |r.value| ==> r.value[k].Follow?
    {
      hide GraphCode; hide Configured; hide Meaning; hide Eval;
      ConfiguredFacts();
      var candidates: seq<Candidate> := [];
      vs := [];
      var n := 0;
      while n < |read.targets|
        invariant 0 <= n <= |read.targets| && CandidatesOk(goal, Hindered(), read.subject, candidates, vs)
        invariant Any(vs) == Any(TargetValues(world, budget.depth, read.subject, target, read.targets[..n], read.path))
        invariant forall k :: 0 <= k < |candidates| ==> candidates[k].Follow?
      {
        ExtendTargets(world, budget.depth, read.subject, target, read.targets, n, read.path, vs);
        var relation := read.targets[n];
        if TargetFits(world.model, relation, target) {
          var depth := NextDepth(read.depth);
          assert depth.Ok?;
          var key := SemanticKey(target, relation, read.subject);
          var work := Semantic(key, read.path, depth.value);
          GoalIs(work);
          SemanticIs(world, budget.depth, key, read.path, depth.value);
          candidates := candidates + [Follow(work)];
          vs := vs + [TargetValue(world, budget.depth, read.subject, target, relation, read.path)];
        }
        n := n + 1;
      }
      assert read.targets[..n] == read.targets;
      r := Ok(candidates);
    }

    method CollectTtu(read: ReadContinuation, rows: seq<RelationshipTuple>)
      returns (r: Result<seq<Candidate>>, ghost vs: seq<Truth>)
      requires Configured() && BudgetOk() && read.TtuRead? && read.tupleset < |world.model.relations|
      requires forall i :: 0 <= i < |read.targets| ==> read.targets[i] < |world.model.relations|
      requires |read.path| == read.depth + 1 && read.depth <= budget.depth
      modifies this`counters, this`interfered, this`starved
      ensures BudgetOk() && (old(Hindered()) ==> Hindered())
      ensures r.Err? ==> Hindered() && !Broken(r.error)
      ensures r.Ok? ==>
                && CandidatesOk(goal, Hindered(), read.subject, r.value, vs)
                && Any(vs) == Any(TtuRows(world, budget.depth, read.subject, read.tupleset, read.targets, rows, read.path))
                && !Clash(r.value)
    {
      hide GraphCode; hide BudgetOk; hide Configured; hide Meaning; hide TtuRow;
      ConfiguredFacts();
      var candidates: seq<Candidate> := [];
      vs := [];
      var n := 0;
      while n < |rows|
        invariant 0 <= n <= |rows| && BudgetOk() && (old(Hindered()) ==> Hindered())
        invariant CandidatesOk(goal, Hindered(), read.subject, candidates, vs)
        invariant Any(vs) ==
                  Any(TtuRows(world, budget.depth, read.subject, read.tupleset, read.targets, rows[..n], read.path))
        invariant forall k :: 0 <= k < |candidates| && candidates[k].Immediate? ==> candidates[k].outcome.Err?
      {
        var more;
        ghost var us;
        more, us := TtuCandidates(read, rows[n]);
        if more.Err? {
          r := Err(more.error);
          return;
        }
        ExtendTtuRows(world, budget.depth, read.subject, read.tupleset, read.targets, rows, n, read.path, vs, us);
        candidates := candidates + more.value;
        vs := vs + us;
        n := n + 1;
      }
      assert rows[..n] == rows;
      r := Ok(candidates);
    }

    /** Starts one operand: answers it at once, or schedules the key to follow. */
    method StartCandidate(
      i: WorkId, operand: nat, candidates: seq<Candidate>, ghost vs: seq<Truth>, ghost s0: seq<WorkSlot>)
      returns (r: Result<()>)
      requires Scheduling(i, operand, vs) && operand < |vs| && rootResult.None? && 0 < i && FollowsKeys(goal.nodes, works[i])
      requires CandidatesOk(goal, Hindered(), SubjectOf(works[i]), candidates, vs)
      requires Linked(s0) && Linked(slots) && i < |s0| <= |slots| && s0[i].state.Waiting? && Alive(slots, i)
      requires Hindered() || (Started(slots[i].state, candidates, operand) && Trace(s0, slots, i, candidates, operand))
      modifies this`counters, this`slots, this`ready, this`works, this`ops, this`interfered, this`ledger, this`memo, this`rootResult
      ensures BudgetOk()
      ensures r.Ok? ==> Scheduling(i, operand + 1, vs) && Evolves() && Measure() <= old(Measure())
      ensures r.Ok? ==> Linked(slots) && |old(slots)| <= |slots|
      ensures r.Ok? ==>
                Hindered() || (Started(slots[i].state, candidates, operand + 1) && Trace(s0, slots, i, candidates, operand + 1))
      ensures r.Err? ==> !Broken(r.error) && (Hindered() || (r.error == ReducerStateError() && Fatal(s0, i, candidates)))
      ensures old(Hindered()) ==> Hindered()
    {
      hide GraphCode; hide Pending; hide GraphOk; hide Linked; hide QueuesOk; hide MemoOk; hide WorkBudgetOk; hide Exact; hide AcceptSpec;
      hide Trace; hide Fatal; hide Alive; hide ParentWaitsOn; hide Clash;
      ghost var before := slots;
      assert CandidateOk(goal, Hindered(), SubjectOf(works[i]), candidates[operand], vs[operand]);
      match candidates[operand] {
        case Immediate(outcome) =>
          KnownInternalErrors();
          if slots[i].state.Waiting? {
            WaitingFacts(goal, Hindered(), Graph(), ParentLink(i, operand));
            if !Hindered() {
              StartedNext(slots[i].state.reducer, candidates, operand);
            }
          } else if !Hindered() {
            DoneTrace(s0, slots, i, candidates, operand);
          }
          r := AcceptOperand(i, operand, outcome, vs);
          if r.Ok? {
            GraphFacts(goal, Hindered(), Graph(), None, Some(ParentLink(i, operand + 1)));
            if !Hindered() {
              ImmediateTrace(s0, before, slots, i, candidates, operand);
            }
          }
        case Follow(work) =>
          r := ScheduleChildOrError(i, operand, work, vs);
          if r.Ok? {
            GraphFacts(goal, Hindered(), Graph(), None, Some(ParentLink(i, operand + 1)));
            if !Hindered() {
              FollowTrace(s0, before, slots, i, candidates, operand);
            }
          }
      }
    }

    /** Waits for the candidates of a read as a union, starting them while the slot is wanted. */
    method StartCandidates(
      i: WorkId, candidates: seq<Candidate>, resolution: CheckResolution, ghost vs: seq<Truth>) returns (r: Result<()>)
      requires Inv(Some(i), Some(i), None) && Childless(slots, i) && slots[i].state.Processing?
      requires FollowsKeys(goal.nodes, works[i]) && rootResult.None? && KindFits(goal, works[i], UnionOf, |candidates|)
      requires CandidatesOk(goal, Hindered(), SubjectOf(works[i]), candidates, vs) && Any(vs) == goal.value(works[i])
      modifies this`counters, this`slots, this`ready, this`works, this`ops, this`interfered, this`ledger, this`memo, this`rootResult
      ensures BudgetOk()
      ensures r.Ok? ==> Inv(None, None, None) && Evolves() && Measure() < old(Measure())
      ensures !Hindered() ==> (r.Err? <==> Clash(candidates) && StaysWanted(old(slots), i, Ok(Allow(resolution))))
      ensures r.Err? ==> !Broken(r.error) && (Hindered() || r.error == ReducerStateError())
      ensures old(Hindered()) ==> Hindered()
    {
      hide GraphCode; hide Pending; hide GraphOk; hide Linked; hide QueuesOk; hide MemoOk; hide WorkBudgetOk;
      hide StaysWanted; hide Fatal;
      GraphFacts(goal, Hindered(), Graph(), Some(i), None);
      if |candidates| == 0 {
        r := Complete(i, Ok(Deny(Denied)), Some(i), None);
        return;
      }
      AwaitOperands(i, UnionOf, |candidates|, Some(resolution), vs);
      assert Started(slots[i].state, candidates, 0);
      GraphFacts(goal, Hindered(), Graph(), None, Some(ParentLink(i, 0)));
      FatalFromTheStart(old(slots), i, candidates, resolution);
      r := StartAll(i, candidates, vs);
    }

    /** Starts the next candidate if the slot is still wanted. */
    method StartNext(
      i: WorkId, operand: nat, candidates: seq<Candidate>, ghost vs: seq<Truth>, ghost s0: seq<WorkSlot>)
      returns (r: Result<bool>)
      requires Scheduling(i, operand, vs) && 0 < i && operand < |vs| && FollowsKeys(goal.nodes, works[i])
      requires CandidatesOk(goal, Hindered(), SubjectOf(works[i]), candidates, vs)
      requires Linked(s0) && Linked(slots) && i < |s0| <= |slots| && s0[i].state.Waiting?
      requires Hindered() || (Started(slots[i].state, candidates, operand) && Trace(s0, slots, i, candidates, operand))
      modifies this`counters, this`slots, this`ready, this`works, this`ops, this`interfered, this`ledger, this`memo, this`rootResult
      ensures BudgetOk() && (old(Hindered()) ==> Hindered())
      ensures r.Ok? ==> Evolves() && Measure() <= old(Measure()) && CandidatesOk(goal, Hindered(), SubjectOf(works[i]), candidates, vs)
      ensures r.Ok? ==> Linked(slots) && |old(slots)| <= |slots|
      ensures r == Ok(false) ==> Scheduling(i, operand, vs) && !Alive(slots, i)
      ensures r == Ok(false) ==> Hindered() || !Fatal(s0, i, candidates)
      ensures r == Ok(true) ==> Scheduling(i, operand + 1, vs)
      ensures r == Ok(true) ==>
                Hindered() || (Started(slots[i].state, candidates, operand + 1) && Trace(s0, slots, i, candidates, operand + 1))
      ensures r.Err? ==> !Broken(r.error) && (Hindered() || (r.error == ReducerStateError() && Fatal(s0, i, candidates)))
    {
      hide GraphCode; hide Pending; hide GraphOk; hide Linked; hide QueuesOk; hide MemoOk; hide WorkBudgetOk; hide Started;
      hide Trace; hide Fatal; hide Alive;
      ghost var h := Hindered();
      GraphFacts(goal, h, Graph(), None, Some(ParentLink(i, operand)));
      var active := IsActive(i);
      assert active.Ok?;
      if !active.value {
        if !Hindered() {
          StopTrace(s0, slots, i, candidates, operand);
        }
        return Ok(false);
      }
      AliveHasLiveRoot(slots, i);
      var started := StartCandidate(i, operand, candidates, vs, s0);
      CandidatesHinder(goal, h, Hindered(), SubjectOf(old(works)[i]), candidates, vs);
      if started.Err? {
        return Err(started.error);
      }
      return Ok(true);
    }

    /** Starts the candidates in order. An unhindered run fails here exactly in the fatal case. */
    method StartAll(i: WorkId, candidates: seq<Candidate>, ghost vs: seq<Truth>) returns (r: Result<()>)
      requires Scheduling(i, 0, vs) && 0 < i && |candidates| == |vs| && Linked(slots) && slots[i].state.Waiting?
      requires FollowsKeys(goal.nodes, works[i])
      requires CandidatesOk(goal, Hindered(), SubjectOf(works[i]), candidates, vs)
      requires Hindered() || Started(slots[i].state, candidates, 0)
      modifies this`counters, this`slots, this`ready, this`works, this`ops, this`interfered, this`ledger, this`memo, this`rootResult
      ensures BudgetOk() && (old(Hindered()) ==> Hindered())
      ensures r.Ok? ==> Inv(None, None, None) && Evolves() && Measure() <= old(Measure())
      ensures !Hindered() ==> (r.Err? <==> Fatal(old(slots), i, candidates))
      ensures r.Err? ==> !Broken(r.error) && (Hindered() || r.error == ReducerStateError())
    {
      hide GraphCode; hide Pending; hide GraphOk; hide Linked; hide QueuesOk; hide MemoOk; hide WorkBudgetOk; hide CandidatesOk; hide Started;
      hide Alive; hide Fatal; hide Trace;
      ghost var s0 := slots;
      assert Trace(s0, s0, i, candidates, 0) by { TraceStarts(s0, i, candidates); }
      var operand := 0;
      while operand < |candidates|
        invariant 0 <= operand <= |candidates| && Scheduling(i, operand, vs)
        invariant Evolves() && Measure() <= old(Measure())
        invariant CandidatesOk(goal, Hindered(), SubjectOf(works[i]), candidates, vs)
        invariant Linked(slots) && |s0| <= |slots|
        invariant Hindered() || (Started(slots[i].state, candidates, operand) && Trace(s0, slots, i, candidates, operand))
      {
        var next := StartNext(i, operand, candidates, vs, s0);
        if next.Err? {
          return Err(next.error);
        }
        if !next.value {
          CloseSlot(i, operand, vs);
          return Ok(());
        }
        operand := operand + 1;
      }
      if !Hindered() {
        StopTrace(s0, slots, i, candidates, operand);
      }
      CloseSlot(i, operand, vs);
      return Ok(());
    }

    /** Turns the charged rows of a read into operands and starts them. */
    method FinishRows(i: WorkId, read: ReadContinuation, rows: seq<RelationshipTuple>) returns (r: Result<()>)
      requires Configured() && Inv(Some(i), Some(i), None) && Childless(slots, i) && slots[i].state.Processing?
      requires rootResult.None? && Resumes(goal.nodes, works[i], read)
      requires Readable(world.model, read) && |read.path| == read.depth + 1 && read.depth <= budget.depth
      requires rows == Rows(world, read.obj, ReadRelation(read))
      requires ValidModel(world.model) && goal.value(works[i]) == ReadMeaning(world, budget.depth, read)
      modifies this`counters, this`slots, this`ready, this`works, this`ops, this`interfered, this`ledger, this`starved,
               this`memo, this`rootResult
      ensures BudgetOk()
      ensures r.Ok? ==> Inv(None, None, None) && Evolves() && Measure() < old(Measure())
      ensures !Hindered() ==> (r.Err? <==> FatalRead(world, old(slots), i, read))
      ensures r.Err? ==> !Broken(r.error) && (Hindered() || r.error == ReducerStateError())
    {
      hide GraphCode; hide Pending; hide GraphOk; hide Linked; hide QueuesOk; hide MemoOk; hide WorkBudgetOk; hide Configured; hide Meaning; hide Overlap;
      hide Clash; hide DirectRows; hide TtuRows; hide Rows; hide ValidModel; hide StaysWanted;
      ghost var h, a := Hindered(), Graph();
      GraphFacts(goal, h, a, Some(i), None);
      var candidates;
      ghost var vs;
      if read.DirectRead? {
        candidates, vs := CollectDirect(read, rows);
      } else {
        candidates, vs := CollectTtu(read, rows);
      }
      if candidates.Err? {
        return Err(candidates.error);
      }
      Hinder(goal, h, Hindered(), a, Some(i), None);
      r := StartCandidates(i, candidates.value, if read.DirectRead? then Direct else TupleToUserset, vs);
    }

    /** Resumes the slot whose read finished; contextual rows come before the stored ones. */
    method FinishRead(i: WorkId, result: Result<seq<RelationshipTuple>>) returns (r: Result<()>)
      requires Configured() && Inv(None, Some(i), None) && i < |slots| && slots[i].state.Reading? && rootResult.None?
      requires result.Err? ==> Hindered() && !Broken(result.error)
      requires result.Ok? ==>
                 var read := slots[i].state.continuation;
                 Readable(world.model, read) ==>
                   result.value == world.stored(read.obj, world.model.relations[ReadRelation(read)].name)
      requires result.Ok? && metered ==> rowsHanded + |result.value| <= ledger.granted.items
      modifies this`counters, this`slots, this`ready, this`works, this`ops, this`interfered, this`ledger, this`starved,
               this`memo, this`rootResult, this`rowsSeen, this`rowsHanded
      ensures BudgetOk()
      ensures r.Ok? ==> Inv(None, None, None) && Evolves() && Measure() < old(Measure())
      ensures !Hindered() ==> (r.Err? <==> FatalRead(world, old(slots), i, old(slots[i].state.continuation)))
      ensures r.Err? ==> Explained(r.error, SubjectOf(old(works[0])))
    {
      hide GraphCode; hide Pending; hide GraphOk; hide Linked; hide QueuesOk; hide MemoOk; hide WorkBudgetOk; hide Configured; hide Meaning; hide ReadMeaning;
      hide ValidModel; hide Resumes; hide Exact; hide Overlapping; hide Readable; hide Overlap; hide Rows; hide ParentWaitsOn;
      GraphFacts(goal, Hindered(), Graph(), None, None);
      var active := IsActive(i);
      assert active.Ok?;
      if !active.value {
        Drop(i);
        return Ok(());
      }
      var read := slots[i].state.continuation;
      Take(i);
      GraphFacts(goal, Hindered(), Graph(), Some(i), None);
      StaysWantedSame(old(slots), i, Processing, Ok(Allow(Direct)));
      r := ResumeRead(i, read, result);
    }

    method ResumeRead(i: WorkId, read: ReadContinuation, result: Result<seq<RelationshipTuple>>) returns (r: Result<()>)
      requires Configured() && Inv(Some(i), Some(i), None) && Childless(slots, i) && slots[i].state.Processing?
      requires rootResult.None? && Resumes(goal.nodes, works[i], read)
      requires result.Err? ==> Hindered() && !Broken(result.error)
      requires result.Ok? && Readable(world.model, read) ==>
                 result.value == world.stored(read.obj, world.model.relations[ReadRelation(read)].name)
      requires result.Ok? && metered ==> rowsHanded + |result.value| <= ledger.granted.items
      modifies this`counters, this`slots, this`ready, this`works, this`ops, this`interfered, this`ledger, this`starved,
               this`memo, this`rootResult, this`rowsSeen, this`rowsHanded
      ensures BudgetOk()
      ensures r.Ok? ==> Inv(None, None, None) && Evolves() && Measure() < old(Measure())
      ensures !Hindered() ==> (r.Err? <==> FatalRead(world, old(slots), i, read))
      ensures r.Err? ==> Explained(r.error, SubjectOf(old(works[0])))
    {
      hide GraphCode; hide Pending; hide GraphOk; hide Linked; hide QueuesOk; hide MemoOk; hide WorkBudgetOk; hide Configured; hide Meaning; hide ReadMeaning;
      hide ValidModel; hide Exact; hide Overlapping;
      ghost var a, h := Graph(), Hindered();
      GraphFacts(goal, h, a, Some(i), None);
      ConfiguredFacts();
      GoalIs(works[i]);
      ReadIsReadable(world, budget.depth, works[i], read);
      if result.Err? {
        AnyErrorIsExact(result.error, goal.value(works[i]));
        r := Complete(i, Err(result.error), Some(i), None);
        return;
      }
      var contextual := world.contextual(read.obj, world.model.relations[ReadRelation(read)].name);
      var charged := ChargeTupleItems(|result.value|, |contextual|);
      Hinder(goal, h, Hindered(), a, Some(i), None);
      if charged.Err? {
        AnyErrorIsExact(charged.error, goal.value(works[i]));
        r := Complete(i, Err(charged.error), Some(i), None);
        return;
      }
      ghost var b := Graph();
      r := FinishRows(i, read, contextual + result.value);
      if r.Err? && !Hindered() {
        FatalReadOverlaps(goal, h, b, i, world, read);
      }
    }

    // -------------------------------------------------------------------------
    // The run
    // -------------------------------------------------------------------------

    /** While the root has no result, some slot is ready or some read is in flight. */
    lemma {:induction false} NeverStalls()
      requires Inv(None, None, None) && rootResult.None?
      ensures ready != [] || inflight != {}
    {
      var k := SomeoneWorks(goal, Hindered(), Graph(), 0);
    }

    method Start(root: SemanticKey) returns (r: Result<()>)
      requires Configured() && BudgetOk() && !Hindered()
      requires slots == [] && works == [] && ops == [] && ready == [] && inflight == {}
      requires memo == map[] && rootResult == None
      modifies this`counters, this`slots, this`ready, this`works, this`ops, this`interfered, this`ledger
      ensures BudgetOk()
      ensures r.Ok? ==> Inv(None, None, None) && rootResult.None? && works == [Semantic(root, {}, 0)]
      ensures r.Ok? ==> slots == [WorkSlot(None, None, Queued(Semantic(root, {}, 0)))]
      ensures r.Err? ==> Hindered() && !Broken(r.error)
    {
      hide GraphCode; hide Configured; hide Meaning; hide WorkBudgetOk;
      ConfiguredFacts();
      var id := Schedule(Semantic(root, {}, 0), None);
      if id.Err? {
        return Err(id.error);
      }
      if id.value != 0 {
        return Err(InternalError("root_work_id_invalid"));
      }
      return Ok(());
    }

    /** One pass over the slots that were ready when the pass began. */
    method ProcessReady() returns (r: Result<()>)
      requires Configured() && Inv(None, None, None) && rootResult.None?
      modifies this`counters, this`cycles, this`maximumDepth, this`slots, this`ready, this`inflight, this`works, this`ops,
               this`interfered, this`ledger, this`readsStarted, this`memo, this`rootResult
      ensures BudgetOk()
      ensures r.Ok? ==> Inv(None, None, None) && old(works) <= works && (old(Hindered()) ==> Hindered())
      ensures r.Ok? ==> Measure() <= old(Measure()) && old(inflight) <= inflight
      ensures r.Ok? && inflight == {} && rootResult.None? ==> Measure() < old(Measure())
      ensures r.Ok? ==> KeepsDoom()
      ensures r.Err? ==> Hindered() && !Broken(r.error)
    {
      hide GraphCode; hide Pending; hide GraphOk; hide Linked; hide MemoOk; hide WorkBudgetOk; hide Configured; hide Continues;
      hide Doomed;
      NeverStalls();
      ConfiguredFacts();
      var available := |ready|;
      var n := 0;
      while n < available && rootResult.None?
        invariant 0 <= n <= available && Inv(None, None, None) && available <= n + |ready|
        invariant old(works) <= works && (old(Hindered()) ==> Hindered()) && old(inflight) <= inflight
        invariant Measure() <= old(Measure()) && (n > 0 ==> Measure() < old(Measure()) || inflight != {})
        invariant KeepsDoom()
        decreases available - n
      {
        if |ready| == 0 {
          break;
        }
        var i := ready[0];
        Pop();
        r := Process(i);
        if r.Err? {
          return;
        }
        n := n + 1;
      }
      return Ok(());
    }

    /** Removes the front of the ready queue, which is then the held slot. */
    method Pop()
      requires Inv(None, None, None) && |ready| > 0
      modifies this`ready
      ensures ready == old(ready)[1..] && Inv(None, Some(old(ready)[0]), None)
      ensures old(ready)[0] < |slots| && slots[old(ready)[0]].state.Queued?
    {
      hide GraphCode; hide Pending; hide GraphOk; hide Linked; hide MemoOk; hide WorkBudgetOk;
      QueuesPop(slots, ready, inflight);
      ready := ready[1..];
    }

    /** A finished read leaves the set in flight; its slot is then held. */
    method Land(i: WorkId)
      requires Inv(None, None, None) && i in inflight
      modifies this`inflight
      ensures Inv(None, Some(i), None) && i < |slots| && slots[i].state.Reading?
    {
      hide GraphCode; hide Pending; hide GraphOk; hide Linked; hide MemoOk;
      inflight := inflight - {i};
    }

    /** Some read in flight finishes: any of them, with the stored rows or with a failure. */
    method JoinNext() returns (r: Result<()>)
      requires Configured() && Inv(None, None, None) && rootResult.None? && inflight != {}
      modifies this`counters, this`slots, this`ready, this`inflight, this`works, this`ops, this`interfered, this`ledger, this`starved,
               this`memo, this`rootResult, this`rowsSeen, this`rowsHanded
      ensures BudgetOk()
      ensures r.Ok? ==> Inv(None, None, None) && old(works) <= works && Measure() < old(Measure())
      ensures r.Ok? ==> (old(Hindered()) || old(Doomed()) ==> Hindered())
      ensures r.Err? ==> Explained(r.error, SubjectOf(old(works[0])))
    {
      hide GraphCode; hide Pending; hide GraphOk; hide Linked; hide QueuesOk; hide MemoOk; hide WorkBudgetOk; hide Configured; hide Continues; hide Overlapping;
      hide FatalRead; hide Doomed;
      var i :| i in inflight;
      if Doomed() {
        QueuesFacts(slots, ready, inflight, i);
        DoomedReads(i);
      }
      Land(i);
      ghost var a, h := Graph(), Hindered();
      if * {
        interfered := true;
        KnownInternalErrors();
        return Err(InternalError("datastore_read_task_failed"));
      }
      var result := FetchRows(slots[i].state.continuation);
      Hinder(goal, h, Hindered(), a, None, None);
      r := FinishRead(i, result);
    }

    /** One turn of the loop: the ready slots, and then a finished read if any is in flight. */
    method Pass() returns (r: Result<()>)
      requires Configured() && Inv(None, None, None) && rootResult.None?
      modifies this
      ensures BudgetOk()
      ensures r.Ok? ==> Inv(None, None, None) && old(works) <= works
      ensures r.Ok? && rootResult.None? ==> Measure() < old(Measure())
      ensures r.Ok? ==> KeepsDoom() && (old(Hindered()) ==> Hindered())
      ensures r.Err? ==> Explained(r.error, SubjectOf(old(works[0])))
    {
      hide GraphCode; hide Pending; hide GraphOk; hide Linked; hide MemoOk; hide QueuesOk; hide WorkBudgetOk; hide Configured;
      hide Overlapping; hide Exact; hide Doomed;
      ghost var a, h := Graph(), Hindered();
      var context := CheckContext();
      if context.Err? {
        return Err(context.error);
      }
      Hinder(goal, h, Hindered(), a, None, None);
      var processed := ProcessReady();
      if processed.Err? {
        return Err(processed.error);
      }
      if rootResult.Some? {
        return Ok(());
      }
      NeverStalls();
      if inflight == {} {
        if ready == [] {
          assert false;
        }
        return Ok(());
      }
      if * {
        interfered := true;
        return Err(CheckError(Cancelled, "check_cancelled"));
      } else if * {
        interfered := true;
        return Err(CheckError(Timeout, "check_deadline_elapsed"));
      }
      r := JoinNext();
    }

    /** Runs one root to its result. Whatever order ready slots and reads take, whatever the
        budgets and the environment do: an answer is the branch-path evaluation, and an error
        means that evaluation is undetermined or something got in the way. */
    method Drive(root: SemanticKey) returns (r: Result<Decision>)
      requires Configured() && BudgetOk() && !Hindered()
      requires slots == [] && works == [] && ops == [] && ready == [] && inflight == {}
      requires memo == map[] && rootResult == None
      modifies this
      ensures BudgetOk() && ValidModel(world.model)
      ensures r.Ok? ==> Eval(world, budget.depth, root, {}) == FromBool(r.value.allowed)
      ensures FatalRoot(world, root) ==> Hindered() || r == Err(ReducerStateError())
      ensures r.Err? ==> !Broken(r.error) && (Eval(world, budget.depth, root, {}) == Unknown || Explained(r.error, root.subject))
    {
      hide GraphCode; hide Pending; hide GraphOk; hide Linked; hide MemoOk; hide QueuesOk; hide WorkBudgetOk; hide Configured; hide Meaning; hide Eval;
      hide Overlapping; hide FatalRoot; hide Pristine;
      ghost var work := Semantic(root, {}, 0);
      GoalIs(work);
      ConfiguredFacts();
      SemanticIs(world, budget.depth, root, {}, 0);
      var started := Start(root);
      if started.Err? {
        return Err(started.error);
      }
      assert Pristine(world.model.nodes, slots, works) by { OneQueuedIsPristine(world.model.nodes, slots, works); }
      while rootResult.None?
        invariant Inv(None, None, None) && works[0] == work
        invariant FatalRoot(world, root) && !Hindered() ==> Doomed()
        decreases Measure()
      {
        var passed := Pass();
        if passed.Err? {
          return Err(passed.error);
        }
        if rootResult.Some? {
          break;
        }
      }
      if Doomed() {
        DoomedHasNoResult();
      }
      r := rootResult.value;
      rootResult := None;
    }

    /** Aborts the reads still in flight; their tasks may have charged the meter before. */
    method AbortReads()
      requires BudgetOk()
      modifies this`inflight, this`interfered, this`ledger, this`rowsSeen
      ensures BudgetOk() && inflight == {} && Performed() == old(Performed())
    {
      while inflight != {}
        invariant BudgetOk()
        decreases |inflight|
      {
        var i :| i in inflight;
        inflight := inflight - {i};
        var charged: bool := *;
        if charged && i < |slots| && slots[i].state.Reading? {
          var fetched := FetchRows(slots[i].state.continuation);
        }
      }
    }
  }
}
