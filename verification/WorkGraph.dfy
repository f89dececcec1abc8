/** The arena of work slots: its data, its invariant, and one lemma for every
    kind of step the scheduler takes on it. */
module WorkGraph {
  import opened Kleene
  import opened Outcomes
  import opened CompiledModels
  import opened Semantics
  import opened Reducers

  type WorkId = nat

  datatype WorkKind =
    | Semantic(key: SemanticKey, path: Path, depth: nat)
    | Rewrite(obj: ObjectRef, node: NodeId, subject: SubjectRef, path: Path, depth: nat)

  datatype ParentLink = ParentLink(work: WorkId, operand: nat)

  datatype MemoKey = MemoKey(semantic: SemanticKey, branchPath: Path)

  datatype ReadContinuation =
    | DirectRead(relation: RelationId, obj: ObjectRef, subject: SubjectRef, path: Path, depth: nat)
    | TtuRead(tupleset: RelationId, targets: seq<RelationId>,
              obj: ObjectRef, subject: SubjectRef, path: Path, depth: nat)

  datatype WorkState =
    | Queued(kind: WorkKind)
    | Processing
    | Waiting(reducer: ReducerState)
    | Reading(continuation: ReadContinuation)
    | Completed

  datatype WorkSlot = WorkSlot(parent: Option<ParentLink>, memoKey: Option<MemoKey>, state: WorkState)

  /** The slots together with what each was created to compute and the true values of the
      operands each is waiting for. */
  datatype Arena = Arena(slots: seq<WorkSlot>, works: seq<WorkKind>, ops: seq<seq<Truth>>)

  /** What the graph is measured against: the true value of every piece of work, the rewrite
      nodes, the root node of every relation, and the depth limit. */
  datatype Target = Target(value: WorkKind -> Truth, nodes: seq<RewriteNode>, roots: seq<NodeId>, limit: nat)

  /** Depth equals path size for semantic work, and is one less for rewrite work. */
  predicate DepthIsPathSize(limit: nat, work: WorkKind) {
    match work
    case Semantic(_, path, depth) => |path| == depth && depth <= limit + 1
    case Rewrite(_, _, _, path, depth) => |path| == depth + 1 && depth <= limit
  }

  predicate Resumes(nodes: seq<RewriteNode>, work: WorkKind, read: ReadContinuation) {
    && work.Rewrite? && work.node < |nodes|
    && read.obj == work.obj && read.subject == work.subject && read.path == work.path && read.depth == work.depth
    && match read
       case DirectRead(relation, _, _, _, _) => nodes[work.node] == DirectNode(relation)
       case TtuRead(tupleset, targets, _, _, _, _) => nodes[work.node] == TtuNode(tupleset, targets)
  }

  function SubjectOf(work: WorkKind): SubjectRef {
    if work.Semantic? then work.key.subject else work.subject
  }

  /** Operand `j` of a rewrite node is the node `n`. */
  predicate OperandAt(node: RewriteNode, j: nat, n: NodeId) {
    match node
    case UnionNode(ns) => j < |ns| && ns[j] == n
    case IntersectionNode(ns) => j < |ns| && ns[j] == n
    case DifferenceNode(base, subtract) => j < 2 && n == [base, subtract][j]
    case _ => false
  }

  /** The rewrite asks about other keys, not about operands of its own. */
  predicate FollowsKeys(nodes: seq<RewriteNode>, work: WorkKind) {
    && work.Rewrite? && work.node < |nodes|
    && (nodes[work.node].DirectNode? || nodes[work.node].ComputedNode? || nodes[work.node].TtuNode?)
  }

  /** Semantic work expands into its relation's rewrite, a rewrite into its operands or into keys
      about the same subject. */
  predicate Begets(g: Target, parent: WorkKind, j: nat, child: WorkKind) {
    match parent
    case Semantic(key, path, depth) =>
      key.relation < |g.roots| && child == Rewrite(key.obj, g.roots[key.relation], key.subject, path + {key}, depth)
    case Rewrite(obj, node, subject, path, depth) =>
      match child
      case Semantic(key, _, _) => key.subject == subject && FollowsKeys(g.nodes, parent)
      case Rewrite(_, n, _, _, _) =>
        child == Rewrite(obj, n, subject, path, depth) && node < |g.nodes| && OperandAt(g.nodes[node], j, n)
  }

  /** The reducer that awaits the operands of a rewrite node. */
  function KindOf(node: RewriteNode): ReducerKind {
    match node
    case DirectNode(_) => UnionOf
    case ComputedNode(_) => SingleOf
    case TtuNode(_, _) => UnionOf
    case UnionNode(_) => UnionOf
    case IntersectionNode(_) => IntersectionOf
    case DifferenceNode(_, _) => DifferenceOf
  }

  /** The work awaits its operands under its own connective, an intersection all of them. */
  predicate KindFits(g: Target, work: WorkKind, kind: ReducerKind, n: nat) {
    match work
    case Semantic(_, _, _) => kind == SingleOf
    case Rewrite(_, node, _, _, _) =>
      && node < |g.nodes| && kind == KindOf(g.nodes[node])
      && (g.nodes[node].IntersectionNode? ==> |g.nodes[node].nodes| == n)
  }

  // ---------------------------------------------------------------------------
  // The invariant
  // ---------------------------------------------------------------------------

  predicate ChildOf(slots: seq<WorkSlot>, c: WorkId, p: WorkId, operand: nat) {
    c < |slots| && slots[c].parent == Some(ParentLink(p, operand))
  }

  predicate Done(slots: seq<WorkSlot>, i: WorkId) {
    i < |slots| && slots[i].state.Completed?
  }

  /** A forest rooted at slot 0, parents first, one slot per operand. */
  ghost predicate Linked(slots: seq<WorkSlot>) {
    && (forall i :: 0 <= i < |slots| ==> (slots[i].parent.None? <==> i == 0))
    && (forall c: nat, p: nat, j: nat :: ChildOf(slots, c, p, j) ==> p < c)
    && (forall c: nat, d: nat, p: nat, j: nat :: ChildOf(slots, c, p, j) && ChildOf(slots, d, p, j) ==> c == d)
  }

  predicate MemoKeyOk(slot: WorkSlot, work: WorkKind) {
    slot.memoKey.Some? ==> work.Semantic? && slot.memoKey == Some(MemoKey(work.key, work.path))
  }

  ghost predicate StateOk(g: Target, h: bool, state: WorkState, work: WorkKind, ops: seq<Truth>)
  {
    match state
    case Queued(kind) => kind == work
    case Processing => false
    case Waiting(r) =>
      && WellFormed(r) && r.remaining > 0 && ExactAll(h, r.outcomes, ops)
      && Combine(r.kind, ops) == g.value(work) && KindFits(g, work, r.kind, |ops|)
    case Reading(read) => Resumes(g.nodes, work, read)
    case Completed => true
  }

  ghost predicate SlotsOk(g: Target, h: bool, a: Arena, busy: Option<WorkId>)
  {
    && |a.slots| == |a.works| == |a.ops|
    && forall i :: 0 <= i < |a.slots| ==>
         && DepthIsPathSize(g.limit, a.works[i])
         && MemoKeyOk(a.slots[i], a.works[i])
         && (busy != Some(i) ==> StateOk(g, h, a.slots[i].state, a.works[i], a.ops[i]))
         && (busy == Some(i) ==> a.slots[i].state.Processing? || a.slots[i].state.Waiting?)
  }

  predicate Answered(r: ReducerState, j: nat) {
    j < |r.outcomes| && r.outcomes[j].Some?
  }

  /** Children feed the operand they were created for; an answered operand's child is done. */
  ghost predicate FamilyOk(g: Target, a: Arena, busy: Option<WorkId>)
    requires |a.slots| == |a.works| == |a.ops|
  {
    forall c: nat, p: nat, j: nat :: ChildOf(a.slots, c, p, j) && p < |a.slots| && !Done(a.slots, p) ==>
      && a.slots[p].state.Waiting?
      && j < |a.ops[p]| && g.value(a.works[c]) == a.ops[p][j]
      && (busy != Some(p) ==> !Answered(a.slots[p].state.reducer, j) || Done(a.slots, c))
  }

  /** Every slot's work follows from its parent's. */
  ghost predicate Lineage(g: Target, slots: seq<WorkSlot>, works: seq<WorkKind>)
    requires |slots| == |works|
  {
    forall c: nat, p: nat, j: nat :: ChildOf(slots, c, p, j) && p < |slots| ==> Begets(g, works[p], j, works[c])
  }

  /** No proper ancestor is completed. */
  ghost predicate Alive(slots: seq<WorkSlot>, i: WorkId)
    requires Linked(slots) && i < |slots|
    decreases i
  {
    i == 0 ||
    (assert ChildOf(slots, i, slots[i].parent.value.work, slots[i].parent.value.operand);
     !Done(slots, slots[i].parent.value.work) && Alive(slots, slots[i].parent.value.work))
  }

  predicate Missed(slots: seq<WorkSlot>, p: WorkId, j: nat) {
    && p < |slots| && slots[p].state.Waiting?
    && j < |slots[p].state.reducer.outcomes| && slots[p].state.reducer.outcomes[j].None?
  }

  /** Operands from `open.operand` on of slot `open.work` have not been scheduled yet. */
  predicate Unscheduled(open: Option<ParentLink>, p: WorkId, j: nat) {
    open.Some? && open.value.work == p && open.value.operand <= j
  }

  ghost predicate Served(slots: seq<WorkSlot>, p: WorkId, j: nat) {
    exists c: nat :: ChildOf(slots, c, p, j) && !Done(slots, c)
  }

  /** Every operand a live slot still misses has a child at work on it. */
  ghost predicate Fed(slots: seq<WorkSlot>, busy: Option<WorkId>, open: Option<ParentLink>)
    requires Linked(slots)
  {
    forall p: nat, j: nat :: Missed(slots, p, j) && busy != Some(p) && !Unscheduled(open, p, j) && Alive(slots, p) ==>
      Served(slots, p, j)
  }

  /** Unscheduled operands have no child and no outcome. */
  ghost predicate OpenOk(slots: seq<WorkSlot>, busy: Option<WorkId>, open: Option<ParentLink>) {
    open.Some? ==>
      && open.value.work < |slots|
      && (forall c: nat, j: nat :: ChildOf(slots, c, open.value.work, j) ==> j < open.value.operand)
      && (busy != Some(open.value.work) && slots[open.value.work].state.Waiting? ==>
            forall j :: open.value.operand <= j < |slots[open.value.work].state.reducer.outcomes| ==>
              slots[open.value.work].state.reducer.outcomes[j].None?)
  }

  ghost predicate GraphOk(
    g: Target, h: bool, a: Arena, busy: Option<WorkId>, open: Option<ParentLink>)
  {
    && Linked(a.slots)
    && SlotsOk(g, h, a, busy)
    && FamilyOk(g, a, busy)
    && Lineage(g, a.slots, a.works)
    && Fed(a.slots, busy, open)
    && OpenOk(a.slots, busy, open)
    && (busy.Some? ==> busy.value < |a.slots|)
  }

  lemma {:induction false} AliveHasLiveRoot(slots: seq<WorkSlot>, i: WorkId)
    requires Linked(slots) && 0 < i < |slots| && Alive(slots, i)
    ensures !Done(slots, 0)
  {
    var link := slots[i].parent.value;
    assert ChildOf(slots, i, link.work, link.operand);
    if link.work > 0 {
      AliveHasLiveRoot(slots, link.work);
    }
  }

  /** The plain facts other proofs need of an orderly graph. */
  lemma {:induction false} GraphFacts(g: Target, h: bool, a: Arena, busy: Option<WorkId>, open: Option<ParentLink>)
    requires GraphOk(g, h, a, busy, open)
    ensures Linked(a.slots) && |a.slots| == |a.works| == |a.ops|
    ensures forall i :: 0 <= i < |a.slots| ==> (a.slots[i].parent.None? <==> i == 0)
    ensures busy.Some? ==>
              && busy.value < |a.slots|
              && DepthIsPathSize(g.limit, a.works[busy.value])
              && MemoKeyOk(a.slots[busy.value], a.works[busy.value])
              && (a.slots[busy.value].state.Processing? || a.slots[busy.value].state.Waiting?)
    ensures open.Some? ==> open.value.work < |a.slots|
  {
    hide Lineage;
  }

  /** What is known of the waiting slot whose operands are being scheduled. */
  lemma {:induction false} WaitingFacts(g: Target, h: bool, a: Arena, link: ParentLink)
    requires GraphOk(g, h, a, None, Some(link)) && a.slots[link.work].state.Waiting?
    ensures |a.slots| == |a.works| == |a.ops| && Linked(a.slots)
    ensures var r := a.slots[link.work].state.reducer;
            && WellFormed(r) && ExactAll(h, r.outcomes, a.ops[link.work])
            && Combine(r.kind, a.ops[link.work]) == g.value(a.works[link.work])
            && forall j :: link.operand <= j < |r.outcomes| ==> r.outcomes[j].None?
  {
    hide Lineage;
  }

  ghost predicate Childless(slots: seq<WorkSlot>, p: WorkId) {
    forall c: nat, j: nat :: !ChildOf(slots, c, p, j)
  }

  // ---------------------------------------------------------------------------
  // Frame lemmas
  // ---------------------------------------------------------------------------

  /** `after` keeps every link of `before` and completes no fewer slots. */
  ghost predicate Continues(before: seq<WorkSlot>, after: seq<WorkSlot>) {
    && |before| <= |after|
    && forall i :: 0 <= i < |before| ==>
         && after[i].parent == before[i].parent
         && (before[i].state.Completed? ==> after[i].state.Completed?)
  }

  lemma {:induction false} StateContinues(slots: seq<WorkSlot>, i: WorkId, state: WorkState)
    requires i < |slots| && !slots[i].state.Completed?
    ensures Continues(slots, slots[i := slots[i].(state := state)])
  {
  }

  lemma {:induction false} ContinuesOn(a: seq<WorkSlot>, b: seq<WorkSlot>, c: seq<WorkSlot>)
    requires Continues(a, b) && Continues(b, c)
    ensures Continues(a, c)
  {
  }

  lemma {:induction false} AliveShrinks(before: seq<WorkSlot>, after: seq<WorkSlot>, i: WorkId)
    requires Linked(before) && Linked(after) && Continues(before, after) && i < |before|
    ensures Alive(after, i) ==> Alive(before, i)
    decreases i
  {
    if i > 0 {
      var p := before[i].parent.value;
      assert ChildOf(before, i, p.work, p.operand);
      AliveShrinks(before, after, p.work);
    }
  }

  lemma {:induction false} LinkedSame(before: seq<WorkSlot>, after: seq<WorkSlot>)
    requires Linked(before) && Continues(before, after) && |before| == |after|
    ensures Linked(after)
    ensures forall c: nat, p: nat, j: nat :: ChildOf(after, c, p, j) <==> ChildOf(before, c, p, j)
  {
    forall c: nat, p: nat, j: nat ensures ChildOf(after, c, p, j) <==> ChildOf(before, c, p, j) {}
  }

  lemma {:induction false} LineageSame(
    g: Target, before: seq<WorkSlot>, after: seq<WorkSlot>, works: seq<WorkKind>)
    requires |before| == |after| == |works| && Continues(before, after) && Lineage(g, before, works)
    ensures Lineage(g, after, works)
  {
    hide Begets;
    forall c: nat, p: nat, j: nat ensures ChildOf(after, c, p, j) <==> ChildOf(before, c, p, j) {}
  }

  /** Everything asks about the root's subject. */
  lemma {:induction false} SubjectIsTheRoots(g: Target, slots: seq<WorkSlot>, works: seq<WorkKind>, i: WorkId)
    requires |slots| == |works| && Linked(slots) && Lineage(g, slots, works) && i < |slots|
    ensures SubjectOf(works[i]) == SubjectOf(works[0])
    decreases i
  {
    if i > 0 {
      var link := slots[i].parent.value;
      assert ChildOf(slots, i, link.work, link.operand);
      SubjectIsTheRoots(g, slots, works, link.work);
    }
  }

  /** A slot update that keeps links: `Fed` survives if every still-missed operand was missed
      before and its server is not the slot just completed. */
  lemma {:induction false} FedSame(
    before: seq<WorkSlot>, after: seq<WorkSlot>,
    busy: Option<WorkId>, busy': Option<WorkId>, open: Option<ParentLink>, open': Option<ParentLink>)
    requires Linked(before) && Linked(after) && Continues(before, after) && |before| == |after|
    requires Fed(before, busy, open)
    requires forall p: nat, j: nat :: Missed(after, p, j) && busy' != Some(p) && !Unscheduled(open', p, j) && Alive(after, p) ==>
               && Missed(before, p, j) && busy != Some(p) && !Unscheduled(open, p, j)
               && forall c: nat :: ChildOf(before, c, p, j) && !Done(before, c) ==> !Done(after, c)
    ensures Fed(after, busy', open')
  {
    forall p: nat, j: nat | Missed(after, p, j) && busy' != Some(p) && !Unscheduled(open', p, j) && Alive(after, p)
      ensures Served(after, p, j)
    {
      AliveShrinks(before, after, p);
      assert Served(before, p, j);
      var c :| ChildOf(before, c, p, j) && !Done(before, c);
      assert ChildOf(after, c, p, j) && !Done(after, c);
    }
  }

  // ---------------------------------------------------------------------------
  // Steps
  // ---------------------------------------------------------------------------

  function WithState(a: Arena, i: WorkId, state: WorkState): Arena
    requires i < |a.slots|
  {
    a.(slots := a.slots[i := a.slots[i].(state := state)])
  }

  /** Learning that the run is hindered only weakens what is claimed of errors. */
  lemma {:induction false} Hinder(g: Target, h: bool, h': bool, a: Arena, busy: Option<WorkId>, open: Option<ParentLink>)
    requires GraphOk(g, h, a, busy, open) && (h ==> h')
    ensures GraphOk(g, h', a, busy, open)
  {
    hide Lineage;
    forall i | 0 <= i < |a.slots| && busy != Some(i)
      ensures StateOk(g, h', a.slots[i].state, a.works[i], a.ops[i])
    {
    }
  }

  /** Taking a queued or reading slot in hand. */
  lemma {:induction false} TakeInHand(g: Target, h: bool, a: Arena, i: WorkId)
    requires GraphOk(g, h, a, None, None)
    requires i < |a.slots| && (a.slots[i].state.Queued? || a.slots[i].state.Reading?)
    ensures GraphOk(g, h, WithState(a, i, Processing), Some(i), None)
    ensures Childless(WithState(a, i, Processing).slots, i)
    ensures a.slots[i].state.Queued? ==> a.works[i] == a.slots[i].state.kind
    ensures a.slots[i].state.Reading? ==> Resumes(g.nodes, a.works[i], a.slots[i].state.continuation)
  {
    hide Lineage;
    var b := WithState(a, i, Processing);
    LinkedSame(a.slots, b.slots);
    LineageSame(g, a.slots, b.slots, a.works);
    forall c: nat, j: nat ensures !ChildOf(a.slots, c, i, j) {}
    FedSame(a.slots, b.slots, None, Some(i), None, None);
  }

  /** Putting a childless slot back: deferred, or waiting for a read. */
  lemma {:induction false} Suspend(g: Target, h: bool, a: Arena, i: WorkId, state: WorkState)
    requires GraphOk(g, h, a, Some(i), None)
    requires Childless(a.slots, i)
    requires state.Queued? || state.Reading?
    requires StateOk(g, h, state, a.works[i], a.ops[i])
    ensures GraphOk(g, h, WithState(a, i, state), None, None)
  {
    hide Lineage;
    var b := WithState(a, i, state);
    LinkedSame(a.slots, b.slots);
    LineageSame(g, a.slots, b.slots, a.works);
    FedSame(a.slots, b.slots, Some(i), None, None, None);
  }

  /** Starting to wait for operands with the given true values; none is scheduled yet. */
  lemma {:induction false} Await(
    g: Target, h: bool, a: Arena, i: WorkId,
    kind: ReducerKind, resolution: Option<CheckResolution>, ops: seq<Truth>)
    requires GraphOk(g, h, a, Some(i), None)
    requires Childless(a.slots, i)
    requires ArityOk(kind, |ops|) && Combine(kind, ops) == g.value(a.works[i]) && KindFits(g, a.works[i], kind, |ops|)
    ensures GraphOk(g, h,
                    WithState(a, i, Waiting(Fresh(kind, |ops|, resolution))).(ops := a.ops[i := ops]),
                    None, Some(ParentLink(i, 0)))
  {
    hide Lineage;
    var b := WithState(a, i, Waiting(Fresh(kind, |ops|, resolution))).(ops := a.ops[i := ops]);
    MissingFresh(|ops|);
    LinkedSame(a.slots, b.slots);
    LineageSame(g, a.slots, b.slots, a.works);
    assert b.slots[i].state.reducer.outcomes == seq(|ops|, _ => None);
    FedSame(a.slots, b.slots, Some(i), None, None, Some(ParentLink(i, 0)));
  }

  /** Scheduling the next operand of the open slot. */
  lemma {:induction false} Push(g: Target, h: bool, a: Arena, link: ParentLink, kind: WorkKind)
    requires GraphOk(g, h, a, None, Some(link))
    requires DepthIsPathSize(g.limit, kind) && Begets(g, a.works[link.work], link.operand, kind)
    requires a.slots[link.work].state.Waiting? || a.slots[link.work].state.Completed?
    requires a.slots[link.work].state.Waiting? ==>
               && link.operand < |a.ops[link.work]|
               && g.value(kind) == a.ops[link.work][link.operand]
    ensures GraphOk(g, h,
                    Arena(a.slots + [WorkSlot(Some(link), None, Queued(kind))], a.works + [kind], a.ops + [[]]),
                    None, Some(ParentLink(link.work, link.operand + 1)))
  {
    var n := |a.slots|;
    var slot := WorkSlot(Some(link), None, Queued(kind));
    var b := Arena(a.slots + [slot], a.works + [kind], a.ops + [[]]);
    var open := Some(ParentLink(link.work, link.operand + 1));
    forall c: nat, p: nat, j: nat | ChildOf(b.slots, c, p, j)
      ensures ChildOf(a.slots, c, p, j) || (c == n && p == link.work && j == link.operand)
    {
    }
    forall c: nat, d: nat, p: nat, j: nat | ChildOf(b.slots, c, p, j) && ChildOf(b.slots, d, p, j) ensures c == d {
      assert (c != n ==> ChildOf(a.slots, c, p, j)) && (d != n ==> ChildOf(a.slots, d, p, j));
    }
    assert Linked(b.slots);
    forall p: nat, j: nat | Missed(b.slots, p, j) && !Unscheduled(open, p, j) && Alive(b.slots, p)
      ensures Served(b.slots, p, j)
    {
      if p == link.work && j == link.operand {
        assert ChildOf(b.slots, n, p, j) && !Done(b.slots, n);
      } else {
        AliveShrinks(a.slots, b.slots, p);
        assert Missed(a.slots, p, j) && !Unscheduled(Some(link), p, j);
        assert Served(a.slots, p, j);
        var c :| ChildOf(a.slots, c, p, j) && !Done(a.slots, c);
        assert ChildOf(b.slots, c, p, j) && !Done(b.slots, c);
      }
    }
  }

  /** Remembering where the slot in hand records its decision. */
  lemma {:induction false} Remember(g: Target, h: bool, a: Arena, i: WorkId, key: MemoKey)
    requires GraphOk(g, h, a, Some(i), None)
    requires a.works[i].Semantic? && key == MemoKey(a.works[i].key, a.works[i].path)
    ensures GraphOk(g, h, a.(slots := a.slots[i := a.slots[i].(memoKey := Some(key))]), Some(i), None)
  {
    hide Lineage;
    var b := a.(slots := a.slots[i := a.slots[i].(memoKey := Some(key))]);
    LinkedSame(a.slots, b.slots);
    LineageSame(g, a.slots, b.slots, a.works);
    FedSame(a.slots, b.slots, Some(i), Some(i), None, None);
  }

  function Finished(slot: WorkSlot): WorkSlot {
    slot.(state := Completed, memoKey := None)
  }

  /** A slot with a completed ancestor is dropped: nobody alive misses its answer. */
  lemma {:induction false} Abandon(g: Target, h: bool, a: Arena, i: WorkId)
    requires GraphOk(g, h, a, None, None) && i < |a.slots|
    requires !a.slots[i].state.Waiting? && !Alive(a.slots, i)
    ensures GraphOk(g, h, WithState(a, i, Completed), None, None)
  {
    hide Lineage;
    var b := WithState(a, i, Completed);
    LinkedSame(a.slots, b.slots);
    LineageSame(g, a.slots, b.slots, a.works);
    forall p: nat, j: nat, c: nat | Missed(b.slots, p, j) && Alive(b.slots, p) && ChildOf(a.slots, c, p, j)
      ensures c != i
    {
      AliveShrinks(a.slots, b.slots, p);
    }
    FedSame(a.slots, b.slots, None, None, None, None);
  }

  /** Completing a slot whose parent is already completed, or the root. */
  lemma {:induction false} FinishUnheard(g: Target, h: bool, a: Arena, i: WorkId, open: Option<ParentLink>)
    requires GraphOk(g, h, a, Some(i), open)
    requires i == 0 || Done(a.slots, a.slots[i].parent.value.work)
    ensures GraphOk(g, h, a.(slots := a.slots[i := Finished(a.slots[i])]), None, open)
  {
    hide Lineage;
    var b := a.(slots := a.slots[i := Finished(a.slots[i])]);
    LinkedSame(a.slots, b.slots);
    LineageSame(g, a.slots, b.slots, a.works);
    forall p: nat, j: nat, c: nat | Missed(b.slots, p, j) && ChildOf(a.slots, c, p, j) ensures c != i {
    }
    FedSame(a.slots, b.slots, Some(i), None, open, open);
  }

  /** The slots after slot `i` completes and its waiting parent's reducer becomes `r`. */
  function Delivered(slots: seq<WorkSlot>, i: WorkId, p: WorkId, r: ReducerState): seq<WorkSlot>
    requires i < |slots| && p < |slots|
  {
    slots[i := Finished(slots[i])][p := slots[p].(state := Waiting(r))]
  }

  /** What the parent knows when the slot in hand completes. */
  lemma {:induction false} ParentAwaits(g: Target, h: bool, a: Arena, i: WorkId, open: Option<ParentLink>)
    requires GraphOk(g, h, a, Some(i), open) && i > 0
    ensures var link := a.slots[i].parent.value;
            && link.work < i
            && (a.slots[link.work].state.Waiting? || a.slots[link.work].state.Completed?)
            && (a.slots[link.work].state.Waiting? ==>
                  var r := a.slots[link.work].state.reducer;
                  && WellFormed(r) && ExactAll(h, r.outcomes, a.ops[link.work])
                  && link.operand < |r.outcomes| == |a.ops[link.work]| && r.outcomes[link.operand].None?
                  && a.ops[link.work][link.operand] == g.value(a.works[i])
                  && Combine(r.kind, a.ops[link.work]) == g.value(a.works[link.work]))
  {
    hide Lineage;
    var link := a.slots[i].parent.value;
    assert ChildOf(a.slots, i, link.work, link.operand);
  }

  /** The completed operand does not settle the parent: it keeps waiting for the others. */
  lemma {:induction false} DeliverPartial(
    g: Target, h: bool, a: Arena, i: WorkId, link: ParentLink, outcome: Evaluation, open: Option<ParentLink>)
    requires GraphOk(g, h, a, Some(i), open) && a.slots[i].parent == Some(link)
    requires link.work < i && a.slots[link.work].state.Waiting?
    requires Exact(h, outcome, g.value(a.works[i]))
    requires AcceptSpec(a.slots[link.work].state.reducer, link.operand, outcome).1 == Ok(None)
    ensures var r := AcceptSpec(a.slots[link.work].state.reducer, link.operand, outcome).0;
            GraphOk(g, h, a.(slots := Delivered(a.slots, i, link.work, r)), None, open)
  {
    hide Lineage;
    var p := link.work;
    ParentAwaits(g, h, a, i, open);
    var r0 := a.slots[p].state.reducer;
    AcceptIsExact(h, r0, a.ops[p], link.operand, outcome);
    var r := AcceptSpec(r0, link.operand, outcome).0;
    var b := a.(slots := Delivered(a.slots, i, p, r));
    LinkedSame(a.slots, b.slots);
    LineageSame(g, a.slots, b.slots, a.works);
    assert ChildOf(a.slots, i, p, link.operand);
    FamilyAfterDelivery(g, h, a, i, link, r, open);
    forall q: nat, j: nat, c: nat | Missed(b.slots, q, j) && ChildOf(a.slots, c, q, j) ensures c != i {
    }
    FedSame(a.slots, b.slots, Some(i), None, open, open);
  }

  lemma {:induction false} FamilyAfterDelivery(
    g: Target, h: bool, a: Arena, i: WorkId, link: ParentLink, r: ReducerState, open: Option<ParentLink>)
    requires GraphOk(g, h, a, Some(i), open) && a.slots[i].parent == Some(link)
    requires link.work < i && a.slots[link.work].state.Waiting?
    requires var r0 := a.slots[link.work].state.reducer;
             && link.operand < |r0.outcomes| == |r.outcomes|
             && forall j :: 0 <= j < |r.outcomes| && j != link.operand ==> r.outcomes[j] == r0.outcomes[j]
    ensures FamilyOk(g, a.(slots := Delivered(a.slots, i, link.work, r)), None)
  {
    hide Lineage;
    assert ChildOf(a.slots, i, link.work, link.operand);
    var b := a.(slots := Delivered(a.slots, i, link.work, r));
    LinkedSame(a.slots, b.slots);
  }

  /** The completed operand settles the parent, which is now the slot to complete. */
  lemma {:induction false} DeliverFinal(g: Target, h: bool, a: Arena, i: WorkId, link: ParentLink, r: ReducerState, open: Option<ParentLink>)
    requires GraphOk(g, h, a, Some(i), open) && a.slots[i].parent == Some(link)
    requires link.work < i && a.slots[link.work].state.Waiting?
    ensures GraphOk(g, h, a.(slots := Delivered(a.slots, i, link.work, r)), Some(link.work), open)
  {
    hide Lineage;
    var p := link.work;
    ParentAwaits(g, h, a, i, open);
    var b := a.(slots := Delivered(a.slots, i, p, r));
    LinkedSame(a.slots, b.slots);
    LineageSame(g, a.slots, b.slots, a.works);
    assert ChildOf(a.slots, i, p, link.operand);
    forall q: nat, j: nat, c: nat | Missed(b.slots, q, j) && q != p && ChildOf(a.slots, c, q, j) ensures c != i {
    }
    FedSame(a.slots, b.slots, Some(i), Some(p), open, open);
  }

  /** An operand that never got a slot of its own is answered directly, without settling. */
  lemma {:induction false} AnswerPartial(g: Target, h: bool, a: Arena, link: ParentLink, outcome: Evaluation)
    requires GraphOk(g, h, a, None, Some(link)) && a.slots[link.work].state.Waiting?
    requires link.operand < |a.ops[link.work]| && Exact(h, outcome, a.ops[link.work][link.operand])
    requires AcceptSpec(a.slots[link.work].state.reducer, link.operand, outcome).1 == Ok(None)
    ensures var r := AcceptSpec(a.slots[link.work].state.reducer, link.operand, outcome).0;
            GraphOk(g, h, WithState(a, link.work, Waiting(r)), None, Some(ParentLink(link.work, link.operand + 1)))
  {
    hide Lineage;
    var p := link.work;
    var r0 := a.slots[p].state.reducer;
    AcceptIsExact(h, r0, a.ops[p], link.operand, outcome);
    var r := AcceptSpec(r0, link.operand, outcome).0;
    var b := WithState(a, p, Waiting(r));
    LinkedSame(a.slots, b.slots);
    LineageSame(g, a.slots, b.slots, a.works);
    FedSame(a.slots, b.slots, None, None, Some(link), Some(ParentLink(p, link.operand + 1)));
  }

  /** ... or settles the slot, which is then the one to complete. */
  lemma {:induction false} AnswerFinal(g: Target, h: bool, a: Arena, link: ParentLink, r: ReducerState)
    requires GraphOk(g, h, a, None, Some(link)) && a.slots[link.work].state.Waiting?
    ensures GraphOk(g, h, WithState(a, link.work, Waiting(r)),
                    Some(link.work), Some(ParentLink(link.work, link.operand + 1)))
  {
    hide Lineage;
    var p := link.work;
    var b := WithState(a, p, Waiting(r));
    LinkedSame(a.slots, b.slots);
    LineageSame(g, a.slots, b.slots, a.works);
    FedSame(a.slots, b.slots, None, Some(p), Some(link), Some(ParentLink(p, link.operand + 1)));
  }

  /** The scheduling loop is over: everything is scheduled, or nobody is interested. */
  lemma {:induction false} Close(g: Target, h: bool, a: Arena, link: ParentLink)
    requires GraphOk(g, h, a, None, Some(link))
    requires a.slots[link.work].state.Waiting? ==>
               link.operand >= |a.slots[link.work].state.reducer.outcomes| || !Alive(a.slots, link.work)
    ensures GraphOk(g, h, a, None, None)
  {
    hide Lineage;
    FedSame(a.slots, a.slots, None, None, Some(link), None);
  }

  // ---------------------------------------------------------------------------
  // Completing one slot
  // ---------------------------------------------------------------------------

  /** The ready queue lists the queued slots once each; the reads in flight are the reading ones. */
  ghost predicate QueuesOk(slots: seq<WorkSlot>, ready: seq<WorkId>, inflight: set<WorkId>, held: Option<WorkId>) {
    && (forall i, j :: 0 <= i < j < |ready| ==> ready[i] != ready[j])
    && (forall i: nat :: i in ready ==> i < |slots|)
    && (forall i: nat :: i in inflight ==> i < |slots|)
    && (forall i: nat :: i < |slots| && held != Some(i) ==>
          && (i in ready <==> slots[i].state.Queued?)
          && (i in inflight <==> slots[i].state.Reading?))
    && (held.Some? ==> held.value !in ready && held.value !in inflight)
  }

  /** A change of states that leaves queued and reading slots alone, except for the held one. */
  lemma {:induction false} QueuesSame(
    before: seq<WorkSlot>, after: seq<WorkSlot>, ready: seq<WorkId>, inflight: set<WorkId>,
    held: Option<WorkId>, held': Option<WorkId>)
    requires QueuesOk(before, ready, inflight, held) && |before| == |after|
    requires forall k: nat :: k < |after| && held' != Some(k) ==>
               if held == Some(k) then !after[k].state.Queued? && !after[k].state.Reading?
               else (after[k].state.Queued? <==> before[k].state.Queued?)
                    && (after[k].state.Reading? <==> before[k].state.Reading?)
    requires held'.Some? ==> held == held'
    ensures QueuesOk(after, ready, inflight, held')
  {
  }

  /** A new slot joins the ready queue. */
  lemma {:induction false} QueuesPush(slots: seq<WorkSlot>, slot: WorkSlot, ready: seq<WorkId>, inflight: set<WorkId>)
    requires QueuesOk(slots, ready, inflight, None) && slot.state.Queued?
    ensures QueuesOk(slots + [slot], ready + [|slots|], inflight, None)
  {
    var ready' := ready + [|slots|];
    forall i: nat ensures i in ready' <==> i in ready || i == |slots| {}
    forall k: nat | k in ready' ensures k < |slots| + 1 {}
    forall i, j | 0 <= i < j < |ready'| ensures ready'[i] != ready'[j] {
      assert ready[i] in ready;
    }
  }

  /** The held slot returns to the ready queue, or starts a read. */
  lemma {:induction false} QueuesReturn(
    slots: seq<WorkSlot>, i: WorkId, state: WorkState, ready: seq<WorkId>, inflight: set<WorkId>)
    requires QueuesOk(slots, ready, inflight, Some(i)) && i < |slots|
    ensures state.Queued? ==> QueuesOk(slots[i := slots[i].(state := state)], ready + [i], inflight, None)
    ensures state.Reading? ==> QueuesOk(slots[i := slots[i].(state := state)], ready, inflight + {i}, None)
  {
    if state.Queued? {
      var ready' := ready + [i];
      forall k: nat ensures k in ready' <==> k in ready || k == i {}
      forall k, j | 0 <= k < j < |ready'| ensures ready'[k] != ready'[j] {
        assert ready[k] in ready;
      }
    }
  }

  lemma {:induction false} QueuesPop(slots: seq<WorkSlot>, ready: seq<WorkId>, inflight: set<WorkId>)
    requires QueuesOk(slots, ready, inflight, None) && |ready| > 0
    ensures QueuesOk(slots, ready[1..], inflight, Some(ready[0]))
    ensures ready[0] < |slots| && slots[ready[0]].state.Queued?
  {
    var i := ready[0];
    assert i in ready;
    forall k: nat ensures k in ready[1..] <==> k in ready && k != i {
      if k in ready && k != i {
        var n :| 0 <= n < |ready| && ready[n] == k;
        assert ready[1..][n - 1] == k;
      }
    }
  }

  type Settlement = Result<Option<(WorkId, Evaluation)>>

  /** Completes slot `i` and hands its outcome to its parent; when that settles the parent,
      names the parent and its own outcome. */
  function Settle(slots: seq<WorkSlot>, i: WorkId, outcome: Evaluation): (seq<WorkSlot>, Settlement) {
    if i >= |slots| || (slots[i].parent.Some? && slots[i].parent.value.work >= |slots|) then
      (slots, Err(InternalError("work_slot_invalid")))
    else
    var done := slots[i := Finished(slots[i])];
    if slots[i].parent.None? then (done, Ok(None))
    else
      var link := slots[i].parent.value;
      match done[link.work].state
      case Waiting(r) =>
        var (r', reduction) := AcceptSpec(r, link.operand, outcome);
        (done[link.work := done[link.work].(state := Waiting(r'))],
         if reduction.Err? then Err(reduction.error)
         else if reduction.value.None? then Ok(None)
         else Ok(Some((link.work, reduction.value.value))))
      case Completed => (done, Ok(None))
      case _ => (done, Err(InternalError("completion_parent_state_invalid")))
  }

  /** Settling never fails internally, hands on exact outcomes only, and shrinks the measure. */
  lemma {:induction false} SettleIsSound(g: Target, h: bool, a: Arena, i: WorkId, outcome: Evaluation, open: Option<ParentLink>)
    requires GraphOk(g, h, a, Some(i), open) && Exact(h, outcome, g.value(a.works[i]))
    ensures a.slots[i].parent.Some? ==> a.slots[i].parent.value.work < i
    ensures var (slots, settlement) := Settle(a.slots, i, outcome);
            && settlement.Ok? && |slots| == |a.slots| && Continues(a.slots, slots) && Done(slots, i)
            && (forall k: nat :: k != i ==> (Done(slots, k) <==> Done(a.slots, k)))
            && Pending(slots) < Pending(a.slots)
            && (settlement.value.None? ==> GraphOk(g, h, a.(slots := slots), None, open))
            && (settlement.value.Some? ==>
                  && 0 <= settlement.value.value.0 < i
                  && GraphOk(g, h, a.(slots := slots), Some(settlement.value.value.0), open)
                  && Exact(h, settlement.value.value.1, g.value(a.works[settlement.value.value.0])))
  {
    hide GraphCode; hide GraphOk; hide AcceptSpec; hide Combine; hide WellFormed; hide ExactAll;
    GraphFacts(g, h, a, Some(i), open);
    PendingUpdate(a.slots, i, Finished(a.slots[i]));
    var done := a.slots[i := Finished(a.slots[i])];
    if i == 0 {
      FinishUnheard(g, h, a, i, open);
    } else {
      var link := a.slots[i].parent.value;
      ParentAwaits(g, h, a, i, open);
      if a.slots[link.work].state.Waiting? {
        var r := a.slots[link.work].state.reducer;
        AcceptIsExact(h, r, a.ops[link.work], link.operand, outcome);
        var (r', reduction) := AcceptSpec(r, link.operand, outcome);
        PendingUpdate(done, link.work, done[link.work].(state := Waiting(r')));
        if reduction.value.None? {
          DeliverPartial(g, h, a, i, link, outcome, open);
        } else {
          DeliverFinal(g, h, a, i, link, r', open);
        }
      } else {
        FinishUnheard(g, h, a, i, open);
      }
    }
  }

  /** Completing slot `i` leaves its parent waiting. */
  predicate ParentWaitsOn(slots: seq<WorkSlot>, i: WorkId, outcome: Evaluation) {
    && i < |slots| && slots[i].parent.Some? && slots[i].parent.value.work < i
    && slots[slots[i].parent.value.work].state.Waiting?
    && AcceptSpec(slots[slots[i].parent.value.work].state.reducer, slots[i].parent.value.operand, outcome).1 == Ok(None)
  }

  /** The rewrite node may keep waiting after its operand node `d` allows. */
  predicate KeepsWaiting(node: RewriteNode, d: NodeId) {
    match node
    case IntersectionNode(ns) => |ns| > 1 && d in ns
    case DifferenceNode(base, _) => base == d
    case _ => false
  }

  predicate Outlasted(nodes: seq<RewriteNode>, d: NodeId) {
    exists n :: 0 <= n < |nodes| && KeepsWaiting(nodes[n], d)
  }

  /** A parent waits on after an operand allows only as an intersection or as a difference for its base. */
  lemma {:induction false} WaitingParentOutlasts(
    g: Target, h: bool, a: Arena, i: WorkId, open: Option<ParentLink>, resolution: CheckResolution)
    requires GraphOk(g, h, a, Some(i), open) && i > 0 && a.works[i].Rewrite?
    requires ParentWaitsOn(a.slots, i, Ok(Allow(resolution)))
    ensures Outlasted(g.nodes, a.works[i].node)
  {
    hide AcceptSpec; hide Combine; hide ExactAll; hide Fed; hide FamilyOk;
    var link := a.slots[i].parent.value;
    assert ChildOf(a.slots, i, link.work, link.operand);
    assert Begets(g, a.works[link.work], link.operand, a.works[i]);
    var r := a.slots[link.work].state.reducer;
    assert StateOk(g, h, a.slots[link.work].state, a.works[link.work], a.ops[link.work]);
    assert |a.ops[link.work]| == |r.outcomes| by { ParentAwaits(g, h, a, i, open); }
    WaitsOnAllow(r, link.operand, resolution);
    assert KeepsWaiting(g.nodes[a.works[link.work].node], a.works[i].node);
  }

  /** The slot is wanted, and stays so after it has answered. */
  ghost predicate StaysWanted(slots: seq<WorkSlot>, i: WorkId, answer: Evaluation) {
    Linked(slots) && i < |slots| && Alive(slots, i) && ParentWaitsOn(slots, i, answer)
  }

  lemma {:induction false} StaysWantedSame(slots: seq<WorkSlot>, i: WorkId, state: WorkState, answer: Evaluation)
    requires Linked(slots) && i < |slots| && Linked(slots[i := slots[i].(state := state)])
    ensures StaysWanted(slots[i := slots[i].(state := state)], i, answer) <==> StaysWanted(slots, i, answer)
  {
    hide ParentWaitsOn;
    var after := slots[i := slots[i].(state := state)];
    ParentWaitsStill(slots, i, state, answer);
    AliveSame(slots, after, i, i);
  }

  predicate ParentIsDone(slots: seq<WorkSlot>, i: WorkId) {
    i < |slots| && slots[i].parent.Some? && Done(slots, slots[i].parent.value.work)
  }

  lemma {:induction false} ParentWaitsStill(slots: seq<WorkSlot>, i: WorkId, state: WorkState, outcome: Evaluation)
    requires i < |slots|
    ensures ParentWaitsOn(slots[i := slots[i].(state := state)], i, outcome) <==> ParentWaitsOn(slots, i, outcome)
  {
    hide AcceptSpec;
  }

  /** Liveness looks only at the ancestors. */
  lemma {:induction false} AliveSame(before: seq<WorkSlot>, after: seq<WorkSlot>, i: WorkId, k: WorkId)
    requires Linked(before) && Linked(after) && k <= i < |before| <= |after|
    requires forall n :: 0 <= n <= i ==> after[n].parent == before[n].parent
    requires forall n: nat :: n < i ==> (Done(after, n) <==> Done(before, n))
    ensures Alive(after, k) <==> Alive(before, k)
    decreases k
  {
    if k > 0 {
      assert ChildOf(before, k, before[k].parent.value.work, before[k].parent.value.operand);
      AliveSame(before, after, i, before[k].parent.value.work);
    }
  }

  lemma {:induction false} DoneParentIsDead(slots: seq<WorkSlot>, i: WorkId)
    requires Linked(slots) && 0 < i && ParentIsDone(slots, i)
    ensures !Alive(slots, i)
  {
  }

  /** A completion that leaves the parent waiting goes no further. */
  lemma {:induction false} SettleStops(slots: seq<WorkSlot>, i: WorkId, outcome: Evaluation)
    requires ParentWaitsOn(slots, i, outcome)
    ensures Settle(slots, i, outcome).1 == Ok(None)
    ensures |Settle(slots, i, outcome).0| == |slots|
    ensures forall k: nat :: k != i ==> (Done(Settle(slots, i, outcome).0, k) <==> Done(slots, k))
  {
  }

  /** A completion that does not leave the parent waiting settles it, or finds it completed. */
  lemma {:induction false} SettleReaches(slots: seq<WorkSlot>, i: WorkId, outcome: Evaluation)
    requires i < |slots| && slots[i].parent.Some? && slots[i].parent.value.work < i
    requires Settle(slots, i, outcome).1.Ok? && !ParentWaitsOn(slots, i, outcome)
    ensures var settled := Settle(slots, i, outcome).1.value;
            || (settled.Some? && settled.value.0 == slots[i].parent.value.work)
            || Done(slots, slots[i].parent.value.work)
  {
    hide AcceptSpec;
  }

  lemma {:induction false} SettleQueues(
    slots: seq<WorkSlot>, i: WorkId, outcome: Evaluation,
    ready: seq<WorkId>, inflight: set<WorkId>, held: Option<WorkId>)
    requires i < |slots| && !slots[i].state.Queued? && !slots[i].state.Reading?
    requires slots[i].parent.Some? ==> slots[i].parent.value.work < i
    requires QueuesOk(slots, ready, inflight, held) && (held.Some? ==> held == Some(i))
    ensures QueuesOk(Settle(slots, i, outcome).0, ready, inflight, None)
  {
    QueuesSame(slots, Settle(slots, i, outcome).0, ready, inflight, held, None);
  }

  // ---------------------------------------------------------------------------
  // Progress
  // ---------------------------------------------------------------------------

  /** From any live uncompleted slot, some queued or reading slot is found below it. */
  lemma {:induction false} SomeoneWorks(g: Target, h: bool, a: Arena, i: WorkId) returns (k: WorkId)
    requires GraphOk(g, h, a, None, None)
    requires i < |a.slots| && !Done(a.slots, i) && Alive(a.slots, i)
    ensures k < |a.slots| && (a.slots[k].state.Queued? || a.slots[k].state.Reading?)
    decreases |a.slots| - i
  {
    hide Lineage;
    if a.slots[i].state.Waiting? {
      var r := a.slots[i].state.reducer;
      MissingZero(r.outcomes);
      var j :| 0 <= j < |r.outcomes| && r.outcomes[j].None?;
      assert Missed(a.slots, i, j);
      assert Served(a.slots, i, j);
      var c: nat :| ChildOf(a.slots, c, i, j) && !Done(a.slots, c);
      k := SomeoneWorks(g, h, a, c);
    } else {
      k := i;
    }
  }

  // ---------------------------------------------------------------------------
  // Termination measure
  // ---------------------------------------------------------------------------

  function Stage(state: WorkState): nat {
    match state
    case Queued(_) => 3
    case Processing => 2
    case Reading(_) => 2
    case Waiting(_) => 1
    case Completed => 0
  }

  function Pending(slots: seq<WorkSlot>): nat {
    if |slots| == 0 then 0 else Stage(slots[0].state) + Pending(slots[1..])
  }

  lemma {:induction false} PendingUpdate(slots: seq<WorkSlot>, i: WorkId, slot: WorkSlot)
    requires i < |slots|
    ensures Pending(slots[i := slot]) + Stage(slots[i].state) == Pending(slots) + Stage(slot.state)
  {
    if i == 0 {
      assert slots[0 := slot][1..] == slots[1..];
    } else {
      assert slots[i := slot][1..] == slots[1..][i - 1 := slot];
      PendingUpdate(slots[1..], i - 1, slot);
    }
  }

  lemma {:induction false} PendingAppend(slots: seq<WorkSlot>, slot: WorkSlot)
    ensures Pending(slots + [slot]) == Pending(slots) + Stage(slot.state)
  {
    if |slots| > 0 {
      assert (slots + [slot])[1..] == slots[1..] + [slot];
      PendingAppend(slots[1..], slot);
    }
  }
}
