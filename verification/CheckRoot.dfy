/** One Check, from query to answer. */
module CheckRoot {
  import opened Kleene
  import opened Outcomes
  import opened CompiledModels
  import opened Semantics
  import opened FixedPoint
  import opened Pruning
  import opened Scheduling

  /** The outcome of a root: an answer is the meaning of the query; an error says that the meaning is
      unknown, that the run was hindered, or that rows overlapped under a connective that waits on. It
      never says that the work graph stalled or lost track of a slot, operand or read. */
  ghost predicate OutcomeOk(w: World, budget: CheckBudget, root: SemanticKey, outcome: Evaluation, usage: Usage)
    requires ValidModel(w.model)
  {
    && (outcome.Ok? ==> Eval(w, budget.depth, root, {}) == FromBool(outcome.value.allowed))
    && (outcome.Err? ==>
          && !Broken(outcome.error)
          && (|| Eval(w, budget.depth, root, {}) == Unknown
              || HinderedBy(usage, budget)
              || (outcome.error == ReducerStateError() && Overlapping(w, root.subject))))
    && (FatalRoot(w, root) ==> HinderedBy(usage, budget) || outcome == Err(ReducerStateError()))
  }

  /** Evaluates one root with a fresh scheduler. However failing conditions would resolve, an answer is
      membership in the perfect model of every stratification, and on a difference-free model in the
      least fixed point; on any model it is what the evaluation without reachability pruning says
      whenever that is decided. */
  method Check(world: World, budget: CheckBudget, metered: bool, root: SemanticKey)
    returns (r: Result<Decision>, ghost usage: Usage)
    requires ReachabilityClosed(world.model) && ValidBudget(budget)
    ensures OutcomeOk(world, budget, root, r, usage) && WithinBudget(usage, budget, metered)
    ensures r.Ok? ==>
              forall rank, c :: Stratified(world.model, rank) && Resolves(world, c) ==>
                (r.value.allowed <==> InModel(world, c, rank, root))
    ensures r.Ok? && DifferenceFree(world.model) ==>
              forall c :: Resolves(world, c) ==> (r.value.allowed <==> Derivable(world, c, root))
    ensures r.Ok? ==>
              forall open :: Unpruned(world, open) ==>
                Refines(Eval(open, budget.depth, root, {}), FromBool(r.value.allowed))
  {
    hide Eval; hide EvalNode; hide ReachabilityClosed; hide Derivable; hide InModel; hide Stratified; hide Resolves; hide Unpruned; hide FatalRoot; hide Overlapping;
    Validity(world);
    var scheduler := new Scheduler(world, budget, metered);
    r := scheduler.Drive(root);
    usage := scheduler.Report();
    scheduler.ReportIsTrue();
    scheduler.AbortReads();
    scheduler.ReportIsTrue();
    usage := usage.(granted := scheduler.ledger.granted);
    if r.Ok? {
      forall rank, c | Stratified(world.model, rank) && Resolves(world, c)
        ensures r.value.allowed <==> InModel(world, c, rank, root)
      {
        CycleDenialIsPerfectModel(world, c, budget.depth, rank, root);
      }
      if DifferenceFree(world.model) {
        forall c | Resolves(world, c) ensures r.value.allowed <==> Derivable(world, c, root) {
          CycleDenialIsLeastFixedPoint(world, c, budget.depth, root);
        }
      }
      forall open | Unpruned(world, open)
        ensures Refines(Eval(open, budget.depth, root, {}), FromBool(r.value.allowed))
      {
        PruningRefinesKey(world, open, budget.depth, root, {});
      }
    }
  }

  lemma {:induction false} Validity(w: World)
    requires ReachabilityClosed(w.model)
    ensures ValidModel(w.model)
    ensures forall open :: Unpruned(w, open) ==> ValidModel(open.model)
  {
  }
}
