/** The partial n-ary reducers of the Check work graph
    (crates/openfga-check/src/evaluator.rs). */
module Reducers {
  import opened Kleene
  import opened Outcomes

  datatype ReducerKind = SingleOf | UnionOf | IntersectionOf | DifferenceOf

  type Slots = seq<Option<Evaluation>>

  datatype ReducerState = ReducerState(
    kind: ReducerKind,
    resolution: Option<CheckResolution>,
    outcomes: Slots,
    remaining: nat)

  /** The answer of one `accept`: an internal failure, nothing yet, or a final outcome. */
  type Reduction = Result<Option<Evaluation>>

  predicate ArityOk(kind: ReducerKind, n: nat) {
    match kind
    case SingleOf => n == 1
    case DifferenceOf => n == 2
    case _ => n >= 1
  }

  /** The connective a reducer stands for. */
  function Combine(kind: ReducerKind, ops: seq<Truth>): Truth
    requires ArityOk(kind, |ops|)
  {
    match kind
    case SingleOf => ops[0]
    case UnionOf => Any(ops)
    case IntersectionOf => All(ops)
    case DifferenceOf => Minus(ops[0], ops[1])
  }

  function Fresh(kind: ReducerKind, operands: nat, resolution: Option<CheckResolution>): ReducerState {
    ReducerState(kind, resolution, seq(operands, _ => None), operands)
  }

  function OrElse(resolution: Option<CheckResolution>, other: CheckResolution): CheckResolution {
    if resolution.Some? then resolution.value else other
  }

  function MapResolution(outcome: Evaluation, resolution: Option<CheckResolution>): Evaluation {
    if Allows(outcome) && resolution.Some? then Ok(Allow(resolution.value)) else outcome
  }

  predicate AnyAllows(outcomes: Slots) {
    exists i :: 0 <= i < |outcomes| && outcomes[i].Some? && Allows(outcomes[i].value)
  }

  predicate AnyDenies(outcomes: Slots) {
    exists i :: 0 <= i < |outcomes| && outcomes[i].Some? && Denies(outcomes[i].value)
  }

  predicate IsError(slot: Option<Evaluation>) { slot.Some? && slot.value.Err? }

  function Missing(outcomes: Slots): nat {
    if |outcomes| == 0 then 0
    else Missing(outcomes[1..]) + if outcomes[0].None? then 1 else 0
  }

  predicate WellFormed(r: ReducerState) {
    ArityOk(r.kind, |r.outcomes|) && r.remaining == Missing(r.outcomes)
  }

  // ---------------------------------------------------------------------------
  // Specification of the mutating operations
  // ---------------------------------------------------------------------------

  function TakeAt(r: ReducerState, operand: nat): (ReducerState, Result<Evaluation>) {
    if operand < |r.outcomes| && r.outcomes[operand].Some? then
      (r.(outcomes := r.outcomes[operand := None]), Ok(r.outcomes[operand].value))
    else
      (r, Err(InternalError("reducer_outcome_missing")))
  }

  function FirstError(outcomes: Slots): (i: nat)
    ensures i <= |outcomes|
    ensures i < |outcomes| ==> IsError(outcomes[i])
    ensures forall j :: 0 <= j < i ==> !IsError(outcomes[j])
  {
    if |outcomes| == 0 || IsError(outcomes[0]) then 0 else 1 + FirstError(outcomes[1..])
  }

  /** The end of every n-ary reduction: the lowest failed operand wins, otherwise `settled`. */
  function FinishWith(r: ReducerState, settled: Decision): (ReducerState, Reduction) {
    if r.remaining != 0 then (r, Ok(None))
    else
      var i := FirstError(r.outcomes);
      if i < |r.outcomes| then
        (r.(outcomes := r.outcomes[i := None]), Ok(Some(Err(r.outcomes[i].value.error))))
      else (r, Ok(Some(Ok(settled))))
  }

  function ReduceSpec(r: ReducerState): (ReducerState, Reduction) {
    match r.kind
    case SingleOf =>
      if r.remaining != 0 then (r, Ok(None))
      else
        var (r', taken) := TakeAt(r, 0);
        (r', if taken.Ok? then Ok(Some(MapResolution(taken.value, r.resolution))) else Err(taken.error))
    case UnionOf =>
      if AnyAllows(r.outcomes) then (r, Ok(Some(Ok(Allow(OrElse(r.resolution, Union))))))
      else FinishWith(r, Deny(Denied))
    case IntersectionOf =>
      if AnyDenies(r.outcomes) then (r, Ok(Some(Ok(Deny(Denied)))))
      else FinishWith(r, Allow(OrElse(r.resolution, Intersection)))
    case DifferenceOf => ReduceDifferenceSpec(r)
  }

  function ReduceDifferenceSpec(r: ReducerState): (ReducerState, Reduction) {
    var base := if |r.outcomes| > 0 then r.outcomes[0] else None;
    var subtract := if |r.outcomes| > 1 then r.outcomes[1] else None;
    if (base.Some? && Denies(base.value)) || (subtract.Some? && Allows(subtract.value)) then
      (r, Ok(Some(Ok(Deny(Denied)))))
    else if r.remaining != 0 then (r, Ok(None))
    else
      var i := FirstError(r.outcomes);
      if i < |r.outcomes| then
        (r.(outcomes := r.outcomes[i := None]), Ok(Some(Err(r.outcomes[i].value.error))))
      else
        var (r1, b) := TakeAt(r, 0);
        if b.Err? then (r1, Err(b.error)) else
        var (r2, s) := TakeAt(r1, 1);
        if s.Err? then (r2, Err(s.error)) else
        (r2, if b.value.Ok? && s.value.Ok? then
               if b.value.value.allowed && !s.value.value.allowed then
                 Ok(Some(Ok(Allow(OrElse(r.resolution, Difference)))))
               else Ok(Some(Ok(Deny(Denied))))
             else Err(InternalError("difference_outcome_inconsistent")))
  }

  function AcceptSpec(r: ReducerState, operand: nat, outcome: Evaluation): (ReducerState, Reduction) {
    if operand >= |r.outcomes| then (r, Err(InternalError("reducer_operand_invalid")))
    else if r.outcomes[operand].Some? then (r, Err(InternalError("reducer_operand_completed_twice")))
    else
      var stored := r.(outcomes := r.outcomes[operand := Some(outcome)]);
      if r.remaining == 0 then (stored, Err(InternalError("reducer_remaining_underflow")))
      else ReduceSpec(stored.(remaining := r.remaining - 1))
  }

  // ---------------------------------------------------------------------------
  // The mutable reducer
  // ---------------------------------------------------------------------------

  class Reducer {
    const kind: ReducerKind
    const resolution: Option<CheckResolution>
    var outcomes: Slots
    var remaining: nat

    function View(): ReducerState
      reads this
    {
      ReducerState(kind, resolution, outcomes, remaining)
    }

    constructor (kind: ReducerKind, operands: nat, resolution: Option<CheckResolution>)
      ensures View() == Fresh(kind, operands, resolution)
    {
      this.kind := kind;
      this.resolution := resolution;
      this.outcomes := seq(operands, _ => None);
      this.remaining := operands;
    }

    method Accept(operand: nat, outcome: Evaluation) returns (r: Reduction)
      modifies this
      ensures (View(), r) == AcceptSpec(old(View()), operand, outcome)
    {
      if operand >= |outcomes| {
        return Err(InternalError("reducer_operand_invalid"));
      }
      if outcomes[operand].Some? {
        return Err(InternalError("reducer_operand_completed_twice"));
      }
      outcomes := outcomes[operand := Some(outcome)];
      if remaining == 0 {
        return Err(InternalError("reducer_remaining_underflow"));
      }
      remaining := remaining - 1;
      r := Reduce();
    }

    method Reduce() returns (r: Reduction)
      modifies this
      ensures (View(), r) == ReduceSpec(old(View()))
    {
      match kind {
        case SingleOf =>
          if remaining != 0 {
            return Ok(None);
          }
          var outcome := Take(0);
          if outcome.Err? {
            return Err(outcome.error);
          }
          return Ok(Some(MapResolution(outcome.value, resolution)));
        case UnionOf =>
          if AnyAllows(outcomes) {
            return Ok(Some(Ok(Allow(OrElse(resolution, Union)))));
          }
          r := Finish(Deny(Denied));
        case IntersectionOf =>
          if AnyDenies(outcomes) {
            return Ok(Some(Ok(Deny(Denied))));
          }
          r := Finish(Allow(OrElse(resolution, Intersection)));
        case DifferenceOf =>
          r := ReduceDifference();
      }
    }

    method Finish(settled: Decision) returns (r: Reduction)
      modifies this
      ensures (View(), r) == FinishWith(old(View()), settled)
    {
      if remaining != 0 {
        return Ok(None);
      }
      var error := TakeFirstError();
      if error.Some? {
        return Ok(Some(Err(error.value)));
      }
      return Ok(Some(Ok(settled)));
    }

    method ReduceDifference() returns (r: Reduction)
      modifies this
      ensures (View(), r) == ReduceDifferenceSpec(old(View()))
    {
      var base := if |outcomes| > 0 then outcomes[0] else None;
      var subtract := if |outcomes| > 1 then outcomes[1] else None;
      if (base.Some? && Denies(base.value)) || (subtract.Some? && Allows(subtract.value)) {
        return Ok(Some(Ok(Deny(Denied))));
      }
      if remaining != 0 {
        return Ok(None);
      }
      var error := TakeFirstError();
      if error.Some? {
        return Ok(Some(Err(error.value)));
      }
      var b := Take(0);
      if b.Err? {
        return Err(b.error);
      }
      var s := Take(1);
      if s.Err? {
        return Err(s.error);
      }
      if b.value.Ok? && s.value.Ok? {
        if b.value.value.allowed && !s.value.value.allowed {
          return Ok(Some(Ok(Allow(OrElse(resolution, Difference)))));
        }
        return Ok(Some(Ok(Deny(Denied))));
      }
      return Err(InternalError("difference_outcome_inconsistent"));
    }

    method Take(operand: nat) returns (r: Result<Evaluation>)
      modifies this
      ensures (View(), r) == TakeAt(old(View()), operand)
    {
      if operand < |outcomes| && outcomes[operand].Some? {
        r := Ok(outcomes[operand].value);
        outcomes := outcomes[operand := None];
      } else {
        r := Err(InternalError("reducer_outcome_missing"));
      }
    }

    /** Removes and returns the error of the lowest failed operand. */
    method TakeFirstError() returns (r: Option<CheckError>)
      modifies this
      ensures remaining == old(remaining)
      ensures r.None? ==> outcomes == old(outcomes) && FirstError(outcomes) == |outcomes|
      ensures r.Some? ==>
                var i := FirstError(old(outcomes));
                && i < |old(outcomes)| && r == Some(old(outcomes)[i].value.error)
                && outcomes == old(outcomes)[i := None]
    {
      var i := 0;
      while i < |outcomes|
        invariant 0 <= i <= |outcomes|
        invariant outcomes == old(outcomes)
        invariant forall j :: 0 <= j < i ==> !IsError(outcomes[j])
      {
        if IsError(outcomes[i]) {
          r := Some(outcomes[i].value.error);
          FirstErrorIs(outcomes, i);
          outcomes := outcomes[i := None];
          return;
        }
        i := i + 1;
      }
      r := None;
    }
  }

  lemma {:induction false} FirstErrorIs(outcomes: Slots, i: nat)
    requires i < |outcomes| && IsError(outcomes[i])
    requires forall j :: 0 <= j < i ==> !IsError(outcomes[j])
    ensures FirstError(outcomes) == i
  {
  }

  // ---------------------------------------------------------------------------
  // Reducers are strong Kleene connectives
  // ---------------------------------------------------------------------------

  lemma {:induction false} MissingUpdate(outcomes: Slots, i: nat, o: Evaluation)
    requires i < |outcomes| && outcomes[i].None?
    ensures Missing(outcomes) == Missing(outcomes[i := Some(o)]) + 1
  {
    if i == 0 {
      assert outcomes[0 := Some(o)][1..] == outcomes[1..];
    } else {
      assert outcomes[i := Some(o)][1..] == outcomes[1..][i - 1 := Some(o)];
      MissingUpdate(outcomes[1..], i - 1, o);
    }
  }

  lemma {:induction false} MissingZero(outcomes: Slots)
    ensures Missing(outcomes) == 0 <==> forall i :: 0 <= i < |outcomes| ==> outcomes[i].Some?
  {
    if |outcomes| > 0 {
      MissingZero(outcomes[1..]);
      if Missing(outcomes) == 0 {
        forall i | 0 <= i < |outcomes| ensures outcomes[i].Some? {
          if i > 0 {
            assert outcomes[i] == outcomes[1..][i - 1];
          }
        }
      }
    }
  }

  lemma {:induction false} MissingFresh(n: nat)
    ensures Missing(seq(n, _ => None)) == n
  {
    if n > 0 {
      var s: Slots := seq(n, _ => None);
      assert s[1..] == seq(n - 1, _ => None);
      MissingFresh(n - 1);
    }
  }

  /** What an outcome says about the true value of its branch. An error is right when the
      value is `Unknown`, and tolerated when the run was `hindered`. */
  predicate Right(hindered: bool, o: Evaluation, v: Truth) {
    match o
    case Ok(d) => v == FromBool(d.allowed)
    case Err(_) => v == Unknown || hindered
  }

  predicate RightAll(hindered: bool, outcomes: Slots, ops: seq<Truth>) {
    |outcomes| == |ops| &&
    forall i :: 0 <= i < |ops| && outcomes[i].Some? ==> Right(hindered, outcomes[i].value, ops[i])
  }

  /** A right outcome whose error, if any, does not say that the graph lost track of itself. */
  predicate Exact(hindered: bool, o: Evaluation, v: Truth) {
    Right(hindered, o, v) && (o.Err? ==> !Broken(o.error))
  }

  predicate ExactAll(hindered: bool, outcomes: Slots, ops: seq<Truth>) {
    |outcomes| == |ops| &&
    forall i :: 0 <= i < |ops| && outcomes[i].Some? ==> Exact(hindered, outcomes[i].value, ops[i])
  }

  /** A reduction never fails internally, and decides rightly. */
  lemma {:induction false} ReduceIsRight(h: bool, r: ReducerState, ops: seq<Truth>)
    requires WellFormed(r) && RightAll(h, r.outcomes, ops)
    ensures var (r', reduction) := ReduceSpec(r);
            && reduction.Ok?
            && (reduction.value.None? ==> r' == r && r.remaining > 0)
            && (reduction.value.Some? ==> Right(h, reduction.value.value, Combine(r.kind, ops)))
  {
    MissingZero(r.outcomes);
    var n := |ops|;
    forall i | 0 <= i < n && r.outcomes[i].Some?
      ensures Right(h, r.outcomes[i].value, ops[i]) && ops[i] in ops
    {
    }
    if r.remaining == 0 {
      forall i | 0 <= i < n ensures r.outcomes[i].Some? {}
      var e := FirstError(r.outcomes);
      if e < n && !h {
        assert ops[e] == Unknown && Unknown in ops;
      }
    }
  }

  /** The error of a reduction is one of its operands'. */
  lemma {:induction false} ReduceKeepsErrors(r: ReducerState)
    requires WellFormed(r)
    ensures var reduction := ReduceSpec(r).1;
            reduction.Ok? && reduction.value.Some? && reduction.value.value.Err? ==>
              FromOperand(r.outcomes, reduction.value.value.error)
  {
    MissingZero(r.outcomes);
  }

  /** Which reducers keep waiting after one operand allows. */
  lemma {:induction false} WaitsOnAllow(r: ReducerState, operand: nat, resolution: CheckResolution)
    requires WellFormed(r) && AcceptSpec(r, operand, Ok(Allow(resolution))).1 == Ok(None)
    ensures (r.kind == IntersectionOf && |r.outcomes| > 1) || (r.kind == DifferenceOf && operand == 0)
  {
    var outcome: Evaluation := Ok(Allow(resolution));
    var outcomes := r.outcomes[operand := Some(outcome)];
    MissingUpdate(r.outcomes, operand, outcome);
    MissingZero(outcomes);
    assert outcomes[operand] == Some(outcome);
  }

  predicate FromOperand(outcomes: Slots, e: CheckError) {
    exists i :: 0 <= i < |outcomes| && outcomes[i] == Some(Err(e))
  }

  /** One accepted operand: never an internal failure, and a final outcome is exactly the
      connective of all operands, arrived or not. */
  lemma {:induction false} AcceptIsExact(h: bool, r: ReducerState, ops: seq<Truth>, operand: nat, outcome: Evaluation)
    requires WellFormed(r) && |ops| == |r.outcomes| && ExactAll(h, r.outcomes, ops)
    requires operand < |ops| && r.outcomes[operand].None? && Exact(h, outcome, ops[operand])
    ensures var (r', reduction) := AcceptSpec(r, operand, outcome);
            && reduction.Ok?
            && (reduction.value.None? ==>
                  && r' == r.(outcomes := r.outcomes[operand := Some(outcome)], remaining := r.remaining - 1)
                  && WellFormed(r') && r'.remaining > 0 && ExactAll(h, r'.outcomes, ops))
            && (reduction.value.Some? ==> Exact(h, reduction.value.value, Combine(r.kind, ops)))
  {
    hide ReduceSpec; hide Combine; hide GraphCode;
    MissingUpdate(r.outcomes, operand, outcome);
    var stored := r.(outcomes := r.outcomes[operand := Some(outcome)], remaining := r.remaining - 1);
    assert ExactAll(h, stored.outcomes, ops);
    ReduceIsRight(h, stored, ops);
    ReduceKeepsErrors(stored);
  }

  /** A decision given early stays right however the missing and the failed operands resolve. */
  lemma {:induction false} EarlyDecisionIsFinal(r: ReducerState, operand: nat, outcome: Evaluation, ops: seq<Truth>)
    requires WellFormed(r) && operand < |r.outcomes| && r.outcomes[operand].None?
    requires var seen := r.outcomes[operand := Some(outcome)];
             && |ops| == |seen|
             && forall i :: 0 <= i < |ops| && seen[i].Some? && seen[i].value.Ok?
                  ==> ops[i] == FromBool(seen[i].value.value.allowed)
    requires AcceptSpec(r, operand, outcome).1.Ok?
    requires var decided := AcceptSpec(r, operand, outcome).1.value;
             decided.Some? && decided.value.Ok?
    ensures Combine(r.kind, ops) == FromBool(AcceptSpec(r, operand, outcome).1.value.value.value.allowed)
  {
    hide GraphCode; hide ReduceSpec; hide Combine;
    MissingUpdate(r.outcomes, operand, outcome);
    var stored := r.(outcomes := r.outcomes[operand := Some(outcome)], remaining := r.remaining - 1);
    assert RightAll(true, stored.outcomes, ops);
    ReduceIsRight(true, stored, ops);
  }

  // ---------------------------------------------------------------------------
  // Arrival order does not matter
  // ---------------------------------------------------------------------------

  /** Reference: the outcome of a reducer whose operands are all known at once. */
  function Settled(kind: ReducerKind, resolution: Option<CheckResolution>, all: seq<Evaluation>): Evaluation
    requires ArityOk(kind, |all|)
  {
    match kind
    case SingleOf => MapResolution(all[0], resolution)
    case UnionOf =>
      if exists i :: 0 <= i < |all| && Allows(all[i]) then Ok(Allow(OrElse(resolution, Union)))
      else LowestErrorOr(all, Deny(Denied))
    case IntersectionOf =>
      if exists i :: 0 <= i < |all| && Denies(all[i]) then Ok(Deny(Denied))
      else LowestErrorOr(all, Allow(OrElse(resolution, Intersection)))
    case DifferenceOf =>
      if Denies(all[0]) || Allows(all[1]) then Ok(Deny(Denied))
      else LowestErrorOr(all, Allow(OrElse(resolution, Difference)))
  }

  function LowestErrorOr(all: seq<Evaluation>, settled: Decision): Evaluation {
    if |all| == 0 then Ok(settled)
    else if all[0].Err? then all[0]
    else LowestErrorOr(all[1..], settled)
  }

  /** Delivers operands in the given order until the reducer settles. */
  function Feed(r: ReducerState, all: seq<Evaluation>, order: seq<nat>): Reduction
    requires forall i :: 0 <= i < |order| ==> order[i] < |all|
    decreases |order|
  {
    if |order| == 0 then Ok(None)
    else
      var (r', reduction) := AcceptSpec(r, order[0], all[order[0]]);
      if reduction.Err? || reduction.value.Some? then reduction
      else Feed(r', all, order[1..])
  }

  /** The outcomes still missing are exactly those of `order`; the others have arrived. */
  predicate Awaits(r: ReducerState, all: seq<Evaluation>, order: seq<nat>) {
    && |r.outcomes| == |all|
    && (forall i :: 0 <= i < |order| ==> order[i] < |all|)
    && (forall i, j :: 0 <= i < j < |order| ==> order[i] != order[j])
    && (forall i :: 0 <= i < |all| ==> r.outcomes[i] == if i in order then None else Some(all[i]))
  }

  lemma {:induction false} LowestError(all: seq<Evaluation>, outcomes: Slots, settled: Decision)
    requires |all| == |outcomes|
    requires forall i :: 0 <= i < |all| ==> outcomes[i] == Some(all[i])
    ensures var i := FirstError(outcomes);
            LowestErrorOr(all, settled) == if i < |all| then Err(all[i].error) else Ok(settled)
  {
    if |all| > 0 && all[0].Ok? {
      LowestError(all[1..], outcomes[1..], settled);
    }
  }

  /** Once every operand has arrived, or an early decision is possible, `Reduce` gives `Settled`. */
  lemma {:induction false} ReduceIsSettled(r: ReducerState, all: seq<Evaluation>, order: seq<nat>)
    requires WellFormed(r) && Awaits(r, all, order)
    ensures var reduction := ReduceSpec(r).1;
            && reduction.Ok?
            && (reduction.value.None? ==> order != [] && r.remaining > 0 && ReduceSpec(r).0 == r)
            && (reduction.value.Some? ==> reduction.value.value == Settled(r.kind, r.resolution, all))
  {
    MissingZero(r.outcomes);
    forall i | 0 <= i < |all| && r.outcomes[i].Some? ensures r.outcomes[i].value == all[i] {}
    if r.remaining == 0 {
      forall i | 0 <= i < |all| ensures r.outcomes[i] == Some(all[i]) {}
      LowestError(all, r.outcomes, Deny(Denied));
      LowestError(all, r.outcomes, Allow(OrElse(r.resolution, Intersection)));
      LowestError(all, r.outcomes, Allow(OrElse(r.resolution, Difference)));
    }
  }

  lemma {:induction false} AwaitsRest(r: ReducerState, stored: ReducerState, all: seq<Evaluation>, order: seq<nat>)
    requires Awaits(r, all, order) && order != [] && stored.outcomes == r.outcomes[order[0] := Some(all[order[0]])]
    ensures Awaits(stored, all, order[1..])
  {
    var k, rest := order[0], order[1..];
    forall i | 0 <= i < |all| ensures stored.outcomes[i] == if i in rest then None else Some(all[i]) {
      assert i in order <==> i == k || i in rest;
    }
  }

  lemma {:induction false} FeedSettles(r: ReducerState, all: seq<Evaluation>, order: seq<nat>)
    requires WellFormed(r) && Awaits(r, all, order) && order != []
    ensures Feed(r, all, order) == Ok(Some(Settled(r.kind, r.resolution, all)))
    decreases |order|
  {
    hide ReduceSpec; hide Settled;
    var k := order[0];
    assert k in order && r.outcomes[k].None?;
    MissingZero(r.outcomes);
    MissingUpdate(r.outcomes, k, all[k]);
    var stored := r.(outcomes := r.outcomes[k := Some(all[k])], remaining := r.remaining - 1);
    var rest := order[1..];
    AwaitsRest(r, stored, all, order);
    ReduceIsSettled(stored, all, rest);
    hide Awaits;
    if ReduceSpec(stored).1.value.None? {
      FeedSettles(stored, all, rest);
    }
  }

  /** For every operand count and every arrival order the final outcome is the same,
      including which error wins. */
  lemma {:induction false} ArrivalOrderIsIrrelevant(
    kind: ReducerKind, resolution: Option<CheckResolution>, all: seq<Evaluation>, order: seq<nat>)
    requires ArityOk(kind, |all|)
    requires forall i :: 0 <= i < |order| ==> order[i] < |all|
    requires forall i, j :: 0 <= i < j < |order| ==> order[i] != order[j]
    requires forall i :: 0 <= i < |all| ==> i in order
    ensures Feed(Fresh(kind, |all|, resolution), all, order) == Ok(Some(Settled(kind, resolution, all)))
  {
    MissingFresh(|all|);
    var r := Fresh(kind, |all|, resolution);
    assert r.outcomes == seq(|all|, _ => None);
    assert 0 in order;
    FeedSettles(r, all, order);
  }
}
