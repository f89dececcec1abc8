/** Aggregate work ceilings shared by concurrent Check roots. */
module WorkMeter {

  const U32_MAX: nat := 0xFFFF_FFFF

  class SharedCounter {
    const maximum: nat
    var used: nat

    ghost predicate Valid()
      reads this
    {
      used <= maximum <= U32_MAX
    }

    constructor (maximum: nat)
      requires maximum <= U32_MAX
      ensures Valid() && used == 0 && this.maximum == maximum
    {
      this.maximum := maximum;
      used := 0;
    }

    /** Atomically takes `amount`, or takes nothing when that would pass the ceiling. */
    method Charge(amount: nat) returns (granted: bool)
      requires Valid() && amount <= U32_MAX
      modifies this
      ensures Valid()
      ensures granted <==> old(used) + amount <= maximum
      ensures used == Charged(old(used), amount, maximum)
    {
      if used + amount > U32_MAX {
        return false;
      }
      var next := used + amount;
      if next > maximum {
        return false;
      }
      used := next;
      return true;
    }
  }

  function Charged(used: nat, amount: nat, maximum: nat): nat {
    if used + amount <= maximum then used + amount else used
  }

  // ---------------------------------------------------------------------------
  // What is charged
  // ---------------------------------------------------------------------------

  datatype Resource = Dispatches | Queries | Items

  /** Amounts of the three metered resources. */
  datatype Work = Work(dispatches: nat, queries: nat, items: nat)

  const NO_WORK: Work := Work(0, 0, 0)

  function Amount(w: Work, r: Resource): nat {
    match r
    case Dispatches => w.dispatches
    case Queries => w.queries
    case Items => w.items
  }

  function With(w: Work, r: Resource, n: nat): Work {
    match r
    case Dispatches => w.(dispatches := n)
    case Queries => w.(queries := n)
    case Items => w.(items := n)
  }

  /** What the meter granted to one root and what it refused it. */
  datatype Ledger = Ledger(granted: Work, refused: Work)

  function Booked(ledger: Ledger, r: Resource, n: nat, granted: bool): Ledger {
    if granted then ledger.(granted := With(ledger.granted, r, Amount(ledger.granted, r) + n))
    else ledger.(refused := With(ledger.refused, r, Amount(ledger.refused, r) + n))
  }

  /** The root created a slot for every granted dispatch, began a read for every granted query, and
      handed on no more rows than were granted. */
  predicate Accounted(granted: Work, done: Work) {
    done.dispatches == granted.dispatches && done.queries == granted.queries && done.items <= granted.items
  }

  // ---------------------------------------------------------------------------
  // Concurrent roots
  // ---------------------------------------------------------------------------

  datatype State = State(maximum: Work, used: Work, roots: seq<Ledger>)

  datatype Step = Join | Charge(root: nat, resource: Resource, amount: nat)

  ghost predicate Next(s: State, step: Step, t: State) {
    match step
    case Join => t == s.(roots := s.roots + [Ledger(NO_WORK, NO_WORK)])
    case Charge(i, r, n) =>
      && i < |s.roots| && n <= U32_MAX
      && t == s.(used := With(s.used, r, Charged(Amount(s.used, r), n, Amount(s.maximum, r))),
                 roots := s.roots[i := Booked(s.roots[i], r, n, Amount(s.used, r) + n <= Amount(s.maximum, r))])
  }

  /** All that was granted of one resource. */
  function Total(roots: seq<Ledger>, r: Resource): nat {
    if roots == [] then 0 else Total(roots[..|roots| - 1], r) + Amount(roots[|roots| - 1].granted, r)
  }

  lemma {:induction false} TotalUpdate(roots: seq<Ledger>, i: nat, root: Ledger, r: Resource)
    requires i < |roots|
    ensures Total(roots[i := root], r) + Amount(roots[i].granted, r) == Total(roots, r) + Amount(root.granted, r)
    decreases |roots|
  {
    var n := |roots| - 1;
    if i == n {
      assert roots[i := root][..n] == roots[..n];
    } else {
      TotalUpdate(roots[..n], i, root, r);
      assert roots[i := root][..n] == roots[..n][i := root];
    }
  }

  /** The meter used of a resource what it granted, within its ceiling. */
  ghost predicate InOrder(s: State, r: Resource) {
    Amount(s.used, r) == Total(s.roots, r) && Amount(s.used, r) <= Amount(s.maximum, r)
  }

  ghost predicate Inv(s: State) {
    forall r: Resource :: InOrder(s, r)
  }

  lemma {:induction false} WithAmount(w: Work, r: Resource, q: Resource, n: nat)
    ensures Amount(With(w, r, n), q) == if q == r then n else Amount(w, q)
  {
  }

  lemma {:induction false} StepKeepsOrder(s: State, step: Step, t: State, q: Resource)
    requires InOrder(s, q) && Next(s, step, t)
    ensures InOrder(t, q)
  {
    hide Amount; hide With;
    if step.Join? {
      assert t.roots[..|s.roots|] == s.roots;
      assert Amount(NO_WORK, q) == 0 by { NothingAmounts(q); }
    } else {
      hide Total;
      TotalUpdate(s.roots, step.root, t.roots[step.root], q);
      WithAmount(s.used, step.resource, q, Charged(Amount(s.used, step.resource), step.amount, Amount(s.maximum, step.resource)));
      var granted := s.roots[step.root].granted;
      WithAmount(granted, step.resource, q, Amount(granted, step.resource) + step.amount);
    }
  }

  lemma {:induction false} NothingAmounts(q: Resource)
    ensures Amount(NO_WORK, q) == 0
  {
  }

  lemma {:induction false} StepKeepsInv(s: State, step: Step, t: State)
    requires Inv(s) && Next(s, step, t)
    ensures Inv(t)
  {
    hide InOrder; hide Next;
    forall q: Resource ensures InOrder(t, q) {
      StepKeepsOrder(s, step, t, q);
    }
  }

  ghost predicate Run(states: seq<State>, steps: seq<Step>) {
    && |states| == |steps| + 1
    && states[0].used == NO_WORK && states[0].roots == []
    && forall i: nat :: i < |steps| ==> Next(states[i], steps[i], states[i + 1])
  }

  lemma {:induction false} RunKeepsInv(states: seq<State>, steps: seq<Step>, i: nat)
    requires Run(states, steps) && i < |states|
    ensures Inv(states[i])
  {
    if i > 0 {
      RunKeepsInv(states, steps, i - 1);
      StepKeepsInv(states[i - 1], steps[i - 1], states[i]);
    }
  }

  /** What all roots did of one resource. */
  function Sum(done: seq<Work>, r: Resource): nat {
    if done == [] then 0 else Sum(done[..|done| - 1], r) + Amount(done[|done| - 1], r)
  }

  lemma {:induction false} SumIsTotal(done: seq<Work>, roots: seq<Ledger>)
    requires |done| == |roots| && forall k :: 0 <= k < |roots| ==> Accounted(roots[k].granted, done[k])
    ensures Sum(done, Dispatches) == Total(roots, Dispatches) && Sum(done, Queries) == Total(roots, Queries)
    ensures Sum(done, Items) <= Total(roots, Items)
  {
    if |done| > 0 {
      SumIsTotal(done[..|done| - 1], roots[..|roots| - 1]);
    }
  }

  /** For every interleaving of the roots' charges: the slots all roots created are exactly the
      dispatches the meter used, the reads they began its queries, the rows they handed on at most its
      items, and none of these passes its ceiling. */
  lemma {:induction false} WorkIsMetered(states: seq<State>, steps: seq<Step>, i: nat, done: seq<Work>)
    requires Run(states, steps) && i < |states| && |done| == |states[i].roots|
    requires forall k :: 0 <= k < |done| ==> Accounted(states[i].roots[k].granted, done[k])
    ensures Sum(done, Dispatches) == states[i].used.dispatches <= states[i].maximum.dispatches
    ensures Sum(done, Queries) == states[i].used.queries <= states[i].maximum.queries
    ensures Sum(done, Items) <= states[i].used.items <= states[i].maximum.items
  {
    RunKeepsInv(states, steps, i);
    SumIsTotal(done, states[i].roots);
    assert InOrder(states[i], Dispatches) && InOrder(states[i], Queries) && InOrder(states[i], Items);
  }
}
