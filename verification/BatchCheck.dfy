/** Many Checks in one request: merged contexts, bounded concurrency, results in request order. */
module BatchCheck {

  import opened Kleene
  import opened Outcomes
  import opened CompiledModels
  import opened Semantics
  import opened FixedPoint
  import opened Scheduling
  import opened CheckRoot
  import WorkMeter

  datatype TupleKey = TupleKey(obj: ObjectRef, relation: string, subject: SubjectRef)

  function KeyOf(t: RelationshipTuple): TupleKey {
    TupleKey(t.obj, t.relation, t.subject)
  }

  // ---------------------------------------------------------------------------
  // Merging contextual tuples
  // ---------------------------------------------------------------------------

  /** One tuple per key, the last one given. */
  function Merge(ts: seq<RelationshipTuple>): map<TupleKey, RelationshipTuple> {
    if ts == [] then map[] else Merge(ts[..|ts| - 1])[KeyOf(ts[|ts| - 1]) := ts[|ts| - 1]]
  }

  /** The key order of an ordered map: every key of a set, once. */
  ghost predicate Enumerates(order: set<TupleKey> -> seq<TupleKey>) {
    forall keys: set<TupleKey> ::
      && (forall k :: k in order(keys) <==> k in keys)
      && (forall i, j :: 0 <= i < j < |order(keys)| ==> order(keys)[i] != order(keys)[j])
  }

  function Values(m: map<TupleKey, RelationshipTuple>, keys: seq<TupleKey>): seq<RelationshipTuple>
    requires forall k :: k in keys ==> k in m
  {
    if keys == [] then [] else Values(m, keys[..|keys| - 1]) + [m[keys[|keys| - 1]]]
  }

  /** The merged context: one tuple per key, in key order, item tuples after base tuples. */
  ghost function MergedContext(
    base: seq<RelationshipTuple>, item: seq<RelationshipTuple>, order: set<TupleKey> -> seq<TupleKey>)
    : seq<RelationshipTuple>
    requires Enumerates(order)
  {
    var m := Merge(base + item);
    Values(m, order(m.Keys))
  }

  // What merging comes to, without maps or keys: of the tuples that agree on object, relation and
  // subject, the last one given.

  predicate SameTriple(a: RelationshipTuple, b: RelationshipTuple) {
    a.obj == b.obj && a.relation == b.relation && a.subject == b.subject
  }

  predicate LastOfTriple(ts: seq<RelationshipTuple>, t: RelationshipTuple) {
    exists i :: 0 <= i < |ts| && ts[i] == t && forall j :: i < j < |ts| ==> !SameTriple(ts[j], t)
  }

  /** No two tuples agree on all three. */
  predicate OnePerTriple(ts: seq<RelationshipTuple>) {
    forall i, j :: 0 <= i < j < |ts| ==> !SameTriple(ts[i], ts[j])
  }

  lemma {:induction false} MergeKeepsLast(ts: seq<RelationshipTuple>, t: RelationshipTuple)
    ensures (KeyOf(t) in Merge(ts) && Merge(ts)[KeyOf(t)] == t) <==> LastOfTriple(ts, t)
    decreases |ts|
  {
    if ts != [] {
      var n := |ts| - 1;
      MergeKeepsLast(ts[..n], t);
      if SameTriple(ts[n], t) {
        if LastOfTriple(ts, t) {
          var i :| 0 <= i < |ts| && ts[i] == t && forall j :: i < j < |ts| ==> !SameTriple(ts[j], t);
          assert i == n;
        } else if ts[n] == t {
          assert LastOfTriple(ts, t);
        }
      } else {
        if LastOfTriple(ts[..n], t) {
          var i :| 0 <= i < n && ts[..n][i] == t && forall j :: i < j < n ==> !SameTriple(ts[..n][j], t);
          assert forall j :: i < j < |ts| ==> j == n || ts[j] == ts[..n][j];
        }
        if LastOfTriple(ts, t) {
          var i :| 0 <= i < |ts| && ts[i] == t && forall j :: i < j < |ts| ==> !SameTriple(ts[j], t);
          assert i < n && ts[..n][i] == t;
        }
      }
    }
  }

  lemma {:induction false} MergeIsKeyed(ts: seq<RelationshipTuple>, k: TupleKey)
    requires k in Merge(ts)
    ensures KeyOf(Merge(ts)[k]) == k
    decreases |ts|
  {
    var n := |ts| - 1;
    if KeyOf(ts[n]) != k {
      MergeIsKeyed(ts[..n], k);
    }
  }

  lemma {:induction false} ValuesAt(m: map<TupleKey, RelationshipTuple>, keys: seq<TupleKey>)
    requires forall k :: k in keys ==> k in m
    ensures |Values(m, keys)| == |keys|
    ensures forall i :: 0 <= i < |keys| ==> keys[i] in m && Values(m, keys)[i] == m[keys[i]]
  {
    if keys != [] {
      ValuesAt(m, keys[..|keys| - 1]);
    }
  }

  /** The merged context holds, of the base and item tuples that agree on object, relation and subject,
      exactly the last one, and each of them once. */
  lemma {:induction false} MergedIsLast(
    base: seq<RelationshipTuple>, item: seq<RelationshipTuple>, order: set<TupleKey> -> seq<TupleKey>)
    requires Enumerates(order)
    ensures forall t :: t in MergedContext(base, item, order) <==> LastOfTriple(base + item, t)
    ensures OnePerTriple(MergedContext(base, item, order))
  {
    hide LastOfTriple; hide Merge;
    var ts, m := base + item, Merge(base + item);
    var keys, context := order(m.Keys), MergedContext(base, item, order);
    ValuesAt(m, keys);
    forall i | 0 <= i < |keys| ensures KeyOf(context[i]) == keys[i] {
      MergeIsKeyed(ts, keys[i]);
    }
    forall t ensures t in context <==> LastOfTriple(ts, t) {
      MergeKeepsLast(ts, t);
      if LastOfTriple(ts, t) {
        assert KeyOf(t) in keys;
        var i :| 0 <= i < |keys| && keys[i] == KeyOf(t);
        assert context[i] == t;
      }
    }
  }

  /** The tuples of one object and relation are exactly the context's, in the context's order. */
  lemma {:induction false} OfIsExact(ts: seq<RelationshipTuple>, obj: ObjectRef, relation: string) returns (src: seq<nat>)
    ensures |src| == |Of(ts, obj, relation)|
    ensures forall k :: 0 <= k < |src| ==> src[k] < |ts| && Of(ts, obj, relation)[k] == ts[src[k]]
    ensures forall k, l :: 0 <= k < l < |src| ==> src[k] < src[l]
    ensures forall i :: 0 <= i < |ts| ==> (i in src <==> ts[i].obj == obj && ts[i].relation == relation)
  {
    if ts == [] {
      src := [];
    } else {
      var n := |ts| - 1;
      src := OfIsExact(ts[..n], obj, relation);
      if ts[n].obj == obj && ts[n].relation == relation {
        src := src + [n];
      }
    }
  }

  /** An item tuple overrides the base tuple of the same key; everything else is kept. */
  lemma {:induction false} ItemOverridesBase(base: seq<RelationshipTuple>, item: seq<RelationshipTuple>, k: TupleKey)
    ensures k in Merge(base + item) <==> k in Merge(base) || k in Merge(item)
    ensures k in Merge(item) ==> Merge(base + item)[k] == Merge(item)[k]
    ensures k in Merge(base) && k !in Merge(item) ==> Merge(base + item)[k] == Merge(base)[k]
    decreases |item|
  {
    if item == [] {
      assert base + item == base;
    } else {
      assert (base + item)[..|base + item| - 1] == base + item[..|item| - 1];
      ItemOverridesBase(base, item[..|item| - 1], k);
    }
  }

  method MergeTuples(base: seq<RelationshipTuple>, item: seq<RelationshipTuple>) returns (m: map<TupleKey, RelationshipTuple>)
    ensures m == Merge(base + item)
    ensures forall t :: (KeyOf(t) in m && m[KeyOf(t)] == t) <==> LastOfTriple(base + item, t)
  {
    m := map[];
    for i := 0 to |base|
      invariant m == Merge(base[..i])
    {
      assert base[..i + 1][..i] == base[..i];
      m := m[KeyOf(base[i]) := base[i]];
    }
    assert base[..|base|] == base && base + item[..0] == base;
    for i := 0 to |item|
      invariant m == Merge(base + item[..i])
    {
      assert (base + item[..i + 1])[..|base| + i] == base + item[..i];
      m := m[KeyOf(item[i]) := item[i]];
    }
    assert item[..|item|] == item;
    forall t ensures (KeyOf(t) in m && m[KeyOf(t)] == t) <==> LastOfTriple(base + item, t) {
      MergeKeepsLast(base + item, t);
    }
  }

  /** The tuples the cache key covers. */
  method KeyContext(base: seq<RelationshipTuple>, item: seq<RelationshipTuple>, order: set<TupleKey> -> seq<TupleKey>)
    returns (tuples: seq<RelationshipTuple>)
    requires Enumerates(order)
    ensures tuples == MergedContext(base, item, order)
    ensures (forall t :: t in tuples <==> LastOfTriple(base + item, t)) && OnePerTriple(tuples)
  {
    MergedIsLast(base, item, order);
    var m := MergeTuples(base, item);
    tuples := Values(m, order(m.Keys));
  }

  type Index = map<(ObjectRef, string), seq<RelationshipTuple>>

  function Get(index: Index, obj: ObjectRef, relation: string): seq<RelationshipTuple> {
    if (obj, relation) in index then index[(obj, relation)] else []
  }

  /** The tuples of one object and relation, in order. */
  function Of(ts: seq<RelationshipTuple>, obj: ObjectRef, relation: string): seq<RelationshipTuple> {
    if ts == [] then []
    else
      var last := ts[|ts| - 1];
      Of(ts[..|ts| - 1], obj, relation) + if last.obj == obj && last.relation == relation then [last] else []
  }

  ghost predicate Indexes(index: Index, ts: seq<RelationshipTuple>) {
    forall obj, relation :: Get(index, obj, relation) == Of(ts, obj, relation)
  }

  /** The index that evaluation reads holds exactly the context that the cache key covers. */
  method ContextualIndex(base: seq<RelationshipTuple>, item: seq<RelationshipTuple>, order: set<TupleKey> -> seq<TupleKey>)
    returns (index: Index)
    requires Enumerates(order)
    ensures Indexes(index, MergedContext(base, item, order))
  {
    var m := MergeTuples(base, item);
    var tuples := Values(m, order(m.Keys));
    index := map[];
    assert Indexes(index, []);
    assert tuples == MergedContext(base, item, order);
    hide Indexes; hide MergedContext;
    for i := 0 to |tuples|
      invariant Indexes(index, tuples[..i])
    {
      var tuple := tuples[i];
      IndexSnoc(index, tuples[..i], tuple);
      assert tuples[..i + 1] == tuples[..i] + [tuple];
      index := index[(tuple.obj, tuple.relation) := Get(index, tuple.obj, tuple.relation) + [tuple]];
    }
    assert tuples[..|tuples|] == tuples;
  }

  lemma {:induction false} IndexSnoc(index: Index, ts: seq<RelationshipTuple>, t: RelationshipTuple)
    requires Indexes(index, ts)
    ensures Indexes(index[(t.obj, t.relation) := Get(index, t.obj, t.relation) + [t]], ts + [t])
  {
    OfSnoc(ts, t);
    hide Of;
  }

  lemma {:induction false} OfSnoc(ts: seq<RelationshipTuple>, t: RelationshipTuple)
    ensures forall obj, relation :: Of(ts + [t], obj, relation) ==
              Of(ts, obj, relation) + if t.obj == obj && t.relation == relation then [t] else []
  {
    assert (ts + [t])[..|ts|] == ts;
  }

  // ---------------------------------------------------------------------------
  // Running the batch
  // ---------------------------------------------------------------------------

  /** One requested Check. `overlayOk` says whether its condition context overlays the request's;
      `verdict` is how conditions evaluate under that overlay. */
  datatype Item = Item(
    correlationId: string, root: SemanticKey, contextual: seq<RelationshipTuple>, overlayOk: bool,
    verdict: RelationshipTuple -> Verdict)

  datatype Job = Job(index: nat, correlationId: string, world: World, root: SemanticKey)

  datatype BatchResult = BatchResult(correlationId: string, outcome: Evaluation)

  datatype Request = Request(
    items: seq<Item>, base: seq<RelationshipTuple>, model: CompiledModel,
    stored: (ObjectRef, string) -> seq<RelationshipTuple>)

  /** The world of one item sees the merged context. */
  ghost predicate WorldOf(q: Request, i: nat, order: set<TupleKey> -> seq<TupleKey>, w: World)
    requires i < |q.items| && Enumerates(order)
  {
    && w.model == q.model && w.stored == q.stored && w.verdict == q.items[i].verdict
    && forall obj, relation ::
         w.contextual(obj, relation) == Of(MergedContext(q.base, q.items[i].contextual, order), obj, relation)
  }

  ghost predicate JobOk(q: Request, order: set<TupleKey> -> seq<TupleKey>, job: Job)
    requires Enumerates(order)
  {
    && job.index < |q.items|
    && job.correlationId == q.items[job.index].correlationId && job.root == q.items[job.index].root
    && WorldOf(q, job.index, order, job.world)
  }

  /** The item's result carries its correlation identifier and the outcome of its own root. */
  ghost predicate ResultOk(
    q: Request, order: set<TupleKey> -> seq<TupleKey>, budget: CheckBudget, i: nat, r: BatchResult, usage: Usage)
    requires Enumerates(order) && i < |q.items| && ValidModel(q.model)
  {
    && r.correlationId == q.items[i].correlationId
    && if q.items[i].overlayOk then
         && (exists w :: WorldOf(q, i, order, w) && OutcomeOk(w, budget, q.items[i].root, r.outcome, usage))
         && WithinBudget(usage, budget, false)
       else r.outcome == Err(CheckError(InvalidTuple, "batch_condition_context_invalid"))
  }

  /** Every item has a result or a job, and every result and job is its item's own. */
  ghost predicate Covered(
    q: Request, order: set<TupleKey> -> seq<TupleKey>, budget: CheckBudget,
    results: seq<Option<BatchResult>>, usages: seq<Usage>, jobs: seq<Job>, n: nat)
    requires Enumerates(order) && ValidModel(q.model) && n <= |q.items|
  {
    && |results| == |usages| == |q.items|
    && (forall k :: 0 <= k < |jobs| ==> JobOk(q, order, jobs[k]) && q.items[jobs[k].index].overlayOk)
    && (forall i :: 0 <= i < |results| && results[i].Some? ==> ResultOk(q, order, budget, i, results[i].value, usages[i]))
    && (forall i :: 0 <= i < n ==> results[i].Some? || HasJob(jobs, i))
  }

  predicate HasJob(jobs: seq<Job>, i: nat) {
    exists k :: 0 <= k < |jobs| && jobs[k].index == i
  }

  function ContextOf(index: Index): (ObjectRef, string) -> seq<RelationshipTuple> {
    (obj, relation) => Get(index, obj, relation)
  }

  /** Turns every item into a job, or into a result when its condition context is invalid. */
  method PrepareBatch(q: Request, budget: CheckBudget, order: set<TupleKey> -> seq<TupleKey>)
    returns (jobs: seq<Job>, results: seq<Option<BatchResult>>, ghost usages: seq<Usage>)
    requires Enumerates(order) && ValidModel(q.model)
    ensures Covered(q, order, budget, results, usages, jobs, |q.items|)
    ensures |results| == |q.items| && forall i :: 0 <= i < |results| ==> (results[i].None? <==> q.items[i].overlayOk)
    ensures forall k :: 0 <= k < |jobs| ==> JobOk(q, order, jobs[k])
  {
    hide Eval; hide ValidModel; hide Enumerates; hide MergedContext;
    results := seq(|q.items|, _ => None);
    usages := seq(|q.items|, _ => Usage(false, {}, Counters(0, 0, 0, 0), 0, WorkMeter.NO_WORK, WorkMeter.NO_WORK));
    jobs := [];
    for index := 0 to |q.items|
      invariant Covered(q, order, budget, results, usages, jobs, index)
      invariant forall i :: index <= i < |results| ==> results[i].None?
      invariant forall i :: 0 <= i < index ==> (results[i].None? <==> q.items[i].overlayOk)
    {
      var item := q.items[index];
      if !item.overlayOk {
        var r := BatchResult(item.correlationId, Err(CheckError(InvalidTuple, "batch_condition_context_invalid")));
        results := results[index := Some(r)];
      } else {
        var context := ContextualIndex(q.base, item.contextual, order);
        var job := Job(index, item.correlationId, World(q.model, ContextOf(context), q.stored, item.verdict), item.root);
        assert JobOk(q, order, job);
        Queued(q, order, budget, results, usages, jobs, index, job);
        jobs := jobs + [job];
      }
    }
  }

  lemma {:induction false} Queued(
    q: Request, order: set<TupleKey> -> seq<TupleKey>, budget: CheckBudget,
    results: seq<Option<BatchResult>>, usages: seq<Usage>, jobs: seq<Job>, n: nat, job: Job)
    requires Enumerates(order) && ValidModel(q.model) && n < |q.items| && Covered(q, order, budget, results, usages, jobs, n)
    requires JobOk(q, order, job) && job.index == n && q.items[n].overlayOk
    ensures Covered(q, order, budget, results, usages, jobs + [job], n + 1)
  {
    hide Eval; hide ValidModel; hide Enumerates; hide JobOk; hide ResultOk;
    assert (jobs + [job])[|jobs|] == job;
    forall i | 0 <= i < n && HasJob(jobs, i) ensures HasJob(jobs + [job], i) {
      var k :| 0 <= k < |jobs| && jobs[k].index == i;
      assert (jobs + [job])[k].index == i;
    }
  }

  /** A finished task's result takes its item's place. */
  lemma {:induction false} Finished(
    q: Request, order: set<TupleKey> -> seq<TupleKey>, budget: CheckBudget,
    results: seq<Option<BatchResult>>, usages: seq<Usage>, jobs: seq<Job>, rest: seq<Job>, job: Job, r: BatchResult, usage: Usage)
    requires Enumerates(order) && ValidModel(q.model) && Covered(q, order, budget, results, usages, jobs, |q.items|)
    requires job in jobs && (forall k :: 0 <= k < |jobs| ==> jobs[k] == job || jobs[k] in rest)
    requires forall k :: 0 <= k < |rest| ==> rest[k] in jobs
    requires job.index < |q.items| && ResultOk(q, order, budget, job.index, r, usage)
    ensures Covered(q, order, budget, results[job.index := Some(r)], usages[job.index := usage], rest, |q.items|)
  {
    hide Eval; hide ValidModel; hide Enumerates; hide JobOk; hide ResultOk;
    forall i | 0 <= i < |q.items| && i != job.index && HasJob(jobs, i) ensures HasJob(rest, i) {
      var k :| 0 <= k < |jobs| && jobs[k].index == i;
      assert jobs[k] in rest;
    }
  }

  /** Evaluates one job's root. */
  method RunJob(q: Request, order: set<TupleKey> -> seq<TupleKey>, budget: CheckBudget, job: Job)
    returns (r: BatchResult, ghost usage: Usage)
    requires Enumerates(order) && ReachabilityClosed(q.model) && ValidModel(q.model) && ValidBudget(budget)
    requires JobOk(q, order, job) && q.items[job.index].overlayOk
    ensures ResultOk(q, order, budget, job.index, r, usage)
    ensures r.correlationId == q.items[job.index].correlationId
    ensures r.outcome.Ok? ==> Eval(job.world, budget.depth, job.root, {}) == FromBool(r.outcome.value.allowed)
    ensures r.outcome.Err? ==> !Broken(r.outcome.error)
  {
    hide Eval; hide ValidModel; hide ReachabilityClosed; hide Enumerates; hide WorldOf;
    assert job.world.model == q.model by { WorldModel(q, job.index, order, job.world); }
    var outcome;
    outcome, usage := Check(job.world, budget, false, job.root);
    r := BatchResult(job.correlationId, outcome);
  }

  lemma {:induction false} WorldModel(q: Request, i: nat, order: set<TupleKey> -> seq<TupleKey>, w: World)
    requires i < |q.items| && Enumerates(order) && WorldOf(q, i, order, w)
    ensures w.model == q.model
  {
  }

  /** A successful batch holds one result per item, in request order, for every completion order. */
  method RunBatch(q: Request, budget: CheckBudget, concurrency: nat, order: set<TupleKey> -> seq<TupleKey>)
    returns (r: Result<seq<BatchResult>>, ghost usages: seq<Usage>)
    requires Enumerates(order) && ReachabilityClosed(q.model) && ValidModel(q.model) && ValidBudget(budget)
    requires concurrency >= 1
    ensures r.Ok? ==>
              && |r.value| == |usages| == |q.items|
              && forall i :: 0 <= i < |q.items| ==> ResultOk(q, order, budget, i, r.value[i], usages[i])
    ensures r.Err? ==> r.error.kind == Cancelled || r.error.kind == Timeout || r.error == InternalError("batch_item_task_failed")
  {
    hide Eval; hide ValidModel; hide ReachabilityClosed; hide Enumerates; hide Covered;
    var jobs, results;
    jobs, results, usages := PrepareBatch(q, budget, order);
    var pending: seq<Job> := [];
    assert pending + jobs == jobs;
    while |jobs| > 0 || |pending| > 0
      invariant Covered(q, order, budget, results, usages, pending + jobs, |q.items|)
      invariant |pending| <= concurrency
      decreases |jobs| + |pending|
    {
      ghost var total := |jobs| + |pending|;
      while |jobs| > 0 && |pending| < concurrency
        invariant Covered(q, order, budget, results, usages, pending + jobs, |q.items|)
        invariant |pending| <= concurrency && |jobs| + |pending| == total
      {
        assert (pending + [jobs[0]]) + jobs[1..] == pending + jobs;
        pending, jobs := pending + [jobs[0]], jobs[1..];
      }
      var stop, failed: bool := *, *;
      if stop {
        var late: bool := *;
        r := Err(if late then CheckError(Timeout, "batch_deadline_elapsed") else CheckError(Cancelled, "batch_cancelled"));
        return;
      }
      if failed {
        r := Err(InternalError("batch_item_task_failed"));
        return;
      }
      var k: nat :| k < |pending|;
      var job := pending[k];
      CoveredJob(q, order, budget, results, usages, pending + jobs, k);
      var result;
      ghost var usage;
      result, usage := RunJob(q, order, budget, job);
      var rest := pending[..k] + pending[k + 1..];
      Without(pending, jobs, k);
      Finished(q, order, budget, results, usages, pending + jobs, rest + jobs, job, result, usage);
      results, pending := results[job.index := Some(result)], rest;
      usages := usages[job.index := usage];
    }
    AllDone(q, order, budget, results, usages, pending + jobs);
    r := Ok(seq(|results|, i requires 0 <= i < |results| => results[i].value));
  }

  lemma {:induction false} Without(pending: seq<Job>, jobs: seq<Job>, k: nat)
    requires k < |pending|
    ensures
      var rest := pending[..k] + pending[k + 1..];
      && pending[k] in pending + jobs
      && (forall i :: 0 <= i < |pending + jobs| ==> (pending + jobs)[i] == pending[k] || (pending + jobs)[i] in rest + jobs)
      && (forall i :: 0 <= i < |rest + jobs| ==> (rest + jobs)[i] in pending + jobs)
  {
    assert (pending + jobs)[k] == pending[k];
    forall i | 0 <= i < |pending + jobs| && i != k
      ensures (pending + jobs)[i] in pending[..k] + pending[k + 1..] + jobs
    {
      assert (pending[..k] + pending[k + 1..] + jobs)[if i < k then i else i - 1] == (pending + jobs)[i];
    }
  }

  lemma {:induction false} CoveredJob(
    q: Request, order: set<TupleKey> -> seq<TupleKey>, budget: CheckBudget,
    results: seq<Option<BatchResult>>, usages: seq<Usage>, jobs: seq<Job>, k: nat)
    requires Enumerates(order) && ValidModel(q.model) && Covered(q, order, budget, results, usages, jobs, |q.items|) && k < |jobs|
    ensures JobOk(q, order, jobs[k]) && q.items[jobs[k].index].overlayOk && |results| == |usages| == |q.items|
  {
  }

  lemma {:induction false} AllDone(
    q: Request, order: set<TupleKey> -> seq<TupleKey>, budget: CheckBudget,
    results: seq<Option<BatchResult>>, usages: seq<Usage>, jobs: seq<Job>)
    requires Enumerates(order) && ValidModel(q.model) && Covered(q, order, budget, results, usages, jobs, |q.items|) && jobs == []
    ensures |results| == |usages| == |q.items|
    ensures forall i :: 0 <= i < |results| ==> results[i].Some? && ResultOk(q, order, budget, i, results[i].value, usages[i])
  {
  }
}
