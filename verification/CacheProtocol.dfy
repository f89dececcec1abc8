/** The mutable caches and the generation counter they share, as interleaved atomic steps.

    One counter invalidates every entry. A computation captures the counter, reads storage (or the
    hits of a lower cache) and offers its result; a lookup reads the counter, fetches and reads the
    counter again. Writers, computations, lookups and eviction interleave in any order. */
module CacheProtocol {

  import opened Outcomes

  type StoreId = nat
  type TaskId = nat

  datatype Layer = TupleLayer | DecisionLayer

  datatype Key = Key(layer: Layer, store: StoreId, digest: nat)

  /** A cached value, known by the storage versions its reads saw: version `v` holds exactly the
      first `v` changes ever committed. */
  datatype Entry = Entry(watermark: nat, versions: set<nat>)

  /** A local write: committed, then the counter is advanced, then the caller is told. */
  datatype Write =
    | Committed(upto: nat, changes: nat)
    | Advanced(upto: nat, generation: nat)
    | Acknowledged(upto: nat, generation: nat)
    | AcknowledgedEmpty

  /** An authoritative computation that may end in an insertion. */
  datatype Computation =
    | Computing(key: Key, startedAt: nat, versions: set<nat>)
    | Cleared(key: Key, startedAt: nat, versions: set<nat>)
    | Finished

  /** A lookup, on its own or serving a read of the computation `owner`. */
  datatype Lookup = Lookup(key: Key, owner: Option<TaskId>, phase: Phase)

  datatype Phase =
    | Admitted
    | Opened(before: nat)
    | Fetched(before: nat, found: Option<Entry>)
    | Judged(entry: Entry)
    | Hit(entry: Entry)
    | Missed

  /** `floors[g]` records how many changes were committed when the counter became `g`. */
  datatype Cache = Cache(
    generation: nat,
    floors: seq<nat>,
    log: seq<StoreId>,
    entries: map<Key, Entry>,
    writes: map<TaskId, Write>,
    computations: map<TaskId, Computation>,
    lookups: map<TaskId, Lookup>)

  datatype Step =
    | Commit(task: TaskId, store: StoreId, changes: nat)
    | CommitElsewhere(store: StoreId)
    | Advance(task: TaskId)
    | Acknowledge(task: TaskId)
    | Flush
    | Begin(task: TaskId, key: Key)
    | ReadStorage(task: TaskId)
    | UseHit(task: TaskId, lookup: TaskId)
    | CheckUnchanged(task: TaskId, permitted: bool)
    | Insert(task: TaskId)
    | Abandon(task: TaskId)
    | Evict(key: Key)
    | Admit(task: TaskId, key: Key, owner: Option<TaskId>)
    | ReadBefore(task: TaskId)
    | Fetch(task: TaskId)
    | ReadAfter(task: TaskId)
    | Return(task: TaskId, permitted: bool)

  function Empty(): Cache {
    Cache(0, [0], [], map[], map[], map[], map[])
  }

  function Repeat(store: StoreId, n: nat): seq<StoreId> {
    seq(n, _ => store)
  }

  function Advancing(s: Cache): Cache {
    s.(generation := s.generation + 1, floors := s.floors + [|s.log|])
  }

  ghost predicate Owned(s: Cache, key: Key, owner: Option<TaskId>) {
    owner.Some? ==> key.layer.TupleLayer? && owner.value in s.computations && s.computations[owner.value].Computing?
  }

  /** One atomic access. Task identifiers are never used twice. */
  ghost predicate Next(s: Cache, step: Step, t: Cache) {
    match step
    case Commit(w, store, n) =>
      && w !in s.writes
      && var log := s.log + Repeat(store, n);
         t == s.(log := log, writes := s.writes[w := Committed(|log|, n)])
    case CommitElsewhere(store) => t == s.(log := s.log + [store])
    case Advance(w) =>
      && w in s.writes && s.writes[w].Committed? && s.writes[w].changes > 0
      && t == Advancing(s).(writes := s.writes[w := Advanced(s.writes[w].upto, s.generation + 1)])
    case Acknowledge(w) =>
      && w in s.writes
      && match s.writes[w] {
           case Committed(_, n) => n == 0 && t == s.(writes := s.writes[w := AcknowledgedEmpty])
           case Advanced(upto, g) => t == s.(writes := s.writes[w := Acknowledged(upto, g)])
           case _ => false
         }
    case Flush => t == Advancing(s)
    case Begin(c, key) =>
      c !in s.computations && t == s.(computations := s.computations[c := Computing(key, s.generation, {})])
    case ReadStorage(c) =>
      && c in s.computations && s.computations[c].Computing?
      && var v := s.computations[c];
         t == s.(computations := s.computations[c := Computing(v.key, v.startedAt, v.versions + {|s.log|})])
    case UseHit(c, l) =>
      && c in s.computations && s.computations[c].Computing?
      && l in s.lookups && s.lookups[l].owner == Some(c) && s.lookups[l].phase.Hit?
      && var v := s.computations[c];
         t == s.(computations := s.computations[c :=
           Computing(v.key, v.startedAt, v.versions + s.lookups[l].phase.entry.versions)])
    case CheckUnchanged(c, permitted) =>
      && c in s.computations && s.computations[c].Computing?
      && var v := s.computations[c];
         t == s.(computations := s.computations[c :=
           if s.generation == v.startedAt && permitted then Cleared(v.key, v.startedAt, v.versions) else Finished])
    case Insert(c) =>
      && c in s.computations && s.computations[c].Cleared?
      && var v := s.computations[c];
         t == s.(entries := s.entries[v.key := Entry(v.startedAt, v.versions)],
                 computations := s.computations[c := Finished])
    case Abandon(c) => c in s.computations && t == s.(computations := s.computations[c := Finished])
    case Evict(key) => t == s.(entries := s.entries - {key})
    case Admit(l, key, owner) =>
      l !in s.lookups && Owned(s, key, owner) && t == s.(lookups := s.lookups[l := Lookup(key, owner, Admitted)])
    case ReadBefore(l) =>
      && l in s.lookups && s.lookups[l].phase.Admitted?
      && t == InPhase(s, l, Opened(s.generation))
    case Fetch(l) =>
      && l in s.lookups && s.lookups[l].phase.Opened?
      && var key := s.lookups[l].key;
         t == InPhase(s, l, Fetched(s.lookups[l].phase.before, if key in s.entries then Some(s.entries[key]) else None))
    case ReadAfter(l) =>
      && l in s.lookups && s.lookups[l].phase.Fetched?
      && t == InPhase(s, l, Verdict(s.lookups[l].phase.before, s.lookups[l].phase.found, s.generation))
    case Return(l, permitted) =>
      && l in s.lookups && s.lookups[l].phase.Judged?
      && t == InPhase(s, l, if permitted then Hit(s.lookups[l].phase.entry) else Missed)
  }

  function InPhase(s: Cache, l: TaskId, phase: Phase): Cache
    requires l in s.lookups
  {
    s.(lookups := s.lookups[l := s.lookups[l].(phase := phase)])
  }

  /** An entry survives a lookup only if the counter stood still and is the entry's own. */
  function Verdict(before: nat, entry: Option<Entry>, after: nat): Phase {
    if entry.Some? && before == after && entry.value.watermark == after then Judged(entry.value) else Missed
  }

  // ---------------------------------------------------------------------------
  // The invariant
  // ---------------------------------------------------------------------------

  ghost predicate FloorsOk(s: Cache) {
    && |s.floors| == s.generation + 1
    && (forall i: nat, j: nat :: i <= j <= s.generation ==> s.floors[i] <= s.floors[j])
    && s.floors[s.generation] <= |s.log|
  }

  /** Everything read since the counter became `g` saw at least what was committed by then. */
  ghost predicate Since(s: Cache, g: nat, versions: set<nat>) {
    && g <= s.generation < |s.floors|
    && forall v :: v in versions ==> s.floors[g] <= v <= |s.log|
  }

  ghost predicate WriteOk(s: Cache, w: Write) {
    && (w.Committed? ==> w.upto <= |s.log|)
    && (w.Advanced? || w.Acknowledged? ==> w.generation <= s.generation < |s.floors| && w.upto <= s.floors[w.generation])
  }

  ghost predicate LookupOk(s: Cache, l: Lookup) {
    && (l.owner.Some? ==> l.owner.value in s.computations)
    && match l.phase {
         case Admitted => true
         case Opened(before) => before <= s.generation && OwnerBefore(s, l.owner, before)
         case Fetched(before, entry) =>
           && before <= s.generation
           && OwnerBefore(s, l.owner, before)
           && (entry.Some? ==> Since(s, entry.value.watermark, entry.value.versions))
         case Judged(entry) => Since(s, entry.watermark, entry.versions) && OwnerBefore(s, l.owner, entry.watermark)
         case Hit(entry) => Since(s, entry.watermark, entry.versions) && OwnerBefore(s, l.owner, entry.watermark)
         case Missed => true
       }
  }

  /** A computation's lookups see the counter after the computation captured it. */
  ghost predicate OwnerBefore(s: Cache, owner: Option<TaskId>, g: nat) {
    owner.Some? && owner.value in s.computations && !s.computations[owner.value].Finished? ==>
      s.computations[owner.value].startedAt <= g
  }

  ghost predicate EntriesOk(s: Cache) {
    forall k :: k in s.entries ==> Since(s, s.entries[k].watermark, s.entries[k].versions)
  }

  ghost predicate WritesOk(s: Cache) {
    forall w :: w in s.writes ==> WriteOk(s, s.writes[w])
  }

  ghost predicate ComputationsOk(s: Cache) {
    forall c :: c in s.computations && !s.computations[c].Finished? ==>
      Since(s, s.computations[c].startedAt, s.computations[c].versions)
  }

  ghost predicate LookupsOk(s: Cache) {
    forall l :: l in s.lookups ==> LookupOk(s, s.lookups[l])
  }

  ghost predicate Inv(s: Cache) {
    FloorsOk(s) && EntriesOk(s) && WritesOk(s) && ComputationsOk(s) && LookupsOk(s)
  }

  /** History only grows. */
  ghost predicate Grows(s: Cache, t: Cache) {
    s.generation <= t.generation && s.floors <= t.floors && s.log <= t.log
  }

  /** A step adds to the log or moves the counter by one, past everything committed, or does neither. */
  lemma {:induction false} StepMovesCounter(s: Cache, step: Step, t: Cache)
    requires Next(s, step, t)
    ensures s.log <= t.log
    ensures
      || (t.generation == s.generation && t.floors == s.floors)
      || (t.generation == s.generation + 1 && t.floors == s.floors + [|s.log|])
  {
    hide Owned; hide Verdict;
    if step.Commit? {
      assert s.log <= s.log + Repeat(step.store, step.changes);
    }
  }

  lemma {:induction false} StepGrows(s: Cache, step: Step, t: Cache)
    requires FloorsOk(s) && Next(s, step, t)
    ensures Grows(s, t) && FloorsOk(t)
  {
    StepMovesCounter(s, step, t);
    hide Next;
  }

  lemma {:induction false} SinceGrows(s: Cache, t: Cache, g: nat, versions: set<nat>)
    requires FloorsOk(s) && FloorsOk(t) && Grows(s, t) && Since(s, g, versions)
    ensures Since(t, g, versions)
  {
    assert t.floors[g] == s.floors[g];
  }

  lemma {:induction false} EntriesKept(s: Cache, step: Step, t: Cache)
    requires Inv(s) && Next(s, step, t) && Grows(s, t) && FloorsOk(t)
    ensures EntriesOk(t)
  {
    hide LookupsOk; hide WritesOk; hide Owned; hide Since; hide FloorsOk; hide Verdict;
    forall k | k in t.entries ensures Since(t, t.entries[k].watermark, t.entries[k].versions) {
      SinceGrows(s, t, t.entries[k].watermark, t.entries[k].versions);
    }
  }

  lemma {:induction false} WritesKept(s: Cache, step: Step, t: Cache)
    requires FloorsOk(s) && WritesOk(s) && Next(s, step, t) && Grows(s, t) && FloorsOk(t)
    ensures WritesOk(t)
  {
    hide Owned; hide Verdict;
    forall w | w in t.writes ensures WriteOk(t, t.writes[w]) {
      assert w in s.writes ==> WriteOk(s, s.writes[w]);
    }
  }

  lemma {:induction false} ComputationsKept(s: Cache, step: Step, t: Cache)
    requires Inv(s) && Next(s, step, t) && Grows(s, t) && FloorsOk(t)
    ensures ComputationsOk(t)
  {
    hide WritesOk; hide EntriesOk; hide Owned; hide Verdict;
    forall c | c in t.computations && !t.computations[c].Finished?
      ensures Since(t, t.computations[c].startedAt, t.computations[c].versions)
    {
      if c in s.computations && !s.computations[c].Finished? {
        SinceGrows(s, t, s.computations[c].startedAt, s.computations[c].versions);
      }
    }
  }

  /** A computation keeps the generation it captured until it finishes. */
  ghost predicate TasksKept(s: Cache, t: Cache) {
    forall c :: c in s.computations ==>
      && c in t.computations
      && (t.computations[c].Finished? ||
          (!s.computations[c].Finished? && t.computations[c].startedAt == s.computations[c].startedAt))
  }

  lemma {:induction false} StepKeepsTasks(s: Cache, step: Step, t: Cache)
    requires Next(s, step, t)
    ensures TasksKept(s, t)
  {
    hide Owned; hide Verdict;
  }

  lemma {:induction false} LookupGrows(s: Cache, t: Cache, l: Lookup)
    requires FloorsOk(s) && FloorsOk(t) && Grows(s, t) && TasksKept(s, t) && LookupOk(s, l)
    ensures LookupOk(t, l)
  {
    hide Since; hide FloorsOk;
    match l.phase {
      case Fetched(_, found) => if found.Some? { SinceGrows(s, t, found.value.watermark, found.value.versions); }
      case Judged(e) => SinceGrows(s, t, e.watermark, e.versions);
      case Hit(e) => SinceGrows(s, t, e.watermark, e.versions);
      case _ =>
    }
  }

  /** The phase a lookup step moves to is sound. */
  lemma {:induction false} LookupMoves(s: Cache, step: Step, t: Cache, l: TaskId)
    requires Inv(s) && Next(s, step, t) && l in t.lookups
    requires l !in s.lookups || t.lookups[l] != s.lookups[l]
    ensures LookupOk(t, t.lookups[l])
  {
    hide WritesOk; hide FloorsOk;
    if l in s.lookups {
      assert LookupOk(s, s.lookups[l]);
    }
  }

  lemma {:induction false} LookupsKept(s: Cache, step: Step, t: Cache)
    requires Inv(s) && Next(s, step, t) && Grows(s, t) && FloorsOk(t)
    ensures LookupsOk(t)
  {
    StepKeepsTasks(s, step, t);
    hide Next; hide LookupOk; hide FloorsOk; hide Grows; hide TasksKept;
    forall l | l in t.lookups ensures LookupOk(t, t.lookups[l]) {
      if l in s.lookups && t.lookups[l] == s.lookups[l] {
        LookupGrows(s, t, s.lookups[l]);
      } else {
        LookupMoves(s, step, t, l);
      }
    }
  }

  lemma {:induction false} StepKeepsInv(s: Cache, step: Step, t: Cache)
    requires Inv(s) && Next(s, step, t)
    ensures Inv(t) && Grows(s, t)
  {
    StepGrows(s, step, t);
    EntriesKept(s, step, t);
    WritesKept(s, step, t);
    ComputationsKept(s, step, t);
    LookupsKept(s, step, t);
  }

  // ---------------------------------------------------------------------------
  // Whole runs
  // ---------------------------------------------------------------------------

  /** A run takes `steps[i]` from `states[i]` to `states[i + 1]`. */
  ghost predicate Run(states: seq<Cache>, steps: seq<Step>) {
    && |states| == |steps| + 1
    && states[0] == Empty()
    && forall i: nat :: i < |steps| ==> Next(states[i], steps[i], states[i + 1])
  }

  lemma {:induction false} RunKeepsInv(states: seq<Cache>, steps: seq<Step>, i: nat)
    requires Run(states, steps) && i < |states|
    ensures Inv(states[i])
  {
    if i > 0 {
      RunKeepsInv(states, steps, i - 1);
      StepKeepsInv(states[i - 1], steps[i - 1], states[i]);
    }
  }

  /** The lookup has not read the counter for the second time. */
  predicate Undecided(s: Cache, l: TaskId) {
    l in s.lookups ==> s.lookups[l].phase.Admitted? || s.lookups[l].phase.Opened? || s.lookups[l].phase.Fetched?
  }

  /** Whatever the lookup settles on is stamped `g` or later. */
  ghost predicate StampedFrom(s: Cache, l: TaskId, g: nat) {
    && g <= s.generation
    && (l in s.lookups ==>
          && (s.lookups[l].phase.Judged? ==> g <= s.lookups[l].phase.entry.watermark)
          && (s.lookups[l].phase.Hit? ==> g <= s.lookups[l].phase.entry.watermark))
  }

  lemma {:induction false} StampedStep(s: Cache, step: Step, t: Cache, l: TaskId, g: nat)
    requires Next(s, step, t) && StampedFrom(s, l, g)
    ensures StampedFrom(t, l, g)
  {
    hide Owned;
  }

  lemma {:induction false} HitIsStampedLater(states: seq<Cache>, steps: seq<Step>, i: nat, j: nat, l: TaskId)
    requires Run(states, steps) && i <= j < |states| && Undecided(states[i], l)
    ensures StampedFrom(states[j], l, states[i].generation)
  {
    if i < j {
      hide Next; hide StampedFrom; hide Undecided;
      HitIsStampedLater(states, steps, i, j - 1, l);
      StampedStep(states[j - 1], steps[j - 1], states[j], l, states[i].generation);
    }
  }

  /** The hit of lookup `l` in `s`. */
  ghost predicate IsHit(s: Cache, l: TaskId, entry: Entry) {
    l in s.lookups && s.lookups[l].phase == Hit(entry)
  }

  /** Every version behind the entry holds the first `upto` changes. */
  ghost predicate Reflects(entry: Entry, upto: nat) {
    forall v :: v in entry.versions ==> upto <= v
  }

  /** A hit reflects every write acknowledged before the lookup, even when the value was computed
      from hits of the lower cache: all its reads came after that write's advance. */
  lemma {:induction false} AcknowledgedWritesAreSeen(
    states: seq<Cache>, steps: seq<Step>, i: nat, j: nat, w: TaskId, l: TaskId, entry: Entry)
    requires Run(states, steps) && i <= j < |states|
    requires w in states[i].writes && states[i].writes[w].Acknowledged?
    requires Undecided(states[i], l) && IsHit(states[j], l, entry)
    ensures states[i].writes[w].generation <= entry.watermark
    ensures Reflects(entry, states[i].writes[w].upto)
  {
    RunKeepsInv(states, steps, i);
    RunKeepsInv(states, steps, j);
    HitIsStampedLater(states, steps, i, j, l);
    RunGrows(states, steps, i, j);
    assert WriteOk(states[i], states[i].writes[w]);
    assert LookupOk(states[j], states[j].lookups[l]);
  }

  lemma {:induction false} RunGrows(states: seq<Cache>, steps: seq<Step>, i: nat, j: nat)
    requires Run(states, steps) && i <= j < |states|
    ensures Grows(states[i], states[j])
  {
    hide Next; hide Inv;
    if i < j {
      RunGrows(states, steps, i, j - 1);
      RunKeepsInv(states, steps, j - 1);
      StepKeepsInv(states[j - 1], steps[j - 1], states[j]);
    }
  }

  /** An entry that an advance has passed is never returned by a lookup still to be decided. */
  lemma {:induction false} DeadEntriesStayDead(states: seq<Cache>, steps: seq<Step>, i: nat, j: nat, l: TaskId, entry: Entry)
    requires Run(states, steps) && i <= j < |states|
    requires entry.watermark < states[i].generation && Undecided(states[i], l)
    ensures !IsHit(states[j], l, entry)
  {
    HitIsStampedLater(states, steps, i, j, l);
  }

  ghost predicate IsJudged(s: Cache, l: TaskId, entry: Entry) {
    l in s.lookups && s.lookups[l].phase == Judged(entry)
  }

  /** What one lookup step does to its own lookup; the counter and the entries stay. */
  lemma {:induction false} LookupStep(s: Cache, step: Step, t: Cache)
    requires Next(s, step, t)
    requires step.Admit? || step.ReadBefore? || step.Fetch? || step.ReadAfter?
    ensures t.generation == s.generation && t.entries == s.entries && step.task in t.lookups
    ensures !step.Admit? ==> step.task in s.lookups && t.lookups[step.task].key == s.lookups[step.task].key
    ensures step.Admit? ==> t.lookups[step.task].key == step.key
    ensures step.ReadBefore? ==> t.lookups[step.task].phase == Opened(s.generation)
    ensures step.Fetch? ==>
              var key := s.lookups[step.task].key;
              && s.lookups[step.task].phase.Opened?
              && t.lookups[step.task].phase == Fetched(s.lookups[step.task].phase.before,
                                                       if key in s.entries then Some(s.entries[key]) else None)
    ensures step.ReadAfter? ==>
              && s.lookups[step.task].phase.Fetched?
              && t.lookups[step.task].phase ==
                 Verdict(s.lookups[step.task].phase.before, s.lookups[step.task].phase.found, s.generation)
  {
  }

  /** A lookup that nothing interrupts reaches its verdict with exactly the current entries. */
  lemma {:induction false} UndisturbedLookup(
    s: Cache, l: TaskId, key: Key, owner: Option<TaskId>, entry: Entry, s1: Cache, s2: Cache, s3: Cache, s4: Cache)
    requires Next(s, Admit(l, key, owner), s1) && Next(s1, ReadBefore(l), s2)
    requires Next(s2, Fetch(l), s3) && Next(s3, ReadAfter(l), s4)
    ensures IsJudged(s4, l, entry) <==> key in s.entries && s.entries[key] == entry && entry.watermark == s.generation
  {
    hide Next;
    LookupStep(s, Admit(l, key, owner), s1);
    LookupStep(s1, ReadBefore(l), s2);
    LookupStep(s2, Fetch(l), s3);
    LookupStep(s3, ReadAfter(l), s4);
  }

  /** A computation that nothing interrupts is cached with the version it read. */
  lemma {:induction false} ComputedIsCached(s: Cache, c: TaskId, key: Key)
    returns (s1: Cache, s2: Cache, s3: Cache, s4: Cache)
    requires c !in s.computations
    ensures Next(s, Begin(c, key), s1) && Next(s1, ReadStorage(c), s2)
    ensures Next(s2, CheckUnchanged(c, true), s3) && Next(s3, Insert(c), s4)
    ensures s4.entries == s.entries[key := Entry(s.generation, {|s.log|})]
    ensures s4.generation == s.generation && s4.log == s.log && s4.lookups == s.lookups
  {
    assert {} + {|s.log|} == {|s.log|};
    s1 := s.(computations := s.computations[c := Computing(key, s.generation, {})]);
    s2 := s1.(computations := s1.computations[c := Computing(key, s.generation, {} + {|s.log|})]);
    s3 := s2.(computations := s2.computations[c := Cleared(key, s.generation, {} + {|s.log|})]);
    s4 := s3.(entries := s3.entries[key := Entry(s.generation, {} + {|s.log|})], computations := s3.computations[c := Finished]);
  }

  /** What a computation took from a lower cache's hit is cached as read by it. */
  lemma {:induction false} DerivedIsCached(s: Cache, c: TaskId, l: TaskId) returns (s1: Cache, s2: Cache, s3: Cache)
    requires c in s.computations && s.computations[c].Computing? && s.computations[c].startedAt == s.generation
    requires l in s.lookups && s.lookups[l].owner == Some(c) && s.lookups[l].phase.Hit?
    ensures Next(s, UseHit(c, l), s1) && Next(s1, CheckUnchanged(c, true), s2) && Next(s2, Insert(c), s3)
    ensures var v := s.computations[c];
            v.key in s3.entries && s3.entries[v.key] == Entry(s.generation, v.versions + s.lookups[l].phase.entry.versions)
  {
    var v := s.computations[c];
    var versions := v.versions + s.lookups[l].phase.entry.versions;
    s1 := s.(computations := s.computations[c := Computing(v.key, v.startedAt, versions)]);
    s2 := s1.(computations := s1.computations[c := Cleared(v.key, v.startedAt, versions)]);
    s3 := s2.(entries := s2.entries[v.key := Entry(v.startedAt, versions)], computations := s2.computations[c := Finished]);
  }

  /** A current entry is found and returned by a lookup that nothing interrupts. */
  lemma {:induction false} CachedIsFound(s: Cache, l: TaskId, key: Key)
    returns (s1: Cache, s2: Cache, s3: Cache, s4: Cache, s5: Cache)
    requires l !in s.lookups && key in s.entries && s.entries[key].watermark == s.generation
    ensures Next(s, Admit(l, key, None), s1) && Next(s1, ReadBefore(l), s2) && Next(s2, Fetch(l), s3)
    ensures Next(s3, ReadAfter(l), s4) && Next(s4, Return(l, true), s5)
    ensures IsHit(s5, l, s.entries[key])
  {
    s1 := s.(lookups := s.lookups[l := Lookup(key, None, Admitted)]);
    s2 := InPhase(s1, l, Opened(s.generation));
    s3 := InPhase(s2, l, Fetched(s.generation, Some(s.entries[key])));
    s4 := InPhase(s3, l, Judged(s.entries[key]));
    s5 := InPhase(s4, l, Hit(s.entries[key]));
  }

  /** A local write can always go on to be acknowledged: at once if it changed nothing, after an advance
      that comes later than its rows otherwise. */
  lemma {:induction false} WriteIsAcknowledged(s: Cache, w: TaskId) returns (s1: Cache, s2: Cache)
    requires w in s.writes && s.writes[w].Committed?
    ensures s.writes[w].changes == 0 ==> Next(s, Acknowledge(w), s2) && s2.generation == s.generation
    ensures s.writes[w].changes > 0 ==>
              && Next(s, Advance(w), s1) && Next(s1, Acknowledge(w), s2)
              && s2.generation == s.generation + 1 && s2.floors == s.floors + [|s.log|]
              && s2.writes[w] == Acknowledged(s.writes[w].upto, s2.generation)
  {
    var v := s.writes[w];
    if v.changes == 0 {
      s1, s2 := s, s.(writes := s.writes[w := AcknowledgedEmpty]);
    } else {
      s1 := Advancing(s).(writes := s.writes[w := Advanced(v.upto, s.generation + 1)]);
      s2 := s1.(writes := s1.writes[w := Acknowledged(v.upto, s.generation + 1)]);
    }
  }

  // ---------------------------------------------------------------------------
  // Everything behind an entry was read in one generation
  // ---------------------------------------------------------------------------

  /** How much was committed when the counter left `g`, or is committed now if it has not. */
  function Ceiling(s: Cache, g: nat): nat
    requires FloorsOk(s) && g <= s.generation
  {
    if g < s.generation then s.floors[g + 1] else |s.log|
  }

  /** The versions were read after the counter became `g` and before it left `g`. */
  ghost predicate ReadIn(s: Cache, g: nat, versions: set<nat>)
    requires FloorsOk(s)
  {
    g <= s.generation && forall v :: v in versions ==> s.floors[g] <= v <= Ceiling(s, g)
  }

  /** The entry a lookup holds. */
  function Held(phase: Phase): Option<Entry> {
    match phase
    case Fetched(_, found) => found
    case Judged(entry) => Some(entry)
    case Hit(entry) => Some(entry)
    case _ => None
  }

  ghost predicate EntriesTimely(s: Cache)
    requires FloorsOk(s)
  {
    forall k :: k in s.entries ==> ReadIn(s, s.entries[k].watermark, s.entries[k].versions)
  }

  ghost predicate ComputationsTimely(s: Cache)
    requires FloorsOk(s)
  {
    forall c :: c in s.computations && s.computations[c].Cleared? ==>
      ReadIn(s, s.computations[c].startedAt, s.computations[c].versions)
  }

  ghost predicate HeldTimely(s: Cache, l: TaskId)
    requires FloorsOk(s)
  {
    l in s.lookups && Held(s.lookups[l].phase).Some? ==>
      ReadIn(s, Held(s.lookups[l].phase).value.watermark, Held(s.lookups[l].phase).value.versions)
  }

  ghost predicate Timely(s: Cache) {
    FloorsOk(s) && EntriesTimely(s) && ComputationsTimely(s) && forall l :: HeldTimely(s, l)
  }

  lemma {:induction false} ReadInKept(s: Cache, step: Step, t: Cache, g: nat, versions: set<nat>)
    requires FloorsOk(s) && FloorsOk(t) && Grows(s, t) && Next(s, step, t) && ReadIn(s, g, versions)
    ensures ReadIn(t, g, versions)
  {
    StepMovesCounter(s, step, t);
    hide Next;
    assert s.floors[g] == t.floors[g];
    assert g < s.generation ==> s.floors[g + 1] == t.floors[g + 1];
  }

  lemma {:induction false} EntriesStayTimely(s: Cache, step: Step, t: Cache)
    requires Timely(s) && FloorsOk(t) && Grows(s, t) && Next(s, step, t)
    ensures EntriesTimely(t)
  {
    hide FloorsOk; hide ReadIn; hide HeldTimely; hide Owned; hide Verdict; hide Grows;
    forall k | k in t.entries ensures ReadIn(t, t.entries[k].watermark, t.entries[k].versions) {
      ReadInKept(s, step, t, t.entries[k].watermark, t.entries[k].versions);
    }
  }

  lemma {:induction false} ComputationsStayTimely(s: Cache, step: Step, t: Cache)
    requires Inv(s) && Timely(s) && FloorsOk(t) && Grows(s, t) && Next(s, step, t)
    ensures ComputationsTimely(t)
  {
    hide HeldTimely; hide Owned; hide Verdict; hide EntriesTimely; hide LookupsOk; hide WritesOk; hide EntriesOk;
    forall c | c in t.computations && t.computations[c].Cleared?
      ensures ReadIn(t, t.computations[c].startedAt, t.computations[c].versions)
    {
      if c in s.computations && s.computations[c].Cleared? {
        ReadInKept(s, step, t, s.computations[c].startedAt, s.computations[c].versions);
      }
    }
  }

  lemma {:induction false} HeldStaysTimely(s: Cache, step: Step, t: Cache, l: TaskId)
    requires Timely(s) && FloorsOk(t) && Grows(s, t) && Next(s, step, t)
    ensures HeldTimely(t, l)
  {
    assert HeldTimely(s, l);
    hide FloorsOk; hide ReadIn; hide Owned; hide ComputationsTimely; hide Grows;
    if l in t.lookups && Held(t.lookups[l].phase).Some? {
      var e := Held(t.lookups[l].phase).value;
      ReadInKept(s, step, t, e.watermark, e.versions);
    }
  }

  lemma {:induction false} RunStaysTimely(states: seq<Cache>, steps: seq<Step>, i: nat)
    requires Run(states, steps) && i < |states|
    ensures Timely(states[i])
  {
    if i > 0 {
      RunStaysTimely(states, steps, i - 1);
      RunKeepsInv(states, steps, i - 1);
      var s, step, t := states[i - 1], steps[i - 1], states[i];
      assert Next(s, step, t);
      StepGrows(s, step, t);
      EntriesStayTimely(s, step, t);
      ComputationsStayTimely(s, step, t);
      hide Next; hide HeldTimely; hide EntriesTimely; hide ComputationsTimely; hide Inv;
      forall l ensures HeldTimely(t, l) {
        HeldStaysTimely(s, step, t, l);
      }
    }
  }

  /** Every read behind a hit, its own or of a hit it was computed from, happened while the counter stood
      at the entry's watermark: the versions lie between what was committed when the counter got there and
      when it went on. */
  lemma {:induction false} HitsReadOneGeneration(states: seq<Cache>, steps: seq<Step>, j: nat, l: TaskId, entry: Entry)
    requires Run(states, steps) && j < |states| && IsHit(states[j], l, entry)
    ensures FloorsOk(states[j]) && ReadIn(states[j], entry.watermark, entry.versions)
  {
    RunStaysTimely(states, steps, j);
    assert HeldTimely(states[j], l);
  }

  // ---------------------------------------------------------------------------
  // A verdict needs the counter to stand still
  // ---------------------------------------------------------------------------

  /** The lookup opened at `g` and is not decided. */
  ghost predicate OpenedAt(s: Cache, l: TaskId, g: nat) {
    l in s.lookups && (s.lookups[l].phase == Opened(g) || (s.lookups[l].phase.Fetched? && s.lookups[l].phase.before == g))
  }

  ghost predicate Decided(s: Cache, l: TaskId) {
    l in s.lookups && (s.lookups[l].phase.Judged? || s.lookups[l].phase.Hit? || s.lookups[l].phase.Missed?)
  }

  lemma {:induction false} OpenedStep(s: Cache, step: Step, t: Cache, l: TaskId, g: nat)
    requires Next(s, step, t) && (OpenedAt(s, l, g) || Decided(s, l))
    ensures OpenedAt(t, l, g) || Decided(t, l)
    ensures step == ReadAfter(l) ==> OpenedAt(s, l, g) && (t.lookups[l].phase.Judged? ==> s.generation == g)
  {
    hide Owned;
  }

  /** A lookup whose second look at the counter finds an entry sound saw the same counter at both looks. */
  lemma {:induction false} JudgedAtOneGeneration(states: seq<Cache>, steps: seq<Step>, i: nat, k: nat, l: TaskId)
    requires Run(states, steps) && i < k < |steps| && steps[i] == ReadBefore(l) && steps[k] == ReadAfter(l)
    requires l in states[k + 1].lookups && states[k + 1].lookups[l].phase.Judged?
    ensures states[k].generation == states[i].generation
  {
    StaysOpened(states, steps, i, k, l);
    assert Next(states[k], steps[k], states[k + 1]);
    hide Next;
    OpenedStep(states[k], steps[k], states[k + 1], l, states[i].generation);
  }

  lemma {:induction false} StaysOpened(states: seq<Cache>, steps: seq<Step>, i: nat, j: nat, l: TaskId)
    requires Run(states, steps) && i < j < |states| && steps[i] == ReadBefore(l)
    ensures OpenedAt(states[j], l, states[i].generation) || Decided(states[j], l)
  {
    if j == i + 1 {
      assert Next(states[i], steps[i], states[j]);
    } else {
      StaysOpened(states, steps, i, j - 1, l);
      assert Next(states[j - 1], steps[j - 1], states[j]);
      hide Next; hide OpenedAt; hide Decided;
      OpenedStep(states[j - 1], steps[j - 1], states[j], l, states[i].generation);
    }
  }
}
