/** The latest-model alias: one cached name per store for its newest model, computed under a
    per-store lock and removed by every local publication. */
module ModelAlias {

  type StoreId = nat
  type TaskId = nat

  /** A local publication: the model is committed as the store's `index`-th, then the alias is removed. */
  datatype Write = Committed(store: StoreId, index: nat) | Completed(store: StoreId, index: nat)

  /** A latest-model read that may use the alias. */
  datatype Phase =
    | Started
    | Missing
    | Computing
    | Loaded(index: nat)
    | Resolved(index: nat)
    | Dropped

  datatype Read = Read(store: StoreId, phase: Phase)

  /** `published[store]` counts the store's committed models; the newest is the last. */
  datatype State = State(
    published: map<StoreId, nat>,
    aliases: map<StoreId, nat>,
    locks: map<StoreId, TaskId>,
    writes: map<TaskId, Write>,
    reads_: map<TaskId, Read>)

  datatype Step =
    | Commit(task: TaskId, store: StoreId)
    | CommitElsewhere(store: StoreId)
    | RemoveAlias(task: TaskId)
    | Start(task: TaskId, store: StoreId)
    | Lookup(task: TaskId)
    | BeginCompute(task: TaskId)
    | Load(task: TaskId)
    | Put(task: TaskId)
    | Drop(task: TaskId)
    | Expire(store: StoreId)

  function Published(s: State, store: StoreId): nat {
    if store in s.published then s.published[store] else 0
  }

  function InPhase(s: State, r: TaskId, phase: Phase): State
    requires r in s.reads_
  {
    s.(reads_ := s.reads_[r := s.reads_[r].(phase := phase)])
  }

  predicate Holds(s: State, r: TaskId) {
    r in s.reads_ && s.reads_[r].store in s.locks && s.locks[s.reads_[r].store] == r
  }

  function Unlock(s: State, r: TaskId): State
    requires r in s.reads_
  {
    if Holds(s, r) then s.(locks := s.locks - {s.reads_[r].store}) else s
  }

  ghost predicate Next(s: State, step: Step, t: State) {
    match step
    case Commit(w, store) =>
      && w !in s.writes
      && var n := Published(s, store) + 1;
         t == s.(published := s.published[store := n], writes := s.writes[w := Committed(store, n)])
    case CommitElsewhere(store) => t == s.(published := s.published[store := Published(s, store) + 1])
    case RemoveAlias(w) =>
      && w in s.writes && s.writes[w].Committed? && s.writes[w].store !in s.locks
      && t == s.(aliases := s.aliases - {s.writes[w].store},
                 writes := s.writes[w := Completed(s.writes[w].store, s.writes[w].index)])
    case Start(r, store) => r !in s.reads_ && t == s.(reads_ := s.reads_[r := Read(store, Started)])
    case Lookup(r) =>
      && r in s.reads_ && s.reads_[r].phase.Started?
      && var store := s.reads_[r].store;
         t == InPhase(s, r, if store in s.aliases then Resolved(s.aliases[store]) else Missing)
    case BeginCompute(r) =>
      && r in s.reads_ && s.reads_[r].phase.Missing? && s.reads_[r].store !in s.locks
      && var store := s.reads_[r].store;
         if store in s.aliases then t == InPhase(s, r, Resolved(s.aliases[store]))
         else t == InPhase(s, r, Computing).(locks := s.locks[store := r])
    case Load(r) =>
      && r in s.reads_ && s.reads_[r].phase.Computing? && Published(s, s.reads_[r].store) > 0
      && t == InPhase(s, r, Loaded(Published(s, s.reads_[r].store)))
    case Put(r) =>
      && r in s.reads_ && s.reads_[r].phase.Loaded?
      && var index := s.reads_[r].phase.index;
         t == InPhase(Unlock(s, r), r, Resolved(index)).(aliases := s.aliases[s.reads_[r].store := index])
    case Drop(r) => r in s.reads_ && !s.reads_[r].phase.Resolved? && t == InPhase(Unlock(s, r), r, Dropped)
    case Expire(store) => t == s.(aliases := s.aliases - {store})
  }

  predicate AtWork(phase: Phase) {
    phase.Computing? || phase.Loaded?
  }

  /** A completed publication's model is at most the alias, and at most what a computation has loaded. */
  ghost predicate Seen(s: State, w: Write) {
    && w.index <= Published(s, w.store)
    && (w.Completed? ==>
          && (w.store in s.aliases ==> w.index <= s.aliases[w.store])
          && (w.store in s.locks ==>
                s.locks[w.store] in s.reads_ &&
                (s.reads_[s.locks[w.store]].phase.Loaded? ==> w.index <= s.reads_[s.locks[w.store]].phase.index)))
  }

  /** The lock of a store is held exactly by the read at work on it. */
  ghost predicate LocksOk(s: State) {
    && (forall r :: r in s.reads_ && AtWork(s.reads_[r].phase) ==> Holds(s, r))
    && (forall x :: x in s.locks ==> s.locks[x] in s.reads_ && s.reads_[s.locks[x]].store == x && AtWork(s.reads_[s.locks[x]].phase))
  }

  ghost predicate Inv(s: State) {
    LocksOk(s) && forall w :: w in s.writes ==> Seen(s, s.writes[w])
  }

  /** One read moves and takes, keeps or gives back its store's lock. */
  lemma {:induction false} LockMoves(s: State, t: State, r: TaskId, read: Read)
    requires LocksOk(s) && t.reads_ == s.reads_[r := read] && (r in s.reads_ ==> s.reads_[r].store == read.store)
    requires
      || (t.locks == s.locks && (AtWork(read.phase) <==> r in s.reads_ && AtWork(s.reads_[r].phase)))
      || (t.locks == s.locks - {read.store} && Holds(s, r) && !AtWork(read.phase))
      || (t.locks == s.locks[read.store := r] && read.store !in s.locks && AtWork(read.phase))
    ensures LocksOk(t)
  {
  }

  lemma {:induction false} LocksKept(s: State, step: Step, t: State)
    requires LocksOk(s) && Next(s, step, t)
    ensures LocksOk(t)
  {
    hide LocksOk;
    if t.reads_ == s.reads_ && t.locks == s.locks {
      SameLocks(s, t);
    } else {
      assert Held(s) by { LocksFacts(s); }
      LockMoves(s, t, step.task, t.reads_[step.task]);
    }
  }

  lemma {:induction false} SameLocks(s: State, t: State)
    requires LocksOk(s) && t.reads_ == s.reads_ && t.locks == s.locks
    ensures LocksOk(t)
  {
  }

  ghost predicate Held(s: State) {
    forall r :: r in s.reads_ ==> (AtWork(s.reads_[r].phase) <==> Holds(s, r))
  }

  lemma {:induction false} LocksFacts(s: State)
    requires LocksOk(s)
    ensures Held(s)
  {
  }

  lemma {:induction false} WriteKept(s: State, step: Step, t: State, w: TaskId)
    requires Inv(s) && Next(s, step, t) && w in t.writes
    ensures Seen(t, t.writes[w])
  {
    assert w in s.writes ==> Seen(s, s.writes[w]);
  }

  lemma {:induction false} StepKeepsInv(s: State, step: Step, t: State)
    requires Inv(s) && Next(s, step, t)
    ensures Inv(t)
  {
    LocksKept(s, step, t);
    hide Next; hide LocksOk; hide Seen;
    forall w | w in t.writes ensures Seen(t, t.writes[w]) {
      WriteKept(s, step, t, w);
    }
  }

  ghost predicate Run(states: seq<State>, steps: seq<Step>) {
    && |states| == |steps| + 1
    && states[0] == State(map[], map[], map[], map[], map[])
    && forall i: nat :: i < |steps| ==> Next(states[i], steps[i], states[i + 1])
  }

  lemma {:induction false} RunKeepsInv(states: seq<State>, steps: seq<Step>, i: nat)
    requires Run(states, steps) && i < |states|
    ensures Inv(states[i])
  {
    hide Inv; hide Next;
    if i > 0 {
      RunKeepsInv(states, steps, i - 1);
      StepKeepsInv(states[i - 1], steps[i - 1], states[i]);
    } else {
      assert Inv(states[0]) by { StartsOk(); }
    }
  }

  lemma {:induction false} StartsOk()
    ensures Inv(State(map[], map[], map[], map[], map[]))
  {
  }

  /** Whatever the read has loaded or resolved is at least the publication's model. */
  ghost predicate AtLeast(s: State, w: TaskId, r: TaskId, k: nat) {
    && w in s.writes && s.writes[w].Completed? && s.writes[w].index == k
    && (r in s.reads_ && s.reads_[r].store == s.writes[w].store ==>
          && (s.reads_[r].phase.Loaded? ==> k <= s.reads_[r].phase.index)
          && (s.reads_[r].phase.Resolved? ==> k <= s.reads_[r].phase.index))
  }

  lemma {:induction false} AtLeastStep(s: State, step: Step, t: State, w: TaskId, r: TaskId, k: nat)
    requires Inv(s) && Next(s, step, t) && AtLeast(s, w, r, k)
    ensures AtLeast(t, w, r, k) && t.writes[w] == s.writes[w]
  {
    assert Seen(s, s.writes[w]);
  }

  /** After a publication completes, every latest read begun later resolves to its model or a newer one,
      whatever cold computations, hits, expiries and abandoned computations happen in between. */
  lemma {:induction false} LatestIsNeverOlder(
    states: seq<State>, steps: seq<Step>, i: nat, j: nat, w: TaskId, r: TaskId)
    requires Run(states, steps) && i <= j < |states|
    requires w in states[i].writes && states[i].writes[w].Completed? && r !in states[i].reads_
    ensures AtLeast(states[j], w, r, states[i].writes[w].index) && states[j].writes[w] == states[i].writes[w]
  {
    hide Inv; hide Next; hide AtLeast;
    if i < j {
      LatestIsNeverOlder(states, steps, i, j - 1, w, r);
      RunKeepsInv(states, steps, j - 1);
      AtLeastStep(states[j - 1], steps[j - 1], states[j], w, r, states[i].writes[w].index);
    } else {
      assert AtLeast(states[i], w, r, states[i].writes[w].index) by { NotBegun(states[i], w, r); }
    }
  }

  lemma {:induction false} NotBegun(s: State, w: TaskId, r: TaskId)
    requires w in s.writes && s.writes[w].Completed? && r !in s.reads_
    ensures AtLeast(s, w, r, s.writes[w].index)
  {
  }

  // ---------------------------------------------------------------------------
  // Nothing is made up
  // ---------------------------------------------------------------------------

  predicate Exists(s: State, store: StoreId, index: nat) {
    1 <= index <= Published(s, store)
  }

  /** Every alias, and everything a read has loaded or resolved, is a published model of its store. */
  ghost predicate AllPublished(s: State) {
    && (forall x :: x in s.aliases ==> Exists(s, x, s.aliases[x]))
    && (forall r :: r in s.reads_ ==>
          && (s.reads_[r].phase.Loaded? ==> Exists(s, s.reads_[r].store, s.reads_[r].phase.index))
          && (s.reads_[r].phase.Resolved? ==> Exists(s, s.reads_[r].store, s.reads_[r].phase.index)))
  }

  lemma {:induction false} PublishedStep(s: State, step: Step, t: State)
    requires AllPublished(s) && Next(s, step, t)
    ensures AllPublished(t)
  {
    PublishedGrows(s, step, t);
    forall x | x in t.aliases ensures Exists(t, x, t.aliases[x]) {
      AliasFrom(s, step, t, x);
    }
  }

  /** Publications accumulate, and no step touches two reads. */
  lemma {:induction false} PublishedGrows(s: State, step: Step, t: State)
    requires AllPublished(s) && Next(s, step, t)
    ensures forall x :: Published(s, x) <= Published(t, x)
    ensures forall r :: r in t.reads_ ==>
              && (t.reads_[r].phase.Loaded? ==> Exists(t, t.reads_[r].store, t.reads_[r].phase.index))
              && (t.reads_[r].phase.Resolved? ==> Exists(t, t.reads_[r].store, t.reads_[r].phase.index))
  {
  }

  lemma {:induction false} AliasFrom(s: State, step: Step, t: State, x: StoreId)
    requires AllPublished(s) && Next(s, step, t) && x in t.aliases
    ensures Exists(t, x, t.aliases[x])
  {
  }

  /** A latest read resolves only to a model its store has published. */
  lemma {:induction false} ResolvedIsPublished(states: seq<State>, steps: seq<Step>, i: nat)
    requires Run(states, steps) && i < |states|
    ensures AllPublished(states[i])
  {
    hide Next;
    if i > 0 {
      ResolvedIsPublished(states, steps, i - 1);
      PublishedStep(states[i - 1], steps[i - 1], states[i]);
    }
  }

  /** A latest read that nothing interrupts resolves to the alias, if there is one. */
  lemma {:induction false} AliasIsUsed(s: State, r: TaskId, store: StoreId) returns (s1: State, s2: State)
    requires r !in s.reads_ && store in s.aliases
    ensures Next(s, Start(r, store), s1) && Next(s1, Lookup(r), s2)
    ensures s2.reads_ == s.reads_[r := Read(store, Resolved(s.aliases[store]))] && s2.aliases == s.aliases
  {
    s1 := s.(reads_ := s.reads_[r := Read(store, Started)]);
    s2 := InPhase(s1, r, Resolved(s.aliases[store]));
  }

  /** Without an alias it resolves to the newest model and leaves that as the alias, with the lock free. */
  lemma {:induction false} NewestIsAliased(s: State, r: TaskId, store: StoreId)
    returns (s1: State, s2: State, s3: State, s4: State, s5: State)
    requires r !in s.reads_ && store !in s.aliases && store !in s.locks && Published(s, store) > 0
    ensures Next(s, Start(r, store), s1) && Next(s1, Lookup(r), s2) && Next(s2, BeginCompute(r), s3)
    ensures Next(s3, Load(r), s4) && Next(s4, Put(r), s5)
    ensures s5.reads_ == s.reads_[r := Read(store, Resolved(Published(s, store)))]
    ensures s5.aliases == s.aliases[store := Published(s, store)] && s5.locks == s.locks
  {
    s1 := s.(reads_ := s.reads_[r := Read(store, Started)]);
    s2 := InPhase(s1, r, Missing);
    s3 := InPhase(s2, r, Computing).(locks := s.locks[store := r]);
    s4 := InPhase(s3, r, Loaded(Published(s, store)));
    s5 := InPhase(Unlock(s4, r), r, Resolved(Published(s, store))).(aliases := s.aliases[store := Published(s, store)]);
    assert s5.locks == s.locks;
  }

  /** A completed publication leaves no alias of its store, so the next read finds the newest model. */
  lemma {:induction false} PublicationRemovesAlias(s: State, w: TaskId, store: StoreId) returns (s1: State, s2: State)
    requires w !in s.writes && store !in s.locks
    ensures Next(s, Commit(w, store), s1) && Next(s1, RemoveAlias(w), s2)
    ensures store !in s2.aliases && Published(s2, store) == Published(s, store) + 1 && s2.locks == s.locks
  {
    var n := Published(s, store) + 1;
    s1 := s.(published := s.published[store := n], writes := s.writes[w := Committed(store, n)]);
    s2 := s1.(aliases := s1.aliases - {store}, writes := s1.writes[w := Completed(store, n)]);
  }

  // ---------------------------------------------------------------------------
  // An alias is computed once
  // ---------------------------------------------------------------------------

  /** While a read computes a store's alias there is none. */
  ghost predicate NotTwice(s: State) {
    forall x :: x in s.locks ==> x !in s.aliases
  }

  lemma {:induction false} NotTwiceStep(s: State, step: Step, t: State)
    requires LocksOk(s) && NotTwice(s) && Next(s, step, t)
    ensures NotTwice(t)
  {
    if step.Put? {
      assert Holds(s, step.task);
    }
  }

  /** An alias is computed only where there is none, and none appears while one is computed. */
  lemma {:induction false} ComputedOnce(states: seq<State>, steps: seq<Step>, i: nat)
    requires Run(states, steps) && i < |states|
    ensures NotTwice(states[i])
  {
    if i > 0 {
      ComputedOnce(states, steps, i - 1);
      RunKeepsInv(states, steps, i - 1);
      assert Next(states[i - 1], steps[i - 1], states[i]);
      hide Next;
      NotTwiceStep(states[i - 1], steps[i - 1], states[i]);
    }
  }
}
