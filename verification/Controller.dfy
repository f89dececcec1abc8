/** The changelog controller attached to the caches.

    An actor polls the changelog of every registered store, advances the shared counter for the
    rows it consumed and registers a store as current until a deadline; the caches serve a store
    only while its registration has not lapsed. Clients and the actor run as lists of atomic
    operations that interleave with every cache step. */
module Controller {

  import opened Outcomes
  import opened CacheProtocol

  const MAXIMUM_PAGES_PER_CYCLE := 4

  /** A changelog row; identifiers are positions in commit order. */
  datatype Change = Change(store: StoreId, id: nat)

  datatype Config = Config(maximumLag: nat, pageSize: nat, channelCapacity: nat)

  datatype Registration = Pending | ActiveUntil(deadline: nat)

  datatype StoreState = StoreState(lastSeen: Option<nat>, lastSuccess: nat, initialized: bool)

  datatype Command = TrackStore(store: StoreId) | Restart | Stop

  /** The atomic operations that clients and the actor are made of. */
  datatype Op =
    | ReadyOff
    | Register(store: StoreId, registration: Registration)
    | Unregister(store: StoreId)
    | Send(store: StoreId)
    | Invalidate
    | UpdateReadiness
    | RunningOff

  /** Where the actor is: the stores still due, the store in hand, and the rows this poll consumed. */
  datatype Task =
    | Idle
    | Due(due: seq<StoreId>)
    | Paging(due: seq<StoreId>, store: StoreId, state: StoreState, pages: nat, changed: bool, rows: set<nat>)
    | CaughtUp(due: seq<StoreId>, store: StoreId, state: StoreState, horizon: nat, rows: set<nat>)
    | PutBack(due: seq<StoreId>, store: StoreId, state: StoreState, rows: set<nat>)
    | Stopped

  /** When the latest caught-up poll of a store ended and how much of the log its last page saw. */
  datatype Poll = Poll(end: nat, horizon: nat)

  /** A permission test: of a task about to look up, about to return a hit, or about to insert. */
  datatype TestId = BeforeLookup(task: TaskId) | BeforeHit(task: TaskId) | BeforeInsert(task: TaskId)

  /** How far a test has come. It loads the running flag, the store's registration, the clock and the
      ready flag one after the other; a lapsed registration makes it stop caching and flush. */
  datatype Stage =
    | Asked
    | Running
    | Found(deadline: nat)
    | InTime(at: nat)
    | Granted(at: nat)
    | Lapsed
    | Flushing
    | Refused

  /** `since` is when the test was begun. */
  datatype Test = Test(store: StoreId, since: nat, stage: Stage)

  /** `settled` holds the rows consumed by completed polls; `polls` the latest caught-up polls. */
  datatype Control = Control(
    clock: nat,
    running: bool,
    ready: bool,
    registrations: map<StoreId, Registration>,
    queue: seq<Command>,
    clients: map<TaskId, seq<Op>>,
    stores: map<StoreId, StoreState>,
    ops: seq<Op>,
    task: Task,
    settled: set<nat>,
    polls: map<StoreId, Poll>,
    tests: map<TestId, Test>)

  datatype System = System(cache: Cache, control: Control)

  datatype PageRead = ReadFailed | PageOf(items: seq<Change>, more: bool)

  datatype Event =
    | CacheEvent(step: Step)
    | Tick
    | TrackCall(client: TaskId, store: StoreId)
    | PermitsCall(test: TestId, store: StoreId)
    | TestStep(test: TestId)
    | ClientStep(client: TaskId)
    | DropRegistration(store: StoreId)
    | ActorStep
    | TakeCommand(order: seq<StoreId>)
    | SendCommand(command: Command)
    | PollTick(due: seq<StoreId>)
    | ReadPage(page: PageRead)
    | Halt

  // ---------------------------------------------------------------------------
  // Page validation
  // ---------------------------------------------------------------------------

  /** The rows belong to the store and their identifiers strictly increase past `lastSeen`. */
  ghost predicate Ordered(changes: seq<Change>, store: StoreId, lastSeen: Option<nat>) {
    && (forall i :: 0 <= i < |changes| ==> changes[i].store == store)
    && (forall i :: 0 <= i < |changes| && lastSeen.Some? ==> lastSeen.value < changes[i].id)
    && (forall i, j :: 0 <= i < j < |changes| ==> changes[i].id < changes[j].id)
  }

  method ValidateChanges(changes: seq<Change>, store: StoreId, lastSeen: Option<nat>) returns (ok: bool)
    ensures ok <==> Ordered(changes, store, lastSeen)
  {
    var previous := lastSeen;
    for i := 0 to |changes|
      invariant Ordered(changes[..i], store, lastSeen)
      invariant previous == if i == 0 then lastSeen else Some(changes[i - 1].id)
    {
      var change := changes[i];
      if change.store != store || (previous.Some? && change.id <= previous.value) {
        assert !Ordered(changes, store, lastSeen) by {
          if change.store == store && i > 0 {
            assert changes[i].id <= changes[i - 1].id;
          }
        }
        return false;
      }
      previous := Some(change.id);
      assert changes[..i + 1] == changes[..i] + [change];
    }
    assert changes[..|changes|] == changes;
    return true;
  }

  // ---------------------------------------------------------------------------
  // Steps
  // ---------------------------------------------------------------------------

  /** What one load of a permission test leads to. */
  function NextStage(c: Control, test: Test): Stage {
    match test.stage
    case Asked => if c.running then Running else Refused
    case Running =>
      if test.store in c.registrations && c.registrations[test.store].ActiveUntil?
      then Found(c.registrations[test.store].deadline) else Refused
    case Found(deadline) => if c.clock <= deadline then InTime(c.clock) else Lapsed
    case InTime(at) => if c.ready then Granted(at) else Refused
    case Lapsed => if c.ready then Flushing else Refused
    case Flushing => Refused
    case _ => test.stage
  }

  /** One load, or one of the two things a lapsed test does. */
  function Tested(s: System, id: TestId): System
    requires id in s.control.tests
  {
    var c, test := s.control, s.control.tests[id];
    System(if test.stage.Flushing? then Advancing(s.cache) else s.cache,
           c.(ready := c.ready && !test.stage.Lapsed?, tests := c.tests[id := test.(stage := NextStage(c, test))]))
  }

  function NewState(clock: nat): StoreState {
    StoreState(None, clock, false)
  }

  predicate Current(config: Config, clock: nat, state: StoreState) {
    state.initialized && clock <= state.lastSuccess + config.maximumLag
  }

  predicate AllCurrent(config: Config, c: Control) {
    forall x :: x in c.stores ==> Current(config, c.clock, c.stores[x])
  }

  /** Runs one atomic operation and returns the operations still to run. */
  function Exec(config: Config, s: System, op: Op, rest: seq<Op>): (System, seq<Op>) {
    var c := s.control;
    match op
    case ReadyOff => (s.(control := c.(ready := false)), rest)
    case Register(x, r) => (s.(control := c.(registrations := c.registrations[x := r])), rest)
    case Unregister(x) => (s.(control := c.(registrations := c.registrations - {x})), rest)
    case Send(x) =>
      if c.running && |c.queue| < config.channelCapacity then
        (s.(control := c.(queue := c.queue + [TrackStore(x)])), rest)
      else
        (s, [Unregister(x), Invalidate] + rest)
    case Invalidate => (s.(cache := Advancing(s.cache)), rest)
    case UpdateReadiness => (s.(control := c.(ready := AllCurrent(config, c))), rest)
    case RunningOff => (s.(control := c.(running := false)), rest)
  }

  function Pendings(order: seq<StoreId>): (ops: seq<Op>)
    ensures |ops| == |order| && forall i :: 0 <= i < |ops| ==> ops[i] == Register(order[i], Pending)
  {
    seq(|order|, i requires 0 <= i < |order| => Register(order[i], Pending))
  }

  /** The actor registers a store again, refuses it for want of capacity, or starts following it. */
  function Tracked(config: Config, c: Control, x: StoreId): Control {
    if x in c.stores then
      var state := c.stores[x];
      c.(ops := [Register(x, if Current(config, c.clock, state) then ActiveUntil(state.lastSuccess + config.maximumLag)
                             else Pending), UpdateReadiness])
    else if |c.stores| >= config.channelCapacity then
      c.(ops := [Unregister(x), Invalidate, UpdateReadiness])
    else
      c.(stores := c.stores[x := NewState(c.clock)], ops := [UpdateReadiness])
  }

  function Restarted(c: Control, order: seq<StoreId>): Control {
    c.(stores := map x | x in c.stores :: NewState(c.clock), ops := Pendings(order) + [Invalidate, UpdateReadiness])
  }

  /** The actor handles one command; a restart visits the stores in some order. */
  ghost predicate Commanded(config: Config, c: Control, order: seq<StoreId>, d: Control) {
    && c.ops == [] && c.task.Idle? && |c.queue| > 0
    && var e := c.(queue := c.queue[1..]);
       match c.queue[0]
       case TrackStore(x) => d == Tracked(config, e, x)
       case Restart => (forall x :: x in c.stores <==> x in order) && d == Restarted(e, order)
       case Stop => d == e.(ops := [ReadyOff, RunningOff], task := Stopped)
  }

  /** A page that passes validation is the next stretch of the store's rows, and `more` is honest. */
  ghost predicate Honest(log: seq<StoreId>, store: StoreId, lastSeen: Option<nat>, page: PageRead) {
    page.PageOf? && Ordered(page.items, store, lastSeen) ==>
      && (forall i :: 0 <= i < |page.items| ==> page.items[i].id < |log| && log[page.items[i].id] == store)
      && (forall p: nat :: p < |log| && log[p] == store && (lastSeen.Some? ==> lastSeen.value < p) ==>
            Listed(page.items, p) || (page.more && page.items != [] && page.items[|page.items| - 1].id < p))
  }

  predicate Listed(items: seq<Change>, p: nat) {
    exists i :: 0 <= i < |items| && items[i].id == p
  }

  /** The poll failed: caching stops, the counter advances and the cursor is forgotten. */
  function Failed(c: Control): Control
    requires c.task.Paging?
  {
    var state := StoreState(None, c.task.state.lastSuccess, false);
    c.(ops := [ReadyOff, Invalidate, Register(c.task.store, Pending)],
       task := PutBack(c.task.due, c.task.store, state, c.task.rows))
  }

  function Succeeded(c: Control, state: StoreState, changed: bool, horizon: nat, rows: set<nat>): Control
    requires c.task.Paging?
  {
    c.(ops := if changed then [Invalidate] else [],
       task := CaughtUp(c.task.due, c.task.store, state, horizon, rows))
  }

  function Ids(items: seq<Change>): set<nat> {
    set i | 0 <= i < |items| :: items[i].id
  }

  /** The actor receives one changelog page. */
  ghost predicate Paged(cache: Cache, c: Control, page: PageRead, d: Control) {
    && c.ops == [] && c.task.Paging? && c.task.pages < MAXIMUM_PAGES_PER_CYCLE
    && var k := c.task;
       && Honest(cache.log, k.store, k.state.lastSeen, page)
       && if page.ReadFailed? || !Ordered(page.items, k.store, k.state.lastSeen) then
            d == Failed(c)
          else if page.items == [] then
            d == if page.more then Failed(c) else Succeeded(c, k.state, k.changed, |cache.log|, k.rows)
          else
            var state := k.state.(lastSeen := Some(page.items[|page.items| - 1].id));
            var rows := k.rows + Ids(page.items);
            if page.more then
              d == c.(task := Paging(k.due, k.store, state, k.pages + 1, true, rows))
            else
              d == Succeeded(c, state, true, |cache.log|, rows)
  }

  /** One step of the actor between page reads and commands. */
  function Acted(config: Config, s: System): System {
    var c := s.control;
    if c.ops != [] then
      var (t, ops) := Exec(config, s, c.ops[0], c.ops[1..]);
      t.(control := t.control.(ops := ops))
    else
      s.(control := match c.task
         case Due(due) =>
           if due == [] then c.(ops := [UpdateReadiness], task := Idle)
           else if due[0] !in c.stores then c.(task := Due(due[1..]))
           else Picked(config, c)
         case Paging(due, x, state, pages, changed, rows) =>
           if pages < MAXIMUM_PAGES_PER_CYCLE then c
           else c.(ops := [ReadyOff] + (if changed then [Invalidate] else []) + [Register(x, Pending)],
                   task := PutBack(due, x, state.(initialized := false), rows))
         case CaughtUp(due, x, state, horizon, rows) =>
           c.(ops := [Register(x, ActiveUntil(c.clock + config.maximumLag))],
              task := PutBack(due, x, state.(lastSuccess := c.clock, initialized := true), {}),
              settled := c.settled + rows,
              polls := c.polls[x := Poll(c.clock, horizon)])
         case PutBack(due, x, state, rows) =>
           c.(stores := c.stores[x := state], settled := c.settled + rows, task := Due(due))
         case _ => c)
  }

  /** The actor takes the next due store in hand. */
  function Picked(config: Config, c: Control): Control
    requires c.task.Due? && c.task.due != [] && c.task.due[0] in c.stores
  {
    var x := c.task.due[0];
    var state := c.stores[x];
    c.(stores := c.stores - {x},
       ops := if state.lastSuccess + config.maximumLag < c.clock then [ReadyOff, Register(x, Pending), Invalidate] else [],
       task := Paging(c.task.due[1..], x, state, 0, false, {}))
  }

  /** When a test may begin: before a lookup, once a hit is judged sound, once an insertion found the
      counter unchanged. */
  predicate Asks(cache: Cache, id: TestId, store: StoreId) {
    match id
    case BeforeLookup(l) => l !in cache.lookups
    case BeforeHit(l) => l in cache.lookups && cache.lookups[l].phase.Judged? && cache.lookups[l].key.store == store
    case BeforeInsert(c) =>
      c in cache.computations && cache.computations[c].Cleared? && cache.computations[c].key.store == store
  }

  predicate Permitted(c: Control, id: TestId, store: StoreId) {
    id in c.tests && c.tests[id].stage.Granted? && c.tests[id].store == store
  }

  /** The caches look up, return a hit and insert only with a granted test of their own. */
  predicate Guarded(s: System, step: Step) {
    && (step.Admit? ==> Permitted(s.control, BeforeLookup(step.task), step.key.store))
    && (step.Insert? ==>
          && step.task in s.cache.computations
          && s.cache.computations[step.task].Cleared?
          && Permitted(s.control, BeforeInsert(step.task), s.cache.computations[step.task].key.store))
    && (step.Return? && step.permitted ==>
          && step.task in s.cache.lookups
          && Permitted(s.control, BeforeHit(step.task), s.cache.lookups[step.task].key.store))
  }

  /** A grant is used once. */
  function SpentBy(step: Step): set<TestId> {
    match step
    case Admit(l, _, _) => {BeforeLookup(l)}
    case Insert(c) => {BeforeInsert(c)}
    case Return(l, _) => {BeforeHit(l)}
    case _ => {}
  }

  function ClientProgram(c: Control, store: StoreId): seq<Op> {
    if store in c.registrations then [] else [ReadyOff, Register(store, Pending), Send(store)]
  }

  ghost predicate Next(config: Config, s: System, event: Event, t: System) {
    var c := s.control;
    match event
    case CacheEvent(step) =>
      && Guarded(s, step) && !step.Flush? && CacheProtocol.Next(s.cache, step, t.cache)
      && t.control == c.(tests := c.tests - SpentBy(step))
    case Tick => t == s.(control := c.(clock := c.clock + 1))
    case TrackCall(k, store) => k !in c.clients && t == s.(control := c.(clients := c.clients[k := ClientProgram(c, store)]))
    case PermitsCall(id, store) =>
      && id !in c.tests && Asks(s.cache, id, store)
      && t == s.(control := c.(tests := c.tests[id := Test(store, c.clock, Asked)]))
    case TestStep(id) => id in c.tests && t == Tested(s, id)
    case ClientStep(k) =>
      && k in c.clients && c.clients[k] != []
      && var (u, ops) := Exec(config, s, c.clients[k][0], c.clients[k][1..]);
         t == u.(control := u.control.(clients := u.control.clients[k := ops]))
    case DropRegistration(store) => t == s.(control := c.(registrations := c.registrations - {store}))
    case ActorStep => c.running && t == Acted(config, s)
    case TakeCommand(order) => c.running && t.cache == s.cache && Commanded(config, c, order, t.control)
    case SendCommand(command) =>
      !command.TrackStore? && |c.queue| < config.channelCapacity && t == s.(control := c.(queue := c.queue + [command]))
    case PollTick(due) =>
      && c.running && c.ops == [] && c.task.Idle?
      && (forall i :: 0 <= i < |due| ==> due[i] in c.stores)
      && t == s.(control := c.(task := Due(due)))
    case ReadPage(page) => c.running && t.cache == s.cache && Paged(s.cache, c, page, t.control)
    case Halt => t == s.(control := c.(running := false))
  }

  /** Starting the controller flushes once, whatever the caches did before; nothing is registered yet. */
  ghost predicate Init(s: System) {
    && (exists states, steps :: CacheProtocol.Run(states, steps) && s.cache == Advancing(states[|steps|]))
    && s.control == Control(0, true, true, map[], [], map[], map[], [], Idle, {}, map[], map[])
  }

  ghost predicate Run(config: Config, states: seq<System>, events: seq<Event>) {
    && |states| == |events| + 1
    && Init(states[0])
    && forall i: nat :: i < |events| ==> Next(config, states[i], events[i], states[i + 1])
  }

  // ---------------------------------------------------------------------------
  // The invariant
  // ---------------------------------------------------------------------------

  /** How much of the log the latest advance came after. */
  function LastFloor(c: Cache): nat
    requires |c.floors| == c.generation + 1
  {
    c.floors[c.generation]
  }

  ghost predicate Sized(c: Cache) {
    |c.floors| == c.generation + 1
  }

  /** Every row of the store below `h` came before the latest advance. */
  ghost predicate Covered(c: Cache, store: StoreId, h: nat)
    requires Sized(c)
  {
    h <= |c.log| && forall p: nat :: p < h && c.log[p] == store ==> p < LastFloor(c)
  }

  ghost predicate SeenCovered(c: Cache, store: StoreId, lastSeen: Option<nat>)
    requires Sized(c)
  {
    lastSeen.Some? ==> Covered(c, store, lastSeen.value + 1)
  }

  ghost predicate Flushed(c: Cache, rows: set<nat>)
    requires Sized(c)
  {
    forall p :: p in rows ==> p < LastFloor(c)
  }

  ghost predicate Committed(c: Cache, rows: set<nat>) {
    forall p :: p in rows ==> p < |c.log|
  }

  ghost predicate PollsOk(c: Cache, clock: nat, polls: map<StoreId, Poll>)
    requires Sized(c)
  {
    forall x :: x in polls ==> polls[x].end <= clock && Covered(c, x, polls[x].horizon)
  }

  ghost predicate RegistrationOk(lag: nat, polls: map<StoreId, Poll>, x: StoreId, r: Registration) {
    r.ActiveUntil? ==> x in polls && r.deadline <= polls[x].end + lag
  }

  ghost predicate RegistrationsOk(lag: nat, polls: map<StoreId, Poll>, registrations: map<StoreId, Registration>) {
    forall x :: x in registrations ==> RegistrationOk(lag, polls, x, registrations[x])
  }

  ghost predicate OpsOk(lag: nat, polls: map<StoreId, Poll>, ops: seq<Op>) {
    forall i :: 0 <= i < |ops| && ops[i].Register? ==> RegistrationOk(lag, polls, ops[i].store, ops[i].registration)
  }

  ghost predicate ClientsOk(lag: nat, polls: map<StoreId, Poll>, clients: map<TaskId, seq<Op>>) {
    forall k :: k in clients ==> OpsOk(lag, polls, clients[k])
  }

  /** What a test has loaded so far is no older than the maximum lag allows. */
  ghost predicate TestOk(lag: nat, clock: nat, polls: map<StoreId, Poll>, test: Test) {
    && test.since <= clock
    && match test.stage
       case Found(deadline) => test.store in polls && deadline <= polls[test.store].end + lag
       case InTime(at) => InTimeOk(lag, clock, polls, test, at)
       case Granted(at) => InTimeOk(lag, clock, polls, test, at)
       case _ => true
  }

  ghost predicate InTimeOk(lag: nat, clock: nat, polls: map<StoreId, Poll>, test: Test, at: nat) {
    test.since <= at <= clock && test.store in polls && at <= polls[test.store].end + lag
  }

  ghost predicate TestsOk(lag: nat, clock: nat, polls: map<StoreId, Poll>, tests: map<TestId, Test>) {
    forall id :: id in tests ==> TestOk(lag, clock, polls, tests[id])
  }

  ghost predicate StateOk(c: Cache, polls: map<StoreId, Poll>, x: StoreId, state: StoreState)
    requires Sized(c)
  {
    SeenCovered(c, x, state.lastSeen) && Dated(polls, x, state)
  }

  ghost predicate Dated(polls: map<StoreId, Poll>, x: StoreId, state: StoreState) {
    state.initialized ==> x in polls && state.lastSuccess <= polls[x].end
  }

  ghost predicate StoresOk(c: Cache, polls: map<StoreId, Poll>, stores: map<StoreId, StoreState>)
    requires Sized(c)
  {
    forall x :: x in stores ==> StateOk(c, polls, x, stores[x])
  }

  ghost predicate Seen(c: Cache, state: StoreState) {
    state.lastSeen.Some? ==> state.lastSeen.value < |c.log|
  }

  /** What a poll consumed is followed by an advance before the store is put back or registered. */
  ghost predicate TaskOk(c: Cache, polls: map<StoreId, Poll>, ops: seq<Op>, task: Task)
    requires Sized(c)
  {
    match task
    case Paging(_, x, state, _, changed, rows) =>
      && Committed(c, rows) && Dated(polls, x, state) && Seen(c, state)
      && (!changed ==> rows == {} && SeenCovered(c, x, state.lastSeen))
    case CaughtUp(_, x, state, horizon, rows) =>
      && Committed(c, rows) && Seen(c, state) && horizon <= |c.log|
      && (Invalidate in ops ||
          (Covered(c, x, horizon) && SeenCovered(c, x, state.lastSeen) && Flushed(c, rows)))
    case PutBack(_, x, state, rows) =>
      && Committed(c, rows) && Dated(polls, x, state) && Seen(c, state)
      && (Invalidate in ops || (SeenCovered(c, x, state.lastSeen) && Flushed(c, rows)))
    case _ => true
  }

  ghost predicate ControlInv(config: Config, c: Cache, k: Control)
    requires Sized(c)
  {
    && PollsOk(c, k.clock, k.polls)
    && RegistrationsOk(config.maximumLag, k.polls, k.registrations)
    && OpsOk(config.maximumLag, k.polls, k.ops)
    && ClientsOk(config.maximumLag, k.polls, k.clients)
    && TestsOk(config.maximumLag, k.clock, k.polls, k.tests)
    && StoresOk(c, k.polls, k.stores)
    && Flushed(c, k.settled)
    && TaskOk(c, k.polls, k.ops, k.task)
  }

  ghost predicate SystemInv(config: Config, s: System) {
    CacheProtocol.Inv(s.cache) && Sized(s.cache) && ControlInv(config, s.cache, s.control)
  }

  lemma {:induction false} LastFloorGrows(c: Cache, d: Cache)
    requires FloorsOk(c) && FloorsOk(d) && Grows(c, d)
    ensures LastFloor(c) <= LastFloor(d)
  {
    assert d.floors[c.generation] == c.floors[c.generation];
  }

  /** More commits and more advances keep every promise about rows. */
  lemma {:induction false} ControlGrows(config: Config, c: Cache, d: Cache, k: Control)
    requires FloorsOk(c) && FloorsOk(d) && Grows(c, d) && ControlInv(config, c, k)
    ensures ControlInv(config, d, k)
  {
    LastFloorGrows(c, d);
    hide FloorsOk; hide LastFloor;
  }

  lemma {:induction false} AdvancingGrows(c: Cache)
    requires CacheProtocol.Inv(c)
    ensures CacheProtocol.Inv(Advancing(c)) && Grows(c, Advancing(c))
    ensures LastFloor(Advancing(c)) == |c.log| && Advancing(c).log == c.log
  {
    StepKeepsInv(c, Flush, Advancing(c));
  }

  // ---------------------------------------------------------------------------
  // Every step keeps the invariant
  // ---------------------------------------------------------------------------

  lemma {:induction false} ExecKeeps(config: Config, s: System, op: Op, rest: seq<Op>)
    requires SystemInv(config, s) && OpsOk(config.maximumLag, s.control.polls, [op] + rest)
    ensures
      var (t, ops) := Exec(config, s, op, rest);
      && SystemInv(config, t)
      && OpsOk(config.maximumLag, t.control.polls, ops)
      && t.control.(ready := s.control.ready, registrations := s.control.registrations,
                    queue := s.control.queue, running := s.control.running) == s.control
      && (Invalidate in rest ==> Invalidate in ops)
      && (op.Invalidate? ==> LastFloor(t.cache) == |t.cache.log|)
  {
    assert OpsOk(config.maximumLag, s.control.polls, rest) by {
      forall i | 0 <= i < |rest| && rest[i].Register?
        ensures RegistrationOk(config.maximumLag, s.control.polls, rest[i].store, rest[i].registration)
      {
        assert ([op] + rest)[i + 1] == rest[i];
      }
    }
    assert op.Register? ==> RegistrationOk(config.maximumLag, s.control.polls, op.store, op.registration) by {
      assert ([op] + rest)[0] == op;
    }
    if op.Invalidate? {
      AdvancingGrows(s.cache);
      ControlGrows(config, s.cache, Advancing(s.cache), s.control);
    }
    hide StoresOk; hide PollsOk; hide TaskOk; hide ClientsOk; hide TestsOk; hide CacheProtocol.Inv; hide Flushed; hide RegistrationOk;
  }

  lemma {:induction false} ActorExecKeeps(config: Config, s: System)
    requires SystemInv(config, s) && s.control.ops != []
    ensures SystemInv(config, Acted(config, s))
  {
    var c := s.control;
    var op, rest := c.ops[0], c.ops[1..];
    assert c.ops == [op] + rest;
    ExecKeeps(config, s, op, rest);
    var (t, ops) := Exec(config, s, op, rest);
    assert TaskOk(t.cache, c.polls, ops, c.task) by {
      hide StoresOk; hide PollsOk; hide ClientsOk; hide TestsOk; hide CacheProtocol.Inv; hide RegistrationsOk; hide OpsOk; hide Exec;
    }
    hide Exec; hide StoresOk; hide PollsOk; hide TaskOk; hide ClientsOk; hide TestsOk; hide CacheProtocol.Inv; hide Flushed; hide OpsOk;
  }

  /** A newer poll of the same store only moves the deadlines out. */
  lemma {:induction false} NewPollKeeps(config: Config, s: System, x: StoreId, horizon: nat)
    requires SystemInv(config, s) && Covered(s.cache, x, horizon)
    ensures
      var c := s.control;
      var polls := c.polls[x := Poll(c.clock, horizon)];
      && PollsOk(s.cache, c.clock, polls)
      && RegistrationsOk(config.maximumLag, polls, c.registrations)
      && ClientsOk(config.maximumLag, polls, c.clients)
      && TestsOk(config.maximumLag, c.clock, polls, c.tests)
      && StoresOk(s.cache, polls, c.stores)
  {
    hide CacheProtocol.Inv; hide Covered; hide SeenCovered;
  }

  lemma {:induction false} PickKeeps(config: Config, s: System)
    requires SystemInv(config, s)
    requires s.control.task.Due? && s.control.task.due != [] && s.control.task.due[0] in s.control.stores
    ensures SystemInv(config, s.(control := Picked(config, s.control)))
  {
    hide CacheProtocol.Inv; hide PollsOk; hide RegistrationsOk; hide ClientsOk; hide TestsOk; hide Flushed;
    assert StateOk(s.cache, s.control.polls, s.control.task.due[0], s.control.stores[s.control.task.due[0]]);
  }

  lemma {:induction false} PartialKeeps(config: Config, s: System)
    requires SystemInv(config, s) && s.control.ops == [] && s.control.task.Paging?
    ensures SystemInv(config, Acted(config, s))
  {
    hide CacheProtocol.Inv; hide PollsOk; hide RegistrationsOk; hide ClientsOk; hide TestsOk; hide StoresOk; hide SeenCovered;
    var ops := [ReadyOff] + [Invalidate] + [Register(s.control.task.store, Pending)];
    assert ops[1] == Invalidate;
  }

  lemma {:induction false} PutBackKeeps(config: Config, s: System)
    requires SystemInv(config, s) && s.control.ops == [] && s.control.task.PutBack?
    ensures SystemInv(config, Acted(config, s))
  {
    hide CacheProtocol.Inv; hide Covered; hide SeenCovered; hide PollsOk; hide RegistrationsOk; hide ClientsOk; hide TestsOk;
  }

  lemma {:induction false} CaughtUpKeeps(config: Config, s: System)
    requires SystemInv(config, s) && s.control.ops == [] && s.control.task.CaughtUp?
    ensures SystemInv(config, Acted(config, s))
  {
    NewPollKeeps(config, s, s.control.task.store, s.control.task.horizon);
    hide CacheProtocol.Inv; hide Covered; hide SeenCovered; hide PollsOk; hide RegistrationsOk; hide ClientsOk; hide TestsOk;
    hide StoresOk;
  }

  lemma {:induction false} ActorKeeps(config: Config, s: System)
    requires SystemInv(config, s)
    ensures SystemInv(config, Acted(config, s))
  {
    hide ControlInv; hide CacheProtocol.Inv; hide Picked; hide Exec;
    var c := s.control;
    if c.ops != [] {
      ActorExecKeeps(config, s);
    } else if c.task.CaughtUp? {
      CaughtUpKeeps(config, s);
    } else if c.task.PutBack? {
      PutBackKeeps(config, s);
    } else if c.task.Paging? {
      PartialKeeps(config, s);
    } else if c.task.Due? && c.task.due != [] && c.task.due[0] in c.stores {
      PickKeeps(config, s);
    } else {
      OtherwiseKeeps(config, s);
    }
  }

  /** Replacing the operations, the queue and a task that promises nothing. */
  lemma {:induction false} OpsKeep(config: Config, c: Cache, k: Control, d: Control)
    requires Sized(c) && ControlInv(config, c, k)
    requires d == k.(ops := d.ops, queue := d.queue, task := d.task)
    requires (d.task == k.task && d.ops == k.ops) || d.task.Idle? || d.task.Due? || d.task.Stopped?
    requires OpsOk(config.maximumLag, k.polls, d.ops)
    ensures ControlInv(config, c, d)
  {
    hide Flushed; hide PollsOk; hide RegistrationsOk; hide ClientsOk; hide TestsOk; hide StoresOk; hide OpsOk;
  }

  lemma {:induction false} OtherwiseKeeps(config: Config, s: System)
    requires SystemInv(config, s) && s.control.ops == []
    requires s.control.task.Idle? || s.control.task.Stopped? || s.control.task.Due?
    requires s.control.task.Due? && s.control.task.due != [] ==> s.control.task.due[0] !in s.control.stores
    ensures SystemInv(config, Acted(config, s))
  {
    hide ControlInv; hide CacheProtocol.Inv; hide Exec;
    OpsKeep(config, s.cache, s.control, Acted(config, s).control);
  }

  /** A store that is followed is registered again as recently as it was polled. */
  lemma {:induction false} ReregisterIsOk(config: Config, c: Cache, k: Control, x: StoreId)
    requires Sized(c) && ControlInv(config, c, k) && x in k.stores
    ensures OpsOk(config.maximumLag, k.polls, Tracked(config, k, x).ops)
  {
    assert StateOk(c, k.polls, x, k.stores[x]);
    hide ControlInv; hide Covered; hide Flushed;
  }

  lemma {:induction false} TrackKeeps(config: Config, c: Cache, k: Control, x: StoreId)
    requires Sized(c) && ControlInv(config, c, k) && k.task.Idle?
    ensures ControlInv(config, c, Tracked(config, k, x))
  {
    hide ControlInv; hide Covered; hide Flushed;
    if x in k.stores {
      ReregisterIsOk(config, c, k, x);
      OpsKeep(config, c, k, Tracked(config, k, x));
    } else if |k.stores| >= config.channelCapacity {
      OpsKeep(config, c, k, Tracked(config, k, x));
    } else {
      FollowKeeps(config, c, k, x);
    }
  }

  lemma {:induction false} FollowKeeps(config: Config, c: Cache, k: Control, x: StoreId)
    requires Sized(c) && ControlInv(config, c, k) && k.task.Idle?
    ensures ControlInv(config, c, k.(stores := k.stores[x := NewState(k.clock)], ops := [UpdateReadiness]))
  {
    hide Covered; hide Flushed; hide PollsOk; hide RegistrationsOk; hide ClientsOk; hide TestsOk;
  }

  lemma {:induction false} RestartKeeps(config: Config, c: Cache, k: Control, order: seq<StoreId>)
    requires Sized(c) && ControlInv(config, c, k) && k.task.Idle?
    ensures ControlInv(config, c, Restarted(k, order))
  {
    hide Covered; hide Flushed; hide PollsOk; hide RegistrationsOk; hide ClientsOk; hide TestsOk;
  }

  lemma {:induction false} CommandKeeps(config: Config, s: System, order: seq<StoreId>, d: Control)
    requires SystemInv(config, s) && Commanded(config, s.control, order, d)
    ensures SystemInv(config, s.(control := d))
  {
    hide ControlInv; hide CacheProtocol.Inv; hide Tracked; hide Restarted;
    var e := s.control.(queue := s.control.queue[1..]);
    OpsKeep(config, s.cache, s.control, e);
    match s.control.queue[0] {
      case TrackStore(x) => TrackKeeps(config, s.cache, e, x);
      case Restart => RestartKeeps(config, s.cache, e, order);
      case Stop => OpsKeep(config, s.cache, e, d);
    }
  }

  /** With an honest page, what is seen at the end of the log covers the store's whole past. */
  lemma {:induction false} EndCovers(c: Cache, x: StoreId, lastSeen: Option<nat>, page: PageRead)
    requires Sized(c) && SeenCovered(c, x, lastSeen) && Honest(c.log, x, lastSeen, page)
    requires page.PageOf? && page.items == [] && !page.more
    ensures Covered(c, x, |c.log|)
  {
    forall p: nat | p < |c.log| && c.log[p] == x ensures p < LastFloor(c) {
      assert !Listed(page.items, p);
    }
  }

  lemma {:induction false} FailedKeeps(config: Config, c: Cache, k: Control)
    requires Sized(c) && ControlInv(config, c, k) && k.task.Paging?
    ensures ControlInv(config, c, Failed(k))
  {
    hide PollsOk; hide RegistrationsOk; hide ClientsOk; hide TestsOk; hide StoresOk; hide Covered;
    assert Invalidate in Failed(k).ops by { assert Failed(k).ops[1] == Invalidate; }
  }

  lemma {:induction false} SucceededKeeps(
    config: Config, c: Cache, k: Control, state: StoreState, changed: bool, rows: set<nat>)
    requires Sized(c) && ControlInv(config, c, k) && k.task.Paging?
    requires CacheProtocol.Inv(c) && Seen(c, state) && Committed(c, rows)
    requires !changed ==> Covered(c, k.task.store, |c.log|) && SeenCovered(c, k.task.store, state.lastSeen) && rows == {}
    ensures ControlInv(config, c, Succeeded(k, state, changed, |c.log|, rows))
  {
    hide PollsOk; hide RegistrationsOk; hide ClientsOk; hide TestsOk; hide StoresOk; hide Covered; hide CacheProtocol.Inv;
    assert changed ==> Succeeded(k, state, changed, |c.log|, rows).ops[0] == Invalidate;
  }

  lemma {:induction false} MoreKeeps(config: Config, c: Cache, k: Control, d: Control, items: seq<Change>)
    requires Sized(c) && ControlInv(config, c, k) && k.task.Paging? && items != []
    requires forall i :: 0 <= i < |items| ==> items[i].id < |c.log|
    requires d == k.(task := Paging(k.task.due, k.task.store, k.task.state.(lastSeen := Some(items[|items| - 1].id)),
                                    k.task.pages + 1, true, k.task.rows + Ids(items)))
    ensures ControlInv(config, c, d)
  {
    hide PollsOk; hide RegistrationsOk; hide ClientsOk; hide TestsOk; hide StoresOk; hide Covered;
  }

  lemma {:induction false} PageKeeps(config: Config, s: System, page: PageRead, d: Control)
    requires SystemInv(config, s) && Paged(s.cache, s.control, page, d)
    ensures SystemInv(config, s.(control := d))
  {
    var c, k := s.cache, s.control.task;
    assert TaskOk(c, s.control.polls, s.control.ops, k);
    hide ControlInv; hide CacheProtocol.Inv; hide Failed; hide Succeeded; hide Ordered;
    if d == Failed(s.control) {
      FailedKeeps(config, c, s.control);
    } else if page.items == [] {
      if !k.changed {
        EndCovers(c, k.store, k.state.lastSeen, page);
      }
      SucceededKeeps(config, c, s.control, k.state, k.changed, k.rows);
    } else if page.more {
      MoreKeeps(config, c, s.control, d, page.items);
    } else {
      SucceededKeeps(config, c, s.control, k.state.(lastSeen := Some(page.items[|page.items| - 1].id)), true,
                     k.rows + Ids(page.items));
    }
  }

  lemma {:induction false} CallKeeps(config: Config, c: Cache, k: Control, client: TaskId, ops: seq<Op>)
    requires Sized(c) && ControlInv(config, c, k) && OpsOk(config.maximumLag, k.polls, ops)
    ensures ControlInv(config, c, k.(clients := k.clients[client := ops]))
  {
    hide Flushed; hide StoresOk; hide TaskOk; hide OpsOk; hide PollsOk; hide RegistrationsOk;
  }

  /** The clock, the registration map's own eviction and an aborted actor. */
  lemma {:induction false} SurroundingsKeep(config: Config, c: Cache, k: Control, store: StoreId)
    requires Sized(c) && ControlInv(config, c, k)
    ensures ControlInv(config, c, k.(clock := k.clock + 1))
    ensures ControlInv(config, c, k.(registrations := k.registrations - {store}))
    ensures ControlInv(config, c, k.(running := false))
  {
    hide Flushed; hide StoresOk; hide TaskOk; hide OpsOk; hide ClientsOk; hide Covered;
  }

  /** Permission tests begin, load one thing at a time and are used up. */
  lemma {:induction false} TestsKeep(config: Config, c: Cache, k: Control, ready: bool, tests: map<TestId, Test>)
    requires Sized(c) && ControlInv(config, c, k) && TestsOk(config.maximumLag, k.clock, k.polls, tests)
    ensures ControlInv(config, c, k.(ready := ready, tests := tests))
  {
    hide Flushed; hide StoresOk; hide TaskOk; hide OpsOk; hide ClientsOk; hide PollsOk; hide RegistrationsOk; hide TestsOk;
  }

  lemma {:induction false} StageOk(config: Config, k: Control, test: Test)
    requires RegistrationsOk(config.maximumLag, k.polls, k.registrations) && TestOk(config.maximumLag, k.clock, k.polls, test)
    ensures TestOk(config.maximumLag, k.clock, k.polls, test.(stage := NextStage(k, test)))
  {
    if test.store in k.registrations {
      assert RegistrationOk(config.maximumLag, k.polls, test.store, k.registrations[test.store]);
    }
  }

  lemma {:induction false} TestStepKeeps(config: Config, s: System, id: TestId)
    requires SystemInv(config, s) && id in s.control.tests
    ensures SystemInv(config, Tested(s, id))
  {
    var c, test := s.control, s.control.tests[id];
    StageOk(config, c, test);
    var tests := c.tests[id := test.(stage := NextStage(c, test))];
    assert TestsOk(config.maximumLag, c.clock, c.polls, tests) by { hide NextStage; hide TestOk; }
    TestsKeep(config, s.cache, c, c.ready && !test.stage.Lapsed?, tests);
    if test.stage.Flushing? {
      AdvancingGrows(s.cache);
      ControlGrows(config, s.cache, Advancing(s.cache), Tested(s, id).control);
    }
    hide CacheProtocol.Inv; hide ControlInv; hide TestsOk; hide NextStage;
  }

  lemma {:induction false} ClientStepKeeps(config: Config, s: System, client: TaskId, t: System)
    requires SystemInv(config, s) && Next(config, s, ClientStep(client), t)
    ensures SystemInv(config, t)
  {
    var ops := s.control.clients[client];
    assert ops == [ops[0]] + ops[1..];
    assert OpsOk(config.maximumLag, s.control.polls, ops);
    ExecKeeps(config, s, ops[0], ops[1..]);
    hide Exec; hide CacheProtocol.Inv; hide Flushed; hide StoresOk; hide TaskOk; hide OpsOk; hide PollsOk;
    hide RegistrationsOk;
  }

  lemma {:induction false} CacheEventKeeps(config: Config, s: System, step: Step, t: System)
    requires SystemInv(config, s) && Next(config, s, CacheEvent(step), t)
    ensures SystemInv(config, t)
  {
    StepKeepsInv(s.cache, step, t.cache);
    ControlGrows(config, s.cache, t.cache, s.control);
    assert TestsOk(config.maximumLag, s.control.clock, s.control.polls, t.control.tests) by { hide TestOk; }
    TestsKeep(config, t.cache, s.control, s.control.ready, t.control.tests);
    hide ControlInv; hide CacheProtocol.Inv; hide CacheProtocol.Next; hide Guarded; hide SpentBy;
  }

  /** Commands sent and the poll timer. */
  lemma {:induction false} CommandsKeep(config: Config, s: System, event: Event, t: System)
    requires SystemInv(config, s) && Next(config, s, event, t) && (event.SendCommand? || event.PollTick?)
    ensures SystemInv(config, t)
  {
    assert OpsOk(config.maximumLag, s.control.polls, s.control.ops);
    hide ControlInv; hide CacheProtocol.Inv;
    OpsKeep(config, s.cache, s.control, t.control);
  }

  /** Calls of clients and caches. */
  lemma {:induction false} CallsKeep(config: Config, s: System, event: Event, t: System)
    requires SystemInv(config, s) && Next(config, s, event, t) && (event.TrackCall? || event.PermitsCall?)
    ensures SystemInv(config, t)
  {
    if event.TrackCall? {
      hide ControlInv; hide CacheProtocol.Inv;
      CallKeeps(config, s.cache, s.control, event.client, ClientProgram(s.control, event.store));
    } else {
      assert TestsOk(config.maximumLag, s.control.clock, s.control.polls, t.control.tests);
      hide ControlInv; hide CacheProtocol.Inv; hide TestsOk;
      TestsKeep(config, s.cache, s.control, s.control.ready, t.control.tests);
    }
  }

  /** Every step keeps the invariant and only extends the caches' history. */
  lemma {:induction false} StepKeeps(config: Config, s: System, event: Event, t: System)
    requires SystemInv(config, s) && Next(config, s, event, t)
    ensures SystemInv(config, t)
  {
    hide ControlInv; hide CacheProtocol.Inv; hide CacheProtocol.Next; hide Acted; hide Commanded; hide Paged; hide Exec;
    hide Tested; hide Guarded;
    match event {
      case CacheEvent(step) => CacheEventKeeps(config, s, step, t);
      case ActorStep => ActorKeeps(config, s);
      case TakeCommand(order) => CommandKeeps(config, s, order, t.control);
      case ReadPage(page) => PageKeeps(config, s, page, t.control);
      case ClientStep(k) => ClientStepKeeps(config, s, k, t);
      case TestStep(id) => TestStepKeeps(config, s, id);
      case Tick => SurroundingsKeep(config, s.cache, s.control, 0);
      case DropRegistration(x) => SurroundingsKeep(config, s.cache, s.control, x);
      case Halt => SurroundingsKeep(config, s.cache, s.control, 0);
      case SendCommand(_) => CommandsKeep(config, s, event, t);
      case PollTick(_) => CommandsKeep(config, s, event, t);
      case _ => CallsKeep(config, s, event, t);
    }
  }

  // ---------------------------------------------------------------------------
  // Whole runs
  // ---------------------------------------------------------------------------

  lemma {:induction false} RunKeeps(config: Config, states: seq<System>, events: seq<Event>, i: nat)
    requires Run(config, states, events) && i < |states|
    ensures SystemInv(config, states[i])
  {
    if i == 0 {
      var before, steps :| CacheProtocol.Run(before, steps) && states[0].cache == Advancing(before[|steps|]);
      RunKeepsInv(before, steps, |steps|);
      AdvancingGrows(before[|steps|]);
    } else {
      RunKeeps(config, states, events, i - 1);
      StepKeeps(config, states[i - 1], events[i - 1], states[i]);
    }
  }

  /** The controller touches the caches only through the counter. */
  lemma {:induction false} CacheMoves(config: Config, s: System, event: Event, t: System)
    requires Next(config, s, event, t)
    ensures t.cache == s.cache || exists step :: CacheProtocol.Next(s.cache, step, t.cache)
  {
    hide CacheProtocol.Next; hide Commanded; hide Paged; hide Guarded; hide Picked; hide Asks;
    if t.cache == Advancing(s.cache) {
      FlushIsAStep(s.cache);
    }
  }

  lemma {:induction false} FlushIsAStep(c: Cache)
    ensures CacheProtocol.Next(c, Flush, Advancing(c))
  {
  }

  lemma {:induction false} StampsOverRun(
    config: Config, states: seq<System>, events: seq<Event>, i: nat, j: nat, l: TaskId)
    requires Run(config, states, events) && i <= j < |states| && Undecided(states[i].cache, l)
    ensures StampedFrom(states[j].cache, l, states[i].cache.generation)
    ensures Grows(states[i].cache, states[j].cache)
  {
    hide Next; hide SystemInv; hide CacheProtocol.Next;
    if i < j {
      StampsOverRun(config, states, events, i, j - 1, l);
      var c, d := states[j - 1].cache, states[j].cache;
      CacheMoves(config, states[j - 1], events[j - 1], states[j]);
      if c != d {
        var step :| CacheProtocol.Next(c, step, d);
        StampedStep(c, step, d, l, states[i].cache.generation);
        assert FloorsOk(c) by { InvFloors(config, states, events, j - 1); }
        StepGrows(c, step, d);
      }
    }
  }

  lemma {:induction false} InvFloors(config: Config, states: seq<System>, events: seq<Event>, i: nat)
    requires Run(config, states, events) && i < |states|
    ensures FloorsOk(states[i].cache)
  {
    hide Run; hide ControlInv;
    RunKeeps(config, states, events, i);
  }

  /** Whatever an undecided lookup later returns reflects all that the latest advance came after. */
  lemma {:induction false} HitFloor(
    config: Config, states: seq<System>, events: seq<Event>, i: nat, j: nat, l: TaskId, entry: Entry)
    requires Run(config, states, events) && i <= j < |states|
    requires Undecided(states[i].cache, l) && IsHit(states[j].cache, l, entry)
    ensures Sized(states[i].cache) && Reflects(entry, LastFloor(states[i].cache))
    ensures states[i].cache.generation <= entry.watermark
  {
    InvFloors(config, states, events, i);
    RunKeeps(config, states, events, j);
    StampsOverRun(config, states, events, i, j, l);
    hide Run; hide ControlInv;
    assert LookupOk(states[j].cache, states[j].cache.lookups[l]);
    var g := states[i].cache.generation;
    assert states[j].cache.floors[g] == states[i].cache.floors[g];
  }

  /** Every row a completed poll consumed, whether the poll caught up, stopped early or failed, was
      followed by an advance; a lookup decided after that returns only values whose reads all saw the row. */
  lemma {:induction false} ConsumedRowsAreSeen(
    config: Config, states: seq<System>, events: seq<Event>, i: nat, j: nat, row: nat, l: TaskId, entry: Entry)
    requires Run(config, states, events) && i <= j < |states|
    requires row in states[i].control.settled
    requires Undecided(states[i].cache, l) && IsHit(states[j].cache, l, entry)
    ensures Reflects(entry, row + 1) && states[i].cache.generation <= entry.watermark
  {
    RunKeeps(config, states, events, i);
    HitFloor(config, states, events, i, j, l, entry);
    hide Run; hide CacheProtocol.Inv;
  }

  /** A granted test read a clock at most the maximum lag after the store's latest caught-up poll
      ended, and read it after the test began; all the store's rows up to that poll's last page came
      before an advance. */
  lemma {:induction false} PermittedIsRecent(
    config: Config, states: seq<System>, events: seq<Event>, i: nat, id: TestId, store: StoreId)
    requires Run(config, states, events) && i < |states| && Permitted(states[i].control, id, store)
    ensures Sized(states[i].cache) && store in states[i].control.polls
    ensures var poll, test := states[i].control.polls[store], states[i].control.tests[id];
            && test.since <= test.stage.at <= states[i].control.clock
            && test.stage.at <= poll.end + config.maximumLag
            && Covered(states[i].cache, store, poll.horizon)
  {
    RunKeeps(config, states, events, i);
    hide Run; hide CacheProtocol.Inv; hide Covered;
    assert TestOk(config.maximumLag, states[i].control.clock, states[i].control.polls, states[i].control.tests[id]);
  }

  /** When a hit is returned, the store's latest caught-up poll ended at most the maximum lag before the
      clock was read for it, and that was after the hit was judged sound. */
  lemma {:induction false} HitIsRecent(config: Config, states: seq<System>, events: seq<Event>, j: nat, l: TaskId)
    requires Run(config, states, events) && j < |events| && events[j] == CacheEvent(Return(l, true))
    ensures l in states[j].cache.lookups && Permitted(states[j].control, BeforeHit(l), states[j].cache.lookups[l].key.store)
    ensures var store, test := states[j].cache.lookups[l].key.store, states[j].control.tests[BeforeHit(l)];
            && store in states[j].control.polls
            && test.since <= test.stage.at <= states[j].control.clock
            && test.stage.at <= states[j].control.polls[store].end + config.maximumLag
  {
    assert Next(config, states[j], events[j], states[j + 1]);
    PermittedIsRecent(config, states, events, j, BeforeHit(l), states[j].cache.lookups[l].key.store);
  }

  /** `row` is one of the store's first rows, below `horizon`. */
  ghost predicate RowOf(log: seq<StoreId>, store: StoreId, horizon: nat, row: nat) {
    row < horizon && row < |log| && log[row] == store
  }

  /** Bounded staleness: a hit reflects every row of its store committed, here or in another process,
      before the last page of a poll that ended at most the maximum lag before the lookup's permission
      test read the clock. */
  lemma {:induction false} HitsFollowThePoll(
    config: Config, states: seq<System>, events: seq<Event>, i: nat, j: nat, l: TaskId, key: Key,
    owner: Option<TaskId>, entry: Entry, row: nat)
    requires Run(config, states, events) && i < j < |states|
    requires events[i] == CacheEvent(Admit(l, key, owner)) && IsHit(states[j].cache, l, entry)
    ensures key.store in states[i].control.polls && Permitted(states[i].control, BeforeLookup(l), key.store)
    ensures var test := states[i].control.tests[BeforeLookup(l)];
            && test.since <= test.stage.at <= states[i].control.clock
            && test.stage.at <= states[i].control.polls[key.store].end + config.maximumLag
    ensures RowOf(states[i].cache.log, key.store, states[i].control.polls[key.store].horizon, row) ==>
              Reflects(entry, row + 1)
  {
    assert Next(config, states[i], events[i], states[i + 1]);
    PermittedIsRecent(config, states, events, i, BeforeLookup(l), key.store);
    HitFloor(config, states, events, i, j, l, entry);
  }

  // ---------------------------------------------------------------------------
  // What happens when nothing interrupts
  // ---------------------------------------------------------------------------

  /** Four loads, one after the other. */
  function FourLoads(s: System, id: TestId): System
    requires id in s.control.tests
  {
    Tested(Tested(Tested(Tested(s, id), id), id), id)
  }

  /** A permission test that nothing interrupts is granted exactly if the controller runs, the store is
      registered until a deadline that has not passed, and the controller is ready. One that finds the
      registration lapsed turns readiness off, and its next step flushes if it was on. */
  lemma {:induction false} UndisturbedTest(s: System, id: TestId)
    requires id in s.control.tests && s.control.tests[id].stage == Asked
    ensures id in FourLoads(s, id).control.tests
    ensures var c, store := s.control, s.control.tests[id].store;
            var active := c.running && store in c.registrations && c.registrations[store].ActiveUntil?;
            var stage, ready := FourLoads(s, id).control.tests[id].stage, FourLoads(s, id).control.ready;
            && (stage.Granted? <==> active && c.clock <= c.registrations[store].deadline && c.ready)
            && (stage.Granted? ==> stage.at == c.clock)
            && (stage.Flushing? <==> active && c.registrations[store].deadline < c.clock && c.ready)
            && ready == (c.ready && !(active && c.registrations[store].deadline < c.clock))
            && FourLoads(s, id).cache == s.cache
            && (stage.Flushing? ==> Tested(FourLoads(s, id), id).cache == Advancing(s.cache))
  {
    hide Advancing;
    var s1 := Tested(s, id);
    var s2 := Tested(s1, id);
    var s3 := Tested(s2, id);
    assert s1.control.registrations == s.control.registrations && s1.control.ready == s.control.ready;
    assert s2.control.registrations == s.control.registrations && s2.control.ready == s.control.ready;
    assert s3.control.clock == s.control.clock && s3.control.ready == s.control.ready;
  }

  /** The actor's next `n` steps. */
  function Acts(config: Config, s: System, n: nat): System
    decreases n
  {
    if n == 0 then s else Acts(config, Acted(config, s), n - 1)
  }

  /** Every store followed was caught up at most the maximum lag ago. */
  predicate AllFresh(config: Config, clock: nat, stores: map<StoreId, StoreState>) {
    forall y :: y in stores ==> stores[y].initialized && clock <= stores[y].lastSuccess + config.maximumLag
  }

  /** The end of a cycle: the store in hand is put back and readiness follows from all stores. */
  lemma {:induction false} CycleEnds(config: Config, s: System)
    requires s.control.ops == [] && s.control.task.PutBack? && s.control.task.due == []
    ensures var c, t := s.control, Acts(config, s, 3);
            var stores := c.stores[c.task.store := c.task.state];
            && t.cache == s.cache
            && t.control == c.(stores := stores, settled := c.settled + c.task.rows, task := Idle,
                               ready := AllFresh(config, c.clock, stores))
  {
    var s1 := Acted(config, s);
    assert s1.control == s.control.(stores := s.control.stores[s.control.task.store := s.control.task.state],
                                    settled := s.control.settled + s.control.task.rows, task := Due([]));
    var s2 := Acted(config, s1);
    assert s2.control == s1.control.(ops := [UpdateReadiness], task := Idle);
    var s3 := Acted(config, s2);
    assert [UpdateReadiness][1..] == [];
    assert AllCurrent(config, s2.control) <==> AllFresh(config, s2.control.clock, s2.control.stores);
    assert Acts(config, s, 3) == Acts(config, s1, 2) == Acts(config, s2, 1) == Acts(config, s3, 0);
  }

  /** A caught-up poll that nothing interrupts registers its store for the maximum lag from now, after an
      advance if it read anything, and settles the rows it read. */
  lemma {:induction false} CaughtUpIsRegistered(config: Config, s: System)
    requires s.control.task.CaughtUp? && s.control.task.due == []
    requires s.control.ops == [] || s.control.ops == [Invalidate]
    ensures var c, k := s.control, s.control.task;
            var t := Acts(config, s, |c.ops| + 5);
            var stores := c.stores[k.store := StoreState(k.state.lastSeen, c.clock, true)];
            && t.cache == (if c.ops == [] then s.cache else Advancing(s.cache))
            && t.control == c.(
                 ops := [], task := Idle, stores := stores, settled := c.settled + k.rows,
                 registrations := c.registrations[k.store := ActiveUntil(c.clock + config.maximumLag)],
                 polls := c.polls[k.store := Poll(c.clock, k.horizon)],
                 ready := AllFresh(config, c.clock, stores))
  {
    hide AllFresh; hide Acted; hide Advancing;
    if s.control.ops == [Invalidate] {
      FlushIsActed(config, s);
      var u := Acted(config, s);
      QuietIsRegistered(config, u);
      assert Acts(config, s, 6) == Acts(config, u, 5);
    } else {
      QuietIsRegistered(config, s);
    }
  }

  lemma {:induction false} FlushIsActed(config: Config, s: System)
    requires s.control.ops == [Invalidate]
    ensures Acted(config, s) == s.(cache := Advancing(s.cache), control := s.control.(ops := []))
  {
    assert [Invalidate][1..] == [];
  }

  lemma {:induction false} QuietIsRegistered(config: Config, s: System)
    requires s.control.task.CaughtUp? && s.control.task.due == [] && s.control.ops == []
    ensures var c, k := s.control, s.control.task;
            var t := Acts(config, s, 5);
            var stores := c.stores[k.store := StoreState(k.state.lastSeen, c.clock, true)];
            && t.cache == s.cache
            && t.control == c.(
                 ops := [], task := Idle, stores := stores, settled := c.settled + k.rows,
                 registrations := c.registrations[k.store := ActiveUntil(c.clock + config.maximumLag)],
                 polls := c.polls[k.store := Poll(c.clock, k.horizon)],
                 ready := AllFresh(config, c.clock, stores))
  {
    hide AllFresh; hide Advancing;
    var c, k := s.control, s.control.task;
    var register := Register(k.store, ActiveUntil(c.clock + config.maximumLag));
    var s1 := Acted(config, s);
    assert s1.control.ops == [register] && [register][1..] == [];
    var s2 := Acted(config, s1);
    assert s2.control.ops == [] && s2.control.task == PutBack([], k.store, k.state.(lastSuccess := c.clock, initialized := true), {});
    CycleEnds(config, s2);
    assert Acts(config, s, 5) == Acts(config, s1, 4) == Acts(config, s2, 3);
    assert c.settled + k.rows + {} == c.settled + k.rows;
  }

  /** A page that ends the log brings the poll to that point with exactly the page's rows consumed. */
  lemma {:induction false} LastPageIsConsumed(config: Config, s: System, x: StoreId, page: PageRead) returns (d: Control)
    requires s.control.ops == [] && s.control.task == Due([x]) && x in s.control.stores
    requires s.control.clock <= s.control.stores[x].lastSuccess + config.maximumLag
    requires page.PageOf? && !page.more && Ordered(page.items, x, s.control.stores[x].lastSeen)
    requires Honest(s.cache.log, x, s.control.stores[x].lastSeen, page)
    ensures Acted(config, s).cache == s.cache && Paged(s.cache, Acted(config, s).control, page, d)
    ensures var c, state := s.control, s.control.stores[x];
            var lastSeen := if page.items == [] then state.lastSeen else Some(page.items[|page.items| - 1].id);
            d == c.(stores := c.stores - {x}, ops := if page.items == [] then [] else [Invalidate],
                    task := CaughtUp([], x, state.(lastSeen := lastSeen), |s.cache.log|, Ids(page.items)))
  {
    var c, state := s.control, s.control.stores[x];
    var p := Acted(config, s);
    assert [x][1..] == [];
    assert p.control == c.(stores := c.stores - {x}, task := Paging([], x, state, 0, false, {}));
    assert {} + Ids(page.items) == Ids(page.items);
    if page.items == [] {
      d := Succeeded(p.control, state, false, |s.cache.log|, {});
      assert Ids(page.items) == {};
    } else {
      d := Succeeded(p.control, state.(lastSeen := Some(page.items[|page.items| - 1].id)), true, |s.cache.log|, {} + Ids(page.items));
    }
  }

  /** A cycle that ends with an unregistered, uninitialised store leaves the controller not ready. */
  lemma {:induction false} CycleEndsUnready(config: Config, s: System)
    requires s.control.task.PutBack? && s.control.task.due == [] && !s.control.task.state.initialized
    requires s.control.ops == [Register(s.control.task.store, Pending)]
    ensures var c, t := s.control, Acts(config, s, 4);
            && t.cache == s.cache
            && t.control == c.(ops := [], task := Idle, stores := c.stores[c.task.store := c.task.state],
                               settled := c.settled + c.task.rows, ready := false,
                               registrations := c.registrations[c.task.store := Pending])
  {
    var c := s.control;
    var stores := c.stores[c.task.store := c.task.state];
    assert !AllFresh(config, c.clock, stores) by { assert c.task.store in stores && !stores[c.task.store].initialized; }
    hide AllFresh;
    var s1 := Acted(config, s);
    assert s.control.ops[1..] == [];
    assert s1 == s.(control := c.(ops := [], registrations := c.registrations[c.task.store := Pending]));
    CycleEnds(config, s1);
    assert Acts(config, s, 4) == Acts(config, s1, 3);
  }

  /** A failed poll that nothing interrupts, whether the read failed or its page was out of order, advances
      the counter, forgets the cursor and leaves its store unregistered and the controller not ready. */
  lemma {:induction false} FailureStopsCaching(config: Config, s: System, page: PageRead, d: Control)
    requires Paged(s.cache, s.control, page, d) && s.control.task.due == []
    requires page.ReadFailed? || !Ordered(page.items, s.control.task.store, s.control.task.state.lastSeen)
    ensures var c, k := s.control, s.control.task;
            var t := Acts(config, s.(control := d), 6);
            && t.cache == Advancing(s.cache)
            && t.control == c.(
                 task := Idle, stores := c.stores[k.store := StoreState(None, k.state.lastSuccess, false)],
                 settled := c.settled + k.rows, registrations := c.registrations[k.store := Pending], ready := false)
  {
    hide Honest; hide Ordered;
    FlushedAndUnready(config, s.(control := d));
  }

  /** A poll that has read all the pages of a cycle without catching up advances the counter if it read
      anything, keeps the cursor and leaves its store unregistered and the controller not ready. */
  lemma {:induction false} UnfinishedStopsCaching(config: Config, s: System)
    requires s.control.ops == [] && s.control.task.Paging? && s.control.task.due == []
    requires s.control.task.pages == 4
    ensures var c, k := s.control, s.control.task;
            var t := Acts(config, s, if k.changed then 7 else 6);
            && t.cache == (if k.changed then Advancing(s.cache) else s.cache)
            && t.control == c.(
                 task := Idle, stores := c.stores[k.store := k.state.(initialized := false)],
                 settled := c.settled + k.rows, registrations := c.registrations[k.store := Pending], ready := false)
  {
    var c, k := s.control, s.control.task;
    var register := Register(k.store, Pending);
    var s1 := Acted(config, s);
    assert s1 == s.(control := c.(ops := [ReadyOff] + (if k.changed then [Invalidate] else []) + [register],
                                  task := PutBack([], k.store, k.state.(initialized := false), k.rows)));
    hide Acted;
    if k.changed {
      assert [ReadyOff] + [Invalidate] + [register] == [ReadyOff, Invalidate, register];
      FlushedAndUnready(config, s1);
    } else {
      assert [ReadyOff] + [] + [register] == [ReadyOff, register];
      UnflushedAndUnready(config, s1);
    }
  }

  lemma {:induction false} FlushedAndUnready(config: Config, s: System)
    requires s.control.task.PutBack? && s.control.task.due == [] && !s.control.task.state.initialized
    requires s.control.ops == [ReadyOff, Invalidate, Register(s.control.task.store, Pending)]
    ensures var c, t := s.control, Acts(config, s, 6);
            && t.cache == Advancing(s.cache)
            && t.control == c.(ops := [], task := Idle, stores := c.stores[c.task.store := c.task.state],
                               settled := c.settled + c.task.rows, ready := false,
                               registrations := c.registrations[c.task.store := Pending])
  {
    var register := Register(s.control.task.store, Pending);
    assert s.control.ops[1..] == [Invalidate, register] && [Invalidate, register][1..] == [register];
    var s1 := Acted(config, s);
    assert s1 == s.(control := s.control.(ready := false, ops := [Invalidate, register]));
    var s2 := Acted(config, s1);
    assert s2 == System(Advancing(s.cache), s1.control.(ops := [register]));
    CycleEndsUnready(config, s2);
    assert Acts(config, s, 6) == Acts(config, s1, 5) == Acts(config, s2, 4);
  }

  lemma {:induction false} UnflushedAndUnready(config: Config, s: System)
    requires s.control.task.PutBack? && s.control.task.due == [] && !s.control.task.state.initialized
    requires s.control.ops == [ReadyOff, Register(s.control.task.store, Pending)]
    ensures var c, t := s.control, Acts(config, s, 5);
            && t.cache == s.cache
            && t.control == c.(ops := [], task := Idle, stores := c.stores[c.task.store := c.task.state],
                               settled := c.settled + c.task.rows, ready := false,
                               registrations := c.registrations[c.task.store := Pending])
  {
    var register := Register(s.control.task.store, Pending);
    assert s.control.ops[1..] == [register];
    var s1 := Acted(config, s);
    assert s1 == s.(control := s.control.(ready := false, ops := [register]));
    CycleEndsUnready(config, s1);
    assert Acts(config, s, 5) == Acts(config, s1, 4);
  }

  /** Readiness is recomputed from all stores. */
  lemma {:induction false} ReadinessFollows(config: Config, s: System)
    requires s.control.ops == [UpdateReadiness]
    ensures Acted(config, s) == s.(control := s.control.(ops := [], ready := AllFresh(config, s.control.clock, s.control.stores)))
  {
    assert [UpdateReadiness][1..] == [];
    assert AllCurrent(config, s.control) <==> AllFresh(config, s.control.clock, s.control.stores);
  }

  /** Tracking a store that is already followed registers it again until its last success is too old. */
  lemma {:induction false} KnownIsReregistered(config: Config, s: System, x: StoreId)
    requires x in s.control.stores
    ensures var c, state := s.control, s.control.stores[x];
            var recent := state.initialized && c.clock <= state.lastSuccess + config.maximumLag;
            Acts(config, s.(control := Tracked(config, c, x)), 2) ==
            s.(control := c.(ops := [], ready := AllFresh(config, c.clock, c.stores),
                             registrations := c.registrations[x :=
                               if recent then ActiveUntil(state.lastSuccess + config.maximumLag) else Pending]))
  {
    hide AllFresh;
    var s0 := s.(control := Tracked(config, s.control, x));
    var register := s0.control.ops[0];
    assert s0.control.ops == [register, UpdateReadiness] && [register, UpdateReadiness][1..] == [UpdateReadiness];
    var s1 := Acted(config, s0);
    assert s1 == s0.(control := s0.control.(ops := [UpdateReadiness], registrations := s.control.registrations[x := register.registration]));
    ReadinessFollows(config, s1);
    hide Acted;
    assert Acts(config, s0, 2) == Acts(config, s1, 1) == Acts(config, Acted(config, s1), 0);
  }

  /** Tracking a new store follows it, uninitialised, so nothing is served until its first poll; without
      room it is unregistered and the caches are flushed. */
  lemma {:induction false} NewIsFollowedOrRefused(config: Config, s: System, x: StoreId)
    requires x !in s.control.stores
    ensures var c := s.control;
            |c.stores| < config.channelCapacity ==>
              Acts(config, s.(control := Tracked(config, c, x)), 1) ==
              s.(control := c.(ops := [], stores := c.stores[x := StoreState(None, c.clock, false)], ready := false))
    ensures var c := s.control;
            |c.stores| >= config.channelCapacity ==>
              Acts(config, s.(control := Tracked(config, c, x)), 3) ==
              System(Advancing(s.cache), c.(ops := [], registrations := c.registrations - {x},
                                            ready := AllFresh(config, c.clock, c.stores)))
  {
    var c := s.control;
    var s0 := s.(control := Tracked(config, c, x));
    if |c.stores| < config.channelCapacity {
      ReadinessFollows(config, s0);
      assert !AllFresh(config, c.clock, s0.control.stores) by { assert x in s0.control.stores; }
      hide Acted;
      assert Acts(config, s0, 1) == Acts(config, Acted(config, s0), 0);
    } else {
      RefusedIsFlushed(config, s0, x);
    }
  }

  lemma {:induction false} RefusedIsFlushed(config: Config, s: System, x: StoreId)
    requires s.control.ops == [Unregister(x), Invalidate, UpdateReadiness]
    ensures Acts(config, s, 3) ==
            System(Advancing(s.cache), s.control.(ops := [], registrations := s.control.registrations - {x},
                                                  ready := AllFresh(config, s.control.clock, s.control.stores)))
  {
    hide AllFresh;
    assert s.control.ops[1..] == [Invalidate, UpdateReadiness] && [Invalidate, UpdateReadiness][1..] == [UpdateReadiness];
    var s1 := Acted(config, s);
    assert s1 == s.(control := s.control.(ops := [Invalidate, UpdateReadiness], registrations := s.control.registrations - {x}));
    var s2 := Acted(config, s1);
    assert s2 == System(Advancing(s.cache), s1.control.(ops := [UpdateReadiness]));
    ReadinessFollows(config, s2);
    hide Acted;
    assert Acts(config, s, 3) == Acts(config, s1, 2) == Acts(config, s2, 1) == Acts(config, Acted(config, s2), 0);
  }

  /** A store whose last success is too old when its turn comes is unregistered and the caches are flushed
      before its first page is read. */
  lemma {:induction false} LateStopsCaching(config: Config, s: System, x: StoreId, due: seq<StoreId>)
    requires s.control.ops == [] && s.control.task == Due([x] + due) && x in s.control.stores
    requires s.control.stores[x].lastSuccess + config.maximumLag < s.control.clock
    ensures Acts(config, s, 4) ==
            System(Advancing(s.cache), s.control.(
              ready := false, registrations := s.control.registrations[x := Pending], stores := s.control.stores - {x},
              task := Paging(due, x, s.control.stores[x], 0, false, {})))
  {
    hide Advancing;
    var c, register := s.control, Register(x, Pending);
    assert ([x] + due)[1..] == due;
    var s1 := Acted(config, s);
    assert s1 == s.(control := c.(ops := [ReadyOff, register, Invalidate], stores := c.stores - {x},
                                  task := Paging(due, x, c.stores[x], 0, false, {})));
    assert s1.control.ops[1..] == [register, Invalidate] && [register, Invalidate][1..] == [Invalidate];
    var s2 := Acted(config, s1);
    assert s2 == s1.(control := s1.control.(ready := false, ops := [register, Invalidate]));
    var s3 := Acted(config, s2);
    assert s3 == s2.(control := s2.control.(registrations := c.registrations[x := Pending], ops := [Invalidate]));
    FlushIsActed(config, s3);
    hide Acted;
    assert Acts(config, s, 4) == Acts(config, s1, 3) == Acts(config, s2, 2) == Acts(config, s3, 1) ==
           Acts(config, Acted(config, s3), 0);
  }

  /** A client's next `n` operations. */
  function Runs(config: Config, s: System, ops: seq<Op>, n: nat): (System, seq<Op>)
    decreases n
  {
    if n == 0 || ops == [] then (s, ops)
    else var (t, rest) := Exec(config, s, ops[0], ops[1..]); Runs(config, t, rest, n - 1)
  }

  /** Asking for a registered store does nothing. Asking for one that is not registered stops caching and puts the store in the queue; if the
      controller is not running or the queue is full it is unregistered again and the caches are flushed. */
  lemma {:induction false} TrackingIsQueuedOrFlushed(config: Config, s: System, x: StoreId)
    ensures x in s.control.registrations ==> Runs(config, s, ClientProgram(s.control, x), 5) == (s, [])
    ensures var c := s.control;
            x !in c.registrations && c.running && |c.queue| < config.channelCapacity ==>
              Runs(config, s, ClientProgram(c, x), 3) ==
              (s.(control := c.(ready := false, registrations := c.registrations[x := Pending],
                                queue := c.queue + [TrackStore(x)])), [])
    ensures var c := s.control;
            x !in c.registrations && !(c.running && |c.queue| < config.channelCapacity) ==>
              Runs(config, s, ClientProgram(c, x), 5) ==
              (System(Advancing(s.cache), c.(ready := false)), [])
  {
    hide Advancing;
    if x in s.control.registrations {
      return;
    }
    var c, ops := s.control, ClientProgram(s.control, x);
    assert ops[1..] == [Register(x, Pending), Send(x)] && ops[1..][1..] == [Send(x)] && [Send(x)][1..] == [];
    var s1 := s.(control := c.(ready := false));
    assert Exec(config, s, ops[0], ops[1..]) == (s1, ops[1..]);
    var s2 := s1.(control := s1.control.(registrations := c.registrations[x := Pending]));
    assert Exec(config, s1, ops[1], [Send(x)]) == (s2, [Send(x)]);
    hide ClientProgram;
    if c.running && |c.queue| < config.channelCapacity {
      var s3 := s2.(control := s2.control.(queue := c.queue + [TrackStore(x)]));
      assert Exec(config, s2, Send(x), []) == (s3, []);
      hide Exec;
      assert Runs(config, s, ops, 3) == Runs(config, s1, ops[1..], 2) == Runs(config, s2, [Send(x)], 1) == Runs(config, s3, [], 0);
    } else {
      var undo := [Unregister(x), Invalidate];
      assert undo + [] == undo && undo[1..] == [Invalidate] && [Invalidate][1..] == [];
      assert Exec(config, s2, Send(x), []) == (s2, undo);
      assert c.registrations[x := Pending] - {x} == c.registrations;
      assert Exec(config, s2, Unregister(x), [Invalidate]) == (s1, [Invalidate]);
      var s4 := s1.(cache := Advancing(s.cache));
      assert Exec(config, s1, Invalidate, []) == (s4, []);
      hide Exec;
      assert Runs(config, s, ops, 5) == Runs(config, s1, ops[1..], 4) == Runs(config, s2, [Send(x)], 3) ==
             Runs(config, s2, undo, 2) == Runs(config, s1, [Invalidate], 1) == Runs(config, s4, [], 0);
    }
  }

  /** The registrations after every store of `order` is made pending. */
  function AllPending(registrations: map<StoreId, Registration>, order: seq<StoreId>): map<StoreId, Registration> {
    map x | x in registrations.Keys + (set y | y in order) :: if x in order then Pending else registrations[x]
  }

  lemma {:induction false} PendingMore(registrations: map<StoreId, Registration>, order: seq<StoreId>)
    ensures order == [] ==> AllPending(registrations, order) == registrations
    ensures order != [] ==> AllPending(registrations[order[0] := Pending], order[1..]) == AllPending(registrations, order)
  {
  }

  lemma {:induction false} RegisterIsActed(config: Config, s: System, x: StoreId, rest: seq<Op>)
    requires s.control.ops == [Register(x, Pending)] + rest
    ensures Acted(config, s) ==
            s.(control := s.control.(ops := rest, registrations := s.control.registrations[x := Pending]))
  {
    assert s.control.ops[1..] == rest;
  }

  lemma {:induction false} PendingsAreActed(config: Config, s: System, order: seq<StoreId>, rest: seq<Op>)
    requires s.control.ops == Pendings(order) + rest
    ensures Acts(config, s, |order|) ==
            s.(control := s.control.(ops := rest, registrations := AllPending(s.control.registrations, order)))
    decreases |order|
  {
    hide Acted; hide AllPending;
    PendingMore(s.control.registrations, order);
    if order == [] {
      assert Pendings(order) + rest == rest;
    } else {
      var more := Pendings(order[1..]) + rest;
      assert Pendings(order) + rest == [Register(order[0], Pending)] + more;
      RegisterIsActed(config, s, order[0], more);
      PendingsAreActed(config, Acted(config, s), order[1..], rest);
    }
  }

  /** A restart that nothing interrupts makes every store followed pending and uninitialised, forgets all
      cursors and flushes; the controller is ready after it only if it follows no store. */
  lemma {:induction false} RestartForgets(config: Config, s: System, order: seq<StoreId>, d: Control)
    requires s.control.queue != [] && s.control.queue[0] == Restart && Commanded(config, s.control, order, d)
    ensures var c := s.control;
            && (forall x :: x in order <==> x in c.stores)
            && Acts(config, s.(control := d), |order| + 2) ==
               System(Advancing(s.cache), c.(
                 queue := c.queue[1..], stores := map x | x in c.stores :: StoreState(None, c.clock, false),
                 registrations := AllPending(c.registrations, order), ready := |c.stores| == 0))
  {
    hide AllPending; hide Acted; hide Acts; hide AllFresh;
    var c, u := s.control, s.(control := d);
    PendingsAreActed(config, u, order, [Invalidate, UpdateReadiness]);
    ActsSplit(config, u, |order|, 2);
    FlushedAndUpdated(config, Acts(config, u, |order|));
    NoneIsFresh(config, c.clock, d.stores);
    assert |d.stores| == 0 <==> |c.stores| == 0 by { assert d.stores.Keys == c.stores.Keys; }
  }

  lemma {:induction false} NoneIsFresh(config: Config, clock: nat, stores: map<StoreId, StoreState>)
    requires forall x :: x in stores ==> !stores[x].initialized
    ensures AllFresh(config, clock, stores) <==> |stores| == 0
  {
    if |stores| != 0 {
      var x :| x in stores;
    }
  }

  lemma {:induction false} FlushedAndUpdated(config: Config, s: System)
    requires s.control.ops == [Invalidate, UpdateReadiness]
    ensures Acts(config, s, 2) ==
            System(Advancing(s.cache), s.control.(ops := [], ready := AllFresh(config, s.control.clock, s.control.stores)))
  {
    hide AllFresh;
    assert [Invalidate, UpdateReadiness][1..] == [UpdateReadiness];
    var s1 := Acted(config, s);
    assert s1 == System(Advancing(s.cache), s.control.(ops := [UpdateReadiness]));
    ReadinessFollows(config, s1);
    hide Acted;
    assert Acts(config, s, 2) == Acts(config, s1, 1) == Acts(config, Acted(config, s1), 0);
  }

  lemma {:induction false} ActsSplit(config: Config, s: System, m: nat, n: nat)
    ensures Acts(config, s, m + n) == Acts(config, Acts(config, s, m), n)
    decreases m
  {
    hide Acted;
    if m > 0 {
      ActsSplit(config, Acted(config, s), m - 1, n);
    }
  }

  /** A stop turns readiness off, then the controller. */
  lemma {:induction false} StopTurnsOff(config: Config, s: System, order: seq<StoreId>, d: Control)
    requires s.control.queue != [] && s.control.queue[0] == Stop && Commanded(config, s.control, order, d)
    ensures Acts(config, s.(control := d), 2) ==
            s.(control := s.control.(queue := s.control.queue[1..], task := Stopped, ready := false, running := false))
  {
    var s0 := s.(control := d);
    assert s0.control.ops == [ReadyOff, RunningOff];
    assert s0.control.ops[1..] == [RunningOff] && [RunningOff][1..] == [];
    var s1 := Acted(config, s0);
    assert s1 == s0.(control := d.(ready := false, ops := [RunningOff]));
    var s2 := Acted(config, s1);
    assert s2 == s1.(control := s1.control.(running := false, ops := []));
    hide Acted;
    assert Acts(config, s0, 2) == Acts(config, s1, 1) == Acts(config, s2, 0);
  }
}
