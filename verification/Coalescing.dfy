/** Sharing simultaneous identical Checks, as interleaved steps over the caches' generation counter. */
module Coalescing {

  import opened Outcomes
  import opened CacheProtocol

  datatype Mode = Disabled | Shadow | Enabled

  /** What two Checks must agree on to share: the decision key, the budget and the tuple source. */
  datatype Inputs = Inputs(decision: nat, budget: nat, source: nat)

  datatype CoalescingKey = CoalescingKey(inputs: Inputs, generation: nat)

  /** Where an answer came from: whose oracle run, on which inputs, begun at which generation, the
      storage versions it read, and what it ended with. */
  datatype Record = Record(owner: TaskId, inputs: Inputs, since: nat, versions: set<nat>, result: Evaluation)

  datatype Answer = Answer(result: Evaluation, record: Record)

  datatype SharedEvaluation = Outcome(decision: Decision) | Failure

  /** Errors are not shared. */
  function Shared(result: Evaluation): SharedEvaluation {
    if result.Ok? then Outcome(result.value) else Failure
  }

  /** The in-flight entry of a key: a leader at work, or a value waiters can take. */
  datatype Slot = Busy(leader: TaskId) | Ready(shared: SharedEvaluation, record: Record)

  datatype Phase =
    | Arrived
    | Candidate
    | Keyed(generation: nat)
    | Leading(generation: nat, run: TaskId)
    | Taken(generation: nat, shared: SharedEvaluation, record: Record, ownError: Option<CheckError>)
    | Alone(run: TaskId)
    | Done(answer: Answer)

  /** The oracle run beside a shadowed or sampled candidate. */
  datatype Verification = Verification(generation: nat, run: TaskId, oracle: Option<Answer>)

  /** A Check that asks for higher consistency, or that is metered, is never shared. */
  datatype Caller = Caller(
    inputs: Inputs, higherConsistency: bool, metered: bool, verification: Option<Verification>, phase: Phase,
    answer: Option<Answer>)

  datatype Coalescer = Coalescer(
    mode: Mode, killed: bool, inFlight: map<CoalescingKey, Slot>, callers: map<TaskId, Caller>)

  datatype System = System(cache: Cache, co: Coalescer)

  /** A step of one caller; `run` names an oracle run it begins, `result` what a run ended with. */
  datatype Move =
    | Bypass(run: TaskId, key: Key)
    | Verify(run: TaskId, key: Key)
    | Coalesce
    | Capture
    | Lead(run: TaskId, key: Key)
    | LeaderEnds(result: Evaluation)
    | Follow
    | Interrupt(run: TaskId, key: Key)
    | TakeOutcome
    | TakeOwnError
    | Retry(run: TaskId, key: Key)
    | AloneEnds(result: Evaluation)
    | OracleEnds(result: Evaluation)
    | Compare

  datatype Event =
    | CacheEvent(step: Step)
    | Arrive(caller: TaskId, inputs: Inputs, higherConsistency: bool, metered: bool)
    | Moved(caller: TaskId, move: Move)
    | EvictSlot(slot: CoalescingKey)
    | Disable

  predicate Equivalent(oracle: Evaluation, candidate: Evaluation) {
    match (oracle, candidate)
    case (Ok(a), Ok(b)) => a.allowed == b.allowed
    case (Err(a), Err(b)) => a.kind == b.kind && a.code == b.code
    case (_, _) => false
  }

  predicate Bypasses(co: Coalescer, caller: Caller) {
    co.mode == Disabled || co.killed || caller.higherConsistency || caller.metered
  }

  function SlotKey(caller: Caller): CoalescingKey
    requires caller.phase.Keyed? || caller.phase.Leading? || caller.phase.Taken?
  {
    CoalescingKey(caller.inputs, caller.phase.generation)
  }

  function WithPhase(co: Coalescer, c: TaskId, phase: Phase): Coalescer
    requires c in co.callers
  {
    co.(callers := co.callers[c := co.callers[c].(phase := phase)])
  }

  /** The record of a run that is still computing and ends with `result`. */
  function RunRecord(s: System, c: TaskId, run: TaskId, result: Evaluation): Record
    requires c in s.co.callers && run in s.cache.computations && s.cache.computations[run].Computing?
  {
    Record(c, s.co.callers[c].inputs, s.cache.computations[run].startedAt, s.cache.computations[run].versions, result)
  }

  ghost predicate Running(s: System, run: TaskId) {
    run in s.cache.computations && s.cache.computations[run].Computing?
  }

  /** An oracle run begins, in the caller's own name. */
  ghost predicate Starts(s: System, run: TaskId, key: Key, t: System) {
    CacheProtocol.Next(s.cache, Begin(run, key), t.cache)
  }

  ghost predicate Ends(s: System, run: TaskId, t: System) {
    Running(s, run) && CacheProtocol.Next(s.cache, Abandon(run), t.cache)
  }

  /** Every caller's slot is dropped when it takes a value or gives up leading. */
  function Dropped(co: Coalescer, caller: Caller): Coalescer {
    match caller.phase
    case Leading(_, _) => co.(inFlight := co.inFlight - {SlotKey(caller)})
    case Taken(_, _, _, _) =>
      var key := SlotKey(caller);
      if key in co.inFlight && co.inFlight[key].Ready? then co.(inFlight := co.inFlight - {key}) else co
    case _ => co
  }

  ghost predicate Next(s: System, event: Event, t: System) {
    var co := s.co;
    match event
    case CacheEvent(step) => CacheProtocol.Next(s.cache, step, t.cache) && t.co == co
    case Disable => t == s.(co := co.(killed := true))
    case EvictSlot(key) => t == s.(co := co.(inFlight := co.inFlight - {key}))
    case Arrive(c, inputs, higherConsistency, metered) =>
      && c !in co.callers
      && t == s.(co := co.(callers := co.callers[c := Caller(inputs, higherConsistency, metered, None, Arrived, None)]))
    case Moved(c, move) => c in co.callers && Moves(s, c, move, t)
  }

  /** A step of one caller. */
  ghost predicate Moves(s: System, c: TaskId, move: Move, t: System)
    requires c in s.co.callers
  {
    var co, me := s.co, s.co.callers[c];
    match move
    case Bypass(run, key) =>
      me.phase.Arrived? && Bypasses(co, me) && Starts(s, run, key, t) && t.co == WithPhase(co, c, Alone(run))
    case Verify(run, key) =>
      && me.phase.Arrived? && !Bypasses(co, me) && Starts(s, run, key, t)
      && t.co == co.(callers := co.callers[c :=
           me.(phase := Candidate, verification := Some(Verification(s.cache.generation, run, None)))])
    case Coalesce =>
      me.phase.Arrived? && !Bypasses(co, me) && co.mode == Enabled && t == s.(co := WithPhase(co, c, Candidate))
    case Capture => me.phase.Candidate? && t == s.(co := WithPhase(co, c, Keyed(s.cache.generation)))
    case Lead(run, key) =>
      && me.phase.Keyed? && SlotKey(me) !in co.inFlight && Starts(s, run, key, t)
      && t.co == WithPhase(co.(inFlight := co.inFlight[SlotKey(me) := Busy(c)]), c, Leading(me.phase.generation, run))
    case LeaderEnds(result) =>
      && me.phase.Leading? && Ends(s, me.phase.run, t)
      && var record := RunRecord(s, c, me.phase.run, result);
         t.co == WithPhase(co.(inFlight := co.inFlight[SlotKey(me) := Ready(Shared(result), record)]), c,
                           Taken(me.phase.generation, Shared(result), record,
                                 if result.Ok? then None else Some(result.error)))
    case Follow =>
      && me.phase.Keyed? && SlotKey(me) in co.inFlight && co.inFlight[SlotKey(me)].Ready?
      && var slot := co.inFlight[SlotKey(me)];
         t == s.(co := WithPhase(co, c, Taken(me.phase.generation, slot.shared, slot.record, None)))
    case Interrupt(run, key) =>
      && (me.phase.Keyed? || me.phase.Leading? || me.phase.Taken?) && Starts(s, run, key, t)
      && t.co == WithPhase(Dropped(co, me), c, Alone(run))
    case TakeOutcome =>
      && me.phase.Taken? && me.phase.shared.Outcome?
      && t == s.(co := WithPhase(Dropped(co, me), c, Done(Answer(Ok(me.phase.shared.decision), me.phase.record))))
    case TakeOwnError =>
      && me.phase.Taken? && me.phase.shared.Failure? && me.phase.ownError.Some?
      && t == s.(co := WithPhase(Dropped(co, me), c, Done(Answer(Err(me.phase.ownError.value), me.phase.record))))
    case Retry(run, key) =>
      && me.phase.Taken? && me.phase.shared.Failure? && me.phase.ownError.None? && Starts(s, run, key, t)
      && t.co == WithPhase(Dropped(co, me), c, Alone(run))
    case AloneEnds(result) =>
      && me.phase.Alone? && Ends(s, me.phase.run, t)
      && t.co == WithPhase(co, c, Done(Answer(result, RunRecord(s, c, me.phase.run, result))))
    case OracleEnds(result) =>
      && me.verification.Some? && me.verification.value.oracle.None? && Ends(s, me.verification.value.run, t)
      && var oracle := Answer(result, RunRecord(s, c, me.verification.value.run, result));
         t.co == co.(callers := co.callers[c := me.(verification := Some(me.verification.value.(oracle := Some(oracle))))])
    case Compare =>
      && me.phase.Done? && me.answer.None?
      && if me.verification.None? then
           t == s.(co := co.(callers := co.callers[c := me.(answer := Some(me.phase.answer))]))
         else
           && me.verification.value.oracle.Some?
           && var v := me.verification.value;
              var mismatch := s.cache.generation == v.generation && !Equivalent(v.oracle.value.result, me.phase.answer.result);
              t == s.(co := co.(killed := co.killed || mismatch, callers := co.callers[c := me.(answer := v.oracle)]))
  }

  // ---------------------------------------------------------------------------
  // The invariant
  // ---------------------------------------------------------------------------

  ghost predicate RecordOk(cache: Cache, record: Record) {
    Since(cache, record.since, record.versions)
  }

  /** A run begun in the caller's own name, after generation `g`. */
  ghost predicate RunOk(cache: Cache, run: TaskId, g: nat) {
    run in cache.computations && (!cache.computations[run].Finished? ==> g <= cache.computations[run].startedAt)
  }

  ghost predicate AnswerOk(cache: Cache, c: TaskId, me: Caller, answer: Answer) {
    && RecordOk(cache, answer.record)
    && answer.record.inputs == me.inputs && answer.result == answer.record.result
    && (answer.result.Err? ==> answer.record.owner == c)
  }

  ghost predicate CallerOk(cache: Cache, c: TaskId, me: Caller) {
    && match me.phase {
         case Arrived => me.verification.None?
         case Candidate => true
         case Keyed(g) => g <= cache.generation
         case Leading(g, run) => g <= cache.generation && RunOk(cache, run, g)
         case Taken(g, shared, record, ownError) =>
           && RecordOk(cache, record) && record.inputs == me.inputs && g <= record.since
           && shared == Shared(record.result)
           && (ownError.Some? ==> record.owner == c && record.result == Err(ownError.value))
         case Alone(run) => RunOk(cache, run, 0)
         case Done(answer) => AnswerOk(cache, c, me, answer)
       }
    && (me.verification.Some? ==>
          && RunOk(cache, me.verification.value.run, 0)
          && (me.verification.value.oracle.Some? ==>
                AnswerOk(cache, c, me, me.verification.value.oracle.value) &&
                me.verification.value.oracle.value.record.owner == c))
    && (me.answer.Some? ==>
          && me.phase.Done? && AnswerOk(cache, c, me, me.answer.value)
          && (me.verification.Some? ==> me.answer.value.record.owner == c))
  }

  ghost predicate SlotOk(cache: Cache, key: CoalescingKey, slot: Slot) {
    slot.Ready? ==>
      && RecordOk(cache, slot.record) && slot.record.inputs == key.inputs && key.generation <= slot.record.since
      && slot.shared == Shared(slot.record.result)
  }

  ghost predicate SlotsOk(cache: Cache, slots: map<CoalescingKey, Slot>) {
    forall k :: k in slots ==> SlotOk(cache, k, slots[k])
  }

  ghost predicate CallersOk(cache: Cache, callers: map<TaskId, Caller>) {
    forall c :: c in callers ==> CallerOk(cache, c, callers[c])
  }

  ghost predicate SystemInv(s: System) {
    CacheProtocol.Inv(s.cache) && SlotsOk(s.cache, s.co.inFlight) && CallersOk(s.cache, s.co.callers)
  }

  lemma {:induction false} CallerGrows(a: Cache, b: Cache, c: TaskId, me: Caller)
    requires FloorsOk(a) && FloorsOk(b) && Grows(a, b) && TasksKept(a, b) && CallerOk(a, c, me)
    ensures CallerOk(b, c, me)
  {
    hide FloorsOk; hide Since;
    if me.phase.Taken? {
      SinceGrows(a, b, me.phase.record.since, me.phase.record.versions);
    }
    if me.phase.Done? {
      SinceGrows(a, b, me.phase.answer.record.since, me.phase.answer.record.versions);
    }
    if me.verification.Some? && me.verification.value.oracle.Some? {
      var r := me.verification.value.oracle.value.record;
      SinceGrows(a, b, r.since, r.versions);
    }
    if me.answer.Some? {
      SinceGrows(a, b, me.answer.value.record.since, me.answer.value.record.versions);
    }
  }

  /** What the caches do between a caller's steps breaks no promise to callers. */
  lemma {:induction false} CacheStepKeeps(a: Cache, step: Step, b: Cache, co: Coalescer)
    requires CacheProtocol.Inv(a) && CacheProtocol.Next(a, step, b)
    requires SlotsOk(a, co.inFlight) && CallersOk(a, co.callers)
    ensures CacheProtocol.Inv(b) && SlotsOk(b, co.inFlight) && CallersOk(b, co.callers)
    ensures Grows(a, b) && TasksKept(a, b)
  {
    StepKeepsInv(a, step, b);
    StepKeepsTasks(a, step, b);
    hide CacheProtocol.Next; hide CallerOk; hide FloorsOk; hide Since; hide Grows; hide TasksKept;
    forall c | c in co.callers ensures CallerOk(b, c, co.callers[c]) {
      CallerGrows(a, b, c, co.callers[c]);
    }
    forall k | k in co.inFlight ensures SlotOk(b, k, co.inFlight[k]) {
      if co.inFlight[k].Ready? {
        SinceGrows(a, b, co.inFlight[k].record.since, co.inFlight[k].record.versions);
      }
    }
  }

  /** The record of a run begun after generation `g` is sound. */
  lemma {:induction false} RecordOfRun(s: System, c: TaskId, run: TaskId, result: Evaluation, g: nat)
    requires CacheProtocol.Inv(s.cache) && c in s.co.callers && Running(s, run) && RunOk(s.cache, run, g)
    ensures RecordOk(s.cache, RunRecord(s, c, run, result)) && g <= RunRecord(s, c, run, result).since
  {
  }

  /** Replacing one caller and dropping or adding sound slots keeps the invariant. */
  lemma {:induction false} Replaced(cache: Cache, co: Coalescer, d: Coalescer, c: TaskId)
    requires SlotsOk(cache, co.inFlight) && CallersOk(cache, co.callers)
    requires c in d.callers && d.callers == co.callers[c := d.callers[c]] && CallerOk(cache, c, d.callers[c])
    requires forall k :: k in d.inFlight ==> (k in co.inFlight && d.inFlight[k] == co.inFlight[k]) || SlotOk(cache, k, d.inFlight[k])
    ensures SlotsOk(cache, d.inFlight) && CallersOk(cache, d.callers)
  {
    hide CallerOk; hide SlotOk;
  }

  predicate Begins(move: Move) {
    move.Bypass? || move.Verify? || move.Lead? || move.Interrupt? || move.Retry?
  }

  predicate Finishes(move: Move) {
    move.LeaderEnds? || move.AloneEnds? || move.OracleEnds?
  }

  lemma {:induction false} QuietMoves(s: System, c: TaskId, move: Move, t: System)
    requires SystemInv(s) && c in s.co.callers && Moves(s, c, move, t) && !Begins(move) && !Finishes(move)
    ensures SystemInv(t) && t.cache == s.cache
  {
    hide CacheProtocol.Inv; hide CacheProtocol.Next; hide Since; hide RunOk;
    assert CallerOk(s.cache, c, s.co.callers[c]);
    if move.Follow? {
      var key := SlotKey(s.co.callers[c]);
      assert SlotOk(s.cache, key, s.co.inFlight[key]);
    }
    Replaced(s.cache, s.co, t.co, c);
  }

  lemma {:induction false} Begun(a: Cache, run: TaskId, key: Key, b: Cache, g: nat)
    requires CacheProtocol.Next(a, Begin(run, key), b) && g <= a.generation
    ensures RunOk(b, run, g) && g <= b.generation
  {
  }

  lemma {:induction false} StartMoves(s: System, c: TaskId, move: Move, t: System)
    requires SystemInv(s) && c in s.co.callers && Moves(s, c, move, t) && Begins(move)
    ensures SystemInv(t) && Grows(s.cache, t.cache)
  {
    var me := s.co.callers[c];
    CacheStepKeeps(s.cache, Begin(move.run, move.key), t.cache, s.co);
    assert CallerOk(s.cache, c, me) && CallerOk(t.cache, c, me);
    Begun(s.cache, move.run, move.key, t.cache, if move.Lead? then me.phase.generation else 0);
    assert RunOk(t.cache, move.run, 0);
    hide CacheProtocol.Inv; hide CacheProtocol.Next; hide Since; hide RunOk; hide Grows; hide TasksKept;
    hide SlotsOk; hide CallersOk; hide SlotOk; hide RecordOk; hide AnswerOk;
    assert CallerOk(t.cache, c, t.co.callers[c]);
    assert forall k :: k in t.co.inFlight && !(k in s.co.inFlight && t.co.inFlight[k] == s.co.inFlight[k]) ==>
             t.co.inFlight[k].Busy?;
    BusyIsOk(t.cache);
    Replaced(t.cache, s.co, t.co, c);
  }

  lemma {:induction false} BusyIsOk(cache: Cache)
    ensures forall k: CoalescingKey, slot: Slot :: slot.Busy? ==> SlotOk(cache, k, slot)
  {
  }

  /** The run that a step ends. */
  function EndedRun(me: Caller, move: Move): TaskId
    requires move.LeaderEnds? ==> me.phase.Leading?
    requires move.AloneEnds? ==> me.phase.Alone?
    requires move.OracleEnds? ==> me.verification.Some?
  {
    if move.LeaderEnds? then me.phase.run
    else if move.AloneEnds? then me.phase.run
    else if move.OracleEnds? then me.verification.value.run
    else 0
  }

  lemma {:induction false} EndMoves(s: System, c: TaskId, move: Move, t: System)
    requires SystemInv(s) && c in s.co.callers && Moves(s, c, move, t) && Finishes(move)
    ensures SystemInv(t) && Grows(s.cache, t.cache)
  {
    var me := s.co.callers[c];
    var run := EndedRun(me, move);
    assert CallerOk(s.cache, c, me);
    RecordOfRun(s, c, run, move.result, if move.LeaderEnds? then me.phase.generation else 0);
    var record := RunRecord(s, c, run, move.result);
    CacheStepKeeps(s.cache, Abandon(run), t.cache, s.co);
    SinceGrows(s.cache, t.cache, record.since, record.versions);
    assert CallerOk(t.cache, c, me);
    hide CacheProtocol.Inv; hide CacheProtocol.Next; hide Since; hide RunOk; hide Grows; hide TasksKept;
    Replaced(t.cache, s.co, t.co, c);
  }

  /** Every step keeps the invariant and only extends the caches' history. */
  lemma {:induction false} StepKeeps(s: System, event: Event, t: System)
    requires SystemInv(s) && Next(s, event, t)
    ensures SystemInv(t) && Grows(s.cache, t.cache)
  {
    match event {
      case CacheEvent(step) => CacheStepKeeps(s.cache, step, t.cache, s.co);
      case Arrive(c, _, _, _) =>
        hide CacheProtocol.Inv; hide CacheProtocol.Next;
        Replaced(s.cache, s.co, t.co, c);
      case Moved(c, move) =>
        if Begins(move) {
          StartMoves(s, c, move, t);
        } else if Finishes(move) {
          EndMoves(s, c, move, t);
        } else {
          QuietMoves(s, c, move, t);
        }
      case _ => hide CacheProtocol.Inv; hide CacheProtocol.Next; hide CallerOk; hide SlotOk;
    }
    hide CacheProtocol.Inv; hide CacheProtocol.Next; hide Moves; hide SlotsOk; hide CallersOk;
  }

  // ---------------------------------------------------------------------------
  // Whole runs
  // ---------------------------------------------------------------------------

  /** Checks arrive after any run of the caches. */
  ghost predicate Init(s: System) {
    && (exists states, steps :: CacheProtocol.Run(states, steps) && s.cache == states[|steps|])
    && !s.co.killed && s.co.inFlight == map[] && s.co.callers == map[]
  }

  ghost predicate Run(states: seq<System>, events: seq<Event>) {
    && |states| == |events| + 1
    && Init(states[0])
    && forall i: nat :: i < |events| ==> Next(states[i], events[i], states[i + 1])
  }

  lemma {:induction false} RunKeeps(states: seq<System>, events: seq<Event>, i: nat)
    requires Run(states, events) && i < |states|
    ensures SystemInv(states[i])
  {
    if i == 0 {
      var before, steps :| CacheProtocol.Run(before, steps) && states[0].cache == before[|steps|];
      RunKeepsInv(before, steps, |steps|);
    } else {
      RunKeeps(states, events, i - 1);
      StepKeeps(states[i - 1], events[i - 1], states[i]);
    }
  }

  ghost predicate Answered(s: System, c: TaskId, answer: Answer) {
    c in s.co.callers && s.co.callers[c].answer == Some(answer)
  }

  /** With this event an oracle run ends and leaves the record. */
  ghost predicate EndsWith(s: System, event: Event, record: Record) {
    && event.Moved? && event.caller in s.co.callers && Finishes(event.move)
    && var me := s.co.callers[event.caller];
       && (event.move.LeaderEnds? ==> me.phase.Leading?) && (event.move.AloneEnds? ==> me.phase.Alone?)
       && (event.move.OracleEnds? ==> me.verification.Some?)
       && Running(s, EndedRun(me, event.move))
       && record == RunRecord(s, event.caller, EndedRun(me, event.move), event.move.result)
  }

  predicate CallerHolds(me: Caller, record: Record) {
    || (me.phase.Taken? && me.phase.record == record)
    || (me.phase.Done? && me.phase.answer.record == record)
    || (me.verification.Some? && me.verification.value.oracle.Some? && me.verification.value.oracle.value.record == record)
    || (me.answer.Some? && me.answer.value.record == record)
  }

  /** Some slot or caller holds the record. */
  ghost predicate Holds(co: Coalescer, record: Record) {
    || (exists k :: k in co.inFlight && co.inFlight[k].Ready? && co.inFlight[k].record == record)
    || (exists c :: c in co.callers && CallerHolds(co.callers[c], record))
  }

  /** A record held after a caller's step is an old one, or that of the run the step ended. */
  lemma {:induction false} MovedRecords(s: System, c: TaskId, move: Move, t: System, record: Record)
    requires c in s.co.callers && Moves(s, c, move, t) && c in t.co.callers
    ensures CallerHolds(t.co.callers[c], record) ==> Holds(s.co, record) || EndsWith(s, Moved(c, move), record)
    ensures forall k :: k in t.co.inFlight && t.co.inFlight[k].Ready? && t.co.inFlight[k].record == record ==>
              (k in s.co.inFlight && t.co.inFlight[k] == s.co.inFlight[k]) || EndsWith(s, Moved(c, move), record)
  {
    hide CacheProtocol.Next; hide Bypasses; hide Equivalent;
    if move.Follow? {
      assert SlotKey(s.co.callers[c]) in s.co.inFlight;
    }
    assert CallerHolds(s.co.callers[c], record) ==> Holds(s.co, record);
  }

  lemma {:induction false} RecordsEnd(s: System, event: Event, t: System, record: Record)
    requires Next(s, event, t) && Holds(t.co, record)
    ensures Holds(s.co, record) || EndsWith(s, event, record)
  {
    hide CacheProtocol.Next; hide Moves; hide EndsWith; hide CallerHolds;
    if event.Moved? {
      OnlyTheCaller(s, event.caller, event.move, t);
      MovedRecords(s, event.caller, event.move, t, record);
    } else if event.Arrive? {
      assert !CallerHolds(t.co.callers[event.caller], record) by { NothingHeld(t.co.callers[event.caller], record); }
    }
  }

  lemma {:induction false} NothingHeld(me: Caller, record: Record)
    requires me.verification.None? && me.phase.Arrived? && me.answer.None?
    ensures !CallerHolds(me, record)
  {
  }

  /** Every record held was left by a run that ended earlier. */
  lemma {:induction false} RecordIsOfARun(states: seq<System>, events: seq<Event>, j: nat, record: Record) returns (k: nat)
    requires Run(states, events) && j < |states| && Holds(states[j].co, record)
    ensures k < j && EndsWith(states[k], events[k], record)
  {
    hide Next; hide EndsWith;
    RecordsEnd(states[j - 1], events[j - 1], states[j], record);
    if Holds(states[j - 1].co, record) {
      k := RecordIsOfARun(states, events, j - 1, record);
    } else {
      k := j - 1;
    }
  }

  /** An answer is what an oracle run on the caller's own inputs ended with, at an earlier step of this
      very history; an error is that of a run of the caller's own, and so is every answer that was
      verified against the oracle. */
  lemma {:induction false} AnswersRefineTheOracle(states: seq<System>, events: seq<Event>, j: nat, c: TaskId, answer: Answer)
    returns (k: nat)
    requires Run(states, events) && j < |states| && Answered(states[j], c, answer)
    ensures k < j && EndsWith(states[k], events[k], answer.record)
    ensures answer.result == answer.record.result == events[k].move.result
    ensures answer.record.inputs == states[k].co.callers[events[k].caller].inputs == states[j].co.callers[c].inputs
    ensures answer.result.Err? || states[j].co.callers[c].verification.Some? ==> events[k].caller == c
  {
    hide Next; hide RecordOk;
    RunKeeps(states, events, j);
    var me := states[j].co.callers[c];
    assert CallerOk(states[j].cache, c, me);
    assert CallerHolds(me, answer.record) && Holds(states[j].co, answer.record);
    k := RecordIsOfARun(states, events, j, answer.record);
  }

  /** The caller has not captured a generation or begun a run. */
  predicate Waiting(s: System, c: TaskId) {
    c in s.co.callers ==>
      var me := s.co.callers[c];
      me.verification.None? && me.answer.None? && (me.phase.Arrived? || me.phase.Candidate?)
  }

  /** Whatever the caller captured, began or took is from generation `g` or later. */
  ghost predicate From(cache: Cache, me: Caller, g: nat) {
    && g <= cache.generation
    && match me.phase {
         case Arrived => true
         case Candidate => true
         case Keyed(captured) => g <= captured
         case Leading(captured, run) => g <= captured && RunOk(cache, run, g)
         case Taken(captured, _, record, _) => g <= captured && g <= record.since
         case Alone(run) => RunOk(cache, run, g)
         case Done(answer) => g <= answer.record.since
       }
    && (me.verification.Some? ==>
          && RunOk(cache, me.verification.value.run, g)
          && (me.verification.value.oracle.Some? ==> g <= me.verification.value.oracle.value.record.since))
    && (me.answer.Some? ==> g <= me.answer.value.record.since)
  }

  lemma {:induction false} FromGrows(a: Cache, b: Cache, me: Caller, g: nat)
    requires Grows(a, b) && TasksKept(a, b) && From(a, me, g)
    ensures From(b, me, g)
  {
  }

  lemma {:induction false} FromBegins(s: System, c: TaskId, move: Move, t: System, g: nat)
    requires SystemInv(s) && c in s.co.callers && Moves(s, c, move, t) && Begins(move)
    requires From(s.cache, s.co.callers[c], g)
    ensures c in t.co.callers && From(t.cache, t.co.callers[c], g)
  {
    CacheStepKeeps(s.cache, Begin(move.run, move.key), t.cache, s.co);
    FromGrows(s.cache, t.cache, s.co.callers[c], g);
    Begun(s.cache, move.run, move.key, t.cache, g);
    hide CacheProtocol.Inv; hide CacheProtocol.Next; hide Since; hide Grows; hide TasksKept; hide CallersOk; hide SlotsOk;
    hide RunOk;
  }

  lemma {:induction false} FromFinishes(s: System, c: TaskId, move: Move, t: System, g: nat)
    requires SystemInv(s) && c in s.co.callers && Moves(s, c, move, t) && Finishes(move)
    requires From(s.cache, s.co.callers[c], g)
    ensures c in t.co.callers && From(t.cache, t.co.callers[c], g)
  {
    CacheStepKeeps(s.cache, Abandon(EndedRun(s.co.callers[c], move)), t.cache, s.co);
    FromGrows(s.cache, t.cache, s.co.callers[c], g);
    hide CacheProtocol.Inv; hide CacheProtocol.Next; hide Since; hide Grows; hide TasksKept; hide CallersOk; hide SlotsOk;
  }

  lemma {:induction false} FromMoves(s: System, c: TaskId, move: Move, t: System, g: nat)
    requires SystemInv(s) && c in s.co.callers && Moves(s, c, move, t) && From(s.cache, s.co.callers[c], g)
    ensures c in t.co.callers && From(t.cache, t.co.callers[c], g)
  {
    hide CacheProtocol.Inv; hide CacheProtocol.Next; hide Since; hide CallersOk; hide RunOk;
    if Begins(move) {
      FromBegins(s, c, move, t, g);
    } else if Finishes(move) {
      FromFinishes(s, c, move, t, g);
    } else if move.Follow? {
      var key := SlotKey(s.co.callers[c]);
      assert SlotOk(s.cache, key, s.co.inFlight[key]);
    }
  }

  lemma {:induction false} FromStep(s: System, event: Event, t: System, c: TaskId, g: nat)
    requires SystemInv(s) && Next(s, event, t) && g <= s.cache.generation
    requires c in s.co.callers ==> From(s.cache, s.co.callers[c], g)
    ensures g <= t.cache.generation && (c in t.co.callers ==> From(t.cache, t.co.callers[c], g))
  {
    StepKeeps(s, event, t);
    if event.Moved? && event.caller == c {
      FromMoves(s, c, event.move, t, g);
    } else if c in s.co.callers {
      StepKeepsRuns(s, event, t);
      OthersStay(s, event, t, c);
      FromGrows(s.cache, t.cache, s.co.callers[c], g);
    } else if c in t.co.callers {
      Newcomer(s, event, t, c);
    }
  }

  lemma {:induction false} StepKeepsRuns(s: System, event: Event, t: System)
    requires SystemInv(s) && Next(s, event, t)
    ensures TasksKept(s.cache, t.cache)
  {
    if event.CacheEvent? {
      StepKeepsTasks(s.cache, event.step, t.cache);
    } else if event.Moved? && Begins(event.move) {
      StepKeepsTasks(s.cache, Begin(event.move.run, event.move.key), t.cache);
    } else if event.Moved? && Finishes(event.move) {
      StepKeepsTasks(s.cache, Abandon(EndedRun(s.co.callers[event.caller], event.move)), t.cache);
    } else {
      assert t.cache == s.cache;
    }
  }

  /** A caller's step changes no other caller. */
  lemma {:induction false} OnlyTheCaller(s: System, c: TaskId, move: Move, t: System)
    requires c in s.co.callers && Moves(s, c, move, t)
    ensures c in t.co.callers && t.co.callers == s.co.callers[c := t.co.callers[c]]
  {
    hide CacheProtocol.Next; hide RunRecord; hide Bypasses; hide Equivalent;
  }

  lemma {:induction false} OthersStay(s: System, event: Event, t: System, c: TaskId)
    requires Next(s, event, t) && c in s.co.callers && !(event.Moved? && event.caller == c)
    ensures c in t.co.callers && t.co.callers[c] == s.co.callers[c]
  {
    hide CacheProtocol.Next; hide Moves;
    if event.Moved? {
      OnlyTheCaller(s, event.caller, event.move, t);
    }
  }

  lemma {:induction false} Newcomer(s: System, event: Event, t: System, c: TaskId)
    requires Next(s, event, t) && c !in s.co.callers && c in t.co.callers
    ensures t.co.callers[c].phase.Arrived? && t.co.callers[c].verification.None? && t.co.callers[c].answer.None?
  {
    hide CacheProtocol.Next; hide Moves;
    if event.Moved? {
      OnlyTheCaller(s, event.caller, event.move, t);
    }
  }

  lemma {:induction false} FromOverRun(states: seq<System>, events: seq<Event>, i: nat, j: nat, c: TaskId)
    requires Run(states, events) && i <= j < |states| && Waiting(states[i], c)
    ensures states[i].cache.generation <= states[j].cache.generation
    ensures c in states[j].co.callers ==> From(states[j].cache, states[j].co.callers[c], states[i].cache.generation)
    ensures Grows(states[i].cache, states[j].cache)
  {
    hide Next; hide SystemInv; hide From;
    if i < j {
      FromOverRun(states, events, i, j - 1, c);
      RunKeeps(states, events, j - 1);
      FromStep(states[j - 1], events[j - 1], states[j], c, states[i].cache.generation);
      StepKeeps(states[j - 1], events[j - 1], states[j]);
    } else if c in states[i].co.callers {
      assert From(states[i].cache, states[i].co.callers[c], states[i].cache.generation) by {
        WaitingIsFrom(states[i].cache, states[i].co.callers[c]);
      }
    }
  }

  lemma {:induction false} WaitingIsFrom(cache: Cache, me: Caller)
    requires me.verification.None? && me.answer.None? && (me.phase.Arrived? || me.phase.Candidate?)
    ensures From(cache, me, cache.generation)
  {
  }

  /** A shared answer misses no write acknowledged before the caller captured its generation. */
  lemma {:induction false} SharedAnswersSeeWrites(
    states: seq<System>, events: seq<Event>, i: nat, j: nat, w: TaskId, c: TaskId, answer: Answer)
    requires Run(states, events) && i <= j < |states|
    requires w in states[i].cache.writes && states[i].cache.writes[w].Acknowledged?
    requires Waiting(states[i], c) && Answered(states[j], c, answer)
    ensures answer.result == answer.record.result
    ensures forall v :: v in answer.record.versions ==> states[i].cache.writes[w].upto <= v
  {
    RunKeeps(states, events, i);
    RunKeeps(states, events, j);
    FromOverRun(states, events, i, j, c);
    assert WriteOk(states[i].cache, states[i].cache.writes[w]);
    assert CallerOk(states[j].cache, c, states[j].co.callers[c]);
    var g := states[i].cache.writes[w].generation;
    assert states[j].cache.floors[g] == states[i].cache.floors[g];
    hide Run;
  }

  // ---------------------------------------------------------------------------
  // The kill switch
  // ---------------------------------------------------------------------------

  /** The two outcomes disagree: one answered and the other failed, or they answered differently, or
      failed for different reasons. */
  predicate Disagree(a: Evaluation, b: Evaluation) {
    || a.Ok? != b.Ok?
    || (a.Ok? && b.Ok? && a.value.allowed != b.value.allowed)
    || (a.Err? && b.Err? && (a.error.kind != b.error.kind || a.error.code != b.error.code))
  }

  /** With this event a verified caller compares its answer with its oracle's, at the generation both
      began from, and they disagree. */
  ghost predicate Mismatch(s: System, event: Event) {
    && event.Moved? && event.move.Compare? && event.caller in s.co.callers
    && var me := s.co.callers[event.caller];
       && me.phase.Done? && me.verification.Some? && me.verification.value.oracle.Some?
       && me.verification.value.generation == s.cache.generation
       && Disagree(me.verification.value.oracle.value.result, me.phase.answer.result)
  }

  /** A verified caller is answered by its oracle; a caller that was not verified keeps its answer. */
  lemma {:induction false} CompareAnswers(s: System, c: TaskId, t: System)
    requires c in s.co.callers && Moves(s, c, Compare, t)
    ensures var me := s.co.callers[c];
            && c in t.co.callers
            && t.co.callers[c].answer ==
               (if me.verification.Some? then me.verification.value.oracle else Some(me.phase.answer))
            && t.co.callers[c].answer.Some?
  {
  }

  /** A step kills the strategy exactly when it disables it or finds a mismatch. */
  lemma {:induction false} KilledByStep(s: System, event: Event, t: System)
    requires Next(s, event, t)
    ensures t.co.killed <==> s.co.killed || event.Disable? || Mismatch(s, event)
  {
    hide CacheProtocol.Next; hide RunRecord; hide Bypasses;
  }

  /** The strategy is killed exactly if it was disabled or a mismatch was found before. */
  lemma {:induction false} KilledByMismatch(states: seq<System>, events: seq<Event>, j: nat)
    requires Run(states, events) && j < |states|
    ensures states[j].co.killed <==>
            exists i :: 0 <= i < j && (events[i].Disable? || Mismatch(states[i], events[i]))
  {
    hide Next; hide Mismatch;
    if j > 0 {
      KilledByMismatch(states, events, j - 1);
      KilledByStep(states[j - 1], events[j - 1], states[j]);
    }
  }

  // ---------------------------------------------------------------------------
  // Who is served by its own run
  // ---------------------------------------------------------------------------

  /** The caller has shared nothing: what it has, it has from its own run. */
  ghost predicate Unshared(s: System, c: TaskId) {
    c in s.co.callers ==>
      var me := s.co.callers[c];
      && me.verification.None?
      && (me.phase.Arrived? || me.phase.Alone? || (me.phase.Done? && me.phase.answer.record.owner == c))
      && (me.answer.Some? ==> me.answer.value.record.owner == c)
  }

  /** What sends a caller to its own run: the strategy is disabled or killed, or the caller asks for
      higher consistency or is metered. */
  predicate Excluded(s: System, c: TaskId) {
    || s.co.mode == Disabled || s.co.killed
    || (c in s.co.callers && (s.co.callers[c].higherConsistency || s.co.callers[c].metered))
  }

  lemma {:induction false} UnsharedMoves(s: System, c: TaskId, move: Move, t: System)
    requires c in s.co.callers && Moves(s, c, move, t) && Unshared(s, c) && Excluded(s, c)
    ensures Unshared(t, c) && Excluded(t, c)
  {
    hide CacheProtocol.Next;
  }

  lemma {:induction false} ControlsStay(s: System, event: Event, t: System)
    requires Next(s, event, t)
    ensures t.co.mode == s.co.mode && (s.co.killed ==> t.co.killed)
  {
    hide CacheProtocol.Next; hide RunRecord; hide Equivalent;
  }

  lemma {:induction false} UnsharedStep(s: System, event: Event, t: System, c: TaskId)
    requires Next(s, event, t) && Unshared(s, c) && Excluded(s, c)
    ensures Unshared(t, c) && Excluded(t, c)
  {
    ControlsStay(s, event, t);
    if event.Moved? && event.caller == c {
      UnsharedMoves(s, c, event.move, t);
    } else if c in s.co.callers {
      OthersStay(s, event, t, c);
    } else if c in t.co.callers {
      Newcomer(s, event, t, c);
    }
    hide Next;
  }

  /** From the moment a caller that has shared nothing is excluded, it is served by its own run alone:
      one that arrives after the kill, one in a disabled strategy, one that asks for higher
      consistency, and one that is metered. */
  lemma {:induction false} ExcludedMeansBypassed(states: seq<System>, events: seq<Event>, i: nat, j: nat, c: TaskId)
    requires Run(states, events) && i <= j < |states|
    requires Unshared(states[i], c) && Excluded(states[i], c)
    ensures Unshared(states[j], c)
  {
    BypassedOverRun(states, events, i, j, c);
  }

  lemma {:induction false} BypassedOverRun(states: seq<System>, events: seq<Event>, i: nat, j: nat, c: TaskId)
    requires Run(states, events) && i <= j < |states|
    requires Unshared(states[i], c) && Excluded(states[i], c)
    ensures Unshared(states[j], c) && Excluded(states[j], c)
  {
    hide Next; hide Unshared; hide Excluded;
    if i < j {
      BypassedOverRun(states, events, i, j - 1, c);
      UnsharedStep(states[j - 1], events[j - 1], states[j], c);
    }
  }

  /** Once the strategy is killed it stays killed, and every Check that arrives later is answered by its own run. */
  lemma {:induction false} KilledMeansBypassed(states: seq<System>, events: seq<Event>, i: nat, j: nat, c: TaskId)
    requires Run(states, events) && i <= j < |states|
    requires states[i].co.killed && c !in states[i].co.callers
    ensures states[j].co.killed && Unshared(states[j], c)
  {
    ExcludedMeansBypassed(states, events, i, j, c);
    hide Run;
    KilledByMismatch(states, events, i);
    KilledByMismatch(states, events, j);
  }

  /** In shadow mode a caller with a candidate has its own oracle run beside it. */
  ghost predicate Shadowed(s: System, c: TaskId) {
    && s.co.mode == Shadow
    && (c in s.co.callers ==>
          var me := s.co.callers[c];
          me.verification.Some? || Unshared(s, c))
  }

  lemma {:induction false} ShadowedStep(s: System, event: Event, t: System, c: TaskId)
    requires Next(s, event, t) && Shadowed(s, c)
    ensures Shadowed(t, c)
  {
    ControlsStay(s, event, t);
    if event.Moved? && event.caller == c {
      ShadowedMoves(s, c, event.move, t);
    } else if c in s.co.callers {
      OthersStay(s, event, t, c);
    } else if c in t.co.callers {
      Newcomer(s, event, t, c);
    }
    hide Next;
  }

  lemma {:induction false} ShadowedMoves(s: System, c: TaskId, move: Move, t: System)
    requires c in s.co.callers && Moves(s, c, move, t) && Shadowed(s, c)
    ensures c in t.co.callers && (t.co.callers[c].verification.Some? || Unshared(t, c))
  {
    hide CacheProtocol.Next;
  }

  /** In shadow mode every answer is that of a run of the caller's own: sharing is only watched. */
  lemma {:induction false} ShadowAnswersAreOwn(states: seq<System>, events: seq<Event>, j: nat, c: TaskId, answer: Answer)
    requires Run(states, events) && j < |states| && states[0].co.mode == Shadow && Answered(states[j], c, answer)
    ensures answer.record.owner == c
  {
    ShadowedOverRun(states, events, j, c);
    RunKeeps(states, events, j);
    assert CallerOk(states[j].cache, c, states[j].co.callers[c]);
  }

  lemma {:induction false} ShadowedOverRun(states: seq<System>, events: seq<Event>, j: nat, c: TaskId)
    requires Run(states, events) && j < |states| && states[0].co.mode == Shadow
    ensures Shadowed(states[j], c)
  {
    hide Next;
    if j > 0 {
      ShadowedOverRun(states, events, j - 1, c);
      ShadowedStep(states[j - 1], events[j - 1], states[j], c);
    }
  }

  // ---------------------------------------------------------------------------
  // Sharing happens
  // ---------------------------------------------------------------------------

  predicate HasKey(s: System, c: TaskId, inputs: Inputs, generation: nat) {
    && c in s.co.callers && s.co.callers[c].inputs == inputs && s.co.callers[c].phase == Keyed(generation)
    && s.co.callers[c].verification.None? && s.co.callers[c].answer.None?
  }

  /** A caller that finds no entry leads: it runs the oracle and leaves its decision for others. */
  lemma {:induction false} LeaderPublishes(
    s: System, leader: TaskId, inputs: Inputs, generation: nat, run: TaskId, key: Key, d: Decision)
    returns (s1: System, s2: System)
    requires HasKey(s, leader, inputs, generation)
    requires CoalescingKey(inputs, generation) !in s.co.inFlight && run !in s.cache.computations
    ensures Next(s, Moved(leader, Lead(run, key)), s1) && Next(s1, Moved(leader, LeaderEnds(Ok(d))), s2)
    ensures s2.cache.computations.Keys == s.cache.computations.Keys + {run}
    ensures leader in s2.co.callers && s2.co.callers == s.co.callers[leader := s2.co.callers[leader]]
    ensures CoalescingKey(inputs, generation) in s2.co.inFlight
    ensures var slot := s2.co.inFlight[CoalescingKey(inputs, generation)];
            slot.Ready? && slot.shared == Outcome(d) && slot.record.owner == leader
  {
    var slot := CoalescingKey(inputs, generation);
    var cache1 := s.cache.(computations := s.cache.computations[run := Computing(key, s.cache.generation, {})]);
    s1 := System(cache1, WithPhase(s.co.(inFlight := s.co.inFlight[slot := Busy(leader)]), leader, Leading(generation, run)));
    assert Next(s, Moved(leader, Lead(run, key)), s1);
    var record := RunRecord(s1, leader, run, Ok(d));
    var cache2 := cache1.(computations := cache1.computations[run := Finished]);
    s2 := System(cache2, WithPhase(s1.co.(inFlight := s1.co.inFlight[slot := Ready(Outcome(d), record)]), leader,
                                   Taken(generation, Outcome(d), record, None)));
    assert s2.cache.computations.Keys == s.cache.computations.Keys + {run};
  }

  /** A caller that finds the decision left under its key takes it, without a run of its own. */
  lemma {:induction false} FollowerTakes(s: System, c: TaskId, inputs: Inputs, generation: nat, d: Decision)
    returns (s1: System, s2: System, s3: System)
    requires HasKey(s, c, inputs, generation) && CoalescingKey(inputs, generation) in s.co.inFlight
    requires var slot := s.co.inFlight[CoalescingKey(inputs, generation)]; slot.Ready? && slot.shared == Outcome(d)
    ensures Next(s, Moved(c, Follow), s1) && Next(s1, Moved(c, TakeOutcome), s2) && Next(s2, Moved(c, Compare), s3)
    ensures s3.cache == s.cache && c in s3.co.callers
    ensures s3.co.callers[c].answer == Some(Answer(Ok(d), s.co.inFlight[CoalescingKey(inputs, generation)].record))
  {
    hide CacheProtocol.Next; hide Moves;
    var record := s.co.inFlight[CoalescingKey(inputs, generation)].record;
    s1 := s.(co := WithPhase(s.co, c, Taken(generation, Outcome(d), record, None)));
    FollowStep(s, c, s1);
    s2 := s1.(co := WithPhase(Dropped(s1.co, s1.co.callers[c]), c, Done(Answer(Ok(d), record))));
    TakeStep(s1, c, s2);
    s3 := s2.(co := s2.co.(callers := s2.co.callers[c := s2.co.callers[c].(answer := Some(Answer(Ok(d), record)))]));
    CompareStep(s2, c, s3);
  }

  lemma {:induction false} FollowStep(s: System, c: TaskId, t: System)
    requires c in s.co.callers && s.co.callers[c].phase.Keyed?
    requires SlotKey(s.co.callers[c]) in s.co.inFlight && s.co.inFlight[SlotKey(s.co.callers[c])].Ready?
    requires var slot := s.co.inFlight[SlotKey(s.co.callers[c])];
             t == s.(co := WithPhase(s.co, c, Taken(s.co.callers[c].phase.generation, slot.shared, slot.record, None)))
    ensures Next(s, Moved(c, Follow), t)
  {
  }

  lemma {:induction false} TakeStep(s: System, c: TaskId, t: System)
    requires c in s.co.callers && s.co.callers[c].phase.Taken? && s.co.callers[c].phase.shared.Outcome?
    requires var me := s.co.callers[c];
             t == s.(co := WithPhase(Dropped(s.co, me), c, Done(Answer(Ok(me.phase.shared.decision), me.phase.record))))
    ensures Next(s, Moved(c, TakeOutcome), t)
  {
  }

  lemma {:induction false} CompareStep(s: System, c: TaskId, t: System)
    requires c in s.co.callers && s.co.callers[c].phase.Done? && s.co.callers[c].answer.None? && s.co.callers[c].verification.None?
    requires var me := s.co.callers[c];
             t == s.(co := s.co.(callers := s.co.callers[c := me.(answer := Some(me.phase.answer))]))
    ensures Next(s, Moved(c, Compare), t)
  {
  }

  /** Two callers with the same inputs and the same generation: the first to lead runs the oracle, and
      the other, once that run has succeeded, is answered with its very decision and has no run of its
      own. Every step of this is possible. */
  lemma {:induction false} FollowersShare(
    s: System, leader: TaskId, follower: TaskId, inputs: Inputs, generation: nat, run: TaskId, key: Key, d: Decision)
    returns (s1: System, s2: System, s3: System, s4: System, s5: System)
    requires leader != follower && HasKey(s, leader, inputs, generation) && HasKey(s, follower, inputs, generation)
    requires CoalescingKey(inputs, generation) !in s.co.inFlight && run !in s.cache.computations
    ensures Next(s, Moved(leader, Lead(run, key)), s1) && Next(s1, Moved(leader, LeaderEnds(Ok(d))), s2)
    ensures Next(s2, Moved(follower, Follow), s3) && Next(s3, Moved(follower, TakeOutcome), s4)
    ensures Next(s4, Moved(follower, Compare), s5)
    ensures follower in s5.co.callers && s5.co.callers[follower].answer.Some?
    ensures var answer := s5.co.callers[follower].answer.value; answer.result == Ok(d) && answer.record.owner == leader
    ensures s5.cache.computations.Keys == s.cache.computations.Keys + {run}
  {
    hide Next;
    s1, s2 := LeaderPublishes(s, leader, inputs, generation, run, key, d);
    s3, s4, s5 := FollowerTakes(s2, follower, inputs, generation, d);
  }

  // ---------------------------------------------------------------------------
  // Single flight
  // ---------------------------------------------------------------------------

  /** The caller behind an in-flight entry still leads, or has yet to leave the value it published. */
  ghost predicate SlotHeld(co: Coalescer, key: CoalescingKey, slot: Slot) {
    match slot
    case Busy(c) => c in co.callers && co.callers[c].phase.Leading? && SlotKey(co.callers[c]) == key
    case Ready(_, record) =>
      record.owner in co.callers && co.callers[record.owner].phase.Taken? && SlotKey(co.callers[record.owner]) == key
  }

  ghost predicate AllHeld(co: Coalescer) {
    forall k :: k in co.inFlight ==> SlotHeld(co, k, co.inFlight[k])
  }

  /** A step of a caller replaces an entry by its own, drops it, or leaves it. */
  lemma {:induction false} EntryMoves(s: System, c: TaskId, move: Move, t: System, k: CoalescingKey)
    requires c in s.co.callers && Moves(s, c, move, t) && k in t.co.inFlight
    ensures c in t.co.callers && t.co.callers == s.co.callers[c := t.co.callers[c]]
    ensures (k in s.co.inFlight && t.co.inFlight[k] == s.co.inFlight[k]) || SlotHeld(t.co, k, t.co.inFlight[k])
  {
    hide CacheProtocol.Next; hide Bypasses; hide Equivalent; hide Shared;
  }

  /** A caller that leaves its phase leaves no entry of its own behind. */
  lemma {:induction false} OwnEntryMoves(s: System, c: TaskId, move: Move, t: System, k: CoalescingKey)
    requires c in s.co.callers && Moves(s, c, move, t) && k in s.co.inFlight && k in t.co.inFlight
    requires SlotHeld(s.co, k, s.co.inFlight[k]) && Holder(s.co.inFlight[k]) == c
    ensures SlotHeld(t.co, k, t.co.inFlight[k])
  {
    hide CacheProtocol.Next; hide Bypasses; hide Equivalent; hide Shared;
  }

  function Holder(slot: Slot): TaskId {
    match slot case Busy(c) => c case Ready(_, record) => record.owner
  }

  lemma {:induction false} HeldMoves(s: System, c: TaskId, move: Move, t: System, k: CoalescingKey)
    requires c in s.co.callers && Moves(s, c, move, t) && AllHeld(s.co) && k in t.co.inFlight
    ensures SlotHeld(t.co, k, t.co.inFlight[k])
  {
    EntryMoves(s, c, move, t, k);
    if k in s.co.inFlight {
      assert SlotHeld(s.co, k, s.co.inFlight[k]);
      if Holder(s.co.inFlight[k]) == c {
        OwnEntryMoves(s, c, move, t, k);
      }
    }
    hide Moves;
  }

  lemma {:induction false} HeldStep(s: System, event: Event, t: System)
    requires Next(s, event, t) && AllHeld(s.co)
    ensures AllHeld(t.co)
  {
    hide CacheProtocol.Next; hide Moves;
    if event.Moved? {
      hide SlotHeld;
      forall k | k in t.co.inFlight ensures SlotHeld(t.co, k, t.co.inFlight[k]) {
        HeldMoves(s, event.caller, event.move, t, k);
      }
    }
  }

  /** Nothing is left in flight: every entry has its leader at work, or its leader about to leave with
      the value in it. An interrupted leader and a caller that has taken its value leave no entry. */
  lemma {:induction false} EntriesAreHeld(states: seq<System>, events: seq<Event>, j: nat)
    requires Run(states, events) && j < |states|
    ensures AllHeld(states[j].co)
  {
    hide Next; hide AllHeld;
    if j > 0 {
      EntriesAreHeld(states, events, j - 1);
      HeldStep(states[j - 1], events[j - 1], states[j]);
    } else {
      assert AllHeld(states[0].co) by { NothingIsHeld(states[0].co); }
    }
  }

  lemma {:induction false} NothingIsHeld(co: Coalescer)
    requires co.inFlight == map[]
    ensures AllHeld(co)
  {
  }

  ghost predicate Leads(co: Coalescer, c: TaskId, key: CoalescingKey) {
    c in co.callers && co.callers[c].phase.Leading? && SlotKey(co.callers[c]) == key
  }

  ghost predicate LeadersOk(co: Coalescer) {
    forall c, k :: Leads(co, c, k) ==> k in co.inFlight && co.inFlight[k] == Busy(c)
  }

  lemma {:induction false} LeadersMove(s: System, c: TaskId, move: Move, t: System, d: TaskId, k: CoalescingKey)
    requires c in s.co.callers && Moves(s, c, move, t) && LeadersOk(s.co) && Leads(t.co, d, k)
    ensures k in t.co.inFlight && t.co.inFlight[k] == Busy(d)
  {
    hide CacheProtocol.Next; hide Bypasses; hide Equivalent; hide Shared; hide RunRecord;
    if Leads(s.co, d, k) && s.co.callers[c].phase.Leading? {
      assert Leads(s.co, c, SlotKey(s.co.callers[c]));
    }
  }

  lemma {:induction false} LeadersStep(s: System, event: Event, t: System)
    requires Next(s, event, t) && LeadersOk(s.co) && !event.EvictSlot?
    ensures LeadersOk(t.co)
  {
    hide CacheProtocol.Next; hide Moves;
    if event.Moved? {
      hide Leads;
      forall d, k | Leads(t.co, d, k) ensures k in t.co.inFlight && t.co.inFlight[k] == Busy(d) {
        LeadersMove(s, event.caller, event.move, t, d, k);
      }
    } else {
      assert forall d, k :: Leads(t.co, d, k) ==> Leads(s.co, d, k);
    }
  }

  lemma {:induction false} LeadersOverRun(states: seq<System>, events: seq<Event>, j: nat)
    requires Run(states, events) && j < |states| && forall i :: 0 <= i < j ==> !events[i].EvictSlot?
    ensures LeadersOk(states[j].co)
  {
    hide Next;
    if j > 0 {
      LeadersOverRun(states, events, j - 1);
      hide LeadersOk;
      LeadersStep(states[j - 1], events[j - 1], states[j]);
    }
  }

  /** Unless the in-flight entries are evicted, at most one caller leads for a key at any time. */
  lemma {:induction false} OneLeaderPerKey(
    states: seq<System>, events: seq<Event>, j: nat, c: TaskId, d: TaskId, key: CoalescingKey)
    requires Run(states, events) && j < |states| && forall i :: 0 <= i < j ==> !events[i].EvictSlot?
    requires Leads(states[j].co, c, key) && Leads(states[j].co, d, key)
    ensures c == d
  {
    LeadersOverRun(states, events, j);
  }

  /** A caller that holds the failure of its own run knows the error. */
  ghost predicate OwnErrorKnown(co: Coalescer, c: TaskId) {
    c in co.callers && co.callers[c].phase.Taken? ==>
      var held := co.callers[c].phase;
      held.record.owner == c && held.record.result.Err? ==> held.ownError.Some?
  }

  lemma {:induction false} OwnErrorStep(s: System, event: Event, t: System, c: TaskId)
    requires Next(s, event, t) && AllHeld(s.co) && OwnErrorKnown(s.co, c)
    ensures OwnErrorKnown(t.co, c)
  {
    if event.Moved? && event.caller == c {
      OwnErrorMoves(s, c, event.move, t);
    } else if c in s.co.callers {
      OthersStay(s, event, t, c);
    } else if c in t.co.callers {
      Newcomer(s, event, t, c);
    }
    hide Next; hide AllHeld;
  }

  lemma {:induction false} OwnErrorMoves(s: System, c: TaskId, move: Move, t: System)
    requires c in s.co.callers && Moves(s, c, move, t) && AllHeld(s.co) && OwnErrorKnown(s.co, c)
    ensures OwnErrorKnown(t.co, c)
  {
    hide CacheProtocol.Next; hide Bypasses; hide Equivalent;
    if move.Follow? {
      var key := SlotKey(s.co.callers[c]);
      assert SlotHeld(s.co, key, s.co.inFlight[key]);
    }
  }

  lemma {:induction false} OwnErrorOverRun(states: seq<System>, events: seq<Event>, j: nat, c: TaskId)
    requires Run(states, events) && j < |states|
    ensures OwnErrorKnown(states[j].co, c)
  {
    hide Next; hide AllHeld;
    if j > 0 {
      OwnErrorOverRun(states, events, j - 1, c);
      EntriesAreHeld(states, events, j - 1);
      hide OwnErrorKnown;
      OwnErrorStep(states[j - 1], events[j - 1], states[j], c);
    }
  }

  /** A caller retries on its own only after the run of another caller failed. */
  lemma {:induction false} RetryFollowsFailure(
    states: seq<System>, events: seq<Event>, i: nat, c: TaskId, run: TaskId, key: Key)
    requires Run(states, events) && i < |events| && events[i] == Moved(c, Retry(run, key))
    ensures c in states[i].co.callers && states[i].co.callers[c].phase.Taken?
    ensures var record := states[i].co.callers[c].phase.record; record.result.Err? && record.owner != c
  {
    assert Next(states[i], events[i], states[i + 1]);
    RunKeeps(states, events, i);
    assert CallerOk(states[i].cache, c, states[i].co.callers[c]);
    OwnErrorOverRun(states, events, i, c);
  }
}
