/**
 The resolver as a concurrent system. Each goroutine is a task; a step of the system is one task
 running one critical section or one channel operation, the clock moving, or a new call arriving.
 `DnsInvariants` proves that the invariants below hold in every state of every interleaving.
 */
module DnsProtocol {
  import opened Basics
  import opened Netip
  import opened DnsCache

  type Pid = nat

  datatype Query = Query(network: string, host: string)

  function KeyOf(q: Query): string { q.network + "|" + q.host }

  /** The networks there are, `ip`, `ip4` and `ip6`, have no bar. */
  predicate PlainNetwork(q: Query) { '|' !in q.network }

  /** What a caller gets: an answer from a flight or from the cache, or its context's error. */
  datatype Outcome =
    | FromFlight(result: LookupResult)
    | FromCache(result: LookupResult, stamped: int, servedAt: int)
    | ContextError

  /** The field of a flight that waiters read, and whether `done` is closed. The query, the client
      that the call was tagged with and the goroutine the flight was created for identify it in the proofs. */
  datatype Flight = Flight(query: Query, client: Option<Addr>, runner: Pid, result: Option<Outcome>, done: bool)

  datatype After = ThenWait(query: Query, flight: FlightId) | ThenReturn(query: Query, outcome: Outcome) | ThenExit

  /** Where a goroutine stands: `LookupNetIP` up to `Returned`, the release closure, and `run`. */
  datatype Task =
    | Find(query: Query, client: Option<Addr>)
    | Enter(query: Query, addr: Addr)
    | Queue(query: Query, slot: SlotId, addr: Addr)
    | Recheck(query: Query, held: Option<SlotId>, client: Option<Addr>)
    | Wait(query: Query, flight: FlightId)
    | Returned(query: Query, outcome: Outcome)
    | Pop(slot: SlotId, after: After)
    | Leave(slot: SlotId, after: After)
    | AwaitGlobal(query: Query, flight: FlightId, held: Option<SlotId>)
    | Looking(query: Query, flight: FlightId, held: Option<SlotId>)
    | Looked(query: Query, flight: FlightId, held: Option<SlotId>, result: LookupResult)
    | Stamp(query: Query, flight: FlightId, held: Option<SlotId>, result: LookupResult)
    | Insert(query: Query, flight: FlightId, held: Option<SlotId>, entry: Entry)
    | Unregister(query: Query, flight: FlightId, held: Option<SlotId>)
    | Close(query: Query, flight: FlightId, held: Option<SlotId>)
    | Exited

  /** One upstream lookup that came back, and when. */
  datatype Lookup = Lookup(query: Query, result: LookupResult, at: int)

  datatype State = State(
    now: int,
    sh: Shared,
    heap: map<FlightId, Flight>,
    global: nat,
    tasks: map<Pid, Task>,
    history: set<Lookup>
  )

  datatype Step =
    | Tick(time: int)
    | Call(p: Pid, query: Query, client: Option<Addr>)
    | DoFind(p: Pid)
    | DoEnter(p: Pid, id: SlotId)
    | TakeSlot(p: Pid)
    | Abandon(p: Pid)
    | DoRecheck(p: Pid, flight: FlightId, runner: Pid)
    | DoPop(p: Pid)
    | DoLeave(p: Pid)
    | WaitDone(p: Pid)
    | WaitCancelled(p: Pid)
    | TakeGlobal(p: Pid)
    | TimeOut(p: Pid)
    | Answer(p: Pid, result: LookupResult)
    | PopGlobal(p: Pid)
    | DoStamp(p: Pid)
    | DoInsert(p: Pid, kept: set<string>)
    | DoUnregister(p: Pid)
    | DoClose(p: Pid)

  function Resume(after: After): Task {
    match after
    case ThenWait(q, f) => Wait(q, f)
    case ThenReturn(q, o) => Returned(q, o)
    case ThenExit => Exited
  }

  /** Calling `release`: a no-op for an untagged lookup, otherwise a pop followed by a leave. */
  function Release(held: Option<SlotId>, after: After): Task {
    match held
    case None => Resume(after)
    case Some(slot) => Pop(slot, after)
  }

  function Serve(q: Query, e: Entry, now: int): After {
    ThenReturn(q, FromCache(e.result, e.stamped, now))
  }

  predicate Enabled(s: State, step: Step) {
    match step
    case Tick(time) => s.now <= time
    case Call(p, q, _) => p !in s.tasks && PlainNetwork(q)
    case DoFind(p) => p in s.tasks && s.tasks[p].Find?
    case DoEnter(p, id) =>
      && p in s.tasks && s.tasks[p].Enter? && id !in s.sh.slots
      && (s.tasks[p].addr in s.sh.clients ==> s.sh.clients[s.tasks[p].addr] in s.sh.slots)
    case TakeSlot(p) =>
      && p in s.tasks && s.tasks[p].Queue? && s.tasks[p].slot in s.sh.slots
      && s.sh.slots[s.tasks[p].slot].sem < MAX_PER_CLIENT
    case Abandon(p) => p in s.tasks && s.tasks[p].Queue?
    case DoRecheck(p, f, r) =>
      p in s.tasks && s.tasks[p].Recheck? && f !in s.heap && r !in s.tasks
    case DoPop(p) =>
      && p in s.tasks && s.tasks[p].Pop? && s.tasks[p].slot in s.sh.slots
      && s.sh.slots[s.tasks[p].slot].sem > 0
    case DoLeave(p) => p in s.tasks && s.tasks[p].Leave? && s.tasks[p].slot in s.sh.slots
    case WaitDone(p) =>
      && p in s.tasks && s.tasks[p].Wait? && s.tasks[p].flight in s.heap
      && s.heap[s.tasks[p].flight].done && s.heap[s.tasks[p].flight].result.Some?
    case WaitCancelled(p) => p in s.tasks && s.tasks[p].Wait?
    case TakeGlobal(p) => p in s.tasks && s.tasks[p].AwaitGlobal? && s.global < MAX_CONCURRENT
    case TimeOut(p) => p in s.tasks && s.tasks[p].AwaitGlobal? && s.tasks[p].flight in s.heap
    case Answer(p, _) => p in s.tasks && s.tasks[p].Looking? && s.tasks[p].flight in s.heap
    case PopGlobal(p) => p in s.tasks && s.tasks[p].Looked? && s.global > 0
    case DoStamp(p) => p in s.tasks && s.tasks[p].Stamp?
    case DoInsert(p, kept) => p in s.tasks && s.tasks[p].Insert? && Survivors(s.sh.entries, s.now, kept)
    case DoUnregister(p) => p in s.tasks && s.tasks[p].Unregister?
    case DoClose(p) => p in s.tasks && s.tasks[p].Close? && s.tasks[p].flight in s.heap
  }

  function SetSem(s: State, slot: SlotId, sem: nat): State
    requires slot in s.sh.slots
  {
    s.(sh := s.sh.(slots := s.sh.slots[slot := s.sh.slots[slot].(sem := sem)]))
  }

  function SetFlight(s: State, f: FlightId, flight: Flight): State {
    s.(heap := s.heap[f := flight])
  }

  function Goto(s: State, p: Pid, t: Task): State {
    s.(tasks := s.tasks[p := t])
  }

  function FindStep(s: State, p: Pid): State
    requires Enabled(s, DoFind(p))
  {
    var t := s.tasks[p];
    match FindIn(s.sh, KeyOf(t.query), s.now)
    case Fresh(e) => Goto(s, p, Resume(Serve(t.query, e, s.now)))
    case Flying(f) => Goto(s, p, Wait(t.query, f))
    case Missing =>
      Goto(s, p, if t.client.Some? then Enter(t.query, t.client.value) else Recheck(t.query, None, None))
  }

  function EnterStep(s: State, p: Pid, id: SlotId): State
    requires Enabled(s, DoEnter(p, id))
  {
    var t := s.tasks[p];
    var (sh, slot) := EnterIn(s.sh, t.addr, id);
    Goto(s.(sh := sh), p, Queue(t.query, slot, t.addr))
  }

  function TakeSlotStep(s: State, p: Pid): State
    requires Enabled(s, TakeSlot(p))
  {
    var t := s.tasks[p];
    Goto(SetSem(s, t.slot, s.sh.slots[t.slot].sem + 1), p, Recheck(t.query, Some(t.slot), Some(t.addr)))
  }

  /** Whether a recheck ends up starting a flight. */
  predicate Starts(s: State, p: Pid)
    requires p in s.tasks && s.tasks[p].Recheck?
  {
    FindIn(s.sh, KeyOf(s.tasks[p].query), s.now).Missing?
  }

  function RecheckStep(s: State, p: Pid): State
    requires p in s.tasks && s.tasks[p].Recheck? && !Starts(s, p)
  {
    var t := s.tasks[p];
    match FindIn(s.sh, KeyOf(t.query), s.now)
    case Fresh(e) => Goto(s, p, Release(t.held, Serve(t.query, e, s.now)))
    case Flying(f) => Goto(s, p, Release(t.held, ThenWait(t.query, f)))
  }

  function StartStep(s: State, p: Pid, f: FlightId, r: Pid): State
    requires Enabled(s, DoRecheck(p, f, r)) && Starts(s, p)
  {
    var t := s.tasks[p];
    State(s.now, RegisterIn(s.sh, KeyOf(t.query), f), s.heap[f := Flight(t.query, t.client, r, None, false)], s.global,
          s.tasks[r := AwaitGlobal(t.query, f, t.held)][p := Wait(t.query, f)], s.history)
  }

  function PopStep(s: State, p: Pid): State
    requires Enabled(s, DoPop(p))
  {
    var t := s.tasks[p];
    Goto(SetSem(s, t.slot, s.sh.slots[t.slot].sem - 1), p, Leave(t.slot, t.after))
  }

  function LeaveStep(s: State, p: Pid): State
    requires Enabled(s, DoLeave(p))
  {
    Goto(s.(sh := LeaveIn(s.sh, s.tasks[p].slot)), p, Resume(s.tasks[p].after))
  }

  function TimeOutStep(s: State, p: Pid): State
    requires Enabled(s, TimeOut(p))
  {
    var t := s.tasks[p];
    Goto(SetFlight(s, t.flight, s.heap[t.flight].(result := Some(ContextError))),
         p, Unregister(t.query, t.flight, t.held))
  }

  function AnswerStep(s: State, p: Pid, result: LookupResult): State
    requires Enabled(s, Answer(p, result))
  {
    var t := s.tasks[p];
    Goto(SetFlight(s.(history := s.history + {Lookup(t.query, result, s.now)}),
                   t.flight, s.heap[t.flight].(result := Some(FromFlight(result)))),
         p, Looked(t.query, t.flight, t.held, result))
  }

  function StampStep(s: State, p: Pid): State
    requires Enabled(s, DoStamp(p))
  {
    var t := s.tasks[p];
    Goto(s, p,
         if t.result.Ttl().Some? then
           Insert(t.query, t.flight, t.held, Entry(t.result, s.now + t.result.Ttl().value, s.now))
         else Unregister(t.query, t.flight, t.held))
  }

  function InsertStep(s: State, p: Pid, kept: set<string>): State
    requires Enabled(s, DoInsert(p, kept))
  {
    var t := s.tasks[p];
    Goto(s.(sh := StoreIn(s.sh, KeyOf(t.query), t.entry, kept)), p, Unregister(t.query, t.flight, t.held))
  }

  function UnregisterStep(s: State, p: Pid): State
    requires Enabled(s, DoUnregister(p))
  {
    var t := s.tasks[p];
    Goto(s.(sh := UnregisterIn(s.sh, KeyOf(t.query))), p, Close(t.query, t.flight, t.held))
  }

  function CloseStep(s: State, p: Pid): State
    requires Enabled(s, DoClose(p))
  {
    var t := s.tasks[p];
    Goto(SetFlight(s, t.flight, s.heap[t.flight].(done := true)), p, Release(t.held, ThenExit))
  }

  function Apply(s: State, step: Step): State
    requires Enabled(s, step)
  {
    match step
    case Tick(time) => s.(now := time)
    case Call(p, q, c) => Goto(s, p, Find(q, c))
    case DoFind(p) => FindStep(s, p)
    case DoEnter(p, id) => EnterStep(s, p, id)
    case TakeSlot(p) => TakeSlotStep(s, p)
    case Abandon(p) => Goto(s, p, Leave(s.tasks[p].slot, ThenReturn(s.tasks[p].query, ContextError)))
    case DoRecheck(p, f, r) => if Starts(s, p) then StartStep(s, p, f, r) else RecheckStep(s, p)
    case DoPop(p) => PopStep(s, p)
    case DoLeave(p) => LeaveStep(s, p)
    case WaitDone(p) => Goto(s, p, Returned(s.tasks[p].query, s.heap[s.tasks[p].flight].result.value))
    case WaitCancelled(p) => Goto(s, p, Returned(s.tasks[p].query, ContextError))
    case TakeGlobal(p) =>
      var t := s.tasks[p];
      Goto(s.(global := s.global + 1), p, Looking(t.query, t.flight, t.held))
    case TimeOut(p) => TimeOutStep(s, p)
    case Answer(p, result) => AnswerStep(s, p, result)
    case PopGlobal(p) =>
      var t := s.tasks[p];
      Goto(s.(global := s.global - 1), p, Stamp(t.query, t.flight, t.held, t.result))
    case DoStamp(p) => StampStep(s, p)
    case DoInsert(p, kept) => InsertStep(s, p, kept)
    case DoUnregister(p) => UnregisterStep(s, p)
    case DoClose(p) => CloseStep(s, p)
  }

  predicate Init(s: State) {
    && s.sh == Shared(map[], map[], map[], map[])
    && s.heap == map[] && s.global == 0 && s.tasks == map[] && s.history == {}
  }

  ghost predicate Next(s: State, s': State) {
    exists step :: Enabled(s, step) && s' == Apply(s, step)
  }

  ghost predicate IsRun(run: seq<State>) {
    && |run| > 0
    && Init(run[0])
    && forall i :: 0 <= i < |run| - 1 ==> Next(run[i], run[i + 1])
  }

  // ---------------------------------------------------------------------------------------------
  // Counting tasks by role

  datatype Role = Holder(slot: SlotId) | User(slot: SlotId) | Upstream

  /** A task's slot record, if it has one. */
  function SlotOf(t: Task): Option<SlotId> {
    match t
    case Queue(_, slot, _) => Some(slot)
    case Pop(slot, _) => Some(slot)
    case Leave(slot, _) => Some(slot)
    case Recheck(_, held, _) => held
    case AwaitGlobal(_, _, held) => held
    case Looking(_, _, held) => held
    case Looked(_, _, held, _) => held
    case Stamp(_, _, held, _) => held
    case Insert(_, _, held, _) => held
    case Unregister(_, _, held) => held
    case Close(_, _, held) => held
    case _ => None
  }

  /** Users wait for a slot, hold one or are on their way out; holders have a token in the channel. */
  predicate Plays(t: Task, role: Role) {
    match role
    case User(slot) => SlotOf(t) == Some(slot)
    case Holder(slot) => SlotOf(t) == Some(slot) && !t.Queue? && !t.Leave?
    case Upstream => t.Looking? || t.Looked?
  }

  function Players(tasks: map<Pid, Task>, role: Role): set<Pid> {
    set p | p in tasks && Plays(tasks[p], role)
  }

  function Count(tasks: map<Pid, Task>, role: Role): nat { |Players(tasks, role)| }

  lemma CountGoto(tasks: map<Pid, Task>, p: Pid, t: Task, role: Role)
    ensures Count(tasks[p := t], role) ==
            Count(tasks, role)
            - (if p in tasks && Plays(tasks[p], role) then 1 else 0)
            + (if Plays(t, role) then 1 else 0)
  {
    var others := Players(tasks, role) - {p};
    var after := Players(tasks[p := t], role);
    assert after == if Plays(t, role) then others + {p} else others;
    assert Players(tasks, role) == if p in tasks && Plays(tasks[p], role) then others + {p} else others;
  }

  // ---------------------------------------------------------------------------------------------
  // Invariants

  /** A slot record counts its users and its holders exactly, and is in the map while it has users. */
  predicate RecordInv(s: State, slot: SlotId)
    requires slot in s.sh.slots
  {
    var record := s.sh.slots[slot];
    && record.users == Count(s.tasks, User(slot))
    && record.sem == Count(s.tasks, Holder(slot))
    && record.sem <= MAX_PER_CLIENT
    && (record.users > 0 <==> record.client in s.sh.clients && s.sh.clients[record.client] == slot)
  }

  predicate PointersInv(s: State) {
    && (forall c :: c in s.sh.clients ==>
          s.sh.clients[c] in s.sh.slots && s.sh.slots[s.sh.clients[c]].client == c)
    && (forall p :: p in s.tasks && SlotOf(s.tasks[p]).Some? ==> SlotOf(s.tasks[p]).value in s.sh.slots)
  }

  predicate SlotsInv(s: State) {
    && (forall slot :: slot in s.sh.slots ==> RecordInv(s, slot))
    && PointersInv(s)
  }

  predicate GlobalInv(s: State) {
    s.global == Count(s.tasks, Upstream) && s.global <= MAX_CONCURRENT
  }

  /** A call that is tagged with a client uses a slot of that client, any other uses none. */
  predicate SlotFor(s: State, held: Option<SlotId>, client: Option<Addr>) {
    && (held.Some? <==> client.Some?)
    && (held.Some? ==> held.value in s.sh.slots && s.sh.slots[held.value].client == client.value)
  }

  predicate Tagged(s: State, t: Task) {
    && (t.Queue? ==> SlotFor(s, Some(t.slot), Some(t.addr)))
    && (t.Recheck? ==> SlotFor(s, t.held, t.client))
    && (Running(t) ==> t.flight in s.heap && SlotFor(s, t.held, s.heap[t.flight].client))
  }

  predicate TagsInv(s: State) { forall p :: p in s.tasks ==> Tagged(s, s.tasks[p]) }

  /** `run` up to the deletion of its flight from the map. */
  predicate Registered(t: Task) {
    t.AwaitGlobal? || t.Looking? || t.Looked? || t.Stamp? || t.Insert? || t.Unregister?
  }

  predicate Running(t: Task) { Registered(t) || t.Close? }

  /** `run` before it has stored. */
  predicate Unstored(t: Task) { Registered(t) && !t.Unregister? }

  /** `p` runs the flight it points at, which is still open. */
  predicate OwnsFlight(s: State, p: Pid)
    requires p in s.tasks && Running(s.tasks[p])
  {
    var t := s.tasks[p];
    && t.flight in s.heap
    && s.heap[t.flight].runner == p && s.heap[t.flight].query == t.query && !s.heap[t.flight].done
    && (Registered(t) ==> KeyOf(t.query) in s.sh.flights && s.sh.flights[KeyOf(t.query)] == t.flight)
  }

  /** The goroutine of an open flight is still there to close it. */
  predicate Attended(s: State, f: FlightId)
    requires f in s.heap
  {
    var r := s.heap[f].runner;
    r in s.tasks && Running(s.tasks[r]) && s.tasks[r].flight == f
  }

  /** A flight is in the map exactly while its own `run` has yet to delete it, and open exactly
      while its own `run` has yet to close it. */
  predicate FlightsInv(s: State) {
    && (forall p :: p in s.tasks && Running(s.tasks[p]) ==> OwnsFlight(s, p))
    && (forall f :: f in s.heap && !s.heap[f].done ==> Attended(s, f))
    && (forall k :: k in s.sh.flights ==>
          var f := s.sh.flights[k];
          && f in s.heap && Attended(s, f) && Registered(s.tasks[s.heap[f].runner])
          && KeyOf(s.heap[f].query) == k)
  }

  /** No entry for a key is fresh while a flight for it has not stored yet. */
  predicate StaleInv(s: State) {
    && (forall p :: p in s.tasks && Unstored(s.tasks[p]) && KeyOf(s.tasks[p].query) in s.sh.entries ==>
          s.sh.entries[KeyOf(s.tasks[p].query)].expires <= s.now)
    && |s.sh.entries| <= MAX_ENTRIES
  }

  predicate Recorded(s: State, q: Query, result: LookupResult, limit: int) {
    exists l :: l in s.history && l.query == q && l.result == result && l.at <= limit
  }

  /** The outcome comes from an upstream lookup of that very query, and from the cache only while young. */
  predicate Genuine(s: State, q: Query, o: Outcome) {
    match o
    case ContextError => true
    case FromFlight(result) => Recorded(s, q, result, s.now)
    case FromCache(result, stamped, servedAt) =>
      && Recorded(s, q, result, stamped)
      && result.Ttl().Some?
      && stamped <= servedAt <= s.now
      && servedAt < stamped + result.Ttl().value
  }

  predicate GenuineEntry(s: State, q: Query, e: Entry) {
    && e.result.Ttl().Some?
    && e.expires == e.stamped + e.result.Ttl().value
    && e.stamped <= s.now
    && Recorded(s, q, e.result, e.stamped)
  }

  predicate GenuineAfter(s: State, a: After) {
    match a
    case ThenWait(q, f) => PlainNetwork(q) && f in s.heap && s.heap[f].query == q
    case ThenReturn(q, o) => PlainNetwork(q) && Genuine(s, q, o)
    case ThenExit => true
  }

  predicate GenuineTask(s: State, t: Task) {
    match t
    case Wait(q, f) => GenuineAfter(s, ThenWait(q, f))
    case Returned(q, o) => GenuineAfter(s, ThenReturn(q, o))
    case Pop(_, a) => GenuineAfter(s, a)
    case Leave(_, a) => GenuineAfter(s, a)
    case Looked(q, _, _, result) => PlainNetwork(q) && Recorded(s, q, result, s.now)
    case Stamp(q, _, _, result) => PlainNetwork(q) && Recorded(s, q, result, s.now)
    case Insert(q, _, _, e) => PlainNetwork(q) && GenuineEntry(s, q, e)
    case Exited => true
    case _ => PlainNetwork(t.query)
  }

  predicate TasksInv(s: State) { forall p :: p in s.tasks ==> GenuineTask(s, s.tasks[p]) }

  /** `run` once the lookup is over: the flight has its result. */
  predicate Over(t: Task) { t.Looked? || t.Stamp? || t.Insert? || t.Unregister? || t.Close? }

  predicate ResultsInv(s: State) {
    && (forall p :: p in s.tasks && Over(s.tasks[p]) ==>
          s.tasks[p].flight in s.heap && s.heap[s.tasks[p].flight].result.Some?)
    && (forall f :: f in s.heap && s.heap[f].done ==> s.heap[f].result.Some?)
  }

  predicate HeapInv(s: State) {
    forall f :: f in s.heap ==>
      && PlainNetwork(s.heap[f].query)
      && (s.heap[f].result.Some? ==>
            !s.heap[f].result.value.FromCache? && Genuine(s, s.heap[f].query, s.heap[f].result.value))
  }

  ghost predicate EntriesInv(s: State) {
    forall k :: k in s.sh.entries ==>
      exists q :: KeyOf(q) == k && PlainNetwork(q) && GenuineEntry(s, q, s.sh.entries[k])
  }

  /** Everything a caller can be given is genuine, and a flight has its result before it leaves the map. */
  ghost predicate AnswersInv(s: State) {
    TasksInv(s) && ResultsInv(s) && HeapInv(s) && EntriesInv(s)
  }

  ghost predicate Inv(s: State) {
    SlotsInv(s) && TagsInv(s) && GlobalInv(s) && FlightsInv(s) && StaleInv(s) && AnswersInv(s)
  }
}
