/** What the resolver promises, in every state of every run. */
module DnsSafety {
  import opened Basics
  import opened Netip
  import opened DnsCache
  import opened DnsProtocol
  import opened DnsInvariants

  lemma {:induction false} RunInv(run: seq<State>, i: nat)
    requires IsRun(run) && i < |run|
    ensures Inv(run[i])
  {
    if i == 0 {
      assert Players(run[0].tasks, Upstream) == {};
    } else {
      RunInv(run, i - 1);
      assert Next(run[i - 1], run[i - 1 + 1]);
      var step :| Enabled(run[i - 1], step) && run[i] == Apply(run[i - 1], step);
      InvStep(run[i - 1], step);
    }
  }

  /** The unfinished flights of lookups that were called with this client's tag. */
  function ClientFlights(s: State, client: Addr): set<Pid> {
    set p | p in s.tasks && Running(s.tasks[p]) && TaggedWith(s, s.tasks[p].flight, client)
  }

  predicate TaggedWith(s: State, f: FlightId, client: Addr) { f in s.heap && s.heap[f].client == Some(client) }

  predicate BelongsTo(s: State, t: Task, client: Addr) {
    SlotOf(t).Some? && SlotOf(t).value in s.sh.slots && s.sh.slots[SlotOf(t).value].client == client
  }

  predicate TwoLive(a: Slots, b: Slots) { a.client == b.client && a.users > 0 && b.users > 0 }

  /** At most one record of a client has users, and exactly that one is in the map, although
      records are dropped and recreated; its counts are those of the tasks using it. */
  lemma OneLiveRecord(run: seq<State>, i: nat, slot: SlotId)
    requires IsRun(run) && i < |run| && slot in run[i].sh.slots
    ensures var s, record := run[i], run[i].sh.slots[slot];
            && record.users == Count(s.tasks, User(slot)) >= Count(s.tasks, Holder(slot)) == record.sem
            && (record.users > 0 <==> record.client in s.sh.clients && s.sh.clients[record.client] == slot)
            && forall other :: other in s.sh.slots && TwoLive(record, s.sh.slots[other]) ==> other == slot
  {
    RunInv(run, i);
    var s := run[i];
    assert RecordInv(s, slot);
    SubsetSize(Players(s.tasks, Holder(slot)), Players(s.tasks, User(slot)));
    forall other | other in s.sh.slots && TwoLive(s.sh.slots[slot], s.sh.slots[other])
      ensures other == slot
    {
      assert RecordInv(s, other);
    }
  }

  /** A client never has more than 32 lookups under way. */
  lemma ClientCap(run: seq<State>, i: nat, client: Addr)
    requires IsRun(run) && i < |run|
    ensures |ClientFlights(run[i], client)| <= MAX_PER_CLIENT
  {
    RunInv(run, i);
    ClientCapIn(run[i], client);
  }

  lemma ClientCapIn(s: State, client: Addr)
    requires SlotsInv(s) && TagsInv(s)
    ensures |ClientFlights(s, client)| <= MAX_PER_CLIENT
  {
    var flights := ClientFlights(s, client);
    if flights != {} {
      var first :| first in flights;
      var slot := SlotOf(s.tasks[first]).value;
      HoldsOwnSlot(s, first, client);
      forall p | p in flights
        ensures p in Players(s.tasks, Holder(slot))
      {
        HoldsOwnSlot(s, p, client);
        SharedRecord(s, first, p, client);
      }
      SubsetSize(flights, Players(s.tasks, Holder(slot)));
      assert RecordInv(s, slot);
    }
  }

  lemma HoldsOwnSlot(s: State, p: Pid, client: Addr)
    requires TagsInv(s) && p in ClientFlights(s, client)
    ensures BelongsTo(s, s.tasks[p], client) && Plays(s.tasks[p], Holder(SlotOf(s.tasks[p]).value))
  {
    assert Tagged(s, s.tasks[p]);
  }

  lemma SharedRecord(s: State, p: Pid, r: Pid, client: Addr)
    requires SlotsInv(s) && p in s.tasks && r in s.tasks
    requires BelongsTo(s, s.tasks[p], client) && BelongsTo(s, s.tasks[r], client)
    ensures SlotOf(s.tasks[p]) == SlotOf(s.tasks[r])
  {
    var a, b := SlotOf(s.tasks[p]).value, SlotOf(s.tasks[r]).value;
    assert RecordInv(s, a) && RecordInv(s, b);
    assert p in Players(s.tasks, User(a)) && r in Players(s.tasks, User(b));
  }

  function UpstreamCalls(s: State): set<Pid> { set p | p in s.tasks && s.tasks[p].Looking? }

  /** Never more than 256 upstream lookups at once. */
  lemma UpstreamCap(run: seq<State>, i: nat)
    requires IsRun(run) && i < |run|
    ensures |UpstreamCalls(run[i])| <= MAX_CONCURRENT
  {
    RunInv(run, i);
    SubsetSize(UpstreamCalls(run[i]), Players(run[i].tasks, Upstream));
  }

  /** One flight per key: upstream lookups of one query never overlap, nor does anything else a
      flight does before it leaves the map. */
  lemma SingleFlight(run: seq<State>, i: nat, p: Pid, r: Pid)
    requires IsRun(run) && i < |run|
    requires p in run[i].tasks && Registered(run[i].tasks[p])
    requires r in run[i].tasks && Registered(run[i].tasks[r])
    requires run[i].tasks[p].query == run[i].tasks[r].query
    ensures p == r
  {
    RunInv(run, i);
  }

  /** The flight a goroutine takes out of the map is its own. */
  lemma UnregistersOwnFlight(run: seq<State>, i: nat, p: Pid)
    requires IsRun(run) && i < |run|
    requires p in run[i].tasks && run[i].tasks[p].Unregister?
    ensures var t := run[i].tasks[p];
            && KeyOf(t.query) in run[i].sh.flights && run[i].sh.flights[KeyOf(t.query)] == t.flight
            && t.flight in run[i].heap && run[i].heap[t.flight].runner == p
  {
    RunInv(run, i);
  }

  /** Nothing is looked up upstream while the cache could answer. */
  lemma NoNeedlessLookup(run: seq<State>, i: nat, p: Pid)
    requires IsRun(run) && i < |run|
    requires p in run[i].tasks && Unstored(run[i].tasks[p])
    ensures FindIn(run[i].sh, KeyOf(run[i].tasks[p].query), run[i].now) == Flying(run[i].tasks[p].flight)
  {
    RunInv(run, i);
  }

  /** Every answer given to a caller is the result of an upstream lookup of the very same query,
      made before the answer; one from the cache is younger than the lifetime of its class. */
  lemma AnswersAreGenuine(run: seq<State>, i: nat, p: Pid)
    requires IsRun(run) && i < |run|
    requires p in run[i].tasks && run[i].tasks[p].Returned?
    ensures var s, t := run[i], run[i].tasks[p];
            match t.outcome
            case ContextError => true
            case FromFlight(result) => exists l :: l in s.history && l.query == t.query && l.result == result
            case FromCache(result, stamped, servedAt) =>
              && (exists l :: l in s.history && l.query == t.query && l.result == result && l.at <= stamped)
              && result.Ttl().Some? && stamped <= servedAt < stamped + result.Ttl().value
  {
    RunInv(run, i);
    assert GenuineTask(run[i], run[i].tasks[p]);
  }

  /** The cache holds results of upstream lookups only, so no context error, and never too many. */
  lemma CacheHoldsLookups(run: seq<State>, i: nat, key: string)
    requires IsRun(run) && i < |run| && key in run[i].sh.entries
    ensures |run[i].sh.entries| <= MAX_ENTRIES
    ensures exists l :: l in run[i].history && KeyOf(l.query) == key && l.result == run[i].sh.entries[key].result
                        && l.result.Ttl().Some?
                        && l.at + l.result.Ttl().value <= run[i].sh.entries[key].expires
                        && run[i].sh.entries[key].expires <= run[i].now + l.result.Ttl().value
  {
    RunInv(run, i);
    var s := run[i];
    var q :| KeyOf(q) == key && PlainNetwork(q) && GenuineEntry(s, q, s.sh.entries[key]);
    var l :| l in s.history && l.query == q && l.result == s.sh.entries[key].result
             && l.at <= s.sh.entries[key].stamped;
    assert KeyOf(l.query) == key;
  }

  /** Storing an answer costs at most one other answer that could still have been served. */
  lemma EvictsAtMostOne(run: seq<State>, i: nat, p: Pid, kept: set<string>)
    requires IsRun(run) && i < |run| && Enabled(run[i], DoInsert(p, kept))
    ensures |LiveKeys(run[i].sh.entries, run[i].now) - Apply(run[i], DoInsert(p, kept)).sh.entries.Keys| <= 1
  {
    RunInv(run, i);
    Evicted(run[i].sh, run[i].now, KeyOf(run[i].tasks[p].query), run[i].tasks[p].entry, kept);
  }

  lemma Evicted(sh: Shared, now: int, key: string, e: Entry, kept: set<string>)
    requires |sh.entries| <= MAX_ENTRIES && Survivors(sh.entries, now, kept)
    ensures |LiveKeys(sh.entries, now) - StoreIn(sh, key, e, kept).entries.Keys| <= 1
  {
    var live, after := LiveKeys(sh.entries, now), StoreIn(sh, key, e, kept).entries.Keys;
    SubsetSize(live, sh.entries.Keys);
    if |sh.entries| >= MAX_ENTRIES && |live| >= MAX_ENTRIES {
      assert live == kept + (live - kept);
      SubsetSize(live - after, live - kept);
    } else {
      assert live - after == {};
    }
  }

  /** A flight's answer is fixed once its channel is closed: every waiter reads the same one. */
  lemma {:induction false} AnswerIsFixed(run: seq<State>, i: nat, j: nat, f: FlightId)
    requires IsRun(run) && i <= j < |run|
    requires f in run[i].heap && run[i].heap[f].done
    ensures f in run[j].heap && run[j].heap[f] == run[i].heap[f] && run[j].heap[f].result.Some?
    decreases j
  {
    if i == j {
      RunInv(run, i);
    } else {
      AnswerIsFixed(run, i, j - 1, f);
      RunInv(run, j - 1);
      assert Next(run[j - 1], run[j - 1 + 1]);
      var step :| Enabled(run[j - 1], step) && run[j] == Apply(run[j - 1], step);
      DoneFlightKept(run[j - 1], step, f);
    }
  }

  lemma DoneFlightKept(s: State, step: Step, f: FlightId)
    requires FlightsInv(s) && Enabled(s, step) && f in s.heap && s.heap[f].done
    ensures f in Apply(s, step).heap && Apply(s, step).heap[f] == s.heap[f]
  {
    if step.TimeOut? || step.Answer? || step.DoClose? {
      assert Running(s.tasks[step.p]);
    }
  }

  /** A caller waits for a flight that is closed or still has its own goroutine to close it, and
      that closing flight already has its answer: nobody waits for an abandoned flight. */
  lemma NobodyWaitsInVain(run: seq<State>, i: nat, p: Pid)
    requires IsRun(run) && i < |run| && p in run[i].tasks && run[i].tasks[p].Wait?
    ensures var s, f := run[i], run[i].tasks[p].flight;
            && f in s.heap && s.heap[f].query == run[i].tasks[p].query
            && if s.heap[f].done then Enabled(s, WaitDone(p))
               else s.heap[f].runner in s.tasks && Running(s.tasks[s.heap[f].runner])
                    && s.tasks[s.heap[f].runner].flight == f
  {
    RunInv(run, i);
    assert GenuineTask(run[i], run[i].tasks[p]);
  }
}
