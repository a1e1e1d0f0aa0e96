/**
 The caching resolver of `internal/dnscache`: the data it shares between goroutines, the effect of
 each of its critical sections, and the imperative form of those sections.
 */
module DnsCache {
  import opened Basics
  import opened Netip

  const SECOND := 1_000_000_000
  const POSITIVE_TTL := 30 * SECOND
  const NEGATIVE_TTL := 5 * SECOND
  const FAILURE_TTL := 3 * SECOND
  const MAX_ENTRIES := 10_000
  const MAX_CONCURRENT := 256
  const MAX_PER_CLIENT := 32

  type SlotId = nat
  type FlightId = nat

  /** What `next.LookupNetIP` can return: addresses (possibly none), a not-found error or another error. */
  datatype LookupResult = Addresses(addrs: seq<Addr>) | NotFound(error: string) | Failed(error: string) {
    /** How long `store` keeps the result; an empty answer without an error is not kept. */
    function Ttl(): Option<int> {
      match this
      case Addresses(addrs) => if |addrs| > 0 then Some(POSITIVE_TTL) else None
      case NotFound(_) => Some(NEGATIVE_TTL)
      case Failed(_) => Some(FAILURE_TTL)
    }
  }

  /** `stamped` is the clock reading `expires` was computed from; only the proofs use it. */
  datatype Entry = Entry(result: LookupResult, expires: int, stamped: int)

  /** The record of one client's slots: a channel holding `sem` tokens, and its user count. */
  datatype Slots = Slots(client: Addr, sem: nat, users: int)

  /** The resolver's maps, and the slot records reachable from them or from a running goroutine. */
  datatype Shared = Shared(
    entries: map<string, Entry>,
    flights: map<string, FlightId>,
    clients: map<Addr, SlotId>,
    slots: map<SlotId, Slots>
  )

  datatype Found = Fresh(entry: Entry) | Flying(flight: FlightId) | Missing

  function FindIn(sh: Shared, key: string, now: int): Found {
    if key in sh.entries && now < sh.entries[key].expires then Fresh(sh.entries[key])
    else if key in sh.flights then Flying(sh.flights[key])
    else Missing
  }

  /** Joining a client's record, allocated as `id` if the client has none. */
  function EnterIn(sh: Shared, client: Addr, id: SlotId): (Shared, SlotId)
    requires client in sh.clients ==> sh.clients[client] in sh.slots
  {
    if client in sh.clients then
      var slot := sh.clients[client];
      (sh.(slots := sh.slots[slot := sh.slots[slot].(users := sh.slots[slot].users + 1)]), slot)
    else
      (sh.(clients := sh.clients[client := id], slots := sh.slots[id := Slots(client, 0, 1)]), id)
  }

  /** Leaving a record; the last user takes it out of the map. */
  function LeaveIn(sh: Shared, slot: SlotId): Shared
    requires slot in sh.slots
  {
    var record := sh.slots[slot];
    var slots := sh.slots[slot := record.(users := record.users - 1)];
    if record.users == 1 then sh.(slots := slots, clients := sh.clients - {record.client})
    else sh.(slots := slots)
  }

  function RegisterIn(sh: Shared, key: string, f: FlightId): Shared {
    sh.(flights := sh.flights[key := f])
  }

  function UnregisterIn(sh: Shared, key: string): Shared {
    sh.(flights := sh.flights - {key})
  }

  function LiveKeys(entries: map<string, Entry>, now: int): set<string> {
    set k | k in entries && now < entries[k].expires
  }

  /**
   Which keys may survive making room for one more entry: all of them below the limit, otherwise
   the live ones, minus as many arbitrary ones as it takes to get below the limit.
   */
  predicate Survivors(entries: map<string, Entry>, now: int, kept: set<string>) {
    var live := LiveKeys(entries, now);
    if |entries| < MAX_ENTRIES then kept == entries.Keys
    else if |live| < MAX_ENTRIES then kept == live
    else kept <= live && |kept| == MAX_ENTRIES - 1
  }

  function StoreIn(sh: Shared, key: string, e: Entry, kept: set<string>): Shared {
    sh.(entries := (map k | k in sh.entries && k in kept :: sh.entries[k])[key := e])
  }

  /** The resolver's mutable fields; each method is one section run with `mu` held. */
  class Resolver {
    var entries: map<string, Entry>
    var flights: map<string, FlightId>
    var clients: map<Addr, SlotId>
    var slots: map<SlotId, Slots>

    function State(): Shared
      reads this
    {
      Shared(entries, flights, clients, slots)
    }

    constructor ()
      ensures State() == Shared(map[], map[], map[], map[])
    {
      entries, flights, clients, slots := map[], map[], map[], map[];
    }

    method FindLocked(key: string, now: int) returns (flight: Option<FlightId>, cached: Option<Entry>)
      ensures flight.Some? ==> FindIn(State(), key, now) == Flying(flight.value)
      ensures cached.Some? ==> FindIn(State(), key, now) == Fresh(cached.value)
      ensures flight.None? && cached.None? <==> FindIn(State(), key, now) == Missing
    {
      flight, cached := None, None;
      if key in entries {
        var e := entries[key];
        if now < e.expires {
          cached := Some(e);
          return;
        }
      }
      if key in flights {
        flight := Some(flights[key]);
      }
    }

    method Enter(client: Addr, id: SlotId) returns (slot: SlotId)
      requires client in clients ==> clients[client] in slots
      modifies this
      ensures (State(), slot) == EnterIn(old(State()), client, id)
    {
      if client in clients {
        slot := clients[client];
      } else {
        slot := id;
        slots := slots[slot := Slots(client, 0, 0)];
        clients := clients[client := slot];
      }
      slots := slots[slot := slots[slot].(users := slots[slot].users + 1)];
      assert slots == EnterIn(old(State()), client, id).0.slots;
    }

    method Leave(slot: SlotId)
      requires slot in slots
      modifies this
      ensures State() == LeaveIn(old(State()), slot)
    {
      slots := slots[slot := slots[slot].(users := slots[slot].users - 1)];
      if slots[slot].users == 0 {
        clients := clients - {slots[slot].client};
      }
    }

    /** The second look, with a slot in hand: a flight is registered only if there is still nothing to wait for or serve. */
    method Recheck(key: string, f: FlightId, now: int) returns (flight: Option<FlightId>, cached: Option<Entry>)
      modifies this
      ensures match FindIn(old(State()), key, now)
              case Fresh(e) => State() == old(State()) && flight == None && cached == Some(e)
              case Flying(g) => State() == old(State()) && flight == Some(g) && cached == None
              case Missing => State() == RegisterIn(old(State()), key, f) && flight == Some(f) && cached == None
      ensures FindIn(State(), key, now) == if cached.Some? then Fresh(cached.value) else Flying(flight.value)
    {
      flight, cached := FindLocked(key, now);
      if flight.None? && cached.None? {
        flights := flights[key := f];
        flight := Some(f);
      }
    }

    method Unregister(key: string)
      modifies this
      ensures State() == UnregisterIn(old(State()), key)
    {
      flights := flights - {key};
    }

    /** `store`: drops what has expired and then arbitrary entries, but only when the cache is full. */
    method Store(key: string, e: Entry, now: int) returns (ghost kept: set<string>)
      modifies this
      ensures Survivors(old(entries), now, kept)
      ensures State() == StoreIn(old(State()), key, e, kept)
    {
      if |entries| >= MAX_ENTRIES {
        DropExpired(now);
        assert entries.Keys == LiveKeys(old(entries), now);
        assert |entries| == |LiveKeys(old(entries), now)|;
        DropArbitrary();
      }
      kept := entries.Keys;
      assert |kept| == |entries|;
      assert entries == map k | k in old(entries) && k in kept :: old(entries)[k];
      entries := entries[key := e];
    }

    method DropExpired(now: int)
      modifies this`entries
      ensures entries == map k | k in LiveKeys(old(entries), now) :: old(entries)[k]
    {
      var todo := entries.Keys;
      while todo != {}
        invariant todo <= entries.Keys <= old(entries).Keys
        invariant forall k :: k in entries ==> entries[k] == old(entries)[k]
        invariant forall k :: k in old(entries) && now < old(entries)[k].expires ==> k in entries
        invariant forall k :: k in entries && k !in todo ==> now < entries[k].expires
        decreases |todo|
      {
        var k :| k in todo;
        todo := todo - {k};
        if !(now < entries[k].expires) {
          entries := entries - {k};
        }
      }
    }

    method DropArbitrary()
      modifies this`entries
      ensures entries.Keys <= old(entries).Keys
      ensures forall k :: k in entries ==> entries[k] == old(entries)[k]
      ensures if |old(entries)| < MAX_ENTRIES then entries == old(entries) else |entries| == MAX_ENTRIES - 1
    {
      while |entries| >= MAX_ENTRIES
        invariant entries.Keys <= old(entries).Keys
        invariant forall k :: k in entries ==> entries[k] == old(entries)[k]
        invariant |old(entries)| < MAX_ENTRIES ==> entries == old(entries)
        invariant |old(entries)| >= MAX_ENTRIES ==> |entries| >= MAX_ENTRIES - 1
        decreases |entries|
      {
        var k :| k in entries.Keys;
        ghost var before := entries;
        entries := entries - {k};
        assert entries.Keys + {k} == before.Keys;
      }
    }
  }
}
