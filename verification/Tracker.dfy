/**
 The tracker as the program keeps it: client records are objects that the two maps and the release
 functions point at, and every call changes them in place. Each method is proved to do what the
 corresponding call of module `Limits` does, so what is proved about runs there holds here.
 */
module Tracker {
  import opened Basics
  import opened Netip
  import opened Buckets
  import opened Limits
  import opened LimitsConnections

  class Client {
    var conns: int
    var seen: real
    var requests: Bucket
    var logs: Bucket
    var suppressed: map<LogKey, int>
    var other: int

    function View(): Record
      reads this
    {
      Record(conns, seen, requests, logs, suppressed, other)
    }

    constructor ()
      ensures View() == NEW_RECORD
    {
      conns, seen, requests, logs, suppressed, other := 0, 0.0, FRESH, FRESH, map[], 0;
    }

    method Log(now: real, key: LogKey) returns (written: bool)
      modifies this
      ensures (written, View()) == LogLine(old(View()), key, now)
    {
      var (granted, left) := Take(logs, now, LOG_RATE, LOG_BURST);
      logs := left;
      if granted {
        return true;
      }
      if key in suppressed || |suppressed| < MAX_SUPPRESSED_KEYS {
        suppressed := suppressed[key := (if key in suppressed then suppressed[key] else 0) + 1];
      } else {
        other := other + 1;
      }
      written := false;
    }
  }

  /** The closure `Acquire` returns: it captures the record, not the address. */
  class ReleaseFunc {
    const client: Client
    var done: bool
    ghost const id: nat

    constructor (client: Client, ghost id: nat)
      ensures this.client == client && !done && this.id == id
    {
      this.client := client;
      this.done := false;
      this.id := id;
    }
  }

  class Tracker {
    var clients: map<Addr, Client>
    var overflow: map<Prefix, Client>
    var unknown: Client
    var total: int
    /** Both maps in one. */
    ghost var table: map<Place, Client>
    /** The release functions handed out and not called yet, and what they are for. */
    ghost var handles: map<nat, Handle>
    ghost var funcs: map<nat, ReleaseFunc>

    ghost predicate Tied()
      reads this
    {
      && (forall ip :: Own(ip) in table <==> ip in clients)
      && (forall ip :: ip in clients ==> table[Own(ip)] == clients[ip])
      && (forall n :: Shared(n) in table <==> n in overflow)
      && (forall n :: n in overflow ==> table[Shared(n)] == overflow[n])
    }

    ghost function Records(): set<Client>
      reads `table, `unknown
    {
      {unknown} + table.Values
    }

    /** The tracker as a value. */
    ghost function Book(): State
      reads `table, `unknown, `total, `handles, Records()
    {
      State(View(), unknown.View(), total, handles)
    }

    ghost function View(): (records: map<Place, Record>)
      reads `table, table.Values
      ensures records.Keys == table.Keys
    {
      map p | p in table :: table[p].View()
    }

    /** No record is in two places. */
    ghost predicate Distinct()
      reads `table, `unknown
    {
      && (forall p, q :: p in table && q in table && table[p] == table[q] ==> p == q)
      && unknown !in table.Values
    }

    /** A release function that has not been called points at the record in the map. */
    ghost predicate Anchored()
      reads `table, `handles, `funcs, funcs.Values
    {
      && funcs.Keys == handles.Keys
      && (forall i :: i in funcs ==>
            && funcs[i].id == i && !funcs[i].done
            && handles[i].place in table && table[handles[i].place] == funcs[i].client)
    }

    /** A record that a release function points at has connections. */
    ghost predicate InUse()
      requires Anchored()
      reads `table, `handles, `funcs, funcs.Values, table.Values
    {
      forall i :: i in funcs ==> table[handles[i].place].conns > 0
    }

    lemma CountedIsInUse()
      requires Anchored() && CountsInv(Book())
      ensures InUse()
    {
      forall i | i in funcs
        ensures table[handles[i].place].conns > 0
      {
        assert i in HeldAt(Book(), handles[i].place);
        assert Book().records[handles[i].place].conns == |HeldAt(Book(), handles[i].place)|;
      }
    }

    ghost predicate Valid()
      reads this, Records(), funcs.Values
    {
      Tied() && Distinct() && Anchored()
    }

    /** Between calls: the records also count the release functions that point at them. */
    ghost predicate Consistent()
      reads this, Records(), funcs.Values
    {
      Valid() && CountsInv(Book())
    }

    constructor ()
      ensures Consistent() && Book() == EMPTY
      ensures fresh(unknown)
    {
      clients, overflow, total := map[], map[], 0;
      unknown := new Client();
      table, handles, funcs := map[], map[], map[];
    }

    // -------------------------------------------------------------------------------------------
    // The calls

    /** A refused call leaves no release function; a granted one returns a new one. */
    method Acquire(ip: Addr, limit: Limit, maxTotal: int, now: real)
      returns (release: ReleaseFunc?, reply: Reply, ghost h: nat)
      requires Consistent()
      modifies this, Records()
      ensures Consistent() && h !in old(handles) && Book() == Acquired(old(Book()), h, ip, limit, maxTotal, now)
      ensures reply == AcquireReply(old(Book()), ip, limit, maxTotal, now)
      ensures reply == TotalFull <==> maxTotal > 0 && |old(handles)| >= maxTotal
      ensures release != null <==> reply == Yes
      ensures release != null ==> fresh(release) && funcs == old(funcs)[h := release]
    {
      h := FreshNumber(handles.Keys);
      release, reply := DoAcquire(ip, limit, maxTotal, now, h);
      CountsAcquired(old(Book()), h, ip, limit, maxTotal, now);
    }

    /** Calling a release function; only the first call counts. */
    method Release(f: ReleaseFunc, now: real)
      requires Consistent()
      requires !f.done ==> f.id in funcs && funcs[f.id] == f
      modifies `total, `handles, `funcs, f, Records()
      ensures Consistent() && f.done
      ensures old(f.done) ==> Book() == old(Book())
      ensures !old(f.done) ==> Book() == GivenBack(old(Book()), f.id, now)
    {
      DoRelease(f, now);
      CountsGivenBack(old(Book()), f.id, now);
    }

    method Allow(ip: Addr, limit: Limit, now: real) returns (granted: bool)
      requires Consistent()
      modifies `clients, `overflow, `table, Records()
      ensures Consistent() && Book() == Allowed(old(Book()), ip, limit, now)
      ensures granted == TakeFor(old(Book()), ip, limit, now).0
    {
      granted := DoAllow(ip, limit, now);
      CountsAllow(old(Book()), ip, limit, now);
    }

    method Log(ip: Addr, key: LogKey, now: real) returns (written: bool)
      requires Consistent()
      modifies `clients, `overflow, `table, Records()
      ensures Consistent() && Book() == Put(old(Book()), ip, LogLine(Limits.Get(old(Book()), ip, now), key, now).1)
      ensures written == LogLine(Limits.Get(old(Book()), ip, now), key, now).0
    {
      written := DoLog(ip, key, now);
      CountsLog(old(Book()), ip, key, now);
    }

    method LogUnknown(text: string, now: real) returns (written: bool)
      requires Consistent()
      modifies unknown
      ensures Consistent() && written == LogLine(old(unknown.View()), LogKey("deny", text), now).0
      ensures Book() == old(Book()).(unknown := LogLine(old(unknown.View()), LogKey("deny", text), now).1)
    {
      written := DoLogUnknown(text, now);
      CountsUnknown(old(Book()), LogLine(old(unknown.View()), LogKey("deny", text), now).1);
    }

    /** No record that a release function points at is forgotten. */
    method Sweep(now: real) returns (out: seq<(Source, Summary)>)
      requires Consistent()
      modifies `clients, `overflow, `table, Records()
      ensures Consistent() && Book() == SweptState(old(Book()), now, None)
      ensures Lists(out, Summaries(old(Book())))
    {
      CountedIsInUse();
      out := DoSweep(now);
      CountsSweep(old(Book()), now);
    }

    /** The connections that are reported for an address, and all. */
    method Connections(ip: Addr) returns (client: int, all: int)
      requires Consistent()
      ensures client == Report(Book(), ip) && all == |handles|
    {
      client, all := 0, total;
      if ip in clients {
        client := clients[ip].conns;
      } else if OverflowPrefix(ip) in overflow {
        client := overflow[OverflowPrefix(ip)].conns;
      }
    }

    // -------------------------------------------------------------------------------------------
    // How they are done

    /** Where the record for an address is, or would be put. */
    ghost function Where(ip: Addr): Place
      reads `clients
    {
      if ip in clients || |clients| < MAX_CLIENTS then Own(ip) else Shared(OverflowPrefix(ip))
    }

    lemma WhereIsPlaceFor(ip: Addr)
      requires Tied()
      ensures Where(ip) == PlaceFor(View(), ip)
    {
      OwnPlacesCount(clients.Keys);
      assert OwnPlaces(View()) == set ip | ip in clients.Keys :: Own(ip);
    }

    /** The record for an address, created if there is none. */
    method Find(ip: Addr) returns (c: Client)
      requires Tied()
      modifies `clients, `overflow, `table
      ensures Tied()
      ensures table == old(table)[old(Where(ip)) := c]
      ensures old(Where(ip)) in old(table) ==> c == old(table)[old(Where(ip))]
      ensures old(Where(ip)) !in old(table) ==> fresh(c) && c.View() == NEW_RECORD
    {
      if ip in clients {
        c := clients[ip];
      } else if |clients| < MAX_CLIENTS {
        c := new Client();
        clients := clients[ip := c];
      } else {
        var p := OverflowPrefix(ip);
        if p in overflow {
          c := overflow[p];
        } else {
          c := new Client();
          overflow := overflow[p := c];
        }
      }
      table := table[old(Where(ip)) := c];
    }

    /** The maps are as they were, but for the record at `place`, which is the same one or a new one. */
    twostate predicate SamePointers(place: Place)
      reads `table, `unknown
    {
      && unknown == old(unknown)
      && place in table && table == old(table)[place := table[place]]
      && (place in old(table) ==> table[place] == old(table)[place])
      && (place !in old(table) ==> fresh(table[place]))
    }

    twostate lemma StaysDistinct(place: Place)
      requires old(Distinct()) && SamePointers(place)
      ensures Distinct()
    {
      forall p | p in table && p != place
        ensures p in old(table) && table[p] == old(table)[p] && table[p] in old(table).Values && table[p] != table[place]
      {
      }
    }

    /** Changing one record in place changes one entry of the book. */
    twostate lemma Changed(place: Place)
      requires old(Distinct()) && SamePointers(place)
      requires forall c :: c in old(Records()) && c != table[place] ==> unchanged(c)
      ensures Distinct()
      ensures View() == old(View())[place := table[place].View()]
      ensures unknown.View() == old(unknown.View())
    {
      StaysDistinct(place);
      assert table[place] in table.Values;
      assert unknown in old(Records()) && unknown != table[place];
      forall p | p in table && p != place
        ensures p in old(table) && table[p].View() == old(table[p].View())
      {
        assert table[p] in old(table).Values && table[p] != table[place];
      }
    }

    twostate lemma StaysAnchored(place: Place)
      requires old(Anchored()) && SamePointers(place) && funcs == old(funcs) && handles == old(handles)
      requires forall i :: i in funcs ==> unchanged(funcs[i])
      ensures Anchored()
    {
    }

    /** `get`: the record for an address, seen now. */
    method Get(ip: Addr, now: real) returns (c: Client, ghost place: Place)
      requires Valid()
      modifies `clients, `overflow, `table, Records()
      ensures Valid() && place == PlaceFor(old(View()), ip) && place in table && c == table[place]
      ensures c.View() == Limits.Get(old(Book()), ip, now)
      ensures Book() == Put(old(Book()), ip, c.View())
      ensures fresh(Records() - old(Records()))
    {
      WhereIsPlaceFor(ip);
      place := Where(ip);
      c := Locate(ip, now);
    }

    method Locate(ip: Addr, now: real) returns (c: Client)
      requires Valid()
      modifies `clients, `overflow, `table, Records()
      ensures Valid() && old(Where(ip)) in table && c == table[old(Where(ip))]
      ensures c.View() == At(old(View()), old(Where(ip))).(seen := now)
      ensures View() == old(View())[old(Where(ip)) := c.View()] && unknown.View() == old(unknown.View())
      ensures fresh(Records() - old(Records()))
    {
      ghost var place := Where(ip);
      assert place in table ==> table[place] in Records();
      c := Renew(ip, now);
      StaysAnchored(place);
      OnlyOneNew(place);
    }

    twostate lemma OnlyOneNew(place: Place)
      requires SamePointers(place)
      ensures fresh(Records() - old(Records()))
    {
    }

    method Renew(ip: Addr, now: real) returns (c: Client)
      requires Tied() && Distinct()
      modifies `clients, `overflow, `table, Existing(ip)
      ensures Tied() && Distinct() && SamePointers(old(Where(ip))) && c == table[old(Where(ip))]
      ensures c.View() == At(old(View()), old(Where(ip))).(seen := now)
      ensures View() == old(View())[old(Where(ip)) := c.View()] && unknown.View() == old(unknown.View())
    {
      c := Touch(ip, now);
      Changed(old(Where(ip)));
    }

    ghost function Existing(ip: Addr): set<Client>
      reads `clients, `table
    {
      if Where(ip) in table then {table[Where(ip)]} else {}
    }

    method Touch(ip: Addr, now: real) returns (c: Client)
      requires Tied()
      modifies `clients, `overflow, `table, Existing(ip)
      ensures Tied() && SamePointers(old(Where(ip))) && c == table[old(Where(ip))]
      ensures c.View() == At(old(View()), old(Where(ip))).(seen := now)
    {
      c := Find(ip);
      c.seen := now;
    }

    /** Changing the request bucket of a record. */
    method TakeAt(ghost place: Place, c: Client, limit: Limit, now: real) returns (granted: bool)
      requires Valid() && place in table && c == table[place]
      modifies c
      ensures Valid()
      ensures var (ok, left) := Take(old(c.requests), now, limit.rate, limit.burst);
              granted == ok && Book() == Set(old(Book()), place, old(c.View()).(requests := left))
    {
      var (ok, left) := Take(c.requests, now, limit.rate, limit.burst);
      c.requests := left;
      Changed(place);
      granted := ok;
    }

    method DoAllow(ip: Addr, limit: Limit, now: real) returns (granted: bool)
      requires Valid()
      modifies `clients, `overflow, `table, Records()
      ensures Valid() && Book() == Allowed(old(Book()), ip, limit, now)
      ensures granted == TakeFor(old(Book()), ip, limit, now).0
    {
      var c, place := Get(ip, now);
      ghost var r := c.View();
      granted := TakeAt(place, c, limit, now);
      PutTwice(old(Book()), ip, r, r.(requests := Take(r.requests, now, limit.rate, limit.burst).1));
    }

    /** Logging to a record. */
    method LogAt(ghost place: Place, c: Client, key: LogKey, now: real) returns (written: bool)
      requires Valid() && place in table && c == table[place]
      modifies c
      ensures Valid()
      ensures var (ok, r) := LogLine(old(c.View()), key, now);
              written == ok && Book() == Set(old(Book()), place, r)
    {
      written := c.Log(now, key);
      Changed(place);
    }

    method DoLog(ip: Addr, key: LogKey, now: real) returns (written: bool)
      requires Valid()
      modifies `clients, `overflow, `table, Records()
      ensures Valid() && Book() == Put(old(Book()), ip, LogLine(Limits.Get(old(Book()), ip, now), key, now).1)
      ensures written == LogLine(Limits.Get(old(Book()), ip, now), key, now).0
    {
      var c, place := Get(ip, now);
      ghost var r := c.View();
      written := LogAt(place, c, key, now);
      PutTwice(old(Book()), ip, r, LogLine(r, key, now).1);
    }

    method DoLogUnknown(text: string, now: real) returns (written: bool)
      requires Valid()
      modifies unknown
      ensures Valid() && written == LogLine(old(unknown.View()), LogKey("deny", text), now).0
      ensures Book() == old(Book()).(unknown := LogLine(old(unknown.View()), LogKey("deny", text), now).1)
    {
      written := unknown.Log(now, LogKey("deny", text));
      assert View() == old(View());
    }

    twostate lemma AnchoredAcquire(place: Place, new h: nat)
      requires old(Anchored()) && SamePointers(place)
      requires h in funcs && h !in old(funcs) && funcs == old(funcs)[h := funcs[h]]
      requires h in handles && handles == old(handles)[h := handles[h]] && handles[h].place == place
      requires funcs[h].id == h && !funcs[h].done && funcs[h].client == table[place]
      requires forall i :: i in old(funcs) ==> unchanged(old(funcs)[i])
      ensures Anchored()
    {
    }

    /** A refused call leaves no release function; a granted one returns a new one. */
    method DoAcquire(ip: Addr, limit: Limit, maxTotal: int, now: real, ghost h: nat)
      returns (release: ReleaseFunc?, reply: Reply)
      requires Valid() && h !in handles
      modifies this, Records()
      ensures Valid() && Book() == Acquired(old(Book()), h, ip, limit, maxTotal, now)
      ensures reply == AcquireReply(old(Book()), ip, limit, maxTotal, now)
      ensures release != null <==> reply == Yes
      ensures release != null ==> fresh(release) && funcs == old(funcs)[h := release]
    {
      if maxTotal > 0 && total >= maxTotal {
        return null, TotalFull;
      }
      var c, place := Get(ip, now);
      if limit.maxConnections > 0 && c.conns >= limit.maxConnections {
        return null, ClientFull;
      }
      release := Grant(c, h, Handle(ip, place), old(Book()), limit, maxTotal, now);
      reply := Yes;
    }

    /** The last part of `Acquire`, which began when the tracker was as in `was`. */
    method Grant(c: Client, ghost h: nat, ghost handle: Handle, ghost was: State, ghost limit: Limit,
                 ghost maxTotal: int, ghost now: real) returns (release: ReleaseFunc)
      requires Valid() && h !in handles && handle.place in table && table[handle.place] == c
      requires handle.place == PlaceFor(was.records, handle.ip) && c.View() == Limits.Get(was, handle.ip, now)
      requires !TotalReached(was, maxTotal) && !ClientReached(c.View(), limit)
      requires Book() == Put(was, handle.ip, c.View())
      modifies `total, `handles, `funcs, c
      ensures Valid() && fresh(release) && funcs == old(funcs)[h := release]
      ensures Book() == Acquired(was, h, handle.ip, limit, maxTotal, now)
    {
      Granted(was, c.View(), h, handle.ip, limit, maxTotal, now);
      release := Attach(c, h, handle);
    }

    method Attach(c: Client, ghost h: nat, ghost handle: Handle) returns (release: ReleaseFunc)
      requires Valid() && h !in handles && handle.place in table && table[handle.place] == c
      modifies `total, `handles, `funcs, c
      ensures Valid() && fresh(release) && funcs == old(funcs)[h := release]
      ensures Book() == OneMore(old(Book()), old(c.View()), h, handle)
    {
      release := AddHandle(c, h, handle);
      AnchoredAcquire(handle.place, h);
      Changed(handle.place);
      IsOneMore(old(Book()), Book(), old(c.View()), h, handle);
    }

    method AddHandle(c: Client, ghost h: nat, ghost handle: Handle) returns (release: ReleaseFunc)
      modifies `total, `handles, `funcs, c
      ensures fresh(release) && release.client == c && release.id == h && !release.done
      ensures c.View() == old(c.View()).(conns := old(c.conns) + 1) && total == old(total) + 1
      ensures handles == old(handles)[h := handle] && funcs == old(funcs)[h := release]
    {
      c.conns := c.conns + 1;
      total := total + 1;
      release := new ReleaseFunc(c, h);
      handles := handles[h := handle];
      funcs := funcs[h := release];
    }

    twostate lemma AnchoredRelease(place: Place, new h: nat)
      requires old(Anchored()) && SamePointers(place)
      requires funcs == old(funcs) - {h} && handles == old(handles) - {h}
      requires forall i :: i in funcs ==> unchanged(funcs[i])
      ensures Anchored()
    {
    }

    /** Calling a release function; only the first call counts. */
    method DoRelease(f: ReleaseFunc, now: real)
      requires Valid()
      requires !f.done ==> f.id in funcs && funcs[f.id] == f
      modifies `total, `handles, `funcs, f, Records()
      ensures Valid() && f.done
      ensures old(f.done) ==> Book() == old(Book())
      ensures !old(f.done) ==> Book() == GivenBack(old(Book()), f.id, now)
    {
      if !f.done {
        ghost var place := handles[f.id].place;
        assert f.client in table.Values;
        GiveBack(f, now);
        AnchoredRelease(place, f.id);
        Changed(place);
        Returned(old(Book()), Book(), f.id, now);
      }
    }

    method GiveBack(f: ReleaseFunc, now: real)
      modifies `total, `handles, `funcs, f, f.client
      ensures f.done && total == old(total) - 1
      ensures f.client.View() == old(f.client.View()).(conns := old(f.client.conns) - 1, seen := now)
      ensures handles == old(handles) - {f.id} && funcs == old(funcs) - {f.id}
    {
      f.done := true;
      var c := f.client;
      c.conns := c.conns - 1;
      total := total - 1;
      c.seen := now;
      handles := handles - {f.id};
      funcs := funcs - {f.id};
    }

    /** Clears the counts of a record and says whether it is to be forgotten. */
    static method SweepRecord(c: Client, source: Source, now: real, out: seq<(Source, Summary)>)
      returns (listed: seq<(Source, Summary)>, forget: bool)
      modifies c
      ensures c.View() == Cleared(old(c.View())) && forget == Forgotten(old(c.View()), now)
      ensures listed == out + Note(source, old(c.View()))
    {
      listed := out;
      if |c.suppressed| > 0 || c.other > 0 {
        listed := out + [(source, Summary(c.suppressed, c.other))];
        c.suppressed, c.other := map[], 0;
      }
      forget := c.conns == 0 && now - c.seen > FORGET_AFTER;
    }

    /** Sweeps the record at `place`, which stays where it is. */
    method SweepPlace(ghost place: Place, c: Client, source: Source, now: real, out: seq<(Source, Summary)>)
      returns (listed: seq<(Source, Summary)>, forget: bool)
      requires Distinct() && place in table && table[place] == c
      modifies c
      ensures View() == old(View())[place := Cleared(old(View())[place])] && unknown.View() == old(unknown.View())
      ensures forget == Forgotten(old(View())[place], now)
      ensures listed == out + Note(source, old(View())[place])
    {
      listed, forget := SweepRecord(c, source, now, out);
      Changed(place);
    }

    /** Taking a record out of the table leaves the others as they are. */
    twostate lemma Fewer(place: Place)
      requires old(Distinct()) && unknown == old(unknown) && table == old(table) - {place}
      requires forall p :: p in table ==> unchanged(table[p])
      ensures Distinct() && View() == old(View()) - {place}
    {
    }

    method ForgetOwn(ip: Addr)
      requires Tied() && Distinct() && ip in clients
      modifies `clients, `table
      ensures Tied() && Distinct() && table == old(table) - {Own(ip)} && View() == old(View()) - {Own(ip)}
    {
      clients := clients - {ip};
      table := table - {Own(ip)};
      Fewer(Own(ip));
    }

    /** One turn of the first loop. */
    method SweepClient(ip: Addr, now: real, out: seq<(Source, Summary)>) returns (listed: seq<(Source, Summary)>)
      requires Tied() && Distinct() && ip in clients
      modifies `clients, `table, clients[ip]
      ensures Tied() && Distinct() && unknown.View() == old(unknown.View())
      ensures table == old(table) || table == old(table) - {Own(ip)}
      ensures old(clients.Keys) - {ip} <= clients.Keys
      ensures View() == SweptAt(old(View()), Own(ip), now)
      ensures listed == out + Note(From(Own(ip)), old(View())[Own(ip)])
    {
      SweptCases(View(), Own(ip), now);
      var forget;
      listed, forget := SweepPlace(Own(ip), clients[ip], From(Own(ip)), now, out);
      if forget {
        ForgetOwn(ip);
      }
    }

    method ForgetShared(n: Prefix)
      requires Tied() && Distinct() && n in overflow
      modifies `overflow, `table
      ensures Tied() && Distinct() && table == old(table) - {Shared(n)} && View() == old(View()) - {Shared(n)}
    {
      overflow := overflow - {n};
      table := table - {Shared(n)};
      Fewer(Shared(n));
    }

    /** One turn of the second loop. */
    method SweepNetwork(n: Prefix, now: real, out: seq<(Source, Summary)>) returns (listed: seq<(Source, Summary)>)
      requires Tied() && Distinct() && n in overflow
      modifies `overflow, `table, overflow[n]
      ensures Tied() && Distinct() && unknown.View() == old(unknown.View())
      ensures table == old(table) || table == old(table) - {Shared(n)}
      ensures old(overflow.Keys) - {n} <= overflow.Keys
      ensures View() == SweptAt(old(View()), Shared(n), now)
      ensures listed == out + Note(From(Shared(n)), old(View())[Shared(n)])
    {
      SweptCases(View(), Shared(n), now);
      var forget;
      listed, forget := SweepPlace(Shared(n), overflow[n], From(Shared(n)), now, out);
      if forget {
        ForgetShared(n);
      }
    }

    /** The sweep so far: of the records in `was`, which the table `at` pointed at, those in `done`
        have been swept, and nothing else has happened. */
    ghost predicate SweptSoFar(at: map<Place, Client>, was: map<Place, Record>, done: set<Place>, now: real,
                               out: seq<(Source, Summary)>)
      reads this, table.Values
    {
      && Tied() && Distinct()
      && table.Keys <= at.Keys && (forall p :: p in table ==> table[p] == at[p])
      && View() == Part(was, done, now)
      && ListsDone(out, was, done)
    }

    /** One turn of the first loop. */
    method SweepNextClient(ip: Addr, now: real, ghost at: map<Place, Client>, ghost was: map<Place, Record>,
                           ghost done: set<Place>, listed: seq<(Source, Summary)>) returns (out: seq<(Source, Summary)>)
      requires SweptSoFar(at, was, done, now, listed) && ip in clients && Own(ip) in was && Own(ip) !in done
      modifies `clients, `table, clients[ip]
      ensures SweptSoFar(at, was, done + {Own(ip)}, now, out) && unknown.View() == old(unknown.View())
      ensures old(clients.Keys) - {ip} <= clients.Keys && table.Values <= old(table.Values)
    {
      PartStep(was, done, Own(ip), now, listed);
      out := SweepClient(ip, now, listed);
    }

    /** Sweeps the records of single addresses. */
    method SweepClients(now: real, ghost at: map<Place, Client>, ghost was: map<Place, Record>)
      returns (out: seq<(Source, Summary)>)
      requires SweptSoFar(at, was, {}, now, []) && table == at && was.Keys == at.Keys
      modifies `clients, `table, table.Values
      ensures SweptSoFar(at, was, OwnPlaces(was), now, out) && unknown.View() == old(unknown.View())
    {
      out := [];
      var todo := clients.Keys;
      ghost var done: set<Place> := {};
      while todo != {}
        invariant SweptSoFar(at, was, done, now, out) && unknown.View() == old(unknown.View())
        invariant todo <= clients.Keys && OwnTodo(was, done, todo) && table.Values <= old(table.Values)
      {
        var ip :| ip in todo;
        OwnDone(was, done, todo, ip);
        todo := todo - {ip};
        out := SweepNextClient(ip, now, at, was, done, out);
        done := done + {Own(ip)};
      }
      assert done == OwnPlaces(was) by { AllOwnDone(was, done); }
    }

    /** One turn of the second loop. */
    method SweepNextNetwork(n: Prefix, now: real, ghost at: map<Place, Client>, ghost was: map<Place, Record>,
                            ghost done: set<Place>, listed: seq<(Source, Summary)>) returns (out: seq<(Source, Summary)>)
      requires SweptSoFar(at, was, done, now, listed) && n in overflow && Shared(n) in was && Shared(n) !in done
      modifies `overflow, `table, overflow[n]
      ensures SweptSoFar(at, was, done + {Shared(n)}, now, out) && unknown.View() == old(unknown.View())
      ensures old(overflow.Keys) - {n} <= overflow.Keys && table.Values <= old(table.Values)
    {
      PartStep(was, done, Shared(n), now, listed);
      out := SweepNetwork(n, now, listed);
    }

    /** Sweeps the records of whole networks. */
    method SweepNetworks(now: real, ghost at: map<Place, Client>, ghost was: map<Place, Record>)
      returns (out: seq<(Source, Summary)>)
      requires SweptSoFar(at, was, {}, now, []) && table == at && was.Keys == at.Keys
      modifies `overflow, `table, table.Values
      ensures SweptSoFar(at, was, SharedPlaces(was), now, out) && unknown.View() == old(unknown.View())
    {
      out := [];
      var todo := overflow.Keys;
      ghost var done: set<Place> := {};
      while todo != {}
        invariant SweptSoFar(at, was, done, now, out) && unknown.View() == old(unknown.View())
        invariant todo <= overflow.Keys && SharedTodo(was, done, todo) && table.Values <= old(table.Values)
      {
        var n :| n in todo;
        SharedDone(was, done, todo, n);
        todo := todo - {n};
        out := SweepNextNetwork(n, now, at, was, done, out);
        done := done + {Shared(n)};
      }
      assert done == SharedPlaces(was) by { AllSharedDone(was, done); }
    }

    /** A release function that has not been called keeps its record in place: it has connections. */
    twostate lemma AnchoredSweep(now: real)
      requires old(Anchored() && InUse())
      requires funcs == old(funcs) && handles == old(handles) && (forall i :: i in funcs ==> unchanged(funcs[i]))
      requires forall p :: p in table ==> p in old(table) && table[p] == old(table)[p]
      requires table.Keys == Part(old(View()), old(View()).Keys, now).Keys
      ensures Anchored()
    {
      forall i | i in funcs
        ensures handles[i].place in table
      {
        assert !Forgotten(old(View())[handles[i].place], now);
      }
    }

    method DoSweep(now: real) returns (out: seq<(Source, Summary)>)
      requires Valid() && InUse()
      modifies `clients, `overflow, `table, Records()
      ensures Valid() && Book() == SweptState(old(Book()), now, None)
      ensures Lists(out, Summaries(old(Book())))
    {
      out := SweepAll(now);
      out := SweepUnknown(old(Book()), now, out);
    }

    method SweepUnknown(ghost was: State, now: real, listed: seq<(Source, Summary)>) returns (out: seq<(Source, Summary)>)
      requires Valid()
      requires Book() == was.(records := Part(was.records, was.records.Keys, now))
      requires ListsDone(listed, was.records, was.records.Keys)
      modifies unknown
      ensures Valid() && Book() == SweptState(was, now, None)
      ensures Lists(out, Summaries(was))
    {
      SweepDone(was, now, listed);
      out := ClearUnknown(now, listed);
    }

    /** The record of the clients outside every subnet comes last, and is never forgotten. */
    method ClearUnknown(now: real, listed: seq<(Source, Summary)>) returns (out: seq<(Source, Summary)>)
      requires Valid()
      modifies unknown
      ensures Valid() && Book() == old(Book()).(unknown := Cleared(old(unknown.View())))
      ensures out == listed + Note(Unknown, old(unknown.View()))
    {
      var forget;
      out, forget := SweepRecord(unknown, Unknown, now, listed);
      assert View() == old(View());
    }

    /** Every record in the maps. */
    method SweepAll(now: real) returns (out: seq<(Source, Summary)>)
      requires Valid() && InUse()
      modifies `clients, `overflow, `table, table.Values
      ensures Valid() && unknown.View() == old(unknown.View())
      ensures View() == Part(old(View()), old(View()).Keys, now)
      ensures ListsDone(out, old(View()), old(View()).Keys)
    {
      out := SweepRecords(now);
      AnchoredSweep(now);
    }

    /** Both loops. */
    method SweepRecords(now: real) returns (out: seq<(Source, Summary)>)
      requires Tied() && Distinct()
      modifies `clients, `overflow, `table, table.Values
      ensures SweptSoFar(old(table), old(View()), old(View()).Keys, now, out)
      ensures unknown.View() == old(unknown.View())
    {
      PartNone(View(), now);
      var own := SweepClients(now, table, View());
      ghost var middle := View();
      PartNone(middle, now);
      var shared := SweepNetworks(now, table, View());
      out := own + shared;
      PartTwice(old(View()), now);
      ListsBoth(old(View()), now, own, shared);
    }
  }

  lemma CountsLog(s: State, ip: Addr, key: LogKey, now: real)
    requires CountsInv(s)
    ensures CountsInv(Put(s, ip, LogLine(Limits.Get(s, ip, now), key, now).1))
  {
    LogKeepsConns(Limits.Get(s, ip, now), key, now);
    CountsFrame(s, Put(s, ip, LogLine(Limits.Get(s, ip, now), key, now).1));
  }

  lemma LogKeepsConns(r: Record, key: LogKey, now: real)
    ensures LogLine(r, key, now).1.conns == r.conns
  {
  }

  lemma CountsUnknown(s: State, r: Record)
    requires CountsInv(s)
    ensures CountsInv(s.(unknown := r))
  {
    CountsFrame(s, s.(unknown := r));
  }

  lemma CountsSweep(s: State, now: real)
    requires CountsInv(s)
    ensures CountsInv(SweptState(s, now, None))
  {
    CountsStep(s, Sweep(now), None);
  }

  lemma CountsAllow(s: State, ip: Addr, limit: Limit, now: real)
    requires CountsInv(s)
    ensures CountsInv(Allowed(s, ip, limit, now))
  {
    CountsStep(s, Allow(ip, limit, now), None);
  }

  lemma CountsAcquired(s: State, h: nat, ip: Addr, limit: Limit, maxTotal: int, now: real)
    requires CountsInv(s) && h !in s.handles
    ensures CountsInv(Acquired(s, h, ip, limit, maxTotal, now))
  {
    CountsStep(s, Acquire(h, ip, limit, maxTotal, now), None);
  }

  lemma CountsGivenBack(s: State, h: nat, now: real)
    requires CountsInv(s)
    ensures CountsInv(GivenBack(s, h, now))
  {
    CountsStep(s, Release(h, now), None);
  }

  function Set(s: State, place: Place, r: Record): State { s.(records := s.records[place := r]) }

  /** Changing a record that has just been seen. */
  lemma PutTwice(s: State, ip: Addr, seen: Record, r: Record)
    ensures Set(Put(s, ip, seen), PlaceFor(s.records, ip), r) == Put(s, ip, r)
  {
    assert s.records[PlaceFor(s.records, ip) := seen][PlaceFor(s.records, ip) := r] == s.records[PlaceFor(s.records, ip) := r];
  }

  /** One more connection, counted in a record that was `r`. */
  function OneMore(s: State, r: Record, h: nat, handle: Handle): State {
    Set(s, handle.place, r.(conns := r.conns + 1)).(total := s.total + 1, handles := s.handles[h := handle])
  }

  lemma IsOneMore(s: State, s': State, r: Record, h: nat, handle: Handle)
    requires s'.records == s.records[handle.place := r.(conns := r.conns + 1)] && s'.unknown == s.unknown
    requires s'.total == s.total + 1 && s'.handles == s.handles[h := handle]
    ensures s' == OneMore(s, r, h, handle)
  {
  }

  lemma Granted(s: State, r: Record, h: nat, ip: Addr, limit: Limit, maxTotal: int, now: real)
    requires !TotalReached(s, maxTotal) && !ClientReached(r, limit) && r == Limits.Get(s, ip, now)
    ensures OneMore(Put(s, ip, r), r, h, Handle(ip, PlaceFor(s.records, ip))) == Acquired(s, h, ip, limit, maxTotal, now)
  {
    PutTwice(s, ip, r, r.(conns := r.conns + 1));
  }

  lemma Returned(s: State, s': State, h: nat, now: real)
    requires h in s.handles && s.handles[h].place in s.records
    requires var place := s.handles[h].place;
             var r := s.records[place];
             s'.records == s.records[place := r.(conns := r.conns - 1, seen := now)]
    requires s'.unknown == s.unknown && s'.total == s.total - 1 && s'.handles == s.handles - {h}
    ensures s' == GivenBack(s, h, now)
  {
  }

  lemma PartTwice(records: map<Place, Record>, now: real)
    ensures var middle := Part(records, OwnPlaces(records), now);
            Part(middle, SharedPlaces(middle), now) == Part(records, records.Keys, now)
  {
  }

  /** Sweeping the one kind of records and then the other sweeps all of them. */
  lemma ListsBoth(records: map<Place, Record>, now: real, own: seq<(Source, Summary)>, shared: seq<(Source, Summary)>)
    requires ListsDone(own, records, OwnPlaces(records))
    requires var middle := Part(records, OwnPlaces(records), now); ListsDone(shared, middle, SharedPlaces(middle))
    ensures ListsDone(own + shared, records, records.Keys)
  {
    var middle := Part(records, OwnPlaces(records), now);
    forall i, j | 0 <= i < j < |own + shared|
      ensures (own + shared)[i].0 != (own + shared)[j].0
    {
      if i < |own| <= j {
        assert own[i] in own && shared[j - |own|] in shared;
      }
    }
    forall p | p in records && Noted(records[p])
      ensures Entry(p, records[p]) in own + shared
    {
      if p.Own? {
        assert Entry(p, records[p]) in own;
      } else {
        assert p in SharedPlaces(middle) && middle[p] == records[p];
        assert Entry(p, middle[p]) in shared;
      }
    }
    forall x | x in own + shared
      ensures x.0.From? && x.0.place in records && Noted(records[x.0.place]) && x == Entry(x.0.place, records[x.0.place])
    {
      assert x in own || x in shared;
    }
  }

  lemma SweptCases(records: map<Place, Record>, place: Place, now: real)
    requires place in records
    ensures var cleared := records[place := Cleared(records[place])];
            SweptAt(records, place, now) == if Forgotten(records[place], now) then cleared - {place} else cleared
  {
  }

  lemma PartNone(records: map<Place, Record>, now: real)
    ensures Part(records, {}, now) == records
  {
  }

  lemma SweepDone(s: State, now: real, listed: seq<(Source, Summary)>)
    requires ListsDone(listed, s.records, s.records.Keys)
    ensures s.(records := Part(s.records, s.records.Keys, now)).(unknown := Cleared(s.unknown)) == SweptState(s, now, None)
    ensures Lists(listed + Note(Unknown, s.unknown), Summaries(s))
  {
    assert Part(s.records, s.records.Keys, now) == SweptState(s, now, None).records;
    SummariesSplit(s, listed);
  }

  function SharedPlaces(records: map<Place, Record>): set<Place> { set p | p in records && p.Shared? }

  /** The records of single addresses are done but for those in `todo`. */
  predicate OwnTodo(records: map<Place, Record>, done: set<Place>, todo: set<Addr>) {
    && done == (set p | p in records && p.Own? && p.ip !in todo)
    && (forall ip :: ip in todo ==> Own(ip) in records)
  }

  lemma OwnDone(records: map<Place, Record>, done: set<Place>, todo: set<Addr>, ip: Addr)
    requires OwnTodo(records, done, todo) && ip in todo
    ensures Own(ip) in records && Own(ip) !in done && OwnTodo(records, done + {Own(ip)}, todo - {ip})
  {
  }

  lemma AllOwnDone(records: map<Place, Record>, done: set<Place>)
    requires OwnTodo(records, done, {})
    ensures done == OwnPlaces(records)
  {
  }

  /** The records of networks are done but for those in `todo`. */
  predicate SharedTodo(records: map<Place, Record>, done: set<Place>, todo: set<Prefix>) {
    && done == (set p | p in records && p.Shared? && p.network !in todo)
    && (forall n :: n in todo ==> Shared(n) in records)
  }

  lemma SharedDone(records: map<Place, Record>, done: set<Place>, todo: set<Prefix>, n: Prefix)
    requires SharedTodo(records, done, todo) && n in todo
    ensures Shared(n) in records && Shared(n) !in done && SharedTodo(records, done + {Shared(n)}, todo - {n})
  {
  }

  lemma AllSharedDone(records: map<Place, Record>, done: set<Place>)
    requires SharedTodo(records, done, {})
    ensures done == SharedPlaces(records)
  {
  }

  /** `out` lists the entries of `m`, each once. */
  ghost predicate Lists(out: seq<(Source, Summary)>, m: map<Source, Summary>) {
    && (forall i, j :: 0 <= i < j < |out| ==> out[i].0 != out[j].0)
    && (forall x :: x in out <==> x.0 in m && m[x.0] == x.1)
  }

  /** The records when the places in `done` have been swept. */
  function Part(records: map<Place, Record>, done: set<Place>, now: real): map<Place, Record> {
    map p | p in records && (p in done ==> !Forgotten(records[p], now)) ::
      if p in done then Cleared(records[p]) else records[p]
  }

  function Entry(p: Place, r: Record): (Source, Summary) { (From(p), Summary(r.suppressed, r.other)) }

  /** `out` lists what there was to report of the records in `done`, each once. */
  ghost predicate ListsDone(out: seq<(Source, Summary)>, records: map<Place, Record>, done: set<Place>) {
    && (forall i, j :: 0 <= i < j < |out| ==> out[i].0 != out[j].0)
    && (forall x :: x in out ==>
          && x.0.From? && x.0.place in records && x.0.place in done && Noted(records[x.0.place])
          && x == Entry(x.0.place, records[x.0.place]))
    && (forall p :: p in records && p in done && Noted(records[p]) ==> Entry(p, records[p]) in out)
  }

  lemma PartStep(records: map<Place, Record>, done: set<Place>, place: Place, now: real, out: seq<(Source, Summary)>)
    requires place in records && place !in done && ListsDone(out, records, done)
    ensures place in Part(records, done, now) && Part(records, done, now)[place] == records[place]
    ensures SweptAt(Part(records, done, now), place, now) == Part(records, done + {place}, now)
    ensures ListsDone(out + Note(From(place), records[place]), records, done + {place})
  {
    var longer := out + Note(From(place), records[place]);
    assert forall x :: x in longer ==> x in out || x == Entry(place, records[place]);
    assert forall x :: x in out ==> x in longer;
    if Noted(records[place]) {
      assert longer[|out|] == Entry(place, records[place]);
    }
  }

  lemma SummariesSplit(s: State, out: seq<(Source, Summary)>)
    requires ListsDone(out, s.records, s.records.Keys)
    ensures Lists(out + Note(Unknown, s.unknown), Summaries(s))
  {
    var longer := out + Note(Unknown, s.unknown);
    assert forall x :: x in longer <==> x in out || (Noted(s.unknown) && x == (Unknown, Summary(s.unknown.suppressed, s.unknown.other)));
    forall x: (Source, Summary) | x.0 in Summaries(s) && Summaries(s)[x.0] == x.1
      ensures x in longer
    {
      if x.0.From? {
        assert x == Entry(x.0.place, s.records[x.0.place]);
      }
    }
  }

  /** What a sweep lists for one record, if anything. */
  function Note(source: Source, r: Record): seq<(Source, Summary)> {
    if Noted(r) then [(source, Summary(r.suppressed, r.other))] else []
  }

  /** The records after one of them has been swept. */
  function SweptAt(records: map<Place, Record>, place: Place, now: real): map<Place, Record>
    requires place in records
  {
    if Forgotten(records[place], now) then records - {place} else records[place := Cleared(records[place])]
  }

  lemma OwnPlacesCount(ips: set<Addr>)
    ensures |set ip | ip in ips :: Own(ip)| == |ips|
  {
    var places := set ip | ip in ips :: Own(ip);
    if ips == {} {
      assert places == {};
    } else {
      var ip :| ip in ips;
      OwnPlacesCount(ips - {ip});
      assert places == (set j | j in ips - {ip} :: Own(j)) + {Own(ip)};
    }
  }
}
