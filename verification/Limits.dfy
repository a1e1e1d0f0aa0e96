/**
 The per-client tracker of `internal/limits` as a value: where an address's record is kept, and
 what each call does to it. A run is a sequence of calls, each with the time it reads.
 */
module Limits {
  import opened Basics
  import opened Netip
  import opened Buckets

  const LOG_RATE := 20.0
  const LOG_BURST := 200
  const MAX_SUPPRESSED_KEYS := 16
  const MAX_CLIENTS := 100_000
  /** Seconds without use after which a record without connections is forgotten. */
  const FORGET_AFTER := 300.0

  datatype LogKey = LogKey(action: string, host: string)

  datatype Record = Record(
    conns: int,
    seen: real,
    requests: Bucket,
    logs: Bucket,
    suppressed: map<LogKey, int>,
    other: int
  )

  const NEW_RECORD := Record(0, 0.0, FRESH, FRESH, map[], 0)

  /** A record belongs to one address or, past `MAX_CLIENTS`, to a whole network. */
  datatype Place = Own(ip: Addr) | Shared(network: Prefix)

  /** A release function that has not been called yet. */
  datatype Handle = Handle(ip: Addr, place: Place)

  datatype Limit = Limit(maxConnections: int, rate: real, burst: int)

  datatype State = State(
    records: map<Place, Record>,
    unknown: Record,
    total: int,
    handles: map<nat, Handle>
  )

  const EMPTY := State(map[], NEW_RECORD, 0, map[])

  datatype Call =
    | Acquire(h: nat, ip: Addr, limit: Limit, maxTotal: int, now: real)
    | Release(h: nat, now: real)
    | Allow(ip: Addr, limit: Limit, now: real)
    | Log(ip: Addr, key: LogKey, now: real)
    | LogUnknown(text: string, now: real)
    | Sweep(now: real)

  /** Which lines a summary is about, and what it counts. */
  datatype Source = From(place: Place) | Unknown
  datatype Summary = Summary(counts: map<LogKey, int>, other: int)

  datatype Reply =
    | Yes
    | No
    | TotalFull
    | ClientFull
    | Released
    | Swept(summaries: map<Source, Summary>)

  /** The /24 or /64 an address shares a record with. */
  function OverflowPrefix(ip: Addr): Prefix {
    match ip
    case NoAddr => Prefix(NoAddr, 0)
    case V4(n) => Prefix(V4(n / 0x100 * 0x100), 24)
    case V6(n, _) => Prefix(V6(n / 0x1_0000_0000_0000_0000 * 0x1_0000_0000_0000_0000, ""), 64)
  }

  function OwnPlaces(records: map<Place, Record>): set<Place> { set p | p in records && p.Own? }

  /** Where `get` finds or puts the record for an address. */
  function PlaceFor(records: map<Place, Record>, ip: Addr): Place {
    if Own(ip) in records || |OwnPlaces(records)| < MAX_CLIENTS then Own(ip) else Shared(OverflowPrefix(ip))
  }

  function At(records: map<Place, Record>, place: Place): Record {
    if place in records then records[place] else NEW_RECORD
  }

  /** `get`, with `seen` set. */
  function Get(s: State, ip: Addr, now: real): Record {
    At(s.records, PlaceFor(s.records, ip)).(seen := now)
  }

  function Put(s: State, ip: Addr, r: Record): State {
    s.(records := s.records[PlaceFor(s.records, ip) := r])
  }

  predicate TotalReached(s: State, maxTotal: int) { maxTotal > 0 && s.total >= maxTotal }

  predicate ClientReached(r: Record, limit: Limit) { limit.maxConnections > 0 && r.conns >= limit.maxConnections }

  function Suppress(r: Record, key: LogKey): Record {
    if key in r.suppressed then r.(suppressed := r.suppressed[key := r.suppressed[key] + 1])
    else if |r.suppressed| < MAX_SUPPRESSED_KEYS then r.(suppressed := r.suppressed[key := 1])
    else r.(other := r.other + 1)
  }

  /** `client.log`: take a token from the log bucket, or count the line. */
  function LogLine(r: Record, key: LogKey, now: real): (bool, Record) {
    var (granted, logs) := Take(r.logs, now, LOG_RATE, LOG_BURST);
    if granted then (true, r.(logs := logs)) else (false, Suppress(r.(logs := logs), key))
  }

  predicate Forgotten(r: Record, now: real) { r.conns == 0 && now - r.seen > FORGET_AFTER }

  predicate Noted(r: Record) { |r.suppressed| > 0 || r.other > 0 }

  function Cleared(r: Record): Record { if Noted(r) then r.(suppressed := map[], other := 0) else r }

  /** `Sweep`; `keep` names a record that is never forgotten, in a tracker to compare with. */
  function SweptState(s: State, now: real, keep: Option<Place>): State {
    s.(records := map p | p in s.records && (keep == Some(p) || !Forgotten(s.records[p], now)) :: Cleared(s.records[p]),
       unknown := Cleared(s.unknown))
  }

  function RecordOf(s: State, source: Source): Record {
    match source
    case From(place) => At(s.records, place)
    case Unknown => s.unknown
  }

  function Sources(s: State): set<Source> { (set p | p in s.records :: From(p)) + {Unknown} }

  function Summaries(s: State): map<Source, Summary> {
    map f | f in Sources(s) && Noted(RecordOf(s, f)) :: Summary(RecordOf(s, f).suppressed, RecordOf(s, f).other)
  }

  function Acquired(s: State, h: nat, ip: Addr, limit: Limit, maxTotal: int, now: real): State {
    if TotalReached(s, maxTotal) then s
    else
      var r := Get(s, ip, now);
      if ClientReached(r, limit) then Put(s, ip, r)
      else Put(s, ip, r.(conns := r.conns + 1))
           .(total := s.total + 1, handles := s.handles[h := Handle(ip, PlaceFor(s.records, ip))])
  }

  function AcquireReply(s: State, ip: Addr, limit: Limit, maxTotal: int, now: real): Reply {
    if TotalReached(s, maxTotal) then TotalFull
    else if ClientReached(Get(s, ip, now), limit) then ClientFull
    else Yes
  }

  /** A release function called again does nothing. */
  function GivenBack(s: State, h: nat, now: real): State {
    if h !in s.handles then s
    else
      var place := s.handles[h].place;
      var r := At(s.records, place);
      s.(records := s.records[place := r.(conns := r.conns - 1, seen := now)],
         total := s.total - 1,
         handles := s.handles - {h})
  }

  function TakeFor(s: State, ip: Addr, limit: Limit, now: real): (bool, Bucket) {
    Take(Get(s, ip, now).requests, now, limit.rate, limit.burst)
  }

  function Allowed(s: State, ip: Addr, limit: Limit, now: real): State {
    Put(s, ip, Get(s, ip, now).(requests := TakeFor(s, ip, limit, now).1))
  }

  /** The state after a call. */
  function Apply(s: State, c: Call, keep: Option<Place>): State {
    match c
    case Acquire(h, ip, limit, maxTotal, now) => Acquired(s, h, ip, limit, maxTotal, now)
    case Release(h, now) => GivenBack(s, h, now)
    case Allow(ip, limit, now) => Allowed(s, ip, limit, now)
    case Log(ip, key, now) => Put(s, ip, LogLine(Get(s, ip, now), key, now).1)
    case LogUnknown(text, now) => s.(unknown := LogLine(s.unknown, LogKey("deny", text), now).1)
    case Sweep(now) => SweptState(s, now, keep)
  }

  function ReplyTo(s: State, c: Call): Reply {
    match c
    case Acquire(_, ip, limit, maxTotal, now) => AcquireReply(s, ip, limit, maxTotal, now)
    case Release(_, _) => Released
    case Allow(ip, limit, now) => if TakeFor(s, ip, limit, now).0 then Yes else No
    case Log(ip, key, now) => if LogLine(Get(s, ip, now), key, now).0 then Yes else No
    case LogUnknown(text, now) => if LogLine(s.unknown, LogKey("deny", text), now).0 then Yes else No
    case Sweep(_) => Swept(Summaries(s))
  }

  /** Release functions are told apart by their number: no two that have not been called have the same. */
  predicate Fresh(s: State, c: Call) { c.Acquire? ==> c.h !in s.handles }

  /** The state after the first `n` calls. */
  function After(calls: seq<Call>, n: nat, keep: Option<Place>): State
    requires n <= |calls|
  {
    if n == 0 then EMPTY else Apply(After(calls, n - 1, keep), calls[n - 1], keep)
  }

  predicate FreshAt(calls: seq<Call>, i: nat, keep: Option<Place>)
    requires i < |calls|
  {
    Fresh(After(calls, i, keep), calls[i])
  }

  predicate IsRun(calls: seq<Call>, keep: Option<Place>) {
    forall i :: 0 <= i < |calls| ==> FreshAt(calls, i, keep)
  }

  predicate InOrder(calls: seq<Call>) {
    forall i, j :: 0 <= i <= j < |calls| ==> calls[i].now <= calls[j].now
  }
}
