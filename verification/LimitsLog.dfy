/** No access log line is lost: each is written, reported by a sweep, or waiting to be reported. */
module LimitsLog {
  import opened Basics
  import opened Sums
  import opened Netip
  import opened Limits

  /** What a call does to the counts of unwritten lines. */
  datatype Effect = Clears | Counts(source: Source, key: LogKey) | Nothing

  function EffectOf(s: State, c: Call): Effect {
    match c
    case Log(ip, key, _) => if ReplyTo(s, c) == No then Counts(From(PlaceFor(s.records, ip)), key) else Nothing
    case LogUnknown(text, _) => if ReplyTo(s, c) == No then Counts(Unknown, LogKey("deny", text)) else Nothing
    case Sweep(_) => Clears
    case _ => Nothing
  }

  /** How the counts in the record of `f` follow from those before. */
  predicate Follows(r: Record, r': Record, f: Source, e: Effect) {
    match e
    case Clears => r.other >= 0 ==> r'.suppressed == map[] && r'.other == 0
    case Counts(g, key) =>
      var noted := if f == g then Suppress(r, key) else r;
      r'.suppressed == noted.suppressed && r'.other == noted.other
    case Nothing => r'.suppressed == r.suppressed && r'.other == r.other
  }

  /** Only a line that may not be written, and a sweep, change what is counted. */
  lemma CallFollows(s: State, c: Call, f: Source)
    ensures Follows(RecordOf(s, f), RecordOf(Apply(s, c, None), f), f, EffectOf(s, c))
  {
    if c.Log? || c.LogUnknown? {
      LogCallFollows(s, c, f);
    } else if c.Sweep? {
      SweepFollows(s, c.now, f);
    } else {
      OtherFollows(s, c, f);
    }
  }

  lemma OtherFollows(s: State, c: Call, f: Source)
    requires c.Acquire? || c.Release? || c.Allow?
    ensures Follows(RecordOf(s, f), RecordOf(Apply(s, c, None), f), f, Nothing)
  {
    if !c.Release? {
      PutFollows(s, c.ip, Get(s, c.ip, c.now), f);
    }
  }

  lemma LogCallFollows(s: State, c: Call, f: Source)
    requires c.Log? || c.LogUnknown?
    ensures Follows(RecordOf(s, f), RecordOf(Apply(s, c, None), f), f, EffectOf(s, c))
  {
    if c.Log? {
      LogFollows(Get(s, c.ip, c.now), c.key, c.now);
    } else {
      LogFollows(s.unknown, LogKey("deny", c.text), c.now);
    }
  }

  lemma SweepFollows(s: State, now: real, f: Source)
    ensures Follows(RecordOf(s, f), RecordOf(SweptState(s, now, None), f), f, Clears)
  {
  }

  lemma LogFollows(r: Record, key: LogKey, now: real)
    ensures var (written, r') := LogLine(r, key, now);
            var noted := if written then r else Suppress(r, key);
            r'.suppressed == noted.suppressed && r'.other == noted.other
  {
  }

  lemma PutFollows(s: State, ip: Addr, r: Record, f: Source)
    requires r.suppressed == At(s.records, PlaceFor(s.records, ip)).suppressed
    requires r.other == At(s.records, PlaceFor(s.records, ip)).other
    ensures Follows(RecordOf(s, f), RecordOf(Put(s, ip, r), f), f, Nothing)
  {
  }

  // ---------------------------------------------------------------------------------------------
  // Every count is exact

  function NextRefused(refused: nat, e: Effect, f: Source, key: LogKey): nat {
    match e
    case Clears => 0
    case Counts(g, k) => refused + if f == g && k == key then 1 else 0
    case Nothing => refused
  }

  function NextAll(all: nat, e: Effect, f: Source): nat {
    match e
    case Clears => 0
    case Counts(g, _) => all + if f == g then 1 else 0
    case Nothing => all
  }

  /** The refused lines with this key counted at `f` since the last sweep. */
  function Refused(calls: seq<Call>, n: nat, f: Source, key: LogKey): nat
    requires n <= |calls|
  {
    if n == 0 then 0
    else NextRefused(Refused(calls, n - 1, f, key), EffectOf(After(calls, n - 1, None), calls[n - 1]), f, key)
  }

  /** The refused lines counted at `f` since the last sweep, whatever their key. */
  function RefusedAll(calls: seq<Call>, n: nat, f: Source): nat
    requires n <= |calls|
  {
    if n == 0 then 0
    else NextAll(RefusedAll(calls, n - 1, f), EffectOf(After(calls, n - 1, None), calls[n - 1]), f)
  }

  ghost function Lines(r: Record): int { Sum(r.suppressed) + r.other }

  lemma SuppressAddsOne(r: Record, key: LogKey)
    ensures Lines(Suppress(r, key)) == Lines(r) + 1
  {
    SumUpdate(r.suppressed, key, if key in r.suppressed then r.suppressed[key] + 1 else 1);
  }

  lemma SameLines(r: Record, r': Record)
    requires r'.suppressed == r.suppressed && r'.other == r.other
    ensures Lines(r') == Lines(r)
  {
  }

  lemma NoLines(r: Record)
    requires r.suppressed == map[] && r.other == 0
    ensures Lines(r) == 0
  {
  }

  lemma LinesFollow(r: Record, r': Record, f: Source, e: Effect)
    requires Follows(r, r', f, e) && !e.Clears?
    ensures Lines(r') == Lines(r) + if e.Counts? && e.source == f then 1 else 0
  {
    if e.Counts? && e.source == f {
      SuppressAddsOne(r, e.key);
      SameLines(Suppress(r, e.key), r');
    } else {
      SameLines(r, r');
    }
  }

  /** A key that is listed comes with the exact number of its lines; one that is not had no line,
      unless the list was full by then. */
  predicate ExactKey(r: Record, key: LogKey, refused: nat) {
    if key in r.suppressed then r.suppressed[key] == refused > 0
    else refused == 0 || |r.suppressed| == MAX_SUPPRESSED_KEYS
  }

  ghost predicate Exact(r: Record, key: LogKey, refused: nat, all: nat) {
    && |r.suppressed| <= MAX_SUPPRESSED_KEYS && r.other >= 0
    && ExactKey(r, key, refused)
    && Lines(r) == all
  }

  lemma ExactFollows(r: Record, r': Record, f: Source, e: Effect, key: LogKey, refused: nat, all: nat)
    requires Follows(r, r', f, e) && Exact(r, key, refused, all)
    ensures Exact(r', key, NextRefused(refused, e, f, key), NextAll(all, e, f))
  {
    if e.Clears? {
      NoLines(r');
    } else {
      LinesFollow(r, r', f, e);
    }
  }

  lemma ExactStep(s: State, c: Call, s': State, f: Source, key: LogKey, refused: nat, all: nat)
    requires s' == Apply(s, c, None) && Exact(RecordOf(s, f), key, refused, all)
    ensures Exact(RecordOf(s', f), key, NextRefused(refused, EffectOf(s, c), f, key), NextAll(all, EffectOf(s, c), f))
  {
    CallFollows(s, c, f);
    ExactFollows(RecordOf(s, f), RecordOf(s', f), f, EffectOf(s, c), key, refused, all);
  }

  lemma ClearedExact(r: Record, key: LogKey)
    requires r.suppressed == map[] && r.other == 0
    ensures Exact(r, key, 0, 0)
  {
    NoLines(r);
  }

  /** A summary never has more than 16 keys, and in every state of every run its counts are those of
      the lines refused since the last sweep: by key for the keys it lists, and in total. */
  lemma {:induction false} CountsAreExact(calls: seq<Call>, n: nat, s: State, f: Source, key: LogKey)
    requires n <= |calls| && s == After(calls, n, None)
    ensures Exact(RecordOf(s, f), key, Refused(calls, n, f, key), RefusedAll(calls, n, f))
  {
    if n == 0 {
      ClearedExact(RecordOf(s, f), key);
    } else {
      var before := After(calls, n - 1, None);
      CountsAreExact(calls, n - 1, before, f, key);
      ExactStep(before, calls[n - 1], s, f, key, Refused(calls, n - 1, f, key), RefusedAll(calls, n - 1, f));
    }
  }

  // ---------------------------------------------------------------------------------------------
  // Lines are conserved

  ghost function PendingBy(s: State): map<Source, int> { map f | f in Sources(s) :: Lines(RecordOf(s, f)) }

  /** The lines waiting for the next sweep. */
  ghost function Pending(s: State): int { Sum(PendingBy(s)) }

  ghost function LinesIn(m: Summary): int { Sum(m.counts) + m.other }

  /** The lines a sweep reports. */
  ghost function Reported(summaries: map<Source, Summary>): int {
    Sum(map f | f in summaries :: LinesIn(summaries[f]))
  }

  function LogCalls(calls: seq<Call>, n: nat): nat
    requires n <= |calls|
  {
    if n == 0 then 0
    else LogCalls(calls, n - 1) + if calls[n - 1].Log? || calls[n - 1].LogUnknown? then 1 else 0
  }

  function Written(calls: seq<Call>, n: nat): nat
    requires n <= |calls|
  {
    if n == 0 then 0
    else
      var s, c := After(calls, n - 1, None), calls[n - 1];
      Written(calls, n - 1) + if (c.Log? || c.LogUnknown?) && ReplyTo(s, c) == Yes then 1 else 0
  }

  ghost function ReportedBy(calls: seq<Call>, n: nat): int
    requires n <= |calls|
  {
    if n == 0 then 0
    else ReportedBy(calls, n - 1)
         + if calls[n - 1].Sweep? then Reported(Summaries(After(calls, n - 1, None))) else 0
  }

  /** Zeros can be left out of a sum. */
  lemma {:induction false} SumOfNonZero<K(!new)>(m: map<K, int>, part: map<K, int>)
    requires part.Keys <= m.Keys && (forall k :: k in part ==> part[k] == m[k])
    requires forall k :: k in m && k !in part ==> m[k] == 0
    ensures Sum(m) == Sum(part)
    decreases |m|
  {
    if m != map[] {
      var k :| k in m;
      SumSplit(m, k);
      if k in part {
        SumSplit(part, k);
      } else {
        assert part - {k} == part;
      }
      SumOfNonZero(m - {k}, part - {k});
    } else {
      assert part == map[];
    }
  }

  lemma ReportedIsPending(s: State)
    requires forall f :: RecordOf(s, f).other >= 0
    ensures Reported(Summaries(s)) == Pending(s)
  {
    var reported := map f | f in Summaries(s) :: LinesIn(Summaries(s)[f]);
    forall f | f in PendingBy(s) && f !in reported
      ensures PendingBy(s)[f] == 0
    {
      assert RecordOf(s, f).suppressed == map[];
    }
    SumOfNonZero(PendingBy(s), reported);
  }

  /** A sweep reports everything that was pending, forgotten records included, and leaves nothing. */
  lemma SweepReportsAll(s: State, now: real)
    requires forall f :: RecordOf(s, f).other >= 0
    ensures Reported(Summaries(s)) == Pending(s)
    ensures Pending(Apply(s, Sweep(now), None)) == 0
  {
    ReportedIsPending(s);
    var s' := Apply(s, Sweep(now), None);
    forall f | f in PendingBy(s')
      ensures PendingBy(s')[f] == 0
    {
      CallFollows(s, Sweep(now), f);
      NoLines(RecordOf(s', f));
    }
    SumZero(PendingBy(s'));
  }

  /** The one record a call may create or change. */
  function Moved(s: State, c: Call): Source {
    match c
    case Acquire(_, ip, _, _, _) => From(PlaceFor(s.records, ip))
    case Release(h, _) => if h in s.handles then From(s.handles[h].place) else Unknown
    case Allow(ip, _, _) => From(PlaceFor(s.records, ip))
    case Log(ip, _, _) => From(PlaceFor(s.records, ip))
    case LogUnknown(_, _) => Unknown
    case Sweep(_) => Unknown
  }

  lemma SourcesAfter(s: State, c: Call)
    requires !c.Sweep?
    ensures Sources(s) <= Sources(Apply(s, c, None)) <= Sources(s) + {Moved(s, c)}
    ensures EffectOf(s, c).Counts? ==>
              EffectOf(s, c).source == Moved(s, c) && Moved(s, c) in Sources(Apply(s, c, None))
  {
    var s' := Apply(s, c, None);
    assert forall p :: p in s.records ==> p in s'.records;
    assert forall p :: p in s'.records ==> p in s.records || From(p) == Moved(s, c);
  }

  /** Adding to one entry, which may be new and worth nothing before, adds to the sum. */
  ghost predicate Moves<K(!new)>(before: map<K, int>, after: map<K, int>, k: K, delta: int) {
    && before.Keys <= after.Keys <= before.Keys + {k}
    && (forall j :: j in before && j != k ==> after[j] == before[j])
    && if k in after then after[k] == (if k in before then before[k] else 0) + delta else delta == 0
  }

  lemma SumMoved<K(!new)>(before: map<K, int>, after: map<K, int>, k: K, delta: int)
    requires Moves(before, after, k, delta)
    ensures Sum(after) == Sum(before) + delta
  {
    if k in after {
      assert after == before[k := after[k]];
      SumUpdate(before, k, after[k]);
    } else {
      assert after == before;
    }
  }

  lemma LinesNew(r: Record, r': Record, f: Source, e: Effect)
    requires Follows(r, r', f, e) && !e.Clears? && r.suppressed == map[] && r.other == 0
    ensures Lines(r') == if e.Counts? && e.source == f then 1 else 0
  {
    LinesFollow(r, r', f, e);
    NoLines(r);
  }

  lemma LinesAt(s: State, s': State, e: Effect, moved: Source, f: Source)
    requires !e.Clears? && f in Sources(s') && (f in Sources(s) || f == moved)
    requires (e.Counts? ==> e.source == moved) && Follows(RecordOf(s, f), RecordOf(s', f), f, e)
    ensures PendingBy(s')[f] ==
            (if f in PendingBy(s) then PendingBy(s)[f] else 0) + (if f == moved && e.Counts? then 1 else 0)
  {
    if f in Sources(s) {
      LinesFollow(RecordOf(s, f), RecordOf(s', f), f, e);
    } else {
      LinesNew(RecordOf(s, f), RecordOf(s', f), f, e);
    }
  }

  lemma PendingMoves(s: State, s': State, e: Effect, moved: Source)
    requires !e.Clears? && Sources(s) <= Sources(s') <= Sources(s) + {moved}
    requires e.Counts? ==> e.source == moved && moved in Sources(s')
    requires forall f :: f in Sources(s') ==> Follows(RecordOf(s, f), RecordOf(s', f), f, e)
    ensures Moves(PendingBy(s), PendingBy(s'), moved, if e.Counts? then 1 else 0)
  {
    var before, after := PendingBy(s), PendingBy(s');
    forall f | f in after
      ensures after[f] == (if f in before then before[f] else 0) + (if f == moved && e.Counts? then 1 else 0)
    {
      LinesAt(s, s', e, moved, f);
    }
  }

  lemma PendingFollows(s: State, s': State, e: Effect, moved: Source)
    requires !e.Clears? && Sources(s) <= Sources(s') <= Sources(s) + {moved}
    requires e.Counts? ==> e.source == moved && moved in Sources(s')
    requires forall f :: f in Sources(s') ==> Follows(RecordOf(s, f), RecordOf(s', f), f, e)
    ensures Pending(s') == Pending(s) + if e.Counts? then 1 else 0
  {
    PendingMoves(s, s', e, moved);
    SumMoved(PendingBy(s), PendingBy(s'), moved, if e.Counts? then 1 else 0);
  }

  /** In every run: lines logged = lines written + lines reported by sweeps + lines pending. */
  lemma {:induction false} LinesAreConserved(calls: seq<Call>, n: nat)
    requires n <= |calls|
    ensures LogCalls(calls, n) == Written(calls, n) + ReportedBy(calls, n) + Pending(After(calls, n, None))
  {
    if n == 0 {
      SumZero(PendingBy(EMPTY));
    } else {
      LinesAreConserved(calls, n - 1);
      var s, c := After(calls, n - 1, None), calls[n - 1];
      if c.Sweep? {
        forall f
          ensures RecordOf(s, f).other >= 0
        {
          CountsAreExact(calls, n - 1, s, f, LogKey("", ""));
        }
        SweepReportsAll(s, c.now);
      } else {
        SourcesAfter(s, c);
        forall f
          ensures Follows(RecordOf(s, f), RecordOf(Apply(s, c, None), f), f, EffectOf(s, c))
        {
          CallFollows(s, c, f);
        }
        PendingFollows(s, After(calls, n, None), EffectOf(s, c), Moved(s, c));
      }
    }
  }
}
