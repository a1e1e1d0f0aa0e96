/** The pools of upstream connections, one for each approved destination in use. Times are nanoseconds. */
module Pools {
  import opened Basics
  import opened Netip
  import opened Vetted
  import opened PoolKeys

  const MAX_POOLS := 1024
  const IDLE_TIMEOUT := 30_000_000_000

  /** A transport is the destination that its dialer captured, and whether its idle connections were closed. */
  class Transport {
    const dest: Vetted
    var idleClosed: bool
    /** The key of the pool it is for. */
    ghost const key: string

    constructor (dest: Vetted, ghost key: string)
      ensures this.dest == dest && !idleClosed && this.key == key
    {
      this.dest := dest;
      this.idleClosed := false;
      this.key := key;
    }
  }

  class Pool {
    const tr: Transport
    var used: int
    /** The scheme of the request that the pool was made for. */
    ghost const scheme: string

    constructor (tr: Transport, used: int, ghost scheme: string)
      ensures this.tr == tr && this.used == used && this.scheme == scheme
    {
      this.tr, this.used := tr, used;
      this.scheme := scheme;
    }
  }

  /** Equal keys mean the same scheme and destination, and no key is empty. */
  predicate ApartAt(keyOf: (string, Vetted) -> string, s: string, v: Vetted, t: string, w: Vetted) {
    && (Fit(s, v) && Fit(t, w) ==> (keyOf(s, v) == keyOf(t, w) <==> s == t && SameDestination(v, w)))
    && keyOf(s, v) != ""
  }

  ghost predicate TellsApart(keyOf: (string, Vetted) -> string) {
    forall s, v, t, w :: ApartAt(keyOf, s, v, t, w)
  }

  /** The function is what `PoolKey` computes. */
  predicate ComputedAt(keyOf: (string, Vetted) -> string, show: Addr -> string, s: string, v: Vetted) {
    keyOf(s, v) == Key(show, s, v)
  }

  ghost predicate Computed(keyOf: (string, Vetted) -> string, show: Addr -> string) {
    forall s, v :: ComputedAt(keyOf, show, s, v)
  }

  lemma KeyTellsApart(show: Addr -> string, keyOf: (string, Vetted) -> string)
    requires PrintsApart(show) && Computed(keyOf, show)
    ensures TellsApart(keyOf)
  {
    forall s, v, t, w
      ensures ApartAt(keyOf, s, v, t, w)
    {
      assert ComputedAt(keyOf, show, s, v) && ComputedAt(keyOf, show, t, w);
      if Fit(s, v) && Fit(t, w) {
        KeysApart(show, s, v, t, w);
      }
    }
  }

  function Evicted(pools: map<string, Pool>, gone: Option<string>): map<string, Pool> {
    if gone.Some? then pools - {gone.value} else pools
  }

  lemma FewerPools(pools: map<string, Pool>, k: string)
    requires k in pools
    ensures |pools - {k}| == |pools| - 1
  {
    assert (pools - {k}).Keys == pools.Keys - {k};
    assert |pools| == |pools.Keys| && |pools - {k}| == |(pools - {k}).Keys|;
  }

  class UpstreamPools {
    /** How addresses are printed. */
    const show: Addr -> string
    ghost const keyOf: (string, Vetted) -> string
    var pools: map<string, Pool>

    ghost predicate KeyedAt(k: string, p: Pool) {
      p.tr.key == k && Fit(p.scheme, p.tr.dest) && k == keyOf(p.scheme, p.tr.dest)
    }

    /** Every pool is for the destination that its key says. */
    ghost predicate Keyed()
      reads this
    {
      forall k :: k in pools ==> KeyedAt(k, pools[k])
    }

    /** No transport in use has been told to close its idle connections. */
    ghost predicate Open()
      reads this, Transports()
    {
      forall k :: k in pools ==> !pools[k].tr.idleClosed
    }

    ghost function Transports(): set<Transport>
      reads this
    {
      set k | k in pools :: pools[k].tr
    }

    ghost predicate Valid()
      reads this, Transports()
    {
      |pools| <= MAX_POOLS && Keyed() && Open() && TellsApart(keyOf) && Computed(keyOf, show)
    }

    constructor (show: Addr -> string)
      requires PrintsApart(show)
      ensures Valid() && pools == map[] && this.show == show
    {
      this.show := show;
      pools := map[];
      ghost var keys := (scheme, v) => Key(show, scheme, v);
      keyOf := keys;
      assert Computed(keys, show);
      KeyTellsApart(show, keys);
    }

    ghost predicate Oldest(k: string)
      reads this, pools.Values
    {
      k in pools && forall j :: j in pools ==> pools[k].used <= pools[j].used
    }

    method Drop(k: string)
      requires Keyed() && Open() && k in pools
      modifies this, pools[k].tr
      ensures Keyed() && Open() && pools == old(pools) - {k} && old(pools)[k].tr.idleClosed
    {
      ghost var tr := pools[k].tr;
      pools[k].tr.idleClosed := true;
      pools := pools - {k};
      assert forall j :: j in pools ==> KeyedAt(j, pools[j]) && pools[j].tr != tr;
    }

    /** Evicts a pool that no other was used before. */
    method DropOldest() returns (ghost oldest: string)
      requires Keyed() && Open() && TellsApart(keyOf) && pools != map[]
      modifies this, Transports()
      ensures old(Oldest(oldest)) && pools == old(pools) - {oldest} && old(pools)[oldest].tr.idleClosed
      ensures Keyed() && Open()
    {
      var k := FindOldest();
      oldest := k;
      Drop(k);
    }

    /** A running minimum; the empty string stands for none yet, and no key is empty. */
    method FindOldest() returns (oldest: string)
      requires Keyed() && TellsApart(keyOf) && pools != map[]
      ensures Oldest(oldest)
    {
      oldest := "";
      var todo := pools.Keys;
      while todo != {}
        invariant todo <= pools.Keys
        invariant oldest == "" ==> todo == pools.Keys
        invariant oldest != "" ==> oldest in pools && forall j :: j in pools && j !in todo ==> pools[oldest].used <= pools[j].used
      {
        var k :| k in todo;
        todo := todo - {k};
        assert KeyedAt(k, pools[k]) && ApartAt(keyOf, pools[k].scheme, pools[k].tr.dest, "", pools[k].tr.dest);
        if oldest == "" || pools[k].used < pools[oldest].used {
          oldest := k;
        }
      }
    }

    /** The transport for an approved destination. It leads there and nowhere else, and is the one there was if there was
        one. The other pools stay, except that the least recently used one makes room when there are too many. */
    method GetTransport(scheme: string, v: Vetted, now: int)
      returns (tr: Transport, ghost gone: Option<string>)
      requires Valid() && Fit(scheme, v)
      modifies this, pools.Values, Transports()
      ensures Valid()
      ensures SameDestination(tr.dest, v) && !tr.idleClosed
      ensures Placed(old(pools), keyOf(scheme, v), tr, now, gone)
      ensures forall p :: p in old(pools.Values) && p.tr != tr ==> p.used == old(p.used)
      ensures gone.Some? ==> old(Oldest(gone.value)) && old(pools)[gone.value].tr.idleClosed
    {
      var key := PoolKey(show, scheme, v);
      assert ComputedAt(keyOf, show, scheme, v);
      tr, gone := TransportFor(key, scheme, v, now);
    }

    /** The pool under this key has this transport and was used now; of the others at most one is gone, and that only if
        there were too many. */
    ghost predicate Placed(before: map<string, Pool>, key: string, tr: Transport, now: int, gone: Option<string>)
      reads this, pools.Values
    {
      && key in pools && pools[key].tr == tr && pools[key].used == now
      && (key in before ==> pools[key] == before[key])
      && (gone.None? <==> key in before || |before| < MAX_POOLS)
      && pools == Evicted(before, gone)[key := pools[key]]
    }

    method TransportFor(key: string, ghost scheme: string, v: Vetted, now: int)
      returns (tr: Transport, ghost gone: Option<string>)
      requires Valid() && Fit(scheme, v) && key == keyOf(scheme, v)
      modifies this, pools.Values, Transports()
      ensures Valid()
      ensures SameDestination(tr.dest, v) && !tr.idleClosed
      ensures Placed(old(pools), key, tr, now, gone)
      ensures forall p :: p in old(pools.Values) && p.tr != tr ==> p.used == old(p.used)
      ensures gone.Some? ==> old(Oldest(gone.value)) && old(pools)[gone.value].tr.idleClosed
    {
      if key in pools {
        tr := Reuse(key, scheme, v, now);
        return tr, None;
      }
      gone := MakeRoom();
      tr := AddPool(key, scheme, v, now);
    }

    method Reuse(key: string, ghost scheme: string, ghost v: Vetted, now: int) returns (tr: Transport)
      requires Valid() && Fit(scheme, v) && key in pools && key == keyOf(scheme, v)
      modifies pools[key]
      ensures Valid() && pools == old(pools) && tr == pools[key].tr && SameDestination(tr.dest, v) && !tr.idleClosed && pools[key].used == now
    {
      var p := pools[key];
      assert KeyedAt(key, p) && ApartAt(keyOf, scheme, v, p.scheme, p.tr.dest);
      p.used := now;
      tr := p.tr;
    }

    method MakeRoom() returns (ghost gone: Option<string>)
      requires Valid()
      modifies this, Transports()
      ensures Valid() && |pools| < MAX_POOLS && pools == Evicted(old(pools), gone)
      ensures gone.None? <==> |old(pools)| < MAX_POOLS
      ensures gone.Some? ==> old(Oldest(gone.value)) && old(pools)[gone.value].tr.idleClosed
    {
      gone := None;
      if |pools| >= MAX_POOLS {
        ghost var oldest := DropOldest();
        gone := Some(oldest);
        FewerPools(old(pools), oldest);
      }
    }

    method AddPool(key: string, ghost scheme: string, v: Vetted, now: int) returns (tr: Transport)
      requires Keyed() && Open() && |pools| < MAX_POOLS && Fit(scheme, v) && key == keyOf(scheme, v) && key !in pools
      modifies this
      ensures |pools| <= MAX_POOLS && Keyed() && Open() && fresh(tr) && tr.dest == v && !tr.idleClosed
      ensures key in pools && pools == old(pools)[key := pools[key]] && pools[key].tr == tr && pools[key].used == now
    {
      tr := new Transport(v, key);
      var p := new Pool(tr, now, scheme);
      pools := pools[key := p];
      assert KeyedAt(key, p);
    }

    /** Of the pools in `before`, those that are not in `todo` are gone if they are too old. */
    ghost predicate Swept(before: map<string, Pool>, todo: set<string>, now: int)
      reads this, before.Values, set k | k in before :: before[k].tr
    {
      && Keyed() && todo <= pools.Keys
      && (forall k :: k in pools ==> k in before && pools[k] == before[k] && !before[k].tr.idleClosed)
      && (forall k :: k in before && k !in todo ==> (k in pools <==> now - before[k].used <= IDLE_TIMEOUT))
      && (forall k :: k in before && k !in pools ==> before[k].tr.idleClosed)
    }

    method SweepNext(ghost before: map<string, Pool>, ghost todo: set<string>, k: string, now: int)
      requires Swept(before, todo, now) && k in todo
      modifies this, pools[k].tr
      ensures Swept(before, todo - {k}, now)
    {
      assert forall j :: j in pools ==> KeyedAt(j, pools[j]);
      if now - pools[k].used > IDLE_TIMEOUT {
        Drop(k);
      }
    }

    /** Drops the pools that have been unused for too long, and no others. */
    method Sweep(now: int)
      requires Valid()
      modifies this, Transports()
      ensures Valid()
      ensures pools == map k | k in old(pools) && now - old(pools)[k].used <= IDLE_TIMEOUT :: old(pools)[k]
      ensures forall k :: k in old(pools) && k !in pools ==> old(pools)[k].tr.idleClosed
    {
      var todo := pools.Keys;
      while todo != {}
        invariant Swept(old(pools), todo, now)
      {
        var k :| k in todo;
        SweepNext(old(pools), todo, k, now);
        todo := todo - {k};
      }
      SubsetSize(pools.Keys, old(pools).Keys);
    }
  }
}
