/** The choice of an exit for a request: static pool, dynamic pool, or a direct connection
    (`pickProxyPreferringExcept`, `fetchOrStickyRemoteProxyExcept`, `acquireSlotExcept`). */
module Egress {
  import opened Options
  import opened RateLimit
  import opened ProxyPool
  import opened Text

  datatype Mode = Auto | DirectOnly | StaticOnly | DynamicOnly | PoolOnly

  /** What `acquireSlotExcept` reads of the configuration, besides the pool's own settings. */
  datatype Policy = Policy(pool: Config, mode: Mode, hasPoolURL: bool, fallbackDirect: bool)

  /** An exit: id 0 is the direct connection, positive ids are static proxies, negative ids
      are dynamic ones. */
  datatype Exit = Exit(id: int, url: string)

  ghost predicate Room(loads: imap<int, Load>, id: int, now: int, cfg: Config) {
    id in loads && Verdict(loads[id], now, cfg.limits).Granted?
  }

  /** Every proxy listed under `url` has room. */
  ghost predicate AllRoom(list: seq<Proxy>, url: string, loads: imap<int, Load>, now: int, cfg: Config) {
    forall q :: q in list && q.url == url ==> Room(loads, q.id, now, cfg)
  }

  predicate Eligible(p: Proxy, excluded: set<int>, now: int, cfg: Config) {
    p.id !in excluded && Usable(p, now, cfg)
  }

  /** The proxies a pick may choose from, in id order. */
  function Candidates(cache: seq<Proxy>, excluded: set<int>, now: int, cfg: Config): (pool: seq<Proxy>)
    ensures forall p :: p in pool <==> p in cache && Eligible(p, excluded, now, cfg)
    decreases |cache|
  {
    if cache == [] then []
    else
      var n := |cache| - 1;
      assert forall p :: p in cache <==> p in cache[..n] || p == cache[n];
      Candidates(cache[..n], excluded, now, cfg)
      + (if Eligible(cache[n], excluded, now, cfg) then [cache[n]] else [])
  }

  /** The times do not go back, and start no earlier than `clock`. */
  ghost predicate InOrder(times: seq<int>, clock: int) {
    forall i, j :: 0 <= i <= j < |times| ==> clock <= times[i] <= times[j]
  }

  ghost predicate IdsIncrease(list: seq<Proxy>) {
    forall i, j :: 0 <= i < j < |list| ==> list[i].id < list[j].id
  }

  /** The candidate `k` places behind the start of a round. */
  function InTurn(list: seq<Proxy>, start: nat, k: nat): Proxy
    requires list != []
  {
    list[(start + k) % |list|]
  }

  /** `p` is the first candidate with room, counting round from `start`. */
  ghost predicate FirstInTurn(p: Proxy, list: seq<Proxy>, start: nat, loads: imap<int, Load>, now: int, cfg: Config)
    requires list != []
  {
    exists turn: nat ::
      && turn < |list| && p == InTurn(list, start, turn)
      && forall k: nat :: k < turn ==> !Room(loads, InTurn(list, start, k).id, now, cfg)
  }

  /** The first proxy from `i` on with the given id, or, without one, the given URL. */
  function FirstWith(list: seq<Proxy>, i: nat, id: Option<int>, url: string): (p: Option<Proxy>)
    requires i <= |list|
    ensures p.Some? ==> p.value in list && if id.Some? then p.value.id == id.value else p.value.url == url
    ensures p.None? ==>
              forall k :: i <= k < |list| ==> if id.Some? then list[k].id != id.value else list[k].url != url
    decreases |list| - i
  {
    if i == |list| then None
    else if (if id.Some? then list[i].id == id.value else list[i].url == url) then Some(list[i])
    else FirstWith(list, i + 1, id, url)
  }

  /** What is asked for before it goes in turn: the preferred proxy, or without a preference the sticky
      one. */
  function Wanted(list: seq<Proxy>, prefer: int, excluded: set<int>, stickyURL: string, stickyID: int, cfg: Config)
    : Option<Proxy>
  {
    if prefer > 0 && prefer !in excluded then FirstWith(list, 0, Some(prefer), "")
    else if prefer <= 0 && cfg.sticky && stickyURL != "" && stickyID !in excluded then
      FirstWith(list, 0, None, stickyURL)
    else None
  }

  function ExitOf(p: Option<Proxy>): Option<Exit> {
    if p.Some? then Some(Exit(p.value.id, p.value.url)) else None
  }

  ghost function WithRoom(p: Option<Proxy>, loads: imap<int, Load>, now: int, cfg: Config): Option<Proxy> {
    if p.Some? && Room(loads, p.value.id, now, cfg) then p else None
  }

  /** The first candidate with room, from `k` places behind `start` on. */
  ghost function NextWithRoom(list: seq<Proxy>, start: nat, k: nat, loads: imap<int, Load>, now: int, cfg: Config)
    : (p: Option<Proxy>)
    ensures p.Some? ==> p.value in list && Room(loads, p.value.id, now, cfg)
    decreases |list| - k
  {
    if k >= |list| then None
    else
      var q := InTurn(list, start, k);
      if Room(loads, q.id, now, cfg) then Some(q) else NextWithRoom(list, start, k + 1, loads, now, cfg)
  }

  /** The proxy picked among the candidates. */
  ghost function PickOf(list: seq<Proxy>, prefer: int, excluded: set<int>, stickyURL: string, stickyID: int,
                        cursor: nat, loads: imap<int, Load>, now: int, cfg: Config): Option<Proxy> {
    var wanted := WithRoom(Wanted(list, prefer, excluded, stickyURL, stickyID, cfg), loads, now, cfg);
    if wanted.Some? then wanted else NextWithRoom(list, cursor, 0, loads, now, cfg)
  }

  /** What the choice of a dynamic exit looks at. */
  datatype Dynamics = Dynamics(
    stickyURL: string, stickyID: int, ids: map<string, int>, urls: map<int, string>, next: int,
    stats: map<string, DynamicStat>, loads: imap<int, Load>)

  predicate IsCooling(stats: map<string, DynamicStat>, url: string, now: int, cfg: Config) {
    && url != "" && cfg.cooldownMin > 0 && url in stats && stats[url].failCount >= FailThreshold(cfg)
    && now - stats[url].lastUsed < cfg.cooldownMin * 60
  }

  /** The exit used last is a dynamic one that can be had. */
  ghost predicate StickyFits(d: Dynamics, excluded: set<string>, now: int, cfg: Config) {
    && cfg.sticky && d.stickyURL != "" && d.stickyID in d.urls && d.stickyURL !in excluded
    && !IsCooling(d.stats, d.stickyURL, now, cfg) && Room(d.loads, d.stickyID, now, cfg)
  }

  /** The slot id of a URL, which a new one is still to get. */
  function SlotId(d: Dynamics, url: string): int {
    if url in d.ids then d.ids[url] else d.next
  }

  /** An exit with this URL can be had; the slot of a new one has room. */
  ghost predicate Fits(d: Dynamics, url: string, excluded: set<string>, now: int, cfg: Config) {
    && url !in excluded && !IsCooling(d.stats, url, now, cfg)
    && (url in d.ids ==> Room(d.loads, d.ids[url], now, cfg))
  }

  /** The exit of the first answer that names one to be had, from answer `k` on. */
  ghost function FirstGood(d: Dynamics, k: nat, excluded: set<string>, now: int, cfg: Config, fetch: nat -> Fetched)
    : Option<Exit>
    decreases MAX_FETCH_ATTEMPTS - k
  {
    if k >= MAX_FETCH_ATTEMPTS || fetch(k).FetchFails? || fetch(k).url == "" then None
    else if Fits(d, fetch(k).url, excluded, now, cfg) then Some(Exit(SlotId(d, fetch(k).url), fetch(k).url))
    else FirstGood(d, k + 1, excluded, now, cfg, fetch)
  }

  lemma FirstGoodStep(d: Dynamics, k: nat, excluded: set<string>, now: int, cfg: Config, fetch: nat -> Fetched)
    ensures FirstGood(d, k, excluded, now, cfg, fetch)
         == if k >= MAX_FETCH_ATTEMPTS || fetch(k).FetchFails? || fetch(k).url == "" then None
            else if Fits(d, fetch(k).url, excluded, now, cfg) then Some(Exit(SlotId(d, fetch(k).url), fetch(k).url))
            else FirstGood(d, k + 1, excluded, now, cfg, fetch)
  {
    hide Fits, SlotId;
  }

  ghost predicate GoodAnswer(d: Dynamics, k: nat, excluded: set<string>, now: int, cfg: Config, fetch: nat -> Fetched) {
    && (forall i: nat :: i <= k ==> fetch(i).FetchOk? && fetch(i).url != "")
    && Fits(d, fetch(k).url, excluded, now, cfg)
  }

  /** It is the exit that the first good answer names, if there is one among those looked at. */
  lemma {:induction false} FirstGoodIs(d: Dynamics, from: nat, excluded: set<string>, now: int, cfg: Config,
                                       fetch: nat -> Fetched)
    requires from <= MAX_FETCH_ATTEMPTS
    requires forall i: nat :: i < from ==> fetch(i).FetchOk? && fetch(i).url != ""
    requires forall i: nat :: i < from ==> !GoodAnswer(d, i, excluded, now, cfg, fetch)
    ensures match FirstGood(d, from, excluded, now, cfg, fetch)
            case None => forall k: nat :: k < MAX_FETCH_ATTEMPTS ==> !GoodAnswer(d, k, excluded, now, cfg, fetch)
            case Some(e) =>
              exists k: nat ::
                && k < MAX_FETCH_ATTEMPTS && GoodAnswer(d, k, excluded, now, cfg, fetch)
                && (forall j: nat :: j < k ==> !GoodAnswer(d, j, excluded, now, cfg, fetch))
                && e == Exit(SlotId(d, fetch(k).url), fetch(k).url)
    decreases MAX_FETCH_ATTEMPTS - from
  {
    hide Fits, SlotId;
    if from < MAX_FETCH_ATTEMPTS && fetch(from).FetchOk? && fetch(from).url != "" {
      if Fits(d, fetch(from).url, excluded, now, cfg) {
        assert GoodAnswer(d, from, excluded, now, cfg, fetch);
      } else {
        FirstGoodIs(d, from + 1, excluded, now, cfg, fetch);
      }
    }
  }

  /** The sticky exit, or else that of the first good answer. */
  ghost function DynamicChoice(d: Dynamics, excluded: set<string>, now: int, cfg: Config, fetch: nat -> Fetched)
    : Option<Exit>
  {
    if StickyFits(d, excluded, now, cfg) then Some(Exit(d.stickyID, d.stickyURL))
    else FirstGood(d, 0, excluded, now, cfg, fetch)
  }

  /** One answer of the remote pool. */
  datatype Fetched = FetchFails | FetchOk(url: string)

  const MAX_FETCH_ATTEMPTS := 10

  datatype DynamicStat = DynamicStat(failCount: int, lastUsed: int)

  /** The row of a reported exit, if there is one, records the outcome. */
  function RowRecorded(table: map<int, Proxy>, id: int, o: Outcome, cfg: Config): map<int, Proxy> {
    if id in table then table[id := Recorded(table[id], o, cfg)] else table
  }

  /** Ids from `next` down were never given to an exit. */
  ghost predicate UnusedBelow(loads: imap<int, Load>, next: int) {
    forall id: int :: id <= next ==> id in loads && loads[id] == UNUSED
  }

  lemma UnusedAcquired(loads: imap<int, Load>, next: int, id: int, now: int, lim: Limits)
    requires UnusedBelow(loads, next) && next < id && id in loads
    ensures UnusedBelow(Acquired(loads, id, now, lim), next)
  {
  }

  lemma UnusedReleased(loads: imap<int, Load>, next: int, id: int)
    requires UnusedBelow(loads, next) && id in loads
    ensures UnusedBelow(Released(loads, id), next)
  {
  }

  lemma RoomIs(loads: imap<int, Load>, id: int, now: int, cfg: Config)
    requires id in loads
    ensures Room(loads, id, now, cfg) == Verdict(loads[id], now, cfg.limits).Granted?
  {
    hide Verdict;
  }

  lemma FewerUnused(loads: imap<int, Load>, next: int, lower: int)
    requires UnusedBelow(loads, next) && lower <= next
    ensures UnusedBelow(loads, lower)
  {
  }

  /** An exit that was never used has room, whatever the limits. */
  lemma UnusedHasRoom(loads: imap<int, Load>, next: int, id: int, now: int, cfg: Config)
    requires UnusedBelow(loads, next) && id <= next
    ensures Room(loads, id, now, cfg)
  {
    SinceNone([], now - MINUTE);
    SinceNone([], now - HOUR);
    assert Times([]) == [];
  }

  class Exits {
    const pool: ProxyTable
    const slots: SlotTable
    var cursor: nat
    var stickyURL: string
    var stickyID: int
    var dynamicIds: map<string, int>
    var dynamicURLs: map<int, string>
    var nextDynamicId: int
    var dynamicStats: map<string, DynamicStat>

    /** Dynamic URLs and negative ids correspond one to one. */
    ghost predicate DynamicValid()
      reads this`dynamicIds, this`dynamicURLs, this`nextDynamicId, this`stickyID, this`stickyURL
    {
      && (forall u :: u in dynamicIds ==> dynamicIds[u] in dynamicURLs && dynamicURLs[dynamicIds[u]] == u)
      && (forall i :: i in dynamicURLs ==> dynamicURLs[i] in dynamicIds && dynamicIds[dynamicURLs[i]] == i)
      && (forall i :: i in dynamicURLs ==> nextDynamicId < i <= -1000)
      && nextDynamicId <= -1000
      && (stickyID < 0 ==> stickyID in dynamicURLs && dynamicURLs[stickyID] == stickyURL)
    }

    /** A dynamic URL that is new gets an id whose slot was never used. */
    ghost predicate Untouched()
      reads this`nextDynamicId, slots, slots.slots.Values
    {
      UnusedBelow(slots.Loads(), nextDynamicId)
    }

    lemma IdsBelow()
      requires DynamicValid()
      ensures nextDynamicId <= -1000 && forall i :: i in dynamicURLs ==> nextDynamicId < i < 0
    {
    }

    ghost predicate Valid()
      reads this, pool, slots, slots.slots.Values
    {
      && slots.Valid() && pool.Valid() && DynamicValid() && Untouched()
      && forall p :: p in pool.cache ==> p.id > 0
    }

    constructor (pool: ProxyTable)
      requires pool.Valid() && pool.cache == []
      ensures Valid() && this.pool == pool && fresh(slots) && fresh(slots.slots.Values)
      ensures slots.clock == 0 && forall id :: slots.Loads()[id] == UNUSED
      ensures dynamicIds == map[] && dynamicStats == map[]
    {
      this.pool := pool;
      slots := new SlotTable();
      cursor, stickyURL, stickyID := 0, "", 0;
      dynamicIds, dynamicURLs, nextDynamicId := map[], map[], -1000;
      dynamicStats := map[];
    }

    // -------------------------------------------------------------- static pool

    method BuildCandidates(excluded: set<int>, now: int, cfg: Config) returns (list: seq<Proxy>)
      ensures list == Candidates(pool.cache, excluded, now, cfg)
    {
      list := [];
      var cache := pool.cache;
      for i := 0 to |cache|
        invariant list == Candidates(cache[..i], excluded, now, cfg)
      {
        assert cache[..i + 1][..i] == cache[..i];
        if cache[i].id in excluded {
          continue;
        }
        if Usable(cache[i], now, cfg) {
          list := list + [cache[i]];
        }
      }
      assert cache[..|cache|] == cache;
    }

    /** The first candidate with the given id (or, without one, the given URL), if it has room. */
    method TryFirst(list: seq<Proxy>, id: Option<int>, url: string, now: int, cfg: Config) returns (p: Option<Proxy>)
      requires slots.Valid() && slots.clock <= now
      modifies slots, slots.slots.Values
      ensures slots.Valid() && slots.clock <= now
      ensures fresh(slots.slots.Values - old(slots.slots.Values))
      ensures p.Some? ==>
                && p.value in list && Room(old(slots.Loads()), p.value.id, now, cfg)
                && (if id.Some? then p.value.id == id.value else p.value.url == url)
                && slots.Loads() == Acquired(old(slots.Loads()), p.value.id, now, cfg.limits)
      ensures p.None? ==> slots.Loads() == old(slots.Loads())
      ensures p.None? && id.Some? && Room(old(slots.Loads()), id.value, now, cfg) ==>
                forall q :: q in list ==> q.id != id.value
      ensures p.None? && id.None? && AllRoom(list, url, old(slots.Loads()), now, cfg) ==>
                forall q :: q in list ==> q.url != url
      ensures p == WithRoom(FirstWith(list, 0, id, url), old(slots.Loads()), now, cfg)
    {
      hide Verdict, Acquired;
      for i := 0 to |list|
        invariant FirstWith(list, i, id, url) == FirstWith(list, 0, id, url)
        invariant slots.Valid() && slots.clock <= now
        invariant fresh(slots.slots.Values - old(slots.slots.Values))
        invariant slots.Loads() == old(slots.Loads())
        invariant id.Some? ==> forall k :: 0 <= k < i ==> list[k].id != id.value
        invariant id.None? ==> forall k :: 0 <= k < i ==> list[k].url != url
      {
        if (if id.Some? then list[i].id == id.value else list[i].url == url) {
          var reason := slots.TryAcquire(list[i].id, now, cfg.limits);
          if reason.Granted? {
            return Some(list[i]);
          }
          return None;
        }
      }
      return None;
    }

    /** The candidates in turn from position `start` on. */
    method TryInTurn(list: seq<Proxy>, start: nat, now: int, cfg: Config) returns (p: Option<Proxy>)
      requires slots.Valid() && slots.clock <= now && list != []
      modifies slots, slots.slots.Values
      ensures slots.Valid() && slots.clock <= now
      ensures fresh(slots.slots.Values - old(slots.slots.Values))
      ensures p.Some? ==>
                && FirstInTurn(p.value, list, start, old(slots.Loads()), now, cfg)
                && p.value in list && Room(old(slots.Loads()), p.value.id, now, cfg)
                && slots.Loads() == Acquired(old(slots.Loads()), p.value.id, now, cfg.limits)
      ensures p.None? ==>
                && slots.Loads() == old(slots.Loads())
                && forall q :: q in list ==> !Room(old(slots.Loads()), q.id, now, cfg)
      ensures p == NextWithRoom(list, start, 0, old(slots.Loads()), now, cfg)
    {
      hide Verdict, Acquired, InTurn, FirstInTurn, SlotTable.Valid, SlotTable.Loads;
      ghost var loads := slots.Loads();
      var i := 0;
      while i < |list|
        invariant NextWithRoom(list, start, i, loads, now, cfg) == NextWithRoom(list, start, 0, loads, now, cfg)
        invariant 0 <= i <= |list|
        invariant slots.Valid() && slots.clock <= now
        invariant fresh(slots.slots.Values - old(slots.slots.Values))
        invariant slots.Loads() == loads == old(slots.Loads())
        invariant forall k: nat :: k < i ==> !Room(loads, InTurn(list, start, k).id, now, cfg)
      {
        var q := InTurn(list, start, i);
        InTurnIn(list, start, i);
        var reason := slots.TryAcquire(q.id, now, cfg.limits);
        if reason.Granted? {
          IsFirstInTurn(list, start, i, loads, now, cfg);
          return Some(q);
        }
        i := i + 1;
      }
      AllPassedOver(list, start);
      return None;
    }

    /** The preferred exit, or else the sticky one when nothing is preferred. */
    method TryPreferred(prefer: int, excluded: set<int>, list: seq<Proxy>, now: int, cfg: Config)
        returns (p: Option<Proxy>)
      requires slots.Valid() && slots.clock <= now
      modifies slots, slots.slots.Values
      ensures slots.Valid() && slots.clock <= now
      ensures fresh(slots.slots.Values - old(slots.slots.Values))
      ensures p.Some? ==>
                && p.value in list && Room(old(slots.Loads()), p.value.id, now, cfg)
                && (prefer > 0 ==> p.value.id == prefer)
                && (prefer <= 0 ==> cfg.sticky && stickyURL != "" && p.value.url == stickyURL)
                && slots.Loads() == Acquired(old(slots.Loads()), p.value.id, now, cfg.limits)
      ensures p.None? ==> slots.Loads() == old(slots.Loads())
      ensures p.None? && prefer > 0 && prefer !in excluded && Room(old(slots.Loads()), prefer, now, cfg) ==>
                forall q :: q in list ==> q.id != prefer
      ensures p.None? && prefer <= 0 && cfg.sticky && stickyURL != "" && stickyID !in excluded
              && AllRoom(list, stickyURL, old(slots.Loads()), now, cfg) ==>
                forall q :: q in list ==> q.url != stickyURL
      ensures p == WithRoom(Wanted(list, prefer, excluded, stickyURL, stickyID, cfg), old(slots.Loads()), now, cfg)
    {
      hide Verdict, Acquired, Room, SlotTable.Valid, SlotTable.Loads, FirstWith;
      p := None;
      if prefer > 0 && prefer !in excluded {
        p := TryFirst(list, Some(prefer), "", now, cfg);
      }
      if prefer <= 0 && cfg.sticky && stickyURL != "" && stickyID !in excluded {
        p := TryFirst(list, None, stickyURL, now, cfg);
      }
    }

    lemma CandidatesAre(excluded: set<int>, now: int, cfg: Config)
      ensures forall q :: q in Candidates(pool.cache, excluded, now, cfg) <==>
                            && q in pool.cache && q.id !in excluded && q.enabled
                            && (|| q.failCount < (if cfg.retryAttempts > 0 then cfg.retryAttempts else 1)
                                || (cfg.cooldownMin > 0 && now - q.lastUsed >= cfg.cooldownMin * 60))
    {
    }

    /** The proxy that a pick takes now. */
    ghost function StaticChoice(prefer: int, excluded: set<int>, now: int, cfg: Config): Option<Proxy>
      reads this, pool, slots, slots.slots.Values
    {
      PickOf(Candidates(pool.cache, excluded, now, cfg), prefer, excluded, stickyURL, stickyID, cursor, slots.Loads(),
             now, cfg)
    }

    /** `pickProxyPreferringExcept`. */
    method Pick(prefer: int, excluded: set<int>, now: int, cfg: Config) returns (p: Option<Proxy>)
      requires Valid() && slots.clock <= now
      modifies this`cursor, this`stickyURL, this`stickyID, slots, slots.slots.Values
      ensures Valid() && slots.clock <= now
      ensures fresh(slots.slots.Values - old(slots.slots.Values))
      // it succeeds exactly when some candidate has room
      ensures p.Some? <==>
                exists q :: q in Candidates(pool.cache, excluded, now, cfg) && Room(old(slots.Loads()), q.id, now, cfg)
      // so exactly when some proxy not excluded is switched on, has fewer failures than the threshold or
      // its cooldown behind it, and has room; and it returns such a one
      ensures p.Some? <==>
                exists q :: q in pool.cache && q.id !in excluded && q.enabled
                            && (|| q.failCount < (if cfg.retryAttempts > 0 then cfg.retryAttempts else 1)
                                || (cfg.cooldownMin > 0 && now - q.lastUsed >= cfg.cooldownMin * 60))
                            && Room(old(slots.Loads()), q.id, now, cfg)
      ensures p.Some? ==>
                && p.value in pool.cache && p.value.id !in excluded && p.value.enabled
                && (|| p.value.failCount < (if cfg.retryAttempts > 0 then cfg.retryAttempts else 1)
                    || (cfg.cooldownMin > 0 && now - p.value.lastUsed >= cfg.cooldownMin * 60))
      // and takes room on the one it returns and on no other
      ensures p.Some? ==>
                && p.value in Candidates(pool.cache, excluded, now, cfg)
                && Room(old(slots.Loads()), p.value.id, now, cfg)
                && slots.Loads() == Acquired(old(slots.Loads()), p.value.id, now, cfg.limits)
      ensures p.None? ==> slots.Loads() == old(slots.Loads())
      // the preferred exit wins whenever it can be had
      ensures (prefer > 0 && Room(old(slots.Loads()), prefer, now, cfg)
               && exists q :: q in Candidates(pool.cache, excluded, now, cfg) && q.id == prefer)
              ==> p.Some? && p.value.id == prefer
      // so does the sticky exit without a preference; and the exit picked is the sticky one next
      ensures prefer <= 0 && cfg.sticky && old(stickyURL) != "" && old(stickyID) !in excluded
              && AllRoom(Candidates(pool.cache, excluded, now, cfg), old(stickyURL), old(slots.Loads()), now, cfg)
              && (exists q :: q in Candidates(pool.cache, excluded, now, cfg) && q.url == old(stickyURL)) ==>
                p.Some? && p.value.url == old(stickyURL)
      ensures prefer <= 0 && cfg.sticky && p.Some? ==> stickyURL == p.value.url
      // without preference or stickiness it is the next one in turn that has room
      ensures prefer <= 0 && !cfg.sticky ==>
                var list := Candidates(pool.cache, excluded, now, cfg);
                && (list != [] ==> cursor == old(cursor) + 1)
                && (p.Some? ==> FirstInTurn(p.value, list, old(cursor), old(slots.Loads()), now, cfg))
      // in all cases that determines the one picked
      ensures p == old(StaticChoice(prefer, excluded, now, cfg))
      ensures p.None? ==> stickyURL == old(stickyURL) && stickyID == old(stickyID)
    {
      hide Verdict, Acquired, Candidates, FirstInTurn, InTurn, Room, AllRoom, Usable, SlotTable.Valid, SlotTable.Loads,
           ProxyTable.Valid, Exits.DynamicValid, UnusedBelow, PickOf;
      CandidatesAre(excluded, now, cfg);
      NothingToPick(prefer, excluded, stickyURL, stickyID, cursor, slots.Loads(), now, cfg);
      IdsBelow();
      ghost var loads := slots.Loads();
      if |pool.cache| == 0 {
        NoCandidates(excluded, now, cfg);
        return None;
      }
      var list := BuildCandidates(excluded, now, cfg);
      if |list| == 0 {
        return None;
      }
      p := PickFrom(list, prefer, excluded, now, cfg);
      if p.Some? {
        UnusedAcquired(loads, nextDynamicId, p.value.id, now, cfg.limits);
      }
    }

    /** The choice among the candidates. */
    method PickFrom(list: seq<Proxy>, prefer: int, excluded: set<int>, now: int, cfg: Config) returns (p: Option<Proxy>)
      requires slots.Valid() && DynamicValid() && slots.clock <= now && list != []
      requires forall q :: q in list ==> q.id > 0 && q.id !in excluded
      modifies this`cursor, this`stickyURL, this`stickyID, slots, slots.slots.Values
      ensures slots.Valid() && DynamicValid() && slots.clock <= now
      ensures fresh(slots.slots.Values - old(slots.slots.Values))
      ensures p.Some? <==> exists q :: q in list && Room(old(slots.Loads()), q.id, now, cfg)
      ensures p.Some? ==>
                && p.value in list && Room(old(slots.Loads()), p.value.id, now, cfg)
                && slots.Loads() == Acquired(old(slots.Loads()), p.value.id, now, cfg.limits)
      ensures p.None? ==> slots.Loads() == old(slots.Loads())
      ensures (prefer > 0 && Room(old(slots.Loads()), prefer, now, cfg) && exists q :: q in list && q.id == prefer)
              ==> p.Some? && p.value.id == prefer
      ensures prefer <= 0 && cfg.sticky && old(stickyURL) != "" && old(stickyID) !in excluded
              && AllRoom(list, old(stickyURL), old(slots.Loads()), now, cfg)
              && (exists q :: q in list && q.url == old(stickyURL)) ==>
                p.Some? && p.value.url == old(stickyURL)
      ensures prefer <= 0 && cfg.sticky && p.Some? ==> stickyURL == p.value.url
      ensures prefer <= 0 && !cfg.sticky ==>
                && cursor == old(cursor) + 1
                && (p.Some? ==> FirstInTurn(p.value, list, old(cursor), old(slots.Loads()), now, cfg))
      ensures p == PickOf(list, prefer, excluded, old(stickyURL), old(stickyID), old(cursor), old(slots.Loads()), now,
                          cfg)
      ensures p.None? ==> stickyURL == old(stickyURL) && stickyID == old(stickyID)
    {
      hide Verdict, Acquired, FirstInTurn, InTurn, Room, AllRoom, SlotTable.Valid, SlotTable.Loads, Exits.DynamicValid,
           Wanted, WithRoom, NextWithRoom;
      p := TryPreferred(prefer, excluded, list, now, cfg);
      if p.Some? {
        return;
      }
      var start := cursor;
      cursor := cursor + 1;
      p := TryInTurn(list, start, now, cfg);
      if p.Some? && cfg.sticky {
        Stick(p.value);
      }
    }

    method Stick(p: Proxy)
      requires DynamicValid() && p.id > 0
      modifies this`stickyURL, this`stickyID
      ensures DynamicValid() && stickyURL == p.url && stickyID == p.id
    {
      stickyURL, stickyID := p.url, p.id;
    }

    // -------------------------------------------------------------- dynamic pool

    /** `getDynamicSlotID`. */
    method GetDynamicSlotID(url: string) returns (id: int)
      requires DynamicValid()
      modifies this`dynamicIds, this`dynamicURLs, this`nextDynamicId
      ensures DynamicValid()
      ensures id in dynamicURLs && dynamicURLs[id] == url
      ensures KeepsIds(old(dynamicIds))
      ensures if url in old(dynamicIds)
              then id == old(dynamicIds)[url] && dynamicIds == old(dynamicIds) && nextDynamicId == old(nextDynamicId)
              else id == old(nextDynamicId) && nextDynamicId == id - 1
      ensures dynamicIds == old(dynamicIds)[url := id]
      ensures forall i :: i in old(dynamicURLs) ==> i in dynamicURLs && dynamicURLs[i] == old(dynamicURLs)[i]
    {
      if url in dynamicIds {
        return dynamicIds[url];
      }
      id := nextDynamicId;
      nextDynamicId := nextDynamicId - 1;
      dynamicIds := dynamicIds[url := id];
      dynamicURLs := dynamicURLs[id := url];
    }

    predicate Cooling(url: string, now: int, cfg: Config)
      reads this
    {
      IsCooling(dynamicStats, url, now, cfg)
    }

    method ClearSticky()
      modifies this`stickyURL, this`stickyID
      ensures stickyURL == "" && stickyID == 0
    {
      stickyURL, stickyID := "", 0;
    }

    ghost predicate IsDynamicExit(e: Exit, excluded: set<string>, now: int, cfg: Config)
      reads this
    {
      && e.id in dynamicURLs && dynamicURLs[e.id] == e.url && e.url != ""
      && e.url !in excluded && !Cooling(e.url, now, cfg)
    }

    ghost predicate KeepsIds(before: map<string, int>)
      reads this
    {
      forall u :: u in before ==> u in dynamicIds && dynamicIds[u] == before[u]
    }

    ghost predicate KeepsDynamicIds(before: map<int, string>)
      reads this
    {
      forall i :: i in before ==> i in dynamicURLs && dynamicURLs[i] == before[i]
    }

    /** Answer number `k` of the remote pool names an exit that can be had, one seen before or a new
        one, and the answers before it are no failures. */
    ghost predicate IsGoodAnswer(k: nat, excluded: set<string>, now: int, cfg: Config, fetch: nat -> Fetched)
      reads this, slots, slots.slots.Values
    {
      GoodAnswer(Dynamic(), k, excluded, now, cfg, fetch)
    }

    /** One of the answers that are looked at is a good one. */
    ghost predicate DynamicRoom(excluded: set<string>, now: int, cfg: Config, fetch: nat -> Fetched)
      reads this, slots, slots.slots.Values
    {
      exists k: nat :: k < 10 && IsGoodAnswer(k, excluded, now, cfg, fetch)
    }

    ghost function Dynamic(): Dynamics
      reads this, slots, slots.slots.Values
    {
      Dynamics(stickyURL, stickyID, dynamicIds, dynamicURLs, nextDynamicId, dynamicStats, slots.Loads())
    }

    /** `fetchOrStickyRemoteProxyExcept`; `fetch` answers the successive requests to the pool. */
    method FetchOrSticky(excluded: set<string>, now: int, cfg: Config, fetch: nat -> Fetched)
        returns (exit: Option<Exit>)
      requires slots.Valid() && DynamicValid() && Untouched() && slots.clock <= now
      modifies this`stickyURL, this`stickyID, this`dynamicIds, this`dynamicURLs, this`nextDynamicId
      modifies slots, slots.slots.Values
      ensures slots.Valid() && DynamicValid() && Untouched() && slots.clock <= now
      ensures fresh(slots.slots.Values - old(slots.slots.Values))
      ensures KeepsDynamicIds(old(dynamicURLs))
      ensures exit.Some? ==>
                && IsDynamicExit(exit.value, excluded, now, cfg) && exit.value.id < 0
                && Room(old(slots.Loads()), exit.value.id, now, cfg)
                && slots.Loads() == Acquired(old(slots.Loads()), exit.value.id, now, cfg.limits)
      ensures exit.None? ==> slots.Loads() == old(slots.Loads())
      ensures old(DynamicRoom(excluded, now, cfg, fetch)) ==> exit.Some?
      // it is the sticky one or else that of the first good answer, and the sticky one next
      ensures cfg.sticky && exit.Some? ==> stickyURL == exit.value.url && stickyID == exit.value.id
      ensures exit == old(DynamicChoice(Dynamic(), excluded, now, cfg, fetch))
    {
      RoomIsFound(excluded, now, cfg, fetch);
      hide Verdict, Acquired, SlotTable.Valid, SlotTable.Loads, Usable, UnusedBelow, Room, IsCooling, FirstGood,
           StickyFits, Exits.DynamicRoom, Exits.DynamicValid, Exits.Untouched, Exits.IsDynamicExit;
      ghost var d := Dynamic();
      exit := TrySticky(excluded, now, cfg);
      if exit.None? {
        exit := FetchGood(excluded, now, cfg, fetch, d);
      }
    }

    lemma RoomIsFound(excluded: set<string>, now: int, cfg: Config, fetch: nat -> Fetched)
      ensures DynamicRoom(excluded, now, cfg, fetch) ==> DynamicChoice(Dynamic(), excluded, now, cfg, fetch).Some?
    {
      hide SlotTable.Loads, GoodAnswer, StickyFits, FirstGood;
      FirstGoodIs(Dynamic(), 0, excluded, now, cfg, fetch);
    }

    /** The answers of the remote pool, one after another. */
    method FetchGood(excluded: set<string>, now: int, cfg: Config, fetch: nat -> Fetched, ghost d: Dynamics)
        returns (exit: Option<Exit>)
      requires slots.Valid() && DynamicValid() && Untouched() && slots.clock <= now
      requires dynamicIds == d.ids && nextDynamicId == d.next && dynamicStats == d.stats && slots.Loads() == d.loads
      modifies this`stickyURL, this`stickyID, this`dynamicIds, this`dynamicURLs, this`nextDynamicId
      modifies slots, slots.slots.Values
      ensures slots.Valid() && DynamicValid() && Untouched() && slots.clock <= now
      ensures fresh(slots.slots.Values - old(slots.slots.Values))
      ensures KeepsDynamicIds(old(dynamicURLs))
      ensures exit == FirstGood(d, 0, excluded, now, cfg, fetch)
      ensures exit.Some? ==>
                && IsDynamicExit(exit.value, excluded, now, cfg) && exit.value.id < 0
                && Room(d.loads, exit.value.id, now, cfg)
                && slots.Loads() == Acquired(d.loads, exit.value.id, now, cfg.limits)
                && (cfg.sticky ==> stickyURL == exit.value.url && stickyID == exit.value.id)
      ensures exit.None? ==> slots.Loads() == d.loads
    {
      hide Verdict, Acquired, SlotTable.Valid, SlotTable.Loads, Usable, UnusedBelow, Room, IsCooling, FirstGood, Fits,
           SlotId, Exits.DynamicValid, Exits.Untouched, Exits.IsDynamicExit;
      for attempt := 0 to MAX_FETCH_ATTEMPTS
        invariant FirstGood(d, attempt, excluded, now, cfg, fetch) == FirstGood(d, 0, excluded, now, cfg, fetch)
        invariant slots.Valid() && DynamicValid() && Untouched() && slots.clock <= now
        invariant fresh(slots.slots.Values - old(slots.slots.Values)) && KeepsDynamicIds(old(dynamicURLs))
        invariant slots.Loads() == d.loads
        invariant dynamicIds == d.ids && nextDynamicId == d.next && dynamicStats == d.stats
      {
        FirstGoodStep(d, attempt, excluded, now, cfg, fetch);
        var answer := fetch(attempt);
        if answer.FetchFails? || answer.url == "" {
          return None;
        }
        exit := TryAnswer(answer.url, excluded, now, cfg, d);
        if exit.Some? {
          return;
        }
      }
      FirstGoodStep(d, MAX_FETCH_ATTEMPTS, excluded, now, cfg, fetch);
      return None;
    }

    /** The exit that an answer names, if it can be had. */
    method TryAnswer(url: string, excluded: set<string>, now: int, cfg: Config, ghost d: Dynamics)
        returns (exit: Option<Exit>)
      requires slots.Valid() && DynamicValid() && Untouched() && slots.clock <= now && url != ""
      requires dynamicIds == d.ids && nextDynamicId == d.next && dynamicStats == d.stats && slots.Loads() == d.loads
      modifies this`stickyURL, this`stickyID, this`dynamicIds, this`dynamicURLs, this`nextDynamicId
      modifies slots, slots.slots.Values
      ensures slots.Valid() && DynamicValid() && Untouched() && slots.clock <= now
      ensures fresh(slots.slots.Values - old(slots.slots.Values))
      ensures KeepsDynamicIds(old(dynamicURLs))
      ensures exit == if Fits(d, url, excluded, now, cfg) then Some(Exit(SlotId(d, url), url)) else None
      ensures exit.Some? <==>
                && url !in excluded && !Cooling(url, now, cfg)
                && (url in d.ids ==> Room(d.loads, d.ids[url], now, cfg))
      ensures exit.Some? ==>
                && IsDynamicExit(exit.value, excluded, now, cfg) && exit.value.id < 0
                && Room(d.loads, exit.value.id, now, cfg)
                && slots.Loads() == Acquired(d.loads, exit.value.id, now, cfg.limits)
                && (cfg.sticky ==> stickyURL == exit.value.url && stickyID == exit.value.id)
      ensures exit.None? ==> slots.Loads() == d.loads && dynamicIds == d.ids && nextDynamicId == d.next
    {
      hide Verdict, Acquired, SlotTable.Valid, SlotTable.Loads, Usable, UnusedBelow, Room, IsCooling;
      if url in excluded || Cooling(url, now, cfg) {
        return None;
      }
      exit := TryDynamic(url, now, cfg);
      IdsBelow();
    }

    /** The exit used last, as long as it is a dynamic one that can be had. */
    method TrySticky(excluded: set<string>, now: int, cfg: Config) returns (exit: Option<Exit>)
      requires slots.Valid() && DynamicValid() && Untouched() && slots.clock <= now
      modifies this`stickyURL, this`stickyID, slots, slots.slots.Values
      ensures slots.Valid() && DynamicValid() && Untouched() && slots.clock <= now
      ensures fresh(slots.slots.Values - old(slots.slots.Values))
      ensures exit.Some? ==>
                && IsDynamicExit(exit.value, excluded, now, cfg) && exit.value.id < 0
                && Room(old(slots.Loads()), exit.value.id, now, cfg)
                && slots.Loads() == Acquired(old(slots.Loads()), exit.value.id, now, cfg.limits)
      ensures exit.None? ==> slots.Loads() == old(slots.Loads())
      ensures exit.Some? <==> old(StickyFits(Dynamic(), excluded, now, cfg))
      ensures exit.Some? <==>
                && cfg.sticky && old(stickyURL) != "" && old(stickyID) in dynamicURLs && old(stickyURL) !in excluded
                && !Cooling(old(stickyURL), now, cfg) && Room(old(slots.Loads()), old(stickyID), now, cfg)
      ensures exit.Some? ==> exit.value == Exit(old(stickyID), old(stickyURL)) == Exit(stickyID, stickyURL)
    {
      hide Verdict, Acquired, SlotTable.Valid, SlotTable.Loads, Usable, UnusedBelow;
      IdsBelow();
      ghost var loads := slots.Loads();
      if cfg.sticky {
        if stickyURL != "" && stickyID in dynamicURLs {
          if stickyURL in excluded || Cooling(stickyURL, now, cfg) {
            ClearSticky();
          } else {
            RoomIs(loads, stickyID, now, cfg);
            var reason := slots.TryAcquire(stickyID, now, cfg.limits);
            if reason.Granted? {
              UnusedAcquired(loads, nextDynamicId, stickyID, now, cfg.limits);
              return Some(Exit(stickyID, stickyURL));
            }
          }
        }
      }
      return None;
    }

    /** The slot of a URL; that of a new one has room. */
    method SlotFor(url: string, ghost now: int, ghost cfg: Config) returns (id: int)
      requires DynamicValid() && Untouched()
      modifies this`dynamicIds, this`dynamicURLs, this`nextDynamicId
      ensures DynamicValid() && Untouched() && KeepsDynamicIds(old(dynamicURLs)) && KeepsIds(old(dynamicIds))
      ensures dynamicIds == old(dynamicIds)[url := id]
      ensures id in dynamicURLs && dynamicURLs[id] == url && nextDynamicId < id
      ensures if url in old(dynamicIds)
              then id == old(dynamicIds)[url] && dynamicIds == old(dynamicIds) && nextDynamicId == old(nextDynamicId)
              else id == old(nextDynamicId) && Room(slots.Loads(), id, now, cfg)
    {
      hide SlotTable.Valid, SlotTable.Loads, UnusedBelow, Room;
      ghost var loads, next := slots.Loads(), nextDynamicId;
      UnusedHasRoom(loads, next, next, now, cfg);
      id := GetDynamicSlotID(url);
      IdsBelow();
      FewerUnused(loads, next, nextDynamicId);
    }

    method TryDynamic(url: string, now: int, cfg: Config) returns (exit: Option<Exit>)
      requires slots.Valid() && DynamicValid() && Untouched() && slots.clock <= now
      modifies this`stickyURL, this`stickyID, this`dynamicIds, this`dynamicURLs, this`nextDynamicId
      modifies slots, slots.slots.Values
      ensures slots.Valid() && DynamicValid() && Untouched() && slots.clock <= now
      ensures fresh(slots.slots.Values - old(slots.slots.Values))
      ensures KeepsDynamicIds(old(dynamicURLs))
      ensures exit.Some? ==>
                && exit.value.url == url && exit.value.id in dynamicURLs && dynamicURLs[exit.value.id] == url
                && Room(old(slots.Loads()), exit.value.id, now, cfg)
                && slots.Loads() == Acquired(old(slots.Loads()), exit.value.id, now, cfg.limits)
      ensures exit.None? ==> slots.Loads() == old(slots.Loads())
      ensures KeepsIds(old(dynamicIds))
      // it fails only for an exit that is known and has no room
      ensures exit.None? ==>
                && url in old(dynamicIds) && !Room(old(slots.Loads()), old(dynamicIds)[url], now, cfg)
                && dynamicIds == old(dynamicIds) && nextDynamicId == old(nextDynamicId)
      ensures exit.Some? ==>
                && exit.value.id == (if url in old(dynamicIds) then old(dynamicIds)[url] else old(nextDynamicId))
                && (url in old(dynamicIds) ==> Room(old(slots.Loads()), old(dynamicIds)[url], now, cfg))
                && (cfg.sticky ==> stickyURL == url && stickyID == exit.value.id)
    {
      hide Verdict, Acquired, SlotTable.Valid, SlotTable.Loads, UnusedBelow, Room;
      ghost var loads := slots.Loads();
      var id := SlotFor(url, now, cfg);
      UnusedAcquired(loads, nextDynamicId, id, now, cfg.limits);
      RoomIs(loads, id, now, cfg);
      var reason := slots.TryAcquire(id, now, cfg.limits);
      if !reason.Granted? {
        return None;
      }
      if cfg.sticky {
        stickyURL, stickyID := url, id;
      }
      return Some(Exit(id, url));
    }

    // -------------------------------------------------------------- acquireSlotExcept

    /** The settings allow a direct connection. */
    ghost predicate MayGoDirect(policy: Policy)
      reads pool
    {
      match policy.mode
      case DirectOnly => true
      case Auto => policy.fallbackDirect || (|pool.cache| == 0 && !policy.hasPoolURL)
      case _ => false
    }

    ghost predicate IsStaticExit(e: Exit, excluded: set<int>, now: int, cfg: Config)
      reads pool
    {
      exists p :: p in pool.cache && Eligible(p, excluded, now, cfg) && e == Exit(p.id, p.url)
    }

    /** The proxy with this id can be picked and has room. */
    ghost predicate CanHave(id: int, excluded: set<int>, now: int, cfg: Config)
      reads this, pool, slots, slots.slots.Values
    {
      && id > 0 && Room(slots.Loads(), id, now, cfg)
      && exists q :: q in Candidates(pool.cache, excluded, now, cfg) && q.id == id
    }

    method TryStatic(prefer: int, excluded: set<int>, now: int, cfg: Config) returns (exit: Option<Exit>)
      requires Valid() && slots.clock <= now
      modifies this`cursor, this`stickyURL, this`stickyID, slots, slots.slots.Values
      ensures Valid() && slots.clock <= now
      ensures fresh(slots.slots.Values - old(slots.slots.Values))
      ensures exit.Some? <==>
                exists q :: q in Candidates(pool.cache, excluded, now, cfg) && Room(old(slots.Loads()), q.id, now, cfg)
      ensures exit.Some? ==>
                && IsStaticExit(exit.value, excluded, now, cfg) && Room(old(slots.Loads()), exit.value.id, now, cfg)
                && slots.Loads() == Acquired(old(slots.Loads()), exit.value.id, now, cfg.limits)
      ensures exit.None? ==> slots.Loads() == old(slots.Loads())
      ensures exit.Some? ==> exit.value.id > 0 && old(CanHave(exit.value.id, excluded, now, cfg))
      ensures old(CanHave(prefer, excluded, now, cfg)) ==> exit.Some? && exit.value.id == prefer
      ensures exit == ExitOf(old(StaticChoice(prefer, excluded, now, cfg)))
      ensures exit.Some? ==>
                exists q :: q in pool.cache && q.enabled && q.id == exit.value.id && q.url == exit.value.url
      ensures exit.None? ==> stickyURL == old(stickyURL) && stickyID == old(stickyID)
    {
      hide Verdict, Acquired, Room, FirstInTurn, InTurn, SlotTable.Valid, SlotTable.Loads;
      var p := Pick(prefer, excluded, now, cfg);
      exit := ExitOf(p);
    }

    method TryDirect(excluded: set<int>, now: int, cfg: Config) returns (exit: Option<Exit>)
      requires slots.Valid() && slots.clock <= now && Untouched() && nextDynamicId < 0
      modifies slots, slots.slots.Values
      ensures slots.Valid() && slots.clock <= now && Untouched()
      ensures fresh(slots.slots.Values - old(slots.slots.Values))
      ensures exit.Some? <==> 0 !in excluded && Room(old(slots.Loads()), 0, now, cfg)
      ensures exit.Some? ==>
                exit.value == Exit(0, "") && slots.Loads() == Acquired(old(slots.Loads()), 0, now, cfg.limits)
      ensures exit.None? ==> slots.Loads() == old(slots.Loads())
    {
      hide Verdict, Acquired, SlotTable.Valid, SlotTable.Loads, UnusedBelow;
      UnusedAcquired(slots.Loads(), nextDynamicId, 0, now, cfg.limits);
      if 0 in excluded {
        return None;
      }
      var reason := slots.TryAcquire(0, now, cfg.limits);
      exit := if reason.Granted? then Some(Exit(0, "")) else None;
    }

    /** What an acquired exit is guaranteed to be. */
    ghost predicate IsOffer(e: Exit, excludedIds: set<int>, excludedURLs: set<string>, now: int, policy: Policy)
      reads this, pool
    {
      if e.id == 0 then e.url == "" && 0 !in excludedIds && MayGoDirect(policy)
      else if e.id > 0 then
        IsStaticExit(e, excludedIds, now, policy.pool) && !policy.mode.DynamicOnly? && !policy.mode.DirectOnly?
      else IsDynamicExit(e, excludedURLs, now, policy.pool) && policy.hasPoolURL
           && !policy.mode.StaticOnly? && !policy.mode.DirectOnly?
    }

    /** Some static proxy could be had. */
    ghost predicate StaticRoom(excluded: set<int>, now: int, cfg: Config)
      reads this, pool, slots, slots.slots.Values
    {
      exists q :: q in Candidates(pool.cache, excluded, now, cfg) && Room(slots.Loads(), q.id, now, cfg)
    }

    /** The exit a request gets now. */
    ghost function Choice(prefer: int, excludedIds: set<int>, excludedURLs: set<string>, now: int, policy: Policy,
                          fetch: nat -> Fetched): Option<Exit>
      reads this, pool, slots, slots.slots.Values
    {
      var pooled := PooledChoice(prefer, excludedIds, excludedURLs, now, policy, fetch);
      if pooled.Some? then pooled
      else if MayGoDirect(policy) && 0 !in excludedIds && Room(slots.Loads(), 0, now, policy.pool) then
        Some(Exit(0, ""))
      else None
    }

    /** A static proxy, or else a dynamic one, as far as the mode allows it. */
    ghost function PooledChoice(prefer: int, excludedIds: set<int>, excludedURLs: set<string>, now: int,
                                policy: Policy, fetch: nat -> Fetched): Option<Exit>
      reads this, pool, slots, slots.slots.Values
    {
      var p := if policy.mode in {StaticOnly, PoolOnly, Auto} then StaticChoice(prefer, excludedIds, now, policy.pool)
               else None;
      if p.Some? then ExitOf(p)
      else if policy.hasPoolURL && policy.mode in {DynamicOnly, PoolOnly, Auto} then
        DynamicChoice(Dynamic(), excludedURLs, now, policy.pool, fetch)
      else None
    }

    // -------------------------------------------------------------- getting the same exit again

    /** Some dynamic exit can be had: the sticky one, or one that an answer names. */
    ghost predicate SomeDynamic(now: int, cfg: Config, fetch: nat -> Fetched)
      reads this, slots, slots.slots.Values
    {
      StickyFits(Dynamic(), {}, now, cfg) || DynamicRoom({}, now, cfg, fetch)
    }

    /** The sticky exit, or else the first good answer, names the exit with this id. */
    ghost predicate NamesDynamic(id: int, now: int, cfg: Config, fetch: nat -> Fetched)
      reads this, slots, slots.slots.Values
    {
      if StickyFits(Dynamic(), {}, now, cfg) then stickyID == id
      else exists k: nat :: IsFirstGood(k, now, cfg, fetch) && SlotId(Dynamic(), fetch(k).url) == id
    }

    ghost predicate IsFirstGood(k: nat, now: int, cfg: Config, fetch: nat -> Fetched)
      reads this, slots, slots.slots.Values
    {
      && k < MAX_FETCH_ATTEMPTS && IsGoodAnswer(k, {}, now, cfg, fetch)
      && forall j: nat :: j < k ==> !IsGoodAnswer(j, {}, now, cfg, fetch)
    }

    /** A request that prefers this exit gets it. A static proxy has to be one that can be had, or, if
        its URL is cooling down and so is not preferred, the one that comes without a preference. A
        dynamic exit is not preferred at all: no static proxy may be had, and the sticky exit or the
        first good answer has to name it. The direct connection is for when nothing else can be had. */
    ghost predicate GetsAgain(e: Exit, now: int, policy: Policy, fetch: nat -> Fetched)
      reads this, pool, slots, slots.slots.Values
    {
      var cfg := policy.pool;
      var listed := policy.mode in {StaticOnly, PoolOnly, Auto};
      var remote := policy.hasPoolURL && policy.mode in {DynamicOnly, PoolOnly, Auto};
      if e.id > 0 then
        && listed
        && if Cooling(e.url, now, cfg) then
             var p := StaticChoice(0, {}, now, cfg); p.Some? && p.value.id == e.id
           else CanHave(e.id, {}, now, cfg)
      else if e.id < 0 then
        remote && !(listed && StaticRoom({}, now, cfg)) && NamesDynamic(e.id, now, cfg, fetch)
      else
        && !(listed && StaticRoom({}, now, cfg)) && !(remote && SomeDynamic(now, cfg, fetch))
        && MayGoDirect(policy) && Room(slots.Loads(), 0, now, cfg)
    }

    lemma GetsAgainIff(e: Exit, now: int, policy: Policy, fetch: nat -> Fetched)
      requires Valid()
      ensures var prefer := if Cooling(e.url, now, policy.pool) then 0 else e.id;
              var choice := Choice(prefer, {}, {}, now, policy, fetch);
              (choice.Some? && choice.value.id == e.id) <==> GetsAgain(e, now, policy, fetch)
    {
      hide SlotTable.Loads, SlotTable.Valid, IsCooling, Room, Exits.StaticChoice, Exits.StaticRoom, Exits.CanHave,
           DynamicChoice, Exits.NamesDynamic, Exits.SomeDynamic, Exits.Untouched, Exits.DynamicValid;
      var cfg, prefer := policy.pool, if Cooling(e.url, now, policy.pool) then 0 else e.id;
      StaticChoiceIs(prefer, now, cfg);
      DynamicChoiceIs(e.id, now, cfg, fetch);
    }

    lemma StaticChoiceIs(prefer: int, now: int, cfg: Config)
      requires Valid()
      ensures var p := StaticChoice(prefer, {}, now, cfg);
              && (p.Some? <==> StaticRoom({}, now, cfg)) && (p.Some? ==> p.value.id > 0)
              && (prefer > 0 ==> (p.Some? && p.value.id == prefer <==> CanHave(prefer, {}, now, cfg)))
    {
      hide SlotTable.Loads, SlotTable.Valid, Room, FirstWith, NextWithRoom, InTurn, Exits.Untouched, Usable,
           Exits.DynamicValid;
      var list := Candidates(pool.cache, {}, now, cfg);
      NextIsThere(list, cursor, 0, slots.Loads(), now, cfg);
    }

    lemma DynamicChoiceIs(id: int, now: int, cfg: Config, fetch: nat -> Fetched)
      requires DynamicValid()
      ensures var e := DynamicChoice(Dynamic(), {}, now, cfg, fetch);
              && (e.Some? <==> SomeDynamic(now, cfg, fetch)) && (e.Some? ==> e.value.id < 0)
              && (e.Some? && e.value.id == id <==> NamesDynamic(id, now, cfg, fetch))
    {
      hide SlotTable.Loads, IsCooling, Room, FirstGood, Fits;
      FirstGoodIs(Dynamic(), 0, {}, now, cfg, fetch);
      IdsBelow();
      var d := Dynamic();
      if !StickyFits(d, {}, now, cfg) {
        assert forall k: nat :: IsGoodAnswer(k, {}, now, cfg, fetch) == GoodAnswer(d, k, {}, now, cfg, fetch);
        if FirstGood(d, 0, {}, now, cfg, fetch).Some? {
          var k: nat :| k < MAX_FETCH_ATTEMPTS && GoodAnswer(d, k, {}, now, cfg, fetch)
            && (forall j: nat :: j < k ==> !GoodAnswer(d, j, {}, now, cfg, fetch))
            && FirstGood(d, 0, {}, now, cfg, fetch) == Some(Exit(SlotId(d, fetch(k).url), fetch(k).url));
          assert IsFirstGood(k, now, cfg, fetch);
          assert forall i: nat :: IsFirstGood(i, now, cfg, fetch) ==> i == k;
        }
      }
    }

    /** `acquireSlotExcept`. */
    method Acquire(prefer: int, excludedIds: set<int>, excludedURLs: set<string>, now: int, policy: Policy,
                   fetch: nat -> Fetched) returns (exit: Option<Exit>)
      requires Valid() && slots.clock <= now
      modifies this`cursor, this`stickyURL, this`stickyID, this`dynamicIds, this`dynamicURLs, this`nextDynamicId
      modifies slots, slots.slots.Values
      ensures Valid() && slots.clock <= now
      ensures fresh(slots.slots.Values - old(slots.slots.Values))
      ensures KeepsDynamicIds(old(dynamicURLs))
      // the offer is admissible and has room, and takes room on itself only
      ensures exit.Some? ==>
                && IsOffer(exit.value, excludedIds, excludedURLs, now, policy)
                && Room(old(slots.Loads()), exit.value.id, now, policy.pool)
                && slots.Loads() == Acquired(old(slots.Loads()), exit.value.id, now, policy.pool.limits)
      ensures exit.None? ==> slots.Loads() == old(slots.Loads())
      // static proxies come first, and are never passed over while one can be had
      ensures policy.mode in {StaticOnly, PoolOnly, Auto} && old(StaticRoom(excludedIds, now, policy.pool)) ==>
                exit.Some? && exit.value.id > 0
      // and of these the preferred one exactly if it can be had
      ensures policy.mode in {StaticOnly, PoolOnly, Auto} && prefer > 0 ==>
                (old(CanHave(prefer, excludedIds, now, policy.pool)) <==> exit.Some? && exit.value.id == prefer)
      // dynamic ones come next
      ensures policy.hasPoolURL && policy.mode in {DynamicOnly, PoolOnly, Auto} ==>
                old(DynamicRoom(excludedURLs, now, policy.pool, fetch)) ==> exit.Some?
      // a static proxy is one that is switched on
      ensures exit.Some? && exit.value.id > 0 ==>
                exists q :: q in pool.cache && q.enabled && q.id == exit.value.id && q.url == exit.value.url
      // in all cases that determines the exit
      ensures exit == old(Choice(prefer, excludedIds, excludedURLs, now, policy, fetch))
      // a permitted direct connection is the last resort, not refused while it has room; in the automatic
      // mode it takes the permission to fall back, or that there are no proxies to be had at all
      ensures exit == Some(Exit(0, "")) ==>
                || policy.mode.DirectOnly?
                || (policy.mode.Auto? && (policy.fallbackDirect || (pool.cache == [] && !policy.hasPoolURL)))
      ensures 0 !in excludedIds && Room(old(slots.Loads()), 0, now, policy.pool) ==>
                (policy.mode.DirectOnly? || (policy.mode.Auto? && policy.fallbackDirect) ==> exit.Some?)
      ensures MayGoDirect(policy) && 0 !in excludedIds && Room(old(slots.Loads()), 0, now, policy.pool) ==>
                exit.Some?
    {
      hide Verdict, Acquired, Room, Candidates, Usable, SlotTable.Valid, SlotTable.Loads, ProxyTable.Valid,
           Exits.DynamicValid,
           UnusedBelow, Exits.Untouched, Exits.StaticRoom, Exits.DynamicRoom, Exits.IsStaticExit, Exits.IsDynamicExit,
           Exits.CanHave, Exits.StaticChoice, DynamicChoice;
      IdsBelow();
      exit := None;
      if policy.mode.DirectOnly? {
        exit := TryDirect(excludedIds, now, policy.pool);
        return;
      }
      exit := AcquirePooled(prefer, excludedIds, excludedURLs, now, policy, fetch);
      if exit.Some? {
        return;
      }
      if policy.mode.Auto? {
        IdsBelow();
        if (|pool.cache| > 0 || policy.hasPoolURL) && !policy.fallbackDirect {
          return None;
        }
        exit := TryDirect(excludedIds, now, policy.pool);
      }
    }

    lemma NothingListed(excluded: set<int>, prefer: int, now: int, cfg: Config)
      ensures pool.cache == [] ==> StaticChoice(prefer, excluded, now, cfg) == None
    {
      NoCandidates(excluded, now, cfg);
      NothingToPick(prefer, excluded, stickyURL, stickyID, cursor, slots.Loads(), now, cfg);
      hide PickOf, Candidates;
    }

    /** The part of `acquireSlotExcept` all modes but the direct one begin with: the static pool,
        then the dynamic one. */
    method AcquirePooled(prefer: int, excludedIds: set<int>, excludedURLs: set<string>, now: int, policy: Policy,
                         fetch: nat -> Fetched) returns (exit: Option<Exit>)
      requires Valid() && slots.clock <= now && !policy.mode.DirectOnly?
      modifies this`cursor, this`stickyURL, this`stickyID, this`dynamicIds, this`dynamicURLs, this`nextDynamicId
      modifies slots, slots.slots.Values
      ensures Valid() && slots.clock <= now
      ensures fresh(slots.slots.Values - old(slots.slots.Values))
      ensures KeepsDynamicIds(old(dynamicURLs))
      ensures exit.Some? ==>
                && exit.value.id != 0 && IsOffer(exit.value, excludedIds, excludedURLs, now, policy)
                && Room(old(slots.Loads()), exit.value.id, now, policy.pool)
                && slots.Loads() == Acquired(old(slots.Loads()), exit.value.id, now, policy.pool.limits)
      ensures exit.None? ==> slots.Loads() == old(slots.Loads())
      ensures !policy.mode.DynamicOnly? && old(StaticRoom(excludedIds, now, policy.pool)) ==>
                exit.Some? && exit.value.id > 0
      ensures !policy.mode.DynamicOnly? && old(CanHave(prefer, excludedIds, now, policy.pool)) ==>
                exit.Some? && exit.value.id == prefer
      ensures exit.Some? && exit.value.id > 0 ==> old(CanHave(exit.value.id, excludedIds, now, policy.pool))
      ensures policy.hasPoolURL && !policy.mode.StaticOnly?
                && old(DynamicRoom(excludedURLs, now, policy.pool, fetch)) ==>
                exit.Some?
      ensures exit == old(PooledChoice(prefer, excludedIds, excludedURLs, now, policy, fetch))
      ensures exit.Some? && exit.value.id > 0 ==>
                exists q :: q in pool.cache && q.enabled && q.id == exit.value.id && q.url == exit.value.url
    {
      hide Verdict, Acquired, Room, Candidates, Usable, SlotTable.Valid, SlotTable.Loads, ProxyTable.Valid,
           Exits.DynamicValid, StickyFits, FirstGood, PickOf, Exits.StaticChoice, DynamicChoice,
           UnusedBelow, Exits.Untouched;
      NothingListed(excludedIds, prefer, now, policy.pool);
      IdsBelow();
      var cfg := policy.pool;
      if |pool.cache| > 0 && !policy.mode.DynamicOnly? {
        exit := TryStatic(prefer, excludedIds, now, cfg);
        if exit.Some? {
          return;
        }
        assert forall k: nat :: old(IsGoodAnswer(k, excludedURLs, now, cfg, fetch)) ==>
                                  IsGoodAnswer(k, excludedURLs, now, cfg, fetch);
      } else {
        NoCandidates(excludedIds, now, cfg);
      }
      if policy.hasPoolURL && !policy.mode.StaticOnly? {
        exit := FetchOrSticky(excludedURLs, now, cfg, fetch);
        return;
      }
      return None;
    }

    // -------------------------------------------------------------- reported results

    /** `recordDynamicProxyResult`; with more than 500 entries, old healthy ones are dropped. */
    method RecordDynamic(url: string, success: bool, now: int, cfg: Config)
      modifies this`dynamicStats
      ensures url != "" && success ==> url in dynamicStats && dynamicStats[url] == DynamicStat(0, now)
      ensures url != "" && !success ==>
                && url in dynamicStats && dynamicStats[url].lastUsed == now
                && dynamicStats[url].failCount ==
                   1 + if url in old(dynamicStats) then old(dynamicStats)[url].failCount else 0
      ensures forall u :: u in dynamicStats && (u != url || url == "") ==>
                u in old(dynamicStats) && dynamicStats[u] == old(dynamicStats)[u]
      ensures forall u :: u in old(dynamicStats) && u != url && old(dynamicStats)[u].failCount != 0 ==>
                u in dynamicStats
    {
      if url == "" {
        return;
      }
      var fails := if url in dynamicStats then dynamicStats[url].failCount else 0;
      dynamicStats := dynamicStats[url := DynamicStat(if success then 0 else fails + 1, now)];
      if |dynamicStats| > 500 {
        var keepFor := if cfg.cooldownMin * 60 <= 0 then 7200 else cfg.cooldownMin * 60;
        dynamicStats := map u | u in dynamicStats
                            && !(now - dynamicStats[u].lastUsed > keepFor * 2 && dynamicStats[u].failCount == 0)
                            :: dynamicStats[u];
      }
    }

    /** `forceDynamicProxyCooldown`. */
    method ForceDynamic(url: string, now: int, cfg: Config)
      modifies this`dynamicStats
      ensures dynamicStats == if url == "" then old(dynamicStats)
                              else old(dynamicStats)[url := DynamicStat(FailThreshold(cfg), now)]
    {
      if url != "" {
        dynamicStats := dynamicStats[url := DynamicStat(FailThreshold(cfg), now)];
      }
    }

    /** `recordProxyResult`. */
    method RecordResult(id: int, success: bool, error: string, now: int, cfg: Config)
      requires Valid()
      modifies this`stickyURL, this`stickyID, this`dynamicStats, pool
      ensures Valid()
      ensures id != 0 && !success ==> stickyURL == "" && stickyID == 0
      // a static exit's row records the outcome, a dynamic exit's statistics count a failure
      ensures id != 0 && id !in dynamicURLs ==>
                pool.table ==
                RowRecorded(old(pool.table), id, if success then Succeeded(now) else Failed(now, error), cfg)
      ensures id in dynamicURLs && id < 0 && success && dynamicURLs[id] != "" ==>
                dynamicURLs[id] in dynamicStats && dynamicStats[dynamicURLs[id]] == DynamicStat(0, now)
      ensures id in dynamicURLs && id < 0 && !success && dynamicURLs[id] != "" ==>
                var url := dynamicURLs[id];
                && url in dynamicStats && dynamicStats[url].lastUsed == now
                && dynamicStats[url].failCount ==
                   1 + if url in old(dynamicStats) then old(dynamicStats)[url].failCount else 0
      ensures old(pool.Coherent()) ==> pool.Coherent()
      ensures !(id > 0) ==> pool.table == old(pool.table) && pool.cache == old(pool.cache)
      ensures pool.table.Keys == old(pool.table.Keys) && pool.nextId == old(pool.nextId)
      ensures SameRows(old(pool.table), pool.table)
      ensures SameProxies(old(pool.cache), pool.cache)
    {
      hide SlotTable.Valid, SlotTable.Loads, ProxyTable.Coherent, Recorded;
      if id == 0 {
        return;
      }
      if !success {
        ClearSticky();
      }
      if id in dynamicURLs {
        RecordDynamic(dynamicURLs[id], success, now, cfg);
        return;
      }
      RecordStatic(id, if success then Succeeded(now) else Failed(now, error), cfg);
    }

    method RecordStatic(id: int, o: Outcome, cfg: Config)
      requires pool.Valid() && forall p :: p in pool.cache ==> p.id > 0
      modifies pool
      ensures pool.Valid() && forall p :: p in pool.cache ==> p.id > 0
      ensures old(pool.Coherent()) ==> pool.Coherent()
      ensures pool.table.Keys == old(pool.table.Keys) && pool.nextId == old(pool.nextId)
      ensures SameRows(old(pool.table), pool.table)
      ensures SameProxies(old(pool.cache), pool.cache)
      ensures id < 0 ==> pool.table == old(pool.table) && pool.cache == old(pool.cache)
      ensures pool.table == RowRecorded(old(pool.table), id, o, cfg)
    {
      pool.Record(id, o, cfg);
      RecordedRows(old(pool.table), id, o, cfg);
      forall i | 0 <= i < |pool.cache|
        ensures SameSettings(pool.cache[i], old(pool.cache)[i])
      {
        RecordedId(old(pool.cache)[i], o, cfg);
      }
      IdsStayPositive(old(pool.cache), pool.cache);
    }

    /** `forceProxyCooldown`: the exit is shut out from now on. */
    method ForceCooldown(id: int, error: string, now: int, cfg: Config)
      requires Valid()
      modifies this`stickyURL, this`stickyID, this`dynamicStats, pool
      ensures Valid()
      ensures id != 0 ==> stickyURL == "" && stickyID == 0
      ensures id != 0 && id !in dynamicURLs ==> pool.table == RowRecorded(old(pool.table), id, Forced(now, error), cfg)
      ensures old(pool.Coherent()) ==> pool.Coherent()
      ensures pool.table.Keys == old(pool.table.Keys) && pool.nextId == old(pool.nextId)
      ensures SameRows(old(pool.table), pool.table)
      ensures SameProxies(old(pool.cache), pool.cache)
      ensures id in dynamicURLs && dynamicURLs[id] != "" && cfg.cooldownMin > 0 ==> Cooling(dynamicURLs[id], now, cfg)
    {
      hide SlotTable.Valid, SlotTable.Loads, ProxyTable.Coherent, Recorded;
      if id == 0 {
        return;
      }
      ClearSticky();
      if id in dynamicURLs {
        ForceDynamic(dynamicURLs[id], now, cfg);
        return;
      }
      RecordStatic(id, Forced(now, error), cfg);
    }

    // -------------------------------------------------------------- fairness

    /** One round of picks, as many as there are candidates, without preference or stickiness: when
        the candidates stay the same and all have room, each is picked exactly once, whenever the
        picks happen. */
    method PickRound(excluded: set<int>, times: seq<int>, cfg: Config, ghost list: seq<Proxy>)
        returns (picks: seq<Proxy>)
      requires Valid() && pool.Coherent() && !cfg.sticky
      requires |times| == |list| && InOrder(times, slots.clock)
      requires forall t :: t in times ==> Candidates(pool.cache, excluded, t, cfg) == list
      requires forall t, q :: t in times && q in list ==> Room(slots.Loads(), q.id, t, cfg)
      modifies this`cursor, this`stickyURL, this`stickyID, slots, slots.slots.Values
      ensures |picks| == |list|
      ensures forall i, j :: 0 <= i < j < |picks| ==> picks[i].id != picks[j].id
      ensures forall q :: q in list ==> q in picks
    {
      hide Verdict, Candidates, InTurn, Room, SlotTable.Valid, SlotTable.Loads, IsListing, ProxyTable.Valid, Acquired,
        Exits.Valid, Eligible;
      picks := [];
      if |times| == 0 {
        return;
      }
      CandidateIdsDistinct(pool.cache, pool.table, excluded, times[0], cfg);
      ghost var start := cursor;
      TurnsInList(list, start);
      TurnsDistinct(list, start);
      for i := 0 to |times|
        invariant Valid() && cursor == start + i && pool.cache == old(pool.cache)
        invariant i < |times| ==> slots.clock <= times[i]
        invariant fresh(slots.slots.Values - old(slots.slots.Values))
        invariant |picks| == i && forall k: nat :: k < i ==> picks[k] == InTurn(list, start, k)
        invariant forall t, k: nat :: t in times && i <= k < |list| ==>
                    Room(slots.Loads(), InTurn(list, start, k).id, t, cfg)
      {
        assert times[i] in times;
        TurnShift(list, start, i);
        RoomKept(slots.Loads(), InTurn(list, start, i).id, times[i], cfg);
        var p := PickNext(excluded, times[i], cfg, list);
        picks := picks + [p];
      }
      RoundCovers(picks, list, start);
    }

    /** When the candidate whose turn it is has room, it is the one picked. */
    method PickNext(excluded: set<int>, now: int, cfg: Config, ghost list: seq<Proxy>) returns (p: Proxy)
      requires Valid() && slots.clock <= now && !cfg.sticky
      requires list == Candidates(pool.cache, excluded, now, cfg) && list != []
      requires Room(slots.Loads(), InTurn(list, cursor, 0).id, now, cfg)
      modifies this`cursor, this`stickyURL, this`stickyID, slots, slots.slots.Values
      ensures Valid() && slots.clock <= now && cursor == old(cursor) + 1
      ensures fresh(slots.slots.Values - old(slots.slots.Values))
      ensures p == InTurn(list, old(cursor), 0)
      ensures slots.Loads() == Acquired(old(slots.Loads()), p.id, now, cfg.limits)
    {
      hide Verdict, Candidates, FirstInTurn, InTurn, Room, SlotTable.Valid, SlotTable.Loads, ProxyTable.Valid, Acquired;
      InTurnIn(list, cursor, 0);
      var picked := Pick(0, excluded, now, cfg);
      FirstIsNext(picked.value, list, old(cursor), old(slots.Loads()), now, cfg);
      p := picked.value;
    }
  }

  lemma {:induction false} RoundCovers(picks: seq<Proxy>, list: seq<Proxy>, start: nat)
    requires list != [] && |picks| == |list|
    requires forall k: nat :: k < |list| ==> picks[k] == InTurn(list, start, k)
    ensures forall q :: q in list ==> q in picks
  {
    AllPassedOver(list, start);
    hide InTurn;
    forall q | q in list
      ensures q in picks
    {
      var k: nat :| k < |list| && InTurn(list, start, k) == q;
      assert picks[k] == q;
    }
  }

  // ---------------------------------------------------------------- switched off

  /** The proxy is switched off, in the table and in the copy; no other row can get its id. */
  ghost predicate IsOff(pool: ProxyTable, id: int)
    reads pool
  {
    && id < pool.nextId && (id in pool.table ==> !pool.table[id].enabled)
    && forall p :: p in pool.cache && p.id == id ==> !p.enabled
  }

  /** A proxy that the panel switched off gets no request, until the panel switches it on: whatever is
      reported of it, and however reads fail. */
  method StaysOff(exits: Exits, id: int, events: seq<Event>, times: seq<int>, policy: Policy)
      returns (granted: seq<Option<Exit>>)
    requires exits.Valid() && |times| == |events| && InOrder(times, exits.slots.clock)
    requires id > 0 && id in exits.pool.table
    requires forall e :: e in events ==> !(e.Update? && e.id == id && e.enabled == Some(true))
    modifies exits, exits.pool, exits.slots, exits.slots.slots.Values
    ensures |granted| == |events|
    ensures forall i :: 0 <= i < |granted| && granted[i].Some? ==> granted[i].value.id != id
  {
    hide SlotTable.Valid, SlotTable.Loads, Exits.DynamicValid, UnusedBelow, IsOff, ProxyTable.Coherent, IsListing;
    exits.pool.Update(id, "", "", Some(false), None, ReadAll);
    SwitchedOff(exits.pool, id);
    CoherentIds(exits.pool);
    granted := [];
    for i := 0 to |events|
      invariant exits.Valid() && |granted| == i && IsOff(exits.pool, id)
      invariant i < |events| ==> exits.slots.clock <= times[i]
      invariant fresh(exits.slots.slots.Values - old(exits.slots.slots.Values))
      invariant forall k :: 0 <= k < i && granted[k].Some? ==> granted[k].value.id != id
    {
      assert i + 1 < |events| ==> times[i] <= times[i + 1];
      var e := EventWhileOff(exits, events[i], times[i], policy, id);
      granted := granted + [e];
    }
  }

  lemma SwitchedOff(pool: ProxyTable, id: int)
    requires pool.Coherent() && id in pool.table && !pool.table[id].enabled
    ensures IsOff(pool, id)
  {
  }

  method EventWhileOff(exits: Exits, event: Event, now: int, policy: Policy, id: int) returns (granted: Option<Exit>)
    requires exits.Valid() && exits.slots.clock <= now && IsOff(exits.pool, id)
    requires id > 0 && !(event.Update? && event.id == id && event.enabled == Some(true))
    modifies exits, exits.pool, exits.slots, exits.slots.slots.Values
    ensures exits.Valid() && exits.slots.clock <= now && IsOff(exits.pool, id)
    ensures fresh(exits.slots.slots.Values - old(exits.slots.slots.Values))
    ensures granted.Some? ==> granted.value.id != id
  {
    hide SlotTable.Valid, SlotTable.Loads, Exits.DynamicValid, UnusedBelow, IsListing, ProxyTable.Coherent, Verdict,
         Acquired, Released, Recorded;
    granted := None;
    match event
    case Report(other, success, error) =>
      exits.RecordResult(other, success, error, now, policy.pool);
      StillOff(old(exits.pool.table), old(exits.pool.cache), exits.pool, id);
    case Cooldown(other, error) =>
      exits.ForceCooldown(other, error, now, policy.pool);
      StillOff(old(exits.pool.table), old(exits.pool.cache), exits.pool, id);
    case Finish(other) =>
      UnusedReleased(exits.slots.Loads(), exits.nextDynamicId, other);
      exits.slots.Release(other);
    case Request(prefer, ids, urls, fetch) =>
      granted := exits.Acquire(prefer, ids, urls, now, policy, fetch);
    case _ =>
      PanelWhileOff(exits.pool, event, now, id);
  }

  lemma {:induction false} StillOff(table: map<int, Proxy>, cache: seq<Proxy>, pool: ProxyTable, id: int)
    requires id < pool.nextId && (id in table ==> !table[id].enabled)
    requires forall p :: p in cache && p.id == id ==> !p.enabled
    requires SameProxies(cache, pool.cache) && SameRows(table, pool.table)
    ensures IsOff(pool, id)
  {
  }

  method PanelWhileOff(pool: ProxyTable, event: Event, now: int, id: int)
    requires pool.Valid() && (forall p :: p in pool.cache ==> p.id > 0) && IsOff(pool, id)
    requires event.Reload? || event.Create? || event.Update? || event.Delete? || event.Reset?
    requires !(event.Update? && event.id == id && event.enabled == Some(true))
    modifies pool
    ensures pool.Valid() && (forall p :: p in pool.cache ==> p.id > 0) && IsOff(pool, id)
  {
    hide HasProxyScheme, IsListing, ProxyTable.Coherent;
    match event {
      case Reload(read) =>
        pool.Load(read);
      case Create(name, url, weight, read) =>
        var created := pool.Create(name, url, weight, now, read);
      case Update(other, name, url, enabled, weight, read) =>
        pool.Update(other, name, url, enabled, weight, read);
      case Delete(other, read) =>
        pool.Delete(other, read);
      case Reset(other, read) =>
        pool.ResetFailures(other, read);
    }
    if pool.Coherent() {
      CoherentIds(pool);
      CopyIsOff(pool, id);
    }
  }

  lemma CopyIsOff(pool: ProxyTable, id: int)
    requires pool.Coherent() && (id in pool.table ==> !pool.table[id].enabled)
    ensures forall p :: p in pool.cache && p.id == id ==> !p.enabled
  {
  }

  // ---------------------------------------------------------------- the breaker of dynamic exits

  /** One reported outcome of a dynamic exit. */
  datatype Report = Report(url: string, outcome: Outcome)

  function OutcomesOf(reports: seq<Report>, url: string): seq<Outcome>
    decreases |reports|
  {
    if reports == [] then []
    else
      var n := |reports| - 1;
      OutcomesOf(reports[..n], url) + if reports[n].url == url then [reports[n].outcome] else []
  }

  /** A proxy nobody has used. */
  const NEW_PROXY: Proxy := Proxy(0, "", "", true, 1, 0, 0, "", 0)

  /** Each entry tells what the row of a static proxy would after the same outcomes; only entries
      without a failure may be missing. */
  ghost predicate Follows(stats: map<string, DynamicStat>, reports: seq<Report>, cfg: Config) {
    forall url :: url != "" ==>
      var row := AfterAll(NEW_PROXY, OutcomesOf(reports, url), cfg);
      if url in stats then stats[url] == DynamicStat(row.failCount, row.lastUsed) else row.failCount == 0
  }

  /** Since the last success of the exit there were as many failures as the threshold or a forced
      cooldown, and the cooldown since its last attempt runs. */
  ghost predicate IsShutOut(outcomes: seq<Outcome>, now: int, cfg: Config) {
    && outcomes != [] && Tripped(outcomes, cfg)
    && cfg.cooldownMin > 0 && now - outcomes[|outcomes| - 1].at < cfg.cooldownMin * 60
  }

  /** The breaker of dynamic exits over every history: it is that of static proxies, exit by exit,
      however many exits there are; dropping entries beyond 500 never ends a cooldown or forgets a
      failure. */
  method DynamicBreaker(exits: Exits, reports: seq<Report>, cfg: Config)
    requires exits.dynamicStats == map[]
    modifies exits`dynamicStats
    ensures forall url, now :: exits.Cooling(url, now, cfg) <==>
                                 url != "" && IsShutOut(OutcomesOf(reports, url), now, cfg)
  {
    hide AfterAll, Follows;
    NoReports(cfg);
    for i := 0 to |reports|
      invariant Follows(exits.dynamicStats, reports[..i], cfg)
    {
      var r := reports[i];
      ghost var before := exits.dynamicStats;
      assert reports[..i + 1][..i] == reports[..i];
      match r.outcome {
        case Succeeded(at) => exits.RecordDynamic(r.url, true, at, cfg);
        case Failed(at, _) => exits.RecordDynamic(r.url, false, at, cfg);
        case Forced(at, _) => exits.ForceDynamic(r.url, at, cfg);
      }
      OneMoreReport(before, exits.dynamicStats, reports[..i + 1], cfg);
    }
    assert reports[..|reports|] == reports;
    forall url, now
      ensures exits.Cooling(url, now, cfg) <==> url != "" && IsShutOut(OutcomesOf(reports, url), now, cfg)
    {
      CoolingIff(exits.dynamicStats, reports, url, now, cfg);
    }
  }

  lemma NoReports(cfg: Config)
    ensures Follows(map[], [], cfg)
  {
  }

  /** The entry of a URL after one more outcome. */
  ghost predicate IsEntry(before: map<string, DynamicStat>, after: map<string, DynamicStat>, r: Report, cfg: Config) {
    && r.url in after
    && var fails := if r.url in before then before[r.url].failCount else 0;
       after[r.url] == match r.outcome
                       case Succeeded(at) => DynamicStat(0, at)
                       case Failed(at, _) => DynamicStat(fails + 1, at)
                       case Forced(at, _) => DynamicStat(FailThreshold(cfg), at)
  }

  lemma {:induction false} OneMoreReport(before: map<string, DynamicStat>, after: map<string, DynamicStat>,
                                         reports: seq<Report>, cfg: Config)
    requires reports != [] && Follows(before, reports[..|reports| - 1], cfg)
    requires var r := reports[|reports| - 1];
             && (r.url != "" ==> IsEntry(before, after, r, cfg))
             && (forall u :: u in after && u != r.url ==> u in before && after[u] == before[u])
             && (forall u :: u in before && u != r.url && before[u].failCount != 0 ==> u in after)
    ensures Follows(after, reports, cfg)
  {
    var r, init := reports[|reports| - 1], reports[..|reports| - 1];
    forall url | url != ""
      ensures var row := AfterAll(NEW_PROXY, OutcomesOf(reports, url), cfg);
              if url in after then after[url] == DynamicStat(row.failCount, row.lastUsed) else row.failCount == 0
    {
      var mine := OutcomesOf(init, url);
      if r.url == url {
        assert (mine + [r.outcome])[..|mine|] == mine;
      } else {
        assert OutcomesOf(reports, url) == mine;
      }
    }
  }

  lemma {:induction false} CoolingIff(stats: map<string, DynamicStat>, reports: seq<Report>, url: string, now: int,
                                      cfg: Config)
    requires Follows(stats, reports, cfg)
    ensures IsCooling(stats, url, now, cfg) <==> url != "" && IsShutOut(OutcomesOf(reports, url), now, cfg)
  {
    var mine := OutcomesOf(reports, url);
    if url != "" && mine != [] {
      hide Tripped, AfterAll;
      BreakerLaw(NEW_PROXY, mine, cfg, now);
      var from := FailCountAfter(NEW_PROXY, mine, cfg);
    }
  }

  predicate SameProxies(before: seq<Proxy>, after: seq<Proxy>) {
    |after| == |before| && forall i :: 0 <= i < |after| ==> SameSettings(after[i], before[i])
  }

  /** Nothing of any row changes but its health. */
  ghost predicate SameRows(before: map<int, Proxy>, after: map<int, Proxy>) {
    after.Keys == before.Keys && forall id :: id in after ==> SameSettings(after[id], before[id])
  }

  lemma RecordedRows(table: map<int, Proxy>, id: int, o: Outcome, cfg: Config)
    ensures SameRows(table, RowRecorded(table, id, o, cfg))
  {
    if id in table {
      RecordedId(table[id], o, cfg);
    }
  }

  lemma {:induction false} IdsStayPositive(before: seq<Proxy>, after: seq<Proxy>)
    requires forall p :: p in before ==> p.id > 0
    requires SameProxies(before, after)
    ensures forall p :: p in after ==> p.id > 0
  {
  }

  lemma {:induction false} RoomKept(loads: imap<int, Load>, id: int, now: int, cfg: Config)
    requires id in loads
    ensures forall other, t :: other != id && Room(loads, other, t, cfg) ==>
              Room(Acquired(loads, id, now, cfg.limits), other, t, cfg)
  {
    hide Verdict;
  }

  lemma {:induction false} TurnShift(list: seq<Proxy>, start: nat, i: nat)
    requires list != []
    ensures InTurn(list, start + i, 0) == InTurn(list, start, i)
  {
  }

  lemma {:induction false} FirstIsNext(p: Proxy, list: seq<Proxy>, start: nat, loads: imap<int, Load>, now: int,
                                       cfg: Config)
    requires list != [] && FirstInTurn(p, list, start, loads, now, cfg)
    requires Room(loads, InTurn(list, start, 0).id, now, cfg)
    ensures p == InTurn(list, start, 0)
  {
    hide InTurn, Room;
  }

  lemma {:induction false} CandidateIdsDistinct(cache: seq<Proxy>, table: map<int, Proxy>, excluded: set<int>,
                                                now: int, cfg: Config)
    requires IsListing(cache, table)
    ensures IdsIncrease(Candidates(cache, excluded, now, cfg))
    decreases |cache|
  {
    if cache != [] {
      var n := |cache| - 1;
      ListingInit(cache, table);
      CandidateIdsDistinct(cache[..n], table - {cache[n].id}, excluded, now, cfg);
      var list := Candidates(cache[..n], excluded, now, cfg);
      var full := Candidates(cache, excluded, now, cfg);
      assert full == list || full == list + [cache[n]];
      forall i | 0 <= i < |list|
        ensures list[i].id < cache[n].id
      {
        assert list[i] in cache[..n];
        var k :| 0 <= k < n && cache[k] == list[i];
        assert cache[k].id < cache[n].id;
      }
    }
  }

  /** The places of one round are all different. */
  lemma {:induction false} TurnsDistinct(list: seq<Proxy>, start: nat)
    requires IdsIncrease(list) && list != []
    ensures forall i: nat, j: nat :: i < j < |list| ==> InTurn(list, start, i).id != InTurn(list, start, j).id
  {
    var n := |list|;
    forall i: nat, j: nat | i < j < n
      ensures InTurn(list, start, i).id != InTurn(list, start, j).id
    {
      DivMod(start + i, n);
      DivMod(start + j, n);
      var d := (start + j) / n - (start + i) / n;
      assert d * n == ((start + j) / n) * n - ((start + i) / n) * n;
      MulAtLeast(d, n);
      assert (start + i) % n != (start + j) % n;
    }
  }

  // ---------------------------------------------------------------- never direct

  /** What can happen around a request: reported results, releases, reloads and the panel's
      operations, each with a re-read of the table that may fail, and the request itself. */
  datatype Event =
    | Reload(read: ReadOutcome)
    | Create(name: string, url: string, weight: int, read: ReadOutcome)
    | Update(id: int, name: string, url: string, enabled: Option<bool>, newWeight: Option<int>, read: ReadOutcome)
    | Delete(id: int, read: ReadOutcome)
    | Reset(id: int, read: ReadOutcome)
    | Report(id: int, success: bool, error: string)
    | Cooldown(id: int, error: string)
    | Finish(id: int)
    | Request(prefer: int, excludedIds: set<int>, excludedURLs: set<string>, fetch: nat -> Fetched)

  /** The ids in the table, the next free one, the ids that the last complete read found, and the
      load of the direct connection. */
  datatype Known = Known(keys: set<int>, next: int, found: set<int>, direct: Load) {
    function Read(outcome: ReadOutcome): Known {
      if outcome.ReadAll? then this.(found := keys) else this
    }
  }

  /** A request goes direct without permission to fall back. */
  ghost predicate GoesDirect(v: Known, e: Event, now: int, policy: Policy) {
    && e.Request? && 0 !in e.excludedIds && policy.mode.Auto? && !policy.hasPoolURL && v.found == {}
    && Verdict(v.direct, now, policy.pool.limits).Granted?
  }

  ghost function Happened(v: Known, e: Event, now: int, policy: Policy): Known {
    match e
    case Reload(read) => v.Read(read)
    case Create(name, url, _, read) =>
      if name == "" || url == "" || !HasProxyScheme(url) then v
      else v.(keys := v.keys + {v.next}, next := v.next + 1).Read(read)
    case Update(_, name, url, enabled, weight, read) =>
      if name == "" && url == "" && enabled.None? && weight.None? then v else v.Read(read)
    case Delete(id, read) => v.(keys := v.keys - {id}).Read(read)
    case Reset(_, read) => v.Read(read)
    case Finish(id) => if id == 0 then v.(direct := Released(imap[0 := v.direct], 0)[0]) else v
    case Request(_, _, _, _) =>
      if GoesDirect(v, e, now, policy)
      then v.(direct := Acquired(imap[0 := v.direct], 0, now, policy.pool.limits)[0])
      else v
    case _ => v
  }

  ghost function AllHappened(v: Known, events: seq<Event>, times: seq<int>, policy: Policy): Known
    requires |times| >= |events|
    decreases |events|
  {
    if events == [] then v
    else
      var n := |events| - 1;
      Happened(AllHappened(v, events[..n], times, policy), events[n], times[n], policy)
  }

  function CacheIds(cache: seq<Proxy>): set<int> {
    set p | p in cache :: p.id
  }

  ghost predicate IsKnown(v: Known, exits: Exits)
    reads exits, exits.pool, exits.slots, exits.slots.slots.Values
  {
    IsPoolKnown(v, exits.pool) && v.direct == exits.slots.Loads()[0]
  }

  ghost predicate IsPoolKnown(v: Known, pool: ProxyTable)
    reads pool
  {
    v.keys == pool.table.Keys && v.next == pool.nextId && v.found == CacheIds(pool.cache)
  }

  /** Without permission to fall back, a request gets the direct connection exactly if it does not
      exclude it, it has room, the mode is the automatic one without a remote pool, and the last
      complete read of the table found no proxy, or there was none yet. */
  method NeverDirect(exits: Exits, events: seq<Event>, times: seq<int>, policy: Policy)
      returns (granted: seq<Option<Exit>>)
    requires exits.Valid() && |times| == |events| && InOrder(times, exits.slots.clock)
    requires !policy.mode.DirectOnly? && (policy.mode.Auto? ==> !policy.fallbackDirect)
    modifies exits, exits.pool, exits.slots, exits.slots.slots.Values
    ensures |granted| == |events|
    ensures var start := Known(old(exits.pool.table).Keys, old(exits.pool.nextId), CacheIds(old(exits.pool.cache)),
                               old(exits.slots.Loads())[0]);
            && IsKnown(AllHappened(start, events, times, policy), exits)
            && forall i :: 0 <= i < |events| ==>
                 ((granted[i].Some? && granted[i].value.id == 0)
                  <==> GoesDirect(AllHappened(start, events[..i], times, policy), events[i], times[i], policy))
  {
    hide Exits.Valid, IsKnown, Happened, GoesDirect, SlotTable.Loads, AreDirect;
    granted := [];
    ghost var start := Known(exits.pool.table.Keys, exits.pool.nextId, CacheIds(exits.pool.cache),
                             exits.slots.Loads()[0]);
    StartKnown(exits, start);
    NoneGranted(start, events, times, policy);
    for i := 0 to |events|
      invariant exits.Valid() && |granted| == i && IsKnown(AllHappened(start, events[..i], times, policy), exits)
      invariant i < |events| ==> exits.slots.clock <= times[i]
      invariant fresh(exits.slots.slots.Values - old(exits.slots.slots.Values))
      invariant AreDirect(granted, start, events, times, policy)
    {
      assert events[..i + 1][..i] == events[..i];
      assert i + 1 < |events| ==> times[i] <= times[i + 1];
      var e := OneEvent(exits, events[i], times[i], policy, AllHappened(start, events[..i], times, policy));
      OneMoreDirect(granted, start, events, times, policy, e);
      granted := granted + [e];
    }
    assert events[..|events|] == events;
    AllAreDirect(granted, start, events, times, policy);
  }

  /** The grants so far went direct exactly where they should. */
  ghost predicate AreDirect(granted: seq<Option<Exit>>, start: Known, events: seq<Event>, times: seq<int>,
                            policy: Policy)
    requires |events| == |times|
  {
    && |granted| <= |events|
    && forall i :: 0 <= i < |granted| ==>
         ((granted[i].Some? && granted[i].value.id == 0)
          <==> GoesDirect(AllHappened(start, events[..i], times, policy), events[i], times[i], policy))
  }

  lemma NoneGranted(start: Known, events: seq<Event>, times: seq<int>, policy: Policy)
    requires |events| == |times|
    ensures AreDirect([], start, events, times, policy)
  {
  }

  lemma OneMoreDirect(granted: seq<Option<Exit>>, start: Known, events: seq<Event>, times: seq<int>, policy: Policy,
                      e: Option<Exit>)
    requires |events| == |times| && AreDirect(granted, start, events, times, policy) && |granted| < |events|
    requires var i := |granted|;
             (e.Some? && e.value.id == 0)
             <==> GoesDirect(AllHappened(start, events[..i], times, policy), events[i], times[i], policy)
    ensures AreDirect(granted + [e], start, events, times, policy)
  {
    hide GoesDirect, AllHappened;
  }

  lemma AllAreDirect(granted: seq<Option<Exit>>, start: Known, events: seq<Event>, times: seq<int>, policy: Policy)
    requires |events| == |times| && AreDirect(granted, start, events, times, policy)
    ensures forall i :: 0 <= i < |granted| ==>
              ((granted[i].Some? && granted[i].value.id == 0)
               <==> GoesDirect(AllHappened(start, events[..i], times, policy), events[i], times[i], policy))
  {
    hide GoesDirect, AllHappened;
  }

  lemma {:induction false} SameCacheIds(before: seq<Proxy>, after: seq<Proxy>)
    requires SameProxies(before, after)
    ensures CacheIds(after) == CacheIds(before)
  {
    forall i | 0 <= i < |before|
      ensures before[i].id in CacheIds(after) && after[i].id in CacheIds(before)
    {
      assert before[i] in before && after[i] in after;
    }
  }

  lemma StartKnown(exits: Exits, v: Known)
    requires v == Known(exits.pool.table.Keys, exits.pool.nextId, CacheIds(exits.pool.cache), exits.slots.Loads()[0])
    ensures IsKnown(v, exits)
  {
  }

  method OneEvent(exits: Exits, event: Event, now: int, policy: Policy, ghost v: Known) returns (granted: Option<Exit>)
    requires exits.Valid() && exits.slots.clock <= now && IsKnown(v, exits)
    requires !policy.mode.DirectOnly? && (policy.mode.Auto? ==> !policy.fallbackDirect)
    modifies exits, exits.pool, exits.slots, exits.slots.slots.Values
    ensures exits.Valid() && exits.slots.clock <= now && IsKnown(Happened(v, event, now, policy), exits)
    ensures fresh(exits.slots.slots.Values - old(exits.slots.slots.Values))
    ensures (granted.Some? && granted.value.id == 0) <==> GoesDirect(v, event, now, policy)
  {
    hide Verdict, Acquired, SlotTable.Valid, SlotTable.Loads, IsListing, Candidates, Room, UnusedBelow, ValidTable,
         Exits.DynamicValid, HasProxyScheme, ProxyTable.Coherent, Exits.IsOffer, Exits.MayGoDirect, Exits.Cooling,
         CacheIds, SameProxies;
    granted := None;
    match event
    case Report(_, _, _) => ReportEvent(exits, event, now, policy, v);
    case Cooldown(_, _) => ReportEvent(exits, event, now, policy, v);
    case Finish(id) =>
      UnusedReleased(exits.slots.Loads(), exits.nextDynamicId, id);
      exits.slots.Release(id);
    case Request(prefer, ids, urls, fetch) =>
      granted := AskForExit(exits, prefer, ids, urls, now, policy, fetch, v);
    case _ =>
      PanelEvent(exits.pool, event, now, v);
  }

  method ReportEvent(exits: Exits, event: Event, now: int, policy: Policy, ghost v: Known)
    requires exits.Valid() && exits.slots.clock <= now && IsKnown(v, exits) && (event.Report? || event.Cooldown?)
    modifies exits, exits.pool
    ensures exits.Valid() && IsKnown(Happened(v, event, now, policy), exits)
  {
    hide Verdict, Acquired, SlotTable.Valid, SlotTable.Loads, IsListing, UnusedBelow, ValidTable, CacheIds, SameProxies,
         Exits.DynamicValid, HasProxyScheme, ProxyTable.Coherent;
    if event.Report? {
      exits.RecordResult(event.id, event.success, event.error, now, policy.pool);
    } else {
      exits.ForceCooldown(event.id, event.error, now, policy.pool);
    }
    SameCacheIds(old(exits.pool.cache), exits.pool.cache);
  }

  method AskForExit(exits: Exits, prefer: int, ids: set<int>, urls: set<string>, now: int, policy: Policy,
                    fetch: nat -> Fetched, ghost v: Known) returns (granted: Option<Exit>)
    requires exits.Valid() && exits.slots.clock <= now && IsKnown(v, exits)
    requires !policy.mode.DirectOnly? && (policy.mode.Auto? ==> !policy.fallbackDirect)
    modifies exits, exits.slots, exits.slots.slots.Values
    ensures exits.Valid() && exits.slots.clock <= now
    ensures fresh(exits.slots.slots.Values - old(exits.slots.slots.Values))
    ensures var e := Request(prefer, ids, urls, fetch);
            && IsKnown(Happened(v, e, now, policy), exits)
            && ((granted.Some? && granted.value.id == 0) <==> GoesDirect(v, e, now, policy))
  {
    hide Verdict, SlotTable.Valid, SlotTable.Loads, IsListing, Candidates, Room, UnusedBelow, ValidTable,
         Exits.DynamicValid, ProxyTable.Coherent, Exits.IsDynamicExit, Exits.StaticRoom, Exits.DynamicRoom;
    RoomIs(exits.slots.Loads(), 0, now, policy.pool);
    assert exits.pool.cache != [] ==> exits.pool.cache[0].id in CacheIds(exits.pool.cache);
    granted := exits.Acquire(prefer, ids, urls, now, policy, fetch);
  }

  /** The pool's own operations. */
  method PanelEvent(pool: ProxyTable, event: Event, now: int, ghost v: Known)
    requires pool.Valid() && (forall p :: p in pool.cache ==> p.id > 0) && IsPoolKnown(v, pool)
    requires event.Reload? || event.Create? || event.Update? || event.Delete? || event.Reset?
    modifies pool
    ensures pool.Valid() && (forall p :: p in pool.cache ==> p.id > 0)
    ensures forall policy :: IsPoolKnown(Happened(v, event, now, policy), pool)
    ensures forall policy :: Happened(v, event, now, policy).direct == v.direct
  {
    hide IsListing, HasProxyScheme, ProxyTable.Coherent, ProxyTable.Valid, CacheIds;
    match event {
      case Reload(read) =>
        pool.Load(read);
      case Create(name, url, weight, read) =>
        var id := pool.Create(name, url, weight, now, read);
      case Update(id, name, url, enabled, weight, read) =>
        pool.Update(id, name, url, enabled, weight, read);
      case Delete(id, read) =>
        pool.Delete(id, read);
      case Reset(id, read) =>
        pool.ResetFailures(id, read);
    }
    if pool.Coherent() {
      CoherentIds(pool);
    }
  }

  lemma {:induction false} CoherentIds(pool: ProxyTable)
    requires pool.Coherent()
    ensures CacheIds(pool.cache) == pool.table.Keys && forall p :: p in pool.cache ==> p.id > 0
  {
    forall id | id in pool.table
      ensures id in CacheIds(pool.cache)
    {
      assert Lists(pool.cache, id);
      var i :| 0 <= i < |pool.cache| && pool.cache[i].id == id;
      assert pool.cache[i] in pool.cache;
    }
  }

  /** So a loaded pool from which nothing is deleted keeps every request off the direct
      connection, however many reads fail. */
  lemma {:induction false} StaysLoaded(v: Known, events: seq<Event>, times: seq<int>, policy: Policy)
    requires v.found != {} && v.keys != {} && |times| >= |events|
    requires forall e :: e in events ==> !e.Delete?
    ensures AllHappened(v, events, times, policy).found != {} && AllHappened(v, events, times, policy).keys != {}
    decreases |events|
  {
    hide HasProxyScheme, GoesDirect;
    if events != [] {
      StaysLoaded(v, events[..|events| - 1], times, policy);
    }
  }

  /** A pool whose first read fails looks empty, whatever is in the table: a request goes direct,
      although falling back is switched off. */
  method FirstReadFails(pool: ProxyTable, read: ReadOutcome, now: int) returns (granted: seq<Option<Exit>>)
    requires pool.Valid() && pool.cache == [] && !read.ReadAll? && 0 <= now
    modifies pool
    ensures pool.table.Keys == old(pool.table).Keys
    ensures |granted| == 2 && granted[1].Some? && granted[1].value.id == 0
  {
    hide SlotTable.Valid, SlotTable.Loads, Exits.DynamicValid, UnusedBelow, ProxyTable.Valid, Verdict;
    var exits, policy := NewExits(pool, now);
    var events := [Reload(read), Request(0, {}, {}, n => FetchFails)];
    ghost var start := Known(pool.table.Keys, pool.nextId, {}, exits.slots.Loads()[0]);
    assert CacheIds(pool.cache) == {};
    TwoEvents(start, events, [now, now], policy);
    assert GoesDirect(AllHappened(start, events[..1], [now, now], policy), events[1], now, policy);
    granted := NeverDirect(exits, events, [now, now], policy);
  }

  /** And so does one whose last complete read found an empty table, when the panel adds a proxy and
      the read after that fails. */
  method ProxyUnseen(pool: ProxyTable, now: int) returns (granted: seq<Option<Exit>>)
    requires pool.Valid() && pool.cache == [] && pool.table.Keys == {} && 0 <= now
    modifies pool
    ensures pool.table.Keys != {} && |granted| == 3 && granted[2].Some? && granted[2].value.id == 0
  {
    hide SlotTable.Valid, SlotTable.Loads, Exits.DynamicValid, UnusedBelow, ProxyTable.Valid, Verdict;
    SchemeOf("http://a");
    var exits, policy := NewExits(pool, now);
    var events := [Reload(ReadAll), Create("p", "http://a", 1, QueryFails), Request(0, {}, {}, n => FetchFails)];
    ghost var start := Known(pool.table.Keys, pool.nextId, {}, exits.slots.Loads()[0]);
    assert CacheIds(pool.cache) == {};
    ThreeEvents(start, events, [now, now, now], policy);
    assert GoesDirect(AllHappened(start, events[..2], [now, now, now], policy), events[2], now, policy);
    granted := NeverDirect(exits, events, [now, now, now], policy);
  }

  /** Exits without calls and without limits, in the automatic mode without a remote pool. */
  method NewExits(pool: ProxyTable, now: int) returns (exits: Exits, policy: Policy)
    requires pool.Valid() && pool.cache == []
    ensures fresh(exits) && fresh(exits.slots) && fresh(exits.slots.slots.Values) && exits.slots.clock == 0
    ensures exits.Valid() && exits.pool == pool && policy.mode.Auto? && !policy.fallbackDirect && !policy.hasPoolURL
    ensures Verdict(exits.slots.Loads()[0], now, policy.pool.limits).Granted?
  {
    hide SlotTable.Valid, SlotTable.Loads, Exits.DynamicValid, UnusedBelow, ProxyTable.Valid, Verdict;
    exits := new Exits(pool);
    policy := Policy(Config(Limits(0, 0, 0), 2, 5, false), Auto, false, false);
    UnusedHasRoom(exits.slots.Loads(), 0, 0, now, policy.pool);
    RoomIs(exits.slots.Loads(), 0, now, policy.pool);
  }

  lemma {:induction false} TwoEvents(v: Known, events: seq<Event>, times: seq<int>, policy: Policy)
    requires |events| == |times| == 2 && events[0].Reload? && !events[0].read.ReadAll? && events[1].Request?
    ensures AllHappened(v, events[..1], times, policy) == v && AllHappened(v, events, times, policy).keys == v.keys
  {
    hide Verdict;
    assert events[..2] == events && events[..2][..1] == events[..1] && events[..1][..0] == [];
    assert AllHappened(v, [], times, policy) == v;
  }

  lemma {:induction false} ThreeEvents(v: Known, events: seq<Event>, times: seq<int>, policy: Policy)
    requires |events| == |times| == 3 && events[0] == Reload(ReadAll) && v.keys == v.found == {}
    requires events[1] == Create("p", "http://a", 1, QueryFails) && events[2].Request?
    requires HasProxyScheme("http://a")
    ensures AllHappened(v, events[..2], times, policy) == v.(keys := {v.next}, next := v.next + 1)
    ensures AllHappened(v, events, times, policy).keys != {}
  {
    hide HasProxyScheme, Verdict;
    assert events[..3] == events && events[..3][..2] == events[..2] && events[..2][..1] == events[..1];
    assert events[..1][..0] == [] && AllHappened(v, [], times, policy) == v;
    assert AllHappened(v, events[..1], times, policy) == Happened(v, events[0], times[0], policy) == v;
    var name, url := "p", "http://a";
    assert name[0] == 'p' && url[0] == 'h';
  }

  lemma SchemeOf(url: string)
    requires url == "http://a"
    ensures HasProxyScheme(url)
  {
    assert ToLower(url) == url;
  }

  /** From the start of a round, the next with room is missed only if there is none. */
  lemma {:induction false} NextIsThere(list: seq<Proxy>, start: nat, k: nat, loads: imap<int, Load>, now: int,
                                       cfg: Config)
    requires k <= |list| && forall i: nat :: i < k ==> !Room(loads, InTurn(list, start, i).id, now, cfg)
    ensures NextWithRoom(list, start, k, loads, now, cfg) == None ==>
              forall q :: q in list ==> !Room(loads, q.id, now, cfg)
    decreases |list| - k
  {
    hide Room, InTurn;
    if k < |list| {
      if !Room(loads, InTurn(list, start, k).id, now, cfg) {
        NextIsThere(list, start, k + 1, loads, now, cfg);
      }
    } else if list != [] {
      AllPassedOver(list, start);
    }
  }

  lemma NothingToPick(prefer: int, excluded: set<int>, stickyURL: string, stickyID: int, cursor: nat,
                      loads: imap<int, Load>, now: int, cfg: Config)
    ensures PickOf([], prefer, excluded, stickyURL, stickyID, cursor, loads, now, cfg) == None
  {
  }

  lemma {:induction false} NoCandidates(excluded: set<int>, now: int, cfg: Config)
    ensures Candidates([], excluded, now, cfg) == []
  {
  }

  lemma {:induction false} IsFirstInTurn(list: seq<Proxy>, start: nat, turn: nat, loads: imap<int, Load>, now: int,
                                         cfg: Config)
    requires turn < |list|
    requires forall k: nat :: k < turn ==> !Room(loads, InTurn(list, start, k).id, now, cfg)
    ensures FirstInTurn(InTurn(list, start, turn), list, start, loads, now, cfg)
  {
    hide InTurn, Room;
  }

  lemma {:induction false} TurnsInList(list: seq<Proxy>, start: nat)
    requires list != []
    ensures forall k: nat :: InTurn(list, start, k) in list
  {
  }

  lemma {:induction false} InTurnIn(list: seq<Proxy>, start: nat, k: nat)
    requires list != []
    ensures InTurn(list, start, k) in list
  {
  }

  /** A full round from any starting point passes every member. */
  lemma {:induction false} AllPassedOver(list: seq<Proxy>, start: nat)
    requires list != []
    ensures forall q :: q in list ==> exists k: nat :: k < |list| && InTurn(list, start, k) == q
  {
    forall q | q in list
      ensures exists k: nat :: k < |list| && InTurn(list, start, k) == q
    {
      var i :| 0 <= i < |list| && list[i] == q;
      var k := RoundTo(start, i, |list|);
      assert InTurn(list, start, k) == q;
    }
  }

  lemma {:induction false} RoundTo(start: nat, i: nat, n: nat) returns (k: nat)
    requires i < n
    ensures k < n && (start + k) % n == i
  {
    var q, r := start / n, start % n;
    k := if i >= r then i - r else i + n - r;
    DivMod(start, n);
    if i >= r {
      ModIs(start + k, q, i, n);
    } else {
      assert (q + 1) * n == q * n + n;
      ModIs(start + k, q + 1, i, n);
    }
  }

  lemma {:induction false} DivMod(x: int, n: int)
    requires n > 0
    ensures x == (x / n) * n + x % n
  {
  }

  lemma {:induction false} ModIs(x: int, q: int, r: int, n: int)
    requires n > 0 && 0 <= r < n && x == q * n + r
    ensures x % n == r
  {
    DivMod(x, n);
    var d := x / n - q;
    assert d * n == (x / n) * n - q * n;
    MulAtLeast(d, n);
  }

  lemma {:induction false} MulAtLeast(d: int, n: int)
    requires n > 0
    ensures d >= 1 ==> d * n >= n
    ensures d <= -1 ==> d * n <= -n
  {
    assert d * n == n + (d - 1) * n == -n + (d + 1) * n;
  }
}
