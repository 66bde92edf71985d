/** The static proxy pool (`proxy.go`): the table, the in-memory copy of it that every request
    reads, the circuit breaker, and the choice of an exit. */
module ProxyPool {
  import opened Options
  import opened RateLimit
  import opened Text

  datatype Proxy = Proxy(
    id: int, name: string, url: string, enabled: bool, weight: int,
    failCount: int, lastUsed: int, lastError: string, createdAt: int)

  /** The runtime settings the pool reads. */
  datatype Config = Config(limits: Limits, retryAttempts: int, cooldownMin: int, sticky: bool)

  // ---------------------------------------------------------------- the circuit breaker

  function FailThreshold(cfg: Config): int {
    if cfg.retryAttempts <= 0 then 1 else cfg.retryAttempts
  }

  /** `proxyUsable`. */
  function Usable(p: Proxy, now: int, cfg: Config): bool {
    if !p.enabled then false
    else if p.failCount < FailThreshold(cfg) then true
    else if cfg.cooldownMin <= 0 then false
    else now - p.lastUsed >= cfg.cooldownMin * 60
  }

  /** One reported outcome. `Forced` is `forceProxyCooldown`. */
  datatype Outcome = Succeeded(at: int) | Failed(at: int, error: string) | Forced(at: int, error: string)

  /** What the row of a proxy becomes. */
  function Recorded(p: Proxy, o: Outcome, cfg: Config): Proxy {
    match o
    case Succeeded(at) => p.(failCount := 0, lastUsed := at, lastError := "")
    case Failed(at, error) => p.(failCount := p.failCount + 1, lastUsed := at, lastError := error)
    case Forced(at, error) => p.(failCount := FailThreshold(cfg), lastUsed := at, lastError := error)
  }

  function AfterAll(p: Proxy, outcomes: seq<Outcome>, cfg: Config): Proxy
    decreases |outcomes|
  {
    if outcomes == [] then p
    else Recorded(AfterAll(p, outcomes[..|outcomes| - 1], cfg), outcomes[|outcomes| - 1], cfg)
  }

  /** The breaker opened: since the last success there was a forced cooldown, or as many
      failures as the threshold. */
  ghost predicate Tripped(outcomes: seq<Outcome>, cfg: Config) {
    exists from: nat ::
      && SinceLastSuccess(outcomes, from)
      && ((exists k :: from <= k < |outcomes| && outcomes[k].Forced?)
          || |outcomes| - from >= if cfg.retryAttempts > 0 then cfg.retryAttempts else 1)
  }

  /** The outcomes from `from` on are all those after the last success. */
  ghost predicate SinceLastSuccess(outcomes: seq<Outcome>, from: nat) {
    && from <= |outcomes|
    && (from > 0 ==> outcomes[from - 1].Succeeded?)
    && forall k :: from <= k < |outcomes| ==> !outcomes[k].Succeeded?
  }

  lemma {:induction false} FailCountAfter(p: Proxy, outcomes: seq<Outcome>, cfg: Config) returns (from: nat)
    requires p.failCount == 0
    ensures SinceLastSuccess(outcomes, from)
    ensures var after := AfterAll(p, outcomes, cfg);
            && after == p.(failCount := after.failCount, lastUsed := after.lastUsed, lastError := after.lastError)
            && (outcomes != [] ==> after.lastUsed == outcomes[|outcomes| - 1].at)
            && after.failCount >= 0
            && (after.failCount >= FailThreshold(cfg)
                <==> || (exists k :: from <= k < |outcomes| && outcomes[k].Forced?)
                     || |outcomes| - from >= FailThreshold(cfg))
            && ((forall k :: from <= k < |outcomes| ==> !outcomes[k].Forced?) ==> after.failCount == |outcomes| - from)
    decreases |outcomes|
  {
    if outcomes == [] {
      return 0;
    }
    var n := |outcomes| - 1;
    var before := outcomes[..n];
    from := FailCountAfter(p, before, cfg);
    match outcomes[n]
    case Succeeded(_) =>
      from := n + 1;
    case Failed(_, _) =>
      assert forall k :: from <= k < n ==> outcomes[k] == before[k];
    case Forced(_, _) =>
      assert outcomes[n].Forced?;
  }

  /** The breaker over every history of a proxy that started without failures: it is usable exactly if
      it is switched on, and not tripped or the cooldown, counted from the last attempt, has passed. */
  lemma {:induction false} BreakerLaw(p: Proxy, outcomes: seq<Outcome>, cfg: Config, now: int)
    requires p.failCount == 0
    ensures Usable(AfterAll(p, outcomes, cfg), now, cfg)
            <==> && p.enabled
                 && (|| !Tripped(outcomes, cfg)
                     || (cfg.cooldownMin > 0 && now - outcomes[|outcomes| - 1].at >= cfg.cooldownMin * 60))
  {
    var from := FailCountAfter(p, outcomes, cfg);
    forall other: nat | SinceLastSuccess(outcomes, other)
      ensures other == from
    {
    }
  }

  /** One more failure after the cooldown shuts the exit out for another whole cooldown. */
  lemma {:induction false} RearmsOnFailure(p: Proxy, outcomes: seq<Outcome>, failure: Outcome, cfg: Config, now: int)
    requires p.failCount == 0 && Tripped(outcomes, cfg) && failure.Failed?
    ensures var after := AfterAll(p, outcomes + [failure], cfg);
            Usable(after, now, cfg) <==> p.enabled && cfg.cooldownMin > 0 && now - failure.at >= cfg.cooldownMin * 60
  {
    var longer := outcomes + [failure];
    var from: nat :| SinceLastSuccess(outcomes, from)
      && ((exists k :: from <= k < |outcomes| && outcomes[k].Forced?)
          || |outcomes| - from >= if cfg.retryAttempts > 0 then cfg.retryAttempts else 1);
    assert SinceLastSuccess(longer, from);
    if k :| from <= k < |outcomes| && outcomes[k].Forced? {
      assert longer[k].Forced?;
    }
    BreakerLaw(p, longer, cfg, now);
  }

  // ---------------------------------------------------------------- the table and its copy

  /** `list` holds exactly the rows of the table, in id order. */
  ghost predicate IsListing(list: seq<Proxy>, table: map<int, Proxy>) {
    && (forall i, j :: 0 <= i < j < |list| ==> list[i].id < list[j].id)
    && (forall i :: 0 <= i < |list| ==> list[i].id in table && table[list[i].id] == list[i])
    && (forall id :: id in table ==> Lists(list, id))
  }

  ghost predicate Lists(list: seq<Proxy>, id: int) {
    exists i :: 0 <= i < |list| && list[i].id == id
  }

  /** How a read of the table ends: complete, refused, or broken off after some rows. */
  datatype ReadOutcome = ReadAll | QueryFails | BreaksAfter(rows: nat)

  ghost predicate ValidTable(table: map<int, Proxy>, nextId: int) {
    forall id :: id in table ==> table[id].id == id && 0 < id < nextId
  }

  lemma {:induction false} SmallestKey(keys: set<int>) returns (k: int)
    requires keys != {}
    ensures k in keys && forall j :: j in keys ==> k <= j
    decreases |keys|
  {
    var first := AnyOf(keys);
    var rest := keys - {first};
    assert forall j :: j in keys ==> j == first || j in rest;
    k := first;
    if rest != {} {
      var r := SmallestKey(rest);
      if r < k {
        k := r;
      }
    } else {
      assert forall j :: j !in rest;
    }
  }

  lemma {:induction false} SmallestKeyExists(keys: set<int>)
    requires keys != {}
    ensures exists k :: k in keys && forall j :: j in keys ==> k <= j
  {
    var k := SmallestKey(keys);
  }

  ghost predicate IsSmallest(k: int, keys: set<int>) {
    k in keys && forall j :: j in keys ==> k <= j
  }

  function MinId(table: map<int, Proxy>): (k: int)
    requires table.Keys != {}
    ensures IsSmallest(k, table.Keys)
  {
    SmallestKeyExists(table.Keys);
    var k :| k in table.Keys && forall j :: j in table.Keys ==> k <= j;
    k
  }

  /** What `SELECT ... ORDER BY id` returns. */
  function Ordered(table: map<int, Proxy>): seq<Proxy>
    decreases |table|
  {
    if table.Keys == {} then []
    else
      var k := MinId(table);
      [table[k]] + Ordered(table - {k})
  }

  lemma {:induction false} OrderedIsListing(table: map<int, Proxy>)
    requires forall id :: id in table ==> table[id].id == id
    ensures IsListing(Ordered(table), table)
    decreases |table|
  {
    if table.Keys != {} {
      var k := MinId(table);
      OrderedIsListing(table - {k});
      FirstInListing(table[k], Ordered(table - {k}), table);
    }
  }

  lemma {:induction false} FirstInListing(p: Proxy, rest: seq<Proxy>, table: map<int, Proxy>)
    requires p.id in table && table[p.id] == p && IsSmallest(p.id, table.Keys)
    requires IsListing(rest, table - {p.id})
    ensures IsListing([p] + rest, table)
  {
    var l, less := [p] + rest, table - {p.id};
    hide Lists;
    forall i | 1 <= i < |l|
      ensures l[i].id in table && table[l[i].id] == l[i] && p.id < l[i].id
    {
      assert l[i] == rest[i - 1] && rest[i - 1].id in less;
    }
    forall id | id in table
      ensures Lists(l, id)
    {
      if id == p.id {
        ListsAt(l, 0);
      } else {
        assert id in less;
        ListsBehind(p, rest, id);
      }
    }
  }

  lemma {:induction false} ListsAt(list: seq<Proxy>, i: nat)
    requires i < |list|
    ensures Lists(list, list[i].id)
  {
  }

  lemma {:induction false} ListsBehind(p: Proxy, rest: seq<Proxy>, id: int)
    requires Lists(rest, id)
    ensures Lists([p] + rest, id)
  {
    var i :| 0 <= i < |rest| && rest[i].id == id;
    assert ([p] + rest)[i + 1].id == id;
  }

  /** A listing is determined by the table. */
  lemma {:induction false} ListingUnique(a: seq<Proxy>, b: seq<Proxy>, table: map<int, Proxy>)
    requires IsListing(a, table) && IsListing(b, table)
    ensures a == b
    decreases |a|
  {
    ListingEmpty(a, table);
    ListingEmpty(b, table);
    if a != [] {
      var x := a[|a| - 1];
      LastIsLargest(a, table);
      LastIsLargest(b, table);
      assert b[|b| - 1].id in table;
      ListingInit(a, table);
      ListingInit(b, table);
      assert b[|b| - 1] == x;
      hide IsListing;
      ListingUnique(a[..|a| - 1], b[..|b| - 1], table - {x.id});
      assert a == a[..|a| - 1] + [x];
      assert b == b[..|b| - 1] + [x];
    }
  }

  lemma {:induction false} ListingEmpty(list: seq<Proxy>, table: map<int, Proxy>)
    requires IsListing(list, table)
    ensures list == [] <==> table.Keys == {}
  {
    if list != [] {
      assert list[0].id in table.Keys;
    } else if table.Keys != {} {
      var id := AnyOf(table.Keys);
    }
  }

  lemma {:induction false} LastIsLargest(list: seq<Proxy>, table: map<int, Proxy>)
    requires IsListing(list, table) && list != []
    ensures forall id :: id in table ==> id <= list[|list| - 1].id
  {
  }

  lemma {:induction false} ListingInit(list: seq<Proxy>, table: map<int, Proxy>)
    requires IsListing(list, table) && list != []
    ensures IsListing(list[..|list| - 1], table - {list[|list| - 1].id})
  {
    var n := |list| - 1;
    var less := table - {list[n].id};
    forall id | id in less
      ensures Lists(list[..n], id)
    {
      assert Lists(list, id);
      var i :| 0 <= i < |list| && list[i].id == id;
      assert list[..n][i].id == id;
    }
  }

  /** Changing one row changes one entry of the listing, where it stands. */
  lemma {:induction false} ListingPatched(list: seq<Proxy>, table: map<int, Proxy>, i: nat, p: Proxy)
    requires IsListing(list, table) && i < |list| && p.id == list[i].id
    ensures IsListing(list[i := p], table[p.id := p])
  {
    var l, patched := list[i := p], table[p.id := p];
    forall id | id in patched
      ensures Lists(l, id)
    {
      assert Lists(list, id);
      var k :| 0 <= k < |list| && list[k].id == id;
      assert l[k].id == id;
    }
  }

  class ProxyTable {
    var table: map<int, Proxy>  // the rows of the `proxies` table
    var nextId: int             // ids are never used twice
    var cache: seq<Proxy>       // `proxyCache`

    ghost predicate Valid()
      reads this
    {
      ValidTable(table, nextId) && 0 < nextId
    }

    /** The copy in memory says what the table says. */
    ghost predicate Coherent()
      reads this
    {
      Valid() && IsListing(cache, table)
    }

    constructor ()
      ensures Coherent() && cache == [] && table == map[]
    {
      table, nextId, cache := map[], 1, [];
    }

    /** `loadProxies`: a read that does not reach the end leaves the copy as it was. */
    method Load(outcome: ReadOutcome)
      requires Valid()
      modifies this`cache
      ensures Valid()
      ensures outcome.ReadAll? ==> Coherent()
      ensures !outcome.ReadAll? ==> cache == old(cache)
    {
      hide Ordered, IsListing;
      OrderedIsListing(table);
      if outcome.QueryFails? {
        return;
      }
      var rows := Ordered(table);
      var list: seq<Proxy> := [];
      for i := 0 to |rows|
        invariant list == rows[..i]
      {
        if outcome.BreaksAfter? && outcome.rows == i {
          return;
        }
        list := list + [rows[i]];
      }
      if outcome.BreaksAfter? {
        return;
      }
      assert rows[..|rows|] == rows;
      cache := list;
    }

    // -------------------------------------------------------------- results

    /** `recordProxyResult` and `forceProxyCooldown` for a static exit: the row is updated in
        the table and the one entry is patched in memory, without a reload. */
    method Record(id: int, o: Outcome, cfg: Config)
      requires Valid()
      modifies this`table, this`cache
      ensures Valid()
      ensures table == if id in old(table) then old(table)[id := Recorded(old(table)[id], o, cfg)] else old(table)
      ensures old(Coherent()) ==> Coherent()
      ensures |cache| == |old(cache)|
      ensures forall i :: 0 <= i < |cache| ==>
                cache[i] == if old(cache)[i].id == id && (forall k :: 0 <= k < i ==> old(cache)[k].id != id)
                            then Recorded(old(cache)[i], o, cfg) else old(cache)[i]
    {
      hide Ordered, Recorded;
      if id in table {
        RecordedId(table[id], o, cfg);
        table := table[id := Recorded(table[id], o, cfg)];
      }
      for i := 0 to |cache|
        invariant cache == old(cache) && forall k :: 0 <= k < i ==> cache[k].id != id
      {
        if cache[i].id == id {
          RecordedId(cache[i], o, cfg);
          if IsListing(old(cache), old(table)) {
            ListingPatched(old(cache), old(table), i, Recorded(cache[i], o, cfg));
          }
          cache := cache[i := Recorded(cache[i], o, cfg)];
          return;
        }
      }
    }

    // -------------------------------------------------------------- the panel's operations

    /** `proxyCreate`; "" stands for an error, returned before anything is written. */
    method Create(name: string, url: string, weight: int, now: int, read: ReadOutcome) returns (id: Option<int>)
      requires Valid()
      modifies this
      ensures Valid()
      ensures id.None? <==> name == "" || url == "" || !HasProxyScheme(url)
      ensures id.Some? ==>
                var low := ToLower(url);
                "http://" <= low || "https://" <= low || "socks5://" <= low || "socks5h://" <= low
      ensures id.None? ==>
                var low := ToLower(url);
                || name == ""
                || !("http://" <= low || "https://" <= low || "socks5://" <= low || "socks5h://" <= low)
      ensures id.None? ==> table == old(table) && cache == old(cache) && nextId == old(nextId)
      ensures id.Some? ==>
                && id.value == old(nextId) && nextId == id.value + 1
                && table == old(table)[id.value := Proxy(id.value, name, url, true, if weight <= 0 then 1 else weight,
                                                         0, 0, "", now)]
                && (if read.ReadAll? then Coherent() else cache == old(cache))
    {
      if name == "" || url == "" {
        return None;
      }
      if !HasProxyScheme(url) {
        return None;
      }
      var w := if weight <= 0 then 1 else weight;
      var newId := nextId;
      nextId := nextId + 1;
      table := table[newId := Proxy(newId, name, url, true, w, 0, 0, "", now)];
      Load(read);
      return Some(newId);
    }

    /** `proxyUpdate`: only the fields given are written; with none given nothing is read either. */
    method Update(id: int, name: string, url: string, enabled: Option<bool>, weight: Option<int>, read: ReadOutcome)
      requires Valid()
      modifies this`table, this`cache
      ensures Valid()
      ensures table == if id in old(table)
                       then old(table)[id := Edited(old(table)[id], name, url, enabled, weight)] else old(table)
      // each field is written exactly if it is given, and no other field of the row changes
      ensures id in old(table) ==>
                var was, row := old(table)[id], table[id];
                && row.name == (if name == "" then was.name else name)
                && row.url == (if url == "" then was.url else url)
                && row.enabled == (if enabled == Some(true) then true else if enabled == Some(false) then false
                                   else was.enabled)
                && row.weight == (if weight.Some? then weight.value else was.weight)
                && (row.id, row.failCount, row.lastUsed, row.lastError, row.createdAt)
                == (was.id, was.failCount, was.lastUsed, was.lastError, was.createdAt)
      ensures old(Coherent()) && read.ReadAll? ==> Coherent()
      ensures var nothing := name == "" && url == "" && enabled.None? && weight.None?;
              if nothing || !read.ReadAll? then cache == old(cache) else Coherent()
    {
      if name == "" && url == "" && enabled.None? && weight.None? {
        assert id in table ==> table[id := Edited(table[id], name, url, enabled, weight)] == table;
        return;
      }
      if id in table {
        table := table[id := Edited(table[id], name, url, enabled, weight)];
      }
      Load(read);
    }

    /** `proxyDelete`. */
    method Delete(id: int, read: ReadOutcome)
      requires Valid()
      modifies this`table, this`cache
      ensures Valid() && table == old(table) - {id}
      ensures if read.ReadAll? then Coherent() else cache == old(cache)
    {
      table := table - {id};
      Load(read);
    }

    /** `proxyResetFailures`. */
    method ResetFailures(id: int, read: ReadOutcome)
      requires Valid()
      modifies this`table, this`cache
      ensures Valid()
      ensures table == if id in old(table)
                       then old(table)[id := old(table)[id].(failCount := 0, lastError := "")] else old(table)
      ensures if read.ReadAll? then Coherent() else cache == old(cache)
    {
      if id in table {
        table := table[id := table[id].(failCount := 0, lastError := "")];
      }
      Load(read);
    }
  }

  /** Everything but the health of a proxy. */
  predicate SameSettings(p: Proxy, q: Proxy) {
    p == q.(failCount := p.failCount, lastUsed := p.lastUsed, lastError := p.lastError)
  }

  /** An outcome is recorded in three fields: a success clears the failures, another one adds one, and a
      forced cooldown sets them to the threshold. */
  lemma {:induction false} RecordedId(p: Proxy, o: Outcome, cfg: Config)
    ensures Recorded(p, o, cfg).id == p.id && SameSettings(Recorded(p, o, cfg), p)
    ensures var after := Recorded(p, o, cfg);
            match o
            case Succeeded(at) => after.failCount == 0 && after.lastUsed == at && after.lastError == ""
            case Failed(at, error) =>
              after.failCount == p.failCount + 1 && after.lastUsed == at && after.lastError == error
            case Forced(at, error) =>
              && after.failCount == (if cfg.retryAttempts > 0 then cfg.retryAttempts else 1)
              && after.lastUsed == at && after.lastError == error
  {
  }

  function Edited(p: Proxy, name: string, url: string, enabled: Option<bool>, weight: Option<int>): Proxy {
    p.(name := if name != "" then name else p.name,
       url := if url != "" then url else p.url,
       enabled := if enabled.Some? then enabled.value else p.enabled,
       weight := if weight.Some? then weight.value else p.weight)
  }

  /** `validateProxyURL`: one of four schemes, in any letter case. */
  predicate HasProxyScheme(url: string) {
    var low := ToLower(url);
    "http://" <= low || "https://" <= low || "socks5://" <= low || "socks5h://" <= low
  }

  // ---------------------------------------------------------------- every run of operations

  datatype Op =
    | OpCreate(name: string, url: string, weight: int, at: int)
    | OpUpdate(id: int, name: string, url: string, enabled: Option<bool>, newWeight: Option<int>)
    | OpDelete(id: int)
    | OpReset(id: int)
    | OpRecord(id: int, outcome: Outcome)
    | OpReload

  /** Cache coherence: after any run of operations whose reads succeed, the copy in memory is
      the table in id order, although results only patch one entry of it. */
  method RunAll(pool: ProxyTable, ops: seq<Op>, cfg: Config)
    requires pool.Coherent()
    modifies pool
    ensures pool.Coherent() && pool.cache == Ordered(pool.table)
  {
    for i := 0 to |ops|
      invariant pool.Coherent()
    {
      match ops[i]
      case OpCreate(name, url, weight, at) => var _ := pool.Create(name, url, weight, at, ReadAll);
      case OpUpdate(id, name, url, enabled, weight) => pool.Update(id, name, url, enabled, weight, ReadAll);
      case OpDelete(id) => pool.Delete(id, ReadAll);
      case OpReset(id) => pool.ResetFailures(id, ReadAll);
      case OpRecord(id, outcome) => pool.Record(id, outcome, cfg);
      case OpReload => pool.Load(ReadAll);
    }
    OrderedIsListing(pool.table);
    ListingUnique(pool.cache, Ordered(pool.table), pool.table);
  }
}
