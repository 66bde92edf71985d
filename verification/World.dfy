/** What a running request shares with the rest of the process: the exits with their slots, the
    account pool and the clock. Other requests may run between any two of its steps. */
module World {
  import opened Options
  import opened RateLimit
  import opened ProxyPool
  import opened Egress
  import opened CookieJar
  import opened CookiePool
  import opened Effects

  /** Every call in flight is held by this request or by another one. */
  ghost predicate Balanced(loads: imap<int, Load>, others: multiset<int>, held: multiset<int>) {
    forall id: int :: id in loads && loads[id].inflight == others[id] + held[id]
  }

  lemma BalancedAcquire(loads: imap<int, Load>, others: multiset<int>, held: multiset<int>, id: int, now: int,
                        lim: Limits)
    requires Balanced(loads, others, held)
    ensures Balanced(Acquired(loads, id, now, lim), others, held + multiset{id})
  {
  }

  lemma NothingHeld(loads: imap<int, Load>)
    requires forall id: int :: id in loads && loads[id].inflight == 0
    ensures Balanced(loads, multiset{}, multiset{})
  {
  }

  lemma HandOver(loads: imap<int, Load>, others: multiset<int>, held: multiset<int>, id: int)
    ensures Balanced(loads, others, held + multiset{id}) == Balanced(loads, others + multiset{id}, held)
  {
    assert forall k: int :: others[k] + (held + multiset{id})[k] == (others + multiset{id})[k] + held[k];
  }

  /** Releasing what one holds never meets the clamp at zero. */
  lemma BalancedRelease(loads: imap<int, Load>, others: multiset<int>, held: multiset<int>, id: int)
    requires Balanced(loads, others, held) && id in held
    ensures loads[id].inflight > 0 && Balanced(Released(loads, id), others, held - multiset{id})
  {
  }

  function AnswersFrom(fetches: nat -> Fetched, from: nat): nat -> Fetched {
    (n: nat) => fetches(from + n)
  }

  class World {
    const exits: Exits
    const accounts: AccountPool
    const fetches: nat -> Fetched // what the remote pool answers, call by call
    const readable: nat -> bool      // which of the request's reads of the account table succeed
    var asked: nat
    var readings: nat
    var now: int
    var others: multiset<int>     // the slots other requests hold

    ghost function Parts(): set<object>
      reads exits.slots`slots
    {
      {this, exits, exits.pool, exits.slots, accounts} + exits.slots.slots.Values
    }

    ghost predicate Valid()
      reads Parts()
    {
      exits.Valid() && accounts.Valid() && exits.slots.clock <= now
    }

    /** Apart from what the other requests hold, exactly `held` is in flight. */
    ghost predicate Ledger(held: multiset<int>)
      reads Parts()
    {
      Balanced(exits.slots.Loads(), others, held)
    }

    /** All that one step of the request, or of others, leaves in order. */
    ghost predicate Steady(held: multiset<int>, urls: map<int, string>)
      reads Parts()
    {
      Valid() && Ledger(held) && exits.KeepsDynamicIds(urls)
    }

    constructor (exits: Exits, accounts: AccountPool, fetches: nat -> Fetched, readable: nat -> bool, now: int)
      requires exits.Valid() && accounts.Valid() && exits.slots.clock <= now
      requires forall id :: exits.slots.Loads()[id].inflight == 0
      ensures Valid() && Ledger(multiset{})
      ensures this.exits == exits && this.accounts == accounts && this.fetches == fetches && this.readable == readable
      ensures this.now == now && asked == 0
    {
      hide SlotTable.Valid, SlotTable.Loads, ProxyTable.Valid, Exits.Valid, AccountPool.Valid, Balanced;
      NothingHeld(exits.slots.Loads());
      this.exits, this.accounts, this.fetches, this.readable := exits, accounts, fetches, readable;
      this.now, this.asked, this.readings, this.others := now, 0, 0, multiset{};
    }

    /** Nothing is scarce: no limits and no cooldowns, a remote pool that always names the same
        proxy, and the direct connection as the last resort. */
    ghost predicate IsOpen(policy: Policy) {
      && policy.mode.Auto? && policy.fallbackDirect && policy.hasPoolURL
      && policy.pool.limits == Limits(0, 0, 0) && policy.pool.cooldownMin <= 0
      && (forall n: nat :: fetches(n) == fetches(0)) && fetches(0).FetchOk? && fetches(0).url != ""
    }

    lemma OpenHasRoom(excludedURLs: set<string>, policy: Policy, from: nat)
      requires IsOpen(policy)
      ensures forall id :: Room(exits.slots.Loads(), id, now, policy.pool)
      ensures fetches(0).url !in excludedURLs ==>
                exits.DynamicRoom(excludedURLs, now, policy.pool, AnswersFrom(fetches, from))
    {
      hide SlotTable.Loads, Usable;
      var fetch := AnswersFrom(fetches, from);
      assert fetch(0) == fetches(0);
      assert exits.slots.Loads() == exits.slots.Loads();
      forall id
        ensures Room(exits.slots.Loads(), id, now, policy.pool)
      {
        assert id in exits.slots.Loads();
      }
      hide Room;
      if fetches(0).url !in excludedURLs {
        assert exits.IsGoodAnswer(0, excludedURLs, now, policy.pool, fetch);
      }
    }

    /** What the remote pool will answer next. */
    ghost function Answers(): nat -> Fetched
      reads this`asked
    {
      AnswersFrom(fetches, asked)
    }

    /** `acquireSlotExcept`, now. */
    method Acquire(prefer: int, excludedIds: set<int>, excludedURLs: set<string>, policy: Policy,
                   ghost held: multiset<int>) returns (exit: Option<Exit>)
      requires Valid() && Ledger(held)
      modifies Parts()
      ensures fresh(Parts() - old(Parts())) && now == old(now) && others == old(others)
      ensures Steady(if exit.Some? then held + multiset{exit.value.id} else held, old(exits.dynamicURLs))
      ensures exit.Some? ==> exits.IsOffer(exit.value, excludedIds, excludedURLs, now, policy)
      ensures policy.mode in {StaticOnly, PoolOnly, Auto} && prefer > 0 ==>
                (old(exits.CanHave(prefer, excludedIds, now, policy.pool)) <==> exit.Some? && exit.value.id == prefer)
      ensures IsOpen(policy) && (0 !in excludedIds || fetches(0).url !in excludedURLs) ==> exit.Some?
      ensures exit == old(exits.Choice(prefer, excludedIds, excludedURLs, now, policy, Answers()))
    {
      hide Verdict, Acquired, Room, Candidates, Usable, SlotTable.Valid, SlotTable.Loads, Balanced, Exits.Valid,
           AccountPool.Valid, Exits.IsOffer, Exits.StaticRoom, Exits.DynamicRoom, Exits.KeepsDynamicIds,
           Exits.CanHave, Exits.Choice;
      if IsOpen(policy) {
        OpenHasRoom(excludedURLs, policy, asked);
      }
      hide World.IsOpen;
      ghost var loads := exits.slots.Loads();
      var answers := AnswersFrom(fetches, asked);
      asked := asked + MAX_FETCH_ATTEMPTS;
      exit := exits.Acquire(prefer, excludedIds, excludedURLs, now, policy, answers);
      if exit.Some? {
        BalancedAcquire(loads, others, held, exit.value.id, now, policy.pool.limits);
      }
    }

    /** `releaseSlot` of a slot this request holds: the clamp at zero does not fire. */
    method Release(id: int, ghost held: multiset<int>)
      requires Valid() && Ledger(held) && id in held
      modifies Parts()
      ensures fresh(Parts() - old(Parts())) && now == old(now) && others == old(others)
      ensures Steady(held - multiset{id}, old(exits.dynamicURLs))
      ensures old(exits.slots.Loads())[id].inflight > 0
    {
      hide Released, SlotTable.Valid, SlotTable.Loads, ProxyTable.Valid, Balanced, UnusedBelow;
      BalancedRelease(exits.slots.Loads(), others, held, id);
      UnusedReleased(exits.slots.Loads(), exits.nextDynamicId, id);
      exits.slots.Release(id);
    }

    method RecordResult(id: int, success: bool, cfg: Config, ghost held: multiset<int>)
      requires Valid() && Ledger(held)
      modifies Parts()
      ensures fresh(Parts() - old(Parts())) && now == old(now)
      ensures Steady(held, old(exits.dynamicURLs))
      ensures id != 0 && id !in exits.dynamicURLs ==>
                exits.pool.table ==
                RowRecorded(old(exits.pool.table), id, if success then Succeeded(now) else Failed(now, ""), cfg)
      ensures id < 0 && id in exits.dynamicURLs && exits.dynamicURLs[id] != "" ==>
                var url, stats := exits.dynamicURLs[id], old(exits.dynamicStats);
                var fails := if url in stats then stats[url].failCount else 0;
                && url in exits.dynamicStats
                && exits.dynamicStats[url] == DynamicStat(if success then 0 else fails + 1, now)
      ensures exits.dynamicURLs == old(exits.dynamicURLs) && accounts.table == old(accounts.table)
      ensures id != 0 && !success ==> exits.stickyURL == ""
    {
      hide SlotTable.Valid, SlotTable.Loads, ProxyTable.Valid, ProxyTable.Coherent, Balanced;
      exits.RecordResult(id, success, "", now, cfg);
    }

    /** `recordProxyResult` of an exit in use. */
    method Book(exit: Exit, good: bool, cfg: Config, ghost held: multiset<int>) returns (r: Booking)
      requires Valid() && Ledger(held) && exit.id != 0
      requires exit.id < 0 ==> exit.id in exits.dynamicURLs && exits.dynamicURLs[exit.id] == exit.url != ""
      modifies Parts()
      ensures fresh(Parts() - old(Parts())) && now == old(now)
      ensures Steady(held, old(exits.dynamicURLs))
      ensures r.exit == exit && r.good == good && r.at == now && IsBooking(r)
      ensures r.rows == old(exits.pool.table) && r.rowsAfter == exits.pool.table
      ensures r.stats == old(exits.dynamicStats) && r.statsAfter == exits.dynamicStats
      ensures r.stickyAfter == exits.stickyURL && accounts.table == old(accounts.table)
    {
      hide World.Valid, World.Ledger;
      StaticIds();
      var rows, stats := exits.pool.table, exits.dynamicStats;
      RecordResult(exit.id, good, cfg, held);
      StaticIds();
      return Booking.Booking(exit, good, now, rows, exits.pool.table, stats, exits.dynamicStats, exits.stickyURL);
    }

    lemma StaticIds()
      requires Valid()
      ensures forall id :: id in exits.dynamicURLs ==> id < 0
    {
      exits.IdsBelow();
    }

    method ForceCooldown(id: int, cfg: Config, ghost held: multiset<int>)
      requires Valid() && Ledger(held)
      modifies Parts()
      ensures fresh(Parts() - old(Parts())) && now == old(now)
      ensures Steady(held, old(exits.dynamicURLs))
      ensures id != 0 && id !in exits.dynamicURLs ==>
                exits.pool.table == RowRecorded(old(exits.pool.table), id, Forced(now, ""), cfg)
      ensures id in exits.dynamicURLs && exits.dynamicURLs[id] != "" && cfg.cooldownMin > 0 ==>
                exits.Cooling(exits.dynamicURLs[id], now, cfg)
      ensures accounts.table == old(accounts.table)
    {
      hide SlotTable.Valid, SlotTable.Loads, ProxyTable.Valid, ProxyTable.Coherent, Balanced;
      exits.ForceCooldown(id, "", now, cfg);
    }

    // -------------------------------------------------------------- accounts

    /** `pickCookieAccountExcept`; the query may fail. */
    method PickAccount(skip: set<int>, ghost held: multiset<int>) returns (p: Pick)
      requires Valid() && Ledger(held)
      modifies this`readings, accounts
      ensures Steady(held, old(exits.dynamicURLs)) && Parts() == old(Parts())
      ensures p.skip == skip && p.read == readable(old(readings)) && p.rows == old(accounts.table) && IsPick(p)
      ensures accounts.table == if p.account.Some?
                                then p.rows[p.account.value.id := p.account.value.(lastUsed := now)] else p.rows
    {
      hide Exits.Valid, Balanced, ValidRows, Below, Sooner, SlotTable.Loads;
      var rows := accounts.table;
      var selects := Reads();
      var a := accounts.PickExcept(skip, now, selects);
      return Pick.Pick(a, skip, selects, rows);
    }

    /** One more read of the account table. */
    method Reads() returns (ok: bool)
      modifies this`readings
      ensures ok == readable(old(readings))
    {
      ok := readable(readings);
      readings := readings + 1;
    }

    /** `accountByID`; the read may fail. */
    method FindRow(id: int, ghost held: multiset<int>) returns (a: Option<Account>)
      requires Valid() && Ledger(held)
      modifies this`readings
      ensures Steady(held, old(exits.dynamicURLs)) && Parts() == old(Parts()) && accounts.table == old(accounts.table)
      ensures a == if readable(old(readings)) && id in accounts.table then Some(accounts.table[id]) else None
    {
      hide Exits.Valid, Balanced, ValidRows, Below, SlotTable.Loads;
      var selects := Reads();
      a := if selects && id in accounts.table then Some(accounts.table[id]) else None;
    }

    /** `markCookieByStatus`. */
    method MarkAccount(id: int, status: int, ghost held: multiset<int>) returns (m: Mark)
      requires Valid() && Ledger(held)
      modifies this`readings, accounts
      ensures Steady(held, old(exits.dynamicURLs)) && Parts() == old(Parts())
      ensures m.account == id && m.status == status && m.at == now && m.read == readable(old(readings)) && IsMark(m)
      ensures m.rows == old(accounts.table) && m.rowsAfter == accounts.table
    {
      hide Exits.Valid, Balanced, ValidRows, Below, SlotTable.Loads;
      var rows := accounts.table;
      var selects := Reads();
      accounts.MarkByStatus(id, status, now, selects);
      return Mark.Mark(id, status, now, selects, rows, accounts.table);
    }

    /** `updateAccountCookie`, whose read of the row may fail. */
    method WriteBack(id: int, cookie: string, ghost held: multiset<int>) returns (s: Store)
      requires Valid() && Ledger(held)
      modifies this`readings, accounts
      ensures Steady(held, old(exits.dynamicURLs)) && Parts() == old(Parts())
      ensures s.account == id && s.cookie == cookie && s.read == readable(old(readings)) && IsStore(s)
      ensures s.rows == old(accounts.table) && s.rowsAfter == accounts.table
    {
      hide Exits.Valid, Balanced, ValidRows, Below, Identity, SlotTable.Loads;
      var rows := accounts.table;
      var selects := Reads();
      accounts.UpdateCookie(id, cookie, selects);
      return Store.Store(id, cookie, selects, rows, accounts.table);
    }

    /** `proxyUsableByID`. */
    method ProxyUsable(id: int, cfg: Config) returns (usable: bool)
      ensures usable <==>
                id > 0 && var p := FirstWith(exits.pool.cache, 0, Some(id), ""); p.Some? && Usable(p.value, now, cfg)
    {
      hide Usable;
      if id <= 0 {
        return false;
      }
      var cache := exits.pool.cache;
      for i := 0 to |cache|
        invariant FirstWith(cache, i, Some(id), "") == FirstWith(cache, 0, Some(id), "")
      {
        if cache[i].id == id {
          return Usable(cache[i], now, cfg);
        }
      }
      return false;
    }

    /** An account without a usable exit of its own is bound to the one in use (`bindAccountProxy`). */
    method BindAccount(a: Account, exitId: int, cfg: Config, ghost held: multiset<int>) returns (b: Binding)
      requires Valid() && Ledger(held)
      modifies accounts
      ensures Steady(held, old(exits.dynamicURLs)) && Parts() == old(Parts())
      ensures b.account == a && b.exit == exitId && b.at == now && b.pool == exits.pool.cache && IsBinding(b, cfg)
      ensures b.rows == old(accounts.table) && b.rowsAfter == accounts.table
    {
      hide Exits.Valid, Balanced, ValidRows, Below, SlotTable.Loads, Usable, FirstWith;
      var rows := accounts.table;
      var usable := ProxyUsable(a.proxyId, cfg);
      if a.proxyId == 0 || !usable {
        accounts.BindProxy(a.id, exitId);
      }
      return Binding.Binding(a, exitId, exits.pool.cache, now, rows, accounts.table);
    }

    // -------------------------------------------------------------- everyone else

    /** Time passes while this request waits for the network, and other requests, the panel and
        the background jobs do what they like. */
    method Wait(ghost held: multiset<int>)
      requires Valid() && Ledger(held)
      modifies Parts()
      ensures fresh(Parts() - old(Parts()))
      ensures Steady(held, old(exits.dynamicURLs))
      ensures now >= old(now)
    {
      hide SlotTable.Valid, SlotTable.Loads, Balanced, Exits.Valid, AccountPool.Valid;
      var steps: int := *;
      var i := 0;
      while i < steps
        invariant fresh(Parts() - old(Parts())) && now >= old(now)
        invariant Steady(held, old(exits.dynamicURLs))
      {
        OtherStep(held);
        i := i + 1;
      }
    }

    method OtherStep(ghost held: multiset<int>)
      requires Valid() && Ledger(held)
      modifies Parts()
      ensures fresh(Parts() - old(Parts())) && now >= old(now)
      ensures Steady(held, old(exits.dynamicURLs))
    {
      hide SlotTable.Valid, SlotTable.Loads, ProxyTable.Valid, Balanced, Exits.Valid, AccountPool.Valid;
      var later: int, which: int := *, *;
      now := if later > now then later else now;
      if which == 0 {
        OtherStarts(held);
      } else if which == 1 {
        OtherEnds(held);
      } else if which == 2 {
        OtherReports(held);
      } else if which == 3 {
        PanelEditsAccounts(held);
      } else {
        PanelEditsProxies(held);
      }
    }

    method OtherStarts(ghost held: multiset<int>)
      requires Valid() && Ledger(held)
      modifies Parts()
      ensures fresh(Parts() - old(Parts())) && now == old(now)
      ensures Steady(held, old(exits.dynamicURLs))
    {
      hide SlotTable.Valid, SlotTable.Loads, ProxyTable.Valid, Balanced, Exits.Valid, AccountPool.Valid,
           Exits.IsOffer;
      var prefer: int, ids: set<int>, urls: set<string>, policy: Policy := *, *, *, *;
      var exit := Acquire(prefer, ids, urls, policy, held);
      if exit.Some? {
        HandOver(exits.slots.Loads(), others, held, exit.value.id);
        others := others + multiset{exit.value.id};
      }
    }

    method OtherEnds(ghost held: multiset<int>)
      requires Valid() && Ledger(held)
      modifies Parts()
      ensures fresh(Parts() - old(Parts())) && now == old(now)
      ensures Steady(held, old(exits.dynamicURLs))
    {
      hide SlotTable.Valid, SlotTable.Loads, ProxyTable.Valid, Balanced, Exits.Valid, AccountPool.Valid;
      var id: int := *;
      if id in others {
        HandOver(exits.slots.Loads(), others - multiset{id}, held, id);
        assert others == others - multiset{id} + multiset{id};
        others := others - multiset{id};
        Release(id, held + multiset{id});
        assert held + multiset{id} - multiset{id} == held;
      }
    }

    method OtherReports(ghost held: multiset<int>)
      requires Valid() && Ledger(held)
      modifies Parts()
      ensures fresh(Parts() - old(Parts())) && now == old(now)
      ensures Steady(held, old(exits.dynamicURLs))
    {
      hide SlotTable.Valid, SlotTable.Loads, ProxyTable.Valid, ProxyTable.Coherent, Balanced, Exits.Valid,
           AccountPool.Valid;
      var id: int, good: bool, forced: bool, cfg: Config := *, *, *, *;
      if forced {
        ForceCooldown(id, cfg, held);
      } else {
        RecordResult(id, good, cfg, held);
      }
    }

    method PanelEditsAccounts(ghost held: multiset<int>)
      requires Valid() && Ledger(held)
      modifies Parts()
      ensures fresh(Parts() - old(Parts())) && now == old(now)
      ensures Steady(held, old(exits.dynamicURLs))
    {
      hide SlotTable.Valid, SlotTable.Loads, ProxyTable.Valid, Balanced;
      var rows: map<int, Account>, next: int := *, *;
      if ValidRows(rows) && Below(rows, next) && 0 < next {
        accounts.table, accounts.nextId := rows, next;
      }
    }

    method PanelEditsProxies(ghost held: multiset<int>)
      requires Valid() && Ledger(held)
      modifies Parts()
      ensures fresh(Parts() - old(Parts())) && now == old(now)
      ensures Steady(held, old(exits.dynamicURLs))
    {
      hide SlotTable.Valid, SlotTable.Loads, Balanced, IsListing, ValidTable, AccountPool.Valid, Exits.DynamicValid;
      var rows: map<int, Proxy>, next: int, read: ReadOutcome := *, *, *;
      if ValidRowsBelow(rows, next) {
        exits.pool.table, exits.pool.nextId := rows, next;
        exits.pool.Load(read);
        if read.ReadAll? {
          ListingIdsPositive(exits.pool.cache, exits.pool.table, next);
        }
      }
    }
  }

  predicate ValidRowsBelow(rows: map<int, Proxy>, next: int)
    ensures ValidRowsBelow(rows, next) == (ValidTable(rows, next) && 0 < next)
  {
    0 < next && forall id :: id in rows ==> rows[id].id == id && 0 < id < next
  }

  lemma {:induction false} ListingIdsPositive(list: seq<Proxy>, table: map<int, Proxy>, next: int)
    requires IsListing(list, table) && ValidTable(table, next)
    ensures forall p :: p in list ==> p.id > 0
  {
  }
}
