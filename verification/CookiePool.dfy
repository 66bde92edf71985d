/** The rows of the cookie pool: whose turn it is, how an account's health is recorded, and
    which refreshed cookies are written back (`cookie_pool.go`). */
module CookiePool {
  import opened Options
  import opened CookieJar
  import opened Text

  datatype Account = Account(
    id: int, cookie: string, enabled: bool, failCount: int, lastUsed: int, lastOk: int, proxyId: int)

  const MAX_AUTH_FAILURES := 3

  /** `ORDER BY fail_count, last_used_at, id`. */
  predicate Sooner(a: Account, b: Account) {
    || a.failCount < b.failCount
    || (a.failCount == b.failCount && a.lastUsed < b.lastUsed)
    || (a.failCount == b.failCount && a.lastUsed == b.lastUsed && a.id < b.id)
  }

  predicate ValidRows(table: map<int, Account>) {
    forall id :: id in table ==> table[id].id == id && 0 < id
  }

  predicate Below(table: map<int, Account>, nextId: int) {
    forall id :: id in table ==> id < nextId
  }

  function Enabled(table: map<int, Account>): set<int> {
    set id | id in table && table[id].enabled
  }

  /** `a` is the account whose turn it is among the enabled ones not skipped. */
  ghost predicate IsNext(a: Account, table: map<int, Account>, skip: set<int>) {
    && a.id in Enabled(table) - skip && table[a.id] == a
    && forall id :: id in Enabled(table) - skip && id != a.id ==> Sooner(a, table[id])
  }

  // ---------------------------------------------------------------- the query's order

  ghost predicate IsFirst(k: int, ids: set<int>, table: map<int, Account>)
    requires ids <= table.Keys
  {
    k in ids && forall id :: id in ids && id != k ==> Sooner(table[k], table[id])
  }

  lemma {:induction false} FirstExists(ids: set<int>, table: map<int, Account>)
    requires ValidRows(table) && ids <= table.Keys && ids != {}
    ensures exists k :: IsFirst(k, ids, table)
    decreases |ids|
  {
    var x := AnyOf(ids);
    var rest := ids - {x};
    if rest == {} {
      assert ids == {x};
      assert IsFirst(x, ids, table);
    } else {
      FirstExists(rest, table);
      var k :| IsFirst(k, rest, table);
      assert IsFirst(if Sooner(table[x], table[k]) then x else k, ids, table);
    }
  }

  function FirstOf(ids: set<int>, table: map<int, Account>): (k: int)
    requires ValidRows(table) && ids <= table.Keys && ids != {}
    ensures IsFirst(k, ids, table)
  {
    FirstExists(ids, table);
    var k :| k in ids && forall id :: id in ids && id != k ==> Sooner(table[k], table[id]);
    k
  }

  /** The rows `ids` in the order the query returns them. */
  function Ranked(ids: set<int>, table: map<int, Account>): seq<Account>
    requires ValidRows(table) && ids <= table.Keys
    decreases |ids|
  {
    if ids == {} then []
    else
      var k := FirstOf(ids, table);
      [table[k]] + Ranked(ids - {k}, table)
  }

  ghost predicate Ranks(rows: seq<Account>, id: int) {
    exists i :: 0 <= i < |rows| && rows[i].id == id
  }

  ghost predicate IsRanking(rows: seq<Account>, ids: set<int>, table: map<int, Account>)
    requires ids <= table.Keys
  {
    && (forall i :: 0 <= i < |rows| ==> rows[i].id in ids && table[rows[i].id] == rows[i])
    && (forall i, j :: 0 <= i < j < |rows| ==> Sooner(rows[i], rows[j]))
    && (forall id :: id in ids ==> Ranks(rows, id))
  }

  lemma {:induction false} RankedIs(ids: set<int>, table: map<int, Account>)
    requires ValidRows(table) && ids <= table.Keys
    ensures IsRanking(Ranked(ids, table), ids, table)
    decreases |ids|
  {
    hide IsRanking, IsFirst;
    if ids != {} {
      var k := FirstOf(ids, table);
      RankedIs(ids - {k}, table);
      FirstInRanking(k, Ranked(ids - {k}, table), ids, table);
    } else {
      NoRanking(table);
    }
  }

  lemma {:induction false} NoRanking(table: map<int, Account>)
    ensures IsRanking([], {}, table)
  {
  }

  lemma {:induction false} FirstInRanking(k: int, tail: seq<Account>, ids: set<int>, table: map<int, Account>)
    requires ValidRows(table) && ids <= table.Keys && IsFirst(k, ids, table)
    requires IsRanking(tail, ids - {k}, table)
    ensures IsRanking([table[k]] + tail, ids, table)
  {
    hide Ranks, Sooner;
    var rows := [table[k]] + tail;
    forall i | 0 < i < |rows|
      ensures rows[i] == tail[i - 1] && Sooner(rows[0], rows[i])
    {
    }
    forall id | id in ids
      ensures Ranks(rows, id)
    {
      RanksBehind(table[k], tail, id);
    }
  }

  lemma {:induction false} RanksBehind(a: Account, tail: seq<Account>, id: int)
    requires id == a.id || Ranks(tail, id)
    ensures Ranks([a] + tail, id)
  {
    if id == a.id {
      assert ([a] + tail)[0].id == id;
    } else {
      var i :| 0 <= i < |tail| && tail[i].id == id;
      assert ([a] + tail)[i + 1].id == id;
    }
  }

  // ---------------------------------------------------------------- health

  predicate AuthFailure(status: int) {
    status == 401 || status == 403
  }

  /** `markCookieByStatus` on one row; `selects` says whether the row could be read back for
      the auto-disable check. */
  function Reported(a: Account, status: int, now: int, selects: bool): Account {
    if status == 200 then a.(lastOk := now, failCount := 0)
    else if AuthFailure(status) then
      a.(failCount := a.failCount + 1,
         enabled := a.enabled && !(selects && a.failCount + 1 >= MAX_AUTH_FAILURES))
    else a
  }

  class AccountPool {
    var table: map<int, Account> // the rows of `accounts`
    var nextId: int              // ids are never used twice

    ghost predicate Valid()
      reads this
    {
      ValidRows(table) && Below(table, nextId) && 0 < nextId
    }

    constructor ()
      ensures Valid() && table == map[]
    {
      table, nextId := map[], 1;
    }

    /** `accountInsert`; what is stored is the cookie without surrounding space. */
    method Insert(cookie: string) returns (id: Option<int>)
      requires Valid()
      modifies this
      ensures Valid()
      ensures id.None? <==> TrimSpace(cookie) == ""
      ensures if id.None? then table == old(table) && nextId == old(nextId)
              else && id.value == old(nextId) && nextId == old(nextId) + 1
                   && table == old(table)[id.value := Account(id.value, TrimSpace(cookie), true, 0, 0, 0, 0)]
    {
      hide TrimSpace;
      var stored := TrimSpace(cookie);
      if stored == "" {
        return None;
      }
      table := table[nextId := Account(nextId, stored, true, 0, 0, 0, 0)];
      id, nextId := Some(nextId), nextId + 1;
    }

    /** `accountDelete`. */
    method Delete(id: int)
      requires Valid()
      modifies this`table
      ensures Valid() && table == old(table) - {id}
    {
      table := table - {id};
    }

    /** `pickCookieAccountExcept`; it hands out the row as it was before the pick is noted. */
    method PickExcept(skip: set<int>, now: int, selects: bool) returns (a: Option<Account>)
      requires Valid()
      modifies this`table
      ensures Valid()
      ensures a.Some? <==> selects && Enabled(old(table)) - skip != {}
      ensures a.Some? ==> IsNext(a.value, old(table), skip)
      // an enabled account not skipped, that failed the least often, of those the one used the longest
      // ago, and of those the one with the least id
      ensures a.Some? ==> a.value.enabled && a.value.id !in skip && a.value.id in old(table)
      ensures a.Some? ==>
                forall id :: id in old(table) && id !in skip && id != a.value.id && old(table)[id].enabled ==>
                  var b := old(table)[id];
                  && a.value.failCount <= b.failCount
                  && (a.value.failCount == b.failCount ==>
                        && a.value.lastUsed <= b.lastUsed
                        && (a.value.lastUsed == b.lastUsed ==> a.value.id < id))
      ensures table == if a.Some? then old(table)[a.value.id := a.value.(lastUsed := now)] else old(table)
    {
      if !selects {
        return None;
      }
      var rows := Ranked(Enabled(table), table);
      RankedIs(Enabled(table), table);
      hide Ranked, FirstOf, Sooner;
      var i := 0;
      while i < |rows|
        invariant 0 <= i <= |rows|
        invariant table == old(table)
        invariant forall k :: 0 <= k < i ==> rows[k].id in skip
      {
        if rows[i].id in skip {
          i := i + 1;
          continue;
        }
        ghost var eligible := Enabled(table) - skip;
        assert rows[i].id in eligible;
        forall id | id in eligible && id != rows[i].id
          ensures Sooner(rows[i], table[id])
        {
          assert Ranks(rows, id);
        }
        table := table[rows[i].id := rows[i].(lastUsed := now)];
        return Some(rows[i]);
      }
      assert forall id :: id in Enabled(table) ==> Ranks(rows, id);
      assert Enabled(table) - skip == {};
      return None;
    }

    /** `markCookieByStatus`, with `markAccountResult` and `autoDisableIfDead`: after a report of
        an auth failure an account that is still enabled has fewer than three of them. */
    method MarkByStatus(id: int, status: int, now: int, selects: bool)
      requires Valid()
      modifies this`table
      ensures Valid()
      ensures table == if id in old(table) then old(table)[id := Reported(old(table)[id], status, now, selects)]
                       else old(table)
      ensures AuthFailure(status) && selects && id in table && table[id].enabled ==>
                table[id].failCount < MAX_AUTH_FAILURES
      // only 401 and 403 count against the account, only 200 clears it, and the third one in a row
      // switches it off
      ensures id in table ==>
                var was, failed := old(table)[id], status == 401 || status == 403;
                && table[id].failCount ==
                   (if status == 200 then 0 else if failed then was.failCount + 1 else was.failCount)
                && table[id].lastOk == (if status == 200 then now else was.lastOk)
                && table[id].enabled == (was.enabled && !(failed && selects && was.failCount + 1 >= 3))
      ensures table.Keys == old(table).Keys
    {
      if id <= 0 || id !in table {
        return;
      }
      if status == 200 {
        table := table[id := table[id].(lastOk := now, failCount := 0)];
      } else if AuthFailure(status) {
        table := table[id := table[id].(failCount := table[id].failCount + 1)];
        AutoDisable(id, selects);
      } else {
        assert table[id := table[id]] == table;
      }
    }

    /** `autoDisableIfDead`. */
    method AutoDisable(id: int, selects: bool)
      requires Valid() && id in table
      modifies this`table
      ensures Valid()
      ensures table == old(table)[id := old(table)[id].(
                         enabled := old(table)[id].enabled
                                    && !(selects && old(table)[id].failCount >= MAX_AUTH_FAILURES))]
    {
      if !selects || !table[id].enabled || table[id].failCount < MAX_AUTH_FAILURES {
        assert table[id := table[id]] == table;
        return;
      }
      table := table[id := table[id].(enabled := false)];
    }

    /** `accountSetStatus`, the panel's switch: it leaves the fail count alone. */
    method SetStatus(id: int, status: string) returns (ok: bool)
      requires Valid()
      modifies this`table
      ensures Valid() && (ok <==> status == "enabled" || status == "disabled")
      ensures table == if ok && id in old(table)
                       then old(table)[id := old(table)[id].(enabled := status == "enabled")] else old(table)
    {
      if status != "enabled" && status != "disabled" {
        return false;
      }
      if id in table {
        table := table[id := table[id].(enabled := status == "enabled")];
      }
      return true;
    }

    /** A life of an account in the pool: its responses and the panel's switch, one after another. No
        other account changes, and it is off at the end exactly if something switched it off and the
        panel has not switched it on since. */
    method Live(id: int, events: seq<Event>)
      requires Valid() && id in table
      modifies this`table
      ensures Valid() && table == old(table)[id := After(old(table)[id], events)]
      ensures old(table[id].enabled && table[id].failCount == 0) ==>
                (!table[id].enabled <==> exists k: nat :: k < |events| && OffSince(events, k))
    {
      hide OffSince, Reported, AuthFailure;
      assert table[id := table[id]] == table;
      for i := 0 to |events|
        invariant Valid() && table == old(table)[id := After(old(table)[id], events[..i])]
      {
        assert events[..i + 1][..i] == events[..i];
        match events[i]
        case Response(status, at) => MarkByStatus(id, status, at, true);
        case Panel(enable) =>
          var ok := SetStatus(id, if enable then "enabled" else "disabled");
      }
      assert events[..|events|] == events;
      if old(table[id].enabled && table[id].failCount == 0) {
        DisabledIff(old(table)[id], events);
      }
    }

    /** `bindAccountProxy`. */
    method BindProxy(id: int, proxyId: int)
      requires Valid()
      modifies this`table
      ensures Valid()
      ensures table == if id in old(table) then old(table)[id := old(table)[id].(proxyId := proxyId)] else old(table)
    {
      if id > 0 && id in table {
        table := table[id := table[id].(proxyId := proxyId)];
      }
    }

    /** `updateAccountCookie`; `selects` says whether the current cookie could be read. A row
        changes its identity exactly when it could not, and the new cookie is someone else's. */
    method UpdateCookie(id: int, cookie: string, selects: bool)
      requires Valid()
      modifies this`table
      ensures Valid() && table.Keys == old(table).Keys
      ensures forall k :: k in table && k != id ==> table[k] == old(table)[k]
      ensures id in table ==>
                var was := old(table)[id].cookie;
                && table[id] == old(table)[id].(cookie := table[id].cookie)
                && (table[id].cookie == cookie || table[id].cookie == was) && (cookie == "" ==> table[id].cookie == was)
                && (cookie != "" && (!selects || Identity(cookie) == Identity(was)) ==> table[id].cookie == cookie)
                && (Identity(table[id].cookie) != Identity(was)
                    <==> !selects && cookie != "" && Identity(cookie) != Identity(was))
    {
      hide Identity, IsLastValue, Pairs;
      if id <= 0 || cookie == "" || id !in table {
        return;
      }
      if selects {
        var got := CookieIdentity(cookie);
        var want := CookieIdentity(table[id].cookie);
        if got != want {
          return;
        }
      }
      table := table[id := table[id].(cookie := cookie)];
    }

    // -------------------------------------------------------------- rounds of picks

    /** All enabled accounts are equally healthy, those not seen yet were last used before
        `start`, the others since. */
    ghost predicate InRound(all: set<int>, seen: set<int>, start: int, health: int)
      reads this
    {
      && Enabled(table) == all && seen <= all
      && (forall id :: id in all ==> table[id].failCount == health)
      && (forall id :: id in all - seen ==> table[id].lastUsed < start)
      && (forall id :: id in seen ==> table[id].lastUsed >= start)
    }

    method PickUnseen(now: int, ghost all: set<int>, ghost seen: set<int>, ghost start: int, ghost health: int)
        returns (id: int)
      requires Valid() && InRound(all, seen, start, health) && |seen| < |all| && start <= now
      modifies this`table
      ensures Valid() && id in all && id !in seen && InRound(all, seen + {id}, start, health)
    {
      hide Ranked;
      LeftOver(seen, all);
      ghost var unseen := AnyOf(all - seen);
      assert all - {} == all;
      var a := PickExcept({}, now, true);
      id := a.value.id;
      assert id == unseen || Sooner(a.value, old(table)[unseen]);
    }

    /** Fairness: with equally healthy accounts, all last used before the round, up to as many
        picks as there are accounts give distinct ones, whenever they happen. */
    method PickRound(times: seq<int>, health: int) returns (picked: seq<int>)
      requires Valid()
      requires |times| <= |Enabled(table)|
      requires forall i, j :: 0 <= i < j < |times| ==> times[i] <= times[j]
      requires forall id :: id in Enabled(table) ==> table[id].failCount == health
      requires |times| > 0 ==> forall id :: id in Enabled(table) ==> table[id].lastUsed < times[0]
      modifies this`table
      ensures Valid() && |picked| == |times|
      ensures forall i :: 0 <= i < |picked| ==> picked[i] in Enabled(old(table))
      ensures forall i, j :: 0 <= i < j < |picked| ==> picked[i] != picked[j]
      ensures |times| == |Enabled(old(table))| ==> forall id :: id in Enabled(old(table)) ==> id in picked
    {
      picked := [];
      if |times| == 0 {
        NoneIn(Enabled(table));
        return;
      }
      ghost var all := Enabled(table);
      ghost var seen: set<int> := {};
      assert InRound(all, seen, times[0], health);
      hide InRound, Enabled, ValidRows;
      for i := 0 to |times|
        invariant Valid() && |picked| == i == |seen| && seen <= all
        invariant InRound(all, seen, times[0], health)
        invariant (forall k :: 0 <= k < i ==> picked[k] in seen) && forall id :: id in seen ==> id in picked
        invariant forall k, l :: 0 <= k < l < i ==> picked[k] != picked[l]
      {
        var id := PickUnseen(times[i], all, seen, times[0], health);
        picked := picked + [id];
        seen := seen + {id};
      }
      if |times| == |all| {
        FullSubset(seen, all);
      }
    }

    /** All enabled accounts are equally healthy; `left` were last used before `now`, the others
        at `now`. */
    ghost predicate Stands(all: set<int>, left: set<int>, now: int, health: int)
      reads this
    {
      && Enabled(table) == all && left <= all
      && forall id :: id in all ==>
           table[id].failCount == health && table[id].lastUsed <= now && (table[id].lastUsed < now <==> id in left)
    }

    method PickAt(now: int, ghost all: set<int>, ghost left: set<int>, ghost health: int) returns (id: int)
      requires Valid() && Stands(all, left, now, health) && all != {}
      modifies this`table
      ensures Valid() && Stands(all, left - {id}, now, health)
      ensures id in old(table) && table == old(table)[id := old(table)[id].(lastUsed := now)]
      ensures if left != {} then id in left else IsLeast(id, all)
    {
      assert all - {} == all;
      var a := PickExcept({}, now, true);
      id := a.value.id;
      assert IsNext(a.value, old(table), {});
      NextAmong(a.value, old(table), all, left, now, health);
      hide IsNext, IsLeast;
      assert Enabled(table) == all;
    }

    /** `last_used_at` has seconds: of any number of picks within one second, those accounts come
        first that were last used before it, once each, and from then on it is always the one
        with the least id. So a whole round in one second is fair exactly if no other account was
        used in that second before. */
    method PickWithinASecond(now: int, health: int, n: nat) returns (picked: seq<int>)
      requires Valid() && Enabled(table) != {}
      requires forall id :: id in Enabled(table) ==> table[id].failCount == health && table[id].lastUsed <= now
      modifies this`table
      ensures Valid() && |picked| == n && table.Keys == old(table).Keys
      ensures forall id :: id in table ==>
                table[id] == if id in picked then old(table)[id].(lastUsed := now) else old(table)[id]
      ensures var young := LastUsedBefore(old(table), now);
              && (forall i :: 0 <= i < n && i < |young| ==> picked[i] in young)
              && Distinct(picked[..Lesser(n, |young|)])
              && (forall i :: |young| <= i < n ==> IsLeast(picked[i], Enabled(old(table))))
              && (n == |Enabled(old(table))| ==>
                    (Distinct(picked) <==>
                     forall id :: id in Enabled(old(table)) && old(table)[id].lastUsed == now ==>
                       IsLeast(id, Enabled(old(table)))))
    {
      ghost var all, young := Enabled(table), LastUsedBefore(table, now);
      ghost var left := young;
      ghost var before := table;
      picked := [];
      NonePicked(all, young);
      assert Stands(all, left, now, health);
      hide Valid, Stands, RoundSoFar, Distinct, IsLeast, LastUsedBefore, Enabled;
      for i := 0 to n
        invariant Valid() && |picked| == i && left <= young && Stands(all, left, now, health)
        invariant |left| == |young| - Lesser(i, |young|)
        invariant RoundSoFar(picked, all, young, left)
        invariant table.Keys == old(table).Keys
        invariant forall id :: id in table ==>
                    table[id] == if id in picked then old(table)[id].(lastUsed := now) else old(table)[id]
      {
        var id := PickAt(now, all, left, health);
        OnePicked(picked, all, young, left, id);
        picked := picked + [id];
        left := left - {id};
      }
      RoundIs(picked, before, all, young, left, now);
    }
  }

  lemma {:induction false} NextAmong(a: Account, table: map<int, Account>, all: set<int>, left: set<int>, now: int,
                                     health: int)
    requires IsNext(a, table, {}) && ValidRows(table) && Enabled(table) == all && left <= all
    requires forall id :: id in all ==>
               table[id].failCount == health && table[id].lastUsed <= now && (table[id].lastUsed < now <==> id in left)
    ensures if left != {} then a.id in left else IsLeast(a.id, all)
  {
    assert all - {} == all;
    if left != {} {
      var some := AnyOf(left);
      assert some == a.id || Sooner(a, table[some]);
    }
  }

  function LastUsedBefore(table: map<int, Account>, now: int): set<int> {
    set id | id in Enabled(table) && table[id].lastUsed < now
  }

  ghost predicate IsLeast(id: int, all: set<int>) {
    id in all && forall other :: other in all ==> id <= other
  }

  ghost predicate Distinct(s: seq<int>) {
    forall i, j :: 0 <= i < j < |s| ==> s[i] != s[j]
  }

  function Lesser(a: int, b: int): int {
    if a < b then a else b
  }

  /** The young ones that are not left were picked first; after them only the least id was. */
  ghost predicate RoundSoFar(picked: seq<int>, all: set<int>, young: set<int>, left: set<int>) {
    var m := Lesser(|picked|, |young|);
    && (forall i :: 0 <= i < m ==> picked[i] in young - left)
    && Distinct(picked[..m])
    && (forall id :: id in young - left ==> id in picked[..m])
    && (forall i :: |young| <= i < |picked| ==> IsLeast(picked[i], all))
  }

  lemma NonePicked(all: set<int>, young: set<int>)
    ensures RoundSoFar([], all, young, young)
  {
    hide IsLeast;
    var none: seq<int> := [];
    assert none[..0] == [] && young - young == {};
  }

  lemma {:induction false} RoundIs(picked: seq<int>, before: map<int, Account>, all: set<int>, young: set<int>,
                                   left: set<int>, now: int)
    requires all == Enabled(before) && young == LastUsedBefore(before, now) && RoundSoFar(picked, all, young, left)
    requires |left| == |young| - Lesser(|picked|, |young|)
    requires forall id :: id in all ==> before[id].lastUsed <= now
    ensures forall i :: 0 <= i < |picked| && i < |young| ==> picked[i] in young
    ensures Distinct(picked[..Lesser(|picked|, |young|)])
    ensures forall i :: |young| <= i < |picked| ==> IsLeast(picked[i], all)
    ensures |picked| == |all| ==>
              (Distinct(picked) <==> forall id :: id in all && before[id].lastUsed == now ==> IsLeast(id, all))
  {
    hide IsLeast, Distinct;
    if |picked| == |all| {
      RoundLaw(picked, all, young, left);
      assert forall id :: id in all - young <==> id in all && before[id].lastUsed == now;
    }
  }

  lemma {:induction false} OnePicked(picked: seq<int>, all: set<int>, young: set<int>, left: set<int>, id: int)
    requires RoundSoFar(picked, all, young, left) && left <= young
    requires |left| == |young| - Lesser(|picked|, |young|)
    requires if left != {} then id in left else IsLeast(id, all)
    ensures RoundSoFar(picked + [id], all, young, left - {id})
    ensures |left - {id}| == |young| - Lesser(|picked| + 1, |young|)
  {
    hide IsLeast;
    var more := picked + [id];
    if left == {} {
      assert left - {id} == left;
      assert more[..|young|] == picked[..|young|];
    } else {
      NoneIn(left);
      assert picked[..|picked|] == picked;
      assert more[..|picked| + 1] == more;
    }
  }

  lemma {:induction false} RoundLaw(picked: seq<int>, all: set<int>, young: set<int>, left: set<int>)
    requires RoundSoFar(picked, all, young, left) && young <= all && |picked| == |all|
    requires |left| == |young| - Lesser(|picked|, |young|)
    ensures Distinct(picked) <==> forall id :: id in all - young ==> IsLeast(id, all)
  {
    hide IsLeast, Distinct;
    Within(young, all);
    NoneIn(left);
    assert |all - young| == |all| - |young|;
    if |young| == |all| {
      FullSubset(young, all);
      assert picked[..|young|] == picked;
    } else {
      assert young - left == young;
      if Distinct(picked) {
        DistinctRound(picked, all, young);
      }
      if forall id :: id in all - young ==> IsLeast(id, all) {
        OneOlder(picked, all, young);
      }
    }
  }

  lemma {:induction false} DistinctRound(picked: seq<int>, all: set<int>, young: set<int>)
    requires RoundSoFar(picked, all, young, {}) && young <= all
    requires |picked| == |all| == |all - young| + |young| > |young|
    requires Distinct(picked)
    ensures forall id :: id in all - young ==> IsLeast(id, all)
  {
    var k := |young|;
    var least := picked[k];
    if k + 1 < |all| {
      LeastIsOne(picked[k], picked[k + 1], all);
    }
    assert forall i :: 0 <= i < k ==> picked[..k][i] != least;
    assert young - {} == young;
    assert least !in young;
    FullSubset({least}, all - young);
  }

  lemma {:induction false} OneOlder(picked: seq<int>, all: set<int>, young: set<int>)
    requires RoundSoFar(picked, all, young, {}) && young <= all
    requires |picked| == |all| == |all - young| + |young| > |young|
    requires forall id :: id in all - young ==> IsLeast(id, all)
    ensures Distinct(picked)
  {
    var k := |young|;
    var older := AnyOf(all - young);
    forall id | id in all - young
      ensures id == older
    {
      LeastIsOne(id, older, all);
    }
    assert all - young == {older};
    LeastIsOne(picked[k], older, all);
    hide IsLeast;
    forall i, j | 0 <= i < j < |picked|
      ensures picked[i] != picked[j]
    {
      if j < k {
        assert picked[..k][i] != picked[..k][j];
      }
    }
  }

  lemma LeastIsOne(x: int, y: int, all: set<int>)
    requires IsLeast(x, all) && IsLeast(y, all)
    ensures x == y
  {
  }

  lemma Within(some: set<int>, all: set<int>)
    requires some <= all
    ensures |some| <= |all|
  {
    assert all == some + (all - some);
  }

  lemma LeftOver(some: set<int>, all: set<int>)
    requires some <= all && |some| < |all|
    ensures all - some != {}
  {
    assert all == some + (all - some);
  }

  lemma NoneIn(s: set<int>)
    ensures |s| == 0 ==> forall x :: x !in s
  {
  }

  lemma {:induction false} FullSubset(some: set<int>, all: set<int>)
    requires some <= all && |some| == |all|
    ensures some == all
  {
    assert |all - some| == |all| - |some|;
  }

  // ---------------------------------------------------------------- health over a whole life

  /** What can happen to an account's health: a response, or the panel's switch. */
  datatype Event = Response(status: int, at: int) | Panel(enable: bool)

  function After(a: Account, events: seq<Event>): Account
    decreases |events|
  {
    if events == [] then a
    else
      var before := After(a, events[..|events| - 1]);
      match events[|events| - 1]
      case Response(status, at) => Reported(before, status, at, true)
      case Panel(enable) => before.(enabled := enable)
  }

  function AuthFailures(events: seq<Event>): nat
    decreases |events|
  {
    if events == [] then 0
    else
      var last := events[|events| - 1];
      AuthFailures(events[..|events| - 1]) + if last.Response? && AuthFailure(last.status) then 1 else 0
  }

  ghost predicate NoSuccess(events: seq<Event>) {
    forall k :: 0 <= k < |events| ==> !(events[k].Response? && events[k].status == 200)
  }

  /** The auth failures since the last success, counted from position `from`. */
  ghost predicate Streak(events: seq<Event>, from: nat, n: nat) {
    && from <= |events| && NoSuccess(events[from..]) && AuthFailures(events[from..]) == n
    && (from > 0 ==> events[from - 1].Response? && events[from - 1].status == 200)
  }

  lemma {:induction false} FailCountIsStreak(a: Account, events: seq<Event>) returns (from: nat)
    requires a.failCount == 0
    ensures After(a, events).failCount >= 0
    ensures Streak(events, from, After(a, events).failCount)
    decreases |events|
  {
    if events == [] {
      from := 0;
    } else {
      var n := |events| - 1;
      from := FailCountIsStreak(a, events[..n]);
      var last := events[n];
      if last.Response? && last.status == 200 {
        from := n + 1;
      } else {
        assert events[from..][..|events[from..]| - 1] == events[..n][from..];
        assert forall k :: 0 <= k < n - from ==> events[from..][k] == events[..n][from..][k];
      }
    }
  }

  lemma {:induction false} FewerSince(events: seq<Event>, early: nat, late: nat)
    requires early <= late <= |events|
    ensures AuthFailures(events[late..]) <= AuthFailures(events[early..])
    decreases |events|
  {
    if late < |events| {
      var n := |events| - 1;
      FewerSince(events[..n], early, late);
      assert events[late..][..|events[late..]| - 1] == events[..n][late..];
      assert events[early..][..|events[early..]| - 1] == events[..n][early..];
    }
  }

  /** Event `k` switches the account off: the panel does, or it is an auth failure that ends a
      stretch without a success which holds at least three of them. */
  ghost predicate SwitchesOff(events: seq<Event>, k: nat)
    requires k < |events|
  {
    match events[k]
    case Panel(enable) => !enable
    case Response(status, _) => AuthFailure(status) && DeadBy(events[..k + 1])
  }

  ghost predicate DeadBy(events: seq<Event>) {
    exists from: nat :: from <= |events| && ThreeFailures(events, from)
  }

  ghost predicate ThreeFailures(events: seq<Event>, from: nat)
    requires from <= |events|
  {
    NoSuccess(events[from..]) && AuthFailures(events[from..]) >= MAX_AUTH_FAILURES
  }

  lemma {:induction false} DeadIff(a: Account, events: seq<Event>)
    requires a.failCount == 0
    ensures DeadBy(events) <==> After(a, events).failCount >= MAX_AUTH_FAILURES
  {
    hide After, AuthFailures;
    var from := FailCountIsStreak(a, events);
    if After(a, events).failCount >= MAX_AUTH_FAILURES {
      assert ThreeFailures(events, from);
    }
    if DeadBy(events) {
      var early: nat :| early <= |events| && ThreeFailures(events, early);
      assert forall k :: early <= k < |events| ==> events[k] == events[early..][k - early];
      assert from <= early;
      FewerSince(events, from, early);
    }
  }

  ghost predicate OffSince(events: seq<Event>, k: nat)
    requires k < |events|
  {
    SwitchesOff(events, k) && forall j :: k < j < |events| ==> events[j] != Panel(true)
  }

  /** An account that entered the pool enabled is disabled exactly when something switched it
      off and the panel has not switched it on again since; other responses and successes never
      switch it, either way. */
  lemma {:induction false} DisabledIff(a: Account, events: seq<Event>)
    requires a.enabled && a.failCount == 0
    ensures !After(a, events).enabled <==> exists k: nat :: k < |events| && OffSince(events, k)
    decreases |events|
  {
    hide SwitchesOff, DeadBy;
    if events != [] {
      var n := |events| - 1;
      DisabledIff(a, events[..n]);
      LastSwitch(a, events);
      forall k: nat | k < n
        ensures OffSince(events, k) <==> OffSince(events[..n], k) && events[n] != Panel(true)
      {
        OffEarlier(events, k);
      }
      hide OffSince, After;
      OffLast(events);
      if !After(a, events).enabled && !OffSince(events, n) {
        var k: nat :| k < n && OffSince(events[..n], k);
        assert OffSince(events, k);
      }
      if k: nat :| k < |events| && OffSince(events, k) {
        if k < n {
          assert OffSince(events[..n], k);
        }
      }
    }
  }

  lemma {:induction false} OffLast(events: seq<Event>)
    requires events != []
    ensures OffSince(events, |events| - 1) == SwitchesOff(events, |events| - 1)
    ensures events[|events| - 1] == Panel(true) ==> !SwitchesOff(events, |events| - 1)
  {
  }

  lemma {:induction false} OffEarlier(events: seq<Event>, k: nat)
    requires k < |events| - 1
    ensures var n := |events| - 1;
            OffSince(events, k) <==> OffSince(events[..n], k) && events[n] != Panel(true)
  {
    var n := |events| - 1;
    assert events[..n][..k + 1] == events[..k + 1];
    assert SwitchesOff(events, k) == SwitchesOff(events[..n], k);
    hide SwitchesOff;
    assert forall j :: k < j < n ==> events[..n][j] == events[j];
  }

  lemma {:induction false} LastSwitch(a: Account, events: seq<Event>)
    requires a.failCount == 0 && events != []
    ensures var n := |events| - 1;
            After(a, events).enabled ==
              (events[n] == Panel(true) || (After(a, events[..n]).enabled && !SwitchesOff(events, n)))
  {
    var n := |events| - 1;
    assert events[..n + 1] == events;
    DeadIff(a, events);
    hide DeadBy;
  }

  // ---------------------------------------------------------------- whose cookie a row holds

  datatype WriteBack = WriteBack(id: int, cookie: string)

  /** Over any run of write-backs whose guard could read the row, no row changes its identity. */
  method WriteAllBack(pool: AccountPool, writes: seq<WriteBack>)
    requires pool.Valid()
    modifies pool
    ensures pool.Valid() && pool.table.Keys == old(pool.table).Keys
    ensures forall id :: id in pool.table ==> Identity(pool.table[id].cookie) == Identity(old(pool.table)[id].cookie)
  {
    hide Identity;
    for i := 0 to |writes|
      invariant pool.Valid() && pool.table.Keys == old(pool.table).Keys
      invariant forall id :: id in pool.table ==>
                  Identity(pool.table[id].cookie) == Identity(old(pool.table)[id].cookie)
    {
      pool.UpdateCookie(writes[i].id, writes[i].cookie, true);
    }
  }

  /** What a response may refresh: the guard lets its cookies through exactly when they leave the
      two identifying values alone, or move a bar from one to the other. */
  lemma {:induction false} RefreshPassesGuard(merged: string, cookie: string, headers: seq<string>)
    requires IsMerge(merged, cookie, headers)
    ensures var u := Updates(headers);
            var sapisid := if SAPISID in u then u[SAPISID] else Sapisid(cookie);
            var psid := if PSID in u then u[PSID] else Psid(cookie);
            Identity(merged) == Identity(cookie) <==>
              || (sapisid == Sapisid(cookie) && psid == Psid(cookie))
              || BarMoved(Sapisid(cookie), Psid(cookie), sapisid, psid)
              || BarMoved(sapisid, psid, Sapisid(cookie), Psid(cookie))
  {
    hide Pairs, Updates, LastValue, IsMerge, Joined, BarMoved;
    IdentityOfMerge(merged, cookie, headers);
    JoinLaw(Sapisid(merged), Psid(merged), Sapisid(cookie), Psid(cookie));
  }
}
