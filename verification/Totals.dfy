/** Sums over requests: the meaning of a row of the statistics tables, and the grouping that
    computes one bucket's rows (`scheduler.go`). */
module Totals {
  import opened Options

  datatype Key = Key(model: string, proxyId: int)

  datatype Request = Request(ts: int, key: Key, status: int, totalMs: int, promptTokens: int, outputTokens: int)

  datatype Row = Row(requests: int, successes: int, failures: int, totalMs: int, promptTokens: int, outputTokens: int)

  function Nothing(): Row {
    Row(0, 0, 0, 0, 0, 0)
  }

  /** The primary key of both tables. */
  datatype Slot = Slot(bucket: int, key: Key)

  function Plus(a: Row, b: Row): Row {
    Row(a.requests + b.requests, a.successes + b.successes, a.failures + b.failures, a.totalMs + b.totalMs,
        a.promptTokens + b.promptTokens, a.outputTokens + b.outputTokens)
  }

  function RowOf(r: Request): Row {
    var ok := if r.status == 200 then 1 else 0;
    Row(1, ok, 1 - ok, r.totalMs, r.promptTokens, r.outputTokens)
  }

  predicate Counts(r: Request, from: int, to: int, key: Key) {
    from <= r.ts < to && r.key == key
  }

  function Part(r: Request, from: int, to: int, key: Key): Row {
    if Counts(r, from, to, key) then RowOf(r) else Nothing()
  }

  /** The requests of one (model, proxy) in the half-open span [from, to), summed up. */
  function Total(all: seq<Request>, from: int, to: int, key: Key): Row
    decreases |all|
  {
    if all == [] then Nothing()
    else Plus(Total(all[..|all| - 1], from, to, key), Part(all[|all| - 1], from, to, key))
  }

  /** `WHERE ts >= from`. */
  function Since(all: seq<Request>, from: int): (s: seq<Request>)
    ensures |s| <= |all| && forall r :: r in s <==> r in all && r.ts >= from
    decreases |all|
  {
    if all == [] then []
    else
      var n := |all| - 1;
      assert forall r :: r in all <==> r in all[..n] || r == all[n];
      Since(all[..n], from) + if all[n].ts >= from then [all[n]] else []
  }

  function Within(all: seq<Request>, from: int, to: int): (s: seq<Request>)
    decreases |all|
  {
    if all == [] then []
    else
      var n := |all| - 1;
      Within(all[..n], from, to) + if from <= all[n].ts < to then [all[n]] else []
  }

  // ---------------------------------------------------------------- sums

  lemma {:induction false} TotalSnoc(all: seq<Request>, r: Request, from: int, to: int, key: Key)
    ensures Total(all + [r], from, to, key) == Plus(Total(all, from, to, key), Part(r, from, to, key))
  {
    assert (all + [r])[..|all|] == all;
  }

  // ---------------------------------------------------------------- what the numbers mean

  /** How many requests there are of a kind. */
  function Count(all: seq<Request>, kind: Request -> bool): nat {
    if all == [] then 0 else (if kind(all[0]) then 1 else 0) + Count(all[1..], kind)
  }

  /** A field summed up over the requests of a kind. */
  function Sum(all: seq<Request>, kind: Request -> bool, field: Request -> int): int {
    if all == [] then 0 else (if kind(all[0]) then field(all[0]) else 0) + Sum(all[1..], kind, field)
  }

  lemma {:induction false} CountSnoc(all: seq<Request>, r: Request, kind: Request -> bool)
    ensures Count(all + [r], kind) == Count(all, kind) + if kind(r) then 1 else 0
  {
    if all == [] {
      assert [r][1..] == [] && all + [r] == [r];
    } else {
      CountSnoc(all[1..], r, kind);
      assert (all + [r])[1..] == all[1..] + [r];
    }
  }

  lemma {:induction false} SumSnoc(all: seq<Request>, r: Request, kind: Request -> bool, field: Request -> int)
    ensures Sum(all + [r], kind, field) == Sum(all, kind, field) + if kind(r) then field(r) else 0
  {
    if all == [] {
      assert [r][1..] == [] && all + [r] == [r];
    } else {
      SumSnoc(all[1..], r, kind, field);
      assert (all + [r])[1..] == all[1..] + [r];
    }
  }

  /** A row tells of the requests of its key and span: how many there were, how many of them had the
      status 200, how many had not, and the sums of their times and tokens. */
  lemma {:induction false} TotalIs(all: seq<Request>, from: int, to: int, key: Key)
    ensures var kind := (r: Request) => from <= r.ts < to && r.key == key;
            var t := Total(all, from, to, key);
            && t.requests == Count(all, kind)
            && t.successes == Count(all, (r: Request) => from <= r.ts < to && r.key == key && r.status == 200)
            && t.failures == Count(all, (r: Request) => from <= r.ts < to && r.key == key && r.status != 200)
            && t.totalMs == Sum(all, kind, (r: Request) => r.totalMs)
            && t.promptTokens == Sum(all, kind, (r: Request) => r.promptTokens)
            && t.outputTokens == Sum(all, kind, (r: Request) => r.outputTokens)
  {
    FieldsAre(all, from, to, key, (r: Request) => from <= r.ts < to && r.key == key,
              (r: Request) => from <= r.ts < to && r.key == key && r.status == 200,
              (r: Request) => from <= r.ts < to && r.key == key && r.status != 200,
              (r: Request) => r.totalMs, (r: Request) => r.promptTokens, (r: Request) => r.outputTokens);
  }

  lemma {:induction false} FieldsAre(all: seq<Request>, from: int, to: int, key: Key, kind: Request -> bool,
                                     good: Request -> bool, bad: Request -> bool, ms: Request -> int,
                                     prompt: Request -> int, output: Request -> int)
    requires forall r :: kind(r) <==> from <= r.ts < to && r.key == key
    requires forall r :: good(r) <==> from <= r.ts < to && r.key == key && r.status == 200
    requires forall r :: bad(r) <==> from <= r.ts < to && r.key == key && r.status != 200
    requires forall r :: ms(r) == r.totalMs && prompt(r) == r.promptTokens && output(r) == r.outputTokens
    ensures var t := Total(all, from, to, key);
            && t.requests == Count(all, kind) && t.successes == Count(all, good) && t.failures == Count(all, bad)
            && t.totalMs == Sum(all, kind, ms) && t.promptTokens == Sum(all, kind, prompt)
            && t.outputTokens == Sum(all, kind, output)
    decreases |all|
  {
    if all == [] {
      NothingCounted(kind, good, bad, ms, prompt, output, from, to, key);
      return;
    }
    hide Count, Sum, Total, Plus, Part;
    var n := |all| - 1;
    var init, r := all[..n], all[n];
    assert all == init + [r];
    FieldsAre(init, from, to, key, kind, good, bad, ms, prompt, output);
    TotalSnoc(init, r, from, to, key);
    PlusPart(Total(init, from, to, key), r, from, to, key);
    CountSnoc(init, r, kind);
    CountSnoc(init, r, good);
    CountSnoc(init, r, bad);
    SumSnoc(init, r, kind, ms);
    SumSnoc(init, r, kind, prompt);
    SumSnoc(init, r, kind, output);
  }

  /** What one more request adds to the fields. */
  lemma PlusPart(t: Row, r: Request, from: int, to: int, key: Key)
    ensures var u := Plus(t, Part(r, from, to, key));
            if from <= r.ts < to && r.key == key then
              && u.requests == t.requests + 1 && u.totalMs == t.totalMs + r.totalMs
              && u.successes == t.successes + (if r.status == 200 then 1 else 0)
              && u.failures == t.failures + (if r.status != 200 then 1 else 0)
              && u.promptTokens == t.promptTokens + r.promptTokens
              && u.outputTokens == t.outputTokens + r.outputTokens
            else u == t
  {
  }

  lemma NothingCounted(kind: Request -> bool, good: Request -> bool, bad: Request -> bool, ms: Request -> int,
                       prompt: Request -> int, output: Request -> int, from: int, to: int, key: Key)
    ensures Total([], from, to, key) == Nothing()
    ensures Count([], kind) == Count([], good) == Count([], bad) == 0
    ensures Sum([], kind, ms) == Sum([], kind, prompt) == Sum([], kind, output) == 0
  {
  }

  /** Every request succeeded or failed; a row without requests is empty. */
  predicate Consistent(t: Row) {
    && t.requests == t.successes + t.failures && t.successes >= 0 && t.failures >= 0
    && (t.requests == 0 ==> t.totalMs == 0 && t.promptTokens == 0 && t.outputTokens == 0)
  }

  lemma PlusConsistent(a: Row, b: Row)
    requires Consistent(a) && Consistent(b)
    ensures Consistent(Plus(a, b)) && (Plus(a, b).requests > 0 <==> a.requests > 0 || b.requests > 0)
  {
  }

  lemma EmptyRow(t: Row)
    requires Consistent(t) && t.requests == 0
    ensures t == Nothing()
  {
  }

  lemma PlusNothing(a: Row)
    ensures Plus(Nothing(), a) == a == Plus(a, Nothing())
  {
    assert Plus(Nothing(), a).requests == a.requests;
  }

  lemma PartConsistent(r: Request, from: int, to: int, key: Key)
    ensures var t := Part(r, from, to, key);
            Consistent(t) && (t.requests > 0 <==> Counts(r, from, to, key))
  {
  }

  ghost predicate Seen(all: seq<Request>, from: int, to: int, key: Key) {
    exists r :: r in all && Counts(r, from, to, key)
  }

  lemma {:induction false} SeenLast(all: seq<Request>, from: int, to: int, key: Key)
    requires all != []
    ensures var n := |all| - 1;
            Seen(all, from, to, key) <==> Seen(all[..n], from, to, key) || Counts(all[n], from, to, key)
  {
    var n := |all| - 1;
    hide Counts;
    assert forall r :: r in all <==> r in all[..n] || r == all[n];
    assert all[n] in all;
  }

  lemma {:induction false} TotalConsistent(all: seq<Request>, from: int, to: int, key: Key)
    ensures var t := Total(all, from, to, key);
            Consistent(t) && (t.requests > 0 <==> Seen(all, from, to, key))
    decreases |all|
  {
    hide Plus, Part, Consistent, Counts, Seen, Nothing;
    if all == [] {
      NoneSeen(from, to, key);
    } else {
      var n := |all| - 1;
      TotalConsistent(all[..n], from, to, key);
      PartConsistent(all[n], from, to, key);
      PlusConsistent(Total(all[..n], from, to, key), Part(all[n], from, to, key));
      SeenLast(all, from, to, key);
    }
  }

  lemma NoneSeen(from: int, to: int, key: Key)
    ensures !Seen([], from, to, key) && Consistent(Nothing()) && Nothing().requests == 0
  {
  }

  lemma PlusShuffle(a: Row, b: Row, c: Row, d: Row)
    ensures Plus(Plus(a, c), Plus(b, d)) == Plus(Plus(a, b), Plus(c, d))
  {
  }

  lemma PartSplits(r: Request, from: int, mid: int, to: int, key: Key)
    requires from <= mid <= to
    ensures Plus(Part(r, from, mid, key), Part(r, mid, to, key)) == Part(r, from, to, key)
  {
  }

  /** Adjacent spans add up. */
  lemma {:induction false} TotalSplits(all: seq<Request>, from: int, mid: int, to: int, key: Key)
    requires from <= mid <= to
    ensures Plus(Total(all, from, mid, key), Total(all, mid, to, key)) == Total(all, from, to, key)
    decreases |all|
  {
    hide Plus, Part, Nothing;
    if all == [] {
      PlusNothing(Nothing());
    } else {
      var n := |all| - 1;
      TotalSplits(all[..n], from, mid, to, key);
      PartSplits(all[n], from, mid, to, key);
      PlusShuffle(Total(all[..n], from, mid, key), Total(all[..n], mid, to, key),
                  Part(all[n], from, mid, key), Part(all[n], mid, to, key));
    }
  }

  /** Rows deleted before the span do not matter to it. */
  lemma {:induction false} TotalSince(all: seq<Request>, cut: int, from: int, to: int, key: Key)
    requires cut <= from
    ensures Total(Since(all, cut), from, to, key) == Total(all, from, to, key)
    decreases |all|
  {
    if all != [] {
      var n := |all| - 1;
      TotalSince(all[..n], cut, from, to, key);
      SinceLast(all, cut);
      TotalLast(all, from, to, key);
      hide Plus, Part, Since, Total;
      if all[n].ts >= cut {
        TotalSnoc(Since(all[..n], cut), all[n], from, to, key);
      } else {
        NoPart(all[n], from, to, key);
        PlusNothing(Total(all[..n], from, to, key));
      }
    }
  }

  lemma TotalLast(all: seq<Request>, from: int, to: int, key: Key)
    requires all != []
    ensures var n := |all| - 1;
            Total(all, from, to, key) == Plus(Total(all[..n], from, to, key), Part(all[n], from, to, key))
  {
  }

  lemma SinceLast(all: seq<Request>, from: int)
    requires all != []
    ensures var n := |all| - 1;
            Since(all, from) == if all[n].ts >= from then Since(all[..n], from) + [all[n]] else Since(all[..n], from)
  {
  }

  lemma WithinLast(all: seq<Request>, from: int, to: int)
    requires all != []
    ensures var n := |all| - 1;
            Within(all, from, to) ==
            if from <= all[n].ts < to then Within(all[..n], from, to) + [all[n]] else Within(all[..n], from, to)
  {
  }

  lemma NoPart(r: Request, from: int, to: int, key: Key)
    requires !(from <= r.ts < to)
    ensures Part(r, from, to, key) == Nothing()
  {
  }

  lemma {:induction false} TotalWithin(all: seq<Request>, from: int, to: int, key: Key)
    ensures Total(Within(all, from, to), from, to, key) == Total(all, from, to, key)
    decreases |all|
  {
    if all != [] {
      var n := |all| - 1;
      TotalWithin(all[..n], from, to, key);
      WithinLast(all, from, to);
      TotalLast(all, from, to, key);
      hide Plus, Part, Within, Total;
      if from <= all[n].ts < to {
        TotalSnoc(Within(all[..n], from, to), all[n], from, to, key);
      } else {
        NoPart(all[n], from, to, key);
        PlusNothing(Total(all[..n], from, to, key));
      }
    }
  }

  lemma {:induction false} WithinIsWithin(all: seq<Request>, from: int, to: int)
    ensures forall r :: r in Within(all, from, to) <==> r in all && from <= r.ts < to
    decreases |all|
  {
    if all != [] {
      var init, r := all[..|all| - 1], all[|all| - 1];
      WithinIsWithin(init, from, to);
      assert forall q :: q in all <==> q in init || q == r;
    }
  }

  lemma {:induction false} SinceSnoc(all: seq<Request>, r: Request, from: int)
    ensures Since(all + [r], from) == if r.ts >= from then Since(all, from) + [r] else Since(all, from)
  {
    assert (all + [r])[..|all|] == all;
  }

  /** Deleting first what is older than one time and then what is older than another. */
  lemma {:induction false} SinceSince(all: seq<Request>, a: int, b: int)
    ensures Since(Since(all, a), b) == Since(all, if a > b then a else b)
    decreases |all|
  {
    if all != [] {
      var n, c := |all| - 1, if a > b then a else b;
      SinceSince(all[..n], a, b);
      SinceLast(all, a);
      SinceLast(all, c);
      hide Since;
      if all[n].ts >= a {
        SinceSnoc(Since(all[..n], a), all[n], b);
      }
    }
  }

  // ---------------------------------------------------------------- largest and smallest

  ghost predicate IsLargest(k: int, s: set<int>) {
    k in s && forall j :: j in s ==> j <= k
  }

  lemma {:induction false} LargestExists(s: set<int>)
    requires s != {}
    ensures exists k :: IsLargest(k, s)
    decreases |s|
  {
    var x := AnyOf(s);
    var rest := s - {x};
    assert forall j :: j in s ==> j == x || j in rest;
    if rest == {} {
      assert IsLargest(x, s);
    } else {
      LargestExists(rest);
      var k :| IsLargest(k, rest);
      assert IsLargest(if x > k then x else k, s);
    }
  }

  /** `COALESCE(MAX(...), 0)`. */
  function MaxOrZero(s: set<int>): (k: int)
    ensures if s == {} then k == 0 else IsLargest(k, s)
  {
    if s == {} then 0
    else
      LargestExists(s);
      var k :| k in s && forall j :: j in s ==> j <= k;
      k
  }

  /** `COALESCE(MIN(...), 0)`. */
  function MinOrZero(s: set<int>): (k: int)
    ensures if s == {} then k == 0 else k in s && forall j :: j in s ==> k <= j
  {
    var negated := set j | j in s :: -j;
    assert forall j :: j in s ==> -j in negated;
    -MaxOrZero(negated)
  }

  // ---------------------------------------------------------------- one row

  /** `slot` holds the sum `t`; there is no row for a sum over no requests. */
  ghost predicate IsRow(table: map<Slot, Row>, slot: Slot, t: Row) {
    if t.requests > 0 then slot in table && table[slot] == t else slot !in table
  }

  ghost predicate Same(table: map<Slot, Row>, before: map<Slot, Row>, slot: Slot) {
    (slot in table <==> slot in before) && (slot in table ==> table[slot] == before[slot])
  }

  ghost predicate IsGroup(groups: map<Key, Row>, key: Key, t: Row) {
    if t.requests > 0 then key in groups && groups[key] == t else key !in groups
  }

  /** The rows of one bucket after the groups were written. */
  ghost predicate IsUpserted(table: map<Slot, Row>, before: map<Slot, Row>, bucket: int, groups: map<Key, Row>) {
    forall s: Slot ::
      if s.bucket == bucket && s.key in groups then s in table && table[s] == groups[s.key] else Same(table, before, s)
  }

  /** The upserts of one transaction, in whatever order the groups come. */
  method Upsert(before: map<Slot, Row>, bucket: int, groups: map<Key, Row>) returns (table: map<Slot, Row>)
    ensures IsUpserted(table, before, bucket, groups)
  {
    table := before;
    var todo := groups.Keys;
    while todo != {}
      invariant todo <= groups.Keys
      invariant forall s: Slot ::
        if s.bucket == bucket && s.key in groups.Keys - todo then s in table && table[s] == groups[s.key]
        else Same(table, before, s)
      decreases |todo|
    {
      var k :| k in todo;
      table := table[Slot(bucket, k) := groups[k]];
      todo := todo - {k};
    }
  }

  function Added(groups: map<Key, Row>, key: Key, row: Row): map<Key, Row> {
    groups[key := Plus(if key in groups then groups[key] else Nothing(), row)]
  }

  lemma {:induction false} GroupAdds(groups: map<Key, Row>, key: Key, t: Row, row: Row)
    requires IsGroup(groups, key, t) && Consistent(t) && Consistent(row) && row.requests > 0
    ensures IsGroup(Added(groups, key, row), key, Plus(t, row))
  {
    PlusConsistent(t, row);
    if t.requests == 0 {
      EmptyRow(t);
    }
  }

  lemma OtherGroupStays(groups: map<Key, Row>, key: Key, row: Row, other: Key, t: Row)
    requires IsGroup(groups, other, t) && other != key
    ensures IsGroup(Added(groups, key, row), other, t)
  {
  }

  /** One more request within the span. */
  lemma {:induction false} GroupGrows(groups: map<Key, Row>, done: seq<Request>, r: Request, from: int, to: int,
                                      key: Key)
    requires IsGroup(groups, key, Total(done, from, to, key)) && from <= r.ts < to
    ensures IsGroup(Added(groups, r.key, RowOf(r)), key, Total(done + [r], from, to, key))
  {
    TotalSnoc(done, r, from, to, key);
    TotalConsistent(done, from, to, key);
    PartIs(r, from, to, key);
    hide Total, IsGroup, Consistent, Plus, Added, Part;
    if key == r.key {
      GroupAdds(groups, key, Total(done, from, to, key), RowOf(r));
    } else {
      PlusNothing(Total(done, from, to, key));
      OtherGroupStays(groups, r.key, RowOf(r), key, Total(done, from, to, key));
    }
  }

  lemma PartIs(r: Request, from: int, to: int, key: Key)
    requires from <= r.ts < to
    ensures Part(r, from, to, key) == if key == r.key then RowOf(r) else Nothing()
    ensures Consistent(RowOf(r)) && RowOf(r).requests > 0
  {
  }

  /** `groups` holds, for each key, the sum over `rows`, if there is anything to sum. */
  ghost predicate AreGroups(groups: map<Key, Row>, rows: seq<Request>, from: int, to: int) {
    forall key :: IsGroup(groups, key, Total(rows, from, to, key))
  }

  lemma {:induction false} GroupsGrow(groups: map<Key, Row>, done: seq<Request>, r: Request, from: int, to: int)
    requires AreGroups(groups, done, from, to) && from <= r.ts < to
    ensures AreGroups(Added(groups, r.key, RowOf(r)), done + [r], from, to)
  {
    hide IsGroup, Total, Added;
    forall key
      ensures IsGroup(Added(groups, r.key, RowOf(r)), key, Total(done + [r], from, to, key))
    {
      GroupGrows(groups, done, r, from, to, key);
    }
  }

  lemma NoGroups(from: int, to: int)
    ensures AreGroups(map[], [], from, to)
  {
  }

  lemma {:induction false} GroupsWithin(groups: map<Key, Row>, raw: seq<Request>, from: int, to: int)
    requires AreGroups(groups, Within(raw, from, to), from, to)
    ensures AreGroups(groups, raw, from, to)
  {
    hide IsGroup, Total, Within;
    forall key
      ensures IsGroup(groups, key, Total(raw, from, to, key))
    {
      TotalWithin(raw, from, to, key);
    }
  }

  /** The grouping loop over one bucket's requests. */
  method GroupRequests(raw: seq<Request>, from: int, to: int) returns (groups: map<Key, Row>)
    ensures AreGroups(groups, raw, from, to)
  {
    var rows := Within(raw, from, to);
    WithinIsWithin(raw, from, to);
    hide Within, Total, IsGroup, AreGroups, Added;
    groups := map[];
    NoGroups(from, to);
    for i := 0 to |rows|
      invariant AreGroups(groups, rows[..i], from, to)
    {
      var r := rows[i];
      GroupsGrow(groups, rows[..i], r, from, to);
      assert rows[..i] + [r] == rows[..i + 1];
      groups := Added(groups, r.key, RowOf(r));
    }
    assert rows[..|rows|] == rows;
    GroupsWithin(groups, raw, from, to);
  }
}
