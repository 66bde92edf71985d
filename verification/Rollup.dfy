/** The statistics tables: requests are rolled up hour by hour, hours day by day, and old
    requests are deleted (`scheduler.go`). */
module Rollup {
  import opened Options
  import opened Totals

  const HOUR := 3600
  const DAY := 86400

  datatype Span = Hours | Days {
    function Secs(): (n: int)
      ensures n > 0
    {
      if Hours? then HOUR else DAY
    }
  }

  /** The start of the bucket `t` is in. */
  function Floor(t: int, span: Span): int {
    if span.Hours? then t - t % HOUR else t - t % DAY
  }

  /** `b` is a whole number of buckets away from `from`. */
  predicate OnGrid(b: int, from: int, span: Span) {
    if span.Hours? then b % HOUR == from % HOUR else b % DAY == from % DAY
  }

  function Buckets(table: map<Slot, Row>): set<int> {
    set s | s in table :: s.bucket
  }

  function Times(all: seq<Request>): set<int> {
    set r | r in all :: r.ts
  }

  /** The first bucket a catch-up looks at: the one after the last with rows, or the oldest one
      of its source, if that is not empty. */
  function StartOf(table: map<Slot, Row>, source: set<int>, span: Span): Option<int> {
    var last := MaxOrZero(Buckets(table));
    if last != 0 then Some(last + span.Secs())
    else
      var oldest := MinOrZero(source);
      if oldest == 0 then None else Some(Floor(oldest, span))
  }

  // ---------------------------------------------------------------- the grid of buckets

  lemma OffGrid(a: int, b: int, from: int, span: Span)
    requires OnGrid(b, from, span) && b - span.Secs() < a < b
    ensures !OnGrid(a, from, span)
  {
  }

  lemma GridNext(b: int, from: int, span: Span)
    ensures OnGrid(b + span.Secs(), from, span) == OnGrid(b, from, span) && OnGrid(from, from, span)
  {
  }

  lemma GridBefore(b: int, closed: int, span: Span)
    requires OnGrid(b, 0, span) && OnGrid(closed, 0, span) && b < closed
    ensures b + span.Secs() <= closed
  {
  }

  lemma OnSameGrid(b: int, from: int, span: Span)
    requires OnGrid(from, 0, span)
    ensures OnGrid(b, from, span) == OnGrid(b, 0, span)
  {
  }

  lemma FloorIs(t: int, span: Span)
    ensures OnGrid(Floor(t, span), 0, span) && Floor(t, span) <= t < Floor(t, span) + span.Secs()
    ensures t >= span.Secs() ==> Floor(t, span) > 0
  {
  }

  lemma FloorIsLast(b: int, t: int, span: Span)
    requires OnGrid(b, 0, span) && b <= t
    ensures b <= Floor(t, span)
  {
  }

  // ---------------------------------------------------------------- one catch-up

  /** The buckets from `from` to `target` that were not missed now hold the sums of `raw`, where
      there is something to sum; every other row is as before. */
  ghost predicate IsCaughtUp(table: map<Slot, Row>, before: map<Slot, Row>, raw: seq<Request>, from: int, target: int,
                             missed: set<int>, span: Span) {
    forall s: Slot ::
      var t := Total(raw, s.bucket, s.bucket + span.Secs(), s.key);
      if from <= s.bucket <= target && OnGrid(s.bucket, from, span) && s.bucket !in missed && t.requests > 0
      then s in table && table[s] == t
      else Same(table, before, s)
  }

  lemma NothingYet(table: map<Slot, Row>, raw: seq<Request>, from: int, target: int, missed: set<int>, span: Span)
    requires target < from
    ensures IsCaughtUp(table, table, raw, from, target, missed, span)
  {
  }

  lemma {:induction false} BucketWritten(table: map<Slot, Row>, before: map<Slot, Row>, raw: seq<Request>, b: int,
                                         groups: map<Key, Row>, span: Span)
    requires AreGroups(groups, raw, b, b + span.Secs())
    requires IsUpserted(table, before, b, groups)
    ensures IsCaughtUp(table, before, raw, b, b, {}, span)
  {
    hide Total, Same;
    GridNext(b, b, span);
    forall s: Slot
      ensures var t := Total(raw, s.bucket, s.bucket + span.Secs(), s.key);
              if s.bucket == b && t.requests > 0 then s in table && table[s] == t else Same(table, before, s)
    {
      if s.bucket == b {
        assert IsGroup(groups, s.key, Total(raw, b, b + span.Secs(), s.key));
      }
    }
  }

  lemma {:induction false} NextBucket(table: map<Slot, Row>, mid: map<Slot, Row>, before: map<Slot, Row>,
                                      raw: seq<Request>,
                                      from: int, b: int, missed: set<int>, span: Span)
    requires from <= b && OnGrid(b, from, span) && b !in missed
    requires IsCaughtUp(mid, before, raw, from, b - span.Secs(), missed, span)
    requires IsCaughtUp(table, mid, raw, b, b, {}, span)
    ensures IsCaughtUp(table, before, raw, from, b, missed, span)
  {
    hide Total, OnGrid;
    GridNext(b, b, span);
    forall s: Slot
      ensures var t := Total(raw, s.bucket, s.bucket + span.Secs(), s.key);
              if from <= s.bucket <= b && OnGrid(s.bucket, from, span) && s.bucket !in missed && t.requests > 0
              then s in table && table[s] == t else Same(table, before, s)
    {
      if b - span.Secs() < s.bucket < b {
        OffGrid(s.bucket, b, from, span);
      }
    }
  }

  lemma {:induction false} NoBucket(table: map<Slot, Row>, before: map<Slot, Row>, raw: seq<Request>, from: int, b: int,
                                    missed: set<int>, span: Span)
    requires OnGrid(b, from, span) && b in missed && IsCaughtUp(table, before, raw, from, b - span.Secs(), missed, span)
    ensures IsCaughtUp(table, before, raw, from, b, missed, span)
  {
    hide Total, OnGrid;
    forall s: Slot | b - span.Secs() < s.bucket < b
      ensures !OnGrid(s.bucket, from, span)
    {
      OffGrid(s.bucket, b, from, span);
    }
  }

  lemma {:induction false} UpTo(table: map<Slot, Row>, before: map<Slot, Row>, raw: seq<Request>, from: int, b: int,
                                target: int,
                                missed: set<int>, span: Span)
    requires OnGrid(b + span.Secs(), from, span) && target < b + span.Secs()
    requires b <= target || (target < from && b < from)
    requires IsCaughtUp(table, before, raw, from, b, missed, span)
    ensures IsCaughtUp(table, before, raw, from, target, missed, span)
  {
    hide Total, OnGrid;
    forall s: Slot | b < s.bucket <= target
      ensures !OnGrid(s.bucket, from, span)
    {
      OffGrid(s.bucket, b + span.Secs(), from, span);
    }
  }

  // ---------------------------------------------------------------- closed buckets

  /** Before `closed` every bucket is rolled up, and there are no rows from then on. */
  ghost predicate Right(table: map<Slot, Row>, all: seq<Request>, closed: int, span: Span) {
    && OnGrid(closed, 0, span)
    && (forall s :: s in table ==> 0 < s.bucket < closed && OnGrid(s.bucket, 0, span))
    && (forall b, key :: b < closed && OnGrid(b, 0, span) ==>
          IsRow(table, Slot(b, key), Total(all, b, b + span.Secs(), key)))
  }

  /** Of the requests since `closed` none was deleted. */
  ghost predicate Kept(raw: seq<Request>, all: seq<Request>, closed: int) {
    Since(raw, closed) == Since(all, closed) && forall r :: r in raw ==> r in all
  }

  lemma NothingRight(span: Span)
    ensures Right(map[], [], 0, span) && Kept([], [], 0)
  {
  }

  lemma {:induction false} InsertKept(raw: seq<Request>, all: seq<Request>, closed: int, r: Request)
    requires Kept(raw, all, closed)
    ensures Kept(raw + [r], all + [r], closed)
  {
    SinceSnoc(raw, r, closed);
    SinceSnoc(all, r, closed);
  }

  lemma {:induction false} InsertRight(table: map<Slot, Row>, all: seq<Request>, closed: int, r: Request, span: Span)
    requires Right(table, all, closed, span) && closed <= r.ts
    ensures Right(table, all + [r], closed, span)
  {
    hide Total, Since, IsRow, Plus, Part, OnGrid;
    forall b, key | b < closed && OnGrid(b, 0, span)
      ensures IsRow(table, Slot(b, key), Total(all + [r], b, b + span.Secs(), key))
    {
      TotalSnoc(all, r, b, b + span.Secs(), key);
      GridBefore(b, closed, span);
      NoPart(r, b, b + span.Secs(), key);
      PlusNothing(Total(all, b, b + span.Secs(), key));
    }
  }

  /** What the requests still there say about a bucket. */
  lemma {:induction false} RawBucket(raw: seq<Request>, all: seq<Request>, closed: int, b: int, to: int, key: Key)
    requires Kept(raw, all, closed)
    ensures var t, u := Total(raw, b, to, key), Total(all, b, to, key);
            (b >= closed ==> t == u) && (t.requests > 0 ==> u.requests > 0) && t.requests >= 0 && u.requests >= 0
  {
    if b >= closed {
      TotalSince(raw, closed, b, to, key);
      TotalSince(all, closed, b, to, key);
    }
    TotalConsistent(raw, b, to, key);
    TotalConsistent(all, b, to, key);
    hide Total, Since;
  }

  lemma {:induction false} NoneIn(all: seq<Request>, b: int, to: int, key: Key)
    requires forall r :: r in all ==> !(b <= r.ts < to)
    ensures Total(all, b, to, key).requests == 0
  {
    TotalConsistent(all, b, to, key);
  }

  /** The catch-up starts behind all rows, and leaves out no bucket with requests. */
  ghost predicate IsStart(from: int, table: map<Slot, Row>, all: seq<Request>, closed: int, span: Span) {
    && OnGrid(from, 0, span) && 0 < from
    && (forall s :: s in table ==> s.bucket < from)
    && (forall r :: r in all && r.ts >= closed ==> r.ts >= from)
  }

  lemma {:induction false} OneCaughtUp(table: map<Slot, Row>, before: map<Slot, Row>, raw: seq<Request>,
                                       all: seq<Request>,
                                       from: int, closed: int, next: int, b: int, key: Key, span: Span)
    requires Right(before, all, closed, span) && Kept(raw, all, closed) && IsStart(from, before, all, closed, span)
    requires IsCaughtUp(table, before, raw, from, next - span.Secs(), {}, span)
    requires OnGrid(next, 0, span) && OnGrid(b, 0, span) && b < next
    ensures IsRow(table, Slot(b, key), Total(all, b, b + span.Secs(), key))
    ensures b < closed ==> Same(table, before, Slot(b, key))
  {
    RawBucket(raw, all, closed, b, b + span.Secs(), key);
    GridBefore(b, next, span);
    OnSameGrid(b, from, span);
    hide Total, Since, OnGrid, Kept;
    var s := Slot(b, key);
    assert s.bucket == b && s.key == key;
    if b < closed {
      assert IsRow(before, s, Total(all, b, b + span.Secs(), key));
    } else if b < from {
      GridBefore(b, from, span);
      NoneIn(all, b, b + span.Secs(), key);
    }
  }

  lemma {:induction false} CaughtUpRight(table: map<Slot, Row>, before: map<Slot, Row>, raw: seq<Request>,
                                         all: seq<Request>,
                                         from: int, closed: int, next: int, span: Span)
    requires Right(before, all, closed, span) && Kept(raw, all, closed) && IsStart(from, before, all, closed, span)
    requires IsCaughtUp(table, before, raw, from, next - span.Secs(), {}, span)
    requires OnGrid(next, 0, span) && closed <= next
    ensures Right(table, all, next, span)
    ensures closed == next ==> table == before
  {
    hide Total, Kept, IsRow, OnGrid;
    forall b, key | b < next && OnGrid(b, 0, span)
      ensures IsRow(table, Slot(b, key), Total(all, b, b + span.Secs(), key))
      ensures b < closed ==> Same(table, before, Slot(b, key))
    {
      OneCaughtUp(table, before, raw, all, from, closed, next, b, key, span);
    }
    forall s | s in table
      ensures 0 < s.bucket < next && OnGrid(s.bucket, 0, span)
    {
      OnSameGrid(s.bucket, from, span);
      assert s in before || from <= s.bucket <= next - span.Secs();
    }
    if closed == next {
      forall s: Slot
        ensures Same(table, before, s)
      {
        OnSameGrid(s.bucket, from, span);
        if s.bucket < next && OnGrid(s.bucket, 0, span) {
          assert s == Slot(s.bucket, s.key);
        }
      }
    }
  }

  /** Nothing to catch up with, ever since `closed`. */
  lemma {:induction false} IdleRight(all: seq<Request>, closed: int, next: int, span: Span)
    requires Right(map[], all, closed, span) && OnGrid(next, 0, span)
    requires forall r :: r in all ==> r.ts < closed || r.ts >= next
    ensures Right(map[], all, next, span)
  {
    hide Total, OnGrid;
    forall b, key | b < next && OnGrid(b, 0, span)
      ensures IsRow(map[], Slot(b, key), Total(all, b, b + span.Secs(), key))
    {
      if b < closed {
        assert IsRow(map[], Slot(b, key), Total(all, b, b + span.Secs(), key));
      } else {
        GridBefore(b, next, span);
        NoneIn(all, b, b + span.Secs(), key);
      }
    }
  }

  lemma {:induction false} StartBehind(table: map<Slot, Row>, all: seq<Request>, closed: int, span: Span)
    requires Right(table, all, closed, span)
    ensures var last := MaxOrZero(Buckets(table));
            && (last == 0 <==> table == map[])
            && (last != 0 ==> IsStart(last + span.Secs(), table, all, closed, span))
  {
    hide Total, OnGrid, IsRow;
    var last := MaxOrZero(Buckets(table));
    assert forall s :: s in table ==> s.bucket in Buckets(table);
    if last != 0 {
      GridNext(last, 0, span);
      GridBefore(last, closed, span);
    } else {
      assert table.Keys == {};
    }
  }

  lemma {:induction false} HoursStart(hourly: map<Slot, Row>, raw: seq<Request>, all: seq<Request>, closed: int)
    requires Right(hourly, all, closed, Hours) && Kept(raw, all, closed) && forall r :: r in all ==> DAY <= r.ts
    ensures match StartOf(hourly, Times(raw), Hours)
            case Some(from) => IsStart(from, hourly, all, closed, Hours)
            case None => hourly == map[] && forall r :: r in all ==> r.ts < closed
  {
    assert forall r :: r in all && r.ts >= closed ==> r in Since(raw, closed);
    assert forall r :: r in raw ==> r.ts in Times(raw);
    hide Since, Total, Right, OnGrid, Floor;
    StartBehind(hourly, all, closed, Hours);
    var oldest := MinOrZero(Times(raw));
    FloorIs(oldest, Hours);
  }

  lemma {:induction false} KeptLater(raw: seq<Request>, all: seq<Request>, closed: int, next: int)
    requires Kept(raw, all, closed) && closed <= next
    ensures Kept(raw, all, next)
  {
    SinceSince(raw, closed, next);
    SinceSince(all, closed, next);
    hide Since;
  }

  // ---------------------------------------------------------------- deletion

  /** All requests older than `cutoff` lie in closed hours. */
  ghost predicate NoneLost(raw: seq<Request>, cutoff: int, closed: int) {
    forall r :: r in raw && r.ts < cutoff ==> r.ts < closed
  }

  lemma {:induction false} SweepKeeps(raw: seq<Request>, all: seq<Request>, closed: int, cutoff: int)
    requires Kept(raw, all, closed)
    ensures Kept(Since(raw, cutoff), all, closed) <==> NoneLost(raw, cutoff, closed)
  {
    SinceSince(raw, cutoff, closed);
    if cutoff > closed {
      if NoneLost(raw, cutoff, closed) {
        SinceAgree(raw, cutoff, closed);
      }
      hide Since;
      assert forall r :: r in Since(raw, closed) <==> r in raw && r.ts >= closed;
      assert forall r :: r in Since(raw, cutoff) <==> r in raw && r.ts >= cutoff;
    }
  }

  lemma {:induction false} SinceAgree(raw: seq<Request>, a: int, b: int)
    requires forall r :: r in raw ==> (r.ts >= a <==> r.ts >= b)
    ensures Since(raw, a) == Since(raw, b)
    decreases |raw|
  {
    if raw != [] {
      SinceAgree(raw[..|raw| - 1], a, b);
    }
  }

  // ---------------------------------------------------------------- a day out of its hours

  function RowAt(table: map<Slot, Row>, s: Slot): Row {
    if s in table then table[s] else Nothing()
  }

  /** The hours from `d` on and before `end` added up. */
  function HoursSum(hourly: map<Slot, Row>, d: int, end: int, key: Key): Row
    decreases end - d
  {
    if end <= d then Nothing()
    else Plus(HoursSum(hourly, d, end - HOUR, key), RowAt(hourly, Slot(end - HOUR, key)))
  }

  function Min(a: int, b: int): int { if a < b then a else b }

  lemma {:induction false} HourAt(hourly: map<Slot, Row>, all: seq<Request>, closed: int, b: int, key: Key)
    requires Right(hourly, all, closed, Hours) && OnGrid(b, 0, Hours)
    ensures RowAt(hourly, Slot(b, key)) == if b < closed then Total(all, b, b + HOUR, key) else Nothing()
    ensures b < closed ==> b + HOUR <= closed
  {
    TotalConsistent(all, b, b + HOUR, key);
    hide Total, OnGrid, Nothing;
    var s := Slot(b, key);
    assert s.bucket == b;
    if b < closed {
      GridBefore(b, closed, Hours);
      assert IsRow(hourly, s, Total(all, b, b + HOUR, key));
      if Total(all, b, b + HOUR, key).requests == 0 {
        EmptyRow(Total(all, b, b + HOUR, key));
      }
    }
  }

  lemma {:induction false} TotalOfNoTime(all: seq<Request>, d: int, end: int, key: Key)
    requires end <= d
    ensures Total(all, d, end, key) == Nothing()
  {
    NoneIn(all, d, end, key);
    TotalConsistent(all, d, end, key);
    EmptyRow(Total(all, d, end, key));
  }

  /** The hours rolled up so far give the day up to there, and no more. */
  lemma {:induction false} HoursSumIs(hourly: map<Slot, Row>, all: seq<Request>, closed: int, d: int, end: int,
                                      key: Key)
    requires Right(hourly, all, closed, Hours) && OnGrid(d, 0, Hours) && OnGrid(end, 0, Hours) && d <= end
    ensures HoursSum(hourly, d, end, key) == Total(all, d, Min(end, closed), key)
    decreases end - d
  {
    hide Total, Plus, RowAt, Right, OnGrid, Nothing;
    if end == d {
      TotalOfNoTime(all, d, Min(end, closed), key);
    } else {
      var b := end - HOUR;
      GridNext(b, 0, Hours);
      GridBefore(d, end, Hours);
      HoursSumIs(hourly, all, closed, d, b, key);
      HourAt(hourly, all, closed, b, key);
      if b < closed {
        TotalSplits(all, d, b, end, key);
      } else {
        PlusNothing(Total(all, d, closed, key));
      }
    }
  }

  /** One more hourly row read. */
  lemma {:induction false} HourRead(part: map<Slot, Row>, s: Slot, row: Row, d: int, end: int, key: Key)
    requires s !in part && d <= s.bucket && OnGrid(s.bucket, 0, Hours) && OnGrid(end, 0, Hours)
    ensures var sum := HoursSum(part, d, end, key);
            HoursSum(part[s := row], d, end, key) == (if key == s.key && s.bucket < end then Plus(sum, row) else sum)
    decreases end - d
  {
    hide Plus, OnGrid, Nothing;
    if d < end {
      var b := end - HOUR;
      GridNext(b, 0, Hours);
      HourRead(part, s, row, d, b, key);
      if b < s.bucket < end {
        OffGrid(s.bucket, end, 0, Hours);
      }
      PlusSwap(HoursSum(part, d, b, key), row, RowAt(part, Slot(b, key)));
      PlusNothing(HoursSum(part, d, b, key));
    }
  }

  lemma PlusSwap(a: Row, b: Row, c: Row)
    ensures Plus(Plus(a, b), c) == Plus(Plus(a, c), b)
  {
  }

  lemma DayOnHours(d: int)
    requires OnGrid(d, 0, Days)
    ensures OnGrid(d, 0, Hours) && OnGrid(d + DAY, 0, Days)
  {
    var k := 24 * (d / 86400);
    assert d == 3600 * k;
    HourMultiple(k);
    GridNext(d, 0, Days);
  }

  lemma HourMultiple(k: int)
    ensures 3600 * k % 3600 == 0
  {
  }

  function DaySum(hourly: map<Slot, Row>, d: int, key: Key): Row {
    HoursSum(hourly, d, d + DAY, key)
  }

  /** Every row stands for some requests. */
  ghost predicate Sound(table: map<Slot, Row>) {
    forall s :: s in table ==> Consistent(table[s]) && table[s].requests > 0 && OnGrid(s.bucket, 0, Hours)
  }

  lemma {:induction false} RightIsSound(hourly: map<Slot, Row>, all: seq<Request>, closed: int)
    requires Right(hourly, all, closed, Hours)
    ensures Sound(hourly)
  {
    hide Total, Consistent, OnGrid;
    forall s | s in hourly
      ensures Consistent(hourly[s]) && hourly[s].requests > 0
    {
      assert s == Slot(s.bucket, s.key);
      TotalConsistent(all, s.bucket, s.bucket + HOUR, s.key);
    }
  }

  lemma {:induction false} HoursSumConsistent(part: map<Slot, Row>, d: int, end: int, key: Key)
    requires Sound(part)
    ensures Consistent(HoursSum(part, d, end, key))
    decreases end - d
  {
    hide Plus, Consistent, OnGrid;
    NothingConsistent();
    if d < end {
      HoursSumConsistent(part, d, end - HOUR, key);
      PlusConsistent(HoursSum(part, d, end - HOUR, key), RowAt(part, Slot(end - HOUR, key)));
    }
  }

  lemma NothingConsistent()
    ensures Consistent(Nothing())
  {
  }

  /** `groups` holds, for each key, the sum of the day's hourly rows, if there are any. */
  ghost predicate AreDayGroups(groups: map<Key, Row>, hourly: map<Slot, Row>, d: int) {
    forall key :: IsGroup(groups, key, DaySum(hourly, d, key))
  }

  lemma {:induction false} NoDayGroups(d: int)
    ensures AreDayGroups(map[], map[], d)
  {
    forall key
      ensures DaySum(map[], d, key).requests == 0
    {
      NoHours(d, d + DAY, key);
    }
  }

  lemma {:induction false} NoHours(d: int, end: int, key: Key)
    ensures HoursSum(map[], d, end, key) == Nothing()
    decreases end - d
  {
    hide Plus, Nothing;
    if d < end {
      NoHours(d, end - HOUR, key);
      PlusNothing(Nothing());
    }
  }

  lemma {:induction false} DayGroupsGrow(groups: map<Key, Row>, part: map<Slot, Row>, s: Slot, row: Row, d: int)
    requires AreDayGroups(groups, part, d) && Sound(part) && s !in part && OnGrid(d, 0, Days)
    requires Consistent(row) && row.requests > 0 && OnGrid(s.bucket, 0, Hours) && d <= s.bucket < d + DAY
    ensures AreDayGroups(Added(groups, s.key, row), part[s := row], d)
  {
    hide IsGroup, Added, Consistent, OnGrid, Plus, HoursSum;
    DayOnHours(d);
    DayOnHours(d + DAY);
    var next, more := Added(groups, s.key, row), part[s := row];
    forall key
      ensures IsGroup(next, key, DaySum(more, d, key))
    {
      HourRead(part, s, row, d, d + DAY, key);
      HoursSumConsistent(part, d, d + DAY, key);
      if key == s.key {
        GroupAdds(groups, key, DaySum(part, d, key), row);
      } else {
        OtherGroupStays(groups, s.key, row, key, DaySum(part, d, key));
      }
    }
  }

  lemma {:induction false} SameHours(part: map<Slot, Row>, hourly: map<Slot, Row>, d: int, end: int, limit: int,
                                     key: Key)
    requires forall s: Slot :: d <= s.bucket < limit ==> Same(part, hourly, s)
    requires end <= limit && OnGrid(d, 0, Hours) && OnGrid(end, 0, Hours)
    ensures HoursSum(part, d, end, key) == HoursSum(hourly, d, end, key)
    decreases end - d
  {
    hide Plus, OnGrid, Nothing;
    if d < end {
      var s := Slot(end - HOUR, key);
      GridNext(end - HOUR, 0, Hours);
      GridBefore(d, end, Hours);
      assert Same(part, hourly, s);
      SameHours(part, hourly, d, end - HOUR, limit, key);
    }
  }

  /** The grouping loop over one day's hourly rows, in whatever order they come. */
  method GroupHours(hourly: map<Slot, Row>, d: int) returns (groups: map<Key, Row>)
    requires Sound(hourly) && OnGrid(d, 0, Days)
    ensures AreDayGroups(groups, hourly, d)
  {
    hide AreDayGroups, Added, Consistent, OnGrid, Floor;
    groups := map[];
    NoDayGroups(d);
    var todo := set s | s in hourly && d <= s.bucket < d + DAY;
    ghost var part: map<Slot, Row> := map[];
    while todo != {}
      invariant forall s :: s in todo ==> s in hourly && d <= s.bucket < d + DAY
      invariant forall s :: s in part ==> s in hourly && part[s] == hourly[s] && s !in todo
      invariant forall s :: s in hourly && d <= s.bucket < d + DAY ==> s in part || s in todo
      invariant AreDayGroups(groups, part, d)
      decreases |todo|
    {
      var s :| s in todo;
      DayGroupsGrow(groups, part, s, hourly[s], d);
      groups := Added(groups, s.key, hourly[s]);
      part := part[s := hourly[s]];
      todo := todo - {s};
    }
    DayGroupsDone(groups, part, hourly, d);
  }

  lemma {:induction false} DayGroupsDone(groups: map<Key, Row>, part: map<Slot, Row>, hourly: map<Slot, Row>, d: int)
    requires AreDayGroups(groups, part, d) && OnGrid(d, 0, Days)
    requires forall s :: s in part ==> s in hourly && part[s] == hourly[s]
    requires forall s :: s in hourly && d <= s.bucket < d + DAY ==> s in part
    ensures AreDayGroups(groups, hourly, d)
  {
    hide IsGroup, HoursSum, OnGrid;
    DayOnHours(d);
    DayOnHours(d + DAY);
    forall key
      ensures IsGroup(groups, key, DaySum(hourly, d, key))
    {
      SameHours(part, hourly, d, d + DAY, d + DAY, key);
      assert IsGroup(groups, key, DaySum(part, d, key));
    }
  }

  // ---------------------------------------------------------------- days out of closed hours

  /** The requests before `closed`. */
  function Past(all: seq<Request>, closed: int): seq<Request>
    decreases |all|
  {
    if all == [] then []
    else
      var n := |all| - 1;
      if all[n].ts < closed then Past(all[..n], closed) + [all[n]] else Past(all[..n], closed)
  }

  lemma {:induction false} InPast(all: seq<Request>, closed: int)
    ensures forall r :: r in Past(all, closed) <==> r in all && r.ts < closed
    decreases |all|
  {
    if all != [] {
      var n := |all| - 1;
      InPast(all[..n], closed);
      assert forall r :: r in all <==> r in all[..n] || r == all[n];
    }
  }

  lemma PastLast(all: seq<Request>, closed: int)
    requires all != []
    ensures var n := |all| - 1;
            Past(all, closed) ==
            if all[n].ts < closed then Past(all[..n], closed) + [all[n]] else Past(all[..n], closed)
  {
  }

  lemma {:induction false} TotalPast(all: seq<Request>, closed: int, from: int, end: int, key: Key)
    ensures Total(Past(all, closed), from, end, key) == Total(all, from, Min(end, closed), key)
    decreases |all|
  {
    if all != [] {
      var n := |all| - 1;
      TotalPast(all[..n], closed, from, end, key);
      PastLast(all, closed);
      TotalLast(all, from, Min(end, closed), key);
      hide Plus, Past, Total;
      if all[n].ts < closed {
        TotalSnoc(Past(all[..n], closed), all[n], from, end, key);
        assert Part(all[n], from, end, key) == Part(all[n], from, Min(end, closed), key);
      } else {
        NoPart(all[n], from, Min(end, closed), key);
        PlusNothing(Total(all[..n], from, Min(end, closed), key));
      }
    }
  }

  /** A day's groups are the sums of its requests in closed hours. */
  lemma {:induction false} DayGroupsArePast(groups: map<Key, Row>, hourly: map<Slot, Row>, all: seq<Request>,
                                            closed: int, d: int)
    requires AreDayGroups(groups, hourly, d) && Right(hourly, all, closed, Hours) && OnGrid(d, 0, Days)
    ensures AreGroups(groups, Past(all, closed), d, d + DAY)
  {
    hide IsGroup, HoursSum, OnGrid, Right, Past, Total;
    DayOnHours(d);
    DayOnHours(d + DAY);
    var end := d + DAY;
    forall key
      ensures IsGroup(groups, key, Total(Past(all, closed), d, end, key))
    {
      HoursSumIs(hourly, all, closed, d, end, key);
      TotalPast(all, closed, d, end, key);
      assert IsGroup(groups, key, DaySum(hourly, d, key));
    }
  }

  /** The requests since `closed` do not matter to the day's row. */
  ghost predicate SameTotal(all: seq<Request>, closed: int, s: Slot) {
    Total(Past(all, closed), s.bucket, s.bucket + DAY, s.key) == Total(all, s.bucket, s.bucket + DAY, s.key)
  }

  /** As long as a day lies before `closed`, the requests since then do not matter to it. */
  lemma {:induction false} RightPast(daily: map<Slot, Row>, all: seq<Request>, closed: int, next: int)
    requires next <= closed
    ensures Right(daily, all, next, Days) <==> Right(daily, Past(all, closed), next, Days)
  {
    hide Total, Past, IsRow;
    if OnGrid(next, 0, Days) {
      forall b, key | b < next && OnGrid(b, 0, Days)
        ensures SameTotal(all, closed, Slot(b, key))
      {
        TotalPast(all, closed, b, b + DAY, key);
        GridBefore(b, next, Days);
      }
    }
  }

  /** Days rolled up before their last hours are short of exactly the requests of those. */
  ghost predicate NoneBetween(all: seq<Request>, closed: int, next: int) {
    forall r :: r in all ==> !(closed <= r.ts < next)
  }

  lemma {:induction false} DaysRightIff(daily: map<Slot, Row>, all: seq<Request>, closed: int, next: int)
    requires Right(daily, Past(all, closed), next, Days)
    ensures Right(daily, all, next, Days) <==> NoneBetween(all, closed, next)
  {
    hide Total, Past, IsRow, OnGrid;
    if NoneBetween(all, closed, next) {
      forall b, key | b < next && OnGrid(b, 0, Days)
        ensures SameTotal(all, closed, Slot(b, key))
      {
        GridBefore(b, next, Days);
        NoneMissing(all, closed, b, next, key);
      }
    } else {
      var r :| r in all && closed <= r.ts < next;
      var b := Floor(r.ts, Days);
      FloorIs(r.ts, Days);
      OneMissing(all, closed, r, b);
      var s := Slot(b, r.key);
      assert b < next && OnGrid(b, 0, Days) && IsRow(daily, s, Total(Past(all, closed), b, b + DAY, r.key));
      RowsDiffer(daily, s, Total(Past(all, closed), b, b + DAY, r.key), Total(all, b, b + DAY, r.key));
    }
  }

  lemma RowsDiffer(daily: map<Slot, Row>, s: Slot, t: Row, u: Row)
    requires IsRow(daily, s, t) && 0 <= t.requests < u.requests
    ensures !IsRow(daily, s, u)
  {
  }

  lemma {:induction false} NoneMissing(all: seq<Request>, closed: int, b: int, next: int, key: Key)
    requires NoneBetween(all, closed, next) && b + DAY <= next
    ensures Total(Past(all, closed), b, b + DAY, key) == Total(all, b, b + DAY, key)
  {
    var end := b + DAY;
    TotalPast(all, closed, b, end, key);
    hide Total, Past, Plus;
    if closed < end {
      var from := if closed < b then b else closed;
      NoneIn(all, from, end, key);
      TotalIsNothing(all, from, end, key);
      if closed < b {
        TotalOfNoTime(all, b, closed, key);
      } else {
        TotalSplits(all, b, closed, end, key);
        PlusNothing(Total(all, b, closed, key));
      }
    }
  }

  lemma {:induction false} TotalIsNothing(all: seq<Request>, from: int, end: int, key: Key)
    requires Total(all, from, end, key).requests == 0
    ensures Total(all, from, end, key) == Nothing()
  {
    TotalConsistent(all, from, end, key);
    EmptyRow(Total(all, from, end, key));
  }

  lemma {:induction false} OneCounted(all: seq<Request>, r: Request, from: int, end: int)
    requires r in all && from <= r.ts < end
    ensures Total(all, from, end, r.key).requests > 0
  {
    assert Counts(r, from, end, r.key);
    TotalConsistent(all, from, end, r.key);
    hide Total;
  }

  lemma {:induction false} NotNegative(all: seq<Request>, from: int, end: int, key: Key)
    ensures Total(all, from, end, key).requests >= 0
  {
    TotalConsistent(all, from, end, key);
    hide Total, Seen;
  }

  lemma {:induction false} OneMissing(all: seq<Request>, closed: int, r: Request, b: int)
    requires r in all && closed <= r.ts && b <= r.ts < b + DAY
    ensures 0 <= Total(Past(all, closed), b, b + DAY, r.key).requests < Total(all, b, b + DAY, r.key).requests
  {
    hide Total, Past, Plus, Nothing;
    var key, end := r.key, b + DAY;
    TotalPast(all, closed, b, end, key);
    NotNegative(Past(all, closed), b, end, key);
    if closed < b {
      OneCounted(all, r, b, end);
      TotalOfNoTime(all, b, closed, key);
      NothingIsZero();
    } else {
      OneCounted(all, r, closed, end);
      TotalSplits(all, b, closed, end, key);
      PlusRequests(Total(all, b, closed, key), Total(all, closed, end, key));
    }
  }

  lemma PlusRequests(a: Row, b: Row)
    ensures Plus(a, b).requests == a.requests + b.requests
  {
  }

  lemma NothingIsZero()
    ensures Nothing().requests == 0
  {
  }

  lemma {:induction false} DaysStart(daily: map<Slot, Row>, hourly: map<Slot, Row>, all: seq<Request>, closed: int,
                                     closedDay: int)
    requires Right(hourly, all, closed, Hours) && Right(daily, all, closedDay, Days) && closedDay <= closed
    requires forall r :: r in all ==> DAY <= r.ts
    ensures match StartOf(daily, Buckets(hourly), Days)
            case Some(from) => IsStart(from, daily, Past(all, closed), closedDay, Days)
            case None => daily == map[] && Past(all, closed) == []
  {
    InPast(all, closed);
    RightPast(daily, all, closed, closedDay);
    hide Past, Total, Right, OnGrid, Floor;
    StartBehind(daily, Past(all, closed), closedDay, Days);
    var oldest := MinOrZero(Buckets(hourly));
    forall r | r in Past(all, closed)
      ensures oldest != 0 && oldest <= r.ts
    {
      HasHour(hourly, all, closed, r);
      assert Slot(Floor(r.ts, Hours), r.key).bucket in Buckets(hourly);
      BucketsPositive(hourly, all, closed);
    }
    FloorIs(oldest, Days);
    if oldest != 0 {
      HoursFromDay(hourly, all, closed, oldest);
    }
    assert Past(all, closed) != [] ==> Past(all, closed)[0] in Past(all, closed);
  }

  lemma {:induction false} HasHour(hourly: map<Slot, Row>, all: seq<Request>, closed: int, r: Request)
    requires Right(hourly, all, closed, Hours) && r in all && r.ts < closed
    ensures Slot(Floor(r.ts, Hours), r.key) in hourly && Floor(r.ts, Hours) <= r.ts
  {
    var b := Floor(r.ts, Hours);
    FloorIs(r.ts, Hours);
    assert Counts(r, b, b + HOUR, r.key);
    TotalConsistent(all, b, b + HOUR, r.key);
    hide Total, OnGrid, Floor;
    assert IsRow(hourly, Slot(b, r.key), Total(all, b, b + HOUR, r.key));
  }

  lemma BucketsPositive(hourly: map<Slot, Row>, all: seq<Request>, closed: int)
    requires Right(hourly, all, closed, Hours)
    ensures forall b :: b in Buckets(hourly) ==> b > 0
  {
    hide Total, IsRow, OnGrid;
  }

  /** Hourly rows begin after the first day. */
  lemma {:induction false} HoursFromDay(hourly: map<Slot, Row>, all: seq<Request>, closed: int, b: int)
    requires Right(hourly, all, closed, Hours) && b in Buckets(hourly) && forall r :: r in all ==> DAY <= r.ts
    ensures b >= DAY
  {
    var s :| s in hourly && s.bucket == b;
    assert s == Slot(b, s.key);
    TotalConsistent(all, b, b + HOUR, s.key);
    hide Total, OnGrid;
    assert IsRow(hourly, s, Total(all, b, b + HOUR, s.key));
    var r :| r in all && Counts(r, b, b + HOUR, s.key);
    DayGrid(b, r.ts);
  }

  lemma DayGrid(b: int, t: int)
    requires DAY <= t < b + HOUR && b % HOUR == 0
    ensures b >= DAY
  {
  }
}
