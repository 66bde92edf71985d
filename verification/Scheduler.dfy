/** The background jobs on the statistics tables, in every order they may run in
    (`scheduler.go`). */
module Scheduler {
  import opened Options
  import opened Totals
  import opened Rollup

  class StatsDb {
    var raw: seq<Request>        // `requests`
    var hourly: map<Slot, Row>   // `stats_hourly`
    var daily: map<Slot, Row>    // `stats_daily`
    ghost var all: seq<Request>  // every request ever inserted
    ghost var closed: int        // the hours before this time are rolled up
    ghost var closedDay: int     // and so are the days before this one
    ghost var clock: int         // the latest time seen

    /** Each closed hour's rows are the sums over all requests ever inserted in it, and the
        requests since then are all still there. */
    ghost predicate Valid()
      reads this
    {
      && 0 <= closed <= clock && Right(hourly, all, closed, Hours) && Kept(raw, all, closed)
      && (forall r :: r in all ==> DAY <= r.ts <= clock)
    }

    /** Each closed day's rows are the sums over all requests ever inserted in it. */
    ghost predicate DaysValid()
      reads this
    {
      0 <= closedDay <= closed && Right(daily, all, closedDay, Days)
    }

    constructor ()
      ensures Valid() && DaysValid() && raw == [] && hourly == map[] && daily == map[] && all == []
      ensures closed == closedDay == clock == 0
    {
      raw, hourly, daily, all, closed, closedDay, clock := [], map[], map[], [], 0, 0, 0;
      new;
      NothingRight(Hours);
      NothingRight(Days);
    }

    /** `insertRequest`, at the current time. */
    method Insert(r: Request)
      modifies this`raw, this`all, this`clock
      ensures raw == old(raw) + [r] && all == old(all) + [r] && clock == r.ts
      ensures old(Valid() && DaysValid()) && old(clock) <= r.ts && DAY <= r.ts ==> Valid() && DaysValid()
    {
      hide Right, Kept;
      raw, all, clock := raw + [r], all + [r], r.ts;
      if old(Valid() && DaysValid()) && old(clock) <= r.ts && DAY <= r.ts {
        InsertKept(old(raw), old(all), closed, r);
        InsertRight(hourly, old(all), closed, r, Hours);
        InsertRight(daily, old(all), closedDay, r, Days);
      }
    }

    // -------------------------------------------------------------- hours

    /** `aggregateBucket` for an hour. */
    method AggregateHour(b: int)
      modifies this`hourly
      ensures IsCaughtUp(hourly, old(hourly), raw, b, b, {}, Hours)
    {
      hide IsCaughtUp, AreGroups, IsUpserted;
      var groups := GroupRequests(raw, b, b + HOUR);
      hourly := Upsert(hourly, b, groups);
      BucketWritten(hourly, old(hourly), raw, b, groups, Hours);
    }

    /** The loop of `aggregateHourlyCatchup`; a bucket in `missed` is one whose query fails. */
    method AggregateHours(from: int, target: int, missed: set<int>)
      modifies this`hourly
      ensures IsCaughtUp(hourly, old(hourly), raw, from, target, missed, Hours)
    {
      hide IsCaughtUp, OnGrid;
      GridNext(from, from, Hours);
      var b := from;
      NothingYet(hourly, raw, from, from - HOUR, missed, Hours);
      while b <= target
        invariant from <= b && OnGrid(b, from, Hours) && (b <= target + HOUR || b == from)
        invariant IsCaughtUp(hourly, old(hourly), raw, from, b - HOUR, missed, Hours)
      {
        ghost var before := hourly;
        if b !in missed {
          AggregateHour(b);
          NextBucket(hourly, before, old(hourly), raw, from, b, missed, Hours);
        } else {
          NoBucket(hourly, old(hourly), raw, from, b, missed, Hours);
        }
        GridNext(b, from, Hours);
        b := b + HOUR;
      }
      UpTo(hourly, old(hourly), raw, from, b - HOUR, target, missed, Hours);
    }

    /** `aggregateHourlyCatchup`. */
    method HourlyCatchup(now: int, missed: set<int>)
      modifies this`hourly
      ensures var from := StartOf(old(hourly), Times(raw), Hours);
              if from.None? then hourly == old(hourly)
              else IsCaughtUp(hourly, old(hourly), raw, from.value, Floor(now, Hours) - HOUR, missed, Hours)
    {
      hide IsCaughtUp, MaxOrZero, MinOrZero, Buckets, Times;
      var last := MaxOrZero(Buckets(hourly));
      var target := Floor(now, Hours) - HOUR;
      if last == 0 {
        var minTs := MinOrZero(Times(raw));
        if minTs == 0 {
          return;
        }
        last := Floor(minTs, Hours) - HOUR;
      }
      AggregateHours(last + HOUR, target, missed);
    }

    /** The catch-up with every query answered: all hours up to now are closed, and doing it again
        within the hour changes nothing. */
    method HourlyTick(now: int)
      requires Valid() && DaysValid() && clock <= now && DAY <= now
      modifies this`hourly, this`closed, this`clock
      ensures Valid() && DaysValid() && closed == Floor(now, Hours) && clock == now
      ensures old(closed) == Floor(now, Hours) ==> hourly == old(hourly)
    {
      hide Right, Kept, IsCaughtUp, StartOf, Floor, OnGrid, IsStart;
      HourlyCatchup(now, {});
      FloorIs(now, Hours);
      ClosedOnGrid(old(hourly), all, closed, Hours);
      FloorIsLast(closed, now, Hours);
      HoursStart(old(hourly), raw, all, closed);
      KeptLater(raw, all, closed, Floor(now, Hours));
      match StartOf(old(hourly), Times(raw), Hours) {
        case None => IdleRight(all, closed, Floor(now, Hours), Hours);
        case Some(from) => CaughtUpRight(hourly, old(hourly), raw, all, from, closed, Floor(now, Hours), Hours);
      }
      closed, clock := Floor(now, Hours), now;
    }

    // -------------------------------------------------------------- days

    /** `aggregateBucket` for a day: the sum of the hourly rows is the sum of the requests in
        closed hours. */
    method AggregateDay(d: int)
      requires Valid() && OnGrid(d, 0, Days)
      modifies this`daily
      ensures IsCaughtUp(daily, old(daily), Past(all, closed), d, d, {}, Days)
    {
      hide IsCaughtUp, AreGroups, AreDayGroups, IsUpserted, Right, Kept, Past, OnGrid, Sound;
      RightIsSound(hourly, all, closed);
      var groups := GroupHours(hourly, d);
      daily := Upsert(daily, d, groups);
      DayGroupsArePast(groups, hourly, all, closed, d);
      BucketWritten(daily, old(daily), Past(all, closed), d, groups, Days);
    }

    method AggregateDays(from: int, target: int)
      requires Valid() && OnGrid(from, 0, Days)
      modifies this`daily
      ensures IsCaughtUp(daily, old(daily), Past(all, closed), from, target, {}, Days)
    {
      hide IsCaughtUp, OnGrid, Right, Kept, Past;
      GridNext(from, from, Days);
      var d := from;
      ghost var past := Past(all, closed);
      NothingYet(daily, past, from, from - DAY, {}, Days);
      while d <= target
        invariant from <= d && OnGrid(d, from, Days) && OnGrid(d, 0, Days) && (d <= target + DAY || d == from)
        invariant Valid() && past == Past(all, closed)
        invariant IsCaughtUp(daily, old(daily), past, from, d - DAY, {}, Days)
      {
        ghost var before := daily;
        AggregateDay(d);
        NextBucket(daily, before, old(daily), past, from, d, {}, Days);
        GridNext(d, from, Days);
        GridNext(d, 0, Days);
        d := d + DAY;
      }
      UpTo(daily, old(daily), past, from, d - DAY, target, {}, Days);
    }

    /** `aggregateDailyCatchup`. The days it closes are right exactly if no request came in between
        the last closed hour and midnight; done again within the day it changes nothing. */
    method DailyTick(now: int)
      requires Valid() && DaysValid() && clock <= now && DAY <= now
      modifies this`daily, this`closedDay, this`clock
      ensures Valid() && clock == now
      ensures Right(daily, all, Floor(now, Days), Days) <==> NoneBetween(all, closed, Floor(now, Days))
      ensures Floor(now, Days) <= closed ==> DaysValid() && closedDay == Floor(now, Days)
      ensures old(closedDay) == Floor(now, Days) ==> daily == old(daily)
    {
      hide Right, Kept, IsCaughtUp, StartOf, Floor, OnGrid, IsStart, Past, NoneBetween;
      ghost var past, next := Past(all, closed), Floor(now, Days);
      FloorIs(now, Days);
      ClosedOnGrid(daily, all, closedDay, Days);
      FloorIsLast(closedDay, now, Days);
      DaysStart(daily, hourly, all, closed, closedDay);
      RightPast(daily, all, closed, closedDay);
      DailyCatchup(now);
      AllKept(past, closedDay);
      match StartOf(old(daily), Buckets(hourly), Days) {
        case None => IdleRight(past, closedDay, next, Days);
        case Some(from) => CaughtUpRight(daily, old(daily), past, past, from, closedDay, next, Days);
      }
      DaysRightIff(daily, all, closed, next);
      clock := now;
      if Floor(now, Days) <= closed {
        NoneBetweenNow(all, closed, next);
        closedDay := next;
      }
    }

    method DailyCatchup(now: int)
      requires Valid() && DaysValid()
      modifies this`daily
      ensures var from := StartOf(old(daily), Buckets(hourly), Days);
              if from.None? then daily == old(daily)
              else IsCaughtUp(daily, old(daily), Past(all, closed), from.value, Floor(now, Days) - DAY, {}, Days)
    {
      hide IsCaughtUp, MaxOrZero, MinOrZero, Buckets, OnGrid, Right, Kept, Past, IsStart;
      StartBehind(daily, all, closedDay, Days);
      var last := MaxOrZero(Buckets(daily));
      var target := Floor(now, Days) - DAY;
      if last == 0 {
        var oldest := MinOrZero(Buckets(hourly));
        if oldest == 0 {
          return;
        }
        FloorIs(oldest, Days);
        GridNext(Floor(oldest, Days) - DAY, 0, Days);
        last := Floor(oldest, Days) - DAY;
      } else {
        StartOnGrid(last + DAY, daily, all, closedDay);
      }
      AggregateDays(last + DAY, target);
    }

    // -------------------------------------------------------------- retention

    /** The deletion of `retentionSweep`. It loses nothing exactly if all it deletes was rolled up
        before. */
    method RetentionSweep(now: int, days: int)
      modifies this`raw, this`clock
      ensures clock == now && raw == if days <= 0 then old(raw) else Since(old(raw), now - days * DAY)
      ensures old(Valid()) && old(clock) <= now ==>
                (Valid() <==> days <= 0 || NoneLost(old(raw), now - days * DAY, closed))
    {
      hide Right, Kept, NoneLost, Since;
      clock := now;
      if days <= 0 {
        return;
      }
      var cutoff := now - days * DAY;
      raw := Since(raw, cutoff);
      if old(Valid()) {
        SweepKeeps(old(raw), all, closed, cutoff);
      }
    }

    /** The jobs in the order they run at start-up: nothing is lost, whatever the retention. */
    method Boot(now: int, days: int)
      requires Valid() && DaysValid() && clock <= now && DAY <= now
      modifies this
      ensures Valid() && DaysValid() && clock == now && all == old(all)
      ensures closed == Floor(now, Hours) && closedDay == Floor(now, Days)
    {
      hide Right, Kept, Floor, Since, NoneLost, NoneBetween;
      DayBeforeHour(now);
      HourlyTick(now);
      DailyTick(now);
      SweptBehind(raw, now - days * DAY, closed);
      if days > 0 {
        DaysAgo(now, days);
      }
      RetentionSweep(now, days);
    }

    // -------------------------------------------------------------- an hour whose query failed

    /** An hour `b` whose query fails in any number of catch-ups, among any insertions and deletions,
        until `now` brings the first one in which it is answered. Then its rows are the sums over
        the requests still there, exactly if none of those catch-ups wrote a row of a later hour;
        otherwise it has no rows. Either way that is final: whatever comes after, the rows of that
        hour stay as they are. */
    method FailedHour(b: int, before: seq<Op>, now: int, missed: set<int>, after: seq<Op>)
      requires Valid() && closed <= b && 0 < b < Floor(now, Hours) && OnGrid(b, 0, Hours) && b !in missed
      requires forall op :: op in before ==> (op.Catchup? ==> b in op.missed) && (op.Put? ==> DAY <= op.r.ts)
      requires forall op :: op in after && op.Put? ==> b + HOUR <= op.r.ts
      modifies this
      ensures var was, lost := RawAfter(old(raw), before), Overtaken(old(raw), b, before);
              && (forall key :: Seen(was, b, b + HOUR, key) ==> (Slot(b, key) in hourly <==> !lost))
              && (forall key ::
                    IsRow(hourly, Slot(b, key), if lost then Nothing() else Total(was, b, b + HOUR, key)))
    {
      hide Right, Kept, Seen, OnGrid, Floor, StartOf, IsCaughtUp, Total, Overtakes, IsRow, SettledBy, Buckets, Times,
           Ended, LeftOut, RawStep;
      NothingLeftOut(hourly, all, closed, b);
      KeptThere(raw, all, closed);
      for i := 0 to |before|
        invariant raw == RawAfter(old(raw), before[..i]) && forall r :: r in raw ==> DAY <= r.ts
        invariant LeftOut(hourly, b, Overtaken(old(raw), b, before[..i]))
      {
        assert before[..i + 1][..i] == before[..i];
        DoWithout(before[i], b, Overtaken(old(raw), b, before[..i]));
      }
      assert before[..|before|] == before;
      ghost var was, lost, mid := raw, Overtaken(old(raw), b, before), hourly;
      HourlyCatchup(now, missed);
      Answered(hourly, mid, was, now, missed, b, lost);
      for i := 0 to |after|
        invariant Ended(hourly, was, b, lost) && SettledBy(hourly, raw, b)
      {
        Do(after[i], b, was, lost);
      }
      EndedIs(hourly, was, b, lost);
    }

    /** One step before the query for `b` is answered. */
    method DoWithout(op: Op, ghost b: int, ghost lost: bool)
      requires LeftOut(hourly, b, lost) && forall r :: r in raw ==> DAY <= r.ts
      requires 0 < b && OnGrid(b, 0, Hours) && (op.Catchup? ==> b in op.missed) && (op.Put? ==> DAY <= op.r.ts)
      modifies this
      ensures raw == RawStep(old(raw), op) && forall r :: r in raw ==> DAY <= r.ts
      ensures LeftOut(hourly, b, lost || Overtakes(op, old(raw), b))
    {
      hide StartOf, IsCaughtUp, LeftOut, Floor, OnGrid;
      match op
      case Put(r) => Insert(r);
      case Catchup(now, missed) =>
        HourlyCatchup(now, missed);
        MissedPass(hourly, old(hourly), raw, now, missed, b, lost);
      case Delete(now, days) => RetentionSweep(now, days);
    }

    /** And one after it. */
    method Do(op: Op, ghost b: int, ghost was: seq<Request>, ghost lost: bool)
      requires Ended(hourly, was, b, lost) && SettledBy(hourly, raw, b) && (op.Put? ==> b + HOUR <= op.r.ts)
      modifies this
      ensures Ended(hourly, was, b, lost) && SettledBy(hourly, raw, b)
    {
      hide Since, StartOf, IsCaughtUp, SettledBy, Ended, Floor;
      match op
      case Put(r) =>
        Insert(r);
        SettledInsert(hourly, old(raw), b, r);
      case Catchup(now, missed) =>
        HourlyCatchup(now, missed);
        SettledCatchup(hourly, old(hourly), raw, now, missed, b, was, lost);
      case Delete(now, days) =>
        RetentionSweep(now, days);
        SettledSweep(hourly, old(raw), raw, b);
    }
  }

  /** What can happen to the hourly rows; a daily roll-up does not touch them. */
  datatype Op = Put(r: Request) | Catchup(now: int, missed: set<int>) | Delete(now: int, days: int)

  /** The requests that are there after one step, and after several. */
  function RawStep(raw: seq<Request>, op: Op): seq<Request> {
    match op
    case Put(r) => raw + [r]
    case Catchup(_, _) => raw
    case Delete(now, days) => if days <= 0 then raw else Since(raw, now - days * DAY)
  }

  function RawAfter(raw: seq<Request>, ops: seq<Op>): seq<Request>
    decreases |ops|
  {
    if ops == [] then raw else RawStep(RawAfter(raw, ops[..|ops| - 1]), ops[|ops| - 1])
  }

  /** An hour behind `b` that the catch-up at `now` reached, that had requests, and whose own query
      was answered. */
  ghost predicate IsLater(later: Slot, raw: seq<Request>, b: int, now: int, missed: set<int>) {
    && b < later.bucket < Floor(now, Hours) && OnGrid(later.bucket, b, Hours) && later.bucket !in missed
    && Seen(raw, later.bucket, later.bucket + HOUR, later.key)
  }

  ghost predicate Overtakes(op: Op, raw: seq<Request>, b: int) {
    op.Catchup? && exists later: Slot :: IsLater(later, raw, b, op.now, op.missed)
  }

  /** Some catch-up of the run overtakes the hour `b`. */
  ghost predicate Overtaken(raw: seq<Request>, b: int, ops: seq<Op>)
    decreases |ops|
  {
    && ops != []
    && var init := ops[..|ops| - 1];
       (Overtaken(raw, b, init) || Overtakes(ops[|ops| - 1], RawAfter(raw, init), b))
  }

  /** The rows of the hour `b` are those of the requests in `was`, or lost. */
  ghost predicate Ended(table: map<Slot, Row>, was: seq<Request>, b: int, lost: bool) {
    forall key :: IsRow(table, Slot(b, key), if lost then Nothing() else Total(was, b, b + HOUR, key))
  }

  ghost predicate RowFrom(table: map<Slot, Row>, b: int) {
    exists s :: s in table && s.bucket >= b
  }

  /** No catch-up will change the rows of the hour `b` any more. */
  ghost predicate SettledBy(table: map<Slot, Row>, raw: seq<Request>, b: int) {
    0 < b && (RowFrom(table, b) || forall r :: r in raw ==> !(b <= r.ts < b + HOUR))
  }

  /** There is no row for the hour `b`, and it is lost if there is one for a later hour. */
  ghost predicate LeftOut(table: map<Slot, Row>, b: int, lost: bool) {
    && (forall s :: s in table ==> 0 < s.bucket != b && OnGrid(s.bucket, 0, Hours))
    && (lost <==> RowFrom(table, b))
  }

  lemma NothingLeftOut(table: map<Slot, Row>, all: seq<Request>, closed: int, b: int)
    requires Right(table, all, closed, Hours) && closed <= b
    ensures LeftOut(table, b, false)
  {
    hide OnGrid, IsRow, Total;
  }

  lemma {:induction false} MissedPass(table: map<Slot, Row>, mid: map<Slot, Row>, raw: seq<Request>, now: int,
                                      missed: set<int>, b: int, lost: bool)
    requires LeftOut(mid, b, lost) && CaughtUpFrom(table, mid, raw, now, missed)
    requires 0 < b && OnGrid(b, 0, Hours) && b in missed && forall r :: r in raw ==> DAY <= r.ts
    ensures LeftOut(table, b, lost || Overtakes(Catchup(now, missed), raw, b))
  {
    hide Total, OnGrid, Floor, StartOf, Seen, CaughtUpFrom, Times;
    forall s | s in table
      ensures 0 < s.bucket != b && OnGrid(s.bucket, 0, Hours)
      ensures s.bucket > b ==> lost || IsLater(s, raw, b, now, missed)
    {
      OneLeft(s, table, mid, raw, now, missed, b);
    }
    if lost {
      BehindStart(table, mid, raw, now, missed, b);
    } else {
      forall later: Slot | IsLater(later, raw, b, now, missed)
        ensures later in table && later.bucket >= b
      {
        LaterIn(later, table, mid, raw, now, missed, b);
      }
    }
  }

  lemma {:induction false} LaterIn(later: Slot, table: map<Slot, Row>, mid: map<Slot, Row>, raw: seq<Request>, now: int,
                                   missed: set<int>, b: int)
    requires IsLater(later, raw, b, now, missed) && CaughtUpFrom(table, mid, raw, now, missed)
    requires forall s :: s in mid ==> 0 < s.bucket < b && OnGrid(s.bucket, 0, Hours)
    requires 0 < b && OnGrid(b, 0, Hours) && forall r :: r in raw ==> DAY <= r.ts
    ensures later in table && later.bucket >= b
  {
    hide Total, OnGrid, Floor, StartOf, Seen, CaughtUpFrom, Times;
    SameGrids(later.bucket, b, 0);
    FloorIs(now, Hours);
    GridBefore(later.bucket, Floor(now, Hours), Hours);
    FilledIn(table, mid, raw, now, missed, later.bucket, later.key);
    TotalConsistent(raw, later.bucket, later.bucket + HOUR, later.key);
  }

  lemma {:induction false} OneLeft(s: Slot, table: map<Slot, Row>, mid: map<Slot, Row>, raw: seq<Request>, now: int,
                                   missed: set<int>, b: int)
    requires s in table && CaughtUpFrom(table, mid, raw, now, missed)
    requires forall t :: t in mid ==> 0 < t.bucket != b && OnGrid(t.bucket, 0, Hours)
    requires OnGrid(b, 0, Hours) && b in missed && forall r :: r in raw ==> DAY <= r.ts
    ensures 0 < s.bucket != b && OnGrid(s.bucket, 0, Hours)
    ensures s.bucket > b && s !in mid ==> IsLater(s, raw, b, now, missed)
  {
    hide Total, OnGrid, Floor, Seen, StartOf, CaughtUpFrom, Times;
    if s !in mid {
      StartGrid(mid, raw);
      CaughtUpFromAt(table, mid, raw, now, missed, s);
      TotalConsistent(raw, s.bucket, s.bucket + HOUR, s.key);
      SameGrids(s.bucket, StartOf(mid, Times(raw), Hours).value, 0);
      SameGrids(s.bucket, b, 0);
    }
  }

  lemma SameGrids(a: int, b: int, from: int)
    requires OnGrid(b, from, Hours)
    ensures OnGrid(a, b, Hours) == OnGrid(a, from, Hours)
  {
  }

  lemma {:induction false} StartAfter(table: map<Slot, Row>, source: set<int>, later: Slot)
    requires later in table && later.bucket > 0
    ensures var from := StartOf(table, source, Hours); from.Some? && from.value > later.bucket
  {
    assert later.bucket in Buckets(table);
  }

  /** A catch-up that finds rows of the hour `b` or behind it leaves that hour alone. */
  lemma {:induction false} BehindStart(table: map<Slot, Row>, before: map<Slot, Row>, raw: seq<Request>, now: int,
                                       missed: set<int>, b: int)
    requires 0 < b && RowFrom(before, b) && CaughtUpFrom(table, before, raw, now, missed)
    ensures RowFrom(table, b) && forall key :: Same(table, before, Slot(b, key))
  {
    hide Total, OnGrid, StartOf, Floor, CaughtUpFrom, Times;
    var s :| s in before && s.bucket >= b;
    StartAfter(before, Times(raw), s);
    CaughtUpFromAt(table, before, raw, now, missed, s);
    forall key
      ensures Same(table, before, Slot(b, key))
    {
      CaughtUpFromAt(table, before, raw, now, missed, Slot(b, key));
    }
  }

  lemma CaughtUpAt(table: map<Slot, Row>, before: map<Slot, Row>, raw: seq<Request>, from: int, target: int,
                   missed: set<int>, s: Slot)
    requires IsCaughtUp(table, before, raw, from, target, missed, Hours)
    ensures var t := Total(raw, s.bucket, s.bucket + HOUR, s.key);
            if from <= s.bucket <= target && OnGrid(s.bucket, from, Hours) && s.bucket !in missed && t.requests > 0
            then s in table && table[s] == t
            else Same(table, before, s)
  {
    hide Total, OnGrid, Same;
  }

  /** What `HourlyCatchup` does. */
  ghost predicate CaughtUpFrom(table: map<Slot, Row>, before: map<Slot, Row>, raw: seq<Request>, now: int,
                               missed: set<int>) {
    var from := StartOf(before, Times(raw), Hours);
    if from.None? then table == before
    else IsCaughtUp(table, before, raw, from.value, Floor(now, Hours) - HOUR, missed, Hours)
  }

  lemma CaughtUpFromAt(table: map<Slot, Row>, before: map<Slot, Row>, raw: seq<Request>, now: int, missed: set<int>,
                       s: Slot)
    requires CaughtUpFrom(table, before, raw, now, missed)
    ensures var from := StartOf(before, Times(raw), Hours);
            var t := Total(raw, s.bucket, s.bucket + HOUR, s.key);
            if && from.Some? && from.value <= s.bucket <= Floor(now, Hours) - HOUR
               && OnGrid(s.bucket, from.value, Hours)
               && s.bucket !in missed && t.requests > 0
            then s in table && table[s] == t
            else Same(table, before, s)
  {
    hide Total, OnGrid, StartOf, Floor, IsCaughtUp, Times;
    var from := StartOf(before, Times(raw), Hours);
    if from.Some? {
      CaughtUpAt(table, before, raw, from.value, Floor(now, Hours) - HOUR, missed, s);
    }
  }

  lemma {:induction false} Answered(table: map<Slot, Row>, mid: map<Slot, Row>, raw: seq<Request>, now: int,
                                    missed: set<int>, b: int, lost: bool)
    requires LeftOut(mid, b, lost) && CaughtUpFrom(table, mid, raw, now, missed) && b !in missed
    requires OnGrid(b, 0, Hours) && 0 < b < Floor(now, Hours) && forall r :: r in raw ==> DAY <= r.ts
    ensures Ended(table, raw, b, lost) && SettledBy(table, raw, b)
  {
    hide Total, OnGrid, Floor, StartOf, Seen, CaughtUpFrom;
    if lost {
      BehindStart(table, mid, raw, now, missed, b);
    } else {
      FloorIs(now, Hours);
      GridBefore(b, Floor(now, Hours), Hours);
      forall key
        ensures IsRow(table, Slot(b, key), Total(raw, b, b + HOUR, key))
      {
        FilledIn(table, mid, raw, now, missed, b, key);
      }
      forall r | r in raw && b <= r.ts < b + HOUR
        ensures Slot(b, r.key) in table
      {
        TotalConsistent(raw, b, b + HOUR, r.key);
        CountedIn(raw, r, b);
      }
      if r :| r in raw && b <= r.ts < b + HOUR {
        assert Slot(b, r.key).bucket >= b;
      }
    }
  }

  lemma CountedIn(raw: seq<Request>, r: Request, b: int)
    requires r in raw && b <= r.ts < b + HOUR
    ensures Seen(raw, b, b + HOUR, r.key)
  {
  }

  lemma {:induction false} FilledIn(table: map<Slot, Row>, mid: map<Slot, Row>, raw: seq<Request>, now: int,
                                    missed: set<int>, b: int, key: Key)
    requires forall s :: s in mid ==> 0 < s.bucket < b && OnGrid(s.bucket, 0, Hours)
    requires CaughtUpFrom(table, mid, raw, now, missed) && b !in missed
    requires OnGrid(b, 0, Hours) && 0 < b && b + HOUR <= Floor(now, Hours) && forall r :: r in raw ==> DAY <= r.ts
    ensures IsRow(table, Slot(b, key), Total(raw, b, b + HOUR, key))
  {
    hide Total, OnGrid, Floor, StartOf, Seen, CaughtUpFrom, Times;
    TotalConsistent(raw, b, b + HOUR, key);
    StartGrid(mid, raw);
    if Seen(raw, b, b + HOUR, key) {
      StartReaches(mid, raw, b, key);
    }
    var from := StartOf(mid, Times(raw), Hours);
    if from.Some? {
      OnSameGrid(b, from.value, Hours);
    }
    CaughtUpFromAt(table, mid, raw, now, missed, Slot(b, key));
  }

  lemma {:induction false} StartGrid(mid: map<Slot, Row>, raw: seq<Request>)
    requires forall s :: s in mid ==> 0 < s.bucket && OnGrid(s.bucket, 0, Hours)
    requires forall r :: r in raw ==> DAY <= r.ts
    ensures var from := StartOf(mid, Times(raw), Hours); from.Some? ==> OnGrid(from.value, 0, Hours) && 0 < from.value
  {
    hide OnGrid, Floor;
    var last := MaxOrZero(Buckets(mid));
    if last != 0 {
      var s :| s in mid && s.bucket == last;
      GridNext(last, 0, Hours);
    } else {
      FloorIs(MinOrZero(Times(raw)), Hours);
    }
  }

  lemma {:induction false} StartReaches(mid: map<Slot, Row>, raw: seq<Request>, b: int, key: Key)
    requires forall s :: s in mid ==> 0 < s.bucket < b && OnGrid(s.bucket, 0, Hours)
    requires OnGrid(b, 0, Hours) && 0 < b && forall r :: r in raw ==> DAY <= r.ts
    requires Seen(raw, b, b + HOUR, key)
    ensures var from := StartOf(mid, Times(raw), Hours); from.Some? && from.value <= b
  {
    hide OnGrid, Floor;
    var last := MaxOrZero(Buckets(mid));
    if last != 0 {
      var s :| s in mid && s.bucket == last;
      GridNext(last, 0, Hours);
      GridBefore(last, b, Hours);
    } else {
      var oldest := MinOrZero(Times(raw));
      FloorIs(oldest, Hours);
      var r :| r in raw && Counts(r, b, b + HOUR, key);
      assert r.ts in Times(raw);
      if b < Floor(oldest, Hours) {
        GridBefore(b, Floor(oldest, Hours), Hours);
      }
    }
  }

  lemma {:induction false} EndedIs(table: map<Slot, Row>, was: seq<Request>, b: int, lost: bool)
    requires Ended(table, was, b, lost)
    ensures forall key :: Seen(was, b, b + HOUR, key) ==> (Slot(b, key) in table <==> !lost)
    ensures forall key :: IsRow(table, Slot(b, key), if lost then Nothing() else Total(was, b, b + HOUR, key))
  {
    hide Total, Seen;
    forall key
      ensures Seen(was, b, b + HOUR, key) ==> (Slot(b, key) in table <==> !lost)
    {
      TotalConsistent(was, b, b + HOUR, key);
    }
  }

  lemma KeptThere(raw: seq<Request>, all: seq<Request>, closed: int)
    requires Kept(raw, all, closed)
    ensures forall r :: r in raw ==> r in all
  {
  }

  lemma SettledInsert(table: map<Slot, Row>, raw: seq<Request>, b: int, r: Request)
    requires SettledBy(table, raw, b) && b + HOUR <= r.ts
    ensures SettledBy(table, raw + [r], b)
  {
  }

  lemma SettledSweep(table: map<Slot, Row>, raw: seq<Request>, fewer: seq<Request>, b: int)
    requires SettledBy(table, raw, b) && forall r :: r in fewer ==> r in raw
    ensures SettledBy(table, fewer, b)
  {
  }

  lemma {:induction false} SettledCatchup(table: map<Slot, Row>, before: map<Slot, Row>, raw: seq<Request>, now: int,
                                          missed: set<int>, b: int, was: seq<Request>, lost: bool)
    requires SettledBy(before, raw, b) && Ended(before, was, b, lost) && CaughtUpFrom(table, before, raw, now, missed)
    ensures SettledBy(table, raw, b) && Ended(table, was, b, lost)
  {
    hide Total, OnGrid, StartOf, Floor, RowFrom, CaughtUpFrom, Times;
    if RowFrom(before, b) {
      BehindStart(table, before, raw, now, missed, b);
    } else {
      forall key
        ensures Same(table, before, Slot(b, key))
      {
        NoneIn(raw, b, b + HOUR, key);
        CaughtUpFromAt(table, before, raw, now, missed, Slot(b, key));
      }
    }
    assert forall key :: Same(table, before, Slot(b, key)) && IsRow(before, Slot(b, key),
      if lost then Nothing() else Total(was, b, b + HOUR, key));
  }

  /** Two hours with a request each. If the query of the first fails, it is lost, but not if that of
      the second fails as well. */
  method LostHour(r: Request, next: Request, missed: set<int>) returns (db: StatsDb)
    requires r.ts == DAY && next.ts == DAY + HOUR && DAY in missed
    ensures Slot(DAY, r.key) in db.hourly <==> DAY + HOUR in missed
  {
    hide Right, Kept, IsRow, Total;
    db := new StatsDb();
    db.Insert(r);
    db.Insert(next);
    var raw, failed := [r, next], Catchup(DAY + 2 * HOUR, missed);
    assert [failed][..0] == [] && RawAfter(raw, [failed]) == raw;
    assert Seen(raw, DAY, DAY + HOUR, r.key) by {
      assert raw[0] in raw;
    }
    OvertakenBySecond(raw, r, next, missed);
    assert db.raw == raw;
    db.FailedHour(DAY, [failed], DAY + 3 * HOUR, {}, []);
  }

  lemma {:induction false} OvertakenBySecond(raw: seq<Request>, r: Request, next: Request, missed: set<int>)
    requires raw == [r, next] && r.ts == DAY && next.ts == DAY + HOUR
    ensures Overtaken(raw, DAY, [Catchup(DAY + 2 * HOUR, missed)]) <==> DAY + HOUR !in missed
  {
    var failed := Catchup(DAY + 2 * HOUR, missed);
    assert [failed][..0] == [] && !Overtaken(raw, DAY, []);
    var second := Slot(DAY + HOUR, next.key);
    assert raw[1] in raw && Seen(raw, second.bucket, second.bucket + HOUR, second.key);
    assert IsLater(second, raw, DAY, failed.now, missed) <==> DAY + HOUR !in missed;
    forall later: Slot | IsLater(later, raw, DAY, failed.now, missed)
      ensures later.bucket == DAY + HOUR
    {
    }
  }

  lemma DayBeforeHour(now: int)
    ensures Floor(now, Days) <= Floor(now, Hours)
  {
    FloorIs(now, Days);
    DayOnHours(Floor(now, Days));
    FloorIsLast(Floor(now, Days), now, Hours);
  }

  lemma DaysAgo(now: int, days: int)
    requires days > 0
    ensures now - days * DAY <= Floor(now, Hours)
  {
    FloorIs(now, Hours);
    assert days * DAY >= DAY;
  }

  lemma SweptBehind(raw: seq<Request>, cutoff: int, closed: int)
    ensures cutoff <= closed ==> NoneLost(raw, cutoff, closed)
  {
  }

  // ---------------------------------------------------------------- every run

  datatype Event =
    | Came(r: Request)
    | Hourly(at: int)
    | Daily(at: int)
    | Sweep(at: int, days: int)
  {
    function Time(): int {
      match this
      case Came(r) => r.ts
      case Hourly(at) => at
      case Daily(at) => at
      case Sweep(at, _) => at
    }
  }

  /** All requests of a run. */
  function Inserted(events: seq<Event>): seq<Request>
    decreases |events|
  {
    if events == [] then []
    else
      var last := events[|events| - 1];
      Inserted(events[..|events| - 1]) + if last.Came? then [last.r] else []
  }

  /** Up to where the last hourly catch-up of a run got. */
  function ClosedBy(events: seq<Event>): int
    decreases |events|
  {
    if events == [] then 0
    else
      var last := events[|events| - 1];
      if last.Hourly? then Floor(last.at, Hours) else ClosedBy(events[..|events| - 1])
  }

  /** Up to where the last daily one got. */
  function ClosedDayBy(events: seq<Event>): int
    decreases |events|
  {
    if events == [] then 0
    else
      var last := events[|events| - 1];
      if last.Daily? then Floor(last.at, Days) else ClosedDayBy(events[..|events| - 1])
  }

  /** The event comes when the jobs it relies on are done: a daily catch-up after midnight's
      hourly one, a sweep of what was rolled up. */
  predicate InTime(e: Event, closed: int) {
    match e
    case Daily(at) => Floor(at, Days) <= closed
    case Sweep(at, days) => days > 0 ==> at - days * DAY <= closed
    case _ => true
  }

  predicate Orderly(events: seq<Event>) {
    && (forall i :: 0 <= i < |events| ==> DAY <= events[i].Time() && InTime(events[i], ClosedBy(events[..i])))
    && (forall i, j :: 0 <= i < j < |events| ==> events[i].Time() <= events[j].Time())
  }

  /** Totals survive roll-up and retention: whatever the order of requests, catch-ups and
      deletions, each closed hour's and each closed day's rows are the sums over all requests
      ever inserted in it. */
  method Run(events: seq<Event>) returns (db: StatsDb)
    requires Orderly(events)
    ensures fresh(db)
    ensures Right(db.hourly, Inserted(events), ClosedBy(events), Hours)
    ensures Right(db.daily, Inserted(events), ClosedDayBy(events), Days)
    ensures Kept(db.raw, Inserted(events), ClosedBy(events))
  {
    hide Right, Kept, Since, Floor, NoneLost, NoneBetween;
    db := new StatsDb();
    for i := 0 to |events|
      invariant fresh(db) && db.Valid() && db.DaysValid()
      invariant db.all == Inserted(events[..i]) && db.closed == ClosedBy(events[..i])
      invariant db.closedDay == ClosedDayBy(events[..i])
      invariant i < |events| ==> db.clock <= events[i].Time()
    {
      assert events[..i + 1][..i] == events[..i];
      assert i + 1 < |events| ==> events[i].Time() <= events[i + 1].Time();
      assert InTime(events[i], db.closed);
      Step(db, events[i]);
    }
    assert events[..|events|] == events;
  }

  method Step(db: StatsDb, e: Event)
    requires db.Valid() && db.DaysValid() && db.clock <= e.Time() && DAY <= e.Time() && InTime(e, db.closed)
    modifies db
    ensures db.Valid() && db.DaysValid() && db.clock == e.Time()
    ensures db.all == old(db.all) + if e.Came? then [e.r] else []
    ensures db.closed == if e.Hourly? then Floor(e.at, Hours) else old(db.closed)
    ensures db.closedDay == if e.Daily? then Floor(e.at, Days) else old(db.closedDay)
  {
    hide Right, Kept, Since, Floor, NoneLost, NoneBetween;
    match e
    case Came(r) => db.Insert(r);
    case Hourly(at) => db.HourlyTick(at);
    case Daily(at) => db.DailyTick(at);
    case Sweep(at, days) =>
      SweptBehind(db.raw, at - days * DAY, db.closed);
      db.RetentionSweep(at, days);
  }

  lemma ClosedOnGrid(table: map<Slot, Row>, all: seq<Request>, closed: int, span: Span)
    requires Right(table, all, closed, span)
    ensures OnGrid(closed, 0, span)
  {
    hide OnGrid, Total, IsRow;
  }

  lemma StartOnGrid(from: int, table: map<Slot, Row>, all: seq<Request>, closed: int)
    requires IsStart(from, table, all, closed, Days)
    ensures OnGrid(from, 0, Days)
  {
    hide OnGrid;
  }

  lemma AllKept(past: seq<Request>, closedDay: int)
    ensures Kept(past, past, closedDay)
  {
  }

  lemma NoneBetweenNow(all: seq<Request>, closed: int, next: int)
    requires next <= closed
    ensures NoneBetween(all, closed, next)
  {
  }
}
