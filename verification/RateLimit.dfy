/** Per-exit limits (`ratelimit.go`): an in-flight counter and two sliding windows a slot.
    Times are Unix seconds, passed in by the caller and never decreasing for a slot. */
module RateLimit {

  /** `rtCfg().PerIP*`; a limit of 0 or less is off. */
  datatype Limits = Limits(concurrent: int, perMinute: int, perHour: int)

  datatype Reason = Granted | Concurrent | Rpm | Rph

  const MINUTE: int := 60
  const HOUR: int := 3600

  ghost predicate Ascending(ts: seq<int>) {
    forall i, j :: 0 <= i < j < |ts| ==> ts[i] <= ts[j]
  }

  /** How many of the sorted times lie before `cutoff`. */
  function Before(ts: seq<int>, cutoff: int): (n: nat)
    ensures n <= |ts|
    ensures forall i :: 0 <= i < n ==> ts[i] < cutoff
    ensures n < |ts| ==> cutoff <= ts[n]
  {
    if ts == [] || ts[0] >= cutoff then 0 else
      var n := 1 + Before(ts[1..], cutoff);
      assert forall i :: 1 <= i < n ==> ts[i] == ts[1..][i - 1];
      n
  }

  /** The times from `cutoff` on. */
  function Since(ts: seq<int>, cutoff: int): seq<int> {
    ts[Before(ts, cutoff)..]
  }

  method PruneTimestamps(ts: seq<int>, cutoff: int) returns (r: seq<int>)
    ensures r == Since(ts, cutoff)
  {
    var i := 0;
    while i < |ts| && ts[i] < cutoff
      invariant 0 <= i <= |ts|
      invariant forall k :: 0 <= k < i ==> ts[k] < cutoff
    {
      i := i + 1;
    }
    BeforeIs(ts, cutoff, i);
    if i == 0 {
      return ts;
    }
    return ts[i..];
  }

  lemma {:induction false} BeforeIs(ts: seq<int>, cutoff: int, n: nat)
    requires n <= |ts|
    requires forall i :: 0 <= i < n ==> ts[i] < cutoff
    requires n < |ts| ==> cutoff <= ts[n]
    ensures Before(ts, cutoff) == n
  {
  }

  /** Pruning again at a later cutoff is pruning once: nothing a later prune needs is gone. */
  lemma {:induction false} SinceSince(ts: seq<int>, early: int, late: int)
    requires Ascending(ts) && early <= late
    ensures Since(Since(ts, early), late) == Since(ts, late)
  {
    var a, b := Before(ts, early), Before(ts, late);
    assert a <= b;
    BeforeIs(ts[a..], late, b - a);
    assert ts[a..][b - a..] == ts[b..];
  }

  lemma {:induction false} SinceSnoc(ts: seq<int>, cutoff: int, t: int)
    requires Ascending(ts) && cutoff <= t
    ensures Since(ts + [t], cutoff) == Since(ts, cutoff) + [t]
  {
    var n := Before(ts, cutoff);
    assert forall i :: n <= i < |ts| ==> cutoff <= ts[i];
    BeforeIs(ts + [t], cutoff, n);
  }

  // ---------------------------------------------------------------- the history

  /** One granted acquisition: when, and under which limits. */
  datatype Grant = Grant(at: int, limits: Limits)

  function Times(history: seq<Grant>): (ts: seq<int>)
    ensures |ts| == |history|
    ensures forall i :: 0 <= i < |ts| ==> ts[i] == history[i].at
  {
    seq(|history|, i requires 0 <= i < |history| => history[i].at)
  }

  /** Grants with a time in the closed interval [from, to]. */
  function CountIn(ts: seq<int>, from: int, to: int): nat {
    if ts == [] then 0
    else CountIn(ts[..|ts| - 1], from, to) + (if from <= ts[|ts| - 1] <= to then 1 else 0)
  }

  /** When it was given, each grant was the last that its limits allowed in each window. */
  ghost predicate Bounded(history: seq<Grant>) {
    forall k :: 0 <= k < |history| ==> FitsAt(history, k)
  }

  ghost predicate FitsAt(history: seq<Grant>, k: nat)
    requires k < |history|
  {
    var g, ts := history[k], Times(history[..k + 1]);
    && (g.limits.perMinute > 0 ==> |Since(ts, g.at - MINUTE)| <= g.limits.perMinute)
    && (g.limits.perHour > 0 ==> |Since(ts, g.at - HOUR)| <= g.limits.perHour)
  }

  lemma {:induction false} SinceNone(ts: seq<int>, cutoff: int)
    requires forall i :: 0 <= i < |ts| ==> ts[i] < cutoff
    ensures Since(ts, cutoff) == []
  {
    BeforeIs(ts, cutoff, |ts|);
  }

  lemma {:induction false} CountSince(ts: seq<int>, from: int, to: int)
    requires Ascending(ts)
    requires ts != [] ==> ts[|ts| - 1] <= to
    ensures CountIn(ts, from, to) == |Since(ts, from)|
    decreases |ts|
  {
    if ts == [] {
      SinceNone(ts, from);
    } else {
      var init, last := ts[..|ts| - 1], ts[|ts| - 1];
      CountSince(init, from, to);
      SinceLast(init, last, from);
      assert init + [last] == ts;
    }
  }

  lemma {:induction false} SinceLast(init: seq<int>, last: int, from: int)
    requires Ascending(init + [last])
    ensures |Since(init + [last], from)| == |Since(init, from)| + (if from <= last then 1 else 0)
  {
    hide Since;
    var ts := init + [last];
    forall i | 0 <= i < |init|
      ensures init[i] <= last
    {
      assert ts[i] <= ts[|init|];
    }
    forall i, j | 0 <= i < j < |init|
      ensures init[i] <= init[j]
    {
      assert ts[i] <= ts[j];
    }
    if from <= last {
      SinceSnoc(init, from, last);
    } else {
      SinceNone(ts, from);
      SinceNone(init, from);
    }
  }

  /** The whole-history rate bound. Take any closed interval no longer than a window: it holds
      no more grants than the limit in force at the last grant in it. Nothing is assumed of the
      limits in between, which may change at run time. */
  lemma {:induction false} RateBound(history: seq<Grant>, from: int, to: int, last: nat)
    requires Ascending(Times(history)) && Bounded(history)
    requires last < |history| && from <= history[last].at <= to
    requires forall k :: last < k < |history| ==> to < history[k].at
    ensures var lim := history[last].limits;
            && (lim.perMinute > 0 && to - from <= MINUTE ==> CountIn(Times(history), from, to) <= lim.perMinute)
            && (lim.perHour > 0 && to - from <= HOUR ==> CountIn(Times(history), from, to) <= lim.perHour)
  {
    hide Since, CountIn, Times;
    assert FitsAt(history, last);
    var ts, upTo := Times(history), Times(history[..last + 1]);
    TimesPrefix(history, last + 1);
    assert upTo[last] == history[last].at;
    CountStops(ts, from, to, last + 1);
    CountSince(upTo, from, to);
    if to - from <= MINUTE {
      SinceShrinks(upTo, history[last].at - MINUTE, from);
    }
    if to - from <= HOUR {
      SinceShrinks(upTo, history[last].at - HOUR, from);
    }
  }

  lemma TimesPrefix(history: seq<Grant>, n: nat)
    requires n <= |history| && Ascending(Times(history))
    ensures Times(history[..n]) == Times(history)[..n]
    ensures Ascending(Times(history[..n]))
  {
  }

  /** With fixed positive limits, no closed minute and no closed hour of the whole history
      holds more grants than its limit. */
  lemma {:induction false} FixedRateBound(history: seq<Grant>, lim: Limits, from: int)
    requires Ascending(Times(history)) && Bounded(history)
    requires lim.perMinute > 0 && lim.perHour > 0
    requires forall k :: 0 <= k < |history| ==> history[k].limits == lim
    ensures CountIn(Times(history), from, from + MINUTE) <= lim.perMinute
    ensures CountIn(Times(history), from, from + HOUR) <= lim.perHour
  {
    FixedBoundIn(history, lim, from, from + MINUTE);
    FixedBoundIn(history, lim, from, from + HOUR);
  }

  lemma {:induction false} FixedBoundIn(history: seq<Grant>, lim: Limits, from: int, to: int)
    requires Ascending(Times(history)) && Bounded(history)
    requires lim.perMinute > 0 && lim.perHour > 0
    requires forall k :: 0 <= k < |history| ==> history[k].limits == lim
    ensures to - from <= MINUTE ==> CountIn(Times(history), from, to) <= lim.perMinute
    ensures to - from <= HOUR ==> CountIn(Times(history), from, to) <= lim.perHour
  {
    hide CountIn, Since, Bounded;
    var ts := Times(history);
    var n := Before(ts, to + 1);
    if n == 0 || ts[n - 1] < from {
      CountStops(ts, from, to, n);
      CountNone(ts[..n], from, to);
    } else {
      RateBound(history, from, to, n - 1);
    }
  }

  lemma {:induction false} CountNone(ts: seq<int>, from: int, to: int)
    requires Ascending(ts) && (ts != [] ==> ts[|ts| - 1] < from)
    ensures CountIn(ts, from, to) == 0
    decreases |ts|
  {
    if ts != [] {
      CountNone(ts[..|ts| - 1], from, to);
    }
  }

  lemma {:induction false} SinceShrinks(ts: seq<int>, early: int, late: int)
    requires Ascending(ts) && early <= late
    ensures |Since(ts, late)| <= |Since(ts, early)|
  {
  }

  lemma {:induction false} CountStops(ts: seq<int>, from: int, to: int, n: nat)
    requires n <= |ts| && forall k :: n <= k < |ts| ==> to < ts[k]
    ensures CountIn(ts, from, to) == CountIn(ts[..n], from, to)
    decreases |ts|
  {
    if n < |ts| {
      CountStops(ts[..|ts| - 1], from, to, n);
      assert ts[..|ts| - 1][..n] == ts[..n];
    } else {
      assert ts[..n] == ts;
    }
  }

  // ---------------------------------------------------------------- one slot

  /** What can be observed of a slot. */
  datatype Usage = Usage(inflight: nat, rpm: nat, rph: nat)

  /** All that decides an acquisition: the calls in flight and every grant ever given. */
  datatype Load = Load(inflight: nat, history: seq<Grant>)

  const UNUSED: Load := Load(0, [])

  /** The outcome of an acquisition at `now`, stated over the full history. */
  ghost function Verdict(load: Load, now: int, lim: Limits): Reason {
    if lim.concurrent > 0 && load.inflight >= lim.concurrent then Concurrent
    else if lim.perMinute > 0 && |Since(Times(load.history), now - MINUTE)| >= lim.perMinute then Rpm
    else if lim.perHour > 0 && |Since(Times(load.history), now - HOUR)| >= lim.perHour then Rph
    else Granted
  }

  class IpSlot {
    var inflight: int
    var minuteWin: seq<int>
    var hourWin: seq<int>
    ghost var history: seq<Grant> // every grant ever given
    ghost var clock: int          // the latest time seen

    /** Both windows are exactly the recent end of the whole history. */
    ghost predicate Valid()
      reads this
    {
      && inflight >= 0
      && Ascending(Times(history)) && Bounded(history)
      && (history != [] ==> history[|history| - 1].at <= clock)
      && minuteWin == Since(Times(history), clock - MINUTE)
      && hourWin == Since(Times(history), clock - HOUR)
    }

    constructor ()
      ensures Valid() && inflight == 0 && history == [] && clock == 0
    {
      inflight, minuteWin, hourWin, history, clock := 0, [], [], [], 0;
      new;
      assert Times([]) == [] && Since([], 0 - MINUTE) == [] && Since([], 0 - HOUR) == [];
    }

    ghost function Current(): Load
      reads this
    {
      Load(if inflight > 0 then inflight else 0, history)
    }

    lemma NotNegative()
      requires Valid()
      ensures inflight >= 0 && Current() == Load(inflight, history)
    {
    }

    method Prune(now: int)
      requires Valid() && clock <= now
      modifies this`minuteWin, this`hourWin, this`clock
      ensures Valid() && clock == now
      ensures minuteWin == Since(Times(history), now - MINUTE)
      ensures hourWin == Since(Times(history), now - HOUR)
    {
      hide Times, Since;
      SinceSince(Times(history), clock - MINUTE, now - MINUTE);
      SinceSince(Times(history), clock - HOUR, now - HOUR);
      minuteWin := PruneTimestamps(minuteWin, now - MINUTE);
      hourWin := PruneTimestamps(hourWin, now - HOUR);
      clock := now;
    }

    /** `trySlotAcquire`. */
    method TryAcquire(now: int, lim: Limits) returns (reason: Reason)
      requires Valid() && clock <= now
      modifies this
      ensures Valid() && clock == now
      ensures reason == Verdict(old(Current()), now, lim)
      ensures reason.Granted? ==> inflight == old(inflight) + 1 && history == old(history) + [Grant(now, lim)]
      ensures !reason.Granted? ==> inflight == old(inflight) && history == old(history)
      // the limits one by one, over all grants ever given: the first that is reached is the reason
      ensures reason.Concurrent? <==> lim.concurrent > 0 && old(inflight) >= lim.concurrent
      ensures reason.Rpm? <==>
                && !reason.Concurrent? && lim.perMinute > 0
                && CountIn(Times(old(history)), now - 60, now) >= lim.perMinute
      ensures reason.Rph? <==>
                && !reason.Concurrent? && !reason.Rpm? && lim.perHour > 0
                && CountIn(Times(old(history)), now - 3600, now) >= lim.perHour
      ensures reason.Granted? && lim.concurrent > 0 ==> inflight <= lim.concurrent
    {
      hide Times, Since, Bounded, CountIn;
      Prune(now);
      CountSince(Times(history), now - MINUTE, now);
      CountSince(Times(history), now - HOUR, now);
      if lim.concurrent > 0 && inflight >= lim.concurrent {
        return Concurrent;
      }
      if lim.perMinute > 0 && |minuteWin| >= lim.perMinute {
        return Rpm;
      }
      if lim.perHour > 0 && |hourWin| >= lim.perHour {
        return Rph;
      }
      GrantKeepsBounds(history, Grant(now, lim));
      SinceSnoc(Times(history), now - MINUTE, now);
      SinceSnoc(Times(history), now - HOUR, now);
      inflight := inflight + 1;
      minuteWin := minuteWin + [now];
      hourWin := hourWin + [now];
      history := history + [Grant(now, lim)];
      return Granted;
    }

    /** `slotRelease`, with its clamp at zero. */
    method Release()
      requires Valid()
      modifies this`inflight
      ensures Valid()
      ensures inflight == (if old(inflight) > 0 then old(inflight) - 1 else 0)
    {
      hide Times, Since, Bounded, Ascending;
      if inflight > 0 {
        inflight := inflight - 1;
      }
    }

    /** `slotUsage`: counts over the whole history, not just over what the windows kept. */
    method GetUsage(now: int) returns (u: Usage)
      requires Valid() && clock <= now
      modifies this`minuteWin, this`hourWin, this`clock
      ensures Valid() && clock == now
      ensures u.inflight == inflight
      ensures u.rpm == CountIn(Times(history), now - MINUTE, now)
      ensures u.rph == CountIn(Times(history), now - HOUR, now)
    {
      hide Times, Since, Bounded;
      Prune(now);
      CountSince(Times(history), now - MINUTE, now);
      CountSince(Times(history), now - HOUR, now);
      u := Usage(inflight, |minuteWin|, |hourWin|);
    }
  }

  /** What requests do to a slot. */
  datatype Move = Take(at: int) | Give

  /** Over every run of acquisitions and releases, however many are refused, the calls in flight never
      exceed the limit. */
  method Moves(slot: IpSlot, moves: seq<Move>, lim: Limits) returns (levels: seq<int>, reasons: seq<Reason>)
    requires slot.Valid() && lim.concurrent > 0 && slot.inflight <= lim.concurrent
    requires forall i, j :: 0 <= i <= j < |moves| && moves[i].Take? && moves[j].Take? ==>
               slot.clock <= moves[i].at <= moves[j].at
    modifies slot
    ensures |levels| == |reasons| == |moves| && forall i :: 0 <= i < |levels| ==> 0 <= levels[i] <= lim.concurrent
    ensures forall i :: 0 < i < |moves| ==>
              levels[i] == if moves[i].Give? then (if levels[i - 1] > 0 then levels[i - 1] - 1 else 0)
                           else levels[i - 1] + if reasons[i].Granted? then 1 else 0
  {
    hide IpSlot.Valid;
    levels, reasons := [], [];
    slot.NotNegative();
    for i := 0 to |moves|
      invariant slot.Valid() && 0 <= slot.inflight <= lim.concurrent && |levels| == |reasons| == i
      invariant forall j :: i <= j < |moves| && moves[j].Take? ==> slot.clock <= moves[j].at
      invariant i > 0 ==> levels[i - 1] == slot.inflight
      invariant forall j :: 0 <= j < i ==> 0 <= levels[j] <= lim.concurrent
      invariant forall j :: 0 < j < i ==>
                  levels[j] == if moves[j].Give? then (if levels[j - 1] > 0 then levels[j - 1] - 1 else 0)
                               else levels[j - 1] + if reasons[j].Granted? then 1 else 0
    {
      var reason := Granted;
      match moves[i] {
        case Take(at) =>
          reason := slot.TryAcquire(at, lim);
        case Give => slot.Release();
      }
      slot.NotNegative();
      levels, reasons := levels + [slot.inflight], reasons + [reason];
    }
  }

  lemma TimesSnoc(history: seq<Grant>, g: Grant)
    ensures Times(history + [g]) == Times(history) + [g.at]
  {
  }

  lemma {:induction false} GrantKeepsBounds(history: seq<Grant>, g: Grant)
    requires Ascending(Times(history)) && Bounded(history)
    requires history != [] ==> history[|history| - 1].at <= g.at
    requires g.limits.perMinute > 0 ==> |Since(Times(history), g.at - MINUTE)| < g.limits.perMinute
    requires g.limits.perHour > 0 ==> |Since(Times(history), g.at - HOUR)| < g.limits.perHour
    ensures Times(history + [g]) == Times(history) + [g.at]
    ensures Ascending(Times(history + [g])) && Bounded(history + [g])
  {
    var longer := history + [g];
    TimesSnoc(history, g);
    hide Since, Times;
    SinceSnoc(Times(history), g.at - MINUTE, g.at);
    SinceSnoc(Times(history), g.at - HOUR, g.at);
    forall k: nat | k < |longer|
      ensures FitsAt(longer, k)
    {
      if k < |history| {
        assert longer[..k + 1] == history[..k + 1] && FitsAt(history, k);
      } else {
        assert longer[..k + 1] == longer;
      }
    }
  }

  // ---------------------------------------------------------------- all slots

  /** Slot `id` takes one more call; every other slot stays as it was. */
  ghost function Acquired(loads: imap<int, Load>, id: int, now: int, lim: Limits): imap<int, Load>
    requires id in loads
  {
    loads[id := Load(loads[id].inflight + 1, loads[id].history + [Grant(now, lim)])]
  }

  /** Slot `id` has one call less, unless it had none; every other slot stays as it was. */
  ghost function Released(loads: imap<int, Load>, id: int): imap<int, Load>
    requires id in loads
  {
    loads[id := loads[id].(inflight := if loads[id].inflight > 0 then loads[id].inflight - 1 else 0)]
  }

  /** The slot table: exit id to slot, filled on first use. */
  class SlotTable {
    var slots: map<int, IpSlot>
    ghost var clock: int

    ghost predicate Valid()
      reads this, slots.Values
    {
      && (forall id :: id in slots ==> slots[id].Valid() && slots[id].clock <= clock)
      && (forall a, b :: a in slots && b in slots && a != b ==> slots[a] != slots[b])
      && 0 <= clock
    }

    ghost function LoadOf(id: int): Load
      reads this, slots.Values
    {
      if id in slots then slots[id].Current() else UNUSED
    }

    /** The load of every exit, used or not. */
    ghost function Loads(): (l: imap<int, Load>)
      reads this, slots.Values
      ensures forall id: int :: id in l && l[id] == LoadOf(id)
    {
      imap id: int {:trigger LoadOf(id)} | true :: LoadOf(id)
    }

    constructor ()
      ensures Valid() && clock == 0 && slots == map[]
      ensures forall id :: Loads()[id] == UNUSED
    {
      slots, clock := map[], 0;
    }

    /** `getSlot`. */
    method GetSlot(id: int) returns (s: IpSlot)
      requires Valid()
      modifies this`slots
      ensures Valid() && id in slots && s == slots[id]
      ensures fresh(slots.Values - old(slots.Values))
      ensures Loads() == old(Loads())
    {
      hide Times, Since, Bounded, Ascending;
      if id in slots {
        return slots[id];
      }
      s := new IpSlot();
      assert s.Current() == UNUSED;
      slots := slots[id := s];
      assert forall k :: k in slots && k != id ==> slots[k] == old(slots)[k];
    }

    method TryAcquire(id: int, now: int, lim: Limits) returns (reason: Reason)
      requires Valid() && clock <= now
      modifies this, slots.Values
      ensures Valid() && clock == now
      ensures fresh(slots.Values - old(slots.Values))
      ensures reason == Verdict(old(Loads())[id], now, lim)
      ensures Loads() == if reason.Granted? then Acquired(old(Loads()), id, now, lim) else old(Loads())
    {
      hide Verdict, Times, Since, Bounded, Ascending, IpSlot.Valid;
      var s := GetSlot(id);
      s.NotNegative();
      clock := now;
      reason := s.TryAcquire(now, lim);
    }

    method Release(id: int)
      requires Valid()
      modifies this, slots.Values
      ensures Valid() && clock == old(clock)
      ensures fresh(slots.Values - old(slots.Values))
      ensures Loads() == Released(old(Loads()), id)
    {
      hide Times, Since, Bounded, Ascending, IpSlot.Valid;
      var s := GetSlot(id);
      s.NotNegative();
      s.Release();
    }
  }
}
