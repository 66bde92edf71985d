/** One round of a conversation on its way out (`streamGenerateConv`): over which exits it goes, and
    which exit the conversation notes. */
module RoundDriver {
  import opened Options
  import opened ProxyPool
  import opened Egress
  import opened CookieJar
  import opened Effects
  import opened World
  import opened RequestLog
  import RequestDriver

  /** What the network does, by the number of the step: each anonymous session and token fetched, and
      each generation call (its answer, whether its lines hold new text, and its `Set-Cookie`
      headers). */
  datatype RoundNet = RoundNet(
    session: nat -> Option<string>, token: nat -> bool,
    answer: nat -> Answer, speaks: nat -> bool, headers: nat -> seq<string>)

  /** What a conversation is bound to, as far as a round reads or changes it. */
  class Bond {
    var turn: nat
    var cookie: string
    var isLogin: bool
    var exit: Exit // `proxyID` and `proxyURL`

    constructor (turn: nat, cookie: string, isLogin: bool, exit: Exit)
      ensures this.turn == turn && this.cookie == cookie && this.isLogin == isLogin && this.exit == exit
    {
      this.turn, this.cookie, this.isLogin, this.exit := turn, cookie, isLogin, exit;
    }
  }

  /** One generation call: over which exit, counting from 0, as which turn of the conversation, and
      what came of it; the conversation's cookie before and after, and what was booked on the exit. */
  datatype RoundCall = RoundCall(
    over: nat, exit: Exit, turn: nat, answer: Answer, spoke: bool, had: string, kept: string,
    booking: Option<Booking>)

  /** An exit was set up: after how many calls, the conversation's cookie before and after, which session
      and which token were asked for, and whether what was asked for came. */
  datatype Setup = Setup(calls: nat, had: string, session: Option<nat>, token: Option<nat>, kept: string, ok: bool)

  /** A session is asked for when an exit is noted by a conversation that has neither an account nor a
      cookie, a token for an account with a cookie; and both have to come. */
  ghost predicate IsSetup(u: Setup, notes: bool, isLogin: bool, net: RoundNet) {
    && (u.session.Some? <==> notes && u.had == "" && !isLogin)
    && u.kept == (if u.session.Some? && net.session(u.session.value).Some? then net.session(u.session.value).value
                  else u.had)
    && (u.token.Some? <==> isLogin && u.kept != "")
    && (u.ok <==> && (u.session.Some? ==> net.session(u.session.value).Some?)
                  && (u.token.Some? ==> net.token(u.token.value)))
  }

  /** The conversation's cookie after these setups and calls. */
  function CookieNow(begin: string, starts: seq<Setup>, calls: seq<RoundCall>): string {
    if calls != [] && calls[|calls| - 1].over == |starts| - 1 then calls[|calls| - 1].kept
    else if starts != [] then starts[|starts| - 1].kept
    else begin
  }

  /** Every setup and every call found the cookie as the one before left it. */
  ghost predicate CookiesFollow(begin: string, starts: seq<Setup>, calls: seq<RoundCall>) {
    && (forall i :: 0 <= i < |starts| ==> SetupFollows(begin, starts, calls, i))
    && (forall k :: 0 <= k < |calls| ==> CallFollows(begin, starts, calls, k))
  }

  ghost predicate SetupFollows(begin: string, starts: seq<Setup>, calls: seq<RoundCall>, i: nat)
    requires i < |starts|
  {
    starts[i].calls <= |calls| && starts[i].had == CookieNow(begin, starts[..i], calls[..starts[i].calls])
  }

  ghost predicate CallFollows(begin: string, starts: seq<Setup>, calls: seq<RoundCall>, k: nat)
    requires k < |calls|
  {
    calls[k].over < |starts| && calls[k].had == CookieNow(begin, starts[..calls[k].over + 1], calls[..k])
  }

  lemma {:induction false} OneStart(begin: string, starts: seq<Setup>, calls: seq<RoundCall>, u: Setup)
    requires CookiesFollow(begin, starts, calls) && u.calls == |calls| && u.had == CookieNow(begin, starts, calls)
    ensures CookiesFollow(begin, starts + [u], calls) && CookieNow(begin, starts + [u], calls) == u.kept
  {
    hide CookieNow;
    var more := starts + [u];
    forall i | 0 <= i < |more|
      ensures SetupFollows(begin, more, calls, i)
    {
      assert i < |starts| ==> SetupFollows(begin, starts, calls, i);
      assert more[..i] == starts[..i];
      assert starts[..|starts|] == starts && calls[..|calls|] == calls;
    }
    forall k | 0 <= k < |calls|
      ensures CallFollows(begin, more, calls, k)
    {
      assert CallFollows(begin, starts, calls, k);
      assert more[..calls[k].over + 1] == starts[..calls[k].over + 1];
    }
    StartIsLast(begin, starts, calls, u);
  }

  lemma StartIsLast(begin: string, starts: seq<Setup>, calls: seq<RoundCall>, u: Setup)
    requires forall k :: 0 <= k < |calls| ==> CallFollows(begin, starts, calls, k)
    ensures CookieNow(begin, starts + [u], calls) == u.kept
  {
    assert calls != [] ==> CallFollows(begin, starts, calls, |calls| - 1);
  }

  lemma {:induction false} OneCookie(begin: string, starts: seq<Setup>, calls: seq<RoundCall>, c: RoundCall)
    requires CookiesFollow(begin, starts, calls) && c.over == |starts| - 1 && c.had == CookieNow(begin, starts, calls)
    ensures CookiesFollow(begin, starts, calls + [c]) && CookieNow(begin, starts, calls + [c]) == c.kept
  {
    hide CookieNow, SetupFollows, CallFollows;
    var more := calls + [c];
    forall i | 0 <= i < |starts|
      ensures SetupFollows(begin, starts, more, i)
    {
      SetupStillFollows(begin, starts, calls, c, i);
    }
    forall k | 0 <= k < |more|
      ensures CallFollows(begin, starts, more, k)
    {
      CallStillFollows(begin, starts, calls, c, k);
    }
    CallIsLast(begin, starts, calls, c);
  }

  lemma SetupStillFollows(begin: string, starts: seq<Setup>, calls: seq<RoundCall>, c: RoundCall, i: nat)
    requires i < |starts| && SetupFollows(begin, starts, calls, i)
    ensures SetupFollows(begin, starts, calls + [c], i)
  {
    hide CookieNow;
    assert (calls + [c])[..starts[i].calls] == calls[..starts[i].calls];
  }

  lemma CallStillFollows(begin: string, starts: seq<Setup>, calls: seq<RoundCall>, c: RoundCall, k: nat)
    requires k <= |calls| && (k < |calls| ==> CallFollows(begin, starts, calls, k))
    requires c.over == |starts| - 1 && c.had == CookieNow(begin, starts, calls)
    ensures CallFollows(begin, starts, calls + [c], k)
  {
    hide CookieNow;
    assert (calls + [c])[..k] == calls[..k];
    assert calls[..|calls|] == calls && starts[..|starts|] == starts;
  }

  lemma CallIsLast(begin: string, starts: seq<Setup>, calls: seq<RoundCall>, c: RoundCall)
    requires c.over == |starts| - 1
    ensures CookieNow(begin, starts, calls + [c]) == c.kept
  {
  }

  datatype RoundOutcome = Done | NoExit | SetupFailed | UpstreamFailed | NoAnswer | Crashed

  datatype Next = Return(outcome: RoundOutcome) | Break | Continue | Proceed

  /** The exit that the conversation notes: the last one of its first round, or of a later round that
      switched; a later round that did not leaves the one noted before, whichever it went over. */
  function NotedAfter(noted: Exit, turn: nat, used: seq<Exit>): Exit {
    if used == [] || (turn > 0 && |used| == 1) then noted else used[|used| - 1]
  }

  ghost predicate NoGood(calls: seq<RoundCall>) {
    forall c :: c in calls ==> !Good(c.answer)
  }

  ghost predicate Quiet(calls: seq<RoundCall>) {
    forall c :: c in calls ==> !c.spoke
  }

  /** A call went over exit number `i`. */
  ghost predicate WasCalled(calls: seq<RoundCall>, i: nat) {
    exists c :: c in calls && c.over == i
  }

  /** Without a fetch that fails, every exit can be set up. */
  ghost predicate CanSetUp(net: RoundNet) {
    forall n: nat :: net.session(n).Some? && net.token(n)
  }

  class Round {
    const world: World
    const job: Job
    const net: RoundNet
    const bond: Bond
    const turn: nat   // the turn of the conversation when the round began
    const noted: Exit // and the exit it had noted
    const cookie: string // and its cookie
    var slotHeld: bool
    var currentSlotID: int
    var excludedIDs: set<int>
    var excludedURLs: set<string>
    var emitted: bool
    var lastErr: bool
    var sessions: nat          // the sessions fetched so far
    var tokens: nat            // and the tokens
    var setups: seq<bool>      // for each exit used, whether session and token came
    var starts: seq<Setup>     // and how
    var calls: seq<RoundCall>  // the generation calls made
    ghost var used: seq<Exit>  // the exits acquired, in order
    ghost var shuts: seq<Shut> // the proxies given up

    constructor (world: World, job: Job, net: RoundNet, bond: Bond)
      ensures this.world == world && this.job == job && this.net == net && this.bond == bond && Fresh()
    {
      this.world, this.job, this.net, this.bond := world, job, net, bond;
      turn, noted, cookie, starts, shuts := bond.turn, bond.exit, bond.cookie, [], [];
      slotHeld, currentSlotID, excludedIDs, excludedURLs := false, 0, {}, {};
      emitted, lastErr, sessions, tokens, setups, calls, used := false, false, 0, 0, [], [], [];
    }

    ghost predicate Fresh()
      reads this, bond
    {
      && !slotHeld && excludedIDs == {} && excludedURLs == {} && !emitted && !lastErr
      && setups == [] && calls == [] && used == [] && bond.turn == turn && bond.exit == noted
      && starts == [] && shuts == [] && bond.cookie == cookie
    }

    // -------------------------------------------------------------- invariants

    ghost function Held(): multiset<int>
      reads this`slotHeld, this`currentSlotID
    {
      if slotHeld then multiset{currentSlotID} else multiset{}
    }

    /** Every slot in flight is accounted for. */
    ghost predicate Books()
      reads this`slotHeld, this`currentSlotID, world.Parts()
    {
      world.Valid() && world.Ledger(Held())
    }

    ghost predicate ExitsDiffer()
      reads this`used, world.exits
    {
      RequestDriver.Differ(used, world.exits.dynamicURLs)
    }

    /** The first `n` exits used are excluded, and nothing else, as far as the second exit has to do
        with it. */
    ghost predicate Excluded(n: nat)
      reads this`used, this`excludedIDs, this`excludedURLs
    {
      && n <= |used|
      && (forall i :: 0 <= i < n ==> RequestDriver.Excludes(excludedIDs, excludedURLs, used[i]))
      && (n == 0 ==> excludedIDs == {} && excludedURLs == {})
      && (n == 1 ==> 0 !in excludedIDs || excludedURLs == {})
    }

    /** The first `n` exits used were given up, and shut out then as far as they are proxies; no other
        one was. */
    ghost predicate GivenUp(n: nat)
      reads this`used, this`shuts
    {
      && n <= |used| && (forall s :: s in shuts ==> IsShut(s, job.policy.pool)) && ShutAll(shuts, used, n)
      && OnlyShut(shuts, used, n)
    }

    /** The exit is known by its URL, if it is dynamic. */
    ghost predicate Known(exit: Exit)
      reads world.exits
    {
      exit.id < 0 ==> RequestDriver.HasItsURL(exit, world.exits.dynamicURLs)
    }

    /** Every exit was set up as it should be, and the cookie is handed on from step to step. */
    ghost predicate Cookies()
      reads this`setups, this`starts, this`calls, bond`cookie, bond`isLogin
    {
      && StartsFit(setups) && CookiesFollow(cookie, starts, calls) && bond.cookie == CookieNow(cookie, starts, calls)
    }

    ghost predicate StartsFit(oks: seq<bool>)
      reads this`starts, bond`isLogin
    {
      && |starts| == |oks|
      && forall i :: 0 <= i < |starts| ==>
           starts[i].ok == oks[i] && IsSetup(starts[i], turn == 0 || i > 0, bond.isLogin, net)
    }

    ghost predicate Noted()
      reads this`used, bond
    {
      bond.exit == NotedAfter(noted, turn, used)
    }

    /** Each call fits what the network answered, and only the last one may have emitted text or be a
        good answer. */
    ghost predicate Log()
      reads this`calls, this`setups, this`used
    {
      && |setups| <= |used| && |calls| <= RequestDriver.Budget(|setups|, job.Attempts())
      && (forall k :: 0 <= k < |calls| ==> Fits(calls[k], k))
      && (forall k :: 0 <= k < |calls| - 1 ==> !calls[k].spoke && !Good(calls[k].answer))
      && (CanSetUp(net) ==> false !in setups)
    }

    ghost predicate Fits(c: RoundCall, k: nat)
      reads this`setups, this`used
    {
      && c.over < |setups| <= |used| && setups[c.over] && c.exit == used[c.over] && c.turn == turn
      && c.answer == net.answer(k) && c.spoke == (job.streaming && net.speaks(k)) && IsSettled(c, k)
    }

    /** The call was booked on its exit, as a success exactly for a good answer; headers that set cookies
        are merged into a cookie that is not empty. */
    ghost predicate IsSettled(c: RoundCall, k: nat) {
      && (if net.headers(k) == [] || c.had == "" then c.kept == c.had else IsMerge(c.kept, c.had, net.headers(k)))
      && (c.booking.Some? <==> c.exit.id != 0)
      && (c.booking.Some? ==>
            && c.booking.value.exit == c.exit && IsBooking(c.booking.value)
            && (c.booking.value.good <==> c.answer.Response? && c.answer.status == 200 && c.answer.content))
    }

    /** The exits that could be set up were called, if there are attempts at all. */
    ghost predicate AllCalled(n: nat)
      reads this`calls, this`setups
    {
      CalledBy(calls, n)
    }

    ghost predicate CalledBy(log: seq<RoundCall>, n: nat)
      reads this`setups
    {
      job.Attempts() > 0 ==> forall i: nat :: i < n <= |setups| && setups[i] ==> WasCalled(log, i)
    }

    /** There is an error to report exactly if an exit could not be set up or a call was made. */
    ghost predicate ErrorsMeant()
      reads this`lastErr, this`calls, this`setups
    {
      && (NoGood(calls) ==> (lastErr <==> calls != [] || false in setups))
      && (false in setups ==> lastErr)
    }

    /** Without attempts and without an error before, the error to be reported is nil. */
    ghost predicate CrashDue()
      reads this`setups, this`used
    {
      && job.Attempts() == 0 && false !in setups
      && exists i :: 0 <= i < |used| && i < job.Switches() && i < |setups| && used[i].id != 0
    }

    /** Between two exits: nothing is held, nothing was emitted, every exit used is excluded. */
    ghost predicate AtHead(n: nat)
      reads this, bond, world.Parts()
    {
      && Books() && !slotHeld && |used| == |setups| == n && ExitsDiffer() && Excluded(n) && Noted()
      && bond.turn == turn && Hushed() && Log() && AllCalled(n) && ErrorsMeant() && !CrashDue()
      && GivenUp(n) && Cookies()
    }

    /** While exit number `n` is in use, and was set up or could not be. */
    ghost predicate OnExit(n: nat, exit: Exit)
      reads this, bond, world.Parts()
    {
      && Books() && |used| == |setups| == n + 1 && used[n] == exit && ExitsDiffer() && Excluded(n) && Noted()
      && Log() && ErrorsMeant() && GivenUp(n) && Cookies()
      && (CrashDue() <==> job.Attempts() == 0 && false !in setups && n < job.Switches() && exit.id != 0)
    }

    ghost predicate Hushed()
      reads this`emitted, this`calls
    {
      !emitted && Quiet(calls) && NoGood(calls)
    }

    /** What holds wherever the round ends. */
    ghost predicate AtEnd(outcome: RoundOutcome)
      reads this, bond, world.Parts()
    {
      && Books() && |setups| == |used| <= job.Switches() + 1 && ExitsDiffer() && Noted() && Log()
      && AllCalled(|setups|) && ErrorsMeant()
      && (outcome.Done? <==> !NoGood(calls)) && bond.turn == turn + (if outcome.Done? then 1 else 0)
      && (outcome.Done? ==> calls != [] && calls[|calls| - 1].over == |used| - 1)
      && (outcome.Crashed? <==> CrashDue())
      && Cookies() && Gone(outcome) && Reason(outcome)
    }

    /** All exits used but the last one were given up, and that one too if it could not be set up or no
        other was to be had. */
    ghost predicate Gone(outcome: RoundOutcome)
      reads this`used, this`shuts
    {
      match outcome
      case NoExit => GivenUp(0)
      case Done => used != [] && GivenUp(|used| - 1)
      case SetupFailed => GivenUp(|used|)
      case _ => used != [] && (GivenUp(|used| - 1) || GivenUp(|used|))
    }

    /** A round ends without a good answer only for these reasons. */
    ghost predicate Reason(outcome: RoundOutcome)
      reads this`used, this`calls, this`setups
    {
      match outcome
      case NoExit => used == [] && !world.IsOpen(job.policy)
      case SetupFailed => |setups| == job.Switches() + 1 && !setups[job.Switches()]
      case UpstreamFailed => (calls != [] || false in setups) && (Quiet(calls) ==> RanOut())
      case NoAnswer => calls == [] && false !in setups && RanOut()
      case _ => true
    }

    /** All exits that may be tried were, or there was no other; where nothing is scarce, there is a
        second one. */
    ghost predicate RanOut()
      reads this`used, this`setups
    {
      && used != []
      && (|used| == job.Switches() + 1 || (world.IsOpen(job.policy) ==> |used| >= 2))
    }

    // -------------------------------------------------------------- steps

    method Wire()
      requires Books()
      modifies world.Parts()
      ensures fresh(world.Parts() - old(world.Parts()))
      ensures Books() && world.exits.KeepsDynamicIds(old(world.exits.dynamicURLs))
    {
      hide World.Valid, World.Ledger;
      world.Wait(Held());
    }

    /** `releaseCurrentSlot`. */
    method ReleaseCurrent()
      requires Books()
      modifies this`slotHeld, world.Parts()
      ensures fresh(world.Parts() - old(world.Parts()))
      ensures !slotHeld && Books() && world.exits.KeepsDynamicIds(old(world.exits.dynamicURLs))
    {
      hide World.Valid, World.Ledger;
      if slotHeld {
        world.Release(currentSlotID, Held());
        assert multiset{currentSlotID} - multiset{currentSlotID} == multiset{};
        slotHeld := false;
      }
    }

    /** `recordProxyResult`, for a proxied exit. */
    method Report(exit: Exit, good: bool) returns (b: Option<Booking>)
      requires Books() && Known(exit)
      modifies world.Parts()
      ensures fresh(world.Parts() - old(world.Parts()))
      ensures Books() && world.exits.KeepsDynamicIds(old(world.exits.dynamicURLs))
      ensures b.Some? <==> exit.id != 0
      ensures b.Some? ==>
                && b.value.exit == exit && b.value.good == good && IsBooking(b.value)
                && b.value.rows == old(world.exits.pool.table) && b.value.rowsAfter == world.exits.pool.table
                && b.value.stats == old(world.exits.dynamicStats) && b.value.statsAfter == world.exits.dynamicStats
      ensures b.None? ==>
                world.exits.pool.table == old(world.exits.pool.table)
                && world.exits.dynamicStats == old(world.exits.dynamicStats)
      ensures world.accounts.table == old(world.accounts.table)
    {
      hide World.Valid, World.Ledger, IsBooking;
      if exit.id == 0 {
        return None;
      }
      var booking := world.Book(exit, good, job.policy.pool, Held());
      b := Some(booking);
    }

    /** `forceProxyCooldown`, for a proxied exit: the row or the statistics shut it out now. */
    method Cooldown(n: nat, exit: Exit)
      requires Books() && Known(exit) && GivenUp(n) && n < |used| && used[n] == exit
      modifies this`shuts, world.Parts()
      ensures fresh(world.Parts() - old(world.Parts()))
      ensures Books() && world.exits.KeepsDynamicIds(old(world.exits.dynamicURLs))
      ensures GivenUp(n + 1) && world.accounts.table == old(world.accounts.table)
    {
      hide World.Valid, World.Ledger, Usable, IsShut, ShutAll, OnlyShut;
      ghost var before := shuts;
      if exit.id != 0 {
        world.StaticIds();
        world.ForceCooldown(exit.id, job.policy.pool, Held());
        ghost var table := world.exits.pool.table;
        ghost var s := Shut(exit, world.now, if exit.id in table then Some(table[exit.id]) else None,
                            world.exits.Cooling(exit.url, world.now, job.policy.pool));
        world.StaticIds();
        if exit.id > 0 && s.row.Some? {
          RequestDriver.ForcedIsShut(old(world.exits.pool.table), table, exit.id, world.now, job.policy.pool);
        }
        CooledIsShut(s);
        shuts := shuts + [s];
      }
      GivesUp(before, n, exit);
    }

    lemma CooledIsShut(s: Shut)
      requires s.exit.id > 0 && s.row.Some? ==> !Usable(s.row.value, s.at, job.policy.pool)
      requires s.exit.id < 0 && job.policy.pool.cooldownMin > 0 ==> s.cooling
      ensures IsShut(s, job.policy.pool)
    {
    }

    lemma GivesUp(before: seq<Shut>, n: nat, exit: Exit)
      requires n < |used| && used[n] == exit && ShutAll(before, used, n) && OnlyShut(before, used, n)
      requires forall s :: s in before ==> IsShut(s, job.policy.pool)
      requires if exit.id == 0 then shuts == before
               else && |shuts| == |before| + 1 && shuts == before + [shuts[|before|]] && shuts[|before|].exit == exit
                    && IsShut(shuts[|before|], job.policy.pool)
      ensures GivenUp(n + 1)
    {
      hide IsShut;
      assert used[..n + 1] == used[..n] + [exit];
      StillShut(before, shuts, used, n);
      assert exit.id != 0 ==> shuts[|before|] in shuts;
    }

    /** The noted exit is preferred at first, unless its URL is cooling down. */
    function Preference(): int
      reads world, world.exits
    {
      if world.exits.Cooling(noted.url, world.now, job.policy.pool) then 0 else noted.id
    }

    function Preferred(n: nat): (prefer: int)
      requires Noted() && |used| == n
      reads this`used, bond, world, world.exits
      ensures prefer == if n > 0 then 0 else Preference()
    {
      if n > 0 || (bond.exit.url != "" && world.exits.Cooling(bond.exit.url, world.now, job.policy.pool)) then 0
      else bond.exit.id
    }

    /** The exit a round begins with: the one noted is preferred, unless its URL is cooling down. */
    ghost function FirstExit(): Option<Exit>
      reads world, world.exits, world.exits.pool, world.exits.slots, world.exits.slots.slots.Values
    {
      world.exits.Choice(Preference(), {}, {}, world.now, job.policy, world.Answers())
    }

    /** The exit noted is the one to be had now. */
    ghost predicate KeepsNoted()
      reads world, world.exits, world.exits.pool, world.exits.slots, world.exits.slots.slots.Values
    {
      world.exits.GetsAgain(noted, world.now, job.policy, world.Answers())
    }

    lemma KeepsNotedIff()
      requires world.Valid()
      ensures KeepsNoted() <==> FirstExit().Some? && FirstExit().value.id == noted.id
    {
      hide Exits.GetsAgain, Exits.Choice, Exits.Valid;
      world.exits.GetsAgainIff(noted, world.now, job.policy, world.Answers());
    }

    /** A round is none of the parts it shares. */
    lemma NotShared()
      ensures this !in world.Parts() && bond !in world.Parts()
    {
    }

    method AcquireNext(n: nat) returns (exit: Option<Exit>)
      requires Books() && !slotHeld && |used| == n && ExitsDiffer() && Excluded(n) && Noted()
      modifies this`slotHeld, this`currentSlotID, this`used, world.Parts()
      ensures fresh(world.Parts() - old(world.Parts()))
      ensures Books() && ExitsDiffer() && Excluded(n)
      ensures exit.None? ==> !slotHeld && used == old(used) && (world.IsOpen(job.policy) ==> n >= 2)
      ensures exit.Some? ==>
                used == old(used) + [exit.value] && slotHeld && currentSlotID == exit.value.id
                && (exit.value.id == 0 ==> exit.value.url == "")
      ensures n == 0 ==> exit == old(FirstExit())
    {
      hide World.Valid, World.Ledger, RequestDriver.Differ, World.IsOpen, Exits.CanHave, Exits.Choice, IsCooling,
           World.Parts;
      NotShared();
      ghost var urls := world.exits.dynamicURLs;
      var prefer := Preferred(n);
      exit := world.Acquire(prefer, excludedIDs, excludedURLs, job.policy, multiset{});
      RequestDriver.StillDiffer(used, urls, world.exits.dynamicURLs);
      if exit.Some? {
        RequestDriver.OneMoreExit(used, exit.value, world.exits.dynamicURLs, excludedIDs, excludedURLs);
        Take(n, exit.value);
      }
    }

    method Take(n: nat, exit: Exit)
      requires world.Valid() && world.Ledger(multiset{} + multiset{exit.id}) && Excluded(n)
      requires RequestDriver.Differ(used + [exit], world.exits.dynamicURLs)
      modifies this`slotHeld, this`currentSlotID, this`used
      ensures Books() && ExitsDiffer() && Excluded(n) && world.Parts() == old(world.Parts())
      ensures used == old(used) + [exit] && slotHeld && currentSlotID == exit.id
    {
      hide World.Valid, World.Ledger, RequestDriver.Differ;
      NotShared();
      assert multiset{} + multiset{exit.id} == multiset{exit.id};
      currentSlotID, slotHeld := exit.id, true;
      used := used + [exit];
    }

    method Note(exit: Exit)
      requires Books()
      modifies bond`exit
      ensures Books() && world.Parts() == old(world.Parts()) && bond.exit == exit
    {
      hide World.Valid, World.Ledger;
      NotShared();
      bond.exit := exit;
    }

    /** `getAnonSession`. */
    method FetchSession() returns (ok: bool)
      requires Books()
      modifies bond`cookie, this`sessions, world.Parts()
      ensures fresh(world.Parts() - old(world.Parts()))
      ensures Books() && world.exits.KeepsDynamicIds(old(world.exits.dynamicURLs))
      ensures ok <==> net.session(old(sessions)).Some?
      ensures bond.cookie == if ok then net.session(old(sessions)).value else old(bond.cookie)
    {
      hide World.Valid, World.Ledger, World.Parts;
      NotShared();
      Wire();
      var session := net.session(sessions);
      ok := session.Some?;
      KeepSession(if ok then session.value else bond.cookie);
    }

    method KeepSession(cookie: string)
      requires Books()
      modifies bond`cookie, this`sessions
      ensures Books() && world.Parts() == old(world.Parts()) && bond.cookie == cookie
    {
      hide World.Valid, World.Ledger;
      NotShared();
      bond.cookie, sessions := cookie, sessions + 1;
    }

    /** `getXSRF`. */
    method FetchToken() returns (ok: bool)
      requires Books()
      modifies this`tokens, world.Parts()
      ensures fresh(world.Parts() - old(world.Parts()))
      ensures Books() && world.exits.KeepsDynamicIds(old(world.exits.dynamicURLs))
      ensures ok == net.token(old(tokens))
    {
      hide World.Valid, World.Ledger;
      Wire();
      ok := net.token(tokens);
      tokens := tokens + 1;
    }

    /** The exit is noted in the first round and after a switch; then an anonymous conversation gets
        its session and a logged-in one its token. */
    method SetUp(n: nat, exit: Exit) returns (u: Setup)
      requires Books() && |used| == n + 1 && used[n] == exit && bond.turn == turn
      requires n == 0 ==> bond.exit == noted
      modifies bond`exit, bond`cookie, this`sessions, this`tokens, world.Parts()
      ensures fresh(world.Parts() - old(world.Parts()))
      ensures Books() && world.exits.KeepsDynamicIds(old(world.exits.dynamicURLs))
      ensures Noted() && (CanSetUp(net) ==> u.ok)
      ensures u.calls == |calls| && u.had == old(bond.cookie) && u.kept == bond.cookie
      ensures IsSetup(u, turn == 0 || n > 0, bond.isLogin, net)
    {
      hide Round.Books;
      NotShared();
      var had, ok, session, token := bond.cookie, true, None, None;
      if bond.turn == 0 || n > 0 {
        Note(exit);
        if bond.cookie == "" && !bond.isLogin {
          session := Some(sessions);
          ok := FetchSession();
        }
      }
      if ok && bond.isLogin && bond.cookie != "" {
        token := Some(tokens);
        ok := FetchToken();
      }
      u := Setup(|calls|, had, session, token, bond.cookie, ok);
    }

    /** What one generation call brings, and what it leaves of the cookie. */
    method Perform() returns (answer: Answer, spoke: bool)
      requires Books()
      modifies bond`cookie, world.Parts()
      ensures fresh(world.Parts() - old(world.Parts()))
      ensures Books() && world.exits.KeepsDynamicIds(old(world.exits.dynamicURLs))
      ensures answer == net.answer(|calls|) && spoke == (job.streaming && net.speaks(|calls|))
      ensures if net.headers(|calls|) == [] || old(bond.cookie) == "" then bond.cookie == old(bond.cookie)
              else IsMerge(bond.cookie, old(bond.cookie), net.headers(|calls|))
    {
      hide World.Parts, World.Valid, World.Ledger, IsMerge;
      NotShared();
      Wire();
      answer, spoke := net.answer(|calls|), job.streaming && net.speaks(|calls|);
      RefreshCookie(net.headers(|calls|));
    }

    method RefreshCookie(headers: seq<string>)
      requires Books()
      modifies bond`cookie
      ensures Books() && world.Parts() == old(world.Parts())
      ensures if headers == [] || old(bond.cookie) == "" then bond.cookie == old(bond.cookie)
              else IsMerge(bond.cookie, old(bond.cookie), headers)
    {
      hide World.Valid, World.Ledger, IsMerge;
      NotShared();
      if |headers| > 0 && bond.cookie != "" {
        bond.cookie := MergeSetCookie(bond.cookie, headers);
      }
    }

    method Record(c: RoundCall)
      requires Log() && Hushed() && Fits(c, |calls|) && |calls| < RequestDriver.Budget(|setups|, job.Attempts())
      requires Books() && StartsFit(setups) && CookiesFollow(cookie, starts, calls) && c.over == |starts| - 1
      requires c.had == CookieNow(cookie, starts, calls) && c.kept == bond.cookie
      modifies this`emitted, this`calls
      ensures Books() && world.Parts() == old(world.Parts())
      ensures Log() && calls == old(calls) + [c] && Cookies()
      ensures (Good(c.answer) <==> !NoGood(calls)) && (emitted <==> !Quiet(calls))
    {
      hide Good, CanSetUp, World.Valid, World.Ledger, World.Parts, Round.IsSettled, CookieNow, CookiesFollow, IsSetup;
      NotShared();
      OneCookie(cookie, starts, calls, c);
      emitted := emitted || c.spoke;
      calls := calls + [c];
      forall k | 0 <= k < |calls|
        ensures Fits(calls[k], k)
      {
        assert k < |calls| - 1 ==> calls[k] == old(calls)[k] && old(Fits(calls[k], k));
      }
      assert calls[|calls| - 1] in calls && forall d :: d in calls ==> d in old(calls) || d == c;
      assert forall k :: 0 <= k < |calls| - 1 ==> calls[k] in old(calls);
    }

    /** The attempt loop over one exit. */
    method Generate(n: nat, exit: Exit) returns (done: bool)
      requires Books() && Log() && n + 1 == |setups| <= |used| && setups[n] && used[n] == exit && bond.turn == turn
      requires Hushed() && CalledBy(calls, n) && |calls| <= RequestDriver.Budget(n, job.Attempts())
      requires Cookies() && Known(exit)
      modifies bond`cookie, bond`turn, this`emitted, this`lastErr, this`calls, world.Parts()
      ensures fresh(world.Parts() - old(world.Parts()))
      ensures Books() && world.exits.KeepsDynamicIds(old(world.exits.dynamicURLs)) && Log() && AllCalled(n + 1)
      ensures Cookies()
      ensures (done <==> !NoGood(calls)) && bond.turn == turn + (if done then 1 else 0)
      ensures emitted <==> !Quiet(calls)
      ensures old(lastErr) ==> lastErr
      ensures job.Attempts() > 0 ==> (done || lastErr) && calls != []
      ensures done ==> calls != [] && calls[|calls| - 1].over == n
      ensures job.Attempts() == 0 ==> !done && !emitted && calls == old(calls) && lastErr == old(lastErr)
    {
      hide Round.Books, Round.Cookies, Round.Log, Round.AllCalled, Round.Hushed, NoGood, Quiet;
      NoneYet();
      BudgetStep(n);
      var attempt := 0;
      var limit := job.policy.pool.retryAttempts;
      while attempt < limit
        invariant 0 <= attempt && (attempt <= limit || attempt == 0)
        invariant fresh(world.Parts() - old(world.Parts()))
        invariant Books() && world.exits.KeepsDynamicIds(old(world.exits.dynamicURLs)) && Log() && Hushed()
        invariant Cookies()
        invariant bond.turn == turn && |calls| == |old(calls)| + attempt && old(calls) <= calls
        invariant (old(lastErr) ==> lastErr) && (attempt > 0 ==> lastErr && calls[|calls| - 1].over == n)
        invariant limit <= 0 ==> lastErr == old(lastErr)
      {
        var good := Attempt(n, exit);
        StillCalled(old(calls), n);
        if good {
          return true;
        }
        if emitted {
          return false;
        }
        NoneYet();
        attempt := attempt + 1;
      }
      NoneYet();
      if limit > 0 {
        StillCalled(old(calls), n);
      } else {
        NeedNoCalls(n + 1);
      }
      return false;
    }

    /** What one attempt is booked as. */
    method Settle(exit: Exit, good: bool) returns (booking: Option<Booking>)
      requires Books() && Known(exit)
      modifies bond`turn, this`lastErr, world.Parts()
      ensures fresh(world.Parts() - old(world.Parts()))
      ensures Books() && world.exits.KeepsDynamicIds(old(world.exits.dynamicURLs))
      ensures bond.turn == old(bond.turn) + (if good then 1 else 0) && lastErr == (old(lastErr) || !good)
      ensures booking.Some? <==> exit.id != 0
      ensures booking.Some? ==>
                && booking.value.exit == exit && booking.value.good == good && IsBooking(booking.value)
                && booking.value.rows == old(world.exits.pool.table)
                && booking.value.rowsAfter == world.exits.pool.table
      ensures world.accounts.table == old(world.accounts.table)
    {
      hide World.Valid, World.Ledger, IsBooking;
      CountTurn(good);
      booking := Report(exit, good);
    }

    method CountTurn(good: bool)
      requires Books()
      modifies bond`turn, this`lastErr
      ensures Books() && world.Parts() == old(world.Parts())
      ensures bond.turn == old(bond.turn) + (if good then 1 else 0) && lastErr == (old(lastErr) || !good)
    {
      hide World.Valid, World.Ledger;
      NotShared();
      bond.turn := if good then bond.turn + 1 else bond.turn;
      lastErr := lastErr || !good;
    }

    /** One attempt, with the pause behind a failed one; nothing stands behind text or a good answer. */
    method Attempt(n: nat, exit: Exit) returns (good: bool)
      requires Books() && Log() && n + 1 == |setups| <= |used| && setups[n] && used[n] == exit && bond.turn == turn
      requires Hushed() && |calls| < RequestDriver.Budget(|setups|, job.Attempts()) && Cookies() && Known(exit)
      modifies bond`cookie, bond`turn, this`emitted, this`lastErr, this`calls, world.Parts()
      ensures fresh(world.Parts() - old(world.Parts()))
      ensures Books() && world.exits.KeepsDynamicIds(old(world.exits.dynamicURLs)) && Log() && Cookies()
      ensures |calls| == |old(calls)| + 1 && old(calls) <= calls && calls[|calls| - 1].over == n
      ensures bond.turn == turn + (if good then 1 else 0) && lastErr == (old(lastErr) || !good)
      ensures (good <==> !NoGood(calls)) && (emitted <==> !Quiet(calls))
    {
      hide Round.Books, Round.Log, Round.Hushed, Round.Cookies, NoGood, Quiet, Round.Fits, RequestDriver.HasItsURL;
      NotShared();
      CookiesAre();
      var c := Venture(n, exit);
      good := Good(c.answer);
      NotShared();
      Record(c);
      if !good && !emitted {
        Wire();
      }
    }

    lemma CookiesAre()
      requires Cookies()
      ensures StartsFit(setups) && CookiesFollow(cookie, starts, calls)
      ensures bond.cookie == CookieNow(cookie, starts, calls)
      ensures |starts| == |setups|
    {
      hide CookieNow, CookiesFollow, IsSetup;
    }

    /** One generation call, with what is booked of it, before it is in the log. */
    method Venture(n: nat, exit: Exit) returns (c: RoundCall)
      requires Books() && n + 1 == |setups| <= |used| && setups[n] && used[n] == exit && bond.turn == turn
      requires Known(exit)
      modifies bond`cookie, bond`turn, this`lastErr, world.Parts()
      ensures fresh(world.Parts() - old(world.Parts()))
      ensures Books() && world.exits.KeepsDynamicIds(old(world.exits.dynamicURLs))
      ensures Fits(c, |calls|) && c.over == n && c.had == old(bond.cookie) && c.kept == bond.cookie
      ensures bond.turn == turn + (if Good(c.answer) then 1 else 0) && lastErr == (old(lastErr) || !Good(c.answer))
    {
      hide Round.Books, IsMerge, IsBooking;
      NotShared();
      var had, ongoing := bond.cookie, bond.turn;
      var answer, spoke := Perform();
      var booking := Settle(exit, Good(answer));
      c := RoundCall(n, exit, ongoing, answer, spoke, had, bond.cookie, booking);
    }

    lemma NoneYet()
      ensures Hushed() <==> !emitted && Quiet(calls) && NoGood(calls)
    {
    }

    lemma BudgetStep(n: nat)
      ensures RequestDriver.Budget(n + 1, job.Attempts()) == RequestDriver.Budget(n, job.Attempts()) + job.Attempts()
    {
    }

    lemma NeedNoCalls(n: nat)
      requires job.Attempts() == 0
      ensures AllCalled(n)
    {
    }

    /** The exits called before stay called, and so is this one. */
    lemma StillCalled(before: seq<RoundCall>, n: nat)
      requires before <= calls && calls != [] && calls[|calls| - 1].over == n && n + 1 == |setups|
      requires CalledBy(before, n)
      ensures AllCalled(n + 1)
    {
      forall i: nat | i < n + 1 && setups[i] && job.Attempts() > 0
        ensures WasCalled(calls, i)
      {
        if i < n {
          assert WasCalled(before, i);
          var c :| c in before && c.over == i;
          assert c in calls;
        } else {
          assert calls[|calls| - 1] in calls;
        }
      }
    }

    // -------------------------------------------------------------- from exit to exit

    method TakeExit(n: nat) returns (exit: Option<Exit>)
      requires AtHead(n) && n <= job.Switches()
      modifies this`slotHeld, this`currentSlotID, this`used, world.Parts()
      ensures fresh(world.Parts() - old(world.Parts()))
      ensures exit.None? ==> AtHead(n) && used == old(used) && (world.IsOpen(job.policy) ==> n >= 2)
      ensures exit.Some? ==> JustTaken(n, exit.value) && used == old(used) + [exit.value]
      ensures n == 0 ==> exit == old(FirstExit())
    {
      hide World.IsOpen, Round.Books, Round.ExitsDiffer, Round.FirstExit, NoGood, Quiet, World.Parts, Round.Log,
           Round.GivenUp, Round.Cookies, CanSetUp, Good;
      NotShared();
      exit := AcquireNext(n);
      StillFits();
    }

    /** What was said about the first exits still holds when another one is in use. */
    twostate lemma StillFits()
      requires old(Log()) && old(GivenUp(|used|)) && old(used) <= used && |used| <= |old(used)| + 1
      requires calls == old(calls) && setups == old(setups) && shuts == old(shuts)
      ensures Log() && GivenUp(|old(used)|)
    {
      hide Good, CanSetUp, IsShut, Round.IsSettled;
      assert used[..|old(used)|] == old(used) == old(used)[..|old(used)|];
      forall k | 0 <= k < |calls|
        ensures Fits(calls[k], k)
      {
        assert old(Fits(calls[k], k));
      }
    }

    /** An exit was acquired, and nothing done with it. */
    ghost predicate JustTaken(n: nat, exit: Exit)
      reads this, bond, world.Parts()
    {
      && Books() && |used| == n + 1 && |setups| == n && used[n] == exit && (exit.id == 0 ==> exit.url == "")
      && ExitsDiffer() && Excluded(n) && (n == 0 ==> bond.exit == noted) && bond.turn == turn
      && Hushed() && Log() && AllCalled(n) && ErrorsMeant() && !CrashDue() && GivenUp(n) && Cookies()
    }

    /** Session and token for the exit taken. */
    method Start(n: nat, exit: Exit) returns (ok: bool)
      requires JustTaken(n, exit)
      modifies bond`exit, bond`cookie, this`sessions, this`tokens, this`setups, this`starts, this`lastErr, world.Parts()
      ensures fresh(world.Parts() - old(world.Parts()))
      ensures OnExit(n, exit) && setups[n] == ok && bond.turn == turn && Hushed() && CalledBy(calls, n)
      ensures |calls| <= RequestDriver.Budget(n, job.Attempts())
    {
      hide Round.Books, NoGood, Quiet, CanSetUp, Good, RequestDriver.Differ, RequestDriver.Budget, Round.Log,
           Round.AllCalled, Round.ErrorsMeant, Round.CrashDue, Round.GivenUp, Round.Excluded, Round.Cookies,
           Round.StartsFit, CookiesFollow, CookieNow, IsSetup;
      NotShared();
      CookiesAre();
      LogIs();
      ghost var urls := world.exits.dynamicURLs;
      var u := SetUp(n, exit);
      RequestDriver.StillDiffer(used, urls, world.exits.dynamicURLs);
      ok := u.ok;
      Enter(n, ok);
      LogStart(n, u, old(setups));
    }

    lemma LogIs()
      requires Log()
      ensures |calls| <= RequestDriver.Budget(|setups|, job.Attempts())
    {
      hide Good, CanSetUp, Round.Fits;
    }

    method LogStart(n: nat, u: Setup, ghost before: seq<bool>)
      requires Books() && |starts| == n && setups == before + [u.ok] && CookiesFollow(cookie, starts, calls)
      requires StartsFit(before)
      requires u.calls == |calls| && u.had == CookieNow(cookie, starts, calls) && u.kept == bond.cookie
      requires IsSetup(u, turn == 0 || n > 0, bond.isLogin, net)
      modifies this`starts
      ensures Books() && world.Parts() == old(world.Parts()) && Cookies()
    {
      hide World.Valid, World.Ledger, IsSetup, CookiesFollow, CookieNow;
      NotShared();
      OneStart(cookie, starts, calls, u);
      starts := starts + [u];
    }

    method Enter(n: nat, ok: bool)
      requires |used| == n + 1 && |setups| == n && Log() && AllCalled(n) && ErrorsMeant() && Hushed() && !CrashDue()
      requires Books() && (CanSetUp(net) ==> ok)
      modifies this`setups, this`lastErr
      ensures Books() && world.Parts() == old(world.Parts())
      ensures setups == old(setups) + [ok] && Log() && CalledBy(calls, n) && ErrorsMeant()
      ensures CrashDue() <==> job.Attempts() == 0 && false !in setups && n < job.Switches() && used[n].id != 0
    {
      hide World.Valid, World.Ledger, CanSetUp, Good;
      NotShared();
      BudgetStep(n);
      setups, lastErr := setups + [ok], lastErr || !ok;
      forall k | 0 <= k < |calls|
        ensures Fits(calls[k], k)
      {
        assert old(Fits(calls[k], k));
      }
      assert false in setups <==> false in old(setups) || !ok;
    }

    /** The proxy is shut out, the exit excluded, and its slot given back before the next one is asked
        for. */
    method Leave(n: nat, exit: Exit)
      requires OnExit(n, exit) && bond.turn == turn && Hushed() && AllCalled(n + 1) && !CrashDue()
      requires exit.id == 0 ==> exit.url == ""
      modifies this`slotHeld, this`excludedIDs, this`excludedURLs, this`shuts, world.Parts()
      ensures fresh(world.Parts() - old(world.Parts()))
      ensures AtHead(n + 1)
    {
      hide Round.Books, NoGood, Quiet, CanSetUp, Good, RequestDriver.Differ, Round.Log, Round.AllCalled,
           Round.ErrorsMeant, Round.CrashDue, Round.Excluded, Round.GivenUp, Round.Cookies;
      NotShared();
      ghost var urls := world.exits.dynamicURLs;
      Exclude(n, exit);
      KnownHere(n, exit);
      Cooldown(n, exit);
      ReleaseCurrent();
      RequestDriver.StillDiffer(used, urls, world.exits.dynamicURLs);
    }

    lemma KnownHere(n: nat, exit: Exit)
      requires ExitsDiffer() && n < |used| && used[n] == exit
      ensures Known(exit)
    {
    }

    method Exclude(n: nat, exit: Exit)
      requires Books() && Excluded(n) && |used| == n + 1 && used[n] == exit && (exit.id == 0 ==> exit.url == "")
      modifies this`excludedIDs, this`excludedURLs
      ensures Books() && world.Parts() == old(world.Parts()) && Excluded(n + 1)
    {
      hide World.Valid, World.Ledger;
      NotShared();
      excludedIDs := excludedIDs + {exit.id};
      excludedURLs := if exit.url != "" then excludedURLs + {exit.url} else excludedURLs;
    }

    /** The calls over an exit that was set up. */
    method CallExit(n: nat, exit: Exit) returns (done: bool)
      requires OnExit(n, exit) && setups[n] && bond.turn == turn && Hushed() && CalledBy(calls, n)
      requires |calls| <= RequestDriver.Budget(n, job.Attempts())
      modifies bond`cookie, bond`turn, this`emitted, this`lastErr, this`calls, world.Parts()
      ensures fresh(world.Parts() - old(world.Parts()))
      ensures OnExit(n, exit) && AllCalled(n + 1)
      ensures (done <==> !NoGood(calls)) && bond.turn == turn + (if done then 1 else 0)
      ensures (emitted <==> !Quiet(calls)) && (job.Attempts() == 0 ==> calls == [])
      ensures job.Attempts() > 0 && !done ==> lastErr
      ensures done ==> calls != [] && calls[|calls| - 1].over == n
    {
      hide Round.Books, NoGood, Quiet, CanSetUp, Good, RequestDriver.Differ, Round.Log, Round.AllCalled,
           Round.Excluded, Round.GivenUp, Round.Cookies, World.Parts;
      NotShared();
      ghost var urls := world.exits.dynamicURLs;
      NoBudget(n);
      KnownHere(n, exit);
      done := Generate(n, exit);
      RequestDriver.StillDiffer(used, urls, world.exits.dynamicURLs);
    }

    lemma {:induction false} NoBudget(n: nat)
      ensures job.Attempts() == 0 ==> RequestDriver.Budget(n, job.Attempts()) == 0
    {
      RequestDriver.BudgetIs(n, job.Attempts());
    }

    lemma StillNoCalls(n: nat)
      requires CalledBy(calls, n) && |setups| == n + 1 && !setups[n]
      ensures AllCalled(n + 1) && false in setups && !CrashDue()
    {
      assert setups[n] in setups;
    }

    lemma QuietEnd()
      ensures calls == [] ==> Quiet(calls) && NoGood(calls)
    {
    }

    lemma ErrorsAre()
      requires ErrorsMeant()
      ensures NoGood(calls) ==> (lastErr <==> calls != [] || false in setups)
      ensures false in setups ==> lastErr
    {
      hide NoGood;
    }

    /** Session or token did not come. */
    method NotSetUp(n: nat, exit: Exit) returns (next: Next)
      requires OnExit(n, exit) && !setups[n] && bond.turn == turn && Hushed() && CalledBy(calls, n)
      requires n <= job.Switches() && (exit.id == 0 ==> exit.url == "")
      modifies this`slotHeld, this`excludedIDs, this`excludedURLs, this`shuts, world.Parts()
      ensures fresh(world.Parts() - old(world.Parts()))
      ensures next in {Continue, Return(SetupFailed)}
      ensures next.Continue? ==> n < job.Switches() && AtHead(n + 1)
      ensures next.Return? ==> AtEnd(SetupFailed)
    {
      hide Round.Books, NoGood, Quiet, CanSetUp, Good, RequestDriver.Differ, Round.Log, Round.AllCalled,
           Round.Excluded, Round.ErrorsMeant, Round.CrashDue, Round.GivenUp, Round.Cookies;
      NotShared();
      StillNoCalls(n);
      if n < job.Switches() {
        Leave(n, exit);
        return Continue;
      }
      ghost var urls := world.exits.dynamicURLs;
      KnownHere(n, exit);
      Cooldown(n, exit);
      RequestDriver.StillDiffer(used, urls, world.exits.dynamicURLs);
      return Return(SetupFailed);
    }

    /** One exit: set up, called, given up. */
    method UseExit(n: nat, exit: Exit) returns (next: Next)
      requires JustTaken(n, exit) && n <= job.Switches()
      modifies bond`exit, bond`cookie, bond`turn, this`sessions, this`tokens, this`setups, this`starts, this`lastErr,
               this`emitted, this`calls, this`slotHeld, this`excludedIDs, this`excludedURLs, this`shuts, world.Parts()
      ensures fresh(world.Parts() - old(world.Parts()))
      ensures !next.Proceed?
      ensures next.Continue? ==> n < job.Switches() && AtHead(n + 1)
      ensures next.Break? ==> AtEnd(if lastErr then UpstreamFailed else NoAnswer)
      ensures next.Return? ==> AtEnd(next.outcome)
    {
      hide Round.Books, NoGood, Quiet, CanSetUp, Good, RequestDriver.Differ, Round.Log, Round.AllCalled,
           Round.Excluded, Round.ErrorsMeant, Round.CrashDue, Round.GivenUp, Round.Cookies;
      NotShared();
      var ok := Start(n, exit);
      if !ok {
        next := NotSetUp(n, exit);
        return;
      }
      var done := CallExit(n, exit);
      next := Conclude(n, exit, done);
    }

    /** After the calls over one exit: the next exit, or the end. */
    method Conclude(n: nat, exit: Exit, done: bool) returns (next: Next)
      requires OnExit(n, exit) && AllCalled(n + 1) && n <= job.Switches() && (exit.id == 0 ==> exit.url == "")
      requires (done <==> !NoGood(calls)) && bond.turn == turn + (if done then 1 else 0)
      requires (emitted <==> !Quiet(calls)) && (job.Attempts() == 0 ==> calls == [])
      requires job.Attempts() > 0 && !done ==> lastErr
      requires done ==> calls != [] && calls[|calls| - 1].over == n
      modifies this`slotHeld, this`excludedIDs, this`excludedURLs, this`shuts, world.Parts()
      ensures fresh(world.Parts() - old(world.Parts()))
      ensures !next.Proceed?
      ensures next.Continue? ==> n < job.Switches() && AtHead(n + 1)
      ensures next.Break? ==> AtEnd(if lastErr then UpstreamFailed else NoAnswer)
      ensures next.Return? ==> AtEnd(next.outcome)
    {
      hide Round.Books, NoGood, Quiet, CanSetUp, Good, RequestDriver.Differ, Round.Log, Round.AllCalled,
           Round.Excluded, Round.ErrorsMeant, Round.CrashDue, Round.GivenUp, Round.Cookies;
      NotShared();
      QuietEnd();
      ErrorsAre();
      if done {
        return Return(Done);
      }
      if emitted || n == job.Switches() {
        return Break;
      }
      if exit.id != 0 && !lastErr {
        return Return(Crashed); // the error to report is nil
      }
      Leave(n, exit);
      return Continue;
    }

    /** The exit the round began with. */
    ghost function Begun(): Option<Exit>
      reads this`used
    {
      if used == [] then None else Some(used[0])
    }

    /** One pass of the exit loop. */
    method TryExit(n: nat) returns (next: Next)
      requires AtHead(n) && n <= job.Switches()
      modifies this, bond, world.Parts()
      ensures fresh(world.Parts() - old(world.Parts()))
      ensures next.Continue? ==> n < job.Switches() && AtHead(n + 1)
      ensures next.Break? ==> AtEnd(if lastErr then UpstreamFailed else NoAnswer)
      ensures next.Return? ==> AtEnd(next.outcome)
      ensures !next.Proceed? && old(used) <= used
      ensures n == 0 ==> Begun() == old(FirstExit())
    {
      hide Round.AtHead, Round.AtEnd, Round.JustTaken, Round.FirstExit, World.IsOpen;
      HeadIs(n);
      var exit := TakeExit(n);
      if exit.None? {
        NoneLeft(n);
        return if n == 0 then Return(NoExit) else Break;
      }
      next := UseExit(n, exit.value);
    }

    lemma HeadIs(n: nat)
      requires AtHead(n)
      ensures |used| == n
    {
    }

    lemma NoneLeft(n: nat)
      requires AtHead(n) && n <= job.Switches() && (world.IsOpen(job.policy) ==> n >= 2)
      ensures AtEnd(if n == 0 then NoExit else if lastErr then UpstreamFailed else NoAnswer)
    {
      hide Round.Books, CanSetUp, Good, RequestDriver.Differ, Round.Log, World.IsOpen, Round.AllCalled,
           Round.Excluded, Round.CrashDue;
      QuietEnd();
    }

    /** A round of a conversation: whatever others do meanwhile and however it ends, every slot is given
        back. */
    method Run() returns (outcome: RoundOutcome)
      requires Fresh() && world.Valid() && world.Ledger(multiset{})
      modifies this, bond, world.Parts()
      ensures world.Valid() && world.Ledger(multiset{})
      // the exits differ, and bound the work
      ensures |setups| == |used| <= job.Switches() + 1
      ensures forall i, j :: 0 <= i < j < |used| ==> used[i].id != used[j].id
      ensures |calls| <= |used| * job.Attempts() && AllCalled(|setups|)
      // every call goes on with the same turn of the conversation, over whichever exit; nothing follows
      // emitted text
      ensures Log()
      // the conversation notes the exit of its first round, and the last one after a switch
      ensures bond.exit == NotedAfter(noted, turn, used)
      // so after a good answer that is the one it came over, except for a later round that did not
      // switch and went over another than the noted one at once
      ensures outcome.Done? ==>
                && calls != []
                && (bond.exit == calls[|calls| - 1].exit <==> turn == 0 || |used| > 1 || used[0] == noted)
      // the exit it begins with is the one to be had then; that is the one noted before exactly if the
      // noted one can be had and, as it is not preferred in all cases, comes first
      ensures Begun() == old(FirstExit())
      // every exit given up was shut out, and no other one; every exit was set up as it should be, and the
      // cookie handed on; every call was booked on its exit (in `Log`)
      ensures Gone(outcome) && Cookies()
      ensures (used != [] && used[0].id == noted.id) <==> old(KeepsNoted())
      // the turn counts good answers
      ensures (outcome.Done? <==> !NoGood(calls)) && bond.turn == turn + (if outcome.Done? then 1 else 0)
      ensures outcome.Done? <==>
                calls != [] && var a := calls[|calls| - 1].answer; a.Response? && a.status == 200 && a.content
      ensures (outcome.Crashed? <==> CrashDue()) && Reason(outcome)
    {
      hide Round.Gone, Round.Cookies;
      hide Round.AtHead, Round.AtEnd, Round.FirstExit, Round.KeepsNoted, Round.Log, Round.Reason, Round.CrashDue,
           Round.AllCalled, NoGood, World.Valid, World.Ledger;
      Begins();
      KeepsNotedIff();
      outcome := Work();
      Summary(outcome);
      ReleaseCurrent();
    }

    /** All exits. */
    method Work() returns (outcome: RoundOutcome)
      requires AtHead(0)
      modifies this, bond, world.Parts()
      ensures fresh(world.Parts() - old(world.Parts())) && AtEnd(outcome)
      ensures Begun() == old(FirstExit())
    {
      hide Round.AtHead, Round.AtEnd, Round.FirstExit;
      ghost var first := FirstExit();
      var n := 0;
      while n <= job.Switches()
        invariant 0 <= n <= job.Switches() && AtHead(n) && fresh(world.Parts() - old(world.Parts()))
        invariant if n == 0 then FirstExit() == first else used != [] && Begun() == first
        decreases job.Switches() - n
      {
        HeadIs(n);
        var next := TryExit(n);
        if next.Return? {
          return next.outcome;
        }
        if next.Break? {
          return if lastErr then UpstreamFailed else NoAnswer;
        }
        n := n + 1;
        HeadIs(n);
      }
      assert false;
    }

    lemma Begins()
      requires Fresh() && world.Valid() && world.Ledger(multiset{})
      ensures AtHead(0)
    {
      hide World.Valid, World.Ledger;
    }

    lemma LogSays()
      requires Log()
      ensures |calls| <= RequestDriver.Budget(|setups|, job.Attempts())
      ensures calls != [] ==> var c := calls[|calls| - 1]; c.over < |used| && c.exit == used[c.over]
    {
      hide Good, CanSetUp, Round.IsSettled;
      assert calls != [] ==> Fits(calls[|calls| - 1], |calls| - 1);
    }

    lemma GoodLast()
      requires Log()
      ensures !NoGood(calls) <==> calls != [] && Good(calls[|calls| - 1].answer)
    {
      hide Good, CanSetUp, Round.Fits;
      assert calls != [] ==> calls[|calls| - 1] in calls;
    }

    lemma Summary(outcome: RoundOutcome)
      requires AtEnd(outcome)
      ensures Books() && |setups| == |used| <= job.Switches() + 1
      ensures forall i, j :: 0 <= i < j < |used| ==> used[i].id != used[j].id
      ensures |calls| <= |used| * job.Attempts() && AllCalled(|setups|) && Log() && Noted()
      ensures outcome.Done? ==>
                && calls != []
                && (bond.exit == calls[|calls| - 1].exit <==> turn == 0 || |used| > 1 || used[0] == noted)
      ensures (outcome.Done? <==> !NoGood(calls)) && bond.turn == turn + (if outcome.Done? then 1 else 0)
      ensures Gone(outcome) && Cookies()
      ensures outcome.Done? <==> calls != [] && Good(calls[|calls| - 1].answer)
      ensures (outcome.Crashed? <==> CrashDue()) && Reason(outcome)
    {
      hide Round.Gone, Round.Cookies, Round.Log, RequestDriver.Budget;
      hide Round.Books, CanSetUp, Good, NoGood, Round.AllCalled, Round.Reason, Round.CrashDue;
      LogSays();
      GoodLast();
      RequestDriver.BudgetIs(|setups|, job.Attempts());
      RequestDriver.BudgetIs(|used|, job.Attempts());
      RequestDriver.BudgetGrows(|setups|, |used|, job.Attempts());
    }
  }
}
