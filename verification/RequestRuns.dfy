/** Runs that end as one would not expect, whatever other requests do meanwhile: of a request, a call
    made after text was emitted, a call without all attachments, a call with two copies of the
    conversation, and a crash; of a conversation, a round over an exit it does not note, one that goes
    on over another exit, one that leaves a dynamic exit for another although it could be had, and one
    that stays with a proxy although its URL is cooling down. */
module RequestRuns {
  import opened Options
  import opened Text
  import opened RateLimit
  import opened ProxyPool
  import opened Egress
  import opened CookiePool
  import opened World
  import opened RequestLog
  import opened RequestDriver
  import opened RoundDriver

  /** No limits and no cooldowns, a remote pool, and the direct connection to fall back to. */
  function OpenPolicy(attempts: int): Policy {
    Policy(Config(Limits(0, 0, 0), attempts, 0, false), Auto, true, true)
  }

  /** A network that answers every call alike and every other step with success. */
  function Calm(answer: Answer, speaks: bool, upload: nat -> bool): Network {
    Network(n => true, upload, n => true, n => answer, n => speaks, n => [], n => "", n => false)
  }

  /** One account with a cookie, and a remote pool that always names the same proxy. */
  method Scene() returns (world: World)
    ensures fresh(world.Parts()) && world.Valid() && world.Ledger(multiset{})
    ensures forall attempts :: world.IsOpen(OpenPolicy(attempts))
    ensures world.readable(world.readings) && Enabled(world.accounts.table) != {}
    ensures forall id :: id in world.accounts.table ==> world.accounts.table[id].cookie == "c"
    ensures world.exits.pool.cache == []
  {
    hide SlotTable.Valid, SlotTable.Loads, UnusedBelow, Exits.DynamicValid, World.Ledger, TrimSpace;
    var pool := new ProxyTable();
    var exits := new Exits(pool);
    var accounts := new AccountPool();
    OneLetter();
    var id := accounts.Insert("c");
    assert id.value in Enabled(accounts.table);
    world := new World(exits, accounts, n => FetchOk("u"), n => true, 0);
  }

  lemma OneLetter()
    ensures TrimSpace("c") == "c"
  {
    TrimIs("", "c", "");
    assert "" + "c" + "" == "c";
  }

  /** What `Run` says about a request in such a scene. */
  ghost predicate IsRun(r: Request, outcome: RequestDriver.Outcome)
    reads r, r.world.Parts()
  {
    && r.world.IsOpen(r.job.policy) && r.CanLogIn()
    && UploadsFollow(r.uploads, |r.job.pending|, r.net) && Answered(r.calls, r.job, r.net) && Renewals(r.calls)
    && LateLaw(r.calls) && r.AllCalled(|r.ready|) && r.FilesSettled() && (r.calls != [] ==> r.ready != [])
    && (forall c :: c in r.calls ==> (Attachments(r.job.pending) <= c.files <==> !BrokeOff(r.uploads)))
    && (forall c :: c in r.calls ==> r.HasCopies(c))
    && (forall i, j :: 0 <= i < j < |r.used| ==> r.used[i].id != r.used[j].id)
    && (outcome.Done? <==> !Unanswered(r.calls)) && (outcome.Crashed? <==> r.CrashDue())
    && r.Reason(outcome) && r.Login() && r.ErrorsMeant() && |r.calls| <= (r.job.Switches() + 1) * r.job.PerExit()
  }

  lemma FirstHasCookie(r: Request, table: map<int, Account>, reading: nat)
    requires r.IsFirst(table, reading) && r.world.readable(reading) && Enabled(table) != {} && !r.job.anonFirst
    requires (forall id :: id in table ==> table[id].cookie == "c") && Kind(r.net)
    ensures r.CanLogIn()
  {
  }

  method Play(job: Job, net: Network) returns (r: Request, outcome: RequestDriver.Outcome)
    requires exists attempts :: job.policy == OpenPolicy(attempts)
    requires Kind(net) && !job.anonFirst
    ensures r.job == job && r.net == net && IsRun(r, outcome)
  {
    hide World.Valid, World.Ledger, World.IsOpen, Request.AllCalled, Request.FilesSettled, Request.HasCopies,
         Request.Reason, Request.Login, Request.ErrorsMeant, Request.CrashDue, Request.LeftAreShut, UploadsFollow,
         Answered, Renewals, LateLaw, BrokeOff, Unanswered, Enabled;
    var world := Scene();
    ghost var attempts :| job.policy == OpenPolicy(attempts);
    assert world.IsOpen(OpenPolicy(attempts));
    r := new Request(world, job, net);
    ghost var table, reading := world.accounts.table, world.readings;
    outcome := r.Run();
    FirstHasCookie(r, table, reading);
  }

  // ---------------------------------------------------------------- what such a run cannot end with

  /** It got as far as a call, if attempts are made and not every exit lost an attachment. */
  lemma {:induction false} GotSoFar(r: Request, outcome: RequestDriver.Outcome)
    requires IsRun(r, outcome) && r.job.Attempts() > 0
    requires r.job.longPrompt ==> !r.job.longInstruction && r.net.conversation(|r.ready|)
    requires outcome.UploadFailed? ==> false
    requires Fails(r.uploads) < (if r.job.Switches() > 0 then 2 else 1)
    ensures r.calls != []
    ensures Silent(r.calls) && !outcome.Done? ==>
              && r.RanOut() && |r.ready| == |r.used| - Fails(r.uploads)
              && |r.used| >= (if r.job.Switches() > 0 then 2 else 1)
  {
    hide AllTokens, UploadsFollow, Fails, Answered, Renewals, LateLaw, BrokeOff;
    assert r.calls == [] ==> |r.ready| > 0 && HasCall(r.calls, 1);
  }

  // ---------------------------------------------------------------- four runs

  /** Text of the refused answer is emitted all the same, and the call repeated with a new token. */
  method LateCall() returns (r: Request)
    ensures exists i: nat :: 0 < i < |r.calls| && TextBy(r.calls, i)
  {
    var job := Job(OpenPolicy(1), 0, false, false, [], false, false, true);
    var net := Calm(Answer.Response(400, true, false), true, n => true);
    var outcome: RequestDriver.Outcome;
    r, outcome := Play(job, net);
    NoUploads(r, outcome);
    GotSoFar(r, outcome);
    RepeatsFirst(r, outcome);
  }

  lemma NoUploads(r: Request, outcome: RequestDriver.Outcome)
    requires IsRun(r, outcome) && r.job.pending == []
    ensures r.uploads == [] && Fails(r.uploads) == 0 && !outcome.UploadFailed?
  {
    hide AllTokens, Answered, Renewals, LateLaw, BrokeOff;
    assert r.uploads != [] ==> UploadFits(r.uploads, 0, 0, r.net);
  }

  lemma {:induction false} RepeatsFirst(r: Request, outcome: RequestDriver.Outcome)
    requires IsRun(r, outcome) && r.calls != []
    requires r.job.streaming && r.net.speaks(0) && IsRefusal(r.net.answer(0))
    ensures |r.calls| == 2 && TextBy(r.calls, 1)
  {
    hide AllTokens, UploadsFollow, Fails, BrokeOff, IsRefusal;
    var c := r.calls[0];
    assert c in r.calls && c.cookie && c.renewed != Some(false);
    assert c.answer == r.net.answer(0) && c.spoke;
    assert RenewalFits(r.calls, 0) && !Retried(r.calls[..0], c.round);
    assert c.renewed.Some? && c.renewed.value;
  }

  /** The second of two attachments does not arrive, and the next exit makes do with the first. */
  method HalfUploaded() returns (r: Request)
    ensures exists c :: c in r.calls && !(Attachments(r.job.pending) <= c.files)
  {
    var job := Job(OpenPolicy(1), 1, false, false, ["a", "b"], false, false, false);
    var net := Calm(Answer.Response(200, false, true), false, n => n != 1);
    var outcome: RequestDriver.Outcome;
    r, outcome := Play(job, net);
    SecondFails(r, outcome);
    GotSoFar(r, outcome);
    BreaksOff(r, outcome);
    assert r.calls[0] in r.calls;
  }

  /** Another exit after one that gave no answer takes another copy of the conversation. */
  method SecondCopy() returns (r: Request)
    ensures exists c :: c in r.calls && multiset(c.files)[Conversation] == 2
  {
    var job := Job(OpenPolicy(1), 1, false, false, [], true, false, false);
    var net := Calm(NoResponse, false, n => true);
    var outcome: RequestDriver.Outcome;
    r, outcome := Play(job, net);
    NoUploads(r, outcome);
    GotSoFar(r, outcome);
    SecondRound(r, outcome);
  }

  /** With attempts switched off the request gets to the point of giving up a proxy without an
      error to report. */
  method Crash() returns (r: Request, outcome: RequestDriver.Outcome)
    ensures outcome.Crashed?
  {
    var job := Job(OpenPolicy(0), 2, false, false, [], false, false, false);
    var net := Calm(NoResponse, false, n => true);
    r, outcome := Play(job, net);
    NoUploads(r, outcome);
    CrashesAtProxy(r, outcome);
  }

  lemma {:induction false} TwoUploads(uploads: seq<Upload>, net: Network)
    requires UploadsFollow(uploads, 2, net) && net.upload(0) && !net.upload(1)
    ensures Fails(uploads) < 2 && Uploaded(uploads) < 2
  {
    var n := |uploads|;
    if n > 0 {
      var first := uploads[..1];
      assert UploadFits(uploads, 0, 2, net) && uploads[..0] == [] && first[..0] == [];
      assert Uploaded(first) == 1 && Fails(first) == 0;
      if n > 1 {
        assert UploadFits(uploads, 1, 2, net) && uploads[..2][..1] == first;
        assert n > 2 ==> UploadFits(uploads, 2, 2, net);
        assert uploads[..2] == uploads;
      } else {
        assert first == uploads;
      }
    }
  }

  lemma {:induction false} SecondFails(r: Request, outcome: RequestDriver.Outcome)
    requires IsRun(r, outcome) && |r.job.pending| == 2 && r.net.upload(0) && !r.net.upload(1) && r.job.Switches() == 1
    ensures Fails(r.uploads) < 2 && !outcome.UploadFailed?
  {
    hide AllTokens, Answered, Renewals, LateLaw, BrokeOff, UploadsFollow, Fails;
    TwoUploads(r.uploads, r.net);
  }

  lemma {:induction false} BreaksOff(r: Request, outcome: RequestDriver.Outcome)
    requires IsRun(r, outcome) && |r.job.pending| == 2 && r.net.upload(0) && !r.net.upload(1) && r.ready != []
    ensures BrokeOff(r.uploads)
  {
    hide AllTokens, Answered, Renewals, LateLaw, BrokeOff, UploadsFollow, Fails, Uploaded;
    TwoUploads(r.uploads, r.net);
  }

  lemma {:induction false} SecondRound(r: Request, outcome: RequestDriver.Outcome)
    requires IsRun(r, outcome) && r.job.longPrompt && r.job.Attempts() > 0 && |r.ready| >= 2
    ensures exists c :: c in r.calls && multiset(c.files)[Conversation] == 2
  {
    hide AllTokens, UploadsFollow, Fails, Answered, Renewals, LateLaw, BrokeOff;
    assert HasCall(r.calls, 2);
    var c :| c in r.calls && c.round == 2;
    assert r.HasCopies(c);
  }

  lemma {:induction false} CrashesAtProxy(r: Request, outcome: RequestDriver.Outcome)
    requires IsRun(r, outcome) && r.job.Attempts() == 0 && r.job.Switches() == 2 && r.uploads == [] && !r.job.longPrompt
    requires r.job.pending == []
    ensures outcome.Crashed?
  {
    hide AllTokens, UploadsFollow, Answered, Renewals, LateLaw, BrokeOff, Fails;
    NoUploads(r, outcome);
    assert r.calls == [];
    if outcome.UpstreamFailed? || outcome.NoAnswer? {
      TwoExitsCrash(r);
    }
  }

  /** One of two exits is a proxy. */
  lemma {:induction false} TwoExitsCrash(r: Request)
    requires r.Balance(0) && Fails(r.uploads) == 0 && |r.used| >= 2 && r.used[0].id != r.used[1].id
    requires r.job.Attempts() == 0 && r.job.Switches() == 2
    ensures r.CrashDue()
  {
    hide Fails;
    var i := if r.used[0].id != 0 then 0 else 1;
    assert r.ready[i] == Stop(i, r.used[i]) && r.ready[i] in r.ready;
  }

  // ---------------------------------------------------------------- rounds of a conversation

  /** A network that serves every session and token, answers the first call with `first` and every
      other one well. */
  function Serving(first: Answer): RoundNet {
    RoundNet(n => Some("s"), n => true, n => if n == 0 then first else Answer.Response(200, false, true), n => false,
             n => [])
  }

  /** The second round of a conversation that noted proxy 7, which is not in the pool. */
  method PlayRound(job: Job, first: Answer) returns (r: Round, outcome: RoundOutcome)
    requires exists attempts :: job.policy == OpenPolicy(attempts)
    ensures r.job == job && r.net == Serving(first) && r.turn == 1 && r.noted == Exit(7, "http://a")
    ensures r.bond.exit == NotedAfter(r.noted, r.turn, r.used) && r.Log() && r.AllCalled(|r.setups|)
    ensures |r.setups| == |r.used| && |r.calls| <= |r.used| * r.job.Attempts() && (r.used != [] ==> r.used[0].id != 7)
    ensures forall i, j :: 0 <= i < j < |r.used| ==> r.used[i].id != r.used[j].id
    ensures (outcome.Done? <==> !NoGood(r.calls)) && (outcome.Crashed? <==> r.CrashDue()) && r.Reason(outcome)
    ensures r.world.IsOpen(job.policy) && CanSetUp(r.net)
  {
    hide World.Valid, World.Ledger, World.IsOpen, Enabled, Round.Log, Round.AllCalled, Round.CrashDue, Round.Reason,
         NoGood, Round.KeepsNoted, Round.FirstExit;
    var world := Scene();
    ghost var attempts :| job.policy == OpenPolicy(attempts);
    assert world.IsOpen(OpenPolicy(attempts));
    var bond := new Bond(1, "s", false, Exit(7, "http://a"));
    r := new Round(world, job, Serving(first), bond);
    NothingToKeep(r);
    outcome := r.Run();
  }

  lemma NothingToKeep(r: Round)
    requires r.world.exits.pool.cache == [] && r.job.policy.pool.cooldownMin == 0 && r.job.policy.mode.Auto?
    ensures r.noted.id > 0 ==> !r.KeepsNoted()
  {
  }

  /** It goes over another exit, and still notes the proxy it had. */
  method OtherExit() returns (r: Round, outcome: RoundOutcome)
    ensures outcome.Done? && |r.calls| == 1 && r.calls[0].turn > 0 && r.calls[0].exit != r.bond.exit == r.noted
  {
    r, outcome := PlayRound(Job(OpenPolicy(1), 1, false, false, [], false, false, false),
                            Answer.Response(200, false, true));
    AnsweredAtOnce(r, outcome);
  }

  lemma {:induction false} GotAnAnswer(r: Round, outcome: RoundOutcome)
    requires r.world.IsOpen(r.job.policy) && CanSetUp(r.net) && r.Log() && r.AllCalled(|r.setups|) && r.Reason(outcome)
    requires r.job.Attempts() > 0 && (outcome.Done? <==> !NoGood(r.calls)) && (outcome.Crashed? <==> r.CrashDue())
    requires |r.setups| == |r.used|
    ensures r.calls != []
    ensures forall i: nat :: i < |r.setups| ==> WasCalled(r.calls, i)
  {
    hide World.IsOpen;
    forall i | 0 <= i < |r.setups|
      ensures r.setups[i]
    {
      assert r.setups[i] in r.setups;
    }
    assert r.setups != [] ==> WasCalled(r.calls, 0);
  }

  lemma {:induction false} AnsweredAtOnce(r: Round, outcome: RoundOutcome)
    requires r.world.IsOpen(r.job.policy) && CanSetUp(r.net) && r.Log() && r.AllCalled(|r.setups|) && r.Reason(outcome)
    requires r.job.Attempts() > 0 && (outcome.Done? <==> !NoGood(r.calls)) && (outcome.Crashed? <==> r.CrashDue())
    requires |r.setups| == |r.used| && Good(r.net.answer(0)) && r.turn > 0
    requires r.bond.exit == NotedAfter(r.noted, r.turn, r.used) && (r.used != [] ==> r.used[0].id != r.noted.id)
    ensures outcome.Done? && |r.calls| == 1 && r.calls[0].turn == r.turn && r.calls[0].exit != r.bond.exit == r.noted
  {
    hide Round.IsSettled, World.IsOpen, Round.CrashDue, Round.Reason, Good, CanSetUp;
    GotAnAnswer(r, outcome);
    assert r.Fits(r.calls[0], 0) && r.calls[0] in r.calls;
    assert |r.calls| == 1;
    assert |r.used| > 1 ==> WasCalled(r.calls, 0) && WasCalled(r.calls, 1);
  }

  /** The first exit gives no answer, so the round goes on over another one, with the same turn of the
      same conversation, and that is the exit noted in the end. */
  method SwitchedExit() returns (r: Round, outcome: RoundOutcome)
    ensures exists c, d :: c in r.calls && d in r.calls && c.turn == d.turn == r.turn > 0 && c.exit.id != d.exit.id
                           && d.exit == r.bond.exit
  {
    r, outcome := PlayRound(Job(OpenPolicy(1), 1, false, false, [], false, false, false), NoResponse);
    GoesOn(r, outcome);
  }

  lemma {:induction false} GoesOn(r: Round, outcome: RoundOutcome)
    requires r.world.IsOpen(r.job.policy) && CanSetUp(r.net) && r.Log() && r.AllCalled(|r.setups|) && r.Reason(outcome)
    requires r.job.Attempts() == 1 && r.job.Switches() == 1
    requires (outcome.Done? <==> !NoGood(r.calls)) && (outcome.Crashed? <==> r.CrashDue())
    requires |r.setups| == |r.used| && |r.calls| <= |r.used| && !Good(r.net.answer(0)) && !r.net.speaks(0)
    requires r.turn > 0 && r.bond.exit == NotedAfter(r.noted, r.turn, r.used)
    requires forall i, j :: 0 <= i < j < |r.used| ==> r.used[i].id != r.used[j].id
    ensures exists c, d :: c in r.calls && d in r.calls && c.turn == d.turn == r.turn && c.exit.id != d.exit.id
                           && d.exit == r.bond.exit
  {
    hide Round.IsSettled, World.IsOpen, Round.CrashDue, Round.Reason, Round.AllCalled, Good, NoGood, CanSetUp;
    GotAnAnswer(r, outcome);
    TwoExits(r, outcome);
    var n := |r.used| - 1;
    var c, i := CallOver(r, 0);
    var d, j := CallOver(r, n);
  }

  /** With one attempt each, the good answer came over a second exit, or two exits gave none. */
  lemma {:induction false} TwoExits(r: Round, outcome: RoundOutcome)
    requires r.world.IsOpen(r.job.policy) && CanSetUp(r.net) && r.Log() && r.Reason(outcome) && r.job.Switches() == 1
    requires r.job.Attempts() == 1 && (outcome.Done? <==> !NoGood(r.calls)) && (outcome.Crashed? <==> r.CrashDue())
    requires |r.setups| == |r.used| && |r.calls| <= |r.used| && !Good(r.net.answer(0)) && !r.net.speaks(0)
    requires r.calls != []
    ensures |r.used| >= 2
  {
    hide Round.IsSettled, World.IsOpen, Good;
    assert r.Fits(r.calls[0], 0);
  }

  lemma CallOver(r: Round, n: nat) returns (c: RoundCall, i: nat)
    requires r.Log() && WasCalled(r.calls, n)
    ensures i < |r.calls| && r.calls[i] == c && c in r.calls && c.over == n < |r.used|
    ensures c.exit == r.used[n] && c.turn == r.turn
  {
    hide Round.IsSettled, CanSetUp, Good;
    c :| c in r.calls && c.over == n;
    i :| 0 <= i < |r.calls| && r.calls[i] == c;
    assert r.Fits(c, i);
  }

  /** A conversation that noted a dynamic exit, which is known, has room and is not cooling down, when
      the remote pool names another one. */
  method NotedDynamic() returns (r: Round)
    ensures fresh(r) && fresh(r.bond) && fresh(r.world.Parts()) && r.Fresh() && r.turn == 1
    ensures r.world.Valid() && r.world.Ledger(multiset{}) && r.job.policy.hasPoolURL
    ensures r.noted.id in r.world.exits.dynamicURLs && r.world.exits.dynamicURLs[r.noted.id] == r.noted.url == "u"
    ensures Room(r.world.exits.slots.Loads(), r.noted.id, r.world.now, r.job.policy.pool)
    ensures !r.world.exits.Cooling(r.noted.url, r.world.now, r.job.policy.pool)
    ensures r.FirstExit().Some? && r.FirstExit().value.url == "v" && r.FirstExit().value.id != r.noted.id
  {
    hide SlotTable.Loads, Exits.Valid, World.Valid, World.Ledger, Room;
    var policy := Policy(Config(Limits(0, 0, 0), 1, 5, false), DynamicOnly, true, false);
    var exits, noted := OneDynamic(policy.pool);
    r := Second(exits, policy, noted, n => FetchOk("v"));
    PoolNamesNext(r);
  }

  /** A dynamic exit that is known and was never used. */
  method OneDynamic(cfg: Config) returns (exits: Exits, noted: Exit)
    ensures fresh(exits) && fresh(exits.pool) && fresh(exits.slots) && fresh(exits.slots.slots.Values)
    ensures exits.Valid() && exits.slots.clock == 0 && forall id :: exits.slots.Loads()[id] == UNUSED
    ensures noted.id in exits.dynamicURLs && exits.dynamicURLs[noted.id] == noted.url == "u"
    ensures exits.dynamicIds == map["u" := noted.id] && exits.dynamicStats == map[]
    ensures exits.nextDynamicId < noted.id && Room(exits.slots.Loads(), noted.id, 0, cfg)
  {
    hide SlotTable.Valid, SlotTable.Loads, UnusedBelow, Room;
    var pool := new ProxyTable();
    exits := new Exits(pool);
    var id := exits.SlotFor("u", 0, cfg);
    noted := Exit(id, "u");
  }

  /** The second round of a conversation over exits that nobody uses. */
  method Second(exits: Exits, policy: Policy, noted: Exit, fetches: nat -> Fetched) returns (r: Round)
    requires exits.Valid() && exits.slots.clock <= 0 && forall id :: exits.slots.Loads()[id] == UNUSED
    ensures fresh(r) && fresh(r.bond)
    ensures fresh(r.world.Parts() - {exits, exits.pool, exits.slots} - exits.slots.slots.Values)
    ensures r.Fresh() && r.world.Valid() && r.world.Ledger(multiset{}) && r.turn == 1 && r.noted == noted
    ensures r.world.exits == exits && r.job.policy == policy
    ensures r.world.now == r.world.asked == 0 && r.world.fetches == fetches
  {
    hide Exits.Valid, SlotTable.Loads, World.Ledger;
    var accounts := new AccountPool();
    var world := new World(exits, accounts, fetches, n => true, 0);
    var bond := new Bond(1, "s", false, noted);
    r := new Round(world, Job(policy, 1, false, false, [], false, false, false), Serving(NoResponse), bond);
  }

  lemma PoolNamesNext(r: Round)
    requires r.job.policy.mode.DynamicOnly? && r.job.policy.hasPoolURL && !r.job.policy.pool.sticky
    requires r.world.fetches(r.world.asked) == FetchOk("v")
    requires r.world.exits.dynamicStats == map[] && "v" !in r.world.exits.dynamicIds
    requires r.world.exits.nextDynamicId != r.noted.id
    ensures r.FirstExit().Some? && r.FirstExit().value.url == "v" && r.FirstExit().value.id != r.noted.id
  {
    hide SlotTable.Loads, Room;
    assert r.world.Answers()(0) == FetchOk("v");
  }

  /** The round goes over the other one. */
  method OtherDynamic() returns (r: Round, outcome: RoundOutcome)
    ensures r.noted.url == "u" && r.used != [] && r.used[0].url == "v" && r.used[0].id != r.noted.id
  {
    hide World.Valid, World.Ledger, Round.Fresh, Round.FirstExit, Round.Log, Round.AllCalled, Round.CrashDue,
         Round.Reason, NoGood, Room;
    r := NotedDynamic();
    outcome := r.Run();
  }

  /** A conversation that noted the only proxy of the pool, whose URL is cooling down. */
  method NotedCooling() returns (r: Round)
    ensures fresh(r) && fresh(r.bond) && fresh(r.world.Parts()) && r.Fresh() && r.turn == 1
    ensures r.world.Valid() && r.world.Ledger(multiset{}) && r.noted.id > 0
    ensures r.world.exits.Cooling(r.noted.url, r.world.now, r.job.policy.pool)
    ensures r.FirstExit() == Some(r.noted)
  {
    hide SlotTable.Loads, Exits.Valid, World.Valid, World.Ledger, Room, Usable, IsCooling;
    var policy := Policy(Config(Limits(0, 0, 0), 1, 5, false), StaticOnly, false, false);
    var exits, noted := OneProxy(policy.pool);
    r := Second(exits, policy, noted, n => FetchFails);
    OnlyOneInTurn(r);
  }

  /** A pool of one proxy that was never used, but whose URL failed in the dynamic pool. */
  method OneProxy(cfg: Config) returns (exits: Exits, noted: Exit)
    requires cfg.cooldownMin > 0
    ensures fresh(exits) && fresh(exits.pool) && fresh(exits.slots) && fresh(exits.slots.slots.Values)
    ensures exits.Valid() && exits.slots.clock == 0 && forall id :: exits.slots.Loads()[id] == UNUSED
    ensures noted.id > 0 && noted.url != "" && |exits.pool.cache| == 1
    ensures var p := exits.pool.cache[0];
            noted == Exit(p.id, p.url) && Usable(p, 0, cfg) && Room(exits.slots.Loads(), p.id, 0, cfg)
    ensures exits.Cooling(noted.url, 0, cfg)
  {
    hide SlotTable.Valid, SlotTable.Loads, Room, Exits.DynamicValid, HasProxyScheme;
    var url, name := "http://a", "p";
    SchemeOf(url);
    assert name[0] == 'p' && url[0] == 'h';
    var pool := new ProxyTable();
    exits := new Exits(pool);
    var id := pool.Create(name, url, 1, 0, ReadAll);
    OneListed(pool.cache, pool.table, id.value);
    UnusedHasRoom(exits.slots.Loads(), id.value, id.value, 0, cfg);
    noted := Exit(id.value, url);
    exits.ForceDynamic(url, 0, cfg);
  }

  lemma OneListed(list: seq<Proxy>, table: map<int, Proxy>, id: int)
    requires IsListing(list, table) && table.Keys == {id}
    ensures list == [table[id]]
  {
    assert Lists(list, id);
    assert forall i :: 0 <= i < |list| ==> list[i].id in table.Keys;
    NotTwo(list, id);
  }

  lemma NotTwo(list: seq<Proxy>, id: int)
    requires IdsIncrease(list) && forall i :: 0 <= i < |list| ==> list[i].id == id
    ensures |list| <= 1
  {
    if |list| > 1 {
      FirstTwo(list);
      assert false;
    }
  }

  lemma FirstTwo(list: seq<Proxy>)
    requires IdsIncrease(list) && |list| > 1
    ensures list[0].id < list[1].id
  {
  }

  lemma OnlyOneInTurn(r: Round)
    requires r.job.policy.mode.StaticOnly? && r.world.exits.Cooling(r.noted.url, r.world.now, r.job.policy.pool)
    requires !r.job.policy.pool.sticky && |r.world.exits.pool.cache| == 1
    requires var p := r.world.exits.pool.cache[0];
             && r.noted == Exit(p.id, p.url) && Usable(p, r.world.now, r.job.policy.pool)
             && Room(r.world.exits.slots.Loads(), p.id, r.world.now, r.job.policy.pool)
    ensures r.FirstExit() == Some(r.noted)
  {
    hide SlotTable.Loads, Room, Usable, IsCooling;
    var cache := r.world.exits.pool.cache;
    var p, cfg := cache[0], r.job.policy.pool;
    assert cache[..0] == [] && Candidates([], {}, r.world.now, cfg) == [];
    var list := Candidates(cache, {}, r.world.now, cfg);
    assert list == [p];
    assert InTurn(list, r.world.exits.cursor, 0) == p;
  }

  /** The round goes over it all the same. */
  method StaysWithCooling() returns (r: Round, outcome: RoundOutcome)
    ensures r.used != [] && r.used[0] == r.noted
  {
    hide World.Valid, World.Ledger, Round.Fresh, Round.FirstExit, Round.Log, Round.AllCalled, Round.CrashDue,
         Round.Reason, NoGood, Round.KeepsNoted;
    r := NotedCooling();
    outcome := r.Run();
  }
}
