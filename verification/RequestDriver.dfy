/** One generation request from end to end (`streamGenerateWithFiles`): picking an account and an
    exit, uploading attachments, retrying, switching exits, and giving every slot back. */
module RequestDriver {
  import opened Options
  import opened ProxyPool
  import opened Egress
  import opened CookieJar
  import opened CookiePool
  import opened World
  import opened Effects
  import opened RequestLog

  const MAX_COOKIE_TRIES := 3

  /** The exits differ; those of the dynamic pool are known by their URL. */
  ghost predicate Differ(used: seq<Exit>, urls: map<int, string>) {
    && (forall i, j :: 0 <= i < j < |used| ==> used[i].id != used[j].id)
    && (forall i :: 0 <= i < |used| && used[i].id < 0 ==> HasItsURL(used[i], urls))
  }

  ghost predicate HasItsURL(e: Exit, urls: map<int, string>) {
    e.url != "" && e.id in urls && urls[e.id] == e.url
  }

  lemma StillDiffer(used: seq<Exit>, urls: map<int, string>, now: map<int, string>)
    requires Differ(used, urls) && forall i :: i in urls ==> i in now && now[i] == urls[i]
    ensures Differ(used, now)
  {
  }

  ghost predicate Excludes(ids: set<int>, urls: set<string>, e: Exit) {
    e.id in ids && (e.url != "" ==> e.url in urls)
  }

  /** Exclusion makes the next exit a new one: a static one by its id, a dynamic one by its URL,
      which determines its id. */
  lemma {:induction false} OneMoreExit(used: seq<Exit>, e: Exit, urls: map<int, string>, ids: set<int>,
                                       excluded: set<string>)
    requires Differ(used, urls) && forall i :: 0 <= i < |used| ==> Excludes(ids, excluded, used[i])
    requires e.id >= 0 ==> e.id !in ids
    requires e.id < 0 ==> HasItsURL(e, urls) && e.url !in excluded
    ensures Differ(used + [e], urls)
  {
    var all := used + [e];
    forall i | 0 <= i < |used|
      ensures all[i] == used[i] && all[i].id != e.id
    {
      assert Excludes(ids, excluded, used[i]);
    }
  }

  datatype Outcome =
    | Done | NoExit | AccountsDead | NeedsAccount | UploadFailed | ConversationNotSent | TooLong
    | UpstreamFailed | NoAnswer | Crashed

  datatype Next = Return(outcome: Outcome) | Break | Continue | Proceed

  datatype Step = Succeed | GiveUp | Again | AgainUncounted

  class Request {
    const world: World
    const job: Job
    const net: Network
    var acct: Option<Account>
    var preferProxy: int
    var cookieStr: string
    var cookieID: int
    var accountsFailed: bool
    var tried: set<int>
    var rotatedOnce: set<int>
    var slotHeld: bool
    var currentSlotID: int
    var excludedIDs: set<int>
    var excludedURLs: set<string>
    var files: seq<File>
    var emitted: bool
    var lastErr: bool
    var lastStatus: int
    var tokens: nat              // the tokens fetched so far
    var uploads: seq<Upload>     // the attachments sent
    var ready: seq<Stop>         // the exits over which it got as far as generating
    var calls: seq<Call>         // the generation calls made
    var tries: seq<Try>          // the accounts tried
    var closing: Option<Mark>    // what is marked on the account at the end
    ghost var used: seq<Exit>    // the exits acquired, in order
    ghost var shuts: seq<Shut>   // the proxies given up
    ghost var first: Option<Account> // the account picked at the start

    constructor (world: World, job: Job, net: Network)
      requires world.Valid() && world.Ledger(multiset{})
      ensures this.world == world && this.job == job && this.net == net && Fresh()
    {
      this.world, this.job, this.net := world, job, net;
      acct, first, preferProxy, cookieStr, cookieID, accountsFailed := None, None, 0, "", 0, false;
      tried, rotatedOnce, slotHeld, currentSlotID, tokens := {}, {}, false, 0, 0;
      excludedIDs, excludedURLs, files, emitted, lastErr, lastStatus := {}, {}, [], false, false, 0;
      used, uploads, ready, calls, shuts, tries, closing := [], [], [], [], [], [], None;
    }

    ghost predicate Fresh()
      reads this
    {
      && acct == first && cookieStr == "" && cookieID == 0 && !accountsFailed && tried == {} && rotatedOnce == {}
      && !slotHeld && excludedIDs == {} && excludedURLs == {} && files == [] && !emitted && !lastErr
      && used == [] && uploads == [] && ready == [] && calls == [] && shuts == [] && tries == [] && closing.None?
      && lastStatus == 0
    }

    // -------------------------------------------------------------- invariants

    /** The slots this request holds. */
    ghost function Held(): multiset<int>
      reads this`slotHeld, this`currentSlotID
    {
      if slotHeld then multiset{currentSlotID} else multiset{}
    }

    /** Every slot in flight is accounted for. */
    ghost predicate Books()
      reads this`slotHeld, this`currentSlotID, world.Parts()
    {
      world.Valid() && world.Ledger(Held())
    }

    ghost predicate ExitsDiffer()
      reads this`used, world.exits
    {
      Differ(used, world.exits.dynamicURLs)
    }

    /** The first `n` exits used are excluded. */
    ghost predicate Excluded(n: nat)
      reads this`used, this`excludedIDs, this`excludedURLs
    {
      n <= |used| && forall i :: 0 <= i < n ==> Excludes(excludedIDs, excludedURLs, used[i])
    }

    /** Nothing else is, as far as the second exit has to do with it. */
    ghost predicate ExcludedFew(turn: nat)
      reads this`used, this`excludedIDs, this`excludedURLs
    {
      && (used != [] && used[0].id == 0 ==> used[0].url == "")
      && (turn == 0 ==> excludedIDs == {} && excludedURLs == {})
      && (turn == 1 ==>
            && used != [] && excludedIDs == {used[0].id}
            && excludedURLs == if used[0].url != "" then {used[0].url} else {})
    }

    /** The first `n` exits used, as far as they were proxies, were shut out when given up. */
    ghost predicate LeftAreShut(n: nat)
      reads this`used, this`shuts
    {
      n <= |used| && ShutsFit() && ShutAll(shuts, used, n)
    }

    ghost predicate ShutsFit()
      reads this`shuts
    {
      forall s :: s in shuts ==> IsShut(s, job.policy.pool)
    }

    /** Only the first `n` exits were. */
    ghost predicate ShutOnly(n: nat)
      reads this`used, this`shuts
    {
      n <= |used| && OnlyShut(shuts, used, n)
    }

    /** The exit is known by its URL, if it is dynamic. */
    ghost predicate Known(exit: Exit)
      reads world.exits
    {
      exit.id < 0 ==> HasItsURL(exit, world.exits.dynamicURLs)
    }

    /** The account in use is the one the tries tell of. */
    ghost predicate Roster()
      reads this`acct, this`first, this`accountsFailed, this`cookieID, this`tried, this`rotatedOnce, this`tries
    {
      && TriesFollow(tries, first, job, net) && acct == AtHand(tries, first) && cookieID == LastId(tries)
      && (accountsFailed <==> Refused(tries)) && tried == TriedIds(tries)
      && AreRotated(rotatedOnce, tries)
    }

    /** So is the cookie, and every call was booked as it should be. */
    ghost predicate Told()
      reads this`first, this`cookieStr, this`lastStatus, this`tries, this`calls
    {
      && cookieStr == CookieAt(tries, calls) && AllTold(calls, tries, first, net) && IsLastStatus(calls, lastStatus)
      && (calls != [] ==> calls[|calls| - 1].deeds.tries <= |tries|) && GoodIsLast(calls)
    }

    /** `files` holds a prefix of the attachments, then one copy of the conversation per exit. */
    ghost predicate FilesFollow()
      reads this`files, this`uploads, this`ready
    {
      && FilesSettled()
      && files == Attachments(job.pending[..Uploaded(uploads)]) + Copies(if job.longPrompt then |ready| else 0)
    }

    /** No upload is under way, and none is to come once an exit got so far. */
    ghost predicate FilesSettled()
      reads this`uploads, this`ready
    {
      && UploadsFollow(uploads, |job.pending|, net) && Uploaded(uploads) <= |job.pending|
      && (uploads == [] || !uploads[|uploads| - 1].ok || Uploaded(uploads) == |job.pending|)
      && (ready != [] ==> AllUp() && (job.longPrompt ==> !job.longInstruction))
    }

    /** As far as the code can tell, all attachments are up. */
    ghost predicate AllUp()
      reads this`uploads
    {
      Uploaded(uploads) == |job.pending| || BrokeOff(uploads)
    }

    ghost predicate CallsFollow()
      reads this`calls, this`uploads, this`ready
    {
      && Uploaded(uploads) <= |job.pending| && (ready == [] ==> calls == [])
      && CallsCarry(calls, Uploaded(uploads), ready, job) && Answered(calls, job, net) && Renewals(calls)
    }

    ghost predicate Stopped(exit: Exit)
      reads this`ready
    {
      ready != [] && ready[|ready| - 1].exit == exit
    }

    /** Nothing was emitted yet. */
    ghost predicate Hushed()
      reads this`emitted, this`calls
    {
      !emitted && Silent(calls)
    }

    ghost predicate AllCalled(n: int)
      reads this`calls
    {
      job.Attempts() > 0 ==> Called(calls, n)
    }

    /** Each exit but the last `d` got as far as generating, or lost an attachment. */
    ghost predicate Balance(d: nat)
      reads this`used, this`ready, this`uploads
    {
      |used| == |ready| + Fails(uploads) + d && StopsFollow(ready, used, uploads)
    }

    /** There is an error to report exactly if an upload failed or a call was made, none with a good
        answer. */
    ghost predicate ErrorsMeant()
      reads this`lastErr, this`calls, this`uploads
    {
      && (Unanswered(calls) ==> (lastErr <==> calls != [] || Fails(uploads) > 0))
      && (Fails(uploads) > 0 ==> lastErr)
    }

    /** With a network that refuses no token, the first account is the one used all along. */
    ghost predicate Login()
      reads this`acct, this`first, this`accountsFailed, this`cookieStr, this`tried, this`calls
    {
      && (AllTokens(net) ==> !accountsFailed)
      && (CanLogIn() ==>
            && acct == first && (cookieStr == "" ==> tried == {})
            && (cookieStr == "" || cookieStr == first.value.cookie)
            && forall c :: c in calls ==> c.cookie && c.renewed != Some(false))
    }

    ghost predicate CanLogIn()
      reads this`first
    {
      Kind(net) && first.Some? && first.value.cookie != ""
    }

    ghost predicate LoggedIn()
      reads this`first, this`cookieStr, this`tries
    {
      && (CanLogIn() ==> cookieStr == first.value.cookie)
      && (cookieStr == "" ==> IsAlone(tries, first))
    }

    /** What the log says while nothing has been emitted; calls went over the first `n` exits that
        got so far. */
    ghost predicate Story(d: nat, n: int)
      reads this`calls, this`uploads, this`ready, this`used, this`emitted, this`lastErr
    {
      CallsFollow() && Hushed() && AllCalled(n) && Balance(d) && ErrorsMeant() && Unanswered(calls)
    }

    /** A request is none of the parts it shares. */
    lemma NotShared()
      ensures this !in world.Parts() && world in world.Parts() && world.accounts in world.Parts()
    {
    }

    // -------------------------------------------------------------- slots

    /** `releaseCurrentSlot`. */
    method ReleaseCurrent()
      requires Books()
      modifies this`slotHeld, world.Parts()
      ensures fresh(world.Parts() - old(world.Parts()))
      ensures !slotHeld && Books() && world.exits.KeepsDynamicIds(old(world.exits.dynamicURLs))
    {
      hide World.Valid, World.Ledger;
      if slotHeld {
        world.Release(currentSlotID, Held());
        assert multiset{currentSlotID} - multiset{currentSlotID} == multiset{};
        slotHeld := false;
      }
    }

    // -------------------------------------------------------------- accounts

    /** `getXSRF`: the token is fetched over the network unless there is no cookie at all. */
    method GetXsrf(cookie: string) returns (ok: bool)
      requires Books()
      modifies this`tokens, world.Parts()
      ensures fresh(world.Parts() - old(world.Parts()))
      ensures Books() && world.exits.KeepsDynamicIds(old(world.exits.dynamicURLs))
      ensures ok <==> cookie == "" || net.token(old(tokens))
    {
      hide World.Valid, World.Ledger;
      if cookie == "" {
        return true;
      }
      world.Wait(Held());
      ok := net.token(tokens);
      tokens := tokens + 1;
    }

    /** The token for an account over `exit`: with it, the account is used from here on. */
    method Adopt(a: Account, exit: Exit) returns (taken: Option<Account>, binding: Option<Binding>)
      requires Books()
      modifies this`acct, this`cookieStr, this`tokens, world.Parts()
      ensures fresh(world.Parts() - old(world.Parts()))
      ensures Books() && world.exits.KeepsDynamicIds(old(world.exits.dynamicURLs))
      ensures taken == if a.cookie == "" || net.token(old(tokens)) then Some(a) else None
      ensures if taken.Some? then acct == Some(a) && cookieStr == a.cookie
              else acct == old(acct) && cookieStr == old(cookieStr)
      ensures binding.Some? <==> taken.Some?
      ensures binding.Some? ==>
                && binding.value.account == a && binding.value.exit == exit.id
                && IsBinding(binding.value, job.policy.pool)
                && binding.value.rowsAfter == world.accounts.table
    {
      hide World.Valid, World.Ledger, IsBinding;
      NotShared();
      taken, binding := None, None;
      var ok := GetXsrf(a.cookie);
      if ok {
        acct, cookieStr, taken := Some(a), a.cookie, Some(a);
        var b := world.BindAccount(a, exit.id, job.policy.pool, Held());
        binding := Some(b);
      }
    }

    /** `rotateAccount`: a second slot is taken for the refresh, and given back. */
    method Rotate(a: Account) returns (slot: bool, store: Option<Store>)
      requires Books()
      modifies world.Parts()
      ensures fresh(world.Parts() - old(world.Parts()))
      ensures Books() && world.exits.KeepsDynamicIds(old(world.exits.dynamicURLs))
      ensures slot <==> old(world.exits.Choice(a.proxyId, {}, {}, world.now, job.policy, world.Answers())).Some?
      ensures if slot then IsRotation(a, store) else store.None?
    {
      hide World.Valid, World.Ledger, Exits.IsOffer, World.IsOpen, Request.IsRotation, Exits.Choice, Exits.CanHave;
      ghost var held := Held();
      var exit := world.Acquire(a.proxyId, {}, {}, job.policy, held);
      if exit.None? {
        return false, None;
      }
      store := RotateOver(a, exit.value.id, held);
      slot := true;
    }

    method RotateOver(a: Account, id: int, ghost held: multiset<int>) returns (store: Option<Store>)
      requires world.Valid() && world.Ledger(held + multiset{id})
      modifies world.Parts()
      ensures fresh(world.Parts() - old(world.Parts()))
      ensures world.Steady(held, old(world.exits.dynamicURLs))
      ensures IsRotation(a, store)
    {
      hide World.Valid, World.Ledger, Request.IsRotation;
      ghost var both := held + multiset{id};
      assert both - multiset{id} == held;
      store := Renew(a, both);
      world.Release(id, both);
    }

    /** A cookie that came out of the refresh is written back. */
    ghost predicate IsRotation(a: Account, store: Option<Store>)
      reads this`rotatedOnce
    {
      && (store.Some? <==> net.refreshed(|rotatedOnce|) != a.cookie)
      && (store.Some? ==>
            && store.value.account == a.id && store.value.cookie == net.refreshed(|rotatedOnce|)
            && IsStore(store.value))
    }

    method Renew(a: Account, ghost held: multiset<int>) returns (store: Option<Store>)
      requires world.Valid() && world.Ledger(held)
      modifies world.Parts()
      ensures fresh(world.Parts() - old(world.Parts()))
      ensures world.Steady(held, old(world.exits.dynamicURLs)) && IsRotation(a, store)
    {
      hide World.Valid, World.Ledger, IsStore;
      world.Wait(held);
      store := None;
      if net.refreshed(|rotatedOnce|) != a.cookie {
        var s := world.WriteBack(a.id, net.refreshed(|rotatedOnce|), held);
        store := Some(s);
      }
    }

    /** A failed account gets one refresh, and another chance if that worked. */
    method Revive(a: Account, exit: Exit) returns (r: Refresh, binding: Option<Binding>)
      requires Books()
      modifies this`acct, this`cookieStr, this`tokens, world.Parts()
      ensures fresh(world.Parts() - old(world.Parts()))
      ensures Books() && world.exits.KeepsDynamicIds(old(world.exits.dynamicURLs))
      ensures IsRefresh(r, a, net)
      ensures if r.taken.Some? then acct == r.taken && cookieStr == r.taken.value.cookie
              else acct == old(acct) && cookieStr == old(cookieStr)
      ensures binding.Some? <==> r.taken.Some?
      ensures binding.Some? ==>
                && binding.value.account == r.taken.value && binding.value.exit == exit.id
                && IsBinding(binding.value, job.policy.pool)
    {
      hide World.Valid, World.Ledger, IsStore, IsBinding, Exits.Choice;
      var slot, store := Rotate(a);
      r := Refresh(slot, |rotatedOnce|, store, world.readable(world.readings), world.accounts.table, tokens, None);
      binding := None;
      if !slot || (net.refreshed(|rotatedOnce|) == a.cookie && !net.renewed(|rotatedOnce|)) {
        return;
      }
      var row := world.FindRow(a.id, Held());
      if row.Some? {
        var taken: Option<Account>;
        taken, binding := Adopt(row.value, exit);
        r := r.(taken := taken);
      }
    }

    /** A failed account is marked, and the next one not tried yet is picked. */
    method NextAccount(id: int) returns (mark: Mark, pick: Pick)
      requires Books()
      modifies this`acct, this`accountsFailed, world`readings, world.accounts
      ensures Books() && world.Parts() == old(world.Parts()) && accountsFailed && acct == pick.account
      ensures mark.account == id && mark.status == 401 && IsMark(mark) && mark.rows == old(world.accounts.table)
      ensures pick.skip == tried && IsPick(pick) && pick.rows == mark.rowsAfter
      ensures acct.Some? ==> acct.value.id !in tried
    {
      hide World.Valid, World.Ledger, Enabled, IsMark;
      NotShared();
      mark := world.MarkAccount(id, 401, Held());
      accountsFailed := true;
      pick := world.PickAccount(tried, Held());
      acct := pick.account;
    }

    /** One account over one exit: its token, or its one refresh. */
    method Obtain(a: Account, exit: Exit) returns (t: Try)
      requires Books()
      modifies this`acct, this`cookieStr, this`rotatedOnce, this`tokens, world.Parts()
      ensures fresh(world.Parts() - old(world.Parts()))
      ensures Books() && world.exits.KeepsDynamicIds(old(world.exits.dynamicURLs))
      ensures IsObtained(t, a, exit, old(rotatedOnce))
      ensures rotatedOnce == old(rotatedOnce) + (if t.refresh.Some? then {a.id} else {})
      ensures if t.taken.Some? then acct == t.taken && cookieStr == t.taken.value.cookie
              else acct == old(acct) && cookieStr == old(cookieStr)
    {
      hide Request.Books, IsRefresh, IsBinding;
      var token := tokens;
      var taken, binding := Adopt(a, exit);
      var refresh: Option<Refresh> := None;
      if taken.None? && a.id !in rotatedOnce {
        NotShared();
        rotatedOnce := rotatedOnce + {a.id};
        var r: Refresh;
        r, binding := Revive(a, exit);
        refresh, taken := Some(r), r.taken;
      }
      t := Tried(a, exit, token, refresh, taken, binding, None, None);
    }

    ghost predicate IsObtained(t: Try, a: Account, exit: Exit, rotated: set<int>) {
      && t.Tried? && t.account == a && t.exit == exit && t.mark.None? && t.pick.None?
      && var comes := a.cookie == "" || net.token(t.token);
      && (t.refresh.Some? <==> !comes && a.id !in rotated)
      && (t.refresh.Some? ==> IsRefresh(t.refresh.value, a, net))
      && t.taken == (if comes then Some(a) else if t.refresh.Some? then t.refresh.value.taken else None)
      && (t.binding.Some? <==> t.taken.Some?)
      && (t.binding.Some? ==>
            && t.binding.value.account == t.taken.value && t.binding.value.exit == exit.id
            && IsBinding(t.binding.value, job.policy.pool))
    }

    lemma MakesTry(u: Try, t: Try, a: Account, exit: Exit, rotated: set<int>)
      requires AtHand(tries, first) == Some(a) && |TriedIds(tries)| < 3 && IsObtained(u, a, exit, rotated)
      requires AreRotated(rotated, tries)
      requires if u.taken.Some? then t == u
               else && t.Tried? && t == u.(mark := t.mark, pick := t.pick) && t.mark.Some? && t.pick.Some?
                    && t.mark.value.account == a.id && t.mark.value.status == 401 && IsMark(t.mark.value)
                    && t.pick.value.skip == TriedIds(tries) + {a.id} && IsPick(t.pick.value)
      ensures IsTry(tries, t, first, job, net)
    {
      hide AtHand, TriedIds, WasRefreshed, Refused, IsRefresh, IsBinding, IsMark, IsPick;
    }

    /** An account without a token is marked, and passed over. */
    method PassOver(u: Try, a: Account, exit: Exit, ghost rotated: set<int>) returns (t: Try)
      requires Books() && AtHand(tries, first) == Some(a) && tried == TriedIds(tries) + {a.id}
      requires |TriedIds(tries)| < 3 && u.Tried? && u.taken.None? && IsObtained(u, a, exit, rotated)
      requires AreRotated(rotated, tries)
      modifies this`acct, this`accountsFailed, world`readings, world.accounts
      ensures Books() && world.Parts() == old(world.Parts())
      ensures t.Tried? && t.taken.None? && t.refresh == u.refresh && t.pick.Some? && IsTry(tries, t, first, job, net)
      ensures accountsFailed && acct == t.pick.value.account && (acct.Some? ==> acct.value.id !in tried)
    {
      hide Request.Books, Request.IsObtained, AtHand, TriedIds, WasRefreshed, Refused, IsTry, IsMark, IsPick;
      var mark, pick := NextAccount(a.id);
      t := u.(mark := Some(mark), pick := Some(pick));
      MakesTry(u, t, a, exit, rotated);
    }

    /** One account over one exit, or else the next account. */
    method TryAccount(a: Account, exit: Exit) returns (t: Try)
      requires Books() && AtHand(tries, first) == Some(a) && tried == TriedIds(tries) && |tried| < MAX_COOKIE_TRIES
      requires AreRotated(rotatedOnce, tries)
      modifies this`acct, this`cookieStr, this`cookieID, this`accountsFailed, this`tried, this`rotatedOnce, this`tokens,
               world.Parts()
      ensures fresh(world.Parts() - old(world.Parts()))
      ensures Books() && world.exits.KeepsDynamicIds(old(world.exits.dynamicURLs))
      ensures t.Tried? && t.account == a && IsTry(tries, t, first, job, net)
      ensures tried == old(tried) + {a.id} && cookieID == a.id
      ensures accountsFailed == (old(accountsFailed) || t.taken.None?)
      ensures rotatedOnce == old(rotatedOnce) + (if t.refresh.Some? then {a.id} else {})
      ensures acct == (if t.taken.Some? then t.taken else t.pick.value.account)
      ensures cookieStr == if t.taken.Some? then t.taken.value.cookie else old(cookieStr)
      ensures t.taken.None? && acct.Some? ==> acct.value.id !in tried
    {
      hide Request.Books, Request.IsObtained, AtHand, TriedIds, WasRefreshed, IsTry;
      NotShared();
      tried := tried + {a.id};
      cookieID := a.id;
      t := Obtain(a, exit);
      ObtainedIs(t, a, exit, old(rotatedOnce));
      if t.taken.None? {
        t := PassOver(t, a, exit, old(rotatedOnce));
      } else {
        MakesTry(t, t, a, exit, old(rotatedOnce));
      }
      TryIs(t, a);
    }

    lemma ObtainedIs(t: Try, a: Account, exit: Exit, rotated: set<int>)
      requires IsObtained(t, a, exit, rotated)
      ensures t.Tried? && t.account == a && t.exit == exit
    {
    }

    lemma TryIs(t: Try, a: Account)
      requires t.Tried? && IsTry(tries, t, first, job, net) && AtHand(tries, first) == Some(a)
      ensures t.account == a
    {
    }

    lemma RosterMeans()
      requires Roster()
      ensures acct == AtHand(tries, first) && tried == TriedIds(tries) && (accountsFailed <==> Refused(tries))
      ensures TriesFollow(tries, first, job, net) && AreRotated(rotatedOnce, tries)
    {
      hide AreRotated, TriesFollow, AtHand, TriedIds, WasRefreshed, Refused, LastId;
    }

    method LogTry(t: Try)
      requires TriesFollow(tries, first, job, net) && IsTry(tries, t, first, job, net)
      requires AllTold(calls, tries, first, net) && (calls != [] ==> calls[|calls| - 1].deeds.tries <= |tries|)
      modifies this`tries
      ensures tries == old(tries) + [t] && TriesFollow(tries, first, job, net) && AllTold(calls, tries, first, net)
      ensures LastId(tries) == if t.Tried? then t.account.id else 0
      ensures CookieAt(tries, calls) == if t.Tried? && t.taken.Some? then t.taken.value.cookie else ""
      ensures AtHand(tries, first) ==
              if t.Anonymous? then t.left else if t.taken.Some? then t.taken
              else if t.pick.Some? then t.pick.value.account else None
      ensures calls != [] ==> calls[|calls| - 1].deeds.tries < |tries|
      ensures TriedIds(tries) == TriedIds(old(tries)) + (if t.Tried? then {t.account.id} else {})
      ensures Refused(tries) <==> Refused(old(tries)) || (t.Tried? && t.taken.None?)
      ensures forall id :: WasRefreshed(tries, id) <==>
                             WasRefreshed(old(tries), id) || (t.Tried? && t.refresh.Some? && t.account.id == id)
    {
      hide IsTry, TriesFollow, AllTold, Refused, WasRefreshed, TriedIds;
      OneTry(tries, t, first, job, net);
      StillTold(calls, tries, tries + [t], first, net);
      TrySnoc(tries, t);
      tries := tries + [t];
    }

    /** The account loop: at most three accounts are tried in the whole request, until one is taken; if no
        token is refused, the one at hand is. */
    method FindAccount(exit: Exit)
      requires Books() && |tried| <= MAX_COOKIE_TRIES && Roster() && Told()
      modifies this`acct, this`cookieStr, this`cookieID, this`accountsFailed, this`tried, this`rotatedOnce, this`tokens,
               this`tries, world.Parts()
      ensures fresh(world.Parts() - old(world.Parts()))
      ensures Books() && world.exits.KeepsDynamicIds(old(world.exits.dynamicURLs))
      ensures |tried| <= MAX_COOKIE_TRIES && old(tried) <= tried && Roster() && Told()
      ensures cookieStr == "" ==> NoneLeft(tries, acct)
      ensures AllTokens(net) ==> accountsFailed == old(accountsFailed)
      ensures old(cookieStr) != "" ==> acct == old(acct) && cookieStr == old(cookieStr) && tries == old(tries)
      ensures AllTokens(net) && old(cookieStr) == "" && old(acct).Some? && |old(tried)| < MAX_COOKIE_TRIES ==>
                acct == old(acct) && cookieStr == acct.value.cookie
    {
      hide Request.Books, AllTokens, Request.Roster, Request.Told;
      if cookieStr != "" {
        return;
      }
      TriedAre();
      while acct.Some? && |tried| < MAX_COOKIE_TRIES
        invariant fresh(world.Parts() - old(world.Parts()))
        invariant Books() && world.exits.KeepsDynamicIds(old(world.exits.dynamicURLs))
        invariant |tried| <= MAX_COOKIE_TRIES && old(tried) <= tried && Roster() && Told() && cookieStr == ""
        invariant tried == TriedIds(tries)
        invariant AllTokens(net) ==> acct == old(acct) && tried == old(tried) && accountsFailed == old(accountsFailed)
        decreases MAX_COOKIE_TRIES - |tried| + (if acct.Some? && acct.value.id in tried then 1 else 0)
      {
        OneMore(tried, acct.value.id);
        var found := Audition(acct.value, exit);
        TriedAre();
        if found {
          break;
        }
      }
    }

    lemma TriedAre()
      requires Roster()
      ensures tried == TriedIds(tries)
    {
      hide TriesFollow, AtHand, LastId, Refused, WasRefreshed;
    }

    method Audition(a: Account, exit: Exit) returns (found: bool)
      requires Books() && Roster() && Told() && acct == Some(a) && |tried| < MAX_COOKIE_TRIES && cookieStr == ""
      modifies this`acct, this`cookieStr, this`cookieID, this`accountsFailed, this`tried, this`rotatedOnce, this`tokens,
               this`tries, world.Parts()
      ensures fresh(world.Parts() - old(world.Parts()))
      ensures Books() && world.exits.KeepsDynamicIds(old(world.exits.dynamicURLs))
      ensures tried == old(tried) + {a.id} && Roster() && Told()
      ensures if found then NoneLeft(tries, acct) else cookieStr == "" && (acct.Some? ==> acct.value.id !in tried)
      ensures AllTokens(net) ==>
                found && acct == Some(a) && cookieStr == a.cookie && accountsFailed == old(accountsFailed)
    {
      hide World.Parts;
      hide Request.Books, Request.Roster, Request.Told, TriesFollow, AtHand, LastId, CookieAt, GoodIsLast, AllTold,
           Refused, TriedIds, AreRotated, WasRefreshed, IsTry, AllTokens, NoneLeft, IsLastStatus;
      NotShared();
      RosterMeans();
      CallsToldOf();
      var t := TryAccount(a, exit);
      TokenCame(t, a);
      Enlist(t, a, old(rotatedOnce));
      found := t.taken.Some?;
    }

    method Enlist(t: Try, a: Account, ghost rotated: set<int>)
      requires Books() && t.Tried? && t.account == a && IsTry(tries, t, first, job, net)
      requires TriesFollow(tries, first, job, net) && AllTold(calls, tries, first, net)
      requires IsLastStatus(calls, lastStatus) && (calls != [] ==> calls[|calls| - 1].deeds.tries <= |tries|)
      requires tried == TriedIds(tries) + {a.id} && cookieID == a.id
      requires accountsFailed <==> Refused(tries) || t.taken.None?
      requires rotatedOnce == rotated + (if t.refresh.Some? then {a.id} else {}) && AreRotated(rotated, tries)
      requires acct == if t.taken.Some? then t.taken else if t.pick.Some? then t.pick.value.account else None
      requires cookieStr == if t.taken.Some? then t.taken.value.cookie else ""
      requires GoodIsLast(calls)
      modifies this`tries
      ensures Books() && Roster() && Told() && world.Parts() == old(world.Parts())
      ensures t.taken.Some? ==> NoneLeft(tries, acct)
    {
      hide Request.Books, Request.Roster, Request.Told, TriesFollow, AtHand, LastId, CookieAt, GoodIsLast, AllTold,
           Refused, TriedIds, WasRefreshed, IsTry, IsLastStatus;
      NotShared();
      LogTry(t);
      RosterIs();
      ToldIs();
    }

    lemma CallsToldOf()
      requires Told()
      ensures AllTold(calls, tries, first, net) && IsLastStatus(calls, lastStatus) && GoodIsLast(calls)
      ensures calls != [] ==> calls[|calls| - 1].deeds.tries <= |tries|
    {
      hide GoodIsLast, AllTold, IsLastStatus, CookieAt;
    }

    lemma TokenCame(t: Try, a: Account)
      requires IsTry(tries, t, first, job, net) && t.Tried? && AtHand(tries, first) == Some(a)
      ensures AllTokens(net) ==> t.taken == Some(a)
      ensures t.taken.None? <==> t.pick.Some?
    {
    }

    lemma RosterIs()
      requires TriesFollow(tries, first, job, net) && acct == AtHand(tries, first) && cookieID == LastId(tries)
      requires (accountsFailed <==> Refused(tries)) && tried == TriedIds(tries)
      requires AreRotated(rotatedOnce, tries)
      ensures Roster()
    {
      hide AreRotated, TriesFollow, AtHand, LastId, Refused, TriedIds, WasRefreshed;
    }

    lemma ToldIs()
      requires cookieStr == CookieAt(tries, calls) && AllTold(calls, tries, first, net)
      requires IsLastStatus(calls, lastStatus) && (calls != [] ==> calls[|calls| - 1].deeds.tries <= |tries|)
      requires GoodIsLast(calls)
      ensures Told()
    {
      hide GoodIsLast, AllTold, IsLastStatus, CookieAt;
    }

    // -------------------------------------------------------------- steps over the network

    /** Waiting for the network. */
    method Wire()
      requires Books()
      modifies world.Parts()
      ensures fresh(world.Parts() - old(world.Parts()))
      ensures Books() && world.exits.KeepsDynamicIds(old(world.exits.dynamicURLs))
    {
      hide World.Valid, World.Ledger;
      world.Wait(Held());
    }

    /** `recordProxyResult`, for a proxied exit; nothing else changes. */
    method Report(exit: Exit, good: bool) returns (b: Option<Booking>)
      requires Books() && Known(exit)
      modifies world.Parts()
      ensures fresh(world.Parts() - old(world.Parts()))
      ensures Books() && world.exits.KeepsDynamicIds(old(world.exits.dynamicURLs))
      ensures b.Some? <==> exit.id != 0
      ensures b.Some? ==> b.value.exit == exit && b.value.good == good && IsBooking(b.value)
      ensures if b.Some? then Booked(b.value, old(world.exits.pool.table), old(world.exits.dynamicStats))
              else Booked(Booking(exit, good, 0, old(world.exits.pool.table), world.exits.pool.table,
                                  old(world.exits.dynamicStats), world.exits.dynamicStats, old(world.exits.stickyURL)),
                          world.exits.pool.table, world.exits.dynamicStats)
      ensures world.accounts.table == old(world.accounts.table)
    {
      hide World.Valid, World.Ledger, IsBooking;
      if exit.id == 0 {
        return None;
      }
      var booking := world.Book(exit, good, job.policy.pool, Held());
      b := Some(booking);
    }

    /** What is booked is all that happened to the exits. */
    ghost predicate Booked(b: Booking, rows: map<int, Proxy>, stats: map<string, DynamicStat>)
      reads world.exits, world.exits.pool
    {
      && b.rows == rows && b.rowsAfter == world.exits.pool.table
      && b.stats == stats && b.statsAfter == world.exits.dynamicStats && b.stickyAfter == world.exits.stickyURL
    }

    /** `forceProxyCooldown`, for a proxied exit: the row or the statistics shut it out now. */
    method Cooldown(exit: Exit)
      requires Books() && ShutsFit() && Known(exit)
      modifies this`shuts, world.Parts()
      ensures fresh(world.Parts() - old(world.Parts()))
      ensures ShutsFit() && old(shuts) <= shuts && (exit.id != 0 ==> WasShut(shuts, exit))
      ensures forall s :: s in shuts ==> s in old(shuts) || s.exit == exit
      ensures world.accounts.table == old(world.accounts.table)
      ensures Books() && world.exits.KeepsDynamicIds(old(world.exits.dynamicURLs))
    {
      hide World.Valid, World.Ledger, Usable;
      if exit.id != 0 {
        world.StaticIds();
        world.ForceCooldown(exit.id, job.policy.pool, Held());
        ghost var table := world.exits.pool.table;
        ghost var s := Shut(exit, world.now, if exit.id in table then Some(table[exit.id]) else None,
                            world.exits.Cooling(exit.url, world.now, job.policy.pool));
        world.StaticIds();
        assert IsShut(s, job.policy.pool) by {
          if exit.id > 0 && s.row.Some? {
            ForcedIsShut(old(world.exits.pool.table), table, exit.id, world.now, job.policy.pool);
          }
        }
        assert s in old(shuts) + [s];
        shuts := shuts + [s];
      }
    }

    /** `markCookieByStatus`, for the account in use. */
    method Mark(status: int) returns (m: Mark)
      requires Books()
      modifies world`readings, world.accounts
      ensures Books() && world.Parts() == old(world.Parts())
      ensures m.account == cookieID && m.status == status && IsMark(m)
      ensures m.rows == old(world.accounts.table) && m.rowsAfter == world.accounts.table
    {
      hide World.Valid, World.Ledger, IsMark;
      m := world.MarkAccount(cookieID, status, Held());
    }

    // -------------------------------------------------------------- attachments

    /** The upload loop; it ends at the first failure. */
    method UploadAll() returns (ok: bool)
      requires Books() && FilesFollow() && CallsFollow() && Balance(1) && files == [] && job.pending != []
      modifies this`files, this`lastErr, this`uploads, world.Parts()
      ensures fresh(world.Parts() - old(world.Parts()))
      ensures Books() && world.exits.KeepsDynamicIds(old(world.exits.dynamicURLs))
      ensures FilesFollow() && CallsFollow() && ready == [] && calls == []
      ensures ok ==> AllUp() && lastErr == old(lastErr) && Balance(1) && Fails(uploads) == old(Fails(uploads))
      ensures !ok ==> lastErr && Balance(0) && Fails(uploads) > 0 && UploadBroke()
    {
      hide Request.Books, Request.FilesFollow, Request.CallsFollow, Request.FilesSettled, Uploaded, Fails,
           UploadsFollow;
      NothingReady();
      var i := 0;
      while i < |job.pending|
        invariant 0 <= i <= |job.pending| && lastErr == old(lastErr)
        invariant UnderWay(i) && Fails(uploads) == old(Fails(uploads))
        invariant i > 0 ==> uploads != [] && uploads[|uploads| - 1].ok
        invariant fresh(world.Parts() - old(world.Parts()))
        invariant Books() && world.exits.KeepsDynamicIds(old(world.exits.dynamicURLs))
      {
        ok := Send(i);
        if !ok {
          lastErr := true;
          UploadedSoFar();
          return;
        }
        i := i + 1;
      }
      UploadedSoFar();
      ok := true;
    }

    /** `uploadBytes` for one attachment. */
    method Send(i: nat) returns (ok: bool)
      requires Books() && UnderWay(i) && i < |job.pending|
      modifies this`files, this`uploads, world.Parts()
      ensures fresh(world.Parts() - old(world.Parts()))
      ensures Books() && world.exits.KeepsDynamicIds(old(world.exits.dynamicURLs))
      ensures if ok then UnderWay(i + 1) && Fails(uploads) == old(Fails(uploads))
              else BrokenAt(i) && Fails(uploads) == old(Fails(uploads)) + 1
      ensures uploads != [] && uploads[|uploads| - 1].ok == ok
    {
      hide Request.Books, World.Parts, Uploaded, Fails, UploadsFollow;
      NotShared();
      Wire();
      ok := net.upload(|uploads|);
      OneUpload(uploads, |job.pending|, net);
      NotShared();
      uploads := uploads + [Upload(i, ok)];
      if ok {
        NextAttachment(job.pending, i);
        files := files + [Attachment(job.pending[i])];
      }
    }

    /** The attachment `i` did not arrive. */
    ghost predicate BrokenAt(i: nat)
      reads this`files, this`uploads, this`ready, this`calls
    {
      && ready == [] && calls == [] && UploadsFollow(uploads, |job.pending|, net)
      && i == Uploaded(uploads) <= |job.pending| && files == Attachments(job.pending[..i])
    }

    /** The first `i` attachments are up, and nothing was generated yet. */
    ghost predicate UnderWay(i: nat)
      reads this`files, this`uploads, this`ready, this`calls
    {
      && ready == [] && calls == [] && UploadsFollow(uploads, |job.pending|, net)
      && i == Uploaded(uploads) <= |job.pending| && files == Attachments(job.pending[..i])
      && (uploads != [] ==> !IsBreak(uploads[|uploads| - 1]))
    }

    ghost predicate UploadBroke()
      reads this`uploads
    {
      uploads != [] && !uploads[|uploads| - 1].ok
    }

    lemma NothingReady()
      requires FilesFollow() && CallsFollow() && files == [] && job.pending != []
      ensures UnderWay(0)
    {
      hide Uploaded, Fails, UploadsFollow;
      assert |files| == Uploaded(uploads) + if job.longPrompt then |ready| else 0;
      BrokeOffIff(uploads, |job.pending|, net);
      if uploads != [] {
        LastUpload(uploads);
      }
    }

    lemma UploadedSoFar()
      requires ready == [] && calls == [] && UploadsFollow(uploads, |job.pending|, net)
      requires Uploaded(uploads) <= |job.pending| && files == Attachments(job.pending[..Uploaded(uploads)])
      requires uploads == [] || !uploads[|uploads| - 1].ok || Uploaded(uploads) == |job.pending|
      ensures FilesFollow() && CallsFollow()
    {
      hide Uploaded, Fails, UploadsFollow;
    }

    /** The attachments go up over the first exit that gets there. A failure sends the request
        to the next exit, where whatever `files` holds by then is taken to be all of them. */
    method Uploads(turn: nat, exit: Exit) returns (next: Next)
      requires Books() && FilesFollow() && CallsFollow() && Balance(1) && ErrorsMeant()
      requires ShutsFit() && Known(exit)
      modifies this`files, this`lastErr, this`uploads, this`shuts, world.Parts()
      ensures fresh(world.Parts() - old(world.Parts()))
      ensures Books() && world.exits.KeepsDynamicIds(old(world.exits.dynamicURLs))
      ensures FilesFollow() && CallsFollow() && ErrorsMeant() && ShutsFit() && old(shuts) <= shuts
      ensures next in {Proceed, Continue, Return(NeedsAccount), Return(UploadFailed)}
      ensures next.Proceed? ==> AllUp() && Balance(1) && lastErr == old(lastErr)
      ensures next in {Continue, Return(UploadFailed)} ==> lastErr && Balance(0) && ready == [] && UploadBroke()
      ensures next.Continue? ==> turn < job.Switches() && (exit.id == 0 || WasShut(shuts, exit))
      ensures next == Return(UploadFailed) ==> turn >= job.Switches() && (exit.id == 0 || WasShut(shuts, exit))
      ensures next == Return(NeedsAccount) ==> lastErr == old(lastErr)
      ensures next == Return(NeedsAccount) <==> job.pending != [] && old(files) == [] && cookieStr == ""
      ensures next.Proceed? ==> shuts == old(shuts) && (old(files) != [] ==> uploads == old(uploads))
      ensures forall s :: s in shuts ==> s in old(shuts) || s.exit == exit
    {
      hide Request.Books, Request.FilesFollow, Request.CallsFollow, Request.Balance, Uploaded, Fails;
      if |job.pending| > 0 && |files| == 0 {
        if cookieStr == "" {
          return Return(NeedsAccount);
        }
        var ok := UploadAll();
        if !ok {
          Cooldown(exit);
          return if turn < job.Switches() then Continue else Return(UploadFailed);
        }
      } else {
        SomeUploaded();
      }
      return Proceed;
    }

    lemma SomeUploaded()
      requires FilesFollow() && (job.pending == [] || files != [])
      ensures AllUp()
    {
      hide Uploaded, Fails, UploadsFollow;
      assert |files| == Uploaded(uploads) + if job.longPrompt then |ready| else 0;
      BrokeOffIff(uploads, |job.pending|, net);
      if uploads != [] {
        LastUpload(uploads);
      } else {
        NothingUploaded();
      }
    }

    /** `prepareContextFile` and the length check. */
    method AttachConversation(turn: nat, exit: Exit) returns (next: Next)
      requires Books() && FilesFollow() && CallsFollow() && AllUp() && Balance(1)
      requires |used| == turn + 1 && used[turn] == exit
      modifies this`files, this`ready, world.Parts()
      ensures fresh(world.Parts() - old(world.Parts()))
      ensures Books() && world.exits.KeepsDynamicIds(old(world.exits.dynamicURLs))
      ensures next in {Proceed, Return(ConversationNotSent), Return(TooLong)}
      ensures CallsFollow()
      ensures next.Proceed? ==>
                && FilesFollow() && Balance(0) && ready == old(ready) + [Stop(turn, exit)] && !Retried(calls, |ready|)
      ensures !next.Proceed? ==> ready == old(ready)
      ensures next == if job.longPrompt && cookieStr != "" && !net.conversation(|old(ready)|)
                      then Return(ConversationNotSent)
                      else if job.longPrompt && (cookieStr == "" || job.longInstruction) then Return(TooLong)
                      else Proceed
    {
      hide Request.Books, Uploaded, Fails, UploadsFollow, Carries, Answered, Renewals, Retried;
      var tooLong := job.longPrompt;
      if job.longPrompt && cookieStr != "" {
        Wire();
        if !net.conversation(|ready|) {
          return Return(ConversationNotSent);
        }
        NextCopy(Attachments(job.pending[..Uploaded(uploads)]), |ready|);
        files := files + [Conversation];
        tooLong := job.longInstruction;
      }
      if tooLong {
        return Return(TooLong);
      }
      OneStop(calls, Uploaded(uploads), ready, Stop(turn, exit), job);
      ready := ready + [Stop(turn, exit)];
      return Proceed;
    }

    // -------------------------------------------------------------- generation calls

    /** `doGeminiRequest`: the lines of any answer, whatever its status, are relayed as they
        come in, and refreshed cookies are written back. */
    method Perform() returns (answer: Answer, spoke: bool, store: Option<Store>)
      requires Books()
      modifies this`cookieStr, this`emitted, world.Parts()
      ensures fresh(world.Parts() - old(world.Parts()))
      ensures Books() && world.exits.KeepsDynamicIds(old(world.exits.dynamicURLs))
      ensures answer == net.answer(|calls|) && spoke == (job.streaming && net.speaks(|calls|))
      ensures emitted <==> old(emitted) || spoke
      ensures IsRenewal(old(cookieStr), net.headers(|calls|), store)
    {
      hide Request.Books, Request.IsRenewal;
      Wire();
      answer, spoke := net.answer(|calls|), job.streaming && net.speaks(|calls|);
      if spoke {
        emitted := true;
      }
      store := RefreshCookie(net.headers(|calls|));
    }

    /** The cookie was `had` before these headers came; what changed was written back. */
    ghost predicate IsRenewal(had: string, headers: seq<string>, store: Option<Store>)
      reads this`cookieStr, this`cookieID
    {
      && (if headers == [] || cookieID <= 0 then cookieStr == had else IsMerge(cookieStr, had, headers))
      && (store.Some? <==> cookieStr != had)
      && (store.Some? ==> store.value.account == cookieID && store.value.cookie == cookieStr && IsStore(store.value))
    }

    method RefreshCookie(headers: seq<string>) returns (store: Option<Store>)
      requires Books()
      modifies this`cookieStr, world`readings, world.accounts
      ensures Books() && world.Parts() == old(world.Parts()) && IsRenewal(old(cookieStr), headers, store)
      ensures if store.Some? then store.value.rows == old(world.accounts.table)
                                  && store.value.rowsAfter == world.accounts.table
              else world.accounts.table == old(world.accounts.table)
    {
      hide World.Valid, World.Ledger, IsMerge, IsStore;
      NotShared();
      store := None;
      if |headers| > 0 && cookieID > 0 {
        var merged := MergeSetCookie(cookieStr, headers);
        if merged != cookieStr {
          cookieStr := merged;
          var s := world.WriteBack(cookieID, merged, Held());
          store := Some(s);
        }
      }
    }

    method Record(exit: Exit, c: Call)
      requires FilesFollow() && CallsFollow() && Stopped(exit) && AllCalled(|ready| - 1)
      requires c.exit == exit && c.files == files && c.round == |ready|
      requires c.answer == net.answer(|calls|) && c.spoke == (job.streaming && net.speaks(|calls|))
      requires c.renewed.Some? <==> IsRefusal(c.answer) && c.cookie && !Retried(calls, |ready|)
      requires Silent(calls) || (Owes(calls) && calls[|calls| - 1].round == |ready| && c.renewed.None?)
      requires Login() && LoggedIn() && c.cookie == (cookieStr != "") && (AllTokens(net) ==> c.renewed != Some(false))
      modifies this`calls
      ensures calls == old(calls) + [c]
      ensures CallsFollow() && AllCalled(|ready|) && Login()
      ensures Retried(calls, |ready|) <==> old(Retried(calls, |ready|)) || c.renewed.Some?
      ensures if old(Silent(calls)) && !c.spoke then Silent(calls)
              else if c.renewed == Some(true) then Owes(calls) else IsOver(calls)
      ensures Silent(calls) <==> old(Silent(calls)) && !c.spoke
    {
      hide Uploaded, Fails, UploadsFollow, Answered, Renewals, Retried, Silent, Owes, IsOver, CallsCarry, Called,
           IsRefusal, IsAlone, Request.FilesSettled, AllTokens;
      OneCall(calls, c, Uploaded(uploads), ready, job, net);
      OneSpoke(calls, c);
      if job.Attempts() > 0 {
        OneCalled(calls, c, |ready| - 1);
      }
      calls := calls + [c];
    }

    /** A failed attempt: once text was emitted there is no other. */
    method FailAttempt(exit: Exit) returns (step: Step, booking: Option<Booking>)
      requires Books() && Known(exit)
      modifies this`lastErr, world.Parts()
      ensures fresh(world.Parts() - old(world.Parts()))
      ensures Books() && world.exits.KeepsDynamicIds(old(world.exits.dynamicURLs))
      ensures lastErr && step == if emitted then GiveUp else Again
      ensures booking.Some? <==> exit.id != 0
      ensures booking.Some? ==> booking.value.exit == exit && !booking.value.good && IsBooking(booking.value)
    {
      hide Request.Books, IsBooking;
      ghost var urls := world.exits.dynamicURLs;
      lastErr := true;
      booking := Report(exit, false);
      if emitted {
        return GiveUp, booking;
      }
      Wire();
      return Again, booking;
    }

    /** Success is booked on the exit and on the account, and nothing else changes. */
    method Praise(exit: Exit) returns (booking: Option<Booking>, mark: Mark)
      requires Books() && Known(exit)
      modifies world.Parts()
      ensures fresh(world.Parts() - old(world.Parts()))
      ensures Books() && world.exits.KeepsDynamicIds(old(world.exits.dynamicURLs))
      ensures booking.Some? <==> exit.id != 0
      ensures booking.Some? ==>
                && booking.value.exit == exit && booking.value.good && IsBooking(booking.value)
                && Booked(booking.value, old(world.exits.pool.table), old(world.exits.dynamicStats))
      ensures booking.None? ==>
                world.exits.pool.table == old(world.exits.pool.table)
                && world.exits.dynamicStats == old(world.exits.dynamicStats)
      ensures mark.account == cookieID && mark.status == 200 && IsMark(mark)
      ensures mark.rows == old(world.accounts.table) && mark.rowsAfter == world.accounts.table
    {
      hide Request.Books, IsBooking, IsMark;
      booking := Report(exit, true);
      mark := Mark(200);
    }

    /** At the head of the attempt loop: nothing was emitted, or the call that emitted is to be
        repeated, which it is with a new token. */
    ghost predicate MayCall(xsrfRetried: bool)
      reads this`calls, this`ready, this`emitted
    {
      && (emitted <==> !Silent(calls)) && (xsrfRetried <==> Retried(calls, |ready|))
      && (Silent(calls) || (xsrfRetried && Owes(calls) && calls[|calls| - 1].round == |ready|))
    }

    lemma LoginMeans()
      requires Login() && LoggedIn()
      ensures CanLogIn() ==> cookieStr == first.value.cookie && acct == first
      ensures cookieStr == "" ==> IsAlone(tries, first)
      ensures CanLogIn() ==> forall c :: c in calls ==> c.cookie && c.renewed != Some(false)
      ensures AllTokens(net) ==> !accountsFailed
    {
      hide AllTokens, IsAlone;
    }

    /** A cookie no header touched, and one that is not left empty. */
    lemma Undisturbed(before: string, n: nat, store: Option<Store>)
      requires IsRenewal(before, net.headers(n), store) && (before == "" ==> IsAlone(tries, first))
      requires CanLogIn() ==> before == first.value.cookie && acct == first
      requires CanLogIn() ==> forall c :: c in calls ==> c.cookie && c.renewed != Some(false)
      requires AllTokens(net) ==> !accountsFailed
      ensures Login() && LoggedIn()
    {
      hide AllTokens, IsAlone, IsMerge, IsStore;
      if net.headers(n) != [] && cookieID > 0 {
        MergeKeepsSomething(cookieStr, before, net.headers(n));
      }
    }

    /** What goes over the network in one pass: the call, and the fetching of a new token if the one
        it had was refused. */
    method Converse(xsrfRetried: bool) returns (answer: Answer, spoke: bool, asked: Option<bool>, d: Deeds)
      requires Books() && Login() && LoggedIn() && Told()
      modifies this`cookieStr, this`emitted, this`tokens, world.Parts()
      ensures fresh(world.Parts() - old(world.Parts()))
      ensures Books() && world.exits.KeepsDynamicIds(old(world.exits.dynamicURLs))
      ensures answer == net.answer(|calls|) && spoke == (job.streaming && net.speaks(|calls|))
      ensures (emitted <==> old(emitted) || spoke) && d.kept == cookieStr && d.had == old(cookieStr)
      ensures asked.Some? <==>
                answer.Response? && answer.status == 400 && answer.xsrf && d.kept != "" && !xsrfRetried
      ensures Login() && LoggedIn() && (AllTokens(net) ==> asked != Some(false))
      ensures IsRenewal(d.had, net.headers(|calls|), d.store) && d.account == cookieID && d.tries == |tries|
      ensures asked.Some? ==> asked.value == net.token(d.token)
    {
      hide Request.Books, Request.Login, Request.LoggedIn, Request.Told, Request.IsRenewal;
      LoginMeans();
      var store: Option<Store>;
      var had := cookieStr;
      answer, spoke, store := Perform();
      Undisturbed(had, |calls|, store);
      asked, d := None, Deeds(|tries|, cookieID, had, cookieStr, store, tokens, None, None);
      if IsRefusal(answer) && cookieStr != "" && !xsrfRetried {
        var ok := GetXsrf(cookieStr);
        asked := Some(ok);
      }
    }

    /** What follows from the answer, and is booked of it. */
    method Settle(exit: Exit, answer: Answer, asked: Option<bool>)
        returns (step: Step, booking: Option<Booking>, mark: Option<Mark>)
      requires Books() && Known(exit) && (asked.Some? ==> IsRefusal(answer))
      modifies this`lastErr, this`lastStatus, world.Parts()
      ensures fresh(world.Parts() - old(world.Parts()))
      ensures Books() && world.exits.KeepsDynamicIds(old(world.exits.dynamicURLs))
      ensures step == if answer.Response? && answer.status == 200 && answer.content then Succeed
                      else if asked == Some(true) then AgainUncounted else if emitted then GiveUp else Again
      ensures lastErr == (old(lastErr) || step in {GiveUp, Again})
      ensures lastStatus == if step in {GiveUp, Again} && answer.Response? && answer.status != 200 then answer.status
                            else old(lastStatus)
      ensures booking.Some? <==> exit.id != 0 && asked != Some(true)
      ensures booking.Some? ==>
                booking.value.exit == exit && booking.value.good == Good(answer) && IsBooking(booking.value)
      ensures mark.Some? <==> Good(answer)
      ensures mark.Some? ==> mark.value.account == cookieID && mark.value.status == 200 && IsMark(mark.value)
    {
      hide Request.Books, IsBooking, IsMark, IsRefusal;
      booking, mark := None, None;
      if Good(answer) {
        NotRefused(answer);
        var m: Mark;
        booking, m := Praise(exit);
        return Succeed, booking, Some(m);
      }
      if asked == Some(true) {
        return AgainUncounted, booking, mark;
      }
      if answer.Response? && answer.status != 200 {
        lastStatus := answer.status;
      }
      step, booking := FailAttempt(exit);
    }

    lemma LastIsOwing()
      requires calls != [] && calls[|calls| - 1].round == |ready| && (Silent(calls) || Owes(calls))
      requires (emitted <==> !Silent(calls)) && Retried(calls, |ready|)
      ensures MayCall(true)
    {
      hide Retried, Silent, Owes;
    }

    /** What was done about a call, which is not in the log yet, with `had` as the cookie before it. */
    ghost predicate IsSettled(c: Call, had: string)
      reads this`cookieStr, this`cookieID, this`tries, this`calls
    {
      var d := c.deeds;
      && d.tries == |tries| && d.account == cookieID && d.had == had && d.kept == cookieStr
      && IsRenewal(had, net.headers(|calls|), d.store) && c.cookie == (d.kept != "")
      && (c.renewed.Some? ==> c.renewed.value == net.token(d.token))
      && (d.booking.Some? <==> c.exit.id != 0 && c.renewed != Some(true))
      && (d.booking.Some? ==>
            && d.booking.value.exit == c.exit && d.booking.value.good == Good(c.answer)
            && IsBooking(d.booking.value))
      && (d.mark.Some? <==> Good(c.answer))
      && (d.mark.Some? ==>
            d.mark.value.account == d.account && d.mark.value.status == 200 && IsMark(d.mark.value))
    }

    /** One call, and what follows from the answer. */
    method Venture(exit: Exit, xsrfRetried: bool) returns (step: Step, c: Call)
      requires Books() && Login() && LoggedIn() && Told() && Known(exit)
      modifies this`cookieStr, this`emitted, this`lastErr, this`lastStatus, this`tokens, world.Parts()
      ensures fresh(world.Parts() - old(world.Parts()))
      ensures Books() && world.exits.KeepsDynamicIds(old(world.exits.dynamicURLs))
      ensures c.exit == exit && c.files == files && c.round == |ready| && IsSettled(c, old(cookieStr))
      ensures c.cookie == (cookieStr != "") && c.deeds.tries == |tries| && (step.Succeed? ==> c.renewed.None?)
      ensures c.answer == net.answer(|calls|) && c.spoke == (job.streaming && net.speaks(|calls|))
      ensures c.renewed.Some? <==> IsRefusal(c.answer) && c.cookie && !xsrfRetried
      ensures emitted <==> old(emitted) || c.spoke
      ensures Login() && LoggedIn() && (AllTokens(net) ==> c.renewed != Some(false))
      ensures step == if Good(c.answer) then Succeed else if c.renewed == Some(true) then AgainUncounted
                      else if emitted then GiveUp else Again
      ensures lastErr == (old(lastErr) || step in {GiveUp, Again})
      ensures lastStatus == if IsFailure(c) then c.answer.status else old(lastStatus)
    {
      hide Request.Books, Request.Login, Request.LoggedIn, Request.Told, Request.IsRenewal, AllTokens, IsBooking,
           IsMark, Request.Booked;
      NotShared();
      var answer, spoke, asked, d := Converse(xsrfRetried);
      var booking, mark;
      if Good(answer) {
        NotRefused(answer);
      }
      step, booking, mark := Settle(exit, answer, asked);
      c := Call(exit, files, |ready|, d.kept != "", answer, spoke, asked, d.(booking := booking, mark := mark));
    }

    /** The log tells what was done about the call. */
    lemma TellCall(before: seq<Call>, c: Call, had: string, status: int)
      requires calls == before && had == CookieAt(tries, before) && AllTold(before, tries, first, net)
      requires IsLastStatus(before, status) && (had == "" ==> IsAlone(tries, first)) && cookieID == LastId(tries)
      requires IsSettled(c, had) && lastStatus == if IsFailure(c) then c.answer.status else status
      ensures AllTold(before + [c], tries, first, net) && IsLastStatus(before + [c], lastStatus)
      ensures cookieStr == CookieAt(tries, before + [c])
    {
      hide AllTold, IsLastStatus, CookieAt, LastId, IsAlone, IsMerge, IsStore, IsBooking, IsMark;
      assert tries[..|tries|] == tries;
      assert IsTold(before, c, tries, first, net);
      OneTold(before, c, tries, first, net);
      StatusSnoc(before, c, status);
      CookieKept(before, c);
    }

    lemma CookieKept(before: seq<Call>, c: Call)
      requires c.deeds.tries == |tries|
      ensures CookieAt(tries, before + [c]) == c.deeds.kept
    {
    }

    /** One pass of the attempt loop. A refused token is replaced once per exit, and that pass
        is not counted. */
    method Attempt(exit: Exit, xsrfRetried: bool) returns (step: Step, retried: bool)
      requires Books() && FilesFollow() && CallsFollow() && Stopped(exit) && AllCalled(|ready| - 1)
      requires MayCall(xsrfRetried) && Login() && LoggedIn() && Roster() && Told() && Known(exit)
      requires Unanswered(calls)
      modifies this`cookieStr, this`emitted, this`lastErr, this`lastStatus, this`calls, this`tokens, world.Parts()
      ensures fresh(world.Parts() - old(world.Parts()))
      ensures Books() && world.exits.KeepsDynamicIds(old(world.exits.dynamicURLs))
      ensures CallsFollow() && |calls| == |old(calls)| + 1 && AllCalled(|ready|) && Login() && LoggedIn() && Told()
      ensures step.Succeed? <==> !Unanswered(calls)
      ensures (xsrfRetried ==> retried) && (old(lastErr) ==> lastErr)
      ensures step in {Succeed, GiveUp} ==> (Silent(calls) || IsOver(calls)) && (emitted <==> !Silent(calls))
      ensures step == GiveUp ==> emitted && lastErr
      ensures step == Again ==> MayCall(retried) && Silent(calls) && lastErr
      ensures step == AgainUncounted ==> !xsrfRetried && retried && MayCall(retried)
    {
      hide Request.Books, Request.FilesFollow, Request.CallsFollow, Request.AllCalled, Request.Login,
           Request.LoggedIn, Request.Roster, Request.Told, Request.IsSettled, Retried, Silent, Owes, IsOver,
           IsRefusal, Request.Stopped, AllTokens, Good, IsFailure, GoodIsLast, AllTold, IsLastStatus, CookieAt,
           LastId, IsAlone;
      ToldMeans();
      ghost var status := lastStatus;
      var c: Call;
      step, c := Venture(exit, xsrfRetried);
      retried := xsrfRetried || c.renewed.Some?;
      TellCall(calls, c, old(cookieStr), status);
      OneGood(calls, c);
      NotShared();
      Record(exit, c);
      ToldIs();
      if step.AgainUncounted? {
        LastIsOwing();
      }
    }

    lemma ToldMeans()
      requires Told() && Roster() && LoggedIn()
      ensures cookieStr == CookieAt(tries, calls) && AllTold(calls, tries, first, net)
      ensures IsLastStatus(calls, lastStatus)
      ensures cookieID == LastId(tries) && (cookieStr == "" ==> IsAlone(tries, first)) && GoodIsLast(calls)
    {
      hide TriesFollow, AtHand, Refused, TriedIds, WasRefreshed, GoodIsLast, AllTold, IsLastStatus, CookieAt, LastId,
           IsAlone;
    }

    /** The attempt loop over one exit, with its `attempt--`. */
    method Generate(exit: Exit) returns (done: bool)
      requires Books() && FilesFollow() && CallsFollow() && Stopped(exit) && AllCalled(|ready| - 1) && Hushed()
      requires Unanswered(calls) && !Retried(calls, |ready|) && Login() && LoggedIn()
      requires Roster() && Told() && Known(exit)
      modifies this`cookieStr, this`emitted, this`lastErr, this`lastStatus, this`calls, this`tokens, world.Parts()
      ensures fresh(world.Parts() - old(world.Parts()))
      ensures Books() && world.exits.KeepsDynamicIds(old(world.exits.dynamicURLs))
      ensures CallsFollow() && |calls| <= |old(calls)| + job.PerExit() && AllCalled(|ready|) && Login() && LoggedIn()
      ensures Told()
      ensures done <==> !Unanswered(calls)
      ensures (Silent(calls) || IsOver(calls)) && (emitted <==> !Silent(calls))
      ensures job.Attempts() > 0 ==> (done || lastErr) && calls != []
      ensures old(lastErr) ==> lastErr
      ensures job.Attempts() == 0 ==> !done && calls == old(calls) && lastErr == old(lastErr)
    {
      hide Request.Books, Request.FilesFollow, Request.CallsFollow, Request.AllCalled, Request.Login,
           Request.LoggedIn, Request.Roster, Request.Told, Request.Stopped, Retried, Silent, Owes, IsOver;
      NotOwing();
      var attempt, xsrfRetried := 0, false;
      var limit := job.policy.pool.retryAttempts;
      if limit <= 0 {
        NoneCalled(|ready|);
      }
      while attempt < limit
        invariant 0 <= attempt && (attempt <= limit || attempt == 0)
        invariant fresh(world.Parts() - old(world.Parts()))
        invariant Books() && world.exits.KeepsDynamicIds(old(world.exits.dynamicURLs))
        invariant FilesFollow() && CallsFollow() && AllCalled(|ready| - 1) && Login() && LoggedIn() && Told()
        invariant |calls| <= |old(calls)| + attempt + (if xsrfRetried then 1 else 0)
        invariant MayCall(xsrfRetried) && Unanswered(calls)
        invariant attempt < limit || Silent(calls)
        invariant attempt > 0 || limit <= 0 ==> AllCalled(|ready|)
        invariant (attempt > 0 ==> lastErr && calls != []) && (old(lastErr) ==> lastErr)
        invariant limit <= 0 ==> lastErr == old(lastErr) && calls == old(calls)
        decreases limit - attempt + (if xsrfRetried then 0 else 1)
      {
        var step: Step;
        step, xsrfRetried := Attempt(exit, xsrfRetried);
        FewerCalled(|ready|);
        match step {
          case Succeed => return true;
          case GiveUp => return false;
          case Again =>
          case AgainUncounted => attempt := attempt - 1;
        }
        attempt := attempt + 1;
      }
      return false;
    }

    lemma NotOwing()
      requires Hushed() && !Retried(calls, |ready|)
      ensures MayCall(false) && Silent(calls)
    {
    }

    lemma NoneCalled(n: int)
      requires job.Attempts() == 0
      ensures AllCalled(n)
    {
    }

    lemma FewerCalled(n: int)
      requires AllCalled(n)
      ensures AllCalled(n - 1)
    {
    }

    // -------------------------------------------------------------- switching exits

    /** The work done by the time `turn` exits are through. */
    ghost predicate Within(turn: nat)
      reads this`tried, this`calls
    {
      |tried| <= MAX_COOKIE_TRIES && |calls| <= Budget(turn, job.PerExit())
    }

    /** A request crashes: without attempts it got as far as generating over a proxy and could
        still switch, but no upload had failed, so the error to be reported is nil. */
    ghost predicate CrashDue()
      reads this`uploads, this`ready
    {
      && job.Attempts() == 0 && Fails(uploads) == 0
      && exists s :: s in ready && s.turn < job.Switches() && s.exit.id != 0
    }

    /** The error to be reported by `forceProxyCooldown` was never set. */
    ghost predicate CrashAhead()
      reads this`lastErr, this`ready
    {
      job.Attempts() == 0 && !lastErr && exists s :: s in ready && s.turn < job.Switches() && s.exit.id != 0
    }

    /** Between two exits: nothing is held, nothing was emitted, every exit used is excluded. */
    ghost predicate AtHead(turn: nat)
      reads this, world.Parts()
    {
      && Books() && !slotHeld && |used| == turn && ExitsDiffer() && Excluded(turn) && ExcludedFew(turn)
      && FilesFollow() && Story(0, |ready|) && Login() && Within(turn) && !CrashAhead() && LeftAreShut(turn)
      && Roster() && Told() && ShutOnly(turn)
    }

    /** While exit number `turn` is in use; `d` and `n` as in `Story`. */
    ghost predicate OnExit(turn: nat, exit: Exit, spent: nat, d: nat, n: int)
      reads this, world.Parts()
    {
      && Books() && |used| == turn + 1 && used[turn] == exit && ExitsDiffer() && Excluded(turn) && ExcludedFew(turn)
      && FilesFollow() && Story(d, n) && Login() && Within(spent) && LeftAreShut(turn)
      && Roster() && Told() && ShutOnly(turn + 1)
    }

    /** What holds wherever the request ends. */
    ghost predicate AtEnd(outcome: Outcome)
      reads this, world.Parts()
    {
      && Books() && |used| <= job.Switches() + 1 && ExitsDiffer()
      && CallsFollow() && FilesSettled() && Login() && AllCalled(|ready|) && ErrorsMeant()
      && (Silent(calls) || IsOver(calls)) && Within(job.Switches() + 1) && (used == [] || LeftAreShut(|used| - 1))
      && Roster() && Told() && ShutOnly(|used|) && (outcome.Done? ==> |used| > 0 && ShutOnly(|used| - 1))
      && (outcome.Crashed? <==> CrashAhead())
      && (outcome.Done? <==> !Unanswered(calls))
      && Reason(outcome)
    }

    /** A request ends without a good answer only for these reasons. */
    ghost predicate Reason(outcome: Outcome)
      reads this`used, this`ready, this`uploads, this`calls, this`first, this`cookieStr, this`acct, this`tries,
            this`accountsFailed, this`shuts
    {
      match outcome
      case NoExit => used == [] && !world.IsOpen(job.policy)
      case AccountsDead =>
        accountsFailed && Refused(tries) && !job.fallbackAnon && cookieStr == "" && NoneLeft(tries, acct)
      case NeedsAccount => job.pending != [] && cookieStr == "" && LoggedIn()
      case UploadFailed =>
        |used| == job.Switches() + 1 && Balance(0) && ready == [] && UploadBroke() && LeftAreShut(|used|)
      case ConversationNotSent => job.longPrompt && !net.conversation(|ready|)
      case TooLong => job.longPrompt && (cookieStr == "" || job.longInstruction) && LoggedIn()
      case UpstreamFailed => Silent(calls) ==> RanOut()
      case NoAnswer => Silent(calls) ==> RanOut()
      case _ => true
    }

    /** The last error is reported if there was one, a failed upload or a call without a good answer;
        so no answer at all means that neither was the case. */
    ghost predicate NamesError(outcome: Outcome)
      reads this`calls, this`uploads
    {
      && (outcome.UpstreamFailed? ==> calls != [] || Fails(uploads) > 0)
      && (outcome.NoAnswer? ==> calls == [] && Fails(uploads) == 0)
    }

    /** All exits that may be tried were, or there was no other; where nothing is scarce, there is
        a second one. */
    ghost predicate RanOut()
      reads this`used, this`ready, this`uploads
    {
      Balance(0) && (|used| == job.Switches() + 1 || (|used| > 0 && (world.IsOpen(job.policy) ==> |used| >= 2)))
    }

    /** The first exit: that of the account is preferred. */
    ghost function FirstExit(): Option<Exit>
      reads this`preferProxy, world, world.exits, world.exits.pool, world.exits.slots,
            world.exits.slots.slots.Values
    {
      world.exits.Choice(preferProxy, {}, {}, world.now, job.policy, world.Answers())
    }

    /** The exit the request began with. */
    ghost function Begun(): Option<Exit>
      reads this`used
    {
      if used == [] then None else Some(used[0])
    }

    method AcquireNext(turn: nat) returns (exit: Option<Exit>)
      requires AtHead(turn)
      modifies world.Parts()
      ensures fresh(world.Parts() - old(world.Parts()))
      ensures exit.None? ==> Books() && ExitsDiffer() && (world.IsOpen(job.policy) ==> turn >= 2)
      ensures exit.Some? ==>
                && world.Valid() && world.Ledger(multiset{exit.value.id})
                && Differ(used + [exit.value], world.exits.dynamicURLs)
                && (exit.value.id == 0 ==> exit.value.url == "")
      ensures turn == 0 ==> exit == old(FirstExit())
    {
      hide World.Valid, World.Ledger, Request.FilesFollow, Request.Story, Request.Login, Request.CrashAhead,
           Request.Within, Differ, Request.Roster, Request.Told, Request.ShutOnly, World.IsOpen, Request.LeftAreShut,
           Exits.Choice, Exits.CanHave;
      ghost var urls := world.exits.dynamicURLs;
      FirstIsExcluded(turn);
      exit := world.Acquire(if turn == 0 then preferProxy else 0, excludedIDs, excludedURLs, job.policy, multiset{});
      StillDiffer(used, urls, world.exits.dynamicURLs);
      if exit.Some? {
        OneMoreExit(used, exit.value, world.exits.dynamicURLs, excludedIDs, excludedURLs);
        assert multiset{} + multiset{exit.value.id} == multiset{exit.value.id};
      }
    }

    lemma FirstIsExcluded(turn: nat)
      requires ExcludedFew(turn)
      ensures turn < 2 ==> forall url :: url != "" ==> 0 !in excludedIDs || url !in excludedURLs
    {
    }

    method TakeExit(turn: nat) returns (exit: Option<Exit>)
      requires AtHead(turn) && turn <= job.Switches()
      modifies this`slotHeld, this`currentSlotID, this`used, world.Parts()
      ensures fresh(world.Parts() - old(world.Parts()))
      ensures exit.None? ==> AtHead(turn) && (world.IsOpen(job.policy) ==> turn >= 2)
      ensures exit.Some? ==> OnExit(turn, exit.value, turn, 1, |ready|) && !CrashAhead() && ShutOnly(turn)
      ensures turn == 0 ==> exit == old(FirstExit())
      ensures used == if exit.Some? then old(used) + [exit.value] else old(used)
    {
      hide World.Valid, World.Ledger, Request.FilesFollow, Request.Story, Request.Login, Request.CrashAhead,
           Request.Within, Differ, Request.Roster, Request.Told, Request.ShutOnly, Request.FirstExit, World.IsOpen,
           Request.Excluded, Request.ExcludedFew, Request.LeftAreShut;
      exit := AcquireNext(turn);
      if exit.Some? {
        Take(turn, exit.value);
      }
    }

    method Take(turn: nat, exit: Exit)
      requires Excluded(turn) && ExcludedFew(turn) && LeftAreShut(turn) && Story(0, |ready|) && |used| == turn
      requires ShutOnly(turn)
      requires exit.id == 0 ==> exit.url == ""
      modifies this`slotHeld, this`currentSlotID, this`used
      ensures slotHeld && currentSlotID == exit.id && used == old(used) + [exit]
      ensures Excluded(turn) && ExcludedFew(turn) && LeftAreShut(turn) && Story(1, |ready|)
      ensures ShutOnly(turn) && ShutOnly(turn + 1)
    {
      hide Excludes, Request.ShutsFit, Request.CallsFollow, Request.AllCalled, Fails, WasShut, Request.Story;
      StoryEnds(0);
      currentSlotID, slotHeld := exit.id, true;
      used := used + [exit];
      assert used[..turn] == old(used)[..turn] && used[..turn] <= used[..turn + 1];
      StoryGoesOn(1, |ready|);
    }

    lemma NoMoreExits(turn: nat)
      requires AtHead(turn) && turn <= job.Switches() && (world.IsOpen(job.policy) ==> turn >= 2)
      ensures AtEnd(if turn == 0 then NoExit else NoAnswer)
    {
      hide Request.Books, Request.CallsFollow, Request.CrashAhead, Request.Login, Request.ExitsDiffer, World.IsOpen,
           Request.Balance, Request.FilesSettled, Request.LeftAreShut;
      FollowSettled();
      if turn > 0 {
        FewerShut(turn, turn - 1);
      }
      Stops(turn, if turn == 0 then NoExit else NoAnswer);
    }

    lemma FollowSettled()
      requires FilesFollow()
      ensures FilesSettled()
    {
      hide Request.FilesSettled;
    }

    lemma Stops(turn: nat, outcome: Outcome)
      requires Books() && ExitsDiffer() && |used| <= job.Switches() + 1 && CallsFollow() && FilesSettled() && Hushed()
      requires Login() && AllCalled(|ready|) && ErrorsMeant() && Unanswered(calls)
      requires Within(turn) && turn <= job.Switches() + 1 && !CrashAhead() && (used == [] || LeftAreShut(|used| - 1))
      requires outcome !in {Crashed, Done} && Reason(outcome) && Roster() && Told() && ShutOnly(|used|)
      ensures AtEnd(outcome)
    {
      hide Request.Books, Request.CallsFollow, Request.FilesSettled, Request.CrashAhead, Request.Reason,
           Request.Login, Request.AllCalled, Request.Roster, Request.Told, Request.ShutOnly;
      BudgetGrows(turn, job.Switches() + 1, job.PerExit());
    }

    /** The account for this exit, or the decision to go on without one. */
    method SeekAccount(turn: nat, exit: Exit) returns (next: Next)
      requires OnExit(turn, exit, turn, 1, |ready|) && !CrashAhead() && turn <= job.Switches()
      modifies this`acct, this`cookieStr, this`cookieID, this`accountsFailed, this`tried, this`rotatedOnce, this`tokens,
               this`tries, world.Parts()
      ensures fresh(world.Parts() - old(world.Parts()))
      ensures next in {Proceed, Return(AccountsDead)}
      ensures next.Proceed? ==> OnExit(turn, exit, turn, 1, |ready|) && !CrashAhead() && LoggedIn()
      ensures next.Return? ==> AtEnd(AccountsDead)
    {
      hide World.Parts;
      hide Request.Books, Request.FilesFollow, Request.CrashAhead, Differ, Request.Story, AllTokens,
           Request.LeftAreShut, Request.Roster, Request.Told, Request.ShutOnly, NoneLeft, IsAlone, Request.Excluded,
           Request.ExcludedFew;
      NotShared();
      ghost var urls := world.exits.dynamicURLs;
      FindAccount(exit);
      StillDiffer(used, urls, world.exits.dynamicURLs);
      RefusedMeans();
      next := Proceed;
      if accountsFailed && cookieStr == "" {
        if !job.fallbackAnon {
          FollowSettled();
          StoryEnds(1);
          Stops(turn, AccountsDead);
          next := Return(AccountsDead);
        } else {
          GoAnonymous();
        }
      } else if cookieStr == "" {
        AloneUnlessRefused();
      }
    }

    lemma RefusedMeans()
      requires Roster()
      ensures accountsFailed <==> Refused(tries)
    {
      hide TriesFollow, AtHand, LastId, TriedIds, WasRefreshed, Refused;
    }

    lemma AloneUnlessRefused()
      requires Roster() && !accountsFailed && NoneLeft(tries, acct)
      ensures IsAlone(tries, first)
    {
      hide TriesFollow, AtHand, LastId, TriedIds, WasRefreshed, Refused;
    }

    method GoAnonymous()
      requires Roster() && Told() && accountsFailed && job.fallbackAnon && cookieStr == "" && NoneLeft(tries, acct)
      requires Books()
      modifies this`cookieID, this`tries
      ensures Books() && world.Parts() == old(world.Parts()) && Roster() && Told() && IsAlone(tries, first)
    {
      hide Request.Books;
      NotShared();
      hide TriesFollow, GoodIsLast, AllTold, IsLastStatus, TriedIds, WasRefreshed, Refused;
      var t := Anonymous(acct);
      assert IsTry(tries, t, first, job, net);
      cookieID := 0;
      LogTry(t);
    }

    lemma StoryEnds(d: nat)
      requires Story(d, |ready|)
      ensures CallsFollow() && Hushed() && AllCalled(|ready|) && ErrorsMeant() && Unanswered(calls) && Balance(d)
    {
      hide Request.CallsFollow, Request.Hushed, Request.AllCalled, Request.ErrorsMeant, Request.Balance;
    }

    lemma StoryGoesOn(d: nat, n: int)
      requires CallsFollow() && Hushed() && AllCalled(n) && ErrorsMeant() && Unanswered(calls) && Balance(d)
      ensures Story(d, n)
    {
      hide Request.CallsFollow, Request.Hushed, Request.AllCalled, Request.ErrorsMeant, Request.Balance;
    }

    /** The exit is excluded and its slot given back before the next one is asked for. */
    method Leave(turn: nat, exit: Exit, ghost spent: nat)
      requires OnExit(turn, exit, spent, 0, |ready|) && !CrashAhead() && turn <= job.Switches() && spent <= turn + 1
      requires exit.id == 0 || WasShut(shuts, exit)
      modifies this`slotHeld, this`excludedIDs, this`excludedURLs, world.Parts()
      ensures fresh(world.Parts() - old(world.Parts()))
      ensures AtHead(turn + 1)
    {
      hide Request.Books, Request.FilesFollow, Request.Story, Request.Login, Request.CrashAhead, Differ,
           Request.Roster, Request.Told, Request.ShutOnly, Request.ShutsFit, WasShut;
      Exclude(turn, exit);
      ghost var urls := world.exits.dynamicURLs;
      ReleaseCurrent();
      StillDiffer(used, urls, world.exits.dynamicURLs);
      BudgetGrows(spent, turn + 1, job.PerExit());
    }

    method Exclude(turn: nat, exit: Exit)
      requires Excluded(turn) && ExcludedFew(turn) && |used| == turn + 1 && used[turn] == exit
      modifies this`excludedIDs, this`excludedURLs
      ensures Excluded(turn + 1) && ExcludedFew(turn + 1)
    {
      excludedIDs := excludedIDs + {exit.id};
      excludedURLs := if exit.url != "" then excludedURLs + {exit.url} else excludedURLs;
    }

    /** Attachments, and the switch to the next exit when one of them fails. */
    method SendAttachments(turn: nat, exit: Exit) returns (next: Next)
      requires OnExit(turn, exit, turn, 1, |ready|) && !CrashAhead() && turn <= job.Switches() && LoggedIn()
      modifies this`files, this`lastErr, this`uploads, this`shuts, world.Parts()
      ensures fresh(world.Parts() - old(world.Parts()))
      ensures !next.Break?
      ensures next.Proceed? ==> OnExit(turn, exit, turn, 1, |ready|) && !CrashAhead() && AllUp() && LoggedIn()
      ensures next.Proceed? ==> shuts == old(shuts)
      ensures next.Continue? ==>
                && turn < job.Switches() && OnExit(turn, exit, turn, 0, |ready|) && !CrashAhead()
                && (exit.id == 0 || WasShut(shuts, exit))
      ensures next.Return? ==> AtEnd(next.outcome) && next.outcome in {NeedsAccount, UploadFailed}
    {
      hide World.Parts;
      hide Request.Books, Request.FilesFollow, Request.CallsFollow, Request.Login, Request.LoggedIn, Differ,
           Request.Balance, Request.Excluded, Request.ExcludedFew, Request.LeftAreShut, Request.ShutsFit,
           Request.Story, WasShut, Fails, Request.Roster, Request.Told, ShutAll;
      NotShared();
      ghost var urls := world.exits.dynamicURLs;
      StoryEnds(1);
      IsKnownExit(turn, exit);
      next := Uploads(turn, exit);
      StillDiffer(used, urls, world.exits.dynamicURLs);
      StillShut(old(shuts), shuts, used, turn);
      ShutHere(old(shuts), turn, exit);
      ShutSoFar(turn);
      if next == Return(UploadFailed) {
        OneMoreShut(turn, exit);
      }
      if next.Proceed? {
        StoryGoesOn(1, |ready|);
      } else if next.Continue? {
        StoryGoesOn(0, |ready|);
      } else {
        FollowSettled();
        Stops(turn, next.outcome);
      }
    }

    lemma IsKnownExit(turn: nat, exit: Exit)
      requires ExitsDiffer() && LeftAreShut(turn) && turn < |used| && used[turn] == exit
      ensures ShutsFit() && ShutAll(shuts, used, turn) && Known(exit)
    {
    }

    lemma OneMoreShut(n: nat, exit: Exit)
      requires LeftAreShut(n) && n < |used| && used[n] == exit && (exit.id == 0 || WasShut(shuts, exit))
      ensures LeftAreShut(n + 1)
    {
      hide WasShut;
    }

    /** The exit in use was the only one given up since. */
    lemma ShutHere(before: seq<Shut>, n: nat, exit: Exit)
      requires n < |used| && used[n] == exit && OnlyShut(before, used, n + 1)
      requires forall s :: s in shuts ==> s in before || s.exit == exit
      ensures ShutOnly(n + 1)
    {
      assert used[..n + 1][n] == exit;
    }

    lemma FewerShut(n: nat, m: nat)
      requires LeftAreShut(n) && m <= n
      ensures LeftAreShut(m)
    {
    }

    lemma ShutSoFar(n: nat)
      requires n <= |used| && ShutsFit() && ShutAll(shuts, used, n)
      ensures LeftAreShut(n)
    {
    }

    method SendConversation(turn: nat, exit: Exit) returns (next: Next)
      requires OnExit(turn, exit, turn, 1, |ready|) && !CrashAhead() && turn <= job.Switches() && AllUp() && LoggedIn()
      modifies this`files, this`ready, world.Parts()
      ensures fresh(world.Parts() - old(world.Parts()))
      ensures next in {Proceed, Return(ConversationNotSent), Return(TooLong)}
      ensures next.Proceed? ==>
                && OnExit(turn, exit, turn, 0, |ready| - 1) && Stopped(exit) && LoggedIn() && !Retried(calls, |ready|)
                && (CrashAhead() <==> job.Attempts() == 0 && !lastErr && turn < job.Switches() && exit.id != 0)
      ensures next.Return? ==> AtEnd(next.outcome)
    {
      hide World.Parts;
      hide Request.Books, Request.FilesFollow, Request.CallsFollow, Request.Login, Request.LoggedIn, Differ,
           Request.Balance, Request.Roster, Request.Told, Request.ShutOnly, Request.Excluded, Request.ExcludedFew,
           Request.LeftAreShut, Request.Story, Request.AllCalled, Retried;
      NotShared();
      StoryEnds(1);
      FollowSettled();
      ghost var urls := world.exits.dynamicURLs;
      next := AttachConversation(turn, exit);
      StillDiffer(used, urls, world.exits.dynamicURLs);
      if next.Return? {
        Stops(turn, next.outcome);
      } else {
        StoryGoesOn(0, |ready| - 1);
      }
    }

    /** The generation calls over one exit. */
    method TryGenerate(turn: nat, exit: Exit) returns (done: bool)
      requires OnExit(turn, exit, turn, 0, |ready| - 1) && Stopped(exit) && turn <= job.Switches() && LoggedIn()
      requires !Retried(calls, |ready|) && ShutOnly(turn)
      requires CrashAhead() <==> job.Attempts() == 0 && !lastErr && turn < job.Switches() && exit.id != 0
      modifies this`cookieStr, this`emitted, this`lastErr, this`lastStatus, this`calls, this`tokens, world.Parts()
      ensures fresh(world.Parts() - old(world.Parts()))
      ensures CrashAhead() <==> job.Attempts() == 0 && !lastErr && turn < job.Switches() && exit.id != 0
      ensures done ==> AtEnd(Done)
      ensures !done && emitted ==> AtEnd(NoAnswer)
      ensures !done && !emitted ==> OnExit(turn, exit, turn + 1, 0, |ready|)
      ensures !done && job.Attempts() > 0 ==> lastErr
    {
      hide World.Parts;
      hide Request.Books, Request.FilesFollow, Request.CallsFollow, Request.Login, Request.LoggedIn, Differ,
           Request.Balance, Request.Roster, Request.Told, Request.ShutOnly, Request.Excluded, Request.ExcludedFew,
           Request.LeftAreShut, Request.Story, Request.AllCalled, Retried, Silent, IsOver;
      NotShared();
      StoryStarts();
      FollowSettled();
      ghost var urls := world.exits.dynamicURLs;
      IsKnownExit(turn, exit);
      done := Generate(exit);
      StillDiffer(used, urls, world.exits.dynamicURLs);
      BudgetGrows(turn + 1, job.Switches() + 1, job.PerExit());
      if !done && !emitted {
        StoryGoesOn(0, |ready|);
      }
    }

    lemma StoryStarts()
      requires ready != [] && Story(0, |ready| - 1)
      ensures CallsFollow() && Hushed() && AllCalled(|ready| - 1) && ErrorsMeant() && Unanswered(calls) && Balance(0)
    {
      hide Request.CallsFollow, Request.Hushed, Request.AllCalled, Request.ErrorsMeant, Request.Balance;
    }

    /** After the calls over one exit: the next exit, or the end. */
    method Conclude(turn: nat, exit: Exit) returns (next: Next)
      requires OnExit(turn, exit, turn + 1, 0, |ready|) && turn <= job.Switches()
      requires job.Attempts() > 0 ==> lastErr
      requires CrashAhead() <==> job.Attempts() == 0 && !lastErr && turn < job.Switches() && exit.id != 0
      modifies this`slotHeld, this`excludedIDs, this`excludedURLs, this`shuts, world.Parts()
      ensures fresh(world.Parts() - old(world.Parts()))
      ensures next in {Continue, Break, Return(Crashed)}
      ensures next.Continue? ==> turn < job.Switches() && AtHead(turn + 1)
      ensures next.Break? ==> AtEnd(NoAnswer)
      ensures next.Return? ==> AtEnd(Crashed)
    {
      hide Request.Books, Request.FilesFollow, Request.CallsFollow, Request.CrashAhead, Request.FilesSettled, Differ,
           Request.Login, Request.Balance, Request.Roster, Request.Told, OnlyShut, Request.Excluded,
           Request.ExcludedFew, Request.LeftAreShut, Request.ShutsFit, Request.Story, Request.AllCalled, WasShut,
           ShutAll;
      FollowSettled();
      StoryEnds(0);
      if turn == job.Switches() {
        Stops(turn + 1, NoAnswer);
        return Break;
      }
      if exit.id != 0 && !lastErr {
        BudgetGrows(turn + 1, job.Switches() + 1, job.PerExit());
        return Return(Crashed); // the error to report is nil
      }
      ghost var urls := world.exits.dynamicURLs;
      IsKnownExit(turn, exit);
      Cooldown(exit);
      StillDiffer(used, urls, world.exits.dynamicURLs);
      StillShut(old(shuts), shuts, used, turn);
      ShutHere(old(shuts), turn, exit);
      ShutSoFar(turn);
      Leave(turn, exit, turn + 1);
      return Continue;
    }

    /** What comes before the generation calls over one exit. */
    method Prepare(turn: nat, exit: Exit) returns (next: Next)
      requires OnExit(turn, exit, turn, 1, |ready|) && !CrashAhead() && turn <= job.Switches()
      modifies this`acct, this`cookieStr, this`cookieID, this`accountsFailed, this`tried, this`rotatedOnce, this`tokens,
               this`files, this`lastErr, this`uploads, this`ready, this`slotHeld, this`excludedIDs, this`excludedURLs,
               this`shuts, this`tries, world.Parts()
      ensures fresh(world.Parts() - old(world.Parts()))
      ensures !next.Break? && (next.Proceed? ==> shuts == old(shuts))
      ensures next.Proceed? ==>
                && OnExit(turn, exit, turn, 0, |ready| - 1) && Stopped(exit) && LoggedIn() && !Retried(calls, |ready|)
                && (CrashAhead() <==> job.Attempts() == 0 && !lastErr && turn < job.Switches() && exit.id != 0)
      ensures next.Continue? ==> turn < job.Switches() && AtHead(turn + 1)
      ensures next.Return? ==> AtEnd(next.outcome) && next.outcome !in {UpstreamFailed, NoAnswer}
    {
      hide Request.AtHead, Request.OnExit, Request.AtEnd, Request.CrashAhead, Request.Stopped, Request.LoggedIn,
           Request.AllUp, Retried;
      next := SeekAccount(turn, exit);
      if next.Proceed? {
        next := SendAttachments(turn, exit);
        if next.Continue? {
          Leave(turn, exit, turn);
        }
      }
      if next.Proceed? {
        next := SendConversation(turn, exit);
      }
    }

    /** One pass of the outer loop. */
    method TryExit(turn: nat) returns (next: Next)
      requires AtHead(turn) && turn <= job.Switches()
      modifies this, world.Parts()
      ensures fresh(world.Parts() - old(world.Parts())) && first == old(first) && closing == old(closing)
      ensures !next.Proceed? && old(used) <= used && (turn == 0 ==> Begun() == old(FirstExit()))
      ensures next.Continue? ==> turn < job.Switches() && AtHead(turn + 1)
      ensures next.Break? ==> AtEnd(NoAnswer)
      ensures next.Return? ==> AtEnd(next.outcome) && next.outcome !in {UpstreamFailed, NoAnswer}
    {
      hide Request.AtHead, Request.OnExit, Request.AtEnd, Request.CrashAhead, Request.Stopped, Request.LoggedIn,
           Retried, Request.FirstExit, Request.ShutOnly, World.IsOpen;
      HeadIs(turn);
      var e := TakeExit(turn);
      if e.None? {
        NoMoreExits(turn);
        return if turn == 0 then Return(NoExit) else Break;
      }
      next := UseExit(turn, e.value);
    }

    /** One exit: prepared, called, given up. */
    method UseExit(turn: nat, exit: Exit) returns (next: Next)
      requires OnExit(turn, exit, turn, 1, |ready|) && !CrashAhead() && turn <= job.Switches() && ShutOnly(turn)
      modifies this`acct, this`cookieStr, this`cookieID, this`accountsFailed, this`tried, this`rotatedOnce, this`tokens,
               this`files, this`lastErr, this`uploads, this`ready, this`slotHeld, this`excludedIDs, this`excludedURLs,
               this`shuts, this`tries, this`emitted, this`lastStatus, this`calls, world.Parts()
      ensures fresh(world.Parts() - old(world.Parts())) && !next.Proceed?
      ensures next.Continue? ==> turn < job.Switches() && AtHead(turn + 1)
      ensures next.Break? ==> AtEnd(NoAnswer)
      ensures next.Return? ==> AtEnd(next.outcome) && next.outcome !in {UpstreamFailed, NoAnswer}
    {
      hide Request.AtHead, Request.OnExit, Request.AtEnd, Request.CrashAhead, Request.Stopped, Request.LoggedIn,
           Retried, Request.ShutOnly, World.IsOpen;
      next := Prepare(turn, exit);
      if !next.Proceed? {
        return;
      }
      var done := TryGenerate(turn, exit);
      if done {
        return Return(Done);
      }
      if emitted {
        return Break;
      }
      next := Conclude(turn, exit);
    }

    lemma HeadIs(turn: nat)
      requires AtHead(turn)
      ensures |used| == turn
    {
    }

    /** All exits, and the verdict. */
    method Work() returns (outcome: Outcome)
      requires AtHead(0) && closing.None?
      modifies this, world.Parts()
      ensures fresh(world.Parts() - old(world.Parts())) && first == old(first)
      ensures AtEnd(outcome) && NamesError(outcome) && IsClosed(outcome)
      ensures Begun() == old(FirstExit())
    {
      hide Request.AtHead, Request.AtEnd, Request.FirstExit, Request.NamesError;
      ghost var begin := FirstExit();
      var turn := 0;
      while turn <= job.Switches()
        invariant 0 <= turn <= job.Switches() && first == old(first) && closing.None?
        invariant if turn == 0 then FirstExit() == begin else used != [] && Begun() == begin
        invariant fresh(world.Parts() - old(world.Parts()))
        invariant AtHead(turn)
        decreases job.Switches() - turn
      {
        HeadIs(turn);
        var next := TryExit(turn);
        if next.Return? {
          NamesNone(next.outcome);
          return next.outcome;
        }
        if next.Break? {
          break;
        }
        turn := turn + 1;
        HeadIs(turn);
      }
      outcome := Verdict();
    }

    lemma NamesNone(outcome: Outcome)
      requires outcome !in {UpstreamFailed, NoAnswer}
      ensures NamesError(outcome)
    {
    }

    /** Only when the last error is reported, its status is marked on the account: that of the last answer
        that was not 200. */
    ghost predicate IsClosed(outcome: Outcome)
      reads this`closing, this`calls, this`tries
    {
      && (closing.Some? <==> outcome.UpstreamFailed?)
      && (closing.Some? ==>
            && closing.value.account == LastId(tries) && IsLastStatus(calls, closing.value.status)
            && IsMark(closing.value))
    }

    /** After the loop: the last status is marked on the account. */
    method Verdict() returns (outcome: Outcome)
      requires AtEnd(NoAnswer) && closing.None?
      modifies this`closing, world`readings, world.accounts
      ensures AtEnd(outcome) && NamesError(outcome) && IsClosed(outcome)
    {
      hide Request.Books, Request.CallsFollow, Request.CrashAhead, Request.FilesSettled, Request.ExitsDiffer,
           Request.Login, Request.AllCalled, Request.LeftAreShut, Request.RanOut, Request.Roster, Request.Told,
           Request.ShutOnly, IsMark;
      NotShared();
      if !lastErr {
        return NoAnswer;
      }
      ToldStatus();
      var m := Mark(lastStatus);
      closing := Some(m);
      return UpstreamFailed;
    }

    lemma ToldStatus()
      requires Told() && Roster()
      ensures IsLastStatus(calls, lastStatus) && cookieID == LastId(tries)
    {
      hide TriesFollow, AtHand, Refused, TriedIds, WasRefreshed, GoodIsLast, AllTold, IsLastStatus, CookieAt, LastId;
    }

    /** The account and its own exit come first; a job that can do without goes anonymously. */
    method Start()
      requires Fresh() && world.Valid() && world.Ledger(multiset{})
      modifies this`acct, this`first, this`preferProxy, world`readings, world.accounts
      ensures Fresh() && Books() && IsFirst(old(world.accounts.table), old(world.readings))
      ensures preferProxy == OwnExit()
    {
      hide World.Valid, World.Ledger, World.Parts, IsNext, Enabled;
      NotShared();
      var a: Option<Account> := None;
      if !(job.anonFirst && job.pending == []) {
        assert Enabled(world.accounts.table) - {} == Enabled(world.accounts.table);
        var pick := world.PickAccount({}, multiset{});
        a := pick.account;
      }
      acct, first := a, a;
      preferProxy := if acct.Some? then acct.value.proxyId else 0;
    }

    /** The exit that the first account is bound to. */
    ghost function OwnExit(): int
      reads this`first
    {
      if first.Some? then first.value.proxyId else 0
    }

    /** Which account comes first: the one whose turn it is, unless the table cannot be read. */
    ghost predicate IsFirst(table: map<int, Account>, reading: nat)
      reads this`first
    {
      if job.anonFirst && job.pending == [] then first.None?
      else
        && (first.Some? <==> world.readable(reading) && Enabled(table) != {})
        && (first.Some? ==> IsNext(first.value, table, {}))
    }

    lemma StartsAtHead()
      requires Fresh() && Books()
      ensures AtHead(0)
    {
      hide Request.Books;
      assert TriedIds([]) == {} && !Refused([]);
      NothingUploaded();
      assert job.pending[..0] == [] && Attachments([]) == [] && Copies(0) == [];
    }

    /** What the books say at the end of a request. */
    lemma Summary(outcome: Outcome)
      requires AtEnd(outcome)
      ensures |calls| <= (job.Switches() + 1) * job.PerExit()
      ensures forall i, j :: 0 <= i < j < |used| ==> used[i].id != used[j].id
      ensures forall c :: c in calls ==> (Attachments(job.pending) <= c.files <==> !BrokeOff(uploads))
      ensures forall c :: c in calls ==> HasCopies(c)
      ensures |tried| <= MAX_COOKIE_TRIES && |used| <= job.Switches() + 1
      ensures used != [] ==> LeftAreShut(|used| - 1)
      ensures UploadsFollow(uploads, |job.pending|, net) && Answered(calls, job, net)
      ensures Renewals(calls) && LateLaw(calls) && AllCalled(|ready|) && Login() && ErrorsMeant()
      ensures outcome.Done? <==> !Unanswered(calls)
      ensures outcome.Crashed? <==> CrashDue()
      ensures Reason(outcome) && FilesSettled() && (calls != [] ==> ready != [])
      ensures TriesFollow(tries, first, job, net) && AllTold(calls, tries, first, net) && GoodIsLast(calls)
      ensures ShutOnly(|used|) && (outcome.Done? ==> used != [] && ShutOnly(|used| - 1))
    {
      hide TriesFollow, AllTold, IsLastStatus, CookieAt, LastId, AtHand, Refused, TriedIds, WasRefreshed, GoodIsLast,
           Request.ShutOnly;
      hide Request.Books, Request.CrashDue, Good, Uploaded, UploadsFollow, Answered, Renewals, LateLaw,
           Request.AllCalled, Request.Login, Request.Reason, Silent, IsOver;
      BudgetIs(job.Switches() + 1, job.PerExit());
      CrashTold(outcome);
      LateLawHolds(calls);
      BrokeOffIff(uploads, |job.pending|, net);
      forall c | c in calls
        ensures (Attachments(job.pending) <= c.files <==> !BrokeOff(uploads)) && HasCopies(c)
      {
        assert Carries(c, Uploaded(uploads), ready, job);
        Carried(c);
      }
    }

    lemma CrashTold(outcome: Outcome)
      requires AtEnd(outcome)
      ensures outcome.Crashed? <==> CrashDue()
    {
      hide Request.Books, Request.ExitsDiffer, Request.FilesSettled, Request.AllCalled, Request.Login, Request.Reason,
           Request.LeftAreShut, Request.CallsFollow, Request.Roster, Request.Told, Request.ShutOnly, Silent, IsOver,
           Unanswered;
      BudgetIs(job.Switches() + 1, job.PerExit());
      assert job.Attempts() == 0 ==> calls == [];
      NoCallsUnanswered();
    }

    lemma NoCallsUnanswered()
      ensures Unanswered([])
    {
    }

    lemma Carried(c: Call)
      requires FilesSettled() && ready != [] && Uploaded(uploads) <= |job.pending|
      requires Carries(c, Uploaded(uploads), ready, job)
      ensures (Attachments(job.pending) <= c.files <==> !BrokeOff(uploads)) && HasCopies(c)
    {
      hide Uploaded, UploadsFollow;
      BrokeOffIff(uploads, |job.pending|, net);
      if uploads != [] {
        BrokenIsShort(uploads, |job.pending|, net);
      }
      var copies := if job.longPrompt then c.round else 0;
      PrefixIff(job.pending, Uploaded(uploads), copies);
      CountCopies(job.pending[..Uploaded(uploads)], copies);
    }

    /** A call over the n-th exit that got as far as generating carries n copies of a
        conversation too long to be sent inline. */
    ghost predicate HasCopies(c: Call)
      reads this`ready
    {
      && 1 <= c.round <= |ready| && c.exit == ready[c.round - 1].exit
      && multiset(c.files)[Conversation] == if job.longPrompt then c.round else 0
    }

    /** The whole request: however it ends, and whatever other requests do meanwhile,
        every slot it took is given back. */
    method Run() returns (outcome: Outcome)
      requires Fresh() && world.Valid() && world.Ledger(multiset{})
      modifies this, world.Parts()
      // conservation: what is in flight is what the others hold
      ensures world.Valid() && world.Ledger(multiset{})
      // bounded work, over exits that all differ
      ensures |calls| <= (job.Switches() + 1) * job.PerExit()
      ensures |tried| <= MAX_COOKIE_TRIES
      ensures |used| <= job.Switches() + 1
      ensures forall i, j :: 0 <= i < j < |used| ==> used[i].id != used[j].id
      // every proxy that was given up was shut out by its row or its statistics at that moment
      ensures used != [] ==> LeftAreShut(|used| - 1)
      // the log tells what the network answered
      ensures UploadsFollow(uploads, |job.pending|, net) && Answered(calls, job, net)
      // a call is made after text was emitted exactly if the answer it came from refused the
      // token and a new one came; that is one call at most
      ensures Renewals(calls) && LateLaw(calls)
      // the calls carry all attachments exactly if no upload broke off half way
      ensures forall c :: c in calls ==> (Attachments(job.pending) <= c.files <==> !BrokeOff(uploads))
      ensures forall c :: c in calls ==> HasCopies(c)
      // every exit that got so far was called, if there are attempts at all
      ensures AllCalled(|ready|) && FilesSettled() && (calls != [] ==> ready != [])
      // success means a good answer, a crash means that attempts are switched off, and anything
      // else has its reason
      ensures outcome.Done? <==> !Unanswered(calls)
      ensures outcome.Done? <==>
                calls != [] && var a := calls[|calls| - 1].answer; a.Response? && a.status == 200 && a.content
      ensures outcome.Crashed? <==> CrashDue()
      ensures Reason(outcome) && NamesError(outcome)
      // only exits that were given up were shut out, and never the one the good answer came over
      ensures ShutOnly(|used|) && (outcome.Done? ==> used != [] && ShutOnly(|used| - 1))
      // accounts are taken, refreshed, bound, marked and picked as their tokens come or not
      ensures TriesFollow(tries, first, job, net)
      // every call is booked on its exit unless its token was replaced, as a success exactly for a good
      // answer, and marked on its account exactly then; and its cookies are kept and written back
      ensures AllTold(calls, tries, first, net) && GoodIsLast(calls)
      // and in the end the last status is, exactly if the last error is reported
      ensures IsClosed(outcome)
      // the first exit is the one to be had then, that of the first account preferred
      ensures var own := OwnExit();
              Begun() == old(world.exits.Choice(own, {}, {}, world.now, job.policy, world.Answers()))
      ensures IsFirst(old(world.accounts.table), old(world.readings)) && Login() && ErrorsMeant()
    {
      hide TriesFollow, AllTold, GoodIsLast, Request.IsClosed, Request.ShutOnly, Exits.Choice, Request.NamesError;
      hide Request.AtHead, Request.AtEnd, World.Valid, World.Ledger, Request.Books, Request.Fresh, Request.CrashDue,
           Request.HasCopies, Request.IsFirst, Request.Login, Request.Reason, Request.FilesSettled, Request.AllCalled,
           Request.LeftAreShut, Request.ErrorsMeant, LateLaw, Renewals, Answered, UploadsFollow, BrokeOff;
      FreshIs();
      Start();
      FreshIs();
      StartsAtHead();
      outcome := Work();
      Summary(outcome);
      Defer(outcome);
    }

    lemma FreshIs()
      requires Fresh()
      ensures closing.None? && used == []
    {
    }

    method Defer(ghost outcome: Outcome)
      requires AtEnd(outcome)
      modifies this`slotHeld, world.Parts()
      ensures fresh(world.Parts() - old(world.Parts()))
      ensures world.Valid() && world.Ledger(multiset{})
    {
      hide World.Valid, World.Ledger, Request.CallsFollow, Request.CrashAhead, Request.FilesSettled, Differ,
           Request.Reason, Request.Roster, Request.Told, Request.ShutOnly, Request.Login, Request.LeftAreShut;
      ReleaseCurrent();
      assert Held() == multiset{};
    }
  }

  lemma ForcedIsShut(before: map<int, Proxy>, after: map<int, Proxy>, id: int, now: int, cfg: Config)
    requires after == RowRecorded(before, id, Forced(now, ""), cfg) && id in after
    ensures !Usable(after[id], now, cfg)
  {
  }

  function Budget(exits: nat, perExit: nat): nat {
    if exits == 0 then 0 else Budget(exits - 1, perExit) + perExit
  }

  lemma {:induction false} BudgetIs(exits: nat, perExit: nat)
    ensures Budget(exits, perExit) == exits * perExit
  {
    if exits > 0 {
      BudgetIs(exits - 1, perExit);
    }
  }

  lemma {:induction false} BudgetGrows(exits: nat, more: nat, perExit: nat)
    requires exits <= more
    ensures Budget(exits, perExit) <= Budget(more, perExit)
    decreases more - exits
  {
    if exits < more {
      BudgetGrows(exits + 1, more, perExit);
    }
  }

  lemma OneMore(s: set<int>, x: int)
    ensures |s + {x}| == |s| + if x in s then 0 else 1
  {
    if x in s {
      assert s + {x} == s;
    }
  }
}
