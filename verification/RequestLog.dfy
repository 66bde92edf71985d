/** What one generation request is asked to do, what the network answers it, and the log it
    leaves: exits, uploads, and generation calls, with the laws such a log obeys. */
module RequestLog {
  import opened Options
  import opened ProxyPool
  import opened Egress
  import opened CookieJar
  import opened CookiePool
  import opened Effects

  /** The settings a request reads, and what it was asked to do: `longPrompt` says that the
      prompt is over the budget, `longInstruction` that what replaces it still is. */
  datatype Job = Job(
    policy: Policy, proxyRetries: int, fallbackAnon: bool, anonFirst: bool,
    pending: seq<string>, longPrompt: bool, longInstruction: bool, streaming: bool)
  {
    function Switches(): nat { if proxyRetries > 0 then proxyRetries else 0 }

    function Attempts(): nat { if policy.pool.retryAttempts > 0 then policy.pool.retryAttempts else 0 }

    /** At most this many generation calls go over one exit: each attempt, and one more with a
        new token. */
    function PerExit(): nat { if Attempts() > 0 then Attempts() + 1 else 0 }
  }

  /** The upstream's answer to one call: no response, or a status with what its body holds. */
  datatype Answer = NoResponse | Response(status: int, xsrf: bool, content: bool)

  predicate Good(a: Answer) {
    a.Response? && a.status == 200 && a.content
  }

  /** The token of the call was refused. */
  predicate IsRefusal(a: Answer) {
    a.Response? && a.status == 400 && a.xsrf
  }

  lemma NotRefused(a: Answer)
    requires Good(a)
    ensures !IsRefusal(a)
  {
  }

  /** What the network does, by the number of the step: each token fetched, attachment sent,
      conversation sent as a file, generation call (its answer, whether its lines hold new text,
      and its `Set-Cookie` headers), and account refresh. */
  datatype Network = Network(
    token: nat -> bool, upload: nat -> bool, conversation: nat -> bool,
    answer: nat -> Answer, speaks: nat -> bool, headers: nat -> seq<string>,
    refreshed: nat -> string, renewed: nat -> bool)

  ghost predicate AllTokens(net: Network) {
    forall n: nat :: net.token(n)
  }

  /** No token is refused to the account, and its cookie is left alone. */
  ghost predicate Kind(net: Network) {
    AllTokens(net) && forall n: nat :: net.headers(n) == []
  }

  // ---------------------------------------------------------------- files

  datatype File = Attachment(name: string) | Conversation

  function Attachments(names: seq<string>): (files: seq<File>)
    ensures |files| == |names|
    ensures Conversation !in files
  {
    seq(|names|, i requires 0 <= i < |names| => Attachment(names[i]))
  }

  function Copies(n: nat): (files: seq<File>)
    ensures |files| == n
  {
    seq(n, _ => Conversation)
  }

  lemma {:induction false} PrefixIff(names: seq<string>, n: nat, copies: nat)
    requires n <= |names|
    ensures Attachments(names) <= Attachments(names[..n]) + Copies(copies) <==> n == |names|
  {
    var all, files := Attachments(names), Attachments(names[..n]) + Copies(copies);
    if n < |names| && |all| <= |files| {
      assert files[n] == Conversation && all[n] == Attachment(names[n]);
    } else if n == |names| {
      assert names[..n] == names;
    }
  }

  lemma {:induction false} CountCopies(names: seq<string>, n: nat)
    ensures multiset(Attachments(names) + Copies(n))[Conversation] == n
  {
    assert multiset(Attachments(names))[Conversation] == 0;
    OnlyCopies(n);
  }

  lemma {:induction false} OnlyCopies(n: nat)
    ensures multiset(Copies(n))[Conversation] == n
  {
    if n > 0 {
      OnlyCopies(n - 1);
      assert Copies(n) == Copies(n - 1) + [Conversation];
    }
  }

  lemma NextAttachment(names: seq<string>, i: nat)
    requires i < |names|
    ensures Attachments(names[..i + 1]) == Attachments(names[..i]) + [Attachment(names[i])]
  {
  }

  lemma NextCopy(first: seq<File>, n: nat)
    ensures first + Copies(n) + [Conversation] == first + Copies(n + 1)
  {
  }

  // ---------------------------------------------------------------- the log

  /** An exit over which the request got as far as generating, and its turn, counting from 0. */
  datatype Stop = Stop(turn: nat, exit: Exit)

  /** One attachment sent: which one, and whether it arrived. */
  datatype Upload = Upload(index: nat, ok: bool)

  /** One generation call: over which exit, with which files, and as which such stop, counting
      from 1; whether the account had a cookie by then, what came back, whether the trackers emitted
      new text or reasoning of it (with tools the gate may still hold that text), and whether a new
      token was asked for and came. */
  datatype Call = Call(
    exit: Exit, files: seq<File>, round: nat, cookie: bool, answer: Answer, spoke: bool, renewed: Option<bool>,
    deeds: Deeds)

  /** What else was done about a call: how many accounts had been tried by then, the account it was made
      for, the cookie before it and after it, and the write-back of a new one; which token was asked
      for; and what was booked on the exit and marked on the account. */
  datatype Deeds = Deeds(
    tries: nat, account: int, had: string, kept: string, store: Option<Store>, token: nat,
    booking: Option<Booking>, mark: Option<Mark>)

  /** A proxy was given up: its row and its state in the dynamic statistics right afterwards. */
  datatype Shut = Shut(exit: Exit, at: int, row: Option<Proxy>, cooling: bool)

  /** It could not be picked at that time: its row is not usable, or it is cooling down. */
  ghost predicate IsShut(s: Shut, cfg: Config) {
    && (s.exit.id > 0 && s.row.Some? ==> !Usable(s.row.value, s.at, cfg))
    && (s.exit.id < 0 && cfg.cooldownMin > 0 ==> s.cooling)
  }

  ghost predicate WasShut(shuts: seq<Shut>, e: Exit) {
    exists s :: s in shuts && s.exit == e
  }

  /** The first `n` exits, as far as they were proxies, were given up. */
  ghost predicate ShutAll(shuts: seq<Shut>, used: seq<Exit>, n: nat)
    requires n <= |used|
  {
    forall i :: 0 <= i < n ==> used[i].id == 0 || WasShut(shuts, used[i])
  }

  /** Only the first `n` exits were given up. */
  ghost predicate OnlyShut(shuts: seq<Shut>, used: seq<Exit>, n: nat)
    requires n <= |used|
  {
    forall s :: s in shuts ==> IsAmong(used[..n], s.exit)
  }

  ghost predicate IsAmong(used: seq<Exit>, e: Exit) {
    e in used
  }

  lemma StillShut(shuts: seq<Shut>, more: seq<Shut>, used: seq<Exit>, n: nat)
    requires n <= |used| && ShutAll(shuts, used, n) && shuts <= more
    ensures ShutAll(more, used, n)
  {
  }

  // ---------------------------------------------------------------- uploads

  /** How many attachments the uploads so far left in the list. */
  function Uploaded(uploads: seq<Upload>): nat {
    if uploads == [] then 0
    else
      var last := uploads[|uploads| - 1];
      if last.ok then last.index + 1 else last.index
  }

  function Fails(uploads: seq<Upload>): nat
    decreases |uploads|
  {
    if uploads == [] then 0
    else Fails(uploads[..|uploads| - 1]) + if uploads[|uploads| - 1].ok then 0 else 1
  }

  /** Some upload failed after others had succeeded. */
  ghost predicate BrokeOff(uploads: seq<Upload>) {
    exists u :: u in uploads && IsBreak(u)
  }

  predicate IsBreak(u: Upload) {
    !u.ok && u.index > 0
  }

  /** Attachments go up in order from the first one. After a failure at the first they start over;
      after a failure at a later one, or with the last one up, no more are sent. */
  ghost predicate UploadsFollow(uploads: seq<Upload>, n: nat, net: Network) {
    forall k :: 0 <= k < |uploads| ==> UploadFits(uploads, k, n, net)
  }

  ghost predicate UploadFits(uploads: seq<Upload>, k: nat, n: nat, net: Network)
    requires k < |uploads|
  {
    && uploads[k].ok == net.upload(k) && uploads[k].index < n
    && uploads[k].index == Uploaded(uploads[..k])
    && (k > 0 ==> !IsBreak(uploads[k - 1]))
  }

  lemma LastUpload(uploads: seq<Upload>)
    requires uploads != []
    ensures var last := uploads[|uploads| - 1]; Uploaded(uploads) == if last.ok then last.index + 1 else last.index
  {
  }

  lemma {:induction false} OneUpload(uploads: seq<Upload>, n: nat, net: Network)
    requires UploadsFollow(uploads, n, net) && Uploaded(uploads) < n
    requires uploads != [] ==> !IsBreak(uploads[|uploads| - 1])
    ensures var u := Upload(Uploaded(uploads), net.upload(|uploads|));
            && UploadsFollow(uploads + [u], n, net)
            && Fails(uploads + [u]) == Fails(uploads) + (if u.ok then 0 else 1)
            && Uploaded(uploads + [u]) == Uploaded(uploads) + (if u.ok then 1 else 0)
  {
    var u := Upload(Uploaded(uploads), net.upload(|uploads|));
    var more := uploads + [u];
    hide Uploaded, Fails;
    forall k | 0 <= k < |more|
      ensures UploadFits(more, k, n, net)
    {
      assert k < |uploads| ==> UploadFits(uploads, k, n, net);
      assert more[..k] == uploads[..k];
      assert uploads[..|uploads|] == uploads;
    }
    FailsSnoc(uploads, u);
    UploadedSnoc(uploads, u);
  }

  lemma FailsSnoc(uploads: seq<Upload>, u: Upload)
    ensures Fails(uploads + [u]) == Fails(uploads) + if u.ok then 0 else 1
  {
    assert (uploads + [u])[..|uploads|] == uploads;
  }

  lemma UploadedSnoc(uploads: seq<Upload>, u: Upload)
    ensures Uploaded(uploads + [u]) == if u.ok then u.index + 1 else u.index
  {
  }

  /** Between two exits: what the list holds says whether an upload broke off. */
  lemma {:induction false} BrokeOffIff(uploads: seq<Upload>, n: nat, net: Network)
    requires UploadsFollow(uploads, n, net)
    ensures Uploaded(uploads) <= n
    ensures BrokeOff(uploads) <==> uploads != [] && IsBreak(uploads[|uploads| - 1])
  {
    hide Uploaded;
    if uploads != [] {
      var m := |uploads| - 1;
      assert UploadFits(uploads, m, n, net);
      UploadedSnoc(uploads[..m], uploads[m]);
      assert uploads == uploads[..m] + [uploads[m]];
      forall k | 0 <= k < m
        ensures !IsBreak(uploads[k])
      {
        assert UploadFits(uploads, k + 1, n, net);
      }
    } else {
      NothingUploaded();
    }
  }

  /** An upload that broke off left a proper part of the list. */
  lemma {:induction false} BrokenIsShort(uploads: seq<Upload>, n: nat, net: Network)
    requires UploadsFollow(uploads, n, net) && uploads != []
    ensures IsBreak(uploads[|uploads| - 1]) ==> 0 < Uploaded(uploads) < n
    ensures !uploads[|uploads| - 1].ok && !IsBreak(uploads[|uploads| - 1]) ==> Uploaded(uploads) == 0
  {
    assert UploadFits(uploads, |uploads| - 1, n, net);
  }

  lemma NothingUploaded()
    ensures Uploaded([]) == 0
  {
  }

  /** The first upload is of the first attachment, and each one after is of the next attachment, or of
      the first again after a failure at that one; a failure at a later one is the last upload. */
  lemma {:induction false} UploadsInOrder(uploads: seq<Upload>, n: nat, net: Network)
    requires UploadsFollow(uploads, n, net)
    ensures uploads != [] ==> uploads[0].index == 0
    ensures forall k :: 0 < k < |uploads| ==>
              if uploads[k - 1].ok then uploads[k].index == uploads[k - 1].index + 1
              else uploads[k].index == uploads[k - 1].index == 0
  {
    hide Uploaded;
    NothingUploaded();
    if uploads != [] {
      assert UploadFits(uploads, 0, n, net) && uploads[..0] == [];
    }
    forall k | 0 < k < |uploads|
      ensures if uploads[k - 1].ok then uploads[k].index == uploads[k - 1].index + 1
              else uploads[k].index == uploads[k - 1].index == 0
    {
      assert UploadFits(uploads, k, n, net);
      LastUpload(uploads[..k]);
      assert uploads[..k][k - 1] == uploads[k - 1];
    }
  }

  // ---------------------------------------------------------------- calls

  /** The calls went over the exits that got so far, with the attachments that are up and one
      copy of a conversation too long to be sent inline for each of those exits so far. */
  ghost predicate CallsCarry(calls: seq<Call>, n: nat, stops: seq<Stop>, job: Job)
    requires n <= |job.pending|
  {
    forall c :: c in calls ==> Carries(c, n, stops, job)
  }

  ghost predicate Carries(c: Call, n: nat, stops: seq<Stop>, job: Job)
    requires n <= |job.pending|
  {
    && 1 <= c.round <= |stops| && c.exit == stops[c.round - 1].exit
    && c.files == Attachments(job.pending[..n]) + Copies(if job.longPrompt then c.round else 0)
  }

  /** Answers and text are the network's. */
  ghost predicate Answered(calls: seq<Call>, job: Job, net: Network) {
    forall k :: 0 <= k < |calls| ==>
      calls[k].answer == net.answer(k) && calls[k].spoke == (job.streaming && net.speaks(k))
  }

  ghost predicate Retried(calls: seq<Call>, round: nat) {
    exists c :: c in calls && c.round == round && c.renewed.Some?
  }

  /** A new token is asked for after a refusal, with a cookie, once over each exit. */
  ghost predicate Renewals(calls: seq<Call>) {
    forall k :: 0 <= k < |calls| ==> RenewalFits(calls, k)
  }

  ghost predicate RenewalFits(calls: seq<Call>, k: nat)
    requires k < |calls|
  {
    calls[k].renewed.Some? <==>
      IsRefusal(calls[k].answer) && calls[k].cookie && !Retried(calls[..k], calls[k].round)
  }

  ghost predicate HasCall(calls: seq<Call>, round: nat) {
    exists c :: c in calls && c.round == round
  }

  /** Each of the first `n` exits that got so far was called. */
  ghost predicate Called(calls: seq<Call>, n: int) {
    forall round: nat :: 1 <= round <= n ==> HasCall(calls, round)
  }

  predicate Unanswered(calls: seq<Call>) {
    calls == [] || !Good(calls[|calls| - 1].answer)
  }

  lemma {:induction false} OneCall(calls: seq<Call>, c: Call, n: nat, stops: seq<Stop>, job: Job, net: Network)
    requires n <= |job.pending| && CallsCarry(calls, n, stops, job) && Carries(c, n, stops, job)
    requires Answered(calls, job, net) && Renewals(calls)
    requires c.answer == net.answer(|calls|) && c.spoke == (job.streaming && net.speaks(|calls|))
    requires c.renewed.Some? <==> IsRefusal(c.answer) && c.cookie && !Retried(calls, c.round)
    ensures var more := calls + [c];
            && CallsCarry(more, n, stops, job) && Answered(more, job, net) && Renewals(more)
            && (Retried(more, c.round) <==> Retried(calls, c.round) || c.renewed.Some?)
  {
    hide Carries, IsRefusal, Retried;
    var more := calls + [c];
    forall k | 0 <= k < |more|
      ensures RenewalFits(more, k)
    {
      assert k < |calls| ==> RenewalFits(calls, k);
      assert more[..k] == calls[..k];
      assert calls[..|calls|] == calls;
    }
    RetriedSnoc(calls, c);
  }

  lemma RetriedSnoc(calls: seq<Call>, c: Call)
    ensures Retried(calls + [c], c.round) <==> Retried(calls, c.round) || c.renewed.Some?
  {
    assert forall d :: d in calls + [c] <==> d in calls || d == c;
  }

  lemma {:induction false} OneCalled(calls: seq<Call>, c: Call, n: int)
    requires Called(calls, n) && n + 1 >= c.round >= 1
    ensures Called(calls + [c], if c.round == n + 1 then n + 1 else n)
  {
    var more := calls + [c];
    assert c in more;
    forall round: nat | 1 <= round <= n
      ensures HasCall(more, round)
    {
      assert HasCall(calls, round);
      var d :| d in calls && d.round == round;
      assert d in more;
    }
  }

  /** One more exit got so far: no call went over it yet. */
  lemma {:induction false} OneStop(calls: seq<Call>, n: nat, stops: seq<Stop>, s: Stop, job: Job)
    requires n <= |job.pending| && CallsCarry(calls, n, stops, job)
    ensures CallsCarry(calls, n, stops + [s], job) && !Retried(calls, |stops| + 1)
  {
    forall c | c in calls
      ensures Carries(c, n, stops + [s], job)
    {
      assert Carries(c, n, stops, job);
    }
    assert forall c :: c in calls ==> Carries(c, n, stops, job) && c.round <= |stops|;
  }

  // ---------------------------------------------------------------- emitted text

  predicate Silent(calls: seq<Call>) {
    forall c :: c in calls ==> !c.spoke
  }

  /** The last call made the trackers emit, the first of all, and is to be repeated with its new
      token. */
  predicate Owes(calls: seq<Call>) {
    && calls != [] && Silent(calls[..|calls| - 1])
    && calls[|calls| - 1].spoke && calls[|calls| - 1].renewed == Some(true)
  }

  /** No call can follow: text was emitted, and no repetition is due. */
  predicate IsOver(calls: seq<Call>) {
    && calls != [] && calls[|calls| - 1].renewed != Some(true)
    && ((calls[|calls| - 1].spoke && Silent(calls[..|calls| - 1]))
        || (Owes(calls[..|calls| - 1]) && calls[|calls| - 1].round == calls[|calls| - 2].round))
  }

  lemma {:induction false} OneSpoke(calls: seq<Call>, c: Call)
    requires Silent(calls) || (Owes(calls) && calls[|calls| - 1].round == c.round && c.renewed.None?)
    ensures var more := calls + [c];
            if Silent(calls) && !c.spoke then Silent(more)
            else if c.renewed == Some(true) then Owes(more)
            else IsOver(more)
    ensures Silent(calls + [c]) <==> Silent(calls) && !c.spoke
  {
    var more := calls + [c];
    assert more[..|calls|] == calls;
    assert forall d :: d in more <==> d in calls || d == c;
  }

  /** Text had been emitted before call `i`. */
  ghost predicate TextBy(calls: seq<Call>, i: nat) {
    exists k :: 0 <= k < i && k < |calls| && calls[k].spoke
  }

  /** A call is late exactly if the one before it was refused its token, emitted text all the
      same, and got a new token; there is one late call at most, and it is the last. */
  ghost predicate LateLaw(calls: seq<Call>) {
    && (forall i: nat :: 0 < i < |calls| ==>
      (TextBy(calls, i) <==> calls[i - 1].spoke && calls[i - 1].renewed == Some(true)))
    && (forall i: nat :: i < |calls| && calls[i].spoke && calls[i].renewed == Some(true) ==> i == |calls| - 2)
  }

  lemma {:induction false} LateLawHolds(calls: seq<Call>)
    requires Silent(calls) || IsOver(calls)
    ensures LateLaw(calls)
  {
    var n := |calls|;
    if IsOver(calls) {
      var init := calls[..n - 1];
      if Silent(init) {
        assert forall k :: 0 <= k < n - 1 ==> calls[k] == init[k] && !init[k].spoke;
      } else {
        var first := init[..n - 2];
        assert forall k :: 0 <= k < n - 2 ==> calls[k] == first[k] && !first[k].spoke;
      }
    }
    forall i: nat | 0 < i < n && calls[i - 1].spoke
      ensures TextBy(calls, i)
    {
    }
    assert Silent(calls) ==> forall k :: 0 <= k < n ==> !calls[k].spoke;
  }

  // ---------------------------------------------------------------- accounts

  /** One account tried over an exit, with the first token asked for, or the decision to go on without
      an account; and the account at hand afterwards. */
  datatype Try =
    | Tried(account: Account, exit: Exit, token: nat, refresh: Option<Refresh>, taken: Option<Account>,
            binding: Option<Binding>, mark: Option<Mark>, pick: Option<Pick>)
    | Anonymous(left: Option<Account>)

  /** The one refresh of an account whose token was refused: whether there was an exit for it, its number,
      the write-back, the row as it was read again, the token asked for then, and the row taken. */
  datatype Refresh = Refresh(
    slot: bool, index: nat, store: Option<Store>, read: bool, rows: map<int, Account>, token: nat,
    taken: Option<Account>)

  /** The account is taken as it is in the table, if its cookie or its session was renewed and it gets
      a token then; a new cookie is written back. */
  ghost predicate IsRefresh(r: Refresh, a: Account, net: Network) {
    && (r.store.Some? <==> r.slot && net.refreshed(r.index) != a.cookie)
    && (r.store.Some? ==>
          r.store.value.account == a.id && r.store.value.cookie == net.refreshed(r.index) && IsStore(r.store.value))
    && (r.taken.Some? <==>
          && r.slot && (net.refreshed(r.index) != a.cookie || net.renewed(r.index)) && r.read && a.id in r.rows
          && (r.rows[a.id].cookie == "" || net.token(r.token)))
    && (r.taken.Some? ==> r.taken.value == r.rows[a.id])
  }

  ghost predicate WasRefreshed(tries: seq<Try>, id: int) {
    exists t :: t in tries && t.Tried? && t.refresh.Some? && t.account.id == id
  }

  ghost predicate AreRotated(ids: set<int>, tries: seq<Try>) {
    forall id :: id in ids <==> WasRefreshed(tries, id)
  }

  ghost predicate Refused(tries: seq<Try>) {
    exists t :: t in tries && t.Tried? && t.taken.None?
  }

  ghost function TriedIds(tries: seq<Try>): set<int> {
    set t | t in tries && t.Tried? :: t.account.id
  }

  /** The account at hand after these tries; `first` is that of the start. */
  function AtHand(tries: seq<Try>, first: Option<Account>): Option<Account> {
    if tries == [] then first
    else
      match tries[|tries| - 1]
      case Tried(_, _, _, _, taken, _, _, pick) =>
        if taken.Some? then taken else if pick.Some? then pick.value.account else None
      case Anonymous(left) => left
  }

  /** The id of the account last tried, or 0 without one. */
  function LastId(tries: seq<Try>): int {
    if tries == [] then 0
    else
      match tries[|tries| - 1]
      case Tried(account, _, _, _, _, _, _, _) => account.id
      case Anonymous(_) => 0
  }

  /** The cookie at hand: what the last call left, or what was taken with an account since. */
  function CookieAt(tries: seq<Try>, calls: seq<Call>): string {
    if calls != [] && calls[|calls| - 1].deeds.tries == |tries| then calls[|calls| - 1].deeds.kept
    else if tries == [] then ""
    else
      match tries[|tries| - 1]
      case Tried(_, _, _, _, taken, _, _, _) => if taken.Some? then taken.value.cookie else ""
      case Anonymous(_) => ""
  }

  /** No account is left to be tried, or the last one tried was taken. */
  ghost predicate NoneLeft(tries: seq<Try>, left: Option<Account>) {
    || left.None? || |TriedIds(tries)| >= 3
    || (tries != [] && tries[|tries| - 1].Tried? && tries[|tries| - 1].taken.Some?)
  }

  /** To go without a cookie is the last resort; after a refusal it is to go without an account. */
  ghost predicate IsAlone(tries: seq<Try>, first: Option<Account>) {
    if Refused(tries) then tries != [] && tries[|tries| - 1].Anonymous?
    else NoneLeft(tries, AtHand(tries, first))
  }

  /** The next try: of the account at hand, which is taken if its token comes, or comes after the one
      refresh that each account gets. An account taken is bound to the exit unless it has its own; any
      other one is marked with 401, and the next one not tried yet is picked. */
  ghost predicate IsTry(before: seq<Try>, t: Try, first: Option<Account>, job: Job, net: Network) {
    match t
    case Anonymous(left) =>
      Refused(before) && job.fallbackAnon && left == AtHand(before, first) && NoneLeft(before, left)
    case Tried(account, exit, token, refresh, taken, binding, mark, pick) =>
      var comes := account.cookie == "" || net.token(token);
      && AtHand(before, first) == Some(account) && |TriedIds(before)| < 3
      && (refresh.Some? <==> !comes && !WasRefreshed(before, account.id))
      && (refresh.Some? ==> IsRefresh(refresh.value, account, net))
      && taken == (if comes then Some(account) else if refresh.Some? then refresh.value.taken else None)
      && (binding.Some? <==> taken.Some?) && (mark.Some? <==> taken.None?) && (pick.Some? <==> taken.None?)
      && (binding.Some? ==>
            && binding.value.account == taken.value && binding.value.exit == exit.id
            && IsBinding(binding.value, job.policy.pool))
      && (mark.Some? ==> mark.value.account == account.id && mark.value.status == 401 && IsMark(mark.value))
      && (pick.Some? ==> IsPick(pick.value) && pick.value.skip == TriedIds(before) + {account.id})
  }

  ghost predicate TriesFollow(tries: seq<Try>, first: Option<Account>, job: Job, net: Network) {
    forall j :: 0 <= j < |tries| ==> IsTry(tries[..j], tries[j], first, job, net)
  }

  lemma {:induction false} OneTry(tries: seq<Try>, t: Try, first: Option<Account>, job: Job, net: Network)
    requires TriesFollow(tries, first, job, net) && IsTry(tries, t, first, job, net)
    ensures TriesFollow(tries + [t], first, job, net)
  {
    hide IsTry;
    var more := tries + [t];
    forall j | 0 <= j < |more|
      ensures IsTry(more[..j], more[j], first, job, net)
    {
      assert more[..j] == tries[..j];
      assert tries[..|tries|] == tries;
    }
  }

  lemma TrySnoc(tries: seq<Try>, t: Try)
    ensures TriedIds(tries + [t]) == TriedIds(tries) + (if t.Tried? then {t.account.id} else {})
    ensures Refused(tries + [t]) <==> Refused(tries) || (t.Tried? && t.taken.None?)
    ensures forall id :: WasRefreshed(tries + [t], id) <==>
                           WasRefreshed(tries, id) || (t.Tried? && t.refresh.Some? && t.account.id == id)
  {
    assert forall u :: u in tries + [t] <==> u in tries || u == t;
  }

  // ---------------------------------------------------------------- what was done about a call

  /** A call is made for the account last tried, with the cookie at hand; headers that set cookies are
      merged into it for that account, and what changes is written back. A new token asked for comes or
      not. Unless it came, the call is booked on its exit, as a success exactly for a good answer, and
      a good answer is marked on the account. */
  ghost predicate IsTold(before: seq<Call>, c: Call, tries: seq<Try>, first: Option<Account>, net: Network) {
    var d, headers := c.deeds, net.headers(|before|);
    && d.tries <= |tries| && d.account == LastId(tries[..d.tries]) && d.had == CookieAt(tries[..d.tries], before)
    && (if headers == [] || d.account <= 0 then d.kept == d.had else IsMerge(d.kept, d.had, headers))
    && c.cookie == (d.kept != "")
    && (d.had == "" ==> IsAlone(tries[..d.tries], first))
    && (d.store.Some? <==> d.kept != d.had)
    && (d.store.Some? ==>
          d.store.value.account == d.account && d.store.value.cookie == d.kept && IsStore(d.store.value))
    && (c.renewed.Some? ==> c.renewed.value == net.token(d.token))
    && (d.booking.Some? <==> c.exit.id != 0 && c.renewed != Some(true))
    && (d.booking.Some? ==>
          d.booking.value.exit == c.exit && d.booking.value.good == Good(c.answer) && IsBooking(d.booking.value))
    && (d.mark.Some? <==> Good(c.answer))
    && (d.mark.Some? ==> d.mark.value.account == d.account && d.mark.value.status == 200 && IsMark(d.mark.value))
  }

  ghost predicate AllTold(calls: seq<Call>, tries: seq<Try>, first: Option<Account>, net: Network) {
    forall k :: 0 <= k < |calls| ==> IsTold(calls[..k], calls[k], tries, first, net)
  }

  /** No call follows a good answer. */
  ghost predicate GoodIsLast(calls: seq<Call>) {
    forall k :: 0 <= k < |calls| - 1 ==> !Good(calls[k].answer)
  }

  lemma OneGood(calls: seq<Call>, c: Call)
    requires GoodIsLast(calls) && Unanswered(calls)
    ensures GoodIsLast(calls + [c])
  {
  }

  /** So an account is marked for the last call only, and exactly if its answer is good; and a call over a
      proxy is booked as what its answer was, unless a new token came. */
  lemma BookedAsAnswered(calls: seq<Call>, tries: seq<Try>, first: Option<Account>, net: Network)
    requires AllTold(calls, tries, first, net) && GoodIsLast(calls)
    ensures forall k :: 0 <= k < |calls| ==>
              var a, d := calls[k].answer, calls[k].deeds;
              (d.mark.Some? <==> k == |calls| - 1 && a.Response? && a.status == 200 && a.content)
    ensures forall k :: 0 <= k < |calls| && calls[k].exit.id != 0 && calls[k].renewed != Some(true) ==>
              var a, d := calls[k].answer, calls[k].deeds;
              && d.booking.Some? && d.booking.value.exit == calls[k].exit
              && (d.booking.value.good <==> a.Response? && a.status == 200 && a.content)
  {
    hide IsMerge, IsStore, IsMark, IsBooking, CookieAt, LastId, IsAlone;
    forall k | 0 <= k < |calls|
      ensures var c := calls[k]; IsTold(calls[..k], c, tries, first, net) && (k < |calls| - 1 ==> !Good(c.answer))
    {
    }
  }

  lemma {:induction false} OneTold(calls: seq<Call>, c: Call, tries: seq<Try>, first: Option<Account>, net: Network)
    requires AllTold(calls, tries, first, net) && IsTold(calls, c, tries, first, net)
    ensures AllTold(calls + [c], tries, first, net)
  {
    hide IsTold;
    var more := calls + [c];
    forall k | 0 <= k < |more|
      ensures IsTold(more[..k], more[k], tries, first, net)
    {
      assert more[..k] == calls[..k];
      assert calls[..|calls|] == calls;
    }
  }

  lemma {:induction false} StillTold(calls: seq<Call>, tries: seq<Try>, more: seq<Try>, first: Option<Account>,
                                     net: Network)
    requires AllTold(calls, tries, first, net) && tries <= more
    ensures AllTold(calls, more, first, net)
  {
    hide CookieAt, LastId, IsAlone, IsMerge, IsStore, IsBooking, IsMark, Good;
    forall k | 0 <= k < |calls|
      ensures IsTold(calls[..k], calls[k], more, first, net)
    {
      assert IsTold(calls[..k], calls[k], tries, first, net);
      assert more[..calls[k].deeds.tries] == tries[..calls[k].deeds.tries];
    }
  }

  /** `status` is that of the last answer that counted as a failure and was not 200; 0 without one. */
  ghost predicate IsLastStatus(calls: seq<Call>, status: int) {
    if forall k :: 0 <= k < |calls| ==> !IsFailure(calls[k]) then status == 0
    else exists k :: LastFails(calls, k) && calls[k].answer.status == status
  }

  predicate IsFailure(c: Call) {
    c.answer.Response? && c.answer.status != 200 && c.renewed != Some(true)
  }

  ghost predicate LastFails(calls: seq<Call>, k: int) {
    0 <= k < |calls| && IsFailure(calls[k]) && forall j :: k < j < |calls| ==> !IsFailure(calls[j])
  }

  lemma {:induction false} StatusSnoc(calls: seq<Call>, c: Call, status: int)
    requires IsLastStatus(calls, status)
    ensures IsLastStatus(calls + [c], if IsFailure(c) then c.answer.status else status)
  {
    var more := calls + [c];
    if IsFailure(c) {
      assert LastFails(more, |calls|);
    } else if k :| LastFails(calls, k) && calls[k].answer.status == status {
      assert LastFails(more, k);
    } else {
      assert forall k :: 0 <= k < |calls| ==> more[k] == calls[k];
      assert forall k :: 0 <= k < |more| ==> !IsFailure(more[k]);
    }
  }

  // ---------------------------------------------------------------- exits

  /** Without a failed upload every exit before the current one got so far. */
  ghost predicate StopsFollow(stops: seq<Stop>, used: seq<Exit>, uploads: seq<Upload>) {
    && |stops| <= |used|
    && (Fails(uploads) == 0 ==> forall i :: 0 <= i < |stops| ==> stops[i] == Stop(i, used[i]))
  }
}
