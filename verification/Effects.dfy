/** What a request books on exits and accounts: each entry holds the rows before it and the rows
    after it. */
module Effects {
  import opened Options
  import opened ProxyPool
  import opened Egress
  import opened CookieJar
  import opened CookiePool

  /** `recordProxyResult` of an exit at a time: the static pool and the dynamic statistics before and
      after, and the sticky URL afterwards. */
  datatype Booking = Booking(
    exit: Exit, good: bool, at: int, rows: map<int, Proxy>, rowsAfter: map<int, Proxy>,
    stats: map<string, DynamicStat>, statsAfter: map<string, DynamicStat>, stickyAfter: string)

  /** A success clears the failures of the exit and a failure counts one more, in its row or, for an
      exit of the dynamic pool, in the statistics of its URL; a failure ends stickiness. */
  ghost predicate IsBooking(r: Booking) {
    && r.exit.id != 0 && (!r.good ==> r.stickyAfter == "")
    && (r.exit.id > 0 ==>
          if r.exit.id in r.rows then
            var was := r.rows[r.exit.id];
            r.rowsAfter ==
            r.rows[r.exit.id := was.(failCount := if r.good then 0 else was.failCount + 1, lastUsed := r.at,
                                     lastError := "")]
          else r.rowsAfter == r.rows)
    && (r.exit.id < 0 ==>
          var fails := if r.exit.url in r.stats then r.stats[r.exit.url].failCount else 0;
          && r.exit.url in r.statsAfter
          && r.statsAfter[r.exit.url] == DynamicStat(if r.good then 0 else fails + 1, r.at))
  }

  /** `markCookieByStatus` of an account at a time: the accounts before and after, and whether the row
      could be read back. */
  datatype Mark = Mark(
    account: int, status: int, at: int, read: bool, rows: map<int, Account>, rowsAfter: map<int, Account>)

  /** 200 clears the failures; 401 and 403 count one more, and the third in a row switches the account
      off; any other status changes nothing. */
  ghost predicate IsMark(m: Mark) {
    if m.account in m.rows then
      var was, refused := m.rows[m.account], m.status == 401 || m.status == 403;
      var fails := if m.status == 200 then 0 else if refused then was.failCount + 1 else was.failCount;
      m.rowsAfter ==
      m.rows[m.account := was.(failCount := fails, lastOk := if m.status == 200 then m.at else was.lastOk,
                               enabled := was.enabled && !(refused && m.read && fails >= 3))]
    else m.rowsAfter == m.rows
  }

  /** `updateAccountCookie`: the accounts before and after, and whether the row could be read. */
  datatype Store = Store(
    account: int, cookie: string, read: bool, rows: map<int, Account>, rowsAfter: map<int, Account>)

  /** The row takes the cookie, unless that is empty or the row is read and is another identity's. */
  ghost predicate IsStore(s: Store) {
    && s.rowsAfter.Keys == s.rows.Keys
    && (forall id :: id in s.rows && id != s.account ==> s.rowsAfter[id] == s.rows[id])
    && (s.account in s.rows ==>
          var was := s.rows[s.account];
          s.rowsAfter[s.account] ==
          if s.cookie != "" && (!s.read || Identity(s.cookie) == Identity(was.cookie)) then was.(cookie := s.cookie)
          else was)
  }

  /** An account was used over an exit: the pool of proxies then, and the accounts before and after. */
  datatype Binding = Binding(
    account: Account, exit: int, pool: seq<Proxy>, at: int, rows: map<int, Account>, rowsAfter: map<int, Account>)

  /** The account is bound to the exit, unless it has a usable one of its own. */
  ghost predicate IsBinding(b: Binding, cfg: Config) {
    var own := FirstWith(b.pool, 0, Some(b.account.proxyId), "");
    if b.account.proxyId > 0 && own.Some? && Usable(own.value, b.at, cfg) then b.rowsAfter == b.rows
    else if b.account.id in b.rows then
      b.rowsAfter == b.rows[b.account.id := b.rows[b.account.id].(proxyId := b.exit)]
    else b.rowsAfter == b.rows
  }

  /** `pickCookieAccountExcept`: the accounts, and whether the query succeeded. */
  datatype Pick = Pick(account: Option<Account>, skip: set<int>, read: bool, rows: map<int, Account>)

  ghost predicate IsPick(p: Pick) {
    && (p.account.Some? <==> p.read && Enabled(p.rows) - p.skip != {})
    && (p.account.Some? ==> IsNext(p.account.value, p.rows, p.skip))
  }
}
