/** The records that follow `--proxy` and `--cookie-file` from restart to restart
    (`syncSeededProxy`, `syncSeededCookieFile`), and the one-time migration of older settings. */
module Seeding {
  import opened Options
  import opened Text
  import opened ProxyPool
  import opened CookiePool

  /** What both pools have in common here: record id to URL or cookie, and the notes kept in the
      key-value table about the record made for the configured value. */
  datatype State = State(
    records: map<int, string>, nextId: int, seededVal: string, seededId: Option<int>, migrated: bool)

  predicate Has(records: map<int, string>, value: string) {
    exists id :: id in records && records[id] == value
  }

  /** Which of the two notes a restart gets to read: what cannot be read looks empty (`kvGet`). */
  datatype Notes = Notes(value: bool, id: bool)

  const READ: Notes := Notes(true, true)

  /** The value that was taken over last, as the restart sees it. */
  function Prev(s: State, kv: Notes): string {
    if kv.value then s.seededVal else ""
  }

  /** The noted record is there and says what the notes say. A lookup reads rows of the pool; the
      rows in `missed` are those it did not get to see, because reading them failed. */
  predicate Finds(s: State, missed: set<int>, kv: Notes) {
    && kv.value && kv.id && s.seededId.Some? && s.seededVal != ""
    && s.seededId.value in s.records && s.seededId.value !in missed && s.records[s.seededId.value] == s.seededVal
  }

  /** `dropSeededProxy`, `dropSeededCookie`. */
  function Dropped(s: State, missed: set<int>, kv: Notes): State {
    if Finds(s, missed, kv) then s.(records := s.records - {s.seededId.value}) else s
  }

  function Inserted(s: State, value: string): State {
    s.(records := s.records[s.nextId := value], nextId := s.nextId + 1)
  }

  /** A restart with the configured value `cur`; `stored` is the value a record made for it
      would get, or None if it cannot be made. The pool is looked at twice. */
  function Sync(s: State, cur: string, stored: Option<string>, missed: set<int>, again: set<int>, kv: Notes): State {
    if cur == Prev(s, kv) then s
    else
      var d := Dropped(s, missed, kv);
      if cur == "" then d.(seededVal := "", seededId := None)
      else if Has(d.records - again, cur) then d.(seededVal := cur, seededId := None)
      else if stored.None? then d
      else Inserted(d, stored.value).(seededVal := cur, seededId := Some(d.nextId))
  }

  /** The restart notes the configured value as taken over. */
  predicate Takes(s: State, e: Event)
    requires e.Restart?
  {
    && e.cur != Prev(s, e.kv)
    && (e.cur == "" || Has(Dropped(s, e.missed, e.kv).records - e.again, e.cur) || e.stored.Some?)
  }

  /** `migrateLegacyCookie`, `migrateLegacyStaticProxy`: `raw` is the old setting, empty if it cannot
      be read, `value` what could be made of it, and `mark` whether the mark of the migration could
      be read. */
  function Migrate(s: State, raw: string, value: Option<string>, stored: Option<string>, missed: set<int>,
                   mark: bool): State
  {
    if s.migrated && mark then s
    else if raw == "" then s.(migrated := true)
    else if value.None? then s
    else if Has(s.records - missed, value.value) then s.(migrated := true)
    else if stored.None? then s
    else Inserted(s, stored.value).(migrated := true)
  }

  // ---------------------------------------------------------------- every life of a pool

  datatype Event =
    | Restart(cur: string, stored: Option<string>, missed: set<int>, again: set<int>, kv: Notes)
    | Migration(raw: string, setting: Option<string>, copy: Option<string>, unseen: set<int>, mark: bool)
    | Add(value: string)
    | Edit(id: int, value: string) // by the panel, or by a refreshed cookie written back
    | Remove(id: int)

  /** The state with its history: the records ever made by a restart, with the configured value
      each was made for, and those of them that are in the pool and were never edited. */
  datatype Life = Life(s: State, made: map<int, string>, own: set<int>)

  function Step(l: Life, e: Event): Life {
    match e
    case Restart(cur, stored, missed, again, kv) =>
      var s := Sync(l.s, cur, stored, missed, again, kv);
      if s.nextId > l.s.nextId then Life(s, l.made[l.s.nextId := cur], l.own * s.records.Keys + {l.s.nextId})
      else Life(s, l.made, l.own * s.records.Keys)
    case Migration(raw, setting, copy, unseen, mark) => l.(s := Migrate(l.s, raw, setting, copy, unseen, mark))
    case Add(value) => l.(s := Inserted(l.s, value))
    case Edit(id, value) =>
      if id in l.s.records then l.(s := l.s.(records := l.s.records[id := value]), own := l.own - {id}) else l
    case Remove(id) => l.(s := l.s.(records := l.s.records - {id}), own := l.own - {id})
  }

  function Play(l: Life, events: seq<Event>): Life
    decreases |events|
  {
    if events == [] then l else Step(Play(l, events[..|events| - 1]), events[|events| - 1])
  }

  /** An empty pool before the first start. */
  const BORN: Life := Life(State(map[], 1, "", None, false), map[], {})

  ghost predicate Inv(l: Life) {
    && (forall id :: id in l.s.records ==> 0 < id < l.s.nextId) && 0 < l.s.nextId
    && (forall id :: id in l.made ==> 0 < id < l.s.nextId)
    && (l.s.seededId.Some? ==> l.s.seededId.value in l.made && l.made[l.s.seededId.value] == l.s.seededVal != "")
    && l.own <= l.made.Keys && l.own <= l.s.records.Keys
  }

  lemma {:induction false} StepKeepsInv(l: Life, e: Event)
    requires Inv(l)
    ensures Inv(Step(l, e))
  {
  }

  lemma {:induction false} PlayKeepsInv(l: Life, events: seq<Event>)
    requires Inv(l)
    ensures Inv(Play(l, events))
    decreases |events|
  {
    hide Inv;
    if events != [] {
      var n := |events| - 1;
      PlayKeepsInv(l, events[..n]);
      StepKeepsInv(Play(l, events[..n]), events[n]);
    }
  }

  // ---------------------------------------------------------------- one record per setting

  /** The unedited records that hold what they were made for. (A JSON cookie inside a JSON cookie
      is unwrapped once more on the way in, so its record does not.) */
  function Own(l: Life): set<int>
    requires Inv(l)
  {
    set id | id in l.own && l.s.records[id] == l.made[id]
  }

  function Noted(l: Life): set<int> {
    if l.s.seededId.Some? then {l.s.seededId.value} else {}
  }

  /** The restart may not get to see the noted record. */
  predicate IsHalfBlind(e: Event) {
    e.Restart? && (e.missed != {} || e.kv != READ)
  }

  /** How many such restarts there were. */
  function HalfBlind(events: seq<Event>): nat
    decreases |events|
  {
    if events == [] then 0
    else
      var last := events[|events| - 1];
      HalfBlind(events[..|events| - 1]) + if IsHalfBlind(last) then 1 else 0
  }

  lemma {:induction false} StepKeepsOwn(l: Life, e: Event)
    requires Inv(l) && Inv(Step(l, e))
    ensures var behind := if IsHalfBlind(e) then Noted(l) else {};
            Own(Step(l, e)) - Noted(Step(l, e)) <= Own(l) - Noted(l) + behind
  {
    if e.Restart? {
      RestartKeepsOwn(l, e);
    }
  }

  lemma {:induction false} RestartKeepsOwn(l: Life, e: Event)
    requires Inv(l) && e.Restart? && Inv(Step(l, e))
    ensures var behind := if IsHalfBlind(e) then Noted(l) else {};
            Own(Step(l, e)) - Noted(Step(l, e)) <= Own(l) - Noted(l) + behind
  {
    var next := Step(l, e);
    forall id | id in Own(next) - Noted(next)
      ensures id in Own(l)
      ensures id in Noted(l) ==> IsHalfBlind(e)
    {
      hide Has;
    }
  }

  lemma {:induction false} CountWithin(some: set<int>, all: set<int>)
    requires some <= all
    ensures |some| <= |all|
  {
    assert all == some + (all - some);
  }

  /** Whatever the configuration and the panel do, at most one unedited record that holds the
      value a restart made it for is in the pool, and it is the one of the value last taken over;
      each restart that could not read the pool or its notes can leave one more behind. */
  lemma {:induction false} AtMostOneOwn(events: seq<Event>)
    ensures Inv(Play(BORN, events))
    ensures var l := Play(BORN, events);
            && |Own(l)| <= 1 + HalfBlind(events)
            && |Own(l) - Noted(l)| <= HalfBlind(events)
            && (HalfBlind(events) == 0 ==>
                  forall id :: id in Own(l) ==> l.s.seededId == Some(id) && l.s.records[id] == l.s.seededVal)
    decreases |events|
  {
    PlayKeepsInv(BORN, events);
    var l := Play(BORN, events);
    if events != [] {
      var n := |events| - 1;
      var before := Play(BORN, events[..n]);
      AtMostOneOwn(events[..n]);
      StepKeepsOwn(before, events[n]);
      hide Inv, Own, Step;
      var behind := if IsHalfBlind(events[n]) then Noted(before) else {};
      CountWithin(Own(l) - Noted(l), (Own(before) - Noted(before)) + behind);
    }
    OwnSplits(Own(l), Noted(l));
  }

  lemma {:induction false} OwnSplits(own: set<int>, noted: set<int>)
    requires |noted| <= 1
    ensures |own| <= |own - noted| + 1
    ensures |own - noted| == 0 ==> own <= noted
  {
    assert own == (own - noted) + (own * noted);
    CountWithin(own * noted, noted);
    assert |own - noted| == 0 ==> own - noted == {};
  }

  /** A record the restart could not see, or did not know of, stays for good once the restart has
      noted something else; that can be the same value again. */
  lemma {:induction false} UnseenRecordStays(l: Life, e: Event, events: seq<Event>, id: int)
    requires Inv(l) && e.Restart? && Takes(l.s, e)
    requires l.s.seededId == Some(id) && id in l.s.records && (id in e.missed || e.kv != READ)
    requires forall later :: later in events ==> !Touches(later, id)
    ensures var t := Play(Step(l, e), events).s;
            id in t.records && t.records[id] == l.s.records[id]
  {
    StepKeepsInv(l, e);
    NoRestartRemoves(Step(l, e), events, id);
  }

  /** A run of it: nothing was changed, but the note of the value could not be read once, and after
      that the record is not followed any more. */
  lemma NoteUnread()
    ensures var l := Play(BORN, [Restart("a", Some("a"), {}, {}, READ),
                                 Restart("a", Some("a"), {}, {}, Notes(false, true)),
                                 Restart("b", Some("b"), {}, {}, READ)]);
            l.s.records == l.made == map[1 := "a", 2 := "b"] && l.own == {1, 2}
  {
    var events := [Restart("a", Some("a"), {}, {}, READ), Restart("a", Some("a"), {}, {}, Notes(false, true)),
                   Restart("b", Some("b"), {}, {}, READ)];
    var one, two := events[..1], events[..2];
    assert events[..2][..1] == one && one[..0] == [];
    assert Play(BORN, one).s == State(map[1 := "a"], 2, "a", Some(1), false);
    assert (Play(BORN, one).s.records - {})[1] == "a";
    assert Play(BORN, two).s == State(map[1 := "a"], 2, "a", None, false);
  }

  // ---------------------------------------------------------------- what a restart removes

  /** A restart removes exactly the noted record while it still says, or says again, what the
      restart before put there, and only when the configured value is a new one; it edits none. */
  lemma {:induction false} RestartRemovesIff(s: State, e: Event, id: int)
    requires e.Restart? && id in s.records && id < s.nextId
    ensures var t := Sync(s, e.cur, e.stored, e.missed, e.again, e.kv);
            && (id !in t.records <==>
                  && e.cur != s.seededVal && s.seededVal != "" && e.kv == READ
                  && s.seededId == Some(id) && s.records[id] == s.seededVal && id !in e.missed)
            && (id in t.records ==> t.records[id] == s.records[id])
  {
  }

  /** It adds a record exactly when the configured value is a new one, no record that it gets to see and
      leaves in the pool has it, and one can be made; and that one is noted then. */
  lemma {:induction false} RestartAddsIff(s: State, e: Event)
    requires e.Restart? && forall id :: id in s.records ==> id < s.nextId
    ensures var t := Sync(s, e.cur, e.stored, e.missed, e.again, e.kv);
            if && e.cur != "" && (e.kv.value ==> e.cur != s.seededVal) && e.stored.Some?
               && (forall id :: id in s.records && id !in e.again && s.records[id] == e.cur ==> id !in t.records)
            then
              && t.nextId == s.nextId + 1 && t.records.Keys - s.records.Keys == {s.nextId}
              && t.records[s.nextId] == e.stored.value && t.seededId == Some(s.nextId) && t.seededVal == e.cur
            else t.nextId == s.nextId && t.records.Keys <= s.records.Keys
  {
    var d := Dropped(s, e.missed, e.kv);
    var seen := d.records - e.again;
    if Has(seen, e.cur) {
      var id :| id in seen && seen[id] == e.cur;
      assert s.records[id] == e.cur && id !in e.again && id in d.records;
    } else {
      forall id | id in s.records && id !in e.again && s.records[id] == e.cur
        ensures id !in d.records
      {
        assert id in seen <==> id in d.records;
      }
    }
  }

  /** The record can no longer be dropped by a restart. */
  ghost predicate OutOfReach(l: Life, id: int) {
    id in l.s.records && (id !in l.made || l.s.seededId != Some(id) || l.s.records[id] != l.s.seededVal)
  }

  predicate Removes(e: Event, id: int) {
    e.Remove? && e.id == id
  }

  predicate Touches(e: Event, id: int) {
    (e.Edit? || e.Remove?) && e.id == id
  }

  lemma {:induction false} StaysOutOfReach(l: Life, e: Event, id: int)
    requires Inv(l) && OutOfReach(l, id) && !Touches(e, id)
    ensures OutOfReach(Step(l, e), id) && Step(l, e).s.records[id] == l.s.records[id]
  {
  }

  /** A record the user made, or one that does not say what its restart put there, is in the
      pool with the same content until someone edits or removes it: no restart does. */
  lemma {:induction false} NoRestartRemoves(l: Life, events: seq<Event>, id: int)
    requires Inv(l) && OutOfReach(l, id)
    requires forall e :: e in events ==> !Touches(e, id)
    ensures OutOfReach(Play(l, events), id) && Play(l, events).s.records[id] == l.s.records[id]
    decreases |events|
  {
    if events != [] {
      var n := |events| - 1;
      NoRestartRemoves(l, events[..n], id);
      PlayKeepsInv(l, events[..n]);
      StaysOutOfReach(Play(l, events[..n]), events[n], id);
    }
  }

  /** In particular the user's own records, through any edits of theirs. */
  lemma {:induction false} UserRecordsStay(l: Life, events: seq<Event>, id: int)
    requires Inv(l) && id in l.s.records && id !in l.made
    requires forall e :: e in events ==> !Removes(e, id)
    ensures id in Play(l, events).s.records && id !in Play(l, events).made
    decreases |events|
  {
    if events != [] {
      var n := |events| - 1;
      UserRecordsStay(l, events[..n], id);
      PlayKeepsInv(l, events[..n]);
      UserRecordStays(Play(l, events[..n]), events[n], id);
    }
  }

  lemma {:induction false} UserRecordStays(l: Life, e: Event, id: int)
    requires Inv(l) && id in l.s.records && id !in l.made && !Removes(e, id)
    ensures id in Step(l, e).s.records && id !in Step(l, e).made
  {
  }

  // ---------------------------------------------------------------- what a restart brings about

  /** A restart with the value before changes nothing. One with a value that looks new takes it over,
      unless its record cannot be made; then the record of the value before is gone and nothing is
      noted. */
  lemma {:induction false} RestartFollows(s: State, e: Event)
    requires e.Restart?
    ensures var t := Sync(s, e.cur, e.stored, e.missed, e.again, e.kv);
            if e.cur == Prev(s, e.kv) then t == s
            else if Takes(s, e) then
              && t.seededVal == e.cur
              && (e.cur != "" && (e.stored.Some? ==> e.stored.value == e.cur) ==> Has(t.records, e.cur))
            else t == Dropped(s, e.missed, e.kv)
  {
    var t := Sync(s, e.cur, e.stored, e.missed, e.again, e.kv);
    var d := Dropped(s, e.missed, e.kv);
    if e.cur == Prev(s, e.kv) {
      assert t == s;
    } else if e.cur != "" && Has(d.records - e.again, e.cur) {
      var id :| id in d.records - e.again && (d.records - e.again)[id] == e.cur;
      assert t.records[id] == e.cur;
    } else if e.cur != "" && e.stored == Some(e.cur) {
      assert t.records[d.nextId] == e.cur;
    }
  }

  /** A value that cannot be taken over, followed by the value before: the notes say nothing
      changed, so the record stays gone, exactly if there was one to drop. */
  lemma {:induction false} RevertAfterFailure(s: State, e: Event, next: Event)
    requires e.Restart? && e.cur !in {"", Prev(s, e.kv)} && !Has(s.records, e.cur) && e.stored.None?
    requires next.Restart? && next.cur == s.seededVal && next.kv.value
    ensures var t := Sync(Sync(s, e.cur, e.stored, e.missed, e.again, e.kv), next.cur, next.stored, next.missed,
                          next.again, next.kv);
            && t == Dropped(s, e.missed, e.kv)
            && (t == s <==> !Finds(s, e.missed, e.kv))
  {
    var d := Dropped(s, e.missed, e.kv);
    forall id | id in d.records - e.again
      ensures (d.records - e.again)[id] != e.cur
    {
      assert s.records[id] != e.cur;
    }
    assert d.records != s.records ==> s.seededId.value in s.records && s.seededId.value !in d.records;
  }

  /** A seeded cookie that was refreshed once outlives every later --cookie-file. */
  lemma {:induction false} RefreshedCookieStays(l: Life, id: int, refreshed: string, events: seq<Event>)
    requires Inv(l) && id in l.s.records && refreshed != l.s.seededVal
    requires forall e :: e in events ==> !Touches(e, id)
    ensures Play(Step(l, Edit(id, refreshed)), events).s.records.Keys >= {id}
  {
    StepKeepsInv(l, Edit(id, refreshed));
    NoRestartRemoves(Step(l, Edit(id, refreshed)), events, id);
  }

  /** So two records made for successive files can be in use side by side. */
  lemma TwoSeededRecords()
    ensures var l := Play(BORN, [Restart("a", Some("a"), {}, {}, READ), Edit(1, "a+"),
                                 Restart("b", Some("b"), {}, {}, READ)]);
            l.s.records == map[1 := "a+", 2 := "b"] && l.made == map[1 := "a", 2 := "b"]
  {
    var events := [Restart("a", Some("a"), {}, {}, READ), Edit(1, "a+"), Restart("b", Some("b"), {}, {}, READ)];
    var one, two := events[..1], events[..2];
    assert events[..2][..1] == one && one[..0] == [];
    assert Play(BORN, one).s == State(map[1 := "a"], 2, "a", Some(1), false);
    assert Play(BORN, two).s == State(map[1 := "a+"], 2, "a", Some(1), false);
  }

  /** Where a record does not hold the noted value, no later restart finds it again. */
  lemma UnplainRecordsPileUp()
    ensures var l := Play(BORN, [Restart("a", Some("x"), {}, {}, READ), Restart("b", Some("y"), {}, {}, READ)]);
            l.s.records == map[1 := "x", 2 := "y"] && l.own == {1, 2}
  {
    var events := [Restart("a", Some("x"), {}, {}, READ), Restart("b", Some("y"), {}, {}, READ)];
    var one := events[..1];
    assert one[..0] == [];
    assert Play(BORN, one).s == State(map[1 := "x"], 2, "a", Some(1), false);
  }

  // ---------------------------------------------------------------- migration

  /** Someone puts `value` into the pool: the user, a restart, or a migration that cannot read its
      mark. */
  predicate Introduces(e: Event, value: string) {
    || ((e.Add? || e.Edit?) && e.value == value)
    || (e.Restart? && e.stored == Some(value))
    || (e.Migration? && !e.mark && e.copy == Some(value))
  }

  /** A migration brings a removed value back exactly if it cannot read its mark and can make the
      record again. */
  lemma {:induction false} RepeatedMigration(l: Life, e: Event)
    requires l.s.migrated && e.Migration? && e.setting.Some? && (e.copy.Some? ==> e.copy == e.setting)
    requires !Has(l.s.records, e.setting.value)
    ensures Has(Step(l, e).s.records, e.setting.value) <==> !e.mark && e.raw != "" && e.copy.Some?
  {
    var t, value := Step(l, e).s, e.setting.value;
    forall id | id in l.s.records
      ensures l.s.records[id] != value
    {
    }
    assert forall id :: id in l.s.records - e.unseen ==> (l.s.records - e.unseen)[id] != value;
    if !e.mark && e.raw != "" && e.copy.Some? {
      assert t.records[l.s.nextId] == value;
    }
  }

  /** Once migrated, a value that was removed is not brought back by any later start that can read
      its mark. */
  lemma {:induction false} MigratedOnce(l: Life, events: seq<Event>, value: string)
    requires l.s.migrated && !Has(l.s.records, value)
    requires forall e :: e in events ==> !Introduces(e, value)
    ensures Play(l, events).s.migrated && !Has(Play(l, events).s.records, value)
    decreases |events|
  {
    if events != [] {
      var n := |events| - 1;
      MigratedOnce(l, events[..n], value);
      StaysAway(Play(l, events[..n]), events[n], value);
    }
  }

  lemma {:induction false} StaysAway(l: Life, e: Event, value: string)
    requires l.s.migrated && !Has(l.s.records, value) && !Introduces(e, value)
    ensures Step(l, e).s.migrated && !Has(Step(l, e).s.records, value)
  {
    forall id | id in Step(l, e).s.records
      ensures Step(l, e).s.records[id] != value
    {
      assert id in l.s.records ==> l.s.records[id] != value;
    }
  }

  /** A migration is noted as done exactly when the value is seen in the pool or its record can be
      made, or when there is none; a setting that cannot be read counts as none, and its value is
      lost. Otherwise everything is left alone, to be tried again. */
  lemma {:induction false} MigrationIsNotLost(s: State, raw: string, value: Option<string>, stored: Option<string>,
                                              missed: set<int>, mark: bool)
    requires !s.migrated && (stored.Some? ==> stored == value)
    ensures var t := Migrate(s, raw, value, stored, missed, mark);
            && (t.migrated <==>
                  raw == "" || (value.Some? && (Has(s.records - missed, value.value) || stored.Some?)))
            && (t.migrated && raw != "" ==> Has(t.records, value.value))
            && (!t.migrated || raw == "" ==> t.records == s.records)
            && (t.migrated && raw != "" ==>
                  t.records == if exists id :: id in s.records && id !in missed && s.records[id] == value.value
                               then s.records else s.records[s.nextId := value.value])
  {
    var t := Migrate(s, raw, value, stored, missed, mark);
    if t.migrated && raw != "" {
      if Has(s.records - missed, value.value) {
        var id :| id in s.records - missed && (s.records - missed)[id] == value.value;
        assert t.records[id] == value.value && s.records[id] == value.value && id !in missed;
      } else {
        forall id | id in s.records && id !in missed
          ensures s.records[id] != value.value
        {
          assert (s.records - missed)[id] == s.records[id];
        }
        assert t.records[s.nextId] == value.value;
      }
    }
  }

  // ---------------------------------------------------------------- proxies

  function Urls(table: map<int, Proxy>): map<int, string> {
    map id | id in table :: table[id].url
  }

  class ProxySeeder {
    const pool: ProxyTable
    var seededVal: string
    var seededId: Option<int>
    var migrated: bool

    ghost function View(): State
      reads this, pool
    {
      State(Urls(pool.table), pool.nextId, seededVal, seededId, migrated)
    }

    constructor (pool: ProxyTable)
      ensures this.pool == pool && seededVal == "" && seededId == None && !migrated
    {
      this.pool, seededVal, seededId, migrated := pool, "", None, false;
    }

    /** What the copy in memory lacks of the table: nothing after a complete read, everything after
        a start whose read failed, and a new row whose re-read failed. */
    ghost predicate Lacks(missed: set<int>)
      reads pool
    {
      pool.Valid() && IsListing(pool.cache, pool.table - missed)
    }

    /** `poolHasProxyURL`, on the copy in memory. */
    method PoolHas(url: string, ghost known: map<int, Proxy>) returns (has: bool)
      requires IsListing(pool.cache, known)
      ensures has == Has(Urls(known), url)
    {
      var cache := pool.cache;
      for i := 0 to |cache|
        invariant forall k :: 0 <= k < i ==> cache[k].url != url
      {
        if cache[i].url == url {
          assert Urls(known)[cache[i].id] == url;
          return true;
        }
      }
      forall id | id in known
        ensures known[id].url != url
      {
        assert Lists(cache, id);
      }
      return false;
    }

    /** `dropSeededProxy`; `known` is what the copy in memory lists afterwards. */
    method DropSeeded(prev: string, ghost missed: set<int>, kv: Notes, read: ReadOutcome)
        returns (ghost known: map<int, Proxy>)
      requires Lacks(missed) && prev == Prev(View(), kv)
      modifies pool
      ensures pool.Valid() && View() == Dropped(old(View()), missed, kv)
      ensures IsListing(pool.cache, known)
      ensures old(pool.Coherent()) && read.ReadAll? ==> pool.Coherent()
      ensures known == if Finds(old(View()), missed, kv) && read.ReadAll? then pool.table
                       else old(pool.table) - missed
    {
      known := pool.table - missed;
      if !kv.id || seededId.None? || prev == "" {
        return;
      }
      var id, cache := seededId.value, pool.cache;
      var i := 0;
      while i < |cache| && cache[i].id != id
        invariant 0 <= i <= |cache|
        invariant forall k :: 0 <= k < i ==> cache[k].id != id
      {
        i := i + 1;
      }
      assert id in known <==> Lists(cache, id);
      if i == |cache| || cache[i].url != prev {
        return;
      }
      pool.Delete(id, read);
      assert Urls(pool.table) == Urls(old(pool.table)) - {id};
      if read.ReadAll? {
        known := pool.table;
      }
    }

    /** `syncSeededProxy`: a re-read of the table after the deletion or after the insertion may
        fail as well. */
    method SyncSeededProxy(proxy: string, now: int, ghost missed: set<int>, kv: Notes, deleted: ReadOutcome,
                           inserted: ReadOutcome)
      requires Lacks(missed)
      modifies this, pool
      ensures pool.Valid()
      ensures old(pool.Coherent()) && deleted.ReadAll? && inserted.ReadAll? ==> pool.Coherent()
      ensures var url := TrimSpace(proxy);
              View() == Sync(old(View()), url, if HasProxyScheme(url) then Some(url) else None, missed,
                             if Finds(old(View()), missed, kv) && deleted.ReadAll? then {} else missed, kv)
    {
      hide TrimSpace, ProxyTable.Valid, HasProxyScheme, Urls, IsListing;
      var url := TrimSpace(proxy);
      var prev := if kv.value then seededVal else "";
      if url == prev {
        return;
      }
      ghost var before := View();
      ghost var rows := pool.table;
      ghost var known := DropSeeded(prev, missed, kv, deleted);
      if url == "" {
        seededVal, seededId := "", None;
        return;
      }
      KnownIs(before, rows, pool.table, missed, kv, Finds(before, missed, kv) && deleted.ReadAll?, url);
      var has := PoolHas(url, known);
      if has {
        seededVal, seededId := url, None;
        return;
      }
      var id := Create(url, now, inserted);
      if id.None? {
        return;
      }
      seededVal, seededId := url, id;
    }

    /** `migrateLegacyStaticProxy`. */
    method MigrateLegacy(setting: string, mark: bool, now: int, ghost missed: set<int>, inserted: ReadOutcome)
        returns (ghost lacking: set<int>)
      requires Lacks(missed)
      modifies this`migrated, pool
      ensures Lacks(lacking)
      ensures old(pool.Coherent()) && inserted.ReadAll? ==> pool.Coherent()
      ensures var raw := TrimSpace(setting);
              View() == Migrate(old(View()), raw, Some(raw), if HasProxyScheme(raw) then Some(raw) else None, missed,
                                mark)
    {
      hide TrimSpace, HasProxyScheme;
      lacking := missed;
      if mark && migrated {
        return;
      }
      var raw := TrimSpace(setting);
      if raw != "" {
        var has := PoolHas(raw, pool.table - missed);
        UrlsWithout(pool.table, missed);
        if !has {
          ghost var before := pool.table;
          var id := Create(raw, now, inserted);
          if id.None? {
            return;
          }
          lacking := if inserted.ReadAll? then {} else missed + {id.value};
          assert pool.table - (missed + {id.value}) == (pool.table - {id.value}) - missed;
          assert pool.table - lacking == if inserted.ReadAll? then pool.table else before - missed;
        }
      }
      migrated := true;
    }

    method Create(url: string, now: int, read: ReadOutcome) returns (id: Option<int>)
      requires pool.Valid() && url != ""
      modifies pool
      ensures pool.Valid()
      ensures if HasProxyScheme(url) then id == Some(old(pool.nextId)) && View() == Inserted(old(View()), url)
              else id.None? && View() == old(View())
      ensures pool.table - {old(pool.nextId)} == old(pool.table)
      ensures id.None? ==> pool.table == old(pool.table)
      ensures if id.None? || !read.ReadAll? then pool.cache == old(pool.cache) else pool.Coherent()
    {
      hide HasProxyScheme;
      var name := "seeded";
      assert |name| == 6;
      id := pool.Create(name, url, 1, now, read);
      if id.Some? {
        assert Urls(pool.table) == Urls(old(pool.table))[id.value := url];
      }
    }
  }

  lemma UrlsWithout(table: map<int, Proxy>, missed: set<int>)
    ensures Urls(table - missed) == Urls(table) - missed
  {
  }

  /** The copy looked at after the deletion may still hold the deleted row, but that one has the
      old value. */
  lemma {:induction false} KnownIs(s: State, before: map<int, Proxy>, after: map<int, Proxy>, missed: set<int>,
                                   kv: Notes, reread: bool, url: string)
    requires s.records == Urls(before) && Urls(after) == Dropped(s, missed, kv).records && url != Prev(s, kv)
    ensures var known := if reread then after else before - missed;
            Has(Urls(known), url) == Has(Urls(after) - if reread then {} else missed, url)
  {
    if reread {
      assert Urls(after) - {} == Urls(after);
    } else {
      UrlsWithout(before, missed);
      var kept, left := Urls(before) - missed, Urls(after) - missed;
      if Has(kept, url) {
        var id :| id in kept && kept[id] == url;
        assert left[id] == url;
      }
      if Has(left, url) {
        var id :| id in left && left[id] == url;
        assert kept[id] == url;
      }
    }
  }

  // ---------------------------------------------------------------- cookies

  function Cookies(table: map<int, Account>): map<int, string> {
    map id | id in table :: table[id].cookie
  }

  /** `normalizeCookie`; `fromJson` says what a JSON object is turned into. */
  function Normalized(raw: string, fromJson: string -> Option<string>): Option<string> {
    var trimmed := TrimSpace(raw);
    if "{" <= trimmed then fromJson(trimmed) else Some(trimmed)
  }

  /** What `accountAdopt` stores for a cookie. */
  function Stored(cookie: string, fromJson: string -> Option<string>): Option<string> {
    var c := Normalized(cookie, fromJson);
    if c.None? || TrimSpace(c.value) == "" then None else Some(TrimSpace(c.value))
  }

  /** A cookie file: not configured, not readable, or read. */
  datatype CookieFile = Absent | Unreadable | Content(text: string)

  function Configured(file: CookieFile, fromJson: string -> Option<string>): Option<string> {
    match file
    case Absent => Some("")
    case Unreadable => None
    case Content(text) => if TrimSpace(text) == "" then Some("") else Normalized(TrimSpace(text), fromJson)
  }

  /** A file that cannot be read, or whose JSON cannot be understood, configures nothing; one that is not
      configured or is blank counts as no value, and any other one as its text without space around it,
      or as what its JSON is turned into. */
  lemma {:induction false} ConfiguredIs(file: CookieFile, fromJson: string -> Option<string>)
    ensures Configured(file, fromJson).None?
       <==> file.Unreadable? || (file.Content? && "{" <= TrimSpace(file.text) && fromJson(TrimSpace(file.text)).None?)
    ensures file.Absent? || (file.Content? && TrimSpace(file.text) == "") ==> Configured(file, fromJson) == Some("")
    ensures file.Content? && TrimSpace(file.text) != "" ==>
              var text := TrimSpace(file.text);
              Configured(file, fromJson) == if "{" <= text then fromJson(text) else Some(text)
  {
    hide TrimSpace;
    if file.Content? {
      TrimTwice(file.text);
    }
  }

  /** Outside JSON the record of a cookie file holds exactly the value that is noted. */
  lemma {:induction false} StoredIsPlain(raw: string, fromJson: string -> Option<string>)
    ensures !("{" <= TrimSpace(raw)) && TrimSpace(raw) != "" ==>
              var cur := Normalized(raw, fromJson);
              cur == Some(TrimSpace(raw)) && Stored(cur.value, fromJson) == cur
    ensures "{" <= TrimSpace(raw) ==> Normalized(raw, fromJson) == fromJson(TrimSpace(raw))
    ensures TrimSpace(raw) == "" ==> Stored(raw, fromJson).None?
  {
    hide TrimSpace;
    TrimTwice(raw);
    TrimsToNothing();
  }

  lemma TrimsToNothing()
    ensures TrimSpace("") == ""
  {
    TrimIs("", "", "");
    assert "" + "" + "" == "";
  }

  class CookieSeeder {
    const pool: AccountPool
    var seededVal: string
    var seededId: Option<int>
    var migrated: bool

    ghost function View(): State
      reads this, pool
    {
      State(Cookies(pool.table), pool.nextId, seededVal, seededId, migrated)
    }

    constructor (pool: AccountPool)
      ensures this.pool == pool && seededVal == "" && seededId == None && !migrated
    {
      this.pool, seededVal, seededId, migrated := pool, "", None, false;
    }

    /** `poolHasCookie`, on the rows that could be read. */
    method PoolHas(cookie: string, missed: set<int>) returns (has: bool)
      ensures has == Has(Cookies(pool.table) - missed, cookie)
    {
      has := exists id :: id in pool.table && id !in missed && pool.table[id].cookie == cookie;
      if has {
        var id :| id in pool.table && id !in missed && pool.table[id].cookie == cookie;
        assert (Cookies(pool.table) - missed)[id] == cookie;
      }
    }

    /** `dropSeededCookie`. */
    method DropSeeded(prev: string, missed: set<int>, kv: Notes)
      requires pool.Valid() && prev == Prev(View(), kv)
      modifies pool
      ensures pool.Valid() && View() == Dropped(old(View()), missed, kv)
    {
      if !kv.id || seededId.None? || prev == "" {
        return;
      }
      var id := seededId.value;
      if id !in pool.table || id in missed || pool.table[id].cookie != prev {
        return;
      }
      pool.Delete(id);
      assert Cookies(pool.table) == Cookies(old(pool.table)) - {id};
    }

    /** `accountAdopt`. */
    method Adopt(cookie: string, fromJson: string -> Option<string>) returns (id: Option<int>)
      requires pool.Valid()
      modifies pool
      ensures pool.Valid()
      ensures match Stored(cookie, fromJson)
              case Some(stored) => id == Some(old(pool.nextId)) && View() == Inserted(old(View()), stored)
              case None => id.None? && View() == old(View())
    {
      hide TrimSpace;
      var c := Normalized(cookie, fromJson);
      if c.None? {
        return None;
      }
      id := pool.Insert(c.value);
      if id.Some? {
        assert Cookies(pool.table) == Cookies(old(pool.table))[id.value := TrimSpace(c.value)];
      }
    }

    /** `syncSeededCookieFile`: a file that cannot be read or understood changes nothing. */
    method SyncSeededCookieFile(file: CookieFile, fromJson: string -> Option<string>, missed: set<int>,
                                again: set<int>, kv: Notes)
      requires pool.Valid()
      modifies this, pool
      ensures pool.Valid()
      ensures match Configured(file, fromJson)
              case None => View() == old(View())
              case Some(cur) => View() == Sync(old(View()), cur, Stored(cur, fromJson), missed, again, kv)
    {
      hide TrimSpace, Cookies, Stored;
      var cur := "";
      match file {
        case Absent =>
        case Unreadable => return;
        case Content(text) =>
          cur := TrimSpace(text);
      }
      if cur != "" {
        var c := Normalized(cur, fromJson);
        if c.None? {
          return;
        }
        cur := c.value;
      }
      var prev := if kv.value then seededVal else "";
      if cur == prev {
        return;
      }
      DropSeeded(prev, missed, kv);
      if cur == "" {
        seededVal, seededId := "", None;
        return;
      }
      var has := PoolHas(cur, again);
      if has {
        seededVal, seededId := cur, None;
        return;
      }
      var id := Adopt(cur, fromJson);
      if id.None? {
        return;
      }
      seededVal, seededId := cur, id;
    }

    /** `migrateLegacyCookie`. */
    method MigrateLegacy(setting: string, mark: bool, fromJson: string -> Option<string>, missed: set<int>)
      requires pool.Valid()
      modifies this`migrated, pool
      ensures pool.Valid()
      ensures var raw := TrimSpace(setting);
              var value := Normalized(raw, fromJson);
              View() == Migrate(old(View()), raw, value, if value.Some? then Stored(value.value, fromJson) else None,
                                missed, mark)
    {
      hide TrimSpace, Cookies, Stored, Normalized;
      if mark && migrated {
        return;
      }
      var raw := TrimSpace(setting);
      if raw != "" {
        var value := Normalized(raw, fromJson);
        if value.None? {
          return;
        }
        var has := PoolHas(value.value, missed);
        if !has {
          var id := Adopt(value.value, fromJson);
          if id.None? {
            return;
          }
        }
      }
      migrated := true;
    }
  }
}
