/** Many-round conversations: the fingerprints by which a request is recognized as the next
    round of a known one, and the store of known ones (`conversation.go`). */
module Conversation {

  /** What a fingerprint takes of a message. */
  datatype Message = Message(role: string, text: string)

  const UNIT_SEPARATOR := '\U{1f}'
  const RECORD_SEPARATOR := '\U{1e}'
  const TTL := 5400
  const CONV_MAX := 4000

  // ---------------------------------------------------------------- fingerprints

  function Encoded(m: Message): string {
    m.role + [UNIT_SEPARATOR] + (m.text + [RECORD_SEPARATOR])
  }

  function Canonical(messages: seq<Message>): string {
    if messages == [] then "" else Encoded(messages[0]) + Canonical(messages[1..])
  }

  /** `canonicalMessages`. */
  method CanonicalMessages(messages: seq<Message>) returns (b: string)
    ensures b == Canonical(messages)
  {
    hide Encoded;
    b := "";
    for i := 0 to |messages|
      invariant b == Canonical(messages[..i])
    {
      CanonicalSnoc(messages[..i], messages[i]);
      assert messages[..i] + [messages[i]] == messages[..i + 1];
      b := b + Encoded(messages[i]);
    }
    assert messages[..|messages|] == messages;
  }

  lemma {:induction false} CanonicalSnoc(messages: seq<Message>, m: Message)
    ensures Canonical(messages + [m]) == Canonical(messages) + Encoded(m)
  {
    hide Encoded;
    if messages == [] {
      assert messages + [m] == [m];
      assert [m][1..] == [];
    } else {
      CanonicalSnoc(messages[1..], m);
      assert (messages + [m])[1..] == messages[1..] + [m];
    }
  }

  /** The text of one message, and of messages one behind the other. */
  lemma {:induction false} CanonicalIs(m: Message, a: seq<Message>, b: seq<Message>)
    ensures Canonical([]) == "" && Canonical([m]) == m.role + "\U{1f}" + m.text + "\U{1e}"
    ensures Canonical(a + b) == Canonical(a) + Canonical(b)
  {
    CanonicalJoins(a, b);
    assert [m][1..] == [];
    assert m.role + [UNIT_SEPARATOR] + (m.text + [RECORD_SEPARATOR])
        == m.role + [UNIT_SEPARATOR] + m.text + [RECORD_SEPARATOR];
  }

  lemma {:induction false} CanonicalJoins(a: seq<Message>, b: seq<Message>)
    ensures Canonical(a + b) == Canonical(a) + Canonical(b)
    decreases |b|
  {
    hide Encoded;
    if b == [] {
      assert a + b == a;
      EmptyCanonical(b);
    } else {
      var n := |b| - 1;
      CanonicalJoins(a, b[..n]);
      CanonicalSnoc(a + b[..n], b[n]);
      CanonicalSnoc(b[..n], b[n]);
      assert a + b == (a + b[..n]) + [b[n]] && b == b[..n] + [b[n]];
    }
  }

  /** The separators stay where they belong. */
  predicate Plain(m: Message) {
    UNIT_SEPARATOR !in m.role && RECORD_SEPARATOR !in m.text
  }

  ghost predicate AllPlain(messages: seq<Message>) {
    forall m :: m in messages ==> Plain(m)
  }

  lemma {:induction false} SplitOnce(a: string, b: string, x: string, y: string, c: char)
    requires c !in a && c !in x && a + [c] + b == x + [c] + y
    ensures a == x && b == y
  {
    var s := a + [c] + b;
    forall i | 0 <= i < |a|
      ensures s[i] != c
    {
      assert s[i] == a[i];
    }
    forall i | 0 <= i < |x|
      ensures s[i] != c
    {
      assert s[i] == x[i];
    }
    assert s[|a|] == c && s[|x|] == c;
    assert |a| <= |x| && |x| <= |a|;
    assert a == s[..|a|] && x == s[..|x|];
    assert b == s[|a| + 1..] && y == s[|x| + 1..];
  }

  /** Where nobody's content holds the separators, the fingerprint determines the messages. */
  lemma {:induction false} CanonicalInjective(a: seq<Message>, b: seq<Message>)
    requires AllPlain(a) && AllPlain(b) && Canonical(a) == Canonical(b)
    ensures a == b
    decreases |a|
  {
    if a == [] || b == [] {
      EmptyCanonical(a);
      EmptyCanonical(b);
    } else {
      var p, q := a[0], b[0];
      var restA, restB := Canonical(a[1..]), Canonical(b[1..]);
      Nested(p, restA);
      Nested(q, restB);
      assert p in a && q in b;
      SplitOnce(p.role, p.text + [RECORD_SEPARATOR] + restA, q.role, q.text + [RECORD_SEPARATOR] + restB,
                UNIT_SEPARATOR);
      SplitOnce(p.text, restA, q.text, restB, RECORD_SEPARATOR);
      CanonicalInjective(a[1..], b[1..]);
      assert a == [p] + a[1..] && b == [q] + b[1..];
    }
  }

  lemma Nested(m: Message, rest: string)
    ensures Encoded(m) + rest == m.role + [UNIT_SEPARATOR] + (m.text + [RECORD_SEPARATOR] + rest)
  {
  }

  lemma EmptyCanonical(messages: seq<Message>)
    ensures Canonical(messages) == "" <==> messages == []
  {
    if messages != [] {
      assert |Encoded(messages[0])| >= 2;
    }
  }

  /** Among all messages it does so for very few: for no messages at all, and for one message without
      a unit separator. Two messages always read as one that holds the separators as well. */
  lemma {:induction false} CanonicalDetermines(a: seq<Message>)
    ensures (forall b :: Canonical(b) == Canonical(a) ==> b == a)
       <==> a == [] || (|a| == 1 && UNIT_SEPARATOR !in a[0].role && UNIT_SEPARATOR !in a[0].text)
  {
    hide Canonical;
    if a == [] {
      forall b | Canonical(b) == Canonical(a)
        ensures b == a
      {
        EmptyCanonical(a);
        EmptyCanonical(b);
      }
    } else if |a| == 1 && UNIT_SEPARATOR !in a[0].role && UNIT_SEPARATOR !in a[0].text {
      forall b | Canonical(b) == Canonical(a)
        ensures b == a
      {
        assert a == [a[0]];
        OneMessage(a[0], b);
      }
    } else {
      var b := OtherMessages(a);
      assert Canonical(b) == Canonical(a) && b != a;
    }
  }

  /** Each message has a unit separator, so a text with only one is one message. */
  lemma {:induction false} OneMessage(m: Message, b: seq<Message>)
    requires UNIT_SEPARATOR !in m.role && UNIT_SEPARATOR !in m.text && Canonical(b) == Canonical([m])
    ensures b == [m]
  {
    EmptyCanonical([m]);
    EmptyCanonical(b);
    var n, rest := b[0], Canonical(b[1..]);
    assert [m][1..] == [] && Encoded(m) + "" == Encoded(m);
    Nested(m, "");
    Nested(n, rest);
    var end := m.text + [RECORD_SEPARATOR];
    assert end + "" == end;
    hide Encoded;
    OnlyOnce(m.role, end, n.role, n.text + [RECORD_SEPARATOR] + rest, UNIT_SEPARATOR);
    IsInSuffix(n.text + [RECORD_SEPARATOR], rest, UNIT_SEPARATOR);
    HasSeparator(b[1..]);
    assert rest == "" && n.text + [RECORD_SEPARATOR] + "" == n.text + [RECORD_SEPARATOR];
    SameStart(m.text, n.text, RECORD_SEPARATOR);
    assert b == [n];
  }

  lemma SameStart(a: string, b: string, c: char)
    requires a + [c] == b + [c]
    ensures a == b
  {
    assert (a + [c])[..|a|] == a && (b + [c])[..|b|] == b;
  }

  lemma IsInSuffix(head: string, tail: string, c: char)
    ensures c in tail ==> c in head + tail
  {
  }

  lemma OnlyOnce(a: string, b: string, x: string, y: string, c: char)
    requires c !in a && c !in b && a + [c] + b == x + [c] + y
    ensures a == x && b == y
  {
    var s := a + [c] + b;
    assert forall i :: 0 <= i < |s| && s[i] == c ==> i == |a|;
    assert s[|x|] == c;
    assert a == s[..|a|] && x == s[..|x|] && b == s[|a| + 1..] && y == s[|x| + 1..];
  }

  lemma HasSeparator(messages: seq<Message>)
    ensures messages != [] ==> UNIT_SEPARATOR in Canonical(messages)
  {
    if messages != [] {
      Nested(messages[0], Canonical(messages[1..]));
    }
  }

  /** Another reading of the canonical text. */
  lemma {:induction false} OtherMessages(a: seq<Message>) returns (b: seq<Message>)
    requires |a| > 1 || (|a| == 1 && (UNIT_SEPARATOR in a[0].role || UNIT_SEPARATOR in a[0].text))
    ensures Canonical(b) == Canonical(a) && b != a
  {
    var m := a[0];
    if |a| > 1 {
      var n, rest := a[1], Canonical(a[2..]);
      b := [Message(m.role, m.text + [RECORD_SEPARATOR] + n.role + [UNIT_SEPARATOR] + n.text)] + a[2..];
      TwoAsOne(m, n, rest);
      assert a[1..][1..] == a[2..] && b[1..] == a[2..] && |b| < |a|;
      hide Encoded;
      assert Canonical(a) == Encoded(m) + (Encoded(n) + rest);
    } else {
      var n := CutElsewhere(m);
      b := [n];
      hide Encoded;
      assert a[1..] == [] && b[1..] == [];
    }
  }

  lemma TwoAsOne(m: Message, n: Message, rest: string)
    ensures var both := Message(m.role, m.text + [RECORD_SEPARATOR] + n.role + [UNIT_SEPARATOR] + n.text);
            Encoded(both) + rest == Encoded(m) + (Encoded(n) + rest)
  {
    Nested(m, Encoded(n) + rest);
    assert m.text + [RECORD_SEPARATOR] + n.role + [UNIT_SEPARATOR] + n.text + [RECORD_SEPARATOR]
        == m.text + [RECORD_SEPARATOR] + Encoded(n);
  }

  lemma {:induction false} CutElsewhere(m: Message) returns (n: Message)
    requires UNIT_SEPARATOR in m.role || UNIT_SEPARATOR in m.text
    ensures n != m && Encoded(n) == Encoded(m)
  {
    if UNIT_SEPARATOR in m.role {
      var i :| 0 <= i < |m.role| && m.role[i] == UNIT_SEPARATOR;
      var a, b := m.role[..i], m.role[i + 1..];
      n := Message(a, b + [UNIT_SEPARATOR] + m.text);
      assert m.role == a + [UNIT_SEPARATOR] + b;
      Regroup(a, b, m.text);
    } else {
      var i :| 0 <= i < |m.text| && m.text[i] == UNIT_SEPARATOR;
      var a, b := m.text[..i], m.text[i + 1..];
      n := Message(m.role + [UNIT_SEPARATOR] + a, b);
      assert m.text == a + [UNIT_SEPARATOR] + b;
      Regroup(m.role, a, b);
    }
  }

  lemma Regroup(a: string, b: string, c: string)
    ensures Encoded(Message(a + [UNIT_SEPARATOR] + b, c)) == Encoded(Message(a, b + [UNIT_SEPARATOR] + c))
  {
    var unit, end := [UNIT_SEPARATOR], [RECORD_SEPARATOR];
    assert a + unit + b + unit + (c + end) == a + unit + (b + unit + c + end);
  }

  // ---------------------------------------------------------------- keys

  /** All messages but the last: what the client knew before. */
  function Past(messages: seq<Message>): seq<Message> {
    if messages == [] then [] else messages[..|messages| - 1]
  }

  /** `convParentKey`, with the canonical text standing for its hash. */
  function ParentKey(messages: seq<Message>): string {
    if |messages| < 2 then "" else Canonical(messages[..|messages| - 1])
  }

  function Reply(text: string): Message {
    Message("assistant", text)
  }

  /** `convChildKey`. */
  function ChildKey(messages: seq<Message>, text: string): string {
    Canonical(messages + [Reply(text)])
  }

  /** The chain: what one round is stored under is what the next one asks for, and nobody else,
      if contents are plain. */
  lemma {:induction false} KeysChain(messages: seq<Message>, text: string, next: seq<Message>)
    requires AllPlain(messages + [Reply(text)]) && AllPlain(next) && messages != []
    ensures ParentKey(next) == ChildKey(messages, text)
       <==> |next| > 0 && next[..|next| - 1] == messages + [Message("assistant", text)]
  {
    var child := messages + [Reply(text)];
    EmptyCanonical(child);
    if |next| >= 2 && ParentKey(next) == ChildKey(messages, text) {
      assert forall m :: m in next[..|next| - 1] ==> m in next;
      CanonicalInjective(next[..|next| - 1], child);
    }
  }

  // ---------------------------------------------------------------- the store

  /** One conversation held by the upstream. */
  class ConvState {
    var turn: nat
    var updated: int
    ghost var history: seq<Message> // what the upstream was told and has answered
    ghost var initial: nat          // how many messages it was started with

    /** A message and an answer for each round since. */
    ghost predicate Tracked()
      reads this`turn, this`history, this`initial
    {
      turn >= 1 && |history| == initial + 2 * turn - 1 && AllPlain(history)
    }

    constructor ()
      ensures turn == 0 && history == [] && initial == 0
    {
      turn, updated, history, initial := 0, 0, [], 0;
    }

    /** A round that the upstream answers (`streamGenerateConv`): the first one carries all
        messages, every other one only the last. */
    method Round(messages: seq<Message>, ghost told: seq<Message>, text: string)
      requires messages != [] && AllPlain(messages) && Plain(Reply(text))
      requires told == if turn == 0 then messages else [messages[|messages| - 1]]
      requires (turn == 0 && history == []) || Tracked()
      modifies this`turn, this`history, this`initial
      ensures Tracked() && turn == old(turn) + 1
      ensures history == old(history) + told + [Reply(text)]
      ensures initial == if old(turn) == 0 then |messages| else old(initial)
    {
      initial := if turn == 0 then |messages| else initial;
      turn := turn + 1;
      history := history + told + [Reply(text)];
    }
  }

  ghost predicate Expired(st: ConvState, now: int)
    reads st
  {
    Late(st.updated, now)
  }

  /** When an entry was last used, and the rounds its conversation has had. */
  datatype Entry = Entry(at: int, turn: nat)

  /** The history `seen` that a key speaks of is the upstream's, or a shorter one: it can have gone
      on without the client that was told the key. */
  ghost predicate IsView(seen: seq<Message>, key: string, history: seq<Message>) {
    Canonical(seen) == key && AllPlain(seen) && (seen == history || |seen| < |history|)
  }

  ghost predicate HasView(key: string, history: seq<Message>) {
    exists seen :: IsView(seen, key, history)
  }

  ghost predicate EntryInStep(st: ConvState, key: string, moved: set<string>)
    reads st`turn, st`history, st`initial
  {
    st.Tracked() && HasView(key, st.history) && (Canonical(st.history) == key || key in moved)
  }

  /** How a round ends: an error, or an answer, which may be empty. */
  datatype Outcome = Fails | Answers(text: string, calls: bool) {
    predicate Good() { Answers? && (text != "" || calls) }
  }

  /** Entries are as before, except that one key may have got `st`, and some may be gone. */
  ghost predicate OnlyNew(store: map<string, ConvState>, before: map<string, ConvState>, key: string, st: ConvState) {
    forall k :: k in store ==> if k == key then store[k] == st else k in before && store[k] == before[k]
  }

  lemma {:induction false} StatesOf(store: map<string, ConvState>, before: map<string, ConvState>, key: string,
                                    st: ConvState)
    requires OnlyNew(store, before, key, st)
    ensures store.Values <= before.Values + {st}
    ensures forall k :: k in store && k != key ==> k in before
  {
  }

  lemma OldEntry(store: map<string, ConvState>, before: map<string, ConvState>, key: string, st: ConvState, k: string)
    requires OnlyNew(store, before, key, st) && k in store && k != key
    ensures k in before && store[k] == before[k]
  {
  }

  /** While there is room, nothing else changes. */
  ghost predicate IsAdded(store: map<string, ConvState>, before: map<string, ConvState>, key: string, st: ConvState) {
    |before| < CONV_MAX ==> store == before[key := st]
  }

  lemma {:induction false} AddedHas(store: map<string, ConvState>, before: map<string, ConvState>, key: string,
                                    st: ConvState)
    requires IsAdded(store, before, key, st) && |before| < CONV_MAX
    ensures store == before[key := st] && |store| <= |before| + 1 && st in store.Values
  {
    AddedIsLarger(before, key, st);
    assert key in store;
  }

  lemma {:induction false} PutIsOnlyNew(store: map<string, ConvState>, before: map<string, ConvState>, key: string,
                                        st: ConvState,
                                        gone: set<string>)
    requires store == before[key := st] - gone
    ensures OnlyNew(store, before, key, st)
  {
  }

  lemma AddedIs(store: map<string, ConvState>, before: map<string, ConvState>, key: string, st: ConvState,
                gone: set<string>)
    requires store == before[key := st] - gone && (|before| < CONV_MAX ==> gone == {})
    ensures IsAdded(store, before, key, st)
  {
    assert before[key := st] - {} == before[key := st];
  }

  lemma NothingNew(store: map<string, ConvState>, gone: set<string>, key: string, st: ConvState)
    ensures key !in store - gone ==> OnlyNew(store - gone, store, key, st)
  {
  }

  /** Which histories their conversations have gone beyond after one more answered round. */
  ghost function MovedOn(moved: set<string>, hit: bool, before: seq<Message>, after: seq<Message>,
                         messages: seq<Message>,
                         outcome: Outcome): set<string>
  {
    if outcome.Fails? then moved
    else
      var more := moved + if hit then {Canonical(before)} else {};
      if !outcome.Good() then more
      else if Canonical(after) == ChildKey(messages, outcome.text) then more - {ChildKey(messages, outcome.text)}
      else more + {ChildKey(messages, outcome.text)}
  }

  lemma MovedHas(moved: set<string>, before: seq<Message>, after: seq<Message>, messages: seq<Message>,
                 outcome: Outcome, k: string)
    requires outcome.Answers? ==> k !in MovedOn(moved, true, before, after, messages, outcome)
    requires !(outcome.Good() && k == ChildKey(messages, outcome.text))
    ensures k in moved || k == Canonical(before) ==> outcome.Fails?
  {
    hide Canonical, ChildKey;
  }

  /** A conversation that knows what the client knows is told, and answers, just what the client
      will know; any other is not. */
  lemma {:induction false} InStepIff(before: seq<Message>, messages: seq<Message>, text: string)
    requires AllPlain(before) && AllPlain(messages) && |messages| >= 2
    ensures before + [messages[|messages| - 1]] + [Reply(text)] == messages + [Reply(text)]
       <==> Canonical(before) == ParentKey(messages)
  {
    var n := |messages| - 1;
    assert messages == messages[..n] + [messages[n]];
    SameBeginning(before, messages[..n], messages[n], Reply(text));
    if Canonical(before) == ParentKey(messages) {
      PlainPrefix(messages, n);
      CanonicalInjective(before, messages[..n]);
    }
  }

  lemma SameBeginning(a: seq<Message>, b: seq<Message>, x: Message, y: Message)
    ensures a + [x] + [y] == b + [x] + [y] <==> a == b
  {
    assert (a + [x] + [y])[..|a|] == a && (b + [x] + [y])[..|b|] == b;
  }

  lemma PlainPrefix(messages: seq<Message>, n: nat)
    requires AllPlain(messages) && n <= |messages|
    ensures AllPlain(messages[..n])
  {
  }

  /** A conversation found by a request is in step with it exactly if the numbers of messages and
      of rounds say so. */
  lemma {:induction false} WhenInStep(st: ConvState, messages: seq<Message>)
    requires st.Tracked() && HasView(ParentKey(messages), st.history) && AllPlain(messages) && |messages| >= 2
    ensures AllPlain(st.history)
    ensures Canonical(st.history) == ParentKey(messages) <==> |messages| == st.initial + 2 * st.turn
  {
    hide Canonical;
    ViewIsPast(messages, st.history);
    PlainPrefix(messages, |messages| - 1);
    if Canonical(st.history) == ParentKey(messages) {
      CanonicalInjective(st.history, messages[..|messages| - 1]);
    }
  }

  lemma {:induction false} ViewIsPast(messages: seq<Message>, history: seq<Message>)
    requires HasView(ParentKey(messages), history) && AllPlain(messages) && |messages| >= 2
    ensures var past := messages[..|messages| - 1]; past == history || |past| < |history|
  {
    hide Canonical;
    var seen :| IsView(seen, ParentKey(messages), history);
    PlainPrefix(messages, |messages| - 1);
    CanonicalInjective(seen, messages[..|messages| - 1]);
  }

  lemma ViewStays(key: string, history: seq<Message>, longer: seq<Message>)
    requires HasView(key, history) && |history| < |longer|
    ensures HasView(key, longer)
  {
    hide Canonical;
    var seen :| IsView(seen, key, history);
    assert IsView(seen, key, longer);
  }

  lemma {:induction false} NewView(messages: seq<Message>, hit: bool, before: seq<Message>, text: string)
    requires messages != [] && AllPlain(messages) && Plain(Reply(text))
    requires hit ==> |messages| >= 2 && HasView(ParentKey(messages), before)
    ensures HasView(ChildKey(messages, text),
                    (if hit then before + [messages[|messages| - 1]] else messages) + [Reply(text)])
  {
    hide Canonical, HasView;
    var n, r := |messages| - 1, [Reply(text)];
    if hit {
      ViewIsPast(messages, before);
      assert messages == messages[..n] + [messages[n]];
    }
    var history := (if hit then before + [messages[n]] else messages) + r;
    assert IsView(messages + r, ChildKey(messages, text), history);
    ViewExists(messages + r, ChildKey(messages, text), history);
  }

  lemma ViewExists(seen: seq<Message>, key: string, history: seq<Message>)
    requires IsView(seen, key, history)
    ensures HasView(key, history)
  {
    hide Canonical, IsView;
  }

  lemma ChildIs(messages: seq<Message>, text: string)
    ensures Canonical(messages + [Reply(text)]) == ChildKey(messages, text) != ""
  {
    KeyNotEmpty(messages + [Reply(text)]);
  }

  /** One key may be moved or not; entries under other keys do not mind. */
  lemma {:induction false} PutInStep(store: map<string, ConvState>, before: map<string, ConvState>, key: string,
                                     st: ConvState,
                                     moved: set<string>)
    requires OnlyNew(store, before, key, st) && st.Tracked() && HasView(key, st.history)
    requires forall k :: k in before ==> EntryInStep(before[k], k, moved)
    ensures var now := if Canonical(st.history) == key then moved - {key} else moved + {key};
            forall k :: k in store ==> EntryInStep(store[k], k, now)
  {
    hide Canonical, ConvState.Tracked, HasView;
  }

  lemma LongEnough(messages: seq<Message>)
    ensures ParentKey(messages) != "" ==> |messages| >= 2
  {
  }

  /** A good round: a new conversation is told everything, a known one the last message only; and
      that adds up to what the client has in mind, unless the conversation had gone on without
      it. */
  ghost predicate IsRound(messages: seq<Message>, outcome: Outcome, hit: bool, before: seq<Message>,
                          after: seq<Message>)
    requires messages != []
  {
    outcome.Good() ==>
      && after == (if hit then before + [messages[|messages| - 1]] else messages) + [Reply(outcome.text)]
      && (after == messages + [Reply(outcome.text)] <==> !hit || Canonical(before) == ParentKey(messages))
  }

  lemma {:induction false} RoundIs(messages: seq<Message>, outcome: Outcome, hit: bool, before: seq<Message>,
                                   after: seq<Message>)
    requires messages != [] && AllPlain(messages) && (hit ==> |messages| >= 2 && AllPlain(before))
    requires outcome.Good() ==>
               after == (if hit then before + [messages[|messages| - 1]] else messages) + [Reply(outcome.text)]
    ensures IsRound(messages, outcome, hit, before, after)
  {
    if outcome.Good() && hit {
      InStepIff(before, messages, outcome.text);
    }
  }

  lemma KeyNotEmpty(messages: seq<Message>)
    requires messages != []
    ensures Canonical(messages) != ""
  {
    EmptyCanonical(messages);
  }

  class ConvStore {
    var store: map<string, ConvState>
    ghost var moved: set<string> // keys of histories beyond which their conversation has gone

    ghost predicate Bounded()
      reads this`store
    {
      |store| <= CONV_MAX && "" !in store
    }

    ghost predicate HasState(key: string, st: ConvState)
      reads this`store
    {
      key in store && store[key] == st
    }

    constructor ()
      ensures store == map[] && moved == {} && Bounded() && InStep()
    {
      store, moved := map[], {};
    }

    ghost function Book(): map<string, Entry>
      reads this`store, store.Values
    {
      map k | k in store :: Entry(store[k].updated, store[k].turn)
    }

    /** A stored conversation knows just what its key says, or has gone beyond it. */
    ghost predicate InStep()
      reads this, store.Values
    {
      forall k :: k in store ==> EntryInStep(store[k], k, moved)
    }

    /** `convDelete`. */
    method ConvDelete(key: string)
      requires Bounded()
      modifies this`store
      ensures Bounded() && store == old(store) - {key} && (old(InStep()) ==> InStep())
    {
      hide EntryInStep;
      if key == "" {
        assert store - {key} == store;
        return;
      }
      RemovedIsSmaller(store, key);
      store := store - {key};
    }

    /** `convGet`: never a state past its time, and a late one is dropped. */
    method ConvGet(key: string, now: int) returns (st: ConvState?)
      requires Bounded()
      modifies this`store
      ensures Bounded()
      ensures st != null <==> key in old(store) && !Expired(old(store)[key], now)
      ensures st != null <==> key in old(store) && now - old(store)[key].updated <= 5400
      ensures st != null ==> st == old(store)[key] && store == old(store)
      ensures st == null ==> store == old(store) - {key}
      ensures old(InStep()) ==> InStep()
    {
      hide EntryInStep;
      if key == "" || key !in store {
        assert store - {key} == store;
        return null;
      }
      if now - store[key].updated > TTL {
        RemovedIsSmaller(store, key);
        store := store - {key};
        return null;
      }
      return store[key];
    }

    /** `convPut`: the store never outgrows its bound. */
    method ConvPut(key: string, st: ConvState, now: int) returns (ghost gone: set<string>, ghost ages: map<string, int>)
      requires Bounded()
      modifies this`store, st`updated
      ensures Bounded()
      ensures key == "" ==> store == old(store) && gone == {}
      ensures key != "" ==>
                && st.updated == now && store == old(store)[key := st] - gone
                && AreAges(ages, old(store)[key := st]) && IsEviction(gone, ages, now)
      ensures |old(store)| < CONV_MAX ==> gone == {}
      ensures |store| <= 4000
    {
      hide IsEviction;
      gone, ages := {}, map[];
      if key == "" {
        return;
      }
      st.updated := now;
      AddedIsLarger(store, key, st);
      store := store[key := st];
      ages := map k | k in store :: store[k].updated;
      assert ages.Keys == store.Keys;
      assert |ages| == |ages.Keys| == |store.Keys| == |store|;
      if |store| > CONV_MAX {
        gone := Evict(now, key, ages);
      } else {
        NoEviction(ages, now);
        assert store - {} == store;
      }
    }

    method Evict(now: int, ghost newest: string, ghost ages: map<string, int>) returns (ghost gone: set<string>)
      requires |store| == CONV_MAX + 1 && "" !in store && newest in store && store[newest].updated == now
      requires AreAges(ages, store)
      modifies this`store
      ensures Bounded() && store == old(store) - gone
      ensures IsEviction(gone, ages, now)
    {
      hide IsEviction, AreLate, IsOldest;
      ghost var full := store;
      var oldest: string;
      ghost var late: set<string>, alive: set<string>;
      oldest, late, alive := DropExpired(now, ages);
      Choices(full, late, alive, oldest, newest, ages, now);
      gone := late;
      if |store| > CONV_MAX && oldest != "" {
        DropOne(oldest, full, late);
        gone := late + {oldest};
      }
    }

    method DropOne(oldest: string, ghost full: map<string, ConvState>, ghost late: set<string>)
      requires store == full - late && oldest in store
      modifies this`store
      ensures store == full - (late + {oldest}) && |store| == |old(store)| - 1
    {
      RemovedIsSmaller(store, oldest);
      MinusTwice(full, late, oldest);
      store := store - {oldest};
    }

    /** `callGeminiConv`, whoever calls it; `told` is what the prompt is made of. */
    method CallConv(messages: seq<Message>, now: int, outcome: Outcome)
        returns (st: ConvState, hit: bool, told: seq<Message>)
      requires Bounded() && InStep() && messages != [] && AllPlain(messages)
      requires outcome.Answers? ==> Plain(Reply(outcome.text))
      modifies this, store.Values
      ensures Bounded() && InStep()
      ensures fresh(store.Values - old(store.Values))
      ensures hit <==> ParentKey(messages) in old(store) && !old(Expired(store[ParentKey(messages)], now))
      ensures if hit then st == old(store)[ParentKey(messages)] && |messages| >= 2 else fresh(st)
      ensures told == if hit then [messages[|messages| - 1]] else messages
      ensures outcome.Good() ==> st.turn == 1 + if hit then old(st.turn) else 0
      ensures IsRound(messages, outcome, hit, if hit then old(st.history) else [], st.history)
      ensures hit ==> ParentKey(messages) in old(moved) || old(Canonical(st.history)) == ParentKey(messages)
      ensures hit ==>
                (old(Canonical(st.history)) == ParentKey(messages)
                 <==> |messages| == old(st.initial) + 2 * old(st.turn))
      ensures moved == MovedOn(old(moved), hit, if hit then old(st.history) else [], st.history, messages, outcome)
      ensures forall k :: k in store ==> k in old(store) || (outcome.Good() && k == ChildKey(messages, outcome.text))
      // a reply is an answer with text or calls; without one a known conversation is given up
      ensures outcome.Answers? && (outcome.text != "" || outcome.calls) ==> st.updated == now
      ensures outcome.Fails? || (outcome.text == "" && !outcome.calls) ==> store == old(store) - {ParentKey(messages)}
      // entries that nobody has gone beyond stay as they are
      ensures forall k :: k in store && k !in moved && !(outcome.Good() && k == ChildKey(messages, outcome.text)) ==>
                && k in old(store) && store[k] == old(store)[k]
                && store[k].updated == old(store[k].updated) && store[k].turn == old(store[k].turn)
      // while there is room, all other entries stay
      ensures outcome.Good() ==>
                IsAdded(store, if hit then old(store) else old(store) - {ParentKey(messages)},
                        ChildKey(messages, outcome.text), st)
    {
      hide Canonical, ParentKey, AllPlain, ChildKey, MovedOn, ConvState.Tracked, OnlyNew, IsRound, IsAdded, HasView,
           ConvStore.InStep, ConvStore.Bounded, Expired;
      var key: string;
      st, hit, key := Lookup(messages, now);
      told := if hit then [messages[|messages| - 1]] else messages;
      ghost var before, known := st.history, store;
      ghost var was := moved;
      forall k | hit && k in store && store[k] == st
        ensures k in moved || k == Canonical(before)
      {
        EntryTracked(k);
      }
      Finish(messages, told, now, outcome, st, hit, key);
      forall k | k in store && k !in moved && !(outcome.Good() && k == ChildKey(messages, outcome.text))
        ensures k in known && store[k] == known[k] && (hit && store[k] == st ==> outcome.Fails?)
      {
        OldEntry(store, known, if outcome.Good() then ChildKey(messages, outcome.text) else key, st, k);
        if hit {
          MovedHas(was, before, st.history, messages, outcome, k);
        }
      }
      StatesOf(store, known, if outcome.Good() then ChildKey(messages, outcome.text) else key, st);
      RoundIs(messages, outcome, hit, before, st.history);
    }

    method Lookup(messages: seq<Message>, now: int) returns (st: ConvState, hit: bool, key: string)
      requires Bounded() && InStep() && AllPlain(messages)
      modifies this`store
      ensures Bounded() && InStep() && key == ParentKey(messages)
      ensures hit <==> key in old(store) && !Expired(old(store)[key], now)
      ensures if hit then key in store && st == store[key] && |messages| >= 2 && AllPlain(st.history) && st.turn >= 1
              else key !in store && fresh(st) && st.turn == 0 && st.history == []
      ensures store == if hit then old(store) else old(store) - {key}
      ensures hit ==> (Canonical(st.history) == key <==> |messages| == st.initial + 2 * st.turn)
      ensures hit ==> Canonical(st.history) == key || key in moved
    {
      hide Canonical, AllPlain, ParentKey, ConvStore.InStep, ConvStore.Bounded, Expired, HasView;
      key := KeyOf(messages);
      LongEnough(messages);
      var found := ConvGet(key, now);
      hit := found != null;
      if found == null {
        st := new ConvState();
      } else {
        st := found;
        EntryTracked(key);
        WhenInStep(st, messages);
      }
    }

    lemma EntryTracked(key: string)
      requires InStep() && Bounded() && key in store
      ensures store[key].Tracked() && HasView(key, store[key].history)
      ensures key != "" && (Canonical(store[key].history) == key || key in moved)
    {
      hide Canonical, HasView;
    }

    method Finish(messages: seq<Message>, ghost told: seq<Message>, now: int, outcome: Outcome, st: ConvState,
                  hit: bool,
                  key: string)
      requires Bounded() && InStep() && messages != [] && AllPlain(messages) && key == ParentKey(messages)
      requires outcome.Answers? ==> Plain(Reply(outcome.text))
      requires told == if hit then [messages[|messages| - 1]] else messages
      requires if hit then key in store && store[key] == st && |messages| >= 2 && st.turn >= 1
               else key !in store && st !in store.Values && st.turn == 0 && st.history == []
      modifies this`store, this`moved, st
      ensures Bounded() && InStep()
      ensures OnlyNew(store, old(store), if outcome.Good() then ChildKey(messages, outcome.text) else key, st)
      ensures outcome.Good() ==>
                st.history == (if hit then old(st.history) + [messages[|messages| - 1]] else messages)
                              + [Reply(outcome.text)]
      ensures moved == MovedOn(old(moved), hit, if hit then old(st.history) else [], st.history, messages, outcome)
      ensures !outcome.Good() ==> store == old(store) - {key}
      ensures outcome.Fails? ==> st.turn == old(st.turn) && st.updated == old(st.updated)
      ensures outcome.Good() ==> IsAdded(store, old(store), ChildKey(messages, outcome.text), st) && st.updated == now
      ensures outcome.Good() ==> st.turn == old(st.turn) + 1
    {
      hide Canonical, ParentKey, AllPlain, ChildKey, ConvState.Tracked, HasView, OnlyNew, IsAdded, ConvStore.InStep,
           ConvStore.Bounded;
      if outcome.Answers? {
        Answered(messages, told, outcome.text, st, hit, key);
        if outcome.text != "" || outcome.calls {
          Store(messages, outcome.text, st, now);
          return;
        }
      }
      Forget(st, hit, key);
    }

    /** A round without a reply: a known conversation is given up. */
    method Forget(ghost st: ConvState, hit: bool, key: string)
      requires Bounded() && InStep() && (hit <==> key in store)
      modifies this`store
      ensures Bounded() && InStep() && store == old(store) - {key} && OnlyNew(store, old(store), key, st)
    {
      hide EntryInStep;
      NothingNew(store, {key}, key, st);
      NothingNew(store, {}, key, st);
      assert !hit ==> store - {key} == store;
      if hit {
        ConvDelete(key);
      }
    }

    method KeyOf(messages: seq<Message>) returns (key: string)
      ensures key == ParentKey(messages)
    {
      if |messages| < 2 {
        return "";
      }
      key := CanonicalMessages(messages[..|messages| - 1]);
    }

    /** The answered round, on the conversation found or started. */
    method Answered(messages: seq<Message>, ghost told: seq<Message>, text: string, st: ConvState, hit: bool,
                    ghost key: string)
      requires InStep() && messages != [] && AllPlain(messages) && Plain(Reply(text)) && key == ParentKey(messages)
      requires told == if hit then [messages[|messages| - 1]] else messages
      requires if hit then key in store && store[key] == st && |messages| >= 2
               else st !in store.Values && st.turn == 0 && st.history == []
      modifies this`moved, st`turn, st`history, st`initial
      ensures InStep() && st.Tracked() && st.turn == old(st.turn) + 1
      ensures HasView(ChildKey(messages, text), st.history)
      ensures st.history == (if hit then old(st.history) + [messages[|messages| - 1]] else messages) + [Reply(text)]
      ensures moved == old(moved) + if hit then {Canonical(old(st.history))} else {}
    {
      hide Canonical, AllPlain, HasView, ParentKey, ChildKey;
      NewView(messages, hit, st.history, text);
      if hit {
        moved := moved + {Canonical(st.history)};
      }
      st.Round(messages, told, text);
      assert !hit ==> [] + messages == messages;
      forall k | k in store && store[k] == st
        ensures HasView(k, st.history)
      {
        assert old(EntryInStep(store[k], k, moved));
        ViewStays(k, old(st.history), st.history);
      }
    }

    method Store(messages: seq<Message>, text: string, st: ConvState, now: int)
      requires Bounded() && InStep() && st.Tracked() && HasView(ChildKey(messages, text), st.history)
      modifies this`store, this`moved, st`updated
      ensures Bounded() && InStep() && st.updated == now
      ensures OnlyNew(store, old(store), ChildKey(messages, text), st)
      ensures IsAdded(store, old(store), ChildKey(messages, text), st)
      ensures moved == if Canonical(st.history) == ChildKey(messages, text) then old(moved) - {ChildKey(messages, text)}
                       else old(moved) + {ChildKey(messages, text)}
    {
      hide Canonical, IsEviction, AreAges, EntryInStep, ChildKey, OnlyNew, ConvState.Tracked, HasView, IsAdded,
           ConvStore.Bounded;
      var key := CanonicalMessages(messages + [Reply(text)]);
      ChildIs(messages, text);
      moved := if Canonical(st.history) == key then moved - {key} else moved + {key};
      ghost var gone: set<string>, ages: map<string, int>;
      gone, ages := ConvPut(key, st, now);
      PutIsOnlyNew(store, old(store), key, st, gone);
      PutInStep(store, old(store), key, st, old(moved));
      AddedIs(store, old(store), key, st, gone);
    }

    /** One pass over the store: expired entries go, the oldest of the others is found. */
    method DropExpired(now: int, ghost ages: map<string, int>)
        returns (oldest: string, ghost late: set<string>, ghost alive: set<string>)
      requires AreAges(ages, store)
      modifies this`store
      ensures store == old(store) - late && late + alive == old(store).Keys && AreLate(late, alive, ages, now)
      ensures if alive == {} then oldest == "" else IsOldest(oldest, alive, ages)
    {
      hide AreLate, IsOldest, AreAges, Late;
      var full := store;
      late, alive := {}, {};
      oldest := "";
      var oldestAt, first := 0, true;
      var todo := store.Keys;
      NoneLate(ages, now);
      while todo != {}
        invariant todo <= full.Keys && store == full - late
        invariant late + alive == full.Keys - todo
        invariant AreLate(late, alive, ages, now)
        invariant if first then alive == {} && oldest == ""
                  else alive != {} && oldest in ages && IsOldest(oldest, alive, ages) && oldestAt == ages[oldest]
        decreases |todo|
      {
        var k :| k in todo;
        AgeIs(ages, full, k);
        LateIs(ages[k], now);
        Sorted(full.Keys, todo, late, alive, k);
        OneMore(late, alive, k, ages, now);
        todo := todo - {k};
        if now - full[k].updated > TTL {
          MinusTwice(full, late, k);
          store := store - {k};
          late := late + {k};
        } else {
          Elder(oldest, alive, k, ages, first);
          alive := alive + {k};
          if first || full[k].updated < oldestAt {
            oldest, oldestAt, first := k, full[k].updated, false;
          }
        }
      }
      assert full.Keys - todo == full.Keys;
    }
  }

  lemma Sorted(all: set<string>, todo: set<string>, late: set<string>, alive: set<string>, k: string)
    requires late + alive == all - todo && k in todo && todo <= all
    ensures late + {k} + alive == all - (todo - {k}) == late + (alive + {k})
  {
    assert all - (todo - {k}) == all - todo + {k};
  }

  lemma MinusTwice(full: map<string, ConvState>, late: set<string>, k: string)
    ensures full - late - {k} == full - (late + {k})
  {
  }

  lemma {:induction false} FewerThan(full: map<string, ConvState>, late: set<string>)
    ensures |full - late| <= |full| && (full - late).Keys == full.Keys - late
  {
    var less := full - late;
    assert less.Keys == full.Keys - late;
    assert |less.Keys| + |full.Keys * late| == |full.Keys|;
  }

  /** Dropping the expired entries, and the oldest of the others with them, are both allowed. */
  lemma {:induction false} Choices(full: map<string, ConvState>, late: set<string>, alive: set<string>, oldest: string,
                                   newest: string, ages: map<string, int>, now: int)
    requires AreLate(late, alive, ages, now) && late + alive == full.Keys == ages.Keys && |full| > CONV_MAX
    requires "" !in full
    requires newest in ages && ages[newest] == now
    requires if alive == {} then oldest == "" else IsOldest(oldest, alive, ages)
    ensures oldest in full - late && oldest != "" && |full - late| <= |full|
    ensures IsEviction(late, ages, now) && IsEviction(late + {oldest}, ages, now)
  {
    NewestStays(late, alive, newest, ages, now);
    OldestIsIn(oldest, alive, ages);
    AliveNotLate(late, alive, oldest, ages, now);
    FewerThan(full, late);
    assert |ages.Keys| == |full.Keys|;
    hide IsEviction, AreLate, IsOldest;
    OldestGoes(late, alive, {}, oldest, ages, now);
    OldestGoes(late, alive, {oldest}, oldest, ages, now);
    assert late + {} == late;
  }

  lemma AliveNotLate(late: set<string>, alive: set<string>, k: string, ages: map<string, int>, now: int)
    requires AreLate(late, alive, ages, now) && k in alive
    ensures k !in late
  {
  }

  /** `ages` says when each entry was last used. */
  ghost predicate AreAges(ages: map<string, int>, store: map<string, ConvState>)
    reads store.Values
  {
    ages.Keys == store.Keys && forall k :: k in store ==> ages[k] == store[k].updated
  }

  ghost predicate Late(at: int, now: int) {
    now - at > TTL
  }

  /** The entries `late` are past their time, the entries `alive` are not. */
  ghost predicate AreLate(late: set<string>, alive: set<string>, ages: map<string, int>, now: int) {
    && (forall k :: k in late ==> k in ages && Late(ages[k], now))
    && (forall k :: k in alive ==> k in ages && !Late(ages[k], now))
  }

  ghost predicate IsOldest(k: string, among: set<string>, ages: map<string, int>) {
    k in among && k in ages && forall l :: l in among ==> l in ages && ages[k] <= ages[l]
  }

  lemma AgeIs(ages: map<string, int>, store: map<string, ConvState>, k: string)
    requires AreAges(ages, store) && k in store
    ensures k in ages && ages[k] == store[k].updated
  {
  }

  lemma LateIs(at: int, now: int)
    ensures Late(at, now) <==> now - at > TTL
  {
  }

  lemma NoneLate(ages: map<string, int>, now: int)
    ensures AreLate({}, {}, ages, now)
  {
  }

  lemma OneMore(late: set<string>, alive: set<string>, k: string, ages: map<string, int>, now: int)
    requires AreLate(late, alive, ages, now) && k in ages
    ensures if Late(ages[k], now) then AreLate(late + {k}, alive, ages, now) else AreLate(late, alive + {k}, ages, now)
  {
  }

  lemma Elder(oldest: string, alive: set<string>, k: string, ages: map<string, int>, first: bool)
    requires k in ages && if first then alive == {} else oldest in ages && IsOldest(oldest, alive, ages)
    ensures IsOldest(if first || ages[k] < ages[oldest] then k else oldest, alive + {k}, ages)
  {
  }

  lemma OldestIsIn(oldest: string, alive: set<string>, ages: map<string, int>)
    requires IsOldest(oldest, alive, ages)
    ensures oldest in alive
  {
  }

  lemma NewestStays(late: set<string>, alive: set<string>, newest: string, ages: map<string, int>, now: int)
    requires AreLate(late, alive, ages, now) && late + alive == ages.Keys && newest in ages && ages[newest] == now
    ensures newest in alive
  {
    assert !Late(now, now);
  }

  lemma NoEviction(ages: map<string, int>, now: int)
    requires |ages| <= CONV_MAX
    ensures IsEviction({}, ages, now)
  {
  }

  /** What may be evicted of entries with these ages: nothing while there is room; otherwise all
      expired entries, and at most one more, which is not younger than any that stay. */
  ghost predicate IsEviction(gone: set<string>, ages: map<string, int>, now: int) {
    && gone <= ages.Keys
    && (gone != {} ==> |ages| > CONV_MAX)
    && (|ages| > CONV_MAX ==> forall k :: k in ages && Late(ages[k], now) ==> k in gone)
    && forall k :: k in gone && !Late(ages[k], now) ==>
         && (forall l :: l in gone && !Late(ages[l], now) ==> l == k)
         && (forall l :: l in ages.Keys - gone ==> ages[k] <= ages[l] && !Late(ages[l], now))
  }

  lemma {:induction false} OldestGoes(late: set<string>, alive: set<string>, more: set<string>, oldest: string,
                                      ages: map<string, int>, now: int)
    requires AreLate(late, alive, ages, now) && late + alive == ages.Keys && |ages| > CONV_MAX
    requires more == {} || (more == {oldest} && IsOldest(oldest, alive, ages))
    ensures IsEviction(late + more, ages, now)
  {
    hide Late;
  }

  lemma {:induction false} RemovedIsSmaller(store: map<string, ConvState>, key: string)
    ensures |store - {key}| == |store| - if key in store then 1 else 0
  {
    var less := store - {key};
    if key in store {
      assert store.Keys == less.Keys + {key};
    } else {
      assert less == store;
    }
  }

  lemma {:induction false} AddedIsLarger(store: map<string, ConvState>, key: string, st: ConvState)
    ensures |store| <= |store[key := st]| <= |store| + 1
  {
    var more := store[key := st];
    assert more.Keys == store.Keys + {key};
    if key in store {
      assert more.Keys == store.Keys;
    }
  }

  // ---------------------------------------------------------------- every run

  /** One request: the client's messages, and how the round ends. */
  datatype Turn = Turn(messages: seq<Message>, at: int, outcome: Outcome)

  ghost predicate IsRequest(t: Turn) {
    && t.messages != [] && AllPlain(t.messages)
    && (t.outcome.Answers? ==> Plain(Reply(t.outcome.text)))
  }

  /** A good round that may continue a conversation. */
  predicate Continues(t: Turn) {
    t.outcome.Good() && |t.messages| >= 2
  }

  /** No history is continued twice with success. */
  ghost predicate Unbranched(turns: seq<Turn>) {
    forall i, j :: 0 <= i < j < |turns| && Continues(turns[i]) && |turns[j].messages| >= 2 ==>
      Past(turns[i].messages) != Past(turns[j].messages)
  }

  ghost predicate Continued(turns: seq<Turn>, key: string) {
    exists i :: 0 <= i < |turns| && Continues(turns[i]) && ParentKey(turns[i].messages) == key
  }

  /** Whether a request continued a conversation, and what the upstream was told. */
  datatype Sent = Sent(hit: bool, told: seq<Message>)

  /** A known conversation is told the last message only, and after a good round the upstream knows
      exactly what the client knows. */
  ghost predicate InTouch(s: Sent, known: seq<Message>, t: Turn)
    requires t.messages != []
  {
    && s.told == (if s.hit then [t.messages[|t.messages| - 1]] else t.messages)
    && (t.outcome.Good() ==> known == t.messages + [Reply(t.outcome.text)])
  }

  /** Round `p` is the latest with the history that request `j` brings back, and nobody asked with
      that history since. */
  ghost predicate IsLatest(turns: seq<Turn>, p: int, j: int)
    requires j < |turns|
  {
    && 0 <= p < j && BringsBack(turns[p], turns[j])
    && forall q :: p < q < j ==> !BringsBack(turns[q], turns[j]) && Past(turns[q].messages) != Past(turns[j].messages)
  }

  /** The request brings back the messages and the answer of a good round. */
  ghost predicate BringsBack(t: Turn, next: Turn) {
    t.outcome.Good() && next.messages != [] && Past(next.messages) == t.messages + [Reply(t.outcome.text)]
  }

  /** A request continues the conversation of the latest round whose history it brings back, if that
      is not too long ago, and is one round more; any other request starts afresh. */
  ghost predicate IsRecognized(sent: seq<Sent>, rounds: seq<nat>, turns: seq<Turn>, j: int)
    requires 0 <= j < |turns| && |sent| == |rounds| == |turns|
  {
    && (sent[j].hit <==> exists p :: IsLatest(turns, p, j) && turns[j].at - turns[p].at <= TTL)
    && (turns[j].outcome.Good() && !sent[j].hit ==> rounds[j] == 1)
    && (turns[j].outcome.Good() && sent[j].hit ==> forall p :: IsLatest(turns, p, j) ==> rounds[j] == rounds[p] + 1)
  }

  /** Whatever clients share the store, and whatever expires, is evicted or fails: as long as no
      history is continued twice, after every good round the upstream knows exactly what the
      client knows. And while the store has room, it is known which requests are recognized. */
  method Run(store: ConvStore, turns: seq<Turn>)
      returns (sent: seq<Sent>, rounds: seq<nat>, ghost known: seq<seq<Message>>)
    requires store.store == map[] && store.moved == {}
    requires Unbranched(turns) && forall t :: t in turns ==> IsRequest(t)
    modifies store
    ensures |sent| == |rounds| == |known| == |turns|
    ensures forall i :: 0 <= i < |turns| ==> turns[i].messages != [] && InTouch(sent[i], known[i], turns[i])
    ensures |turns| <= CONV_MAX ==> forall i :: 0 <= i < |turns| ==> IsRecognized(sent, rounds, turns, i)
  {
    EmptyStore(store);
    hide ConvStore.InStep, ConvStore.Bounded, Unbranched, IsRequest, ParentKey, Canonical, Continued, AllPlain, InTouch,
         Outdone, IsBooked, IsStep, AllFound, IsRecognized, AllInTouch, ConvStore.Book;
    sent, rounds, known := [], [], [];
    NothingSent(turns);
    NothingOutdone(store, turns);
    NothingBooked(store, turns);
    for i := 0 to |turns|
      invariant store.Bounded() && store.InStep() && |sent| == |rounds| == |known| == i
      invariant fresh(store.store.Values)
      invariant Outdone(store.store.Keys, store.moved, turns[..i])
      invariant AllInTouch(sent, known, turns)
      invariant |turns| <= CONV_MAX ==> |store.store| <= i && IsBooked(store.Book(), turns, i, rounds)
      invariant |turns| <= CONV_MAX ==> AllFound(sent, rounds, turns)
    {
      ghost var book := store.Book();
      var s: Sent, round: nat;
      ghost var history: seq<Message>;
      s, round, history := OneTurn(store, turns, i, turns[i]);
      if |turns| <= CONV_MAX {
        OneMoreFound(book, store.Book(), turns, sent, rounds, s, round);
      }
      OneMoreInTouch(sent, known, turns, s, history);
      sent, rounds, known := sent + [s], rounds + [round], known + [history];
    }
    AllAreInTouch(sent, known, turns);
    if |turns| <= CONV_MAX {
      AllRecognized(sent, rounds, turns);
    }
  }

  ghost predicate AllInTouch(sent: seq<Sent>, known: seq<seq<Message>>, turns: seq<Turn>) {
    && |sent| == |known| <= |turns|
    && forall j :: 0 <= j < |sent| ==> turns[j].messages != [] && InTouch(sent[j], known[j], turns[j])
  }

  lemma OneMoreInTouch(sent: seq<Sent>, known: seq<seq<Message>>, turns: seq<Turn>, s: Sent, history: seq<Message>)
    requires AllInTouch(sent, known, turns) && |sent| < |turns|
    requires turns[|sent|].messages != [] && InTouch(s, history, turns[|sent|])
    ensures AllInTouch(sent + [s], known + [history], turns)
  {
    hide InTouch;
  }

  lemma NothingSent(turns: seq<Turn>)
    ensures AllInTouch([], [], turns)
  {
  }

  lemma AllAreInTouch(sent: seq<Sent>, known: seq<seq<Message>>, turns: seq<Turn>)
    requires AllInTouch(sent, known, turns)
    ensures forall i :: 0 <= i < |sent| ==> turns[i].messages != [] && InTouch(sent[i], known[i], turns[i])
  {
    hide InTouch;
  }

  /** Only conversations continued by someone have gone beyond the key they are stored under. */
  ghost predicate Outdone(keys: set<string>, moved: set<string>, turns: seq<Turn>) {
    forall k :: k in keys && k in moved ==> Continued(turns, k)
  }

  lemma NothingOutdone(store: ConvStore, turns: seq<Turn>)
    requires store.store == map[]
    ensures Outdone(store.store.Keys, store.moved, turns[..0])
  {
  }

  lemma EmptyStore(store: ConvStore)
    requires store.store == map[]
    ensures store.Bounded() && store.InStep()
  {
  }

  // ---------------------------------------------------------------- which requests are recognized

  predicate IsPut(t: Turn, key: string) {
    t.outcome.Good() && ChildKey(t.messages, t.outcome.text) == key
  }

  /** Of the first `i` rounds number `p` was the last that concerned the key, and it set it. */
  ghost predicate IsLastPut(turns: seq<Turn>, i: nat, key: string, p: int)
    requires i <= |turns|
  {
    && 0 <= p < i && IsPut(turns[p], key)
    && forall q :: p < q < i ==> !IsPut(turns[q], key) && ParentKey(turns[q].messages) != key
  }

  /** What the store holds after the first `i` rounds of an unbranched run, while it has room. */
  ghost predicate IsBooked(book: map<string, Entry>, turns: seq<Turn>, i: nat, rounds: seq<nat>)
    requires i <= |turns| && i <= |rounds|
  {
    && "" !in book
    && (forall k :: k in book && !Continued(turns[..i], k) ==>
          exists p :: IsLastPut(turns, i, k, p) && book[k] == Entry(turns[p].at, rounds[p]))
    && (forall k, p :: IsLastPut(turns, i, k, p) ==> k in book)
  }

  /** What one round does to the store while it has room. */
  ghost predicate IsBookStep(before: map<string, Entry>, after: map<string, Entry>, t: Turn, hit: bool, round: nat) {
    var key := ParentKey(t.messages);
    && (hit <==> key in before && t.at - before[key].at <= TTL)
    && if t.outcome.Good() then
         var child := ChildKey(t.messages, t.outcome.text);
         && after.Keys == (if hit then before.Keys else before.Keys - {key}) + {child}
         && after[child] == Entry(t.at, round) && child != ""
         && round == 1 + if hit then before[key].turn else 0
       else after.Keys == before.Keys - {key}
  }

  /** Entries that nobody continued stay as they are. */
  ghost predicate IsStep(before: map<string, Entry>, after: map<string, Entry>, turns: seq<Turn>, i: nat, hit: bool,
                         round: nat)
    requires i < |turns|
  {
    && IsBookStep(before, after, turns[i], hit, round)
    && forall k :: k in after && !Continued(turns[..i + 1], k) && !IsPut(turns[i], k) ==>
         k in before && after[k] == before[k]
  }

  lemma NothingBooked(store: ConvStore, turns: seq<Turn>)
    requires store.store == map[]
    ensures IsBooked(store.Book(), turns, 0, []) && AllFound([], [], turns)
  {
  }

  lemma {:induction false} BookedStep(before: map<string, Entry>, after: map<string, Entry>, turns: seq<Turn>, i: nat,
                                      rounds: seq<nat>, hit: bool, round: nat)
    requires i < |turns| && i == |rounds| && IsBooked(before, turns, i, rounds)
    requires IsStep(before, after, turns, i, hit, round)
    ensures IsBooked(after, turns, i + 1, rounds + [round])
  {
    hide ParentKey, ChildKey, Continued;
    var t, more := turns[i], rounds + [round];
    forall k | k in after && !Continued(turns[..i + 1], k)
      ensures exists p :: IsLastPut(turns, i + 1, k, p) && after[k] == Entry(turns[p].at, more[p])
    {
      ContinuedStill(turns, i, k);
      if IsPut(t, k) {
        assert IsLastPut(turns, i + 1, k, i);
      } else {
        var p :| IsLastPut(turns, i, k, p) && before[k] == Entry(turns[p].at, rounds[p]);
        TouchedOut(before, after, turns, i, hit, round, k);
        assert IsLastPut(turns, i + 1, k, p) && more[p] == rounds[p];
      }
    }
    var n := i + 1;
    forall k, p | IsLastPut(turns, n, k, p)
      ensures k in after
    {
      if p < i {
        assert IsLastPut(turns, i, k, p);
      }
    }
  }

  /** A request with a history takes its entry out, or continues it. */
  lemma {:induction false} TouchedOut(before: map<string, Entry>, after: map<string, Entry>, turns: seq<Turn>, i: nat,
                                      hit: bool, round: nat, k: string)
    requires i < |turns| && IsStep(before, after, turns, i, hit, round) && "" !in before
    requires k in after && !Continued(turns[..i + 1], k) && !IsPut(turns[i], k)
    ensures ParentKey(turns[i].messages) != k
  {
    LongEnough(turns[i].messages);
    hide ParentKey, ChildKey, Continued;
    ContinuedStill(turns, i, k);
  }

  /** The same as being recognized, in terms of keys. */
  ghost predicate IsFound(hit: bool, round: nat, turns: seq<Turn>, j: nat, rounds: seq<nat>)
    requires j < |turns| && j <= |rounds|
  {
    var key := ParentKey(turns[j].messages);
    && (hit <==> key != "" && exists p :: IsLastPut(turns, j, key, p) && turns[j].at - turns[p].at <= TTL)
    && (turns[j].outcome.Good() && !hit ==> round == 1)
    && (turns[j].outcome.Good() && hit ==> forall p :: IsLastPut(turns, j, key, p) ==> round == rounds[p] + 1)
  }

  lemma {:induction false} FoundIs(book: map<string, Entry>, turns: seq<Turn>, j: nat, rounds: seq<nat>, hit: bool,
                                   round: nat, after: map<string, Entry>)
    requires j < |turns| && j <= |rounds| && IsBooked(book, turns, j, rounds)
    requires IsStep(book, after, turns, j, hit, round)
    requires Unbranched(turns) && forall t :: t in turns ==> IsRequest(t)
    ensures IsFound(hit, round, turns, j, rounds)
  {
    var key := ParentKey(turns[j].messages);
    LongEnough(turns[j].messages);
    NotYetContinued(turns, j);
    hide ParentKey, ChildKey, Continued, IsPut, Unbranched, IsRequest;
    if key != "" && key in book {
      var p :| IsLastPut(turns, j, key, p) && book[key] == Entry(turns[p].at, rounds[p]);
      forall q | IsLastPut(turns, j, key, q)
        ensures q == p
      {
      }
    }
  }

  ghost predicate AllFound(sent: seq<Sent>, rounds: seq<nat>, turns: seq<Turn>) {
    && |sent| == |rounds| <= |turns|
    && forall j :: 0 <= j < |sent| ==> IsFound(sent[j].hit, rounds[j], turns, j, rounds)
  }

  lemma FoundStill(hit: bool, r: nat, rounds: seq<nat>, turns: seq<Turn>, j: nat, round: nat)
    requires j < |turns| && j <= |rounds| && IsFound(hit, r, turns, j, rounds)
    ensures IsFound(hit, r, turns, j, rounds + [round])
  {
    hide ParentKey, IsPut;
  }

  lemma {:induction false} OneMoreFound(book: map<string, Entry>, after: map<string, Entry>, turns: seq<Turn>,
                                        sent: seq<Sent>, rounds: seq<nat>, s: Sent, round: nat)
    requires AllFound(sent, rounds, turns) && |sent| < |turns| && IsBooked(book, turns, |sent|, rounds)
    requires IsStep(book, after, turns, |sent|, s.hit, round)
    requires Unbranched(turns) && forall t :: t in turns ==> IsRequest(t)
    ensures AllFound(sent + [s], rounds + [round], turns)
    ensures IsBooked(after, turns, |sent| + 1, rounds + [round])
  {
    var i := |sent|;
    hide IsFound, IsBooked, IsStep, Unbranched, IsRequest;
    FoundIs(book, turns, i, rounds, s.hit, round, after);
    BookedStep(book, after, turns, i, rounds, s.hit, round);
    forall j | 0 <= j < i
      ensures IsFound(sent[j].hit, rounds[j], turns, j, rounds + [round])
    {
      FoundStill(sent[j].hit, rounds[j], rounds, turns, j, round);
    }
    FoundStill(s.hit, round, rounds, turns, i, round);
  }

  lemma AllRecognized(sent: seq<Sent>, rounds: seq<nat>, turns: seq<Turn>)
    requires AllFound(sent, rounds, turns) && |sent| == |turns| && forall t :: t in turns ==> IsRequest(t)
    ensures forall i :: 0 <= i < |turns| ==> IsRecognized(sent, rounds, turns, i)
  {
    hide IsFound, IsRecognized, IsRequest;
    forall i | 0 <= i < |turns|
      ensures IsRecognized(sent, rounds, turns, i)
    {
      FoundRecognized(sent, rounds, turns, i);
    }
  }

  lemma {:induction false} FoundRecognized(sent: seq<Sent>, rounds: seq<nat>, turns: seq<Turn>, j: int)
    requires 0 <= j < |turns| && |sent| == |rounds| == |turns| && forall t :: t in turns ==> IsRequest(t)
    requires IsFound(sent[j].hit, rounds[j], turns, j, rounds)
    ensures IsRecognized(sent, rounds, turns, j)
  {
    var key := ParentKey(turns[j].messages);
    forall p
      ensures IsLatest(turns, p, j) <==> key != "" && IsLastPut(turns, j, key, p)
    {
      LatestIs(turns, p, j);
    }
  }

  lemma {:induction false} LatestIs(turns: seq<Turn>, p: int, j: nat)
    requires j < |turns| && forall t :: t in turns ==> IsRequest(t)
    ensures var key := ParentKey(turns[j].messages);
            IsLatest(turns, p, j) <==> key != "" && IsLastPut(turns, j, key, p)
  {
    var key := ParentKey(turns[j].messages);
    hide ParentKey, ChildKey, IsRequest;
    forall q | 0 <= q < j
      ensures BringsBack(turns[q], turns[j]) <==> key != "" && IsPut(turns[q], key)
      ensures key != "" ==>
                (Past(turns[q].messages) != Past(turns[j].messages) <==> ParentKey(turns[q].messages) != key)
    {
      SameHistory(turns[q], turns[j]);
    }
  }

  lemma {:induction false} SameHistory(t: Turn, next: Turn)
    requires IsRequest(t) && IsRequest(next)
    ensures var key := ParentKey(next.messages);
            && (BringsBack(t, next) <==> key != "" && IsPut(t, key))
            && (key != "" ==> (Past(t.messages) != Past(next.messages) <==> ParentKey(t.messages) != key))
  {
    hide Canonical;
    var key := ParentKey(next.messages);
    var n, m := |t.messages| - 1, |next.messages| - 1;
    PlainPrefix(t.messages, n);
    PlainPrefix(next.messages, m);
    EmptyCanonical(next.messages[..m]);
    if t.outcome.Good() {
      KeysChain(t.messages, t.outcome.text, next.messages);
    }
    if key != "" && n > 0 && ParentKey(t.messages) == key {
      CanonicalInjective(t.messages[..n], next.messages[..m]);
    }
  }

  method OneTurn(store: ConvStore, ghost turns: seq<Turn>, i: nat, t: Turn)
      returns (s: Sent, round: nat, ghost history: seq<Message>)
    requires i < |turns| && t == turns[i] && Unbranched(turns) && forall t :: t in turns ==> IsRequest(t)
    requires store.Bounded() && store.InStep()
    requires Outdone(store.store.Keys, store.moved, turns[..i])
    modifies store, store.store.Values
    ensures store.Bounded() && store.InStep() && fresh(store.store.Values - old(store.store.Values))
    ensures Outdone(store.store.Keys, store.moved, turns[..i + 1])
    ensures t.messages != [] && InTouch(s, history, t)
    ensures |old(store.store)| < CONV_MAX ==>
              |store.store| <= |old(store.store)| + 1 && IsStep(old(store.Book()), store.Book(), turns, i, s.hit, round)
  {
    hide ConvStore.InStep, ConvStore.Bounded, Unbranched, ParentKey, Canonical, Continued, AllPlain, IsAdded,
         IsBookStep, IsStep, ConvStore.Book, MovedOn, Outdone, IsRound, InTouch, ChildKey, Expired, IsPut, IsSame;
    assert IsRequest(turns[i]);
    ghost var before, full, was := store.Book(), store.store, store.moved;
    BookIs(store);
    LateEntries(store, t.at);
    var st, hit, told := store.CallConv(t.messages, t.at, t.outcome);
    s, round, history := Sent(hit, told), st.turn, st.history;
    forall k | k in store.store && !IsPut(t, k)
      ensures k in full && (k !in store.moved ==> IsSame(store, k, before))
    {
      PutIs(t, k);
      SameIs(store, k, before);
    }
    StillOutdone(full.Keys, store.store.Keys, was, store.moved, turns, i, s,
                 if hit then old(st.history) else [], history);
    if |full| < CONV_MAX {
      BookStepIs(store, st, before, full, t, hit);
      StepIs(store, before, turns, i, hit, round);
    }
  }

  /** No conversation that is found has been gone on with, so the round leaves it in step. */
  lemma {:induction false} StillOutdone(full: set<string>, keys: set<string>, was: set<string>, moved: set<string>,
                                        turns: seq<Turn>, i: nat, s: Sent, before: seq<Message>, after: seq<Message>)
    requires i < |turns| && Unbranched(turns) && forall t :: t in turns ==> IsRequest(t)
    requires Outdone(full, was, turns[..i]) && turns[i].messages != []
    requires s.hit ==> ParentKey(turns[i].messages) in full && |turns[i].messages| >= 2
    requires s.hit ==> ParentKey(turns[i].messages) in was || Canonical(before) == ParentKey(turns[i].messages)
    requires s.told == if s.hit then [turns[i].messages[|turns[i].messages| - 1]] else turns[i].messages
    requires IsRound(turns[i].messages, turns[i].outcome, s.hit, before, after)
    requires moved == MovedOn(was, s.hit, before, after, turns[i].messages, turns[i].outcome)
    requires forall k :: k in keys ==> k in full || IsPut(turns[i], k)
    requires !turns[i].outcome.Good() ==> ParentKey(turns[i].messages) !in keys
    ensures Outdone(keys, moved, turns[..i + 1]) && InTouch(s, after, turns[i])
  {
    hide Unbranched, IsRequest, ParentKey, Canonical, Continued;
    NotYetContinued(turns, i);
    forall k | k in keys && k in moved
      ensures Continued(turns[..i + 1], k)
    {
      ContinuedStill(turns, i, k);
    }
  }

  lemma LateEntries(store: ConvStore, now: int)
    ensures forall k :: k in store.store ==>
              k in store.Book() && (Expired(store.store[k], now) <==> now - store.Book()[k].at > TTL)
              && store.Book()[k] == Entry(store.store[k].updated, store.store[k].turn)
  {
  }

  lemma PutIs(t: Turn, k: string)
    ensures IsPut(t, k) <==> t.outcome.Good() && k == ChildKey(t.messages, t.outcome.text)
  {
    hide ChildKey;
  }

  lemma SameIs(store: ConvStore, k: string, before: map<string, Entry>)
    requires k in store.store
    ensures IsSame(store, k, before) <==>
              k in before && before[k] == Entry(store.store[k].updated, store.store[k].turn)
  {
  }

  lemma BookIs(store: ConvStore)
    ensures store.Book().Keys == store.store.Keys && forall k :: k in store.store ==> IsSame(store, k, store.Book())
  {
  }

  lemma StepIs(store: ConvStore, before: map<string, Entry>, turns: seq<Turn>, i: nat, hit: bool, round: nat)
    requires i < |turns| && IsBookStep(before, store.Book(), turns[i], hit, round)
    requires Outdone(store.store.Keys, store.moved, turns[..i + 1])
    requires forall k :: k in store.store && k !in store.moved && !IsPut(turns[i], k) ==> IsSame(store, k, before)
    ensures IsStep(before, store.Book(), turns, i, hit, round)
  {
    hide ParentKey, ChildKey, IsBookStep, Continued, IsPut;
    BookIs(store);
  }

  /** Under this key the store holds what it held. */
  ghost predicate IsSame(store: ConvStore, k: string, before: map<string, Entry>)
    requires k in store.store
    reads store, store.store.Values
  {
    k in before && before[k] == Entry(store.store[k].updated, store.store[k].turn)
  }

  lemma {:induction false} BookStepIs(store: ConvStore, st: ConvState, before: map<string, Entry>,
                                      full: map<string, ConvState>, t: Turn, hit: bool)
    requires before.Keys == full.Keys && |full| < CONV_MAX && t.messages != []
    requires var key := ParentKey(t.messages);
             && (hit <==> key in full && t.at - before[key].at <= TTL)
             && (t.outcome.Good() ==>
                   && st.updated == t.at && st.turn == 1 + (if hit then before[key].turn else 0)
                   && var left := if hit then full else full - {key};
                      IsAdded(store.store, left, ChildKey(t.messages, t.outcome.text), st))
             && (!t.outcome.Good() ==> store.store == full - {key})
    ensures |store.store| <= |full| + 1
    ensures IsBookStep(before, store.Book(), t, hit, st.turn)
  {
    hide ParentKey, ChildKey, IsAdded, Canonical, ConvStore.Book;
    var key := ParentKey(t.messages);
    BookIs(store);
    RemovedIsSmaller(full, key);
    if t.outcome.Good() {
      var left := if hit then full else full - {key};
      ChildIs(t.messages, t.outcome.text);
      AddedHas(store.store, left, ChildKey(t.messages, t.outcome.text), st);
      KeysAfter(store.store, left, ChildKey(t.messages, t.outcome.text), st);
    }
  }

  lemma KeysAfter(store: map<string, ConvState>, left: map<string, ConvState>, key: string, st: ConvState)
    requires store == left[key := st]
    ensures store.Keys == left.Keys + {key} && store[key] == st
  {
  }

  /** The history of an unbranched run's next request was not continued before. */
  lemma {:induction false} NotYetContinued(turns: seq<Turn>, i: nat)
    requires i < |turns| && Unbranched(turns) && forall t :: t in turns ==> IsRequest(t)
    ensures |turns[i].messages| >= 2 ==> !Continued(turns[..i], ParentKey(turns[i].messages))
  {
    hide Canonical;
    var ms := turns[i].messages;
    assert IsRequest(turns[i]);
    PlainPrefix(ms, |ms| - 1);
    forall j | 0 <= j < i && |ms| >= 2 && Continues(turns[..i][j])
      ensures ParentKey(turns[..i][j].messages) != ParentKey(ms)
    {
      var other := turns[j].messages;
      assert turns[..i][j] == turns[j] && IsRequest(turns[j]);
      PlainPrefix(other, |other| - 1);
      KeysDiffer(other[..|other| - 1], ms[..|ms| - 1]);
    }
  }

  lemma {:induction false} KeysDiffer(a: seq<Message>, b: seq<Message>)
    requires AllPlain(a) && AllPlain(b) && a != b
    ensures Canonical(a) != Canonical(b)
  {
    if Canonical(a) == Canonical(b) {
      CanonicalInjective(a, b);
      assert false;
    }
  }

  lemma ContinuedStill(turns: seq<Turn>, i: nat, k: string)
    requires i < |turns|
    ensures Continued(turns[..i], k) ==> Continued(turns[..i + 1], k)
    ensures Continues(turns[i]) ==> Continued(turns[..i + 1], ParentKey(turns[i].messages))
  {
    hide ParentKey;
    if Continued(turns[..i], k) {
      var j :| 0 <= j < i && Continues(turns[..i][j]) && ParentKey(turns[..i][j].messages) == k;
      assert turns[..i + 1][j] == turns[..i][j];
    }
    assert turns[..i + 1][i] == turns[i];
  }

  /** A chat with one client: after a good round the next request brings all messages, the answer
      and a new message; after a failed one it comes again. */
  ghost predicate IsChat(turns: seq<Turn>) {
    forall i :: 0 < i < |turns| ==>
      var before := turns[i - 1];
      if before.outcome.Good()
      then turns[i].messages != [] && Past(turns[i].messages) == before.messages + [Reply(before.outcome.text)]
      else turns[i].messages == before.messages
  }

  lemma {:induction false} ChatGrows(turns: seq<Turn>, i: nat, j: nat)
    requires IsChat(turns) && i < j < |turns| && turns[i].outcome.Good()
    ensures |turns[j].messages| >= |turns[i].messages| + 2
    decreases j
  {
    if j > i + 1 {
      ChatGrows(turns, i, j - 1);
    }
    var before := turns[j - 1];
    assert if before.outcome.Good() then |Past(turns[j].messages)| == |before.messages| + 1
           else turns[j].messages == before.messages;
  }

  /** So every chat is in step all along. */
  lemma {:induction false} ChatIsUnbranched(turns: seq<Turn>)
    requires IsChat(turns)
    ensures Unbranched(turns)
  {
    forall i, j | 0 <= i < j < |turns| && Continues(turns[i]) && |turns[j].messages| >= 2
      ensures Past(turns[i].messages) != Past(turns[j].messages)
    {
      ChatGrows(turns, i, j);
    }
  }

  /** A chat all of whose rounds are answered, each in time after the one before. */
  ghost predicate IsSteady(turns: seq<Turn>) {
    && IsChat(turns)
    && (forall t :: t in turns ==> IsRequest(t) && t.outcome.Good())
    && forall i :: 0 < i < |turns| ==> turns[i].at - turns[i - 1].at <= TTL
  }

  ghost predicate IsKnown(known: seq<Message>, t: Turn) {
    t.outcome.Good() && known == t.messages + [Reply(t.outcome.text)]
  }

  /** The conversation that answered `t` is stored for the next request. */
  ghost predicate IsKept(store: ConvStore, st: ConvState, t: Turn)
    reads store, st`updated
  {
    t.outcome.Good() && store.HasState(ChildKey(t.messages, t.outcome.text), st) && st.updated == t.at
  }

  /** Every round after the first continues the conversation, with one turn more each and only the
      newest message sent; it is in step all along if it is after the first round. */
  ghost predicate IsOneConversation(sent: seq<Sent>, rounds: seq<nat>, known: seq<seq<Message>>, turns: seq<Turn>) {
    && |sent| == |rounds| == |known| == |turns| > 0
    && (forall i :: 0 < i < |turns| ==> turns[i].messages != [] && IsContinued(sent[i], turns[i]))
    && (forall i :: 0 <= i < |turns| ==> rounds[i] == rounds[0] + i)
    && (!sent[0].hit ==> rounds[0] == 1 && IsKnown(known[0], turns[0]))
    && (IsKnown(known[0], turns[0]) ==> forall i :: 0 <= i < |turns| ==> IsKnown(known[i], turns[i]))
  }

  lemma OneRound(s: Sent, round: nat, history: seq<Message>, turns: seq<Turn>)
    requires turns != [] && (!s.hit ==> round == 1 && IsKnown(history, turns[0]))
    ensures IsOneConversation([s], [round], [history], turns[..1])
  {
    hide IsKnown;
  }

  lemma {:induction false} OneMoreRound(sent: seq<Sent>, rounds: seq<nat>, known: seq<seq<Message>>, turns: seq<Turn>,
                                        i: nat, s: Sent, round: nat, history: seq<Message>)
    requires 0 < i < |turns| && |rounds| == |known| == i && IsOneConversation(sent, rounds, known, turns[..i])
    requires turns[i].messages != [] && IsContinued(s, turns[i]) && round == rounds[i - 1] + 1
    requires IsKnown(known[i - 1], turns[i - 1]) ==> IsKnown(history, turns[i])
    ensures IsOneConversation(sent + [s], rounds + [round], known + [history], turns[..i + 1])
  {
    hide IsKnown, IsContinued;
    assert forall j :: 0 <= j < i ==> turns[..i][j] == turns[j] == turns[..i + 1][j];
  }

  /** In a steady chat, while the store has room, every round after the first continues the same
      conversation: one turn more each, and only the newest message is sent. And if the upstream
      knew what the client knows after the first round, it does after each. */
  method RunChat(store: ConvStore, turns: seq<Turn>)
      returns (sent: seq<Sent>, rounds: seq<nat>, ghost known: seq<seq<Message>>)
    requires store.Bounded() && store.InStep() && |store.store| + |turns| <= CONV_MAX
    requires turns != [] && IsSteady(turns)
    modifies store, store.store.Values
    ensures IsOneConversation(sent, rounds, known, turns)
  {
    hide ConvStore.InStep, ConvStore.Bounded, IsChat, ParentKey, ChildKey, Canonical, AllPlain, IsContinued, IsRound,
         MovedOn, IsAdded, Expired, IsKept, ConvStore.HasState, IsSteady, IsFollowing, IsOneConversation, IsKnown;
    FirstInChat(turns);
    var st: ConvState, s: Sent;
    st, s := FirstTurn(store, turns[0]);
    sent, rounds, known := [s], [st.turn], [st.history];
    OneRound(s, st.turn, st.history, turns);
    for i := 1 to |turns|
      invariant store.Bounded() && store.InStep() && |store.store| + (|turns| - i) <= CONV_MAX
      invariant fresh(store.store.Values - old(store.store.Values))
      invariant IsKept(store, st, turns[i - 1]) && st in store.store.Values
      invariant IsUpTo(sent, rounds, known, turns, i, st)
    {
      sent, rounds, known := NextRound(store, st, turns, i, sent, rounds, known);
    }
    assert turns[..|turns|] == turns;
  }

  /** The first `i` rounds, the last of which left the conversation as it is. */
  ghost predicate IsUpTo(sent: seq<Sent>, rounds: seq<nat>, known: seq<seq<Message>>, turns: seq<Turn>, i: nat,
                         st: ConvState)
    requires i <= |turns|
    reads st`turn, st`history
  {
    && |rounds| == |known| == i > 0 && IsOneConversation(sent, rounds, known, turns[..i])
    && rounds[i - 1] == st.turn && known[i - 1] == st.history
  }

  method NextRound(store: ConvStore, st: ConvState, turns: seq<Turn>, i: nat, sent: seq<Sent>, rounds: seq<nat>,
                   ghost known: seq<seq<Message>>)
      returns (sent': seq<Sent>, rounds': seq<nat>, ghost known': seq<seq<Message>>)
    requires 0 < i < |turns| && IsSteady(turns) && IsUpTo(sent, rounds, known, turns, i, st)
    requires store.Bounded() && store.InStep() && |store.store| < CONV_MAX
    requires IsKept(store, st, turns[i - 1]) && st in store.store.Values
    modifies store, store.store.Values
    ensures store.Bounded() && store.InStep() && fresh(store.store.Values - old(store.store.Values))
    ensures |store.store| <= |old(store.store)| + 1 && IsKept(store, st, turns[i]) && st in store.store.Values
    ensures IsUpTo(sent', rounds', known', turns, i + 1, st)
  {
    hide ConvStore.InStep, ConvStore.Bounded, IsContinued, IsKept, IsSteady, IsFollowing, IsOneConversation, IsKnown;
    NextInChat(turns, i);
    var s := NextTurn(store, st, turns[i - 1], turns[i]);
    OneMoreRound(sent, rounds, known, turns, i, s, st.turn, st.history);
    sent', rounds', known' := sent + [s], rounds + [st.turn], known + [st.history];
  }

  /** The request was recognized, and only its last message sent. */
  ghost predicate IsContinued(s: Sent, t: Turn)
    requires t.messages != []
  {
    s == Sent(true, [t.messages[|t.messages| - 1]])
  }

  lemma FirstInChat(turns: seq<Turn>)
    requires turns != [] && IsSteady(turns)
    ensures IsRequest(turns[0]) && turns[0].outcome.Good()
  {
  }

  lemma NextInChat(turns: seq<Turn>, i: nat)
    requires 0 < i < |turns| && IsSteady(turns)
    ensures IsFollowing(turns[i - 1], turns[i])
  {
  }

  /** The next request of a steady chat. */
  ghost predicate IsFollowing(before: Turn, t: Turn) {
    && IsRequest(before) && before.outcome.Good() && IsRequest(t) && t.outcome.Good()
    && t.at - before.at <= TTL && Past(t.messages) == before.messages + [Reply(before.outcome.text)]
  }

  method FirstTurn(store: ConvStore, t: Turn) returns (st: ConvState, s: Sent)
    requires store.Bounded() && store.InStep() && |store.store| < CONV_MAX && IsRequest(t) && t.outcome.Good()
    modifies store, store.store.Values
    ensures store.Bounded() && store.InStep() && fresh(store.store.Values - old(store.store.Values))
    ensures |store.store| <= |old(store.store)| + 1 && IsKept(store, st, t) && st in store.store.Values
    ensures !s.hit ==> st.turn == 1 && IsKnown(st.history, t)
  {
    hide ConvStore.InStep, ConvStore.Bounded, ParentKey, ChildKey, Canonical, AllPlain, MovedOn, Expired, IsAdded,
         IsRound;
    var hit: bool, told: seq<Message>;
    st, hit, told := store.CallConv(t.messages, t.at, t.outcome);
    ghost var left := if hit then old(store.store) else old(store.store) - {ParentKey(t.messages)};
    RemovedIsSmaller(old(store.store), ParentKey(t.messages));
    AddedHas(store.store, left, ChildKey(t.messages, t.outcome.text), st);
    s := Sent(hit, told);
    if !hit {
      FreshKnows(t, st.history);
    }
  }

  lemma FreshKnows(t: Turn, history: seq<Message>)
    requires t.messages != [] && t.outcome.Good() && IsRound(t.messages, t.outcome, false, [], history)
    ensures IsKnown(history, t)
  {
  }

  lemma FollowingKnows(before: Turn, t: Turn, was: seq<Message>, history: seq<Message>)
    requires IsFollowing(before, t) && IsKnown(was, before) && IsRound(t.messages, t.outcome, true, was, history)
    ensures IsKnown(history, t)
  {
    FollowingKey(before, t);
    hide ParentKey, Canonical, ChildKey;
  }

  method NextTurn(store: ConvStore, st: ConvState, ghost before: Turn, t: Turn) returns (s: Sent)
    requires store.Bounded() && store.InStep() && |store.store| < CONV_MAX
    requires IsFollowing(before, t) && IsKept(store, st, before) && st in store.store.Values
    modifies store, store.store.Values
    ensures store.Bounded() && store.InStep() && fresh(store.store.Values - old(store.store.Values))
    ensures |store.store| <= |old(store.store)| + 1 && IsKept(store, st, t) && st in store.store.Values
    ensures IsRequest(t) && IsContinued(s, t) && st.turn == old(st.turn) + 1
    ensures old(IsKnown(st.history, before)) ==> IsKnown(st.history, t)
  {
    FollowingKey(before, t);
    hide ConvStore.InStep, ConvStore.Bounded, ParentKey, ChildKey, Canonical, AllPlain, MovedOn, IsAdded, IsRound,
         IsKnown;
    ghost var was := st.history;
    var found, hit, told := store.CallConv(t.messages, t.at, t.outcome);
    AddedHas(store.store, old(store.store), ChildKey(t.messages, t.outcome.text), st);
    s := Sent(hit, told);
    if IsKnown(was, before) {
      FollowingKnows(before, t, was, st.history);
    }
  }

  lemma FollowingKey(before: Turn, t: Turn)
    requires IsFollowing(before, t)
    ensures ParentKey(t.messages) == ChildKey(before.messages, before.outcome.text)
    ensures Canonical(before.messages + [Reply(before.outcome.text)]) == ParentKey(t.messages)
  {
    hide Canonical;
  }

  /** Without that, clients can end up in one conversation: after the same first message and the
      same answer both are sent on to the conversation that was stored last, and the upstream
      answers the second one with the first one's message in mind. */
  method TwoClients(first: Message, a: Message, b: Message, x: string, y: string, z: string, now: int)
      returns (told: seq<Message>, ghost known: seq<Message>)
    requires Plain(first) && Plain(a) && Plain(b) && Plain(Reply(x)) && Plain(Reply(y)) && Plain(Reply(z))
    requires x != "" && y != "" && z != ""
    ensures told == [b] && known == [first, Reply(x), a, Reply(y), b, Reply(z)]
  {
    hide Canonical, ConvStore.InStep, ConvStore.Bounded, AllPlain, ChildKey, ParentKey;
    var store := new ConvStore();
    var one, two := [first, Reply(x), a], [first, Reply(x), b];
    ghost var shared := [first] + [Reply(x)];
    ThreePlain(first, Reply(x), a);
    ThreePlain(first, Reply(x), b);
    var st1 := Opened(store, first, x, now);
    AddedIsLarger(map[], ChildKey([first], x), st1);
    var st2 := Opened(store, first, x, now);
    assert store.store == map[ChildKey([first], x) := st2];
    FollowsOn(one, first, a, x);
    FollowsOn(two, first, b, x);
    told, known := Shared(store, one, two, st2, y, z, now);
    assert known == shared + [a] + [Reply(y)] + [b] + [Reply(z)];
  }

  lemma ThreePlain(a: Message, b: Message, c: Message)
    requires Plain(a) && Plain(b) && Plain(c)
    ensures AllPlain([a, b, c])
  {
  }

  /** The first request of a client. */
  method Opened(store: ConvStore, first: Message, x: string, now: int) returns (st: ConvState)
    requires store.Bounded() && store.InStep() && |store.store| < CONV_MAX && Plain(first) && Plain(Reply(x)) && x != ""
    modifies store, store.store.Values
    ensures store.Bounded() && store.InStep() && fresh(store.store.Values - old(store.store.Values))
    ensures store.store == old(store.store)[ChildKey([first], x) := st]
    ensures st.history == [first] + [Reply(x)] && st.updated == now
  {
    hide Canonical, ConvStore.InStep, MovedOn, ChildKey, IsAdded;
    NothingStored([first]);
    var hit: bool, told: seq<Message>;
    st, hit, told := store.CallConv([first], now, Answers(x, false));
    assert old(store.store) - {""} == old(store.store);
    AddedHas(store.store, old(store.store), ChildKey([first], x), st);
  }

  lemma FollowsOn(messages: seq<Message>, first: Message, next: Message, x: string)
    requires messages == [first, Reply(x), next]
    ensures ParentKey(messages) == ChildKey([first], x)
  {
    assert messages[..2] == [first] + [Reply(x)];
  }

  method Shared(store: ConvStore, one: seq<Message>, two: seq<Message>, st: ConvState, y: string, z: string, now: int)
      returns (told: seq<Message>, ghost known: seq<Message>)
    requires store.Bounded() && store.InStep() && y != "" && z != "" && |one| >= 2 && |two| >= 2 && AllPlain(one)
    requires AllPlain(two)
    requires Plain(Reply(y)) && Plain(Reply(z))
    requires ParentKey(one) == ParentKey(two) && store.store == map[ParentKey(one) := st] && st.updated == now
    modifies store, store.store.Values
    ensures told == [two[|two| - 1]]
    ensures known == old(st.history) + [one[|one| - 1]] + [Reply(y)] + [two[|two| - 1]] + [Reply(z)]
  {
    hide Canonical, ConvStore.InStep, ConvStore.Bounded, MovedOn, EntryInStep, ParentKey, ChildKey;
    var st1, hit1, told1 := store.CallConv(one, now, Answers(y, false));
    assert st1 == st && store.store[ParentKey(two)] == st;
    var st2, hit2, told2 := store.CallConv(two, now, Answers(z, false));
    told, known := told2, st2.history;
  }

  lemma NothingStored(messages: seq<Message>)
    requires |messages| == 1
    ensures ParentKey(messages) == ""
  {
  }
}
