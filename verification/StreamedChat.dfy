/** Streamed rounds of a conversation: the store keeps the text of the whole answer, the client
    brings back what it was streamed (`server.go`, `conversation.go`). */
module StreamedChat {
  import opened Options
  import opened Text
  import opened FenceGate
  import opened StreamPipeline
  import opened EventStreams
  import Conversation

  /** The client's next request, with what it was streamed as the answer. */
  function NextRequest(messages: seq<Conversation.Message>, client: string, more: Conversation.Message)
    : (next: seq<Conversation.Message>)
    ensures |next| == |messages| + 2
  {
    messages + [Conversation.Reply(client)] + [more]
  }

  /** It asks for the conversation that was stored exactly if the client got the text in full, that
      is, if what was sent before the end is a prefix of it. */
  lemma {:induction false} StreamedContinues(messages: seq<Conversation.Message>, sent: string, text: string,
                                             more: Conversation.Message)
    requires messages != [] && Conversation.AllPlain(messages) && Conversation.Plain(more)
    requires Conversation.Plain(Conversation.Reply(text)) && Conversation.Plain(Conversation.Reply(sent))
    ensures var next := NextRequest(messages, ClientText(sent, text), more);
            Conversation.AllPlain(next)
            && (Conversation.ParentKey(next) == Conversation.ChildKey(messages, text) <==> sent <= text)
  {
    hide Conversation.Canonical;
    ClientGetsTextIffPrefix(sent, text);
    var client := ClientText(sent, text);
    var next := NextRequest(messages, client, more);
    Conversation.KeysChain(messages, text, next);
    var a, b := messages + [Conversation.Reply(client)], messages + [Conversation.Reply(text)];
    assert next[..|next| - 1] == a && a[|messages|] == Conversation.Reply(client);
    assert a == b ==> a[|messages|] == b[|messages|];
  }

  /** Trimming keeps what was sent only if it does not start with white space, nor end with it when
      nothing follows. */
  lemma {:induction false} SentIsKept(sent: string, pending: string)
    requires pending == "" || !IsSpace(pending[0])
    ensures sent <= TrimSpace(sent + pending)
       <==> sent == "" || (!IsSpace(sent[0]) && (pending != "" || !IsSpace(sent[|sent| - 1])))
  {
    var all := sent + pending;
    if sent != "" {
      if IsSpace(sent[0]) {
        StartsAlike(sent, TrimSpace(all));
      } else if pending == "" {
        assert all == sent;
        EndsAreKept(sent);
      } else {
        var head := sent + [pending[0]];
        assert all == "" + head + pending[1..];
        TrimOfMore("", head, pending[1..]);
        assert sent <= head;
      }
    }
  }

  lemma StartsAlike(s: string, t: string)
    ensures s != "" && s <= t ==> t[0] == s[0] && t[|s| - 1] == s[|s| - 1]
  {
  }

  lemma {:induction false} EndsAreKept(s: string)
    requires s != "" && !IsSpace(s[0])
    ensures s <= TrimSpace(s) <==> !IsSpace(s[|s| - 1])
  {
    hide TrimSpace, IsSpace;
    if IsSpace(s[|s| - 1]) {
      var t := TrimSpace(s);
      var lead, trail := TrimParts(s);
      assert |t| <= |s| && (s <= t ==> s == t);
    } else {
      TrimIs("", s, "");
      assert "" + s + "" == s;
    }
  }

  /** So without tools a streamed conversation goes on, and with tools it does exactly if the gate has
      sent nothing, or no white space first, nor last unless text is still to come. */
  lemma {:induction false} ChainContinues<T>(frames: seq<string>, hasTools: bool, decode: string -> Option<T>)
    requires IsChain(frames) && NonStreamed(frames, hasTools, true, decode).Reply?
    ensures SentFor(TrackAll("", frames), hasTools) <= NonStreamed(frames, hasTools, true, decode).text
       <==> !hasTools || KeepsEnds(Whole(LastText(frames)))
  {
    hide Whole, Strip, TrimSpace;
    ChainIsTracked(frames);
    LastOfChain(frames);
    var full := LastText(frames);
    if hasTools {
      var st := Whole(full);
      GateRefinesStrip(full);
      WholeIsVisible(full);
      SentIsKept(st.sent, st.Pending());
    }
  }

  predicate KeepsEnds(st: Scan) {
    st.sent == "" || (!IsSpace(st.sent[0]) && (st.Pending() != "" || !IsSpace(st.sent[|st.sent| - 1])))
  }

  lemma WholeIsVisible(full: string)
    ensures Whole(full).Pending() == "" || !IsSpace(Whole(full).Pending()[0])
  {
    hide Settle;
    SettleSettles(With(Scan("", "", false), full));
    PendingIsVisible(Whole(full));
  }

  /** A round that is streamed, and the client's next request: the conversation is found again
      exactly if the request comes in time and all that was sent is a prefix of the reply. */
  method NextRound(store: Conversation.ConvStore, messages: seq<Conversation.Message>, earlier: seq<Line>,
                   lines: seq<Line>, hasTools: bool, decode: string -> Option<ToolCall>, includeUsage: bool, at: int,
                   more: Conversation.Message, later: int) returns (client: string, hit: bool)
    requires store.Bounded() && store.InStep() && |store.store| < Conversation.CONV_MAX
    requires messages != [] && Conversation.AllPlain(messages) && Conversation.Plain(more)
    requires var reply := NonStreamed(Texts(lines), hasTools, true, decode);
             var sent := SentFor(TrackAll("", Texts(earlier + lines)), hasTools);
             && reply.Reply? && Conversation.Plain(Conversation.Reply(reply.text))
             && Conversation.Plain(Conversation.Reply(sent))
    modifies store, store.store.Values
    ensures var sent := SentFor(TrackAll("", Texts(earlier + lines)), hasTools);
            var text := NonStreamed(Texts(lines), hasTools, true, decode).text;
            && client == ClientText(sent, text)
            && (sent <= text ==> client == text && (hit <==> later - at <= Conversation.TTL))
            && (!(sent <= text) && hit ==>
                  Conversation.ParentKey(NextRequest(messages, client, more)) in old(store.store))
  {
    hide Texts, TrackAll, SentFor, NonStreamed, ClientText, Conversation.Canonical, Conversation.ParentKey,
         Conversation.ChildKey, Conversation.AllPlain, Conversation.ConvStore.InStep, Conversation.ConvStore.Bounded,
         Conversation.MovedOn, Conversation.IsRound, Conversation.IsAdded, NextRequest, ContentOf, ReasoningOf, CallsOf,
         ChatRun, Longest, TrimSpace, Reasonings, Conversation.Plain;
    GoodReply(Texts(lines), hasTools, decode);
    var sse, jsonError := StreamChat(earlier, lines, None, hasTools, true, decode, includeUsage);
    client := ContentOf(sse.out);
    var reply := TakeReply(lines, hasTools, true, decode);
    ghost var sent := SentFor(TrackAll("", Texts(earlier + lines)), hasTools);
    StreamedContinues(messages, sent, reply.text, more);
    ClientGetsTextIffPrefix(sent, reply.text);
    hit := Ask(store, messages, reply.text, |reply.calls| > 0, at, NextRequest(messages, client, more), later);
  }

  lemma GoodReply<T>(frames: seq<string>, hasTools: bool, decode: string -> Option<T>)
    requires NonStreamed(frames, hasTools, true, decode).Reply?
    ensures var reply := NonStreamed(frames, hasTools, true, decode); reply.text != "" || reply.calls != []
  {
    hide LastText, Strip, Bodies, DecodeAll, TrimSpace;
  }

  /** The conversation is stored, and asked for by the next request. */
  method Ask(store: Conversation.ConvStore, messages: seq<Conversation.Message>, text: string, calls: bool, at: int,
             next: seq<Conversation.Message>, later: int) returns (hit: bool)
    requires store.Bounded() && store.InStep() && |store.store| < Conversation.CONV_MAX && (text != "" || calls)
    requires messages != [] && Conversation.AllPlain(messages) && next != [] && Conversation.AllPlain(next)
    requires Conversation.Plain(Conversation.Reply(text))
    modifies store, store.store.Values
    ensures Conversation.ParentKey(next) == Conversation.ChildKey(messages, text) ==>
              (hit <==> later - at <= Conversation.TTL)
    ensures Conversation.ParentKey(next) != Conversation.ChildKey(messages, text) && hit ==>
              Conversation.ParentKey(next) in old(store.store)
  {
    hide Conversation.Canonical, Conversation.ParentKey, Conversation.ChildKey, Conversation.AllPlain,
         Conversation.ConvStore.InStep, Conversation.ConvStore.Bounded, Conversation.MovedOn, Conversation.IsRound,
         Conversation.IsAdded;
    ghost var before, key := store.store, Conversation.ParentKey(messages);
    var st, first, told := store.CallConv(messages, at, Conversation.Answers(text, calls));
    ghost var left := if first then before else before - {key};
    Conversation.RemovedIsSmaller(before, key);
    Conversation.AddedHas(store.store, left, Conversation.ChildKey(messages, text), st);
    st, hit, told := store.CallConv(next, later, Conversation.Fails);
  }

  // ---------------------------------------------------------------- a call behind a line of text

  /** A line of text, then a fence: the line break is streamed, the store keeps the text without it. */
  lemma LineBeforeCall<T>(decode: string -> Option<T>)
    ensures var full := "A\n" + FENCE;
            && SentFor(TrackAll("", [full]), true) == ClientText("A\n", "A") == "A\n"
            && NonStreamed([full], true, true, decode).Reply? && NonStreamed([full], true, true, decode).text == "A"
  {
    hide Settle, Strip, TrimSpace, Completion, Bodies;
    var full := "A\n" + FENCE;
    LineIsSent();
    WholeOfNothing();
    Continue("", "A\n");
    Continue("A\n", FENCE);
    DrainedByFence(Scan("A\n", "", false));
    GateRefinesStrip(full);
    TrimIs("", "A", "\n");
    TrimIs("", full, "");
    assert "" + full + "" == full && "" + "A" + "\n" == "A\n" && "A\n" + "" == "A\n";
    assert IsChain([full]) && [full][..0] == [];
    ChainIsTracked([full]);
    LastOfChain([full]);
  }

  lemma LineIsSent()
    ensures Feed(Scan("", "", false), "A\n") == Scan("A\n", "", false)
  {
    var st := Scan("", "A\n", false);
    assert "" + "A\n" == "A\n";
    assert !EndsInPrefix("A\n", OPEN, 1) && !EndsInPrefix("A\n", OPEN, 2) by {
      assert "A\n"[1..][0] == '\n' && "A\n"[0..][0] == 'A' && OPEN[..1][0] == '`' && OPEN[..2][0] == '`';
    }
    hide Partial;
    PartialUnique("A\n", OPEN, 0);
    assert Index("A\n", OPEN) < 0;
    SettleTurn(st);
  }
}
