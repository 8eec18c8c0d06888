/** Messages one after the other. */
module HttpConversations {
  import opened HttpChars
  import opened HttpFraming
  import opened HttpMachine
  import opened HttpMessages
  import opened HttpMessageReading
  import opened HttpReading
  import opened HttpRun

  function MessagesText(ms: seq<Message>): seq<Byte> {
    if ms == [] then [] else MessageText(ms[0]) + MessagesText(ms[1..])
  }

  function MessagesEvents(ms: seq<Message>): seq<Event> {
    if ms == [] then [] else MessageEvents(ms[0]) + MessagesEvents(ms[1..])
  }

  /** Each message keeps the connection open for the next one. */
  predicate Follow(ms: seq<Message>) { forall k :: 0 <= k < |ms| - 1 ==> KeepsAlive(ms[k]) }

  /** Well-formed messages for a parser that waits for one. */
  predicate Conversation(p: Parser, ms: seq<Message>) {
    p.errno.OK? && Follow(ms) && forall m :: m in ms ==> MessageOk(m) && Awaits(p, m)
  }

  /** A conversation is read as its messages; nothing of one ends up in another. */
  lemma {:induction false} ReadMessages(p: Parser, t: seq<Event>, s: seq<Byte>, i: nat, a: Settings,
      ms: seq<Message>) returns (r: Parser)
    requires Conversation(p, ms) && a.answer.Proceed? && Stands(s, i, MessagesText(ms))
    ensures Rest(p, t, s, i, a) == Rest(r, t + MessagesEvents(ms), s, i + |MessagesText(ms)|, a)
    ensures r.errno.OK? && if ms == [] then r == p else Tells(r, ms[|ms| - 1])
    decreases |ms|
  {
    hide Rest, Stands, MessageOk, MessageText, MessageEvents, KeepsAlive, Told, Tells, Awaits;
    if ms == [] {
      r := p;
      assert t + [] == t;
    } else {
      var m := ms[0];
      assert m in ms;
      MoreMessages(t, ms);
      StandsBoth(s, i, MessageText(m), MessagesText(ms[1..]));
      r := ReadMessage(p, t, s, i, a, m);
      ToldIsTells(p, r, m);
      if |ms| > 1 {
        NextAwaits(p, r, ms);
        hide Conversation;
        r := ReadMessages(r, t + MessageEvents(m), s, i + |MessageText(m)|, a, ms[1..]);
      }
    }
  }

  lemma MoreMessages(t: seq<Event>, ms: seq<Message>)
    requires ms != []
    ensures MessagesText(ms) == MessageText(ms[0]) + MessagesText(ms[1..])
    ensures t + MessagesEvents(ms) == t + MessageEvents(ms[0]) + MessagesEvents(ms[1..])
    ensures |ms| == 1 ==>
        t + MessagesEvents(ms) == t + MessageEvents(ms[0]) && |MessagesText(ms)| == |MessageText(ms[0])|
  {
    hide MessageText, MessageEvents;
    assert t + MessageEvents(ms[0]) + MessagesEvents(ms[1..]) == t + (MessageEvents(ms[0]) + MessagesEvents(ms[1..]));
  }

  lemma ToldIsTells(p: Parser, r: Parser, m: Message)
    requires Told(p, r, m)
    ensures Tells(r, m) && r.errno.OK?
  {
  }

  /** After a message that keeps the connection open, the rest of the conversation follows. */
  lemma NextAwaits(p: Parser, q: Parser, ms: seq<Message>)
    requires Conversation(p, ms) && |ms| > 1 && Told(p, q, ms[0])
    ensures Conversation(q, ms[1..])
  {
    hide MessageOk, KeepsAlive, FlagsAfter, Decimal;
    assert KeepsAlive(ms[0]) && ms[0] in ms;
    forall n | n in ms[1..]
      ensures MessageOk(n) && Awaits(q, n)
    {
      assert n in ms;
    }
    assert forall k :: 0 <= k < |ms[1..]| - 1 ==> ms[1..][k] == ms[k + 1];
  }
}
