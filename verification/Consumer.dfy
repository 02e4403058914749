/**
  The claim consumer (pkg/kafka/consumer/consumer.go): every message is given to the callback until it
  answers retry = false, and then marked. With it the callback of the canary (pkg/canary/kafka/consumer.go).

  A callback may ask for retries for ever and a session may end at any moment, so consuming is given a
  number of steps (callback calls and marks) after which it is cut off; what is proved holds for every number.
*/
module Consumer {
  import opened Basics

  datatype Record = Record(offset: int, partition: int, value: string)

  datatype Answer = Answer(retry: bool, failed: bool)

  datatype Event = Called(message: Record, answer: Answer) | Marked(message: Record)

  datatype CanaryMessage = CanaryMessage(offset: int, time: int, partition: int)

  /** What a callback does: anything that may depend on how often it has been called, or what the canary does. */
  datatype Behaviour =
    | Scripted(script: (Record, nat) -> Answer)
    | Canary(parse: string -> Option<int>)

  function AnswerTo(b: Behaviour, m: Record, calls: nat): Answer {
    match b
    case Scripted(script) => script(m, calls)
    case Canary(parse) => Answer(false, parse(m.value).None?)
  }

  /** What the callback sends on its channel for one message. */
  function SentFor(b: Behaviour, m: Record): seq<CanaryMessage> {
    if b.Canary? && b.parse(m.value).Some? then [CanaryMessage(m.offset, b.parse(m.value).value, m.partition)] else []
  }

  /** A session in the middle of a claim: what happened, how many messages are marked, and what the callback did. */
  datatype Session = Session(events: seq<Event>, marked: nat, retry: bool, calls: nat, cons: seq<CanaryMessage>)

  function Begin(calls: nat, cons: seq<CanaryMessage>): Session {
    Session([], 0, true, calls, cons)
  }

  /** One step: a call for the first unmarked message, or its mark once the answer was final. */
  function Step(b: Behaviour, messages: seq<Record>, s: Session): Session {
    if s.marked >= |messages| then s
    else
      var m := messages[s.marked];
      if s.retry then
        var a := AnswerTo(b, m, s.calls);
        Session(s.events + [Called(m, a)], s.marked, a.retry, s.calls + 1, s.cons + SentFor(b, m))
      else Session(s.events + [Marked(m)], s.marked + 1, true, s.calls, s.cons)
  }

  function Consume(b: Behaviour, messages: seq<Record>, start: Session, steps: nat): Session {
    if steps == 0 then start else Step(b, messages, Consume(b, messages, start, steps - 1))
  }

  function Marks(events: seq<Event>): seq<Record> {
    if events == [] then []
    else
      var front, e := events[..|events| - 1], events[|events| - 1];
      if e.Marked? then Marks(front) + [e.message] else Marks(front)
  }

  function Calls(events: seq<Event>): seq<Record> {
    if events == [] then []
    else
      var front, e := events[..|events| - 1], events[|events| - 1];
      if e.Called? then Calls(front) + [e.message] else Calls(front)
  }

  function SentForAll(b: Behaviour, messages: seq<Record>): seq<CanaryMessage> {
    if messages == [] then []
    else SentForAll(b, messages[..|messages| - 1]) + SentFor(b, messages[|messages| - 1])
  }

  lemma {:induction false} DoneStays(b: Behaviour, messages: seq<Record>, start: Session, steps: nat, more: nat)
    requires Consume(b, messages, start, steps).marked >= |messages|
    ensures Consume(b, messages, start, steps + more) == Consume(b, messages, start, steps)
  {
    if more > 0 {
      DoneStays(b, messages, start, steps, more - 1);
    }
  }

  class Callback {
    const behaviour: Behaviour
    var calls: nat
    var cons: seq<CanaryMessage>

    constructor (behaviour: Behaviour)
      ensures this.behaviour == behaviour && calls == 0 && cons == []
    {
      this.behaviour, calls, cons := behaviour, 0, [];
    }

    method Callback(m: Record) returns (a: Answer)
      modifies this
      ensures a == AnswerTo(behaviour, m, old(calls))
      ensures calls == old(calls) + 1 && cons == old(cons) + SentFor(behaviour, m)
    {
      a := AnswerTo(behaviour, m, calls);
      calls := calls + 1;
      if behaviour.Canary? {
        var t := behaviour.parse(m.value);
        if t.Some? {
          cons := cons + [CanaryMessage(m.offset, t.value, m.partition)];
        }
      }
    }
  }

  class Consumer {
    const callback: Callback

    constructor (callback: Callback)
      ensures this.callback == callback
    {
      this.callback := callback;
    }

    /** Consumes a claim, or as much of it as `steps` allow. */
    method ConsumeClaim(messages: seq<Record>, steps: nat) returns (events: seq<Event>, marked: nat, retry: bool)
      modifies callback
      ensures Session(events, marked, retry, callback.calls, callback.cons)
              == Consume(callback.behaviour, messages, Begin(old(callback.calls), old(callback.cons)), steps)
    {
      ghost var b, start := callback.behaviour, Begin(callback.calls, callback.cons);
      var left: nat := steps;
      events, marked, retry := [], 0, true;
      while marked < |messages|
        invariant retry && marked <= |messages| && left <= steps
        invariant Session(events, marked, retry, callback.calls, callback.cons)
                  == Consume(b, messages, start, steps - left)
      {
        var message := messages[marked];
        while retry
          invariant left <= steps
          invariant Session(events, marked, retry, callback.calls, callback.cons)
                    == Consume(b, messages, start, steps - left)
          decreases left, retry
        {
          if left == 0 {
            return;
          }
          var a := callback.Callback(message);
          events, left, retry := events + [Called(message, a)], left - 1, a.retry;
        }
        if left == 0 {
          return;
        }
        events, marked, left, retry := events + [Marked(message)], marked + 1, left - 1, true;
      }
      DoneStays(b, messages, start, steps - left, left);
    }
  }

  // ----- Order -----

  /**
    Event i belongs to the first unmarked message; a mark comes right after a final answer, a call after a
    retry or a mark.
  */
  predicate InOrder(events: seq<Event>, messages: seq<Record>, i: nat)
    requires i < |events|
  {
    var k := |Marks(events[..i])|;
    && k < |messages| && events[i].message == messages[k]
    && (events[i].Marked? ==>
          i > 0 && events[i - 1].Called? && events[i - 1].message == messages[k] && !events[i - 1].answer.retry)
    && (events[i].Called? && i > 0 ==>
          events[i - 1].Marked? || (events[i - 1].message == messages[k] && events[i - 1].answer.retry))
  }

  /** In every session, however far it came. */
  predicate Sound(messages: seq<Record>, s: Session) {
    && s.marked <= |messages| && Marks(s.events) == messages[..s.marked]
    && (forall i :: 0 <= i < |s.events| ==> InOrder(s.events, messages, i))
    && (s.retry ==> s.events == [] || Last(s.events).Marked?
                    || (s.marked < |messages| && Last(s.events).message == messages[s.marked]
                        && Last(s.events).answer.retry))
    && (!s.retry ==> s.events != [] && s.marked < |messages| && Last(s.events).Called?
                     && Last(s.events).message == messages[s.marked] && !Last(s.events).answer.retry)
  }

  function Last(events: seq<Event>): Event
    requires events != []
  {
    events[|events| - 1]
  }

  lemma OrderSnoc(events: seq<Event>, messages: seq<Record>, e: Event)
    requires forall i :: 0 <= i < |events| ==> InOrder(events, messages, i)
    requires InOrder(events + [e], messages, |events|)
    ensures forall i :: 0 <= i < |events + [e]| ==> InOrder(events + [e], messages, i)
  {
    hide Marks;
    forall i | 0 <= i < |events|
      ensures InOrder(events + [e], messages, i)
    {
      assert InOrder(events, messages, i);
      assert (events + [e])[..i] == events[..i];
    }
  }

  lemma StepIsSound(b: Behaviour, messages: seq<Record>, s: Session)
    requires Sound(messages, s)
    ensures Sound(messages, Step(b, messages, s))
  {
    if s.marked < |messages| {
      var next := Step(b, messages, s);
      var e := Last(next.events);
      assert next.events == s.events + [e];
      assert next.events[..|s.events|] == s.events;
      OrderSnoc(s.events, messages, e);
    }
  }

  /**
    Each message is marked exactly once, in claim order, right after its callback gave the final answer, and
    no call for a message comes before the mark of the one before it.
  */
  lemma {:induction false} ConsumeIsSound(b: Behaviour, messages: seq<Record>, calls: nat, cons: seq<CanaryMessage>,
                                          steps: nat)
    ensures Sound(messages, Consume(b, messages, Begin(calls, cons), steps))
  {
    if steps > 0 {
      ConsumeIsSound(b, messages, calls, cons, steps - 1);
      StepIsSound(b, messages, Consume(b, messages, Begin(calls, cons), steps - 1));
    }
  }

  /** The callback has been called for exactly the calls recorded, and the channel got what it sends for them. */
  lemma {:induction false} ChannelGetsCalls(b: Behaviour, messages: seq<Record>, calls: nat, cons: seq<CanaryMessage>,
                                            steps: nat)
    ensures var s := Consume(b, messages, Begin(calls, cons), steps);
            s.calls == calls + |Calls(s.events)| && s.cons == cons + SentForAll(b, Calls(s.events))
  {
    if steps > 0 {
      ChannelGetsCalls(b, messages, calls, cons, steps - 1);
      StepKeepsChannel(b, messages, Consume(b, messages, Begin(calls, cons), steps - 1), calls, cons);
    }
  }

  lemma CallsSnoc(b: Behaviour, events: seq<Event>, e: Event)
    ensures Calls(events + [e]) == if e.Called? then Calls(events) + [e.message] else Calls(events)
    ensures e.Called? ==> SentForAll(b, Calls(events + [e])) == SentForAll(b, Calls(events)) + SentFor(b, e.message)
  {
    assert (events + [e])[..|events|] == events;
    assert e.Called? ==> (Calls(events) + [e.message])[..|Calls(events)|] == Calls(events);
  }

  lemma StepKeepsChannel(b: Behaviour, messages: seq<Record>, s: Session, calls: nat, cons: seq<CanaryMessage>)
    requires s.calls == calls + |Calls(s.events)| && s.cons == cons + SentForAll(b, Calls(s.events))
    ensures var next := Step(b, messages, s);
            next.calls == calls + |Calls(next.events)| && next.cons == cons + SentForAll(b, Calls(next.events))
  {
    hide Calls, SentForAll, SentFor, AnswerTo;
    if s.marked < |messages| {
      CallsSnoc(b, s.events, Last(Step(b, messages, s).events));
    }
  }

  /** A later session that starts behind the last mark and completes leaves every message marked exactly once. */
  lemma SessionsCompose(b: Behaviour, later: Behaviour, messages: seq<Record>, steps: nat, more: nat)
    ensures var first := Consume(b, messages, Begin(0, []), steps);
            && first.marked <= |messages|
            && var second := Consume(later, messages[first.marked..], Begin(0, []), more);
            && second.marked <= |messages| - first.marked
            && Marks(first.events) + Marks(second.events) == messages[..first.marked + second.marked]
  {
    hide Consume, Marks, InOrder;
    ConsumeIsSound(b, messages, 0, [], steps);
    var first := Consume(b, messages, Begin(0, []), steps);
    ConsumeIsSound(later, messages[first.marked..], 0, [], more);
  }

  /** One call per message so far, and no step was wasted. */
  predicate OneCallEach(messages: seq<Record>, s: Session, steps: nat) {
    var called := if s.retry then s.marked else s.marked + 1;
    && s.marked + called == (if steps <= 2 * |messages| then steps else 2 * |messages|)
    && called <= |messages| && Calls(s.events) == messages[..called]
  }

  lemma CanaryStep(parse: string -> Option<int>, messages: seq<Record>, s: Session, steps: nat)
    requires OneCallEach(messages, s, steps)
    ensures OneCallEach(messages, Step(Canary(parse), messages, s), steps + 1)
  {
    hide Calls;
    if s.marked < |messages| {
      CallsSnoc(Canary(parse), s.events, Last(Step(Canary(parse), messages, s).events));
    }
  }

  /** With the canary's callback there is one call per message, and two steps per message suffice. */
  lemma {:induction false} CanaryCallsOnce(parse: string -> Option<int>, messages: seq<Record>, calls: nat,
                                           cons: seq<CanaryMessage>, steps: nat)
    ensures OneCallEach(messages, Consume(Canary(parse), messages, Begin(calls, cons), steps), steps)
  {
    if steps > 0 {
      CanaryCallsOnce(parse, messages, calls, cons, steps - 1);
      CanaryStep(parse, messages, Consume(Canary(parse), messages, Begin(calls, cons), steps - 1), steps - 1);
    }
  }

  /** The canary never asks for a retry; it reports an error exactly for what it cannot parse and does not send. */
  lemma CanaryAnswers(parse: string -> Option<int>, m: Record, calls: nat)
    ensures var a := AnswerTo(Canary(parse), m, calls);
            !a.retry && (a.failed <==> parse(m.value).None?) && (a.failed <==> SentFor(Canary(parse), m) == [])
  {
  }

  /** SentForAll seen from the channel: the parse of every message that has one, in the messages' order. */
  predicate ParsedInOrder(parse: string -> Option<int>, messages: seq<Record>, sent: seq<CanaryMessage>) {
    var good := Filter(messages, (m: Record) => parse(m.value).Some?);
    && |sent| == |good|
    && forall i :: 0 <= i < |good| ==> Some(sent[i].time) == parse(good[i].value)
                                       && sent[i].offset == good[i].offset && sent[i].partition == good[i].partition
  }

  lemma {:induction false} CanarySendsParseable(parse: string -> Option<int>, messages: seq<Record>)
    ensures ParsedInOrder(parse, messages, SentForAll(Canary(parse), messages))
  {
    if messages != [] {
      CanarySendsParseable(parse, messages[..|messages| - 1]);
    }
  }

  /** A claim consumed to its end by the canary: its channel got the parseable messages, in order. */
  lemma CanaryChannel(parse: string -> Option<int>, messages: seq<Record>, calls: nat, steps: nat)
    requires steps >= 2 * |messages|
    ensures var s := Consume(Canary(parse), messages, Begin(calls, []), steps);
            Marks(s.events) == Calls(s.events) == messages && ParsedInOrder(parse, messages, s.cons)
  {
    var s := Consume(Canary(parse), messages, Begin(calls, []), steps);
    CanaryCallsOnce(parse, messages, calls, [], steps);
    ConsumeIsSound(Canary(parse), messages, calls, [], steps);
    ChannelGetsCalls(Canary(parse), messages, calls, [], steps);
    CanarySendsParseable(parse, messages);
    assert messages[..|messages|] == messages;
    assert [] + SentForAll(Canary(parse), messages) == SentForAll(Canary(parse), messages);
  }
}
