/**
  The canary that drives the transactional producer (cmd/canary/main.go): at each tick it produces one
  transaction, and after a fatal error it recreates the producer, which may fail as well.
*/
module Canary {
  import opened Basics
  import opened TxProducer

  const MESSAGES_PER_TICK := 5

  /** A tick: the time it stamps its messages with, and what creating a new client would yield. */
  datatype Tick = Tick(time: Message, created: Option<seq<Answer>>)

  datatype State = State(client: Client, cancelled: bool)

  function Messages(t: Tick): (r: seq<Message>)
    ensures |r| == 5 && forall m :: m in r ==> m == t.time
  {
    seq(MESSAGES_PER_TICK, _ => t.time)
  }

  /** Credentials were refused: the error's text is one of `denied`. Errors that wrap another one never are. */
  predicate Unauthorized(e: TxError, denied: set<string>) {
    e.Plain? && e.text in denied
  }

  function Ticked(s: State, t: Tick, denied: set<string>): State {
    if s.cancelled then s
    else
      var out := Transaction(s.client, Messages(t));
      if out.result.Produced? then State(out.client, false)
      else if Unauthorized(out.result.error, denied) then State(out.client, true)
      else if out.result.error.FatalProducer? && t.created.Some? then State(Fresh(out.client, t.created.value), false)
      else State(out.client, false)
  }

  class Canary {
    const prodtx: Producer
    const denied: set<string>
    var cancelled: bool

    constructor (prodtx: Producer, denied: set<string>)
      ensures this.prodtx == prodtx && this.denied == denied && !cancelled
    {
      this.prodtx, this.denied, cancelled := prodtx, denied, false;
    }

    method ProduceTx(t: Tick)
      modifies this, prodtx, prodtx.producer
      ensures State(prodtx.producer.client, cancelled)
              == Ticked(old(State(prodtx.producer.client, cancelled)), t, denied)
    {
      if cancelled {
        return;
      }
      var messages: seq<Message> := [];
      for i := 0 to MESSAGES_PER_TICK
        invariant messages == Messages(t)[..i]
      {
        messages := messages + [t.time];
      }
      assert messages == Messages(t);
      var r := prodtx.ProduceTx(messages);
      if r.Failed? {
        if Unauthorized(r.error, denied) {
          cancelled := true;
          return;
        }
        if r.error.FatalProducer? {
          var failed := prodtx.Recreate(t.created);
        }
      }
    }
  }

  // ----- Runs -----

  function Run(s: State, ticks: seq<Tick>, denied: set<string>): State
    decreases |ticks|
  {
    if ticks == [] then s else Ticked(Run(s, ticks[..|ticks| - 1], denied), ticks[|ticks| - 1], denied)
  }

  predicate IsProduced(s: State, t: Tick) {
    !s.cancelled && Transaction(s.client, Messages(t)).result.Produced?
  }

  /** The tick meets a fatal error that it reacts to by recreating the producer. */
  predicate MeetsFatal(s: State, t: Tick) {
    && !s.cancelled
    && var r := Transaction(s.client, Messages(t)).result;
    && r.Failed? && r.error.FatalProducer?
  }

  /** Every fatal error of the run is followed by a Recreate that succeeds. */
  predicate AlwaysRecreated(s: State, ticks: seq<Tick>, denied: set<string>) {
    forall i :: 0 <= i < |ticks| && MeetsFatal(Run(s, ticks[..i], denied), ticks[i]) ==> ticks[i].created.Some?
  }

  /** What the ticks that reported success produced. */
  function Produce(s: State, ticks: seq<Tick>, denied: set<string>): seq<Message>
    decreases |ticks|
  {
    if ticks == [] then []
    else
      var front, t := ticks[..|ticks| - 1], ticks[|ticks| - 1];
      Produce(s, front, denied) + if IsProduced(Run(s, front, denied), t) then Messages(t) else []
  }

  predicate BeginsWhileOpen(call: Call) {
    call.BeginCall? && call.whileOpen
  }

  /** The calls of one tick follow the protocol, and the only begin notes whether a transaction was open. */
  lemma TickFollows(s: State, t: Tick, denied: set<string>)
    ensures var next := Ticked(s, t, denied);
            && s.client.calls <= next.client.calls
            && Replay(Start, NewCalls(s.client, next.client), Messages(t)).Some?
            && forall i :: 0 <= i < |NewCalls(s.client, next.client)| ==>
                 var call := NewCalls(s.client, next.client)[i];
                 call.BeginCall? ==> i == 0 && call.whileOpen == s.client.open
  {
    var next := Ticked(s, t, denied);
    var calls := NewCalls(s.client, next.client);
    if s.cancelled {
      assert calls == [];
    } else {
      ProduceTxFollows(s.client, Messages(t));
      forall i | 0 <= i < |calls|
        ensures calls[i].BeginCall? ==> i == 0 && calls[i].whileOpen == s.client.open
      {
        ProduceTxShape(s.client, Messages(t), i);
        FirstCall(s.client, Messages(t));
      }
    }
  }

  /** Exactly when a tick begins a transaction while one is open. */
  lemma BeginsWhileOpenIff(s: State, t: Tick, denied: set<string>)
    ensures var next := Ticked(s, t, denied);
            (exists call :: call in NewCalls(s.client, next.client) && BeginsWhileOpen(call))
            <==> !s.cancelled && s.client.open && !IsFatal(s.client)
  {
    var next := Ticked(s, t, denied);
    var calls := NewCalls(s.client, next.client);
    TickFollows(s, t, denied);
    FirstCall(s.client, Messages(t));
    if !s.cancelled && !IsFatal(s.client) && s.client.open {
      assert calls[0] in calls && BeginsWhileOpen(calls[0]);
    }
  }

  /** From a closed client, exactly a fatal error that is not followed by a new client can leave one open. */
  lemma TickCloses(s: State, t: Tick, denied: set<string>)
    requires !s.client.open
    ensures var next := Ticked(s, t, denied);
            && next.client.committed == s.client.committed + (if IsProduced(s, t) then Messages(t) else [])
            && (next.client.open ==> MeetsFatal(s, t) && t.created.None?)
  {
    ProduceTxAllOrNothing(s.client, Messages(t));
  }

  lemma RecreatedFront(s: State, ticks: seq<Tick>, denied: set<string>)
    requires ticks != [] && AlwaysRecreated(s, ticks, denied)
    ensures var front, t := ticks[..|ticks| - 1], ticks[|ticks| - 1];
            && AlwaysRecreated(s, front, denied)
            && (MeetsFatal(Run(s, front, denied), t) ==> t.created.Some?)
  {
    hide Run, MeetsFatal;
    var front := ticks[..|ticks| - 1];
    forall i | 0 <= i < |front|
      ensures front[..i] == ticks[..i]
    {}
  }

  /**
    If every fatal error is followed by a successful Recreate, no transaction is ever begun while one is
    open, and the topic grows by exactly what was reported as produced, in order.
  */
  lemma {:induction false} RecreatedRunsAreClean(s: State, ticks: seq<Tick>, denied: set<string>)
    requires !s.client.open && AlwaysRecreated(s, ticks, denied)
    ensures var end := Run(s, ticks, denied).client;
            && !end.open
            && end.committed == s.client.committed + Produce(s, ticks, denied)
            && s.client.calls <= end.calls
            && forall call :: call in NewCalls(s.client, end) ==> !BeginsWhileOpen(call)
    decreases |ticks|
  {
    hide Ticked, Transaction, Replay, MeetsFatal, IsProduced, Messages;
    if ticks == [] {
      assert NewCalls(s.client, s.client) == [];
    } else {
      var front, t := ticks[..|ticks| - 1], ticks[|ticks| - 1];
      var mid, end := Run(s, front, denied), Run(s, ticks, denied);
      RecreatedFront(s, ticks, denied);
      RecreatedRunsAreClean(s, front, denied);
      TickCloses(mid, t, denied);
      TickFollows(mid, t, denied);
      assert NewCalls(s.client, end.client) == NewCalls(s.client, mid.client) + NewCalls(mid.client, end.client);
    }
  }

  /** Every run's calls are those of its ticks, one after the other, each following the protocol. */
  lemma {:induction false} RunsFollow(s: State, ticks: seq<Tick>, denied: set<string>, i: nat)
    requires i < |ticks|
    ensures var before, after := Run(s, ticks[..i], denied).client, Run(s, ticks[..i + 1], denied).client;
            && before.calls <= after.calls <= Run(s, ticks, denied).client.calls
            && Replay(Start, NewCalls(before, after), Messages(ticks[i])).Some?
    decreases |ticks|
  {
    var front, t := ticks[..|ticks| - 1], ticks[|ticks| - 1];
    TickFollows(Run(s, front, denied), t, denied);
    if i == |front| {
      assert ticks[..i + 1] == ticks && ticks[..i] == front;
    } else {
      RunsFollow(s, front, denied, i);
      assert front[..i] == ticks[..i] && front[..i + 1] == ticks[..i + 1];
    }
  }

  const REFUSED := Refused("", {AbortableError})

  const UNLUCKY := State(Client({Ready}, false, [], [Done(0, 0), REFUSED, REFUSED], [], []), false)

  const STUCK := Tick("", None)

  lemma UnluckyTick()
    ensures var next := Ticked(UNLUCKY, STUCK, {});
            next.client.open && !IsFatal(next.client) && !next.cancelled
  {
    var c := UNLUCKY.client;
    assert Messages(STUCK) != [];
    assert Ticked(UNLUCKY, STUCK, {}).client == Abort(Send(Begin(c), ""));
  }

  /** A failed Recreate is not harmless: after a refused send and a refused abort the next tick begins while open. */
  lemma FailedRecreateBeginsWhileOpen()
    ensures !UNLUCKY.client.open && !UNLUCKY.cancelled
    ensures exists call :: call in NewCalls(UNLUCKY.client, Run(UNLUCKY, [STUCK, STUCK], {}).client)
                           && BeginsWhileOpen(call)
  {
    UnluckyTick();
    var mid := Ticked(UNLUCKY, STUCK, {});
    var end := Ticked(mid, STUCK, {});
    TickFollows(UNLUCKY, STUCK, {});
    TickFollows(mid, STUCK, {});
    BeginsWhileOpenIff(mid, STUCK, {});
    hide Ticked, IsFatal, Replay, Messages;
    assert [STUCK, STUCK][..1] == [STUCK] && [STUCK][..0] == [];
    assert Run(UNLUCKY, [], {}) == UNLUCKY;
    assert Run(UNLUCKY, [STUCK], {}) == mid;
    assert Run(UNLUCKY, [STUCK, STUCK], {}) == end;
    var call :| call in NewCalls(mid.client, end.client) && BeginsWhileOpen(call);
    assert call in NewCalls(UNLUCKY.client, end.client);
  }

  /**
    After a fatal error and a successful Recreate there is a new client, ready and without a transaction, and the
    topic is as it was. In no other case is the client replaced.
  */
  lemma RecreatedIff(s: State, t: Tick, denied: set<string>)
    ensures var next, left := Ticked(s, t, denied).client, Transaction(s.client, Messages(t)).client;
            if s.cancelled then next == s.client
            else if MeetsFatal(s, t) && t.created.Some? then
              && next.flags == {Ready} && !next.open && next.answers == t.created.value
              && next.committed == left.committed && next.calls == left.calls
            else next == left
  {
    hide Transaction;
  }

  /** The canary is cancelled exactly by an error that is one of `denied`, and then for good. */
  lemma CancelledIff(s: State, t: Tick, denied: set<string>)
    ensures var next, r := Ticked(s, t, denied), Transaction(s.client, Messages(t)).result;
            next.cancelled <==> s.cancelled || (r.Failed? && r.error.Plain? && r.error.text in denied)
    ensures s.cancelled ==> Ticked(s, t, denied) == s
  {
    hide Transaction;
  }
}
