/**
  The transactional producer (pkg/kafka/producer/producer.go) on top of the Kafka client's transaction
  manager, whose answers are scripted. A refused begin opens nothing, a refused commit commits nothing,
  and an abort that succeeds discards what was sent; a refused call can leave any status flags behind.
*/
module TxProducer {
  import opened Basics

  type Message = string

  datatype Flag =
    | Uninitialized | Initializing | Ready | InTransaction | EndTransaction
    | InError | CommittingTransaction | AbortingTransaction | AbortableError | FatalError

  datatype Answer = Done(partition: int, offset: int) | Refused(text: string, flags: set<Flag>)

  datatype Call =
    | BeginCall(answer: Answer, whileOpen: bool)
    | SendCall(message: Message, answer: Answer)
    | CommitCall(answer: Answer)
    | AbortCall(answer: Answer)

  /**
    A client: its status flags, whether a transaction is open and what was sent in it, and the answers to
    come. `committed` is the topic's content and `calls` the record of all calls; both outlive the client.
  */
  datatype Client = Client(
    flags: set<Flag>,
    open: bool,
    pending: seq<Message>,
    answers: seq<Answer>,
    committed: seq<Message>,
    calls: seq<Call>)

  function Next(c: Client): Answer {
    if c.answers == [] then Done(0, |c.committed| + |c.pending|) else c.answers[0]
  }

  /** The client with one answer used up, and the flags a refusal leaves. */
  function Answered(c: Client, call: Call): Client {
    var a := Next(c);
    c.(answers := if c.answers == [] then [] else c.answers[1..],
       flags := if a.Refused? then a.flags else c.flags,
       calls := c.calls + [call])
  }

  function Begin(c: Client): Client {
    var next := Answered(c, BeginCall(Next(c), c.open));
    if Next(c).Refused? then next else next.(flags := {InTransaction}, open := true, pending := [])
  }

  function Send(c: Client, m: Message): Client {
    var next := Answered(c, SendCall(m, Next(c)));
    if Next(c).Refused? then next else next.(pending := c.pending + [m])
  }

  function Commit(c: Client): Client {
    var next := Answered(c, CommitCall(Next(c)));
    if Next(c).Refused? then next
    else next.(flags := {Ready}, open := false, pending := [], committed := c.committed + c.pending)
  }

  function Abort(c: Client): Client {
    var next := Answered(c, AbortCall(Next(c)));
    if Next(c).Refused? then next else next.(flags := {Ready}, open := false, pending := [])
  }

  predicate IsFatal(c: Client) {
    FatalError in c.flags || c.flags == {Uninitialized}
  }

  /** FatalProducer is any error that wraps ErrFatalProducer. */
  datatype TxError = FatalProducer(text: string) | Plain(text: string) | CommitFailed(text: string)

  datatype TxResult = Produced(partition: int, offset: int) | Failed(error: TxError)

  datatype Outcome = Outcome(client: Client, result: TxResult)

  const MAX_COMMITS := 3

  /** Aborts after `e`; if that fails as well the producer is stuck. */
  function GiveUp(c: Client, e: TxError): Outcome {
    Outcome(Abort(c), Failed(if Next(c).Refused? then FatalProducer(e.text + Next(c).text) else e))
  }

  function CommitUpTo(c: Client, tries: nat, partition: int, offset: int, last: string): Outcome
    decreases tries
  {
    if tries == 0 then GiveUp(c, CommitFailed(last))
    else
      var a, next := Next(c), Commit(c);
      if a.Done? then Outcome(next, Produced(partition, offset))
      else if IsFatal(next) then Outcome(next, Failed(FatalProducer(a.text)))
      else CommitUpTo(next, tries - 1, partition, offset, a.text)
  }

  function SendAll(c: Client, msgs: seq<Message>, partition: int, offset: int): Outcome
    decreases |msgs|
  {
    if msgs == [] then CommitUpTo(c, MAX_COMMITS, partition, offset, "")
    else
      var a, next := Next(c), Send(c, msgs[0]);
      if a.Refused? then GiveUp(next, Plain(a.text))
      else SendAll(next, msgs[1..], a.partition, a.offset)
  }

  function Transaction(c: Client, msgs: seq<Message>): Outcome {
    if IsFatal(c) then Outcome(c, Failed(FatalProducer("")))
    else
      var a, next := Next(c), Begin(c);
      if a.Refused? then Outcome(next, Failed(if IsFatal(next) then FatalProducer(a.text) else Plain(a.text)))
      else SendAll(next, msgs, 0, 0)
  }

  class SyncProducer {
    var client: Client

    constructor (client: Client)
      ensures this.client == client
    {
      this.client := client;
    }

    method BeginTxn() returns (a: Answer)
      modifies this
      ensures a == Next(old(client)) && client == Begin(old(client))
    {
      a, client := Next(client), Begin(client);
    }

    method SendMessage(m: Message) returns (a: Answer)
      modifies this
      ensures a == Next(old(client)) && client == Send(old(client), m)
    {
      a, client := Next(client), Send(client, m);
    }

    method CommitTxn() returns (a: Answer)
      modifies this
      ensures a == Next(old(client)) && client == Commit(old(client))
    {
      a, client := Next(client), Commit(client);
    }

    method AbortTxn() returns (a: Answer)
      modifies this
      ensures a == Next(old(client)) && client == Abort(old(client))
    {
      a, client := Next(client), Abort(client);
    }
  }

  /** The client of a producer that has just been created. */
  function Fresh(c: Client, answers: seq<Answer>): Client {
    Client({Ready}, false, [], answers, c.committed, c.calls)
  }

  class Producer {
    var producer: SyncProducer

    constructor (producer: SyncProducer)
      ensures this.producer == producer
    {
      this.producer := producer;
    }

    /** `created` is what creating the new client yields, None if that fails; then the old one stays. */
    method Recreate(created: Option<seq<Answer>>) returns (failed: bool)
      modifies this
      ensures failed <==> created.None?
      ensures failed ==> producer == old(producer)
      ensures !failed ==> fresh(producer) && producer.client == Fresh(old(producer.client), created.value)
    {
      if created.None? {
        return true;
      }
      producer := new SyncProducer(Fresh(producer.client, created.value));
      return false;
    }

    method ProduceTx(msgs: seq<Message>) returns (r: TxResult)
      modifies producer
      ensures Outcome(producer.client, r) == Transaction(old(producer.client), msgs)
    {
      if IsFatal(producer.client) {
        return Failed(FatalProducer(""));
      }
      var begun := producer.BeginTxn();
      if begun.Refused? {
        return Failed(if IsFatal(producer.client) then FatalProducer(begun.text) else Plain(begun.text));
      }

      var partition, offset := 0, 0;
      for i := 0 to |msgs|
        invariant SendAll(producer.client, msgs[i..], partition, offset)
                  == Transaction(old(producer.client), msgs)
      {
        assert msgs[i..][1..] == msgs[i + 1..];
        var sent := producer.SendMessage(msgs[i]);
        if sent.Refused? {
          var aborted := producer.AbortTxn();
          if aborted.Refused? {
            return Failed(FatalProducer(sent.text + aborted.text));
          }
          return Failed(Plain(sent.text));
        }
        partition, offset := sent.partition, sent.offset;
      }

      var last := "";
      for tries := 0 to MAX_COMMITS
        invariant CommitUpTo(producer.client, MAX_COMMITS - tries, partition, offset, last)
                  == Transaction(old(producer.client), msgs)
      {
        var committed := producer.CommitTxn();
        if committed.Done? {
          return Produced(partition, offset);
        }
        last := committed.text;
        if IsFatal(producer.client) {
          return Failed(FatalProducer(last));
        }
      }
      var aborted := producer.AbortTxn();
      if aborted.Refused? {
        return Failed(FatalProducer(last + aborted.text));
      }
      return Failed(CommitFailed(last));
    }
  }

  // ----- All or nothing -----

  lemma {:induction false} CommitsAllOrNothing(c: Client, tries: nat, partition: int, offset: int, last: string)
    requires c.open
    ensures AllOrNothing(c, c.pending, CommitUpTo(c, tries, partition, offset, last))
    decreases tries
  {
    if tries > 0 && Next(c).Refused? && !IsFatal(Commit(c)) {
      CommitsAllOrNothing(Commit(c), tries - 1, partition, offset, Next(c).text);
    }
  }

  /**
    Either `msgs` are in the topic, after what was there, or nothing is, and only a fatal error can leave a
    transaction open.
  */
  predicate AllOrNothing(c: Client, msgs: seq<Message>, out: Outcome) {
    && (out.result.Produced? ==> out.client.committed == c.committed + msgs && !out.client.open)
    && (out.result.Failed? ==>
          && out.client.committed == c.committed
          && (out.client.open ==> out.result.error.FatalProducer?))
  }

  lemma {:induction false} SendsAllOrNothing(c: Client, msgs: seq<Message>, partition: int, offset: int)
    requires c.open
    ensures AllOrNothing(c, c.pending + msgs, SendAll(c, msgs, partition, offset))
    decreases |msgs|
  {
    if msgs == [] {
      assert c.pending + msgs == c.pending;
      CommitsAllOrNothing(c, MAX_COMMITS, partition, offset, "");
    } else if Next(c).Done? {
      assert c.pending + msgs == (c.pending + [msgs[0]]) + msgs[1..];
      SendsAllOrNothing(Send(c, msgs[0]), msgs[1..], Next(c).partition, Next(c).offset);
    }
  }

  /** ProduceTx commits all messages in order or none of them. */
  lemma ProduceTxAllOrNothing(c: Client, msgs: seq<Message>)
    requires !c.open
    ensures AllOrNothing(c, msgs, Transaction(c, msgs))
  {
    if !IsFatal(c) && Next(c).Done? {
      assert [] + msgs == msgs;
      SendsAllOrNothing(Begin(c), msgs, 0, 0);
    }
  }

  // ----- The protocol -----

  /** Where a transaction of `msgs` is, by the calls made so far. */
  datatype Phase =
    | Start
    | Sending(sent: nat)
    | MustAbort
    | Committing(refused: nat)
    | Over

  function AfterSends(sent: nat, msgs: seq<Message>): Phase {
    if sent == |msgs| then Committing(0) else Sending(sent)
  }

  /** The one begin, the sends in order up to a refused one, commits only after all of them, and at most one abort. */
  function Advance(p: Phase, call: Call, msgs: seq<Message>): Option<Phase> {
    match (p, call)
    case (Start, BeginCall(a, _)) => Some(if a.Refused? then Over else AfterSends(0, msgs))
    case (Sending(k), SendCall(m, a)) =>
      if k >= |msgs| || m != msgs[k] then None
      else Some(if a.Refused? then MustAbort else AfterSends(k + 1, msgs))
    case (MustAbort, AbortCall(_)) => Some(Over)
    case (Committing(n), CommitCall(a)) =>
      if n >= MAX_COMMITS then None else Some(if a.Refused? then Committing(n + 1) else Over)
    case (Committing(n), AbortCall(_)) => if n < MAX_COMMITS then None else Some(Over)
    case _ => None
  }

  function Replay(p: Phase, calls: seq<Call>, msgs: seq<Message>): Option<Phase>
    decreases |calls|
  {
    if calls == [] then Some(p)
    else
      var next := Advance(p, calls[0], msgs);
      if next.None? then None else Replay(next.value, calls[1..], msgs)
  }

  /** The calls made between two states of a client. */
  function NewCalls(before: Client, after: Client): seq<Call> {
    if |before.calls| <= |after.calls| then after.calls[|before.calls|..] else []
  }

  /** The new calls lead from `p` to where a transaction may end: not begun, over, or stopped by a fatal commit. */
  predicate Follows(p: Phase, before: Client, out: Outcome, msgs: seq<Message>) {
    && before.calls <= out.client.calls
    && var end := Replay(p, NewCalls(before, out.client), msgs);
    && end.Some?
    && (end.value.Start? || end.value.Over? || (end.value.Committing? && end.value.refused > 0 && IsFatal(out.client)))
  }

  lemma FollowsOneMore(p: Phase, q: Phase, c: Client, call: Call, next: Client, out: Outcome, msgs: seq<Message>)
    requires next.calls == c.calls + [call] && Advance(p, call, msgs) == Some(q) && Follows(q, next, out, msgs)
    ensures Follows(p, c, out, msgs)
  {
    assert NewCalls(c, out.client) == [call] + NewCalls(next, out.client);
  }

  lemma AbortFollows(p: Phase, c: Client, e: TxError, msgs: seq<Message>)
    requires p == MustAbort || p == Committing(MAX_COMMITS)
    ensures Follows(p, c, GiveUp(c, e), msgs)
  {
    assert NewCalls(c, Abort(c)) == [AbortCall(Next(c))];
  }

  lemma {:induction false} CommitsFollow(c: Client, tries: nat, partition: int, offset: int, last: string,
                                         msgs: seq<Message>)
    requires tries <= MAX_COMMITS
    ensures Follows(Committing(MAX_COMMITS - tries), c, CommitUpTo(c, tries, partition, offset, last), msgs)
    decreases tries
  {
    if tries == 0 {
      AbortFollows(Committing(MAX_COMMITS), c, CommitFailed(last), msgs);
    } else {
      var call, next := CommitCall(Next(c)), Commit(c);
      var out := CommitUpTo(c, tries, partition, offset, last);
      if Next(c).Refused? && !IsFatal(next) {
        CommitsFollow(next, tries - 1, partition, offset, Next(c).text, msgs);
        FollowsOneMore(Committing(MAX_COMMITS - tries), Committing(MAX_COMMITS - tries + 1), c, call, next, out, msgs);
      } else {
        assert NewCalls(c, out.client) == [call];
      }
    }
  }

  lemma {:induction false} SendsFollow(c: Client, msgs: seq<Message>, k: nat, partition: int, offset: int)
    requires k <= |msgs|
    ensures Follows(AfterSends(k, msgs), c, SendAll(c, msgs[k..], partition, offset), msgs)
    decreases |msgs| - k
  {
    if k == |msgs| {
      CommitsFollow(c, MAX_COMMITS, partition, offset, "", msgs);
    } else {
      var call, next := SendCall(msgs[k], Next(c)), Send(c, msgs[k]);
      var out := SendAll(c, msgs[k..], partition, offset);
      assert msgs[k..][0] == msgs[k] && msgs[k..][1..] == msgs[k + 1..];
      if Next(c).Refused? {
        AbortFollows(MustAbort, next, Plain(Next(c).text), msgs);
        FollowsOneMore(Sending(k), MustAbort, c, call, next, out, msgs);
      } else {
        SendsFollow(next, msgs, k + 1, Next(c).partition, Next(c).offset);
        FollowsOneMore(Sending(k), AfterSends(k + 1, msgs), c, call, next, out, msgs);
      }
    }
  }

  /** Whatever is refused, the calls of one ProduceTx follow the protocol. */
  lemma ProduceTxFollows(c: Client, msgs: seq<Message>)
    ensures Follows(Start, c, Transaction(c, msgs), msgs)
  {
    var out := Transaction(c, msgs);
    if IsFatal(c) {
      assert NewCalls(c, out.client) == [];
    } else {
      var call, next := BeginCall(Next(c), c.open), Begin(c);
      if Next(c).Refused? {
        assert NewCalls(c, out.client) == [call];
      } else {
        assert msgs[0..] == msgs;
        SendsFollow(next, msgs, 0, 0, 0);
        FollowsOneMore(Start, AfterSends(0, msgs), c, call, next, out, msgs);
      }
    }
  }

  predicate Sent(call: Call, m: Message) {
    call.SendCall? && call.message == m && call.answer.Done?
  }

  /** The calls begin with a successful send of each of `msgs`, in order. */
  predicate SentAll(calls: seq<Call>, msgs: seq<Message>) {
    |msgs| <= |calls| && forall j :: 0 <= j < |msgs| ==> Sent(calls[j], msgs[j])
  }

  lemma SentOneMore(calls: seq<Call>, msgs: seq<Message>)
    requires calls != [] && msgs != [] && Sent(calls[0], msgs[0]) && SentAll(calls[1..], msgs[1..])
    ensures SentAll(calls, msgs)
  {
    forall j | 0 <= j < |msgs|
      ensures Sent(calls[j], msgs[j])
    {
      if j > 0 {
        assert Sent(calls[1..][j - 1], msgs[1..][j - 1]);
      }
    }
  }

  lemma OverEnds(calls: seq<Call>, msgs: seq<Message>)
    requires Replay(Over, calls, msgs).Some?
    ensures calls == []
  {}

  /**
    The automaton in terms of positions: a begin comes first, an abort last, and the commits directly after
    the successful sends of all messages, at most MAX_COMMITS of them.
  */
  lemma {:induction false} PhaseShape(p: Phase, calls: seq<Call>, msgs: seq<Message>, i: nat)
    requires Replay(p, calls, msgs).Some? && i < |calls| && (p.Sending? ==> p.sent < |msgs|)
    ensures calls[i].BeginCall? ==> p.Start? && i == 0
    ensures calls[i].AbortCall? ==> i == |calls| - 1
    ensures calls[i].CommitCall? ==>
              match p
              case Start => |msgs| < i <= |msgs| + MAX_COMMITS && SentAll(calls[1..], msgs)
              case Sending(k) => |msgs| - k <= i < |msgs| - k + MAX_COMMITS && SentAll(calls, msgs[k..])
              case Committing(n) => i + n < MAX_COMMITS
              case _ => false
    decreases |calls|
  {
    var q := Advance(p, calls[0], msgs).value;
    assert calls == [calls[0]] + calls[1..];
    if q.Over? {
      OverEnds(calls[1..], msgs);
    } else if i > 0 {
      PhaseShape(q, calls[1..], msgs, i - 1);
      if calls[i].CommitCall? && p.Sending? {
        assert msgs[p.sent..][1..] == msgs[p.sent + 1..];
        SentOneMore(calls, msgs[p.sent..]);
      } else if calls[i].CommitCall? && p.Start? {
        assert msgs[0..] == msgs;
      }
    }
  }

  lemma NewCallsFirst(c: Client, next: Client, end: Client, call: Call)
    requires next.calls == c.calls + [call] && next.calls <= end.calls
    ensures c.calls <= end.calls && NewCalls(c, end) == [call] + NewCalls(next, end)
  {
  }

  /** An abort that follows a commit follows the last of MAX_COMMITS. */
  lemma {:induction false} AbortShape(p: Phase, calls: seq<Call>, msgs: seq<Message>, i: nat)
    requires Replay(p, calls, msgs).Some? && 0 < i < |calls| && calls[i].AbortCall? && calls[i - 1].CommitCall?
    requires p.Sending? ==> p.sent < |msgs|
    ensures match p
            case Start => i == |msgs| + 1 + MAX_COMMITS
            case Sending(k) => i == |msgs| - k + MAX_COMMITS
            case Committing(n) => i == MAX_COMMITS - n
            case _ => false
    decreases |calls|
  {
    var q := Advance(p, calls[0], msgs).value;
    assert calls == [calls[0]] + calls[1..];
    if q.Over? {
      OverEnds(calls[1..], msgs);
    } else if i > 1 {
      AbortShape(q, calls[1..], msgs, i - 1);
    } else {
      assert Replay(q, calls[1..], msgs).Some?;
    }
  }

  lemma {:induction false} LastAnswer(c: Client, msgs: seq<Message>, k: nat, partition: int, offset: int)
    requires k <= |msgs|
    ensures var out := SendAll(c, msgs[k..], partition, offset);
            && c.calls <= out.client.calls
            && (out.result.Produced? ==>
                  if k == |msgs| then out.result == Produced(partition, offset)
                  else
                    && |msgs| - k <= |NewCalls(c, out.client)|
                    && NewCalls(c, out.client)[|msgs| - k - 1]
                       == SendCall(msgs[|msgs| - 1], Done(out.result.partition, out.result.offset)))
    decreases |msgs| - k
  {
    hide Follows, Replay, CommitUpTo, NewCalls;
    var out := SendAll(c, msgs[k..], partition, offset);
    SendsFollow(c, msgs, k, partition, offset);
    FollowsExtends(AfterSends(k, msgs), c, out, msgs);
    if k == |msgs| {
      CommitsAnswer(c, MAX_COMMITS, partition, offset, "");
    } else if Next(c).Done? {
      var next := Send(c, msgs[k]);
      assert msgs[k..][0] == msgs[k] && msgs[k..][1..] == msgs[k + 1..];
      LastAnswer(next, msgs, k + 1, Next(c).partition, Next(c).offset);
      NewCallsFirst(c, next, out.client, SendCall(msgs[k], Next(c)));
    }
  }

  lemma FollowsExtends(p: Phase, c: Client, out: Outcome, msgs: seq<Message>)
    requires Follows(p, c, out, msgs)
    ensures c.calls <= out.client.calls
  {
  }

  lemma {:induction false} CommitsAnswer(c: Client, tries: nat, partition: int, offset: int, last: string)
    ensures var r := CommitUpTo(c, tries, partition, offset, last).result;
            r.Produced? ==> r == Produced(partition, offset)
    decreases tries
  {
    if tries > 0 && Next(c).Refused? && !IsFatal(Commit(c)) {
      CommitsAnswer(Commit(c), tries - 1, partition, offset, Next(c).text);
    }
  }

  /** Without messages partition and offset are zero. */
  lemma NothingProduced(c: Client)
    ensures var r := Transaction(c, []).result; r.Produced? ==> r == Produced(0, 0)
  {
    CommitsAnswer(Begin(c), MAX_COMMITS, 0, 0, "");
  }

  /** What ProduceTx returns on success is what the client answered to the last message. */
  lemma ProducedIsLast(c: Client, msgs: seq<Message>)
    requires msgs != [] && Transaction(c, msgs).result.Produced?
    ensures var out := Transaction(c, msgs);
            var calls := NewCalls(c, out.client);
            && |calls| > |msgs|
            && calls[|msgs|] == SendCall(msgs[|msgs| - 1], Done(out.result.partition, out.result.offset))
  {
    var next := Begin(c);
    assert msgs[0..] == msgs;
    LastAnswer(next, msgs, 0, 0, 0);
    var out := Transaction(c, msgs);
    NewCallsFirst(c, next, out.client, BeginCall(Next(c), c.open));
  }

  /** The protocol read off the calls of one ProduceTx. */
  lemma ProduceTxShape(c: Client, msgs: seq<Message>, i: nat)
    requires var out := Transaction(c, msgs);
             i < |NewCalls(c, out.client)|
    ensures var out := Transaction(c, msgs);
            var calls := NewCalls(c, out.client);
            && (calls[i].BeginCall? ==> i == 0)
            && (calls[i].AbortCall? ==> i == |calls| - 1)
            && (calls[i].CommitCall? ==> |msgs| < i <= |msgs| + 3 && SentAll(calls[1..], msgs))
            && (calls[i].AbortCall? && i > 0 && calls[i - 1].CommitCall? ==> i == |msgs| + 4)
  {
    var calls := NewCalls(c, Transaction(c, msgs).client);
    ProduceTxFollows(c, msgs);
    PhaseShape(Start, calls, msgs, i);
    if calls[i].AbortCall? && i > 0 && calls[i - 1].CommitCall? {
      AbortShape(Start, calls, msgs, i);
    }
  }

  lemma FirstCall(c: Client, msgs: seq<Message>)
    ensures var calls := NewCalls(c, Transaction(c, msgs).client);
            if IsFatal(c) then calls == [] else calls != [] && calls[0] == BeginCall(Next(c), c.open)
  {
    if !IsFatal(c) && Next(c).Done? {
      assert msgs[0..] == msgs;
      SendsFollow(Begin(c), msgs, 0, 0, 0);
    }
  }

  // ----- Which errors are fatal -----

  /** A refusal that leaves the client in a state it cannot recover from. */
  predicate LeavesFatal(a: Answer) {
    a.Refused? && (FatalError in a.flags || a.flags == {Uninitialized})
  }

  predicate FailedFatally(r: TxResult, text: string) {
    r == Failed(FatalProducer(text))
  }

  /** The result by the last call, and by the one before it where that was an abort. */
  predicate Explains(calls: seq<Call>, r: TxResult)
    requires calls != []
  {
    match calls[|calls| - 1]
    case BeginCall(a, _) =>
      if LeavesFatal(a) then FailedFatally(r, a.text) else a.Refused? && r == Failed(Plain(a.text))
    case SendCall(_, _) => false
    case CommitCall(a) => if LeavesFatal(a) then FailedFatally(r, a.text) else a.Done? && r.Produced?
    case AbortCall(a) =>
      && |calls| > 1
      && match calls[|calls| - 2]
         case SendCall(_, refused) =>
           refused.Refused? && AfterAbort(a, Plain(refused.text), refused.text, r)
         case CommitCall(refused) =>
           refused.Refused? && AfterAbort(a, CommitFailed(refused.text), refused.text, r)
         case _ => false
  }

  /** An abort after the refusal `text`: fatal with both texts if it is refused itself, else `e`. */
  predicate AfterAbort(a: Answer, e: TxError, text: string, r: TxResult) {
    if a.Refused? then FailedFatally(r, text + a.text) else r == Failed(e)
  }

  lemma {:induction false} CommitsExplain(c: Client, tries: nat, partition: int, offset: int, last: string)
    requires c.calls != []
    requires tries == 0 ==>
               var call := c.calls[|c.calls| - 1];
               call.CommitCall? && call.answer.Refused? && call.answer.text == last
    ensures var out := CommitUpTo(c, tries, partition, offset, last);
            out.client.calls != [] && Explains(out.client.calls, out.result)
    decreases tries
  {
    if tries > 0 && Next(c).Refused? && !IsFatal(Commit(c)) {
      CommitsExplain(Commit(c), tries - 1, partition, offset, Next(c).text);
    }
  }

  lemma {:induction false} SendsExplain(c: Client, msgs: seq<Message>, partition: int, offset: int)
    requires c.calls != []
    ensures var out := SendAll(c, msgs, partition, offset);
            out.client.calls != [] && Explains(out.client.calls, out.result)
    decreases |msgs|
  {
    if msgs == [] {
      CommitsExplain(c, MAX_COMMITS, partition, offset, "");
    } else if Next(c).Done? {
      SendsExplain(Send(c, msgs[0]), msgs[1..], Next(c).partition, Next(c).offset);
    }
  }

  /**
    An error is fatal exactly if the client was stuck from the start, a begin or a commit left it so, or an abort
    was refused. All others carry the text of the refusal: as it is for a begin or a send, wrapped for a commit.
  */
  lemma ResultMeans(c: Client, msgs: seq<Message>)
    ensures var out := Transaction(c, msgs);
            var calls := NewCalls(c, out.client);
            if FatalError in c.flags || c.flags == {Uninitialized} then calls == [] && FailedFatally(out.result, "")
            else calls != [] && Explains(calls, out.result)
  {
    if !IsFatal(c) {
      var out := Transaction(c, msgs);
      var calls := NewCalls(c, out.client);
      FirstCall(c, msgs);
      ProduceTxFollows(c, msgs);
      if Next(c).Done? {
        SendsExplain(Begin(c), msgs, 0, 0);
      }
      assert out.client.calls == c.calls + calls;
      hide SendAll, Replay, Begin;
      SameLast(c.calls, calls, out.result);
    }
  }

  lemma SameLast(before: seq<Call>, calls: seq<Call>, r: TxResult)
    requires calls != [] && calls[0].BeginCall? && Explains(before + calls, r)
    ensures Explains(calls, r)
  {
  }
}
