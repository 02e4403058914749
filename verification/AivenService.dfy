/**
  The remote service of one project: the interfaces of pkg/aiven/acl and pkg/aiven/topic. Every answer
  is scripted, so a statement about all states is one about all patterns of failure: `answers` is
  for the listing, looking-up and name-resolving calls, `outcomes` for the mutating ones, and a script
  that has run out means success. `log` records every mutating call, failed ones too.
*/
module AivenService {
  import opened Basics
  import opened Errors
  import opened AclModel
  import opened TopicModel

  datatype Call =
    | CreateAclCall(grant: Grant)
    | DeleteAclCall(id: string)
    | CreateTopicCall(name: string, request: TopicRequest)
    | UpdateTopicCall(name: string, request: TopicRequest)
    | DeleteTopicCall(name: string)

  datatype Remote = Remote(
    acls: seq<Acl>,
    topics: map<string, KafkaTopic>,
    names: seq<string>,
    defaults: KafkaTopic,
    answers: seq<Option<Fault>>,
    outcomes: seq<Outcome>,
    log: seq<Call>)

  /** A call's answer and the service after it. */
  datatype Reply<+T> = Reply(answer: T, remote: Remote)

  /** IDs are unique and not empty, and `names` lists the topics once each. */
  ghost predicate Sound(r: Remote) {
    && SoundIds(r.acls)
    && DistinctBy(r.names, NameOf)
    && forall n :: n in r.names <==> n in r.topics
  }

  function NameOf(name: string): string {
    name
  }

  function NotName(name: string): string -> bool {
    n => n != name
  }

  function NextRead(r: Remote): Reply<Option<Fault>> {
    if r.answers == [] then Reply(None, r) else Reply(r.answers[0], r.(answers := r.answers[1..]))
  }

  function NextWrite(r: Remote, c: Call): Reply<Outcome> {
    if r.outcomes == [] then Reply(Success, r.(log := r.log + [c]))
    else Reply(r.outcomes[0], r.(outcomes := r.outcomes[1..], log := r.log + [c]))
  }

  /** The error and the resulting service of a write that is answered `o` and would lead to `after`. */
  function Settled(o: Outcome, before: Remote, after: Remote): Reply<Option<Error>> {
    match o
    case Success => Reply(None, after)
    case Failure(e, applied) => Reply(Some(e), if applied then after else before)
  }

  function ResolveServiceName(r: Remote): Reply<Option<Error>> {
    var n := NextRead(r);
    Reply(if n.answer.Some? then Some(n.answer.value) else None, n.remote)
  }

  function ListAcls(r: Remote): Reply<Result<seq<Acl>, Error>> {
    var n := NextRead(r);
    Reply(if n.answer.Some? then Err(n.answer.value) else Ok(r.acls), n.remote)
  }

  function WithGrant(acls: seq<Acl>, id: string, g: Grant): seq<Acl> {
    acls + [Acl(id, g.permission, g.topic, g.username)]
  }

  function CreateAcl(r: Remote, g: Grant): Reply<Option<Error>> {
    var n := NextWrite(r, CreateAclCall(g));
    Settled(n.answer, n.remote, n.remote.(acls := WithGrant(r.acls, FreshId(r.acls), g)))
  }

  function DeleteAcl(r: Remote, id: string): Reply<Option<Error>> {
    var n := NextWrite(r, DeleteAclCall(id));
    if forall a :: a in r.acls ==> a.id != id then
      Reply(Some(if n.answer.Failure? then n.answer.error else NOT_FOUND), n.remote)
    else Settled(n.answer, n.remote, n.remote.(acls := Without(r.acls, id)))
  }

  function GetTopic(r: Remote, name: string): Reply<Result<KafkaTopic, Error>> {
    var n := NextRead(r);
    Reply(
      if n.answer.Some? then Err(n.answer.value)
      else if name in r.topics then Ok(r.topics[name])
      else Err(NOT_FOUND),
      n.remote)
  }

  function ListTopics(r: Remote): Reply<Result<seq<string>, Error>> {
    var n := NextRead(r);
    Reply(if n.answer.Some? then Err(n.answer.value) else Ok(r.names), n.remote)
  }

  function CreateTopic(r: Remote, name: string, q: TopicRequest): Reply<Option<Error>> {
    var n := NextWrite(r, CreateTopicCall(name, q));
    if name in r.topics then Reply(Some(if n.answer.Failure? then n.answer.error else CONFLICT), n.remote)
    else
      Settled(n.answer, n.remote,
              n.remote.(topics := r.topics[name := Overlay(r.defaults, q)], names := r.names + [name]))
  }

  function UpdateTopic(r: Remote, name: string, q: TopicRequest): Reply<Option<Error>> {
    var n := NextWrite(r, UpdateTopicCall(name, q));
    if name !in r.topics then Reply(Some(if n.answer.Failure? then n.answer.error else NOT_FOUND), n.remote)
    else Settled(n.answer, n.remote, n.remote.(topics := r.topics[name := Overlay(r.topics[name], q)]))
  }

  function DeleteTopic(r: Remote, name: string): Reply<Option<Error>> {
    var n := NextWrite(r, DeleteTopicCall(name));
    if name !in r.topics then Reply(Some(if n.answer.Failure? then n.answer.error else NOT_FOUND), n.remote)
    else
      Settled(n.answer, n.remote,
              n.remote.(topics := r.topics - {name}, names := Filter(r.names, NotName(name))))
  }

  /** Every mutating call will succeed. */
  ghost predicate AllSucceed(r: Remote) {
    forall i :: 0 <= i < |r.outcomes| ==> r.outcomes[i].Success?
  }

  /** Every call that reads will succeed. */
  ghost predicate AllAnswered(r: Remote) {
    forall i :: 0 <= i < |r.answers| ==> r.answers[i].None?
  }

  /** The client handle the managers share. */
  class Aiven {
    var state: Remote

    constructor (initial: Remote)
      ensures state == initial
    {
      state := initial;
    }

    method ResolveKafkaServiceName() returns (err: Option<Error>)
      modifies this
      ensures Reply(err, state) == ResolveServiceName(old(state))
    {
      var reply := ResolveServiceName(state);
      err, state := reply.answer, reply.remote;
    }

    method AclList() returns (r: Result<seq<Acl>, Error>)
      modifies this
      ensures Reply(r, state) == ListAcls(old(state))
    {
      var reply := ListAcls(state);
      r, state := reply.answer, reply.remote;
    }

    method AclCreate(g: Grant) returns (err: Option<Error>)
      modifies this
      ensures Reply(err, state) == CreateAcl(old(state), g)
    {
      var reply := CreateAcl(state, g);
      err, state := reply.answer, reply.remote;
    }

    method AclDelete(id: string) returns (err: Option<Error>)
      modifies this
      ensures Reply(err, state) == DeleteAcl(old(state), id)
    {
      var reply := DeleteAcl(state, id);
      err, state := reply.answer, reply.remote;
    }

    method TopicGet(name: string) returns (r: Result<KafkaTopic, Error>)
      modifies this
      ensures Reply(r, state) == GetTopic(old(state), name)
    {
      var reply := GetTopic(state, name);
      r, state := reply.answer, reply.remote;
    }

    method TopicList() returns (r: Result<seq<string>, Error>)
      modifies this
      ensures Reply(r, state) == ListTopics(old(state))
    {
      var reply := ListTopics(state);
      r, state := reply.answer, reply.remote;
    }

    method TopicCreate(name: string, q: TopicRequest) returns (err: Option<Error>)
      modifies this
      ensures Reply(err, state) == CreateTopic(old(state), name, q)
    {
      var reply := CreateTopic(state, name, q);
      err, state := reply.answer, reply.remote;
    }

    method TopicUpdate(name: string, q: TopicRequest) returns (err: Option<Error>)
      modifies this
      ensures Reply(err, state) == UpdateTopic(old(state), name, q)
    {
      var reply := UpdateTopic(state, name, q);
      err, state := reply.answer, reply.remote;
    }

    method TopicDelete(name: string) returns (err: Option<Error>)
      modifies this
      ensures Reply(err, state) == DeleteTopic(old(state), name)
    {
      var reply := DeleteTopic(state, name);
      err, state := reply.answer, reply.remote;
    }
  }
}
