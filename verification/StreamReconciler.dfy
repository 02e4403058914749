/** The Stream reconcile loop (controllers/stream_controller.go) and the Stream's ACLs (pkg/aiven/acl/acl.go). */
module StreamReconciler {
  import opened Basics
  import opened Errors
  import opened AclModel
  import opened TopicModel
  import opened AivenService
  import opened Scrubbing
  import AclManager
  import Resources
  import TopicReconciler

  datatype StreamStatus = StreamStatus(
    synchronizationState: string,
    synchronizationHash: string,
    synchronizationTime: string,
    errors: seq<string>,
    message: string,
    fullyQualifiedTopicPrefix: string)

  const NO_STATUS := StreamStatus("", "", "", [], "", "")

  datatype StreamSpec = StreamSpec(pool: string, additionalUsers: seq<string>)

  /** What the resource library makes of a stream's name: its topics, its wildcard, its own ACL and that in print. */
  datatype Names = Names(topicPrefix: string, topicWildcard: string, acl: TopicACL, aclText: string)

  datatype Stream = Stream(
    namespace: string,
    names: Names,
    deleting: bool,
    finalizers: set<string>,
    spec: StreamSpec,
    status: Option<StreamStatus>)

  /** The library functions and settings of the reconciler, as for topics. */
  datatype Setup = Setup(
    userName: TopicACL -> Result<string, Error>,
    hash: StreamSpec -> Result<string, Error>,
    needsSync: (Option<StreamStatus>, string) -> bool,
    lower: char -> char,
    failedPrepare: string,
    failedSynchronization: string,
    projects: seq<string>,
    dryRun: bool)

  datatype StreamReconcileResult = StreamReconcileResult(
    deleteFinalized: bool,
    skipped: bool,
    requeue: bool,
    status: StreamStatus,
    error: Option<string>)

  const SKIPPED := StreamReconcileResult(false, true, false, NO_STATUS, None)

  function AdminOf(s: Stream, user: string): TopicACL {
    TopicACL("admin", user, s.namespace)
  }

  /** A stream being deleted wants nothing; another wants its own ACL and one for each additional user. */
  function AclsOf(s: Stream, delete: bool): seq<TopicACL> {
    if delete then []
    else
      var users := s.spec.additionalUsers;
      [s.names.acl] + seq(|users|, (i: int) requires 0 <= i < |users| => AdminOf(s, users[i]))
  }

  /** The stream's own entry, or that of an additional user: an administrator of the stream's team. */
  predicate WantsAcl(s: Stream, a: TopicACL) {
    a == s.names.acl || (a.access == "admin" && a.application in s.spec.additionalUsers && a.team == s.namespace)
  }

  lemma AclsOfMeans(s: Stream)
    ensures AclsOf(s, true) == []
    ensures forall a :: a in AclsOf(s, false) <==> WantsAcl(s, a)
  {
    var users, acls := s.spec.additionalUsers, AclsOf(s, false);
    assert acls[0] == s.names.acl;
    forall a | WantsAcl(s, a) && a != s.names.acl
      ensures a in acls
    {
      var k :| 0 <= k < |users| && users[k] == a.application;
      assert acls[k + 1] == a;
    }
  }

  method StreamACLs(s: Stream, delete: bool) returns (acls: seq<TopicACL>)
    ensures acls == AclsOf(s, delete)
    ensures !delete ==> forall a :: a in acls <==> WantsAcl(s, a)
  {
    if delete {
      return [];
    }
    acls := [s.names.acl];
    for i := 0 to |s.spec.additionalUsers|
      invariant |acls| == i + 1 && acls[0] == s.names.acl
      invariant forall k :: 0 <= k < i ==> acls[k + 1] == AdminOf(s, s.spec.additionalUsers[k])
    {
      acls := acls + [AdminOf(s, s.spec.additionalUsers[i])];
    }
    AclsOfMeans(s);
    assert acls == AclsOf(s, false);
  }

  function Failed(env: Setup, status: StreamStatus, e: Error, state: string, retry: bool): StreamReconcileResult {
    var (message, errors) := TopicReconciler.Report(e);
    var propagated := CheckForPossibleCredentials(
                        if TopicReconciler.BodyError(e) then PlainError(UNKNOWN) else e, env.lower);
    StreamReconcileResult(
      false, false, retry,
      status.(message := message, errors := errors, synchronizationState := state),
      Some(state + ": " + propagated.text))
  }

  datatype Processed = Processed(result: StreamReconcileResult, remote: Remote)

  predicate HasPrefix(name: string, prefix: string) {
    prefix <= name
  }

  function TopicError(name: string, e: Error): Error {
    PlainError("failed to delete topic '" + name + "' on Aiven: " + e.text)
  }

  /** Deletes the listed topics with the prefix in turn and stops at the first failure. */
  function DeleteTopics(r: Remote, names: seq<string>, prefix: string, dryRun: bool): Reply<Option<Error>>
    decreases |names|
  {
    if names == [] then Reply(None, r)
    else if dryRun || !HasPrefix(names[0], prefix) then DeleteTopics(r, names[1..], prefix, dryRun)
    else
      var deleted := DeleteTopic(r, names[0]);
      if deleted.answer.Some? then Reply(Some(TopicError(names[0], deleted.answer.value)), deleted.remote)
      else DeleteTopics(deleted.remote, names[1..], prefix, dryRun)
  }

  function AclError(s: Stream, e: Error): Error {
    PlainError("failed to delete ACLs " + s.names.aclText + " on Aiven: " + e.text)
  }

  function Finalized(status: StreamStatus, now: string): StreamReconcileResult {
    StreamReconcileResult(
      true, false, false,
      status.(message := "Stream, ACLs and data permanently deleted", synchronizationTime := now, errors := []), None)
  }

  /** The ACL manager is not told of dry runs here. */
  function HandleDelete(env: Setup, s: Stream, status: StreamStatus, r: Remote, now: string): Processed {
    if s.spec.pool !in env.projects then
      Processed(Failed(env, status, TopicReconciler.WrongPool(s.spec.pool), env.failedPrepare, false), r)
    else
      var resolved := ResolveServiceName(r);
      if resolved.answer.Some? then
        Processed(Failed(env, status, resolved.answer.value, env.failedSynchronization, false), resolved.remote)
      else
        var acls := AclManager.SyncAcls(resolved.remote, s.names.topicWildcard, [], env.userName, false);
        if acls.answer.Some? then
          Processed(Failed(env, status, AclError(s, acls.answer.value), env.failedSynchronization, true), acls.remote)
        else
          var listed := ListTopics(acls.remote);
          if listed.answer.Err? then
            Processed(Failed(env, status,
                             TopicReconciler.Prefixed("failed to list topics on Aiven: ", listed.answer.error),
                             env.failedSynchronization, true), listed.remote)
          else
            var deleted := DeleteTopics(listed.remote, listed.answer.value, s.names.topicPrefix, env.dryRun);
            if deleted.answer.Some? then
              Processed(Failed(env, status, deleted.answer.value, env.failedSynchronization, true), deleted.remote)
            else Processed(Finalized(status, now), deleted.remote)
  }

  function RolledOut(status: StreamStatus, hash: string, now: string): StreamReconcileResult {
    StreamReconcileResult(
      false, false, false,
      status.(synchronizationTime := now,
              synchronizationState := Resources.ROLLOUT_COMPLETE,
              synchronizationHash := hash,
              message := "Stream configuration synchronized to Kafka pool",
              errors := []),
      None)
  }

  function ProcessStream(env: Setup, s: Stream, r: Remote, now: string): Processed {
    var status := Or(s.status, NO_STATUS).(fullyQualifiedTopicPrefix := s.names.topicPrefix);
    if s.deleting then HandleDelete(env, s, status, r, now)
    else
      var hash := env.hash(s.spec);
      if hash.Err? then
        Processed(Failed(env, status, TopicReconciler.NO_HASH, env.failedPrepare, false), r)
      else if !env.needsSync(s.status, hash.value) then Processed(SKIPPED, r)
      else if s.spec.pool !in env.projects then
        Processed(Failed(env, status, TopicReconciler.WrongPool(s.spec.pool), env.failedPrepare, false), r)
      else
        var resolved := ResolveServiceName(r);
        if resolved.answer.Some? then
          Processed(Failed(env, status, resolved.answer.value, env.failedSynchronization, false), resolved.remote)
        else
          var acls := AclManager.SyncAcls(resolved.remote, s.names.topicWildcard, AclsOf(s, false), env.userName,
                                          env.dryRun);
          if acls.answer.Some? then
            Processed(Failed(env, status, acls.answer.value, env.failedSynchronization, true), acls.remote)
          else Processed(RolledOut(status, hash.value, now), acls.remote)
  }

  function Stored(stored: Option<Stream>, s: Stream, w: TopicReconciler.Write): Option<Stream> {
    if stored.None? || w.Rejected? then stored
    else if s.deleting && s.finalizers == {} then None
    else Some(s)
  }

  datatype Reconciled = Reconciled(stored: Option<Stream>, remote: Remote, requeue: bool)

  /** Unlike for topics, the finalizer is added only with a success. */
  function ReconcileStream(env: Setup, stored: Option<Stream>, r: Remote, getFails: bool, w: TopicReconciler.Write,
                           now: string): Reconciled
  {
    if getFails then Reconciled(stored, r, true)
    else if stored.None? then Reconciled(stored, r, false)
    else
      var s := stored.value;
      var p := ProcessStream(env, s, r, now);
      var written := s.(status := Some(p.result.status));
      if p.result.skipped then Reconciled(stored, p.remote, false)
      else if p.result.error.Some? then Reconciled(Stored(stored, written, w), p.remote, p.result.requeue)
      else
        var finalizers := if p.result.deleteFinalized then s.finalizers - {Resources.FINALIZER}
                          else s.finalizers + {Resources.FINALIZER};
        Reconciled(Stored(stored, written.(finalizers := finalizers), w), p.remote, !w.Accepted?)
  }

  class Reconciler {
    var stored: Option<Stream>
    const aiven: Aiven
    const env: Setup

    constructor (stored: Option<Stream>, aiven: Aiven, env: Setup)
      ensures this.stored == stored && this.aiven == aiven && this.env == env
    {
      this.stored, this.aiven, this.env := stored, aiven, env;
    }

    method Process(stream: Stream, now: string) returns (result: StreamReconcileResult)
      modifies aiven
      ensures Processed(result, aiven.state) == ProcessStream(env, stream, old(aiven.state), now)
    {
      hide Failed, RolledOut, AclManager.SyncAcls, ResolveServiceName;
      var status := Or(stream.status, NO_STATUS).(fullyQualifiedTopicPrefix := stream.names.topicPrefix);
      if stream.deleting {
        result := DeleteStream(stream, status, now);
        return;
      }
      var hash := env.hash(stream.spec);
      if hash.Err? {
        return Failed(env, status, TopicReconciler.NO_HASH, env.failedPrepare, false);
      }
      if !env.needsSync(stream.status, hash.value) {
        return SKIPPED;
      }
      if stream.spec.pool !in env.projects {
        return Failed(env, status, TopicReconciler.WrongPool(stream.spec.pool), env.failedPrepare, false);
      }
      var err := aiven.ResolveKafkaServiceName();
      if err.Some? {
        return Failed(env, status, err.value, env.failedSynchronization, false);
      }
      var wanted := StreamACLs(stream, false);
      var acls := new AclManager.Manager(aiven, stream.names.topicWildcard, wanted, env.userName, env.dryRun);
      err := acls.Synchronize();
      if err.Some? {
        return Failed(env, status, err.value, env.failedSynchronization, true);
      }
      return RolledOut(status, hash.value, now);
    }

    /** handleDelete. */
    method DeleteStream(stream: Stream, status: StreamStatus, now: string) returns (result: StreamReconcileResult)
      modifies aiven
      ensures Processed(result, aiven.state) == HandleDelete(env, stream, status, old(aiven.state), now)
    {
      hide Failed, Finalized, AclManager.SyncAcls, ResolveServiceName, ListTopics, DeleteTopic;
      if stream.spec.pool !in env.projects {
        return Failed(env, status, TopicReconciler.WrongPool(stream.spec.pool), env.failedPrepare, false);
      }
      var err := aiven.ResolveKafkaServiceName();
      if err.Some? {
        return Failed(env, status, err.value, env.failedSynchronization, false);
      }
      var wanted := StreamACLs(stream, true);
      var acls := new AclManager.Manager(aiven, stream.names.topicWildcard, wanted, env.userName, false);
      err := acls.Synchronize();
      if err.Some? {
        return Failed(env, status, AclError(stream, err.value), env.failedSynchronization, true);
      }
      var topics := aiven.TopicList();
      if topics.Err? {
        return Failed(env, status, TopicReconciler.Prefixed("failed to list topics on Aiven: ", topics.error),
                      env.failedSynchronization, true);
      }
      var names, prefix := topics.value, stream.names.topicPrefix;
      ghost var listed := aiven.state;
      for i := 0 to |names|
        invariant DeleteTopics(aiven.state, names[i..], prefix, env.dryRun)
                  == DeleteTopics(listed, names, prefix, env.dryRun)
      {
        assert names[i..][1..] == names[i + 1..];
        if HasPrefix(names[i], prefix) {
          if !env.dryRun {
            err := aiven.TopicDelete(names[i]);
            if err.Some? {
              return Failed(env, status, TopicError(names[i], err.value), env.failedSynchronization, true);
            }
          }
        }
      }
      return Finalized(status, now);
    }

    method Reconcile(getFails: bool, w: TopicReconciler.Write, now: string) returns (requeue: bool)
      modifies this`stored, aiven
      ensures Reconciled(stored, aiven.state, requeue)
              == ReconcileStream(env, old(stored), old(aiven.state), getFails, w, now)
    {
      if getFails {
        return true;
      }
      if stored.None? {
        return false;
      }
      var stream := stored.value;
      var result := Process(stream, now);
      if result.skipped {
        return false;
      }
      if result.error.Some? {
        stored := Stored(stored, stream.(status := Some(result.status)), w);
        return result.requeue;
      }
      if result.deleteFinalized {
        stream := stream.(finalizers := stream.finalizers - {Resources.FINALIZER});
      } else {
        stream := stream.(finalizers := stream.finalizers + {Resources.FINALIZER});
      }
      stored := Stored(stored, stream.(status := Some(result.status)), w);
      requeue := !w.Accepted?;
    }
  }
}
