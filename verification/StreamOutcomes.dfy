/** What a Stream reconcile answers and stores, in terms of what it meets: its guards, its calls' answers, its error. */
module StreamOutcomes {
  import opened Basics
  import opened Errors
  import opened AivenService
  import opened Scrubbing
  import opened StreamReconciler
  import AclManager
  import Resources
  import TopicModel
  import TopicReconciler

  predicate Resolves(r: Remote) {
    NextRead(r).answer.None?
  }

  /** There is a deletion or a synchronisation to do. */
  predicate HasWork(env: Setup, s: Stream) {
    s.deleting || (env.hash(s.spec).Ok? && env.needsSync(s.status, env.hash(s.spec).value))
  }

  /** The spec cannot be hashed, or its pool is not one of the cluster's. */
  predicate Unprepared(env: Setup, s: Stream) {
    if HasWork(env, s) then s.spec.pool !in env.projects else env.hash(s.spec).Err?
  }

  /** The fields that all failures have in common, and those of all successes. */
  lemma FailedFields(env: Setup)
    ensures forall status, e, state, retry ::
              var res := Failed(env, status, e, state, retry);
              !res.skipped && !res.deleteFinalized && res.error.Some? && res.requeue == retry
    ensures forall status, now ::
              var res := Finalized(status, now);
              !res.skipped && res.deleteFinalized && res.error.None? && !res.requeue
    ensures forall status, hash, now ::
              var res := RolledOut(status, hash, now);
              !res.skipped && !res.deleteFinalized && res.error.None? && !res.requeue
  {
  }

  lemma SkippedIff(env: Setup, s: Stream, r: Remote, now: string)
    ensures var p := ProcessStream(env, s, r, now);
            && (p.result.skipped <==>
                  !s.deleting && env.hash(s.spec).Ok? && !env.needsSync(s.status, env.hash(s.spec).value))
            && (p.result.skipped ==>
                  p.remote == r && p.result.error.None? && !p.result.requeue && !p.result.deleteFinalized)
  {
    hide AclManager.SyncAcls, DeleteTopics, Failed, Finalized, RolledOut, AclsOf, AclError;
    FailedFields(env);
  }

  /** A failed reconcile is to be repeated exactly if the pool is known, its name resolved, and a later call failed. */
  lemma RequeueIff(env: Setup, s: Stream, r: Remote, now: string)
    ensures var res := ProcessStream(env, s, r, now).result;
            res.requeue <==> res.error.Some? && HasWork(env, s) && s.spec.pool in env.projects && Resolves(r)
  {
    hide AclManager.SyncAcls, DeleteTopics, Failed, Finalized, RolledOut, AclsOf, AclError;
    FailedFields(env);
  }

  // ----- The error that ends a call -----

  function DeletionCause(env: Setup, s: Stream, r: Remote): Option<Error> {
    var acls := AclManager.SyncAcls(r, s.names.topicWildcard, [], env.userName, false);
    var listed := ListTopics(acls.remote);
    if acls.answer.Some? then
      Some(PlainError("failed to delete ACLs " + s.names.aclText + " on Aiven: " + acls.answer.value.text))
    else if listed.answer.Err? then Some(PlainError("failed to list topics on Aiven: " + listed.answer.error.text))
    else DeleteTopics(listed.remote, listed.answer.value, s.names.topicPrefix, env.dryRun).answer
  }

  function Cause(env: Setup, s: Stream, r: Remote): Option<Error> {
    var resolved := ResolveServiceName(r);
    if !s.deleting && env.hash(s.spec).Err? then Some(PlainError("unable to calculate synchronization hash"))
    else if !HasWork(env, s) then None
    else if s.spec.pool !in env.projects then
      Some(PlainError("pool '" + s.spec.pool + "' cannot be used in this cluster"))
    else if resolved.answer.Some? then resolved.answer
    else if s.deleting then DeletionCause(env, s, resolved.remote)
    else
      AclManager.SyncAcls(resolved.remote, s.names.topicWildcard, AclsOf(s, false), env.userName, env.dryRun).answer
  }

  /** What a failure does to the status; what it does not mention stays. */
  predicate FailureStatus(env: Setup, was: StreamStatus, prefix: string, e: Error, state: string,
                          res: StreamReconcileResult)
  {
    var shown := if e.AivenError? && e.status == 200 then UNKNOWN else e.text;
    && res.error == Some(state + ": " + if Reveals(shown, env.lower) then REDACTED else shown)
    && res.status.synchronizationState == state
    && res.status.synchronizationHash == was.synchronizationHash
    && res.status.synchronizationTime == was.synchronizationTime
    && res.status.fullyQualifiedTopicPrefix == prefix
    && match e
       case PlainError(text) => res.status.message == text && res.status.errors == [text]
       case AivenError(code, message, moreInfo, _) =>
         if code == 200 then res.status.message == UNKNOWN && res.status.errors == [UNKNOWN]
         else res.status.message == message && res.status.errors == [message + ": " + moreInfo]
  }

  function StatusOf(s: Stream): StreamStatus {
    TopicModel.Or(s.status, NO_STATUS)
  }

  lemma FailedStatus(env: Setup, was: StreamStatus, prefix: string, e: Error, state: string, retry: bool)
    ensures FailureStatus(env, was, prefix, e, state,
                          Failed(env, was.(fullyQualifiedTopicPrefix := prefix), e, state, retry))
  {
    hide UNKNOWN, REDACTED, Reveals;
  }

  /** Every failing call of Process, by the error that ended it: what it answers and what is left of the status. */
  lemma FailureMeans(env: Setup, s: Stream, r: Remote, now: string)
    ensures var res, cause := ProcessStream(env, s, r, now).result, Cause(env, s, r);
            && (res.error.Some? <==> cause.Some?)
            && (res.error.Some? ==>
                  FailureStatus(env, StatusOf(s), s.names.topicPrefix, cause.value,
                                if Unprepared(env, s) then env.failedPrepare else env.failedSynchronization, res))
  {
    hide AclManager.SyncAcls, DeleteTopics, Failed, Finalized, RolledOut, AclsOf, FailureStatus;
    FailedFields(env);
    var cause := Cause(env, s, r);
    if cause.Some? {
      var state := if Unprepared(env, s) then env.failedPrepare else env.failedSynchronization;
      FailedStatus(env, StatusOf(s), s.names.topicPrefix, cause.value, state, true);
      FailedStatus(env, StatusOf(s), s.names.topicPrefix, cause.value, state, false);
    }
  }

  /** What a call that ends well makes of the status. */
  lemma SuccessMeans(env: Setup, s: Stream, r: Remote, now: string)
    ensures var res, was := ProcessStream(env, s, r, now).result, StatusOf(s);
            res.error.None? && !res.skipped ==>
              && res.status.fullyQualifiedTopicPrefix == s.names.topicPrefix
              && res.status.synchronizationTime == now && res.status.errors == []
              && (res.deleteFinalized <==> s.deleting)
              && if s.deleting then
                   && res.status.message == "Stream, ACLs and data permanently deleted"
                   && res.status.synchronizationState == was.synchronizationState
                   && res.status.synchronizationHash == was.synchronizationHash
                 else
                   && res.status.message == "Stream configuration synchronized to Kafka pool"
                   && res.status.synchronizationState == "RolloutComplete"
                   && Ok(res.status.synchronizationHash) == env.hash(s.spec)
  {
    hide AclManager.SyncAcls, DeleteTopics, Failed, AclsOf, AclError;
    FailedFields(env);
  }

  /** A wrong pool, or one whose name does not resolve, keeps a stream from being touched at all. */
  lemma UnpreparedIsQuiet(env: Setup, s: Stream, r: Remote, now: string)
    requires Unprepared(env, s) || !Resolves(r)
    ensures ProcessStream(env, s, r, now).remote.log == r.log
  {
    hide AclManager.SyncAcls, DeleteTopics, Failed, AclsOf, AclError;
  }

  // ----- The topics that are deleted -----

  function WithPrefix(names: seq<string>, prefix: string): seq<string> {
    if names == [] then []
    else (if prefix <= names[0] then [names[0]] else []) + WithPrefix(names[1..], prefix)
  }

  function Deletions(names: seq<string>): seq<Call> {
    seq(|names|, (i: int) requires 0 <= i < |names| => DeleteTopicCall(names[i]))
  }

  ghost predicate Names(e: Error, topic: string) {
    exists text: string :: e == PlainError("failed to delete topic '" + topic + "' on Aiven: " + text)
  }

  /**
    The topics with the prefix are deleted in the order of the listing up to the first failure, whose error names
    the topic. A topic that has gone in the meantime is such a failure.
  */
  lemma {:induction false} DeletionsInOrder(r: Remote, names: seq<string>, prefix: string) returns (n: nat)
    ensures var res, doomed := DeleteTopics(r, names, prefix, false), WithPrefix(names, prefix);
            && n <= |doomed| && res.remote.log == r.log + Deletions(doomed[..n])
            && (forall k :: k in res.remote.topics ==> k in r.topics)
            && (if res.answer.None? then n == |doomed| && forall k :: k in names && prefix <= k ==> k in r.topics
                else n > 0 && Names(res.answer.value, doomed[n - 1]))
    decreases |names|
  {
    var doomed := WithPrefix(names, prefix);
    if names == [] {
      n := 0;
    } else if !HasPrefix(names[0], prefix) {
      n := DeletionsInOrder(r, names[1..], prefix);
      assert doomed == WithPrefix(names[1..], prefix);
    } else {
      var deleted := DeleteTopic(r, names[0]);
      assert deleted.remote.log == r.log + [DeleteTopicCall(names[0])];
      assert deleted.answer.None? ==> names[0] in r.topics;
      assert forall k :: k in deleted.remote.topics ==> k in r.topics;
      hide DeleteTopic;
      assert doomed == [names[0]] + WithPrefix(names[1..], prefix);
      if deleted.answer.Some? {
        n := 1;
        assert doomed[..1] == [names[0]];
        assert Deletions([names[0]]) == [DeleteTopicCall(names[0])];
        assert TopicError(names[0], deleted.answer.value)
               == PlainError("failed to delete topic '" + names[0] + "' on Aiven: " + deleted.answer.value.text);
      } else {
        var m := DeletionsInOrder(deleted.remote, names[1..], prefix);
        n := m + 1;
        var rest := WithPrefix(names[1..], prefix)[..m];
        assert doomed[..n] == [names[0]] + rest;
        assert Deletions([names[0]] + rest) == [DeleteTopicCall(names[0])] + Deletions(rest);
      }
    }
  }

  // ----- What is stored -----

  /** The resource as a reconcile writes it back. */
  function WrittenBack(s: Stream, res: StreamReconcileResult): Stream {
    s.(status := Some(res.status),
       finalizers := if res.error.Some? then s.finalizers
                     else if res.deleteFinalized then s.finalizers - {Resources.FINALIZER}
                     else s.finalizers + {Resources.FINALIZER})
  }

  /**
    A reconcile writes back what Process answers, and touches the finalizer only after a success; it writes nothing
    if there is no resource to be had or Process has skipped it. It is repeated exactly if the resource could not be
    read, or Process asks for it, or the write after a success was not accepted.
  */
  lemma ReconcileMeans(env: Setup, stored: Option<Stream>, r: Remote, getFails: bool, w: TopicReconciler.Write,
                       now: string)
    ensures var res := ReconcileStream(env, stored, r, getFails, w, now);
            if getFails || stored.None? then res == Reconciled(stored, r, getFails)
            else
              var p := ProcessStream(env, stored.value, r, now);
              var u := WrittenBack(stored.value, p.result);
              && res.remote == p.remote
              && (res.requeue <==> p.result.requeue || (p.result.error.None? && !p.result.skipped && !w.Accepted?))
              && res.stored == if p.result.skipped || w.Rejected? then stored
                               else if u.deleting && u.finalizers == {} then None
                               else Some(u)
  {
    if stored.Some? {
      SkippedIff(env, stored.value, r, now);
      RequeueIff(env, stored.value, r, now);
    }
    hide ProcessStream;
  }
}
