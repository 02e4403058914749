/** What a Topic reconcile answers and stores, in terms of what it meets: its guards, its calls' answers, its error. */
module TopicOutcomes {
  import opened Basics
  import opened Errors
  import opened AivenService
  import opened Resources
  import opened Scrubbing
  import opened Synchronizer
  import opened TopicGuarantees
  import opened TopicModel
  import opened TopicReconciler
  import AclManager

  /** The pool's name resolves at the first attempt. */
  predicate Resolves(r: Remote) {
    NextRead(r).answer.None?
  }

  /** And again at the second. */
  predicate ResolvesAgain(r: Remote) {
    NextRead(NextRead(r).remote).answer.None?
  }

  function HashFor(env: Setup, t: StoredTopic): Result<string, Error> {
    env.lib.hash(t.spec.(config := Some(env.lib.applyDefaults(Or(t.spec.config, NO_SETTINGS)))))
  }

  /** The spec cannot be hashed, or its pool is not one of the cluster's: nothing that another attempt would change. */
  predicate Unprepared(env: Setup, t: StoredTopic) {
    !t.deleting &&
    (HashFor(env, t).Err? || (env.lib.needsSync(t.status, HashFor(env, t).value) && t.spec.pool !in env.projects))
  }

  lemma SkippedIff(env: Setup, t: StoredTopic, r: Remote, now: string)
    ensures var res := ProcessTopic(env, t, r, now).result;
            && (res.skipped <==>
                  && Resolves(r) && !t.deleting
                  && HashFor(env, t).Ok? && !env.lib.needsSync(t.status, HashFor(env, t).value))
            && (res.skipped ==> res.error.None? && !res.requeue && !res.deleteFinalized)
  {
    hide AclManager.SyncAcls, SyncBoth, DeleteTopic, Failed, Finalized, RolledOut;
    FailedFields(env.lib);
  }

  /** The fields that all failures have in common. */
  lemma FailedFields(lib: Library)
    ensures forall status, e, state, retry, now ::
              var res := Failed(lib, status, e, state, retry, now);
              !res.skipped && !res.deleteFinalized && res.error.Some? && res.requeue == retry
    ensures forall status, message, now ::
              var res := Finalized(status, message, now);
              !res.skipped && res.deleteFinalized && res.error.None? && !res.requeue
    ensures forall status, hash, now ::
              var res := RolledOut(status, hash, now);
              !res.skipped && !res.deleteFinalized && res.error.None? && !res.requeue
  {
  }

  /**
    A failed reconcile is to be repeated exactly if a call at Aiven failed once the work had begun: not if the
    pool's name did not resolve, nor if the spec stands in the way.
  */
  lemma RequeueIff(env: Setup, t: StoredTopic, r: Remote, now: string)
    ensures var res := ProcessTopic(env, t, r, now).result;
            res.requeue <==>
              && res.error.Some? && Resolves(r)
              && (t.deleting || (HashFor(env, t).Ok? && t.spec.pool in env.projects && ResolvesAgain(r)))
  {
    hide AclManager.SyncAcls, SyncBoth, DeleteTopic, Failed, Finalized, RolledOut;
    FailedFields(env.lib);
  }

  // ----- The status -----

  /** The state of a failed reconcile: the spec stood in the way, or something at Aiven did. */
  function FailedState(env: Setup, t: StoredTopic, r: Remote): string {
    if Resolves(r) && Unprepared(env, t) then env.lib.failedPrepare else env.lib.failedSynchronization
  }

  /** What a failure does to the status; what it does not mention stays. */
  predicate FailureStatus(lib: Library, was: TopicStatus, name: string, e: Error, state: string, retry: bool,
                          now: string, res: TopicReconcileResult)
  {
    var shown := if e.AivenError? && e.status == 200 then UNKNOWN else e.text;
    && res.error == Some(state + ": " + if Reveals(shown, lib.lower) then REDACTED else shown)
    && res.status.synchronizationState == state
    && res.status.synchronizationHash == was.synchronizationHash
    && res.status.synchronizationTime == was.synchronizationTime
    && res.status.fullyQualifiedName == name
    && res.status.latestAivenSyncFailure == (if retry then was.latestAivenSyncFailure else now)
    && match e
       case PlainError(text) => res.status.message == text && res.status.errors == [text]
       case AivenError(code, message, moreInfo, _) =>
         if code == 200 then res.status.message == UNKNOWN && res.status.errors == [UNKNOWN]
         else res.status.message == message && res.status.errors == [message + ": " + moreInfo]
  }

  lemma FailedStatus(lib: Library, was: TopicStatus, name: string, m: string, e: Error, state: string, retry: bool,
                     now: string)
    ensures FailureStatus(lib, was, name, e, state, retry, now,
                          Failed(lib, was.(fullyQualifiedName := name), e, state, retry, now))
    ensures FailureStatus(lib, was, name, e, state, retry, now,
                          Failed(lib, was.(fullyQualifiedName := name, message := m), e, state, retry, now))
  {
    hide UNKNOWN, REDACTED, Reveals;
  }

  lemma DeletionFailureMeans(env: Setup, t: StoredTopic, r: Remote, now: string)
    ensures var status := StatusOf(t).(fullyQualifiedName := FullName(t));
            var res, cause := ProcessDeletion(env, t, status, r, now).result, DeletionCause(env, t, r);
            && (res.error.Some? <==> cause.Some?)
            && (res.error.Some? ==>
                  res.requeue && FailureStatus(env.lib, StatusOf(t), FullName(t), cause.value,
                                               env.lib.failedSynchronization, true, now, res))
  {
    hide AclManager.SyncAcls, DeleteTopic, Failed, Finalized, FailureStatus, FullName;
    FailedFields(env.lib);
    if DeletionCause(env, t, r).Some? {
      FailedStatus(env.lib, StatusOf(t), FullName(t), DATA_KEPT, DeletionCause(env, t, r).value,
                   env.lib.failedSynchronization, true, now);
    }
  }

  lemma SyncFailureMeans(env: Setup, t: StoredTopic, r: Remote, now: string)
    requires !t.deleting
    ensures var status := StatusOf(t).(fullyQualifiedName := FullName(t));
            var res, cause := ProcessSync(env, t, status, r, now).result, SyncCause(env, t, r);
            && (res.error.Some? <==> cause.Some?)
            && (res.error.Some? ==>
                  FailureStatus(env.lib, StatusOf(t), FullName(t), cause.value,
                                if Unprepared(env, t) then env.lib.failedPrepare else env.lib.failedSynchronization,
                                res.requeue, now, res))
  {
    hide SyncBoth, Failed, RolledOut, FailureStatus, FullName;
    FailedFields(env.lib);
    if SyncCause(env, t, r).Some? {
      var state := if Unprepared(env, t) then env.lib.failedPrepare else env.lib.failedSynchronization;
      FailedStatus(env.lib, StatusOf(t), FullName(t), "", SyncCause(env, t, r).value, state, true, now);
      FailedStatus(env.lib, StatusOf(t), FullName(t), "", SyncCause(env, t, r).value, state, false, now);
    }
  }

  /**
    Every failing call of Process, by the error that ended it: what it answers and what is left of the status. Only
    a failure that is not to be repeated is noted with its time.
  */
  lemma FailureMeans(env: Setup, t: StoredTopic, r: Remote, now: string)
    ensures var res, cause := ProcessTopic(env, t, r, now).result, Cause(env, t, r);
            && (res.error.Some? <==> cause.Some?)
            && (res.error.Some? ==>
                  FailureStatus(env.lib, StatusOf(t), FullName(t), cause.value, FailedState(env, t, r), res.requeue,
                                now, res))
  {
    var resolved := ResolveServiceName(r);
    hide Failed, FailureStatus, FullName, ProcessDeletion, ProcessSync, DeletionCause, SyncCause, Unprepared;
    FailedFields(env.lib);
    if resolved.answer.Some? {
      FailedStatus(env.lib, StatusOf(t), FullName(t), "", resolved.answer.value, env.lib.failedSynchronization, false,
                   now);
    } else if t.deleting {
      DeletionIsPrepared(env, t);
      DeletionFailureMeans(env, t, resolved.remote, now);
    } else {
      SyncFailureMeans(env, t, resolved.remote, now);
    }
  }

  lemma DeletionIsPrepared(env: Setup, t: StoredTopic)
    requires t.deleting
    ensures !Unprepared(env, t)
  {
  }

  /** What a call that ends well makes of the status. */
  lemma SuccessMeans(env: Setup, t: StoredTopic, r: Remote, now: string)
    ensures var res, was := ProcessTopic(env, t, r, now).result, StatusOf(t);
            res.error.None? && !res.skipped ==>
              && res.status.fullyQualifiedName == FullName(t)
              && res.status.synchronizationTime == now && res.status.errors == []
              && (res.deleteFinalized <==> t.deleting)
              && if t.deleting then
                   && res.status.message == (if t.removeData then "Topic, ACLs and data permanently deleted"
                                             else "Topic and ACLs deleted, data kept")
                   && res.status.synchronizationState == was.synchronizationState
                   && res.status.synchronizationHash == was.synchronizationHash
                   && res.status.latestAivenSyncFailure == was.latestAivenSyncFailure
                 else
                   && res.status.message == "Topic configuration synchronized to Kafka pool"
                   && res.status.synchronizationState == "RolloutComplete"
                   && Ok(res.status.synchronizationHash) == HashFor(env, t)
                   && res.status.latestAivenSyncFailure == ""
  {
    hide AclManager.SyncAcls, SyncBoth, DeleteTopic, Failed, FullName;
    FailedFields(env.lib);
  }

  // ----- The config -----

  /** Once the pool's name has resolved, and without a deletion, a config gets its defaults for the caller as well. */
  lemma ConfigMeans(env: Setup, t: StoredTopic, r: Remote, now: string)
    ensures ProcessTopic(env, t, r, now).config
            == if Resolves(r) && !t.deleting && t.spec.config.Some?
               then Some(env.lib.applyDefaults(t.spec.config.value)) else t.spec.config
  {
    hide AclManager.SyncAcls, SyncBoth, DeleteTopic, Failed, Finalized, RolledOut, FullName;
  }

  // ----- What is stored -----

  /** The resource as a reconcile writes it back. */
  function WrittenBack(env: Setup, t: StoredTopic, r: Remote, now: string): StoredTopic {
    var p := ProcessTopic(env, t.(finalizers := t.finalizers + {FINALIZER}), r, now);
    t.(spec := t.spec.(config := p.config), status := Some(p.result.status),
       finalizers := if p.result.deleteFinalized then t.finalizers - {FINALIZER} else t.finalizers + {FINALIZER})
  }

  /**
    A reconcile writes back what Process answers, with the finalizer unless the deletion is final, and writes nothing
    if there is no resource to be had or Process has skipped it. It is repeated exactly if the resource could not be
    read, or Process asks for it, or the write after a success was not accepted.
  */
  lemma ReconcileMeans(env: Setup, stored: Option<StoredTopic>, r: Remote, getFails: bool, w: Write, now: string)
    ensures var res := ReconcileTopic(env, stored, r, getFails, w, now);
            if getFails || stored.None? then res == Reconciled(stored, r, getFails)
            else
              var t := stored.value;
              var p, u := ProcessTopic(env, t.(finalizers := t.finalizers + {FINALIZER}), r, now),
                          WrittenBack(env, t, r, now);
              && res.remote == p.remote
              && (res.requeue <==> p.result.requeue || (p.result.error.None? && !p.result.skipped && !w.Accepted?))
              && res.stored == if p.result.skipped || w.Rejected? then stored
                               else if t.deleting && u.finalizers == {} then None
                               else Some(u)
  {
    if stored.Some? {
      var t := stored.value;
      var taken := t.(finalizers := t.finalizers + {FINALIZER});
      SkippedIff(env, taken, r, now);
      RequeueIff(env, taken, r, now);
      FailureNeverFinal(env, taken, r, now);
      assert taken.finalizers - {FINALIZER} == t.finalizers - {FINALIZER};
    }
    hide ProcessTopic, HashFor;
  }

  lemma FailureNeverFinal(env: Setup, t: StoredTopic, r: Remote, now: string)
    ensures var res := ProcessTopic(env, t, r, now).result; res.error.Some? ==> !res.deleteFinalized
  {
    hide AclManager.SyncAcls, SyncBoth, DeleteTopic, Failed, Finalized, RolledOut;
    FailedFields(env.lib);
  }
}
