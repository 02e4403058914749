/** The Topic reconcile loop (controllers/topic_controller.go). */
module TopicReconciler {
  import opened Basics
  import opened Errors
  import opened TopicModel
  import opened AivenService
  import opened Scrubbing
  import opened Resources
  import opened Synchronizer
  import AclManager

  const NO_HASH := PlainError("unable to calculate synchronization hash")

  /** What the reconciler is set up with. */
  datatype Setup = Setup(lib: Library, projects: seq<string>, dryRun: bool)

  datatype TopicReconcileResult = TopicReconcileResult(
    deleteFinalized: bool,
    skipped: bool,
    requeue: bool,
    status: TopicStatus,
    error: Option<string>)

  const SKIPPED := TopicReconcileResult(false, true, false, NO_STATUS, None)

  function WrongPool(pool: string): Error {
    PlainError("pool '" + pool + "' cannot be used in this cluster")
  }

  function Prefixed(prefix: string, e: Error): Error {
    PlainError(prefix + e.text)
  }

  /** An error with status 200 carries a response body, which is not passed on. */
  predicate BodyError(e: Error) {
    e.AivenError? && e.status == HTTP_OK
  }

  /** The message and the error list that end up in the status. */
  function Report(e: Error): (string, seq<string>) {
    if e.PlainError? then (e.text, [e.text])
    else if BodyError(e) then (UNKNOWN, [UNKNOWN])
    else (e.message, [e.message + ": " + e.moreInfo])
  }

  /** What the `fail` closure makes of the status and returns. */
  function Failed(lib: Library, status: TopicStatus, e: Error, state: string, retry: bool, now: string):
    TopicReconcileResult
  {
    var (message, errors) := Report(e);
    var propagated := CheckForPossibleCredentials(if BodyError(e) then PlainError(UNKNOWN) else e, lib.lower);
    TopicReconcileResult(
      false, false, retry,
      status.(message := message,
              errors := errors,
              synchronizationState := state,
              latestAivenSyncFailure := if retry then status.latestAivenSyncFailure else now),
      Some(state + ": " + propagated.text))
  }

  /** A result, the service after it, and the config the caller still holds. */
  datatype Processed = Processed(result: TopicReconcileResult, remote: Remote, config: Option<Settings>)

  function Finalized(status: TopicStatus, message: string, now: string): TopicReconcileResult {
    TopicReconcileResult(
      true, false, false, status.(message := message, synchronizationTime := now, errors := []), None)
  }

  const DATA_KEPT := "Topic and ACLs deleted, data kept"
  const DATA_DELETED := "Topic, ACLs and data permanently deleted"

  function ProcessDeletion(env: Setup, t: StoredTopic, status: TopicStatus, r: Remote, now: string): Processed {
    var acls := AclManager.SyncAcls(r, FullName(t), [], env.lib.userName, env.dryRun);
    if acls.answer.Some? then
      Processed(Failed(env.lib, status, Prefixed("failed to delete ACLs on Aiven: ", acls.answer.value),
                       env.lib.failedSynchronization, true, now),
                acls.remote, t.spec.config)
    else if !t.removeData then
      Processed(Finalized(status, DATA_KEPT, now), acls.remote, t.spec.config)
    else
      var deleted := if env.dryRun then Reply(None, acls.remote) else DeleteTopic(acls.remote, FullName(t));
      if deleted.answer.Some? && !IsNotFound(deleted.answer.value) then
        Processed(Failed(env.lib, status.(message := DATA_KEPT),
                         Prefixed("failed to delete topic on Aiven: ", deleted.answer.value),
                         env.lib.failedSynchronization, true, now),
                  deleted.remote, t.spec.config)
      else Processed(Finalized(status, DATA_DELETED, now), deleted.remote, t.spec.config)
  }

  function RolledOut(status: TopicStatus, hash: string, now: string): TopicReconcileResult {
    TopicReconcileResult(
      false, false, false,
      status.(synchronizationTime := now,
              synchronizationState := ROLLOUT_COMPLETE,
              synchronizationHash := hash,
              message := "Topic configuration synchronized to Kafka pool",
              errors := [],
              latestAivenSyncFailure := ""),
      None)
  }

  function ProcessSync(env: Setup, t: StoredTopic, status: TopicStatus, r: Remote, now: string): Processed {
    var lib := env.lib;
    var spec := Defaulted(lib, t.spec);
    var config := if t.spec.config.Some? then spec.config else None;
    var hash := lib.hash(spec);
    if hash.Err? then
      Processed(Failed(lib, status, NO_HASH, lib.failedPrepare, false, now), r, config)
    else if !lib.needsSync(t.status, hash.value) then
      Processed(SKIPPED, r, config)
    else if t.spec.pool !in env.projects then
      Processed(Failed(lib, status, WrongPool(t.spec.pool), lib.failedPrepare, false, now), r, config)
    else
      var resolved := ResolveServiceName(r);
      if resolved.answer.Some? then
        Processed(Failed(lib, status, resolved.answer.value, lib.failedSynchronization, false, now),
                  resolved.remote, config)
      else
        var synced := SyncBoth(resolved.remote, FullName(t), spec.acl, spec.config, lib.userName, env.dryRun);
        if synced.answer.Some? then
          Processed(Failed(lib, status, synced.answer.value, lib.failedSynchronization, true, now),
                    synced.remote, config)
        else Processed(RolledOut(status, hash.value, now), synced.remote, config)
  }

  function ProcessTopic(env: Setup, t: StoredTopic, r: Remote, now: string): Processed {
    var status := StatusOf(t).(fullyQualifiedName := FullName(t));
    var resolved := ResolveServiceName(r);
    if resolved.answer.Some? then
      Processed(Failed(env.lib, status, resolved.answer.value, env.lib.failedSynchronization, false, now),
                resolved.remote, t.spec.config)
    else if t.deleting then ProcessDeletion(env, t, status, resolved.remote, now)
    else ProcessSync(env, t, status, resolved.remote, now)
  }

  // ----- The cluster -----

  /** How an Update of the resource ends; Lost is one that was stored although it reported an error. */
  datatype Write = Accepted | Rejected | Lost

  /** The resource after an Update: one being deleted goes away with its last finalizer. */
  function Stored(stored: Option<StoredTopic>, t: StoredTopic, w: Write): Option<StoredTopic> {
    if stored.None? || w.Rejected? then stored
    else if t.deleting && t.finalizers == {} then None
    else Some(t)
  }

  datatype Reconciled = Reconciled(stored: Option<StoredTopic>, remote: Remote, requeue: bool)

  function ReconcileTopic(env: Setup, stored: Option<StoredTopic>, r: Remote, getFails: bool, w: Write, now: string):
    Reconciled
  {
    if getFails then Reconciled(stored, r, true)
    else if stored.None? then Reconciled(stored, r, false)
    else
      var t := stored.value.(finalizers := stored.value.finalizers + {FINALIZER});
      var p := ProcessTopic(env, t, r, now);
      var written := t.(spec := t.spec.(config := p.config), status := Some(p.result.status));
      if p.result.skipped then Reconciled(stored, p.remote, false)
      else if p.result.error.Some? then Reconciled(Stored(stored, written, w), p.remote, p.result.requeue)
      else
        var final := if p.result.deleteFinalized then written.(finalizers := t.finalizers - {FINALIZER}) else written;
        Reconciled(Stored(stored, final, w), p.remote, !w.Accepted?)
  }

  /** The Kubernetes API, holding the one resource the reconciler is asked about. */
  class Cluster {
    var stored: Option<StoredTopic>

    constructor (stored: Option<StoredTopic>)
      ensures this.stored == stored
    {
      this.stored := stored;
    }

    /** Every Get decodes a Config of its own. */
    method Get() returns (topic: Option<Topic<Config?>>)
      ensures topic.Some? <==> stored.Some?
      ensures topic.Some? ==> Values(topic.value) == stored.value
      ensures topic.Some? && topic.value.spec.config != null ==> fresh(topic.value.spec.config)
    {
      if stored.None? {
        return None;
      }
      var s := stored.value;
      var config: Config? := null;
      if s.spec.config.Some? {
        config := new Config(s.spec.config.value);
      }
      return Some(Topic(s.namespace, s.name, s.deleting, s.finalizers, s.removeData,
                        TopicSpec(s.spec.pool, config, s.spec.acl), s.status));
    }

    method Update(topic: Topic<Config?>, w: Write) returns (failed: bool)
      modifies this
      ensures stored == Stored(old(stored), Values(topic), w)
      ensures failed <==> !w.Accepted?
    {
      stored := Stored(stored, Values(topic), w);
      failed := !w.Accepted?;
    }
  }

  class Reconciler {
    const cluster: Cluster
    const aiven: Aiven
    const env: Setup

    constructor (cluster: Cluster, aiven: Aiven, env: Setup)
      ensures this.cluster == cluster && this.aiven == aiven && this.env == env
    {
      this.cluster, this.aiven, this.env := cluster, aiven, env;
    }

    /** Takes the topic by value; its config is shared with the caller. */
    method Process(topic: Topic<Config?>, now: string) returns (result: TopicReconcileResult)
      modifies aiven, topic.spec.config
      ensures Processed(result, aiven.state, ValuesOf(topic.spec.config))
              == ProcessTopic(env, old(Values(topic)), old(aiven.state), now)
    {
      hide Failed, RolledOut, AclManager.SyncAcls, SyncBoth, DeleteTopic, ResolveServiceName;
      var lib := env.lib;
      var status := StatusOf(topic).(fullyQualifiedName := FullName(topic));
      var err := aiven.ResolveKafkaServiceName();
      if err.Some? {
        return Failed(lib, status, err.value, lib.failedSynchronization, false, now);
      }

      if topic.deleting {
        var acls := new AclManager.Manager(aiven, FullName(topic), [], lib.userName, env.dryRun);
        err := acls.Synchronize();
        if err.Some? {
          return Failed(lib, status, Prefixed("failed to delete ACLs on Aiven: ", err.value),
                        lib.failedSynchronization, true, now);
        }
        status := status.(message := DATA_KEPT);
        if topic.removeData {
          if !env.dryRun {
            err := aiven.TopicDelete(FullName(topic));
          }
          if err.Some? && !IsNotFound(err.value) {
            return Failed(lib, status, Prefixed("failed to delete topic on Aiven: ", err.value),
                          lib.failedSynchronization, true, now);
          }
          status := status.(message := DATA_DELETED);
        }
        return Finalized(status, status.message, now);
      }

      var own := topic;
      if own.spec.config == null {
        var empty := new Config(NO_SETTINGS);
        own := own.(spec := own.spec.(config := empty));
      }
      own.spec.config.settings := lib.applyDefaults(own.spec.config.settings);
      assert Values(own).spec == Defaulted(lib, old(Values(topic)).spec);

      var hash := lib.hash(Values(own).spec);
      if hash.Err? {
        return Failed(lib, status, NO_HASH, lib.failedPrepare, false, now);
      }
      if !lib.needsSync(topic.status, hash.value) {
        return SKIPPED;
      }
      if topic.spec.pool !in env.projects {
        return Failed(lib, status, WrongPool(topic.spec.pool), lib.failedPrepare, false, now);
      }
      var synchronizer;
      synchronizer, err := NewSynchronizer(aiven, own, lib.userName, env.dryRun);
      if err.Some? {
        return Failed(lib, status, err.value, lib.failedSynchronization, false, now);
      }
      err := synchronizer.Synchronize();
      if err.Some? {
        return Failed(lib, status, err.value, lib.failedSynchronization, true, now);
      }
      return RolledOut(status, hash.value, now);
    }

    method Reconcile(getFails: bool, w: Write, now: string) returns (requeue: bool)
      modifies aiven, cluster
      ensures Reconciled(cluster.stored, aiven.state, requeue)
              == ReconcileTopic(env, old(cluster.stored), old(aiven.state), getFails, w, now)
    {
      if getFails {
        return true;
      }
      var got := cluster.Get();
      if got.None? {
        return false;
      }
      var topic := got.value;
      topic := topic.(finalizers := topic.finalizers + {FINALIZER});
      var result := Process(topic, now);
      if result.skipped {
        return false;
      }
      if result.error.Some? {
        topic := topic.(status := Some(result.status));
        var _ := cluster.Update(topic, w);
        return result.requeue;
      }
      if result.deleteFinalized {
        topic := topic.(finalizers := topic.finalizers - {FINALIZER});
      }
      topic := topic.(status := Some(result.status));
      requeue := cluster.Update(topic, w);
    }
  }
}
