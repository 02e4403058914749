/**
  The kafka.nais.io resources as the controllers use them, and the functions of the resource library they
  call. The library is not shown in the repository, so its functions are parameters; `Lawful` is all that
  is assumed of them.
*/
module Resources {
  import opened Basics
  import opened Errors
  import opened AclModel
  import opened TopicModel
  import opened Scrubbing

  const FINALIZER := "kafkarator.kafka.nais.io"
  const ROLLOUT_COMPLETE := "RolloutComplete"

  datatype TopicStatus = TopicStatus(
    synchronizationState: string,
    synchronizationHash: string,
    synchronizationTime: string,
    errors: seq<string>,
    message: string,
    fullyQualifiedName: string,
    latestAivenSyncFailure: string)

  const NO_STATUS := TopicStatus("", "", "", [], "", "", "")

  /** `C` is how the config is held: by value in the cluster, by reference in the controller. */
  datatype TopicSpec<+C> = TopicSpec(pool: string, config: C, acl: seq<TopicACL>)

  datatype Topic<+C> = Topic(
    namespace: string,
    name: string,
    deleting: bool,
    finalizers: set<string>,
    removeData: bool,
    spec: TopicSpec<C>,
    status: Option<TopicStatus>)

  type StoredSpec = TopicSpec<Option<Settings>>
  type StoredTopic = Topic<Option<Settings>>

  function FullName<C>(t: Topic<C>): string {
    t.namespace + "." + t.name
  }

  function StatusOf<C>(t: Topic<C>): TopicStatus {
    Or(t.status, NO_STATUS)
  }

  datatype Library = Library(
    userName: TopicACL -> Result<string, Error>,
    applyDefaults: Settings -> Settings,
    hash: StoredSpec -> Result<string, Error>,
    needsSync: (Option<TopicStatus>, string) -> bool,
    lower: char -> char,
    failedPrepare: string,
    failedSynchronization: string)

  ghost predicate Lawful(lib: Library) {
    && (forall s :: lib.applyDefaults(lib.applyDefaults(s)) == lib.applyDefaults(s))
    && (forall status: TopicStatus :: !lib.needsSync(Some(status), status.synchronizationHash))
    && LowerCases(lib.lower)
    && lib.failedPrepare != ROLLOUT_COMPLETE && lib.failedSynchronization != ROLLOUT_COMPLETE
    && !Reveals(lib.failedPrepare, lib.lower) && !Reveals(lib.failedSynchronization, lib.lower)
  }

  /** The spec with its config's defaults filled in, as it is hashed and synchronised. */
  function Defaulted(lib: Library, spec: StoredSpec): StoredSpec {
    spec.(config := Some(lib.applyDefaults(Or(spec.config, NO_SETTINGS))))
  }

  /** The stored form of a topic in memory. */
  function Values(t: Topic<Config?>): StoredTopic
    reads t.spec.config
  {
    Topic(t.namespace, t.name, t.deleting, t.finalizers, t.removeData,
          TopicSpec(t.spec.pool, ValuesOf(t.spec.config), t.spec.acl), t.status)
  }
}
