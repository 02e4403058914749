/** Topic settings: what Aiven stores, what a request sends, what a spec's Config asks for. */
module TopicModel {
  import opened Basics

  /** A topic at Aiven, every configuration value present; `partitions` is their number. */
  datatype KafkaTopic = KafkaTopic(
    partitions: int,
    replication: int,
    cleanupPolicy: string,
    deleteRetentionMs: int,
    maxMessageBytes: int,
    minInsyncReplicas: int,
    retentionBytes: int,
    retentionMs: int,
    localRetentionBytes: int,
    localRetentionMs: int,
    remoteStorageEnable: bool,
    segmentMs: int,
    minCleanableDirtyRatio: real,
    minCompactionLagMs: int,
    maxCompactionLagMs: int)

  /** The fields a create or update request carries; None, or the empty policy, is not sent. */
  datatype TopicRequest = TopicRequest(
    partitions: Option<int>,
    replication: Option<int>,
    cleanupPolicy: string,
    deleteRetentionMs: Option<int>,
    maxMessageBytes: Option<int>,
    minInsyncReplicas: Option<int>,
    retentionBytes: Option<int>,
    retentionMs: Option<int>,
    localRetentionBytes: Option<int>,
    localRetentionMs: Option<int>,
    remoteStorageEnable: Option<bool>,
    segmentMs: Option<int>,
    minCleanableDirtyRatio: Option<real>,
    minCompactionLagMs: Option<int>,
    maxCompactionLagMs: Option<int>)

  /** A Kubernetes int-or-string as the percentage parser reads it. */
  datatype IntOrString = IntVal(value: int) | Percentage(percent: int) | Malformed(text: string)

  /** The values of a spec's Config. */
  datatype Settings = Settings(
    cleanupPolicy: Option<string>,
    deleteRetentionHours: Option<int>,
    localRetentionBytes: Option<int>,
    localRetentionHours: Option<int>,
    maxCompactionLagMs: Option<int>,
    maxMessageBytes: Option<int>,
    minCleanableDirtyRatioPercent: Option<IntOrString>,
    minCompactionLagMs: Option<int>,
    minimumInSyncReplicas: Option<int>,
    partitions: Option<int>,
    replication: Option<int>,
    retentionBytes: Option<int>,
    retentionHours: Option<int>,
    segmentHours: Option<int>)

  const NO_SETTINGS := Settings(None, None, None, None, None, None, None, None, None, None, None, None, None, None)

  /** A spec's Config as the controllers hold it: an object shared by every copy of the Topic. */
  class Config {
    var settings: Settings

    constructor (settings: Settings)
      ensures this.settings == settings
    {
      this.settings := settings;
    }
  }

  function ValuesOf(config: Config?): Option<Settings>
    reads config
  {
    if config == null then None else Some(config.settings)
  }

  function Or<T>(sent: Option<T>, current: T): T {
    if sent.Some? then sent.value else current
  }

  /** A set request field overwrites, an unset one leaves alone. */
  function Overlay(t: KafkaTopic, q: TopicRequest): KafkaTopic {
    KafkaTopic(
      Or(q.partitions, t.partitions),
      Or(q.replication, t.replication),
      if q.cleanupPolicy == "" then t.cleanupPolicy else q.cleanupPolicy,
      Or(q.deleteRetentionMs, t.deleteRetentionMs),
      Or(q.maxMessageBytes, t.maxMessageBytes),
      Or(q.minInsyncReplicas, t.minInsyncReplicas),
      Or(q.retentionBytes, t.retentionBytes),
      Or(q.retentionMs, t.retentionMs),
      Or(q.localRetentionBytes, t.localRetentionBytes),
      Or(q.localRetentionMs, t.localRetentionMs),
      Or(q.remoteStorageEnable, t.remoteStorageEnable),
      Or(q.segmentMs, t.segmentMs),
      Or(q.minCleanableDirtyRatio, t.minCleanableDirtyRatio),
      Or(q.minCompactionLagMs, t.minCompactionLagMs),
      Or(q.maxCompactionLagMs, t.maxCompactionLagMs))
  }
}
