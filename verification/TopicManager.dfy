/** The topic synchronisation of pkg/aiven/topic/topic.go: create the topic, or update it if its settings differ. */
module TopicManager {
  import opened Basics
  import opened Errors
  import opened AclModel
  import opened TopicModel
  import opened AivenService

  const DELETE_RETENTION_DEFAULT := 0
  const RETENTION_DEFAULT := -1
  const LOCAL_RETENTION_DEFAULT := -2

  const TWO_63 := 0x8000_0000_0000_0000
  const TWO_64 := 0x1_0000_0000_0000_0000
  const NS_PER_HOUR := 3_600_000_000_000
  const NS_PER_MS := 1_000_000
  const MS_PER_HOUR := 3_600_000

  /** The most hours an int64 count of nanoseconds can hold. */
  const MAX_HOURS := 2_562_047

  function Wrap64(x: int): int {
    (x + TWO_63) % TWO_64 - TWO_63
  }

  /** Division of int64 values: towards zero. */
  function Quotient(x: int, y: int): int
    requires y > 0
  {
    if x >= 0 then x / y else -(-x / y)
  }

  /** Hours as a time.Duration, in milliseconds; the product wraps around. */
  function HoursToMs(hours: int): int {
    Quotient(Wrap64(hours * NS_PER_HOUR), NS_PER_MS)
  }

  function RetentionMs(hours: Option<int>, default: int): Option<int> {
    if hours.None? then None
    else Some(if hours.value >= 0 then HoursToMs(hours.value) else default)
  }

  function SegmentMs(hours: Option<int>): Option<int> {
    if hours.None? then None
    else Some(HoursToMs(if hours.value < 1 then 1 else hours.value))
  }

  const BAD_PERCENT := PlainError(
    "failed to parse MinCleanableDirtyRatioPercent; must be a number 0-100 with optionally a percent sign")
  const BAD_REPLICAS := PlainError("MinimumInSyncReplicas shouldn't be bigger than Replication")

  function PercentToRatio(p: Option<IntOrString>): Result<Option<real>, Error> {
    if p.None? then Ok(None)
    else if p.value.Malformed? then Err(BAD_PERCENT)
    else
      var value := if p.value.IntVal? then p.value.value else p.value.percent;
      if value <= 0 || 100 < value then Err(BAD_PERCENT) else Ok(Some(value as real / 100.0))
  }

  predicate BiggerThan(first: Option<int>, second: Option<int>) {
    first.Some? && second.Some? && first.value > second.value
  }

  function EnableRemoteStorage(c: Settings): Option<bool> {
    if c.localRetentionBytes.Some? && c.localRetentionBytes.value > 0 then Some(true)
    else if c.localRetentionHours.Some? && c.localRetentionHours.value > 0 then Some(true)
    else None
  }

  predicate ValueChanged(sent: Option<int>, current: int) {
    sent.Some? && current != sent.value
  }

  predicate TopicConfigChanged(t: KafkaTopic, config: Option<Settings>) {
    config.Some? &&
    var c := config.value;
    || ValueChanged(c.replication, t.replication)
    || ValueChanged(c.partitions, t.partitions)
    || ValueChanged(RetentionMs(c.retentionHours, RETENTION_DEFAULT), t.retentionMs)
    || ValueChanged(c.retentionBytes, t.retentionBytes)
    || ValueChanged(RetentionMs(c.deleteRetentionHours, DELETE_RETENTION_DEFAULT), t.deleteRetentionMs)
    || ValueChanged(RetentionMs(c.localRetentionHours, LOCAL_RETENTION_DEFAULT), t.localRetentionMs)
    || ValueChanged(c.localRetentionBytes, t.localRetentionBytes)
    || ValueChanged(c.minimumInSyncReplicas, t.minInsyncReplicas)
    || ValueChanged(SegmentMs(c.segmentHours), t.segmentMs)
    || ValueChanged(c.maxMessageBytes, t.maxMessageBytes)
    || ValueChanged(c.minCompactionLagMs, t.minCompactionLagMs)
    || ValueChanged(c.maxCompactionLagMs, t.maxCompactionLagMs)
    || (c.minCleanableDirtyRatioPercent.Some? &&
        var ratio := PercentToRatio(c.minCleanableDirtyRatioPercent);
        ratio.Err? || ratio.value.None? || t.minCleanableDirtyRatio != ratio.value.value)
  }

  /** The checks both kinds of request make first. */
  function CheckedRatio(c: Settings): Result<Option<real>, Error> {
    if BiggerThan(c.minimumInSyncReplicas, c.replication) then Err(BAD_REPLICAS)
    else PercentToRatio(c.minCleanableDirtyRatioPercent)
  }

  /** All that the settings ask for, as a request; the ratio has been checked already. */
  function Wish(c: Settings, ratio: Option<real>): TopicRequest {
    TopicRequest(
      c.partitions,
      c.replication,
      if c.cleanupPolicy.Some? then c.cleanupPolicy.value else "",
      RetentionMs(c.deleteRetentionHours, DELETE_RETENTION_DEFAULT),
      c.maxMessageBytes,
      c.minimumInSyncReplicas,
      c.retentionBytes,
      RetentionMs(c.retentionHours, RETENTION_DEFAULT),
      c.localRetentionBytes,
      RetentionMs(c.localRetentionHours, LOCAL_RETENTION_DEFAULT),
      EnableRemoteStorage(c),
      SegmentMs(c.segmentHours),
      ratio,
      c.minCompactionLagMs,
      c.maxCompactionLagMs)
  }

  function CreateRequest(c: Settings): Result<TopicRequest, Error> {
    var ratio := CheckedRatio(c);
    if ratio.Err? then Err(ratio.error) else Ok(Wish(c, ratio.value))
  }

  /** As a creation, but the deletion retention is not sent. */
  function UpdateRequest(c: Settings): Result<TopicRequest, Error> {
    match CreateRequest(c)
    case Err(e) => Err(e)
    case Ok(q) => Ok(q.(deleteRetentionMs := None))
  }

  function Created(r: Remote, name: string, c: Settings, dryRun: bool): Reply<Option<Error>> {
    match CreateRequest(c)
    case Err(e) => Reply(Some(e), r)
    case Ok(q) => if dryRun then Reply(None, r) else CreateTopic(r, name, q)
  }

  function Updated(r: Remote, name: string, c: Settings, dryRun: bool): Reply<Option<Error>> {
    match UpdateRequest(c)
    case Err(e) => Reply(Some(e), r)
    case Ok(q) => if dryRun then Reply(None, r) else UpdateTopic(r, name, q)
  }

  function SyncTopic(r: Remote, name: string, config: Option<Settings>, dryRun: bool): Reply<Option<Error>> {
    var got := GetTopic(r, name);
    if got.answer.Err? then
      if IsNotFound(got.answer.error) then Created(got.remote, name, Or(config, NO_SETTINGS), dryRun)
      else Reply(Some(got.answer.error), got.remote)
    else if TopicConfigChanged(got.answer.value, config) then Updated(got.remote, name, Or(config, NO_SETTINGS), dryRun)
    else Reply(None, got.remote)
  }

  class Manager {
    const aiven: Aiven
    const topicName: string
    const config: Config?
    const dryRun: bool

    constructor (aiven: Aiven, topicName: string, config: Config?, dryRun: bool)
      ensures this.aiven == aiven && this.topicName == topicName && this.config == config && this.dryRun == dryRun
    {
      this.aiven, this.topicName, this.config, this.dryRun := aiven, topicName, config, dryRun;
    }

    method Synchronize() returns (err: Option<Error>)
      modifies aiven
      ensures Reply(err, aiven.state) == SyncTopic(old(aiven.state), topicName, ValuesOf(config), dryRun)
    {
      var topic := aiven.TopicGet(topicName);
      if topic.Err? {
        if IsNotFound(topic.error) {
          err := Create();
          return;
        }
        return Some(topic.error);
      }
      if TopicConfigChanged(topic.value, ValuesOf(config)) {
        err := Update();
        return;
      }
      return None;
    }

    method Create() returns (err: Option<Error>)
      modifies aiven
      ensures Reply(err, aiven.state) == Created(old(aiven.state), topicName, Or(ValuesOf(config), NO_SETTINGS), dryRun)
    {
      var cfg := NO_SETTINGS;
      if config != null {
        cfg := config.settings;
      }
      var request := CreateRequest(cfg);
      if request.Err? {
        return Some(request.error);
      }
      if dryRun {
        return None;
      }
      err := aiven.TopicCreate(topicName, request.value);
    }

    method Update() returns (err: Option<Error>)
      modifies aiven
      ensures Reply(err, aiven.state) == Updated(old(aiven.state), topicName, Or(ValuesOf(config), NO_SETTINGS), dryRun)
    {
      var cfg := NO_SETTINGS;
      if config != null {
        cfg := config.settings;
      }
      var request := UpdateRequest(cfg);
      if request.Err? {
        return Some(request.error);
      }
      if dryRun {
        return None;
      }
      err := aiven.TopicUpdate(topicName, request.value);
    }
  }

  // ----- The comparison agrees with the request -----

  /** The topic with the three values blanked that an update does not both compare and send. */
  function Compared(t: KafkaTopic): KafkaTopic {
    t.(cleanupPolicy := "", remoteStorageEnable := false, deleteRetentionMs := 0)
  }

  /** An update is called for exactly when sending it would change one of the compared values. */
  lemma ChangedIffUpdateMatters(t: KafkaTopic, c: Settings)
    requires UpdateRequest(c).Ok? && c.deleteRetentionHours.None?
    ensures TopicConfigChanged(t, Some(c)) <==> Compared(Overlay(t, UpdateRequest(c).value)) != Compared(t)
  {
    var u := Overlay(t, UpdateRequest(c).value);
    if !TopicConfigChanged(t, Some(c)) {
      assert u.minCleanableDirtyRatio == t.minCleanableDirtyRatio;
    }
  }

  /** A percentage that does not parse is always taken for a change, which the update then refuses. */
  lemma BadPercentNeverSettles(t: KafkaTopic, c: Settings)
    requires PercentToRatio(c.minCleanableDirtyRatioPercent).Err?
    ensures TopicConfigChanged(t, Some(c)) && UpdateRequest(c).Err? && CreateRequest(c).Err?
  {
  }

  /** What is left over after an accepted update: only the deletion retention, which it does not send. */
  lemma ChangedAfterUpdate(t: KafkaTopic, c: Settings)
    requires UpdateRequest(c).Ok?
    ensures TopicConfigChanged(Overlay(t, UpdateRequest(c).value), Some(c))
            <==> c.deleteRetentionHours.Some?
                 && t.deleteRetentionMs != RetentionMs(c.deleteRetentionHours, DELETE_RETENTION_DEFAULT).value
  {
    var ratio := PercentToRatio(c.minCleanableDirtyRatioPercent);
    assert UpdateRequest(c).value.minCleanableDirtyRatio == ratio.value;
    hide HoursToMs, PercentToRatio, CheckedRatio, EnableRemoteStorage;
  }

  lemma UnchangedAfterCreate(defaults: KafkaTopic, c: Settings)
    requires CreateRequest(c).Ok?
    ensures !TopicConfigChanged(Overlay(defaults, CreateRequest(c).value), Some(c))
  {
    hide HoursToMs;
  }

  /**
    After a sync that reported success, the next one makes no mutating call, except in one case: the topic
    existed with another deletion retention than the one asked for.
  */
  lemma NextSyncIsQuietIff(r: Remote, name: string, c: Settings, next: Remote)
    requires SyncTopic(r, name, Some(c), false).answer.None?
    requires next.topics == SyncTopic(r, name, Some(c), false).remote.topics && NextRead(next).answer.None?
    ensures SyncTopic(next, name, Some(c), false).remote.log == next.log
            <==> !(name in r.topics && c.deleteRetentionHours.Some?
                   && r.topics[name].deleteRetentionMs
                      != RetentionMs(c.deleteRetentionHours, DELETE_RETENTION_DEFAULT).value)
  {
    var after := SyncTopic(r, name, Some(c), false).remote;
    assert name in after.topics;
    assert forall call :: next.log + [call] != next.log;
    if name !in r.topics {
      UnchangedAfterCreate(r.defaults, c);
    } else if TopicConfigChanged(r.topics[name], Some(c)) {
      ChangedAfterUpdate(r.topics[name], c);
    }
  }

  // ----- What an accepted request does -----

  /** A setting of hours: negative ones mean `negative`; within what an int64 holds, the others are milliseconds. */
  predicate HoursBecome(hours: Option<int>, negative: int, before: int, after: int) {
    match hours
    case None => after == before
    case Some(h) =>
      && (h < 0 ==> after == negative)
      && (0 <= h <= 2_562_047 ==> after == h * 3_600_000)
  }

  /** At least an hour. */
  predicate SegmentBecomes(hours: Option<int>, before: int, after: int) {
    match hours
    case None => after == before
    case Some(h) => h <= 2_562_047 ==> after == (if h < 1 then 1 else h) * 3_600_000
  }

  predicate PercentBecomes(percent: Option<IntOrString>, before: real, after: real) {
    match percent
    case None => after == before
    case Some(IntVal(v)) => after * 100.0 == v as real
    case Some(Percentage(v)) => after * 100.0 == v as real
    case Some(Malformed(_)) => false
  }

  predicate Positive(x: Option<int>) {
    x.Some? && x.value > 0
  }

  /** Field by field what the settings make of a topic, but for the deletion retention. */
  predicate Becomes(c: Settings, before: KafkaTopic, after: KafkaTopic) {
    && after.partitions == Or(c.partitions, before.partitions)
    && after.replication == Or(c.replication, before.replication)
    && after.cleanupPolicy == (if Or(c.cleanupPolicy, "") == "" then before.cleanupPolicy else c.cleanupPolicy.value)
    && after.maxMessageBytes == Or(c.maxMessageBytes, before.maxMessageBytes)
    && after.minInsyncReplicas == Or(c.minimumInSyncReplicas, before.minInsyncReplicas)
    && after.retentionBytes == Or(c.retentionBytes, before.retentionBytes)
    && HoursBecome(c.retentionHours, -1, before.retentionMs, after.retentionMs)
    && after.localRetentionBytes == Or(c.localRetentionBytes, before.localRetentionBytes)
    && HoursBecome(c.localRetentionHours, -2, before.localRetentionMs, after.localRetentionMs)
    && (after.remoteStorageEnable
        <==> before.remoteStorageEnable || Positive(c.localRetentionBytes) || Positive(c.localRetentionHours))
    && SegmentBecomes(c.segmentHours, before.segmentMs, after.segmentMs)
    && PercentBecomes(c.minCleanableDirtyRatioPercent, before.minCleanableDirtyRatio, after.minCleanableDirtyRatio)
    && after.minCompactionLagMs == Or(c.minCompactionLagMs, before.minCompactionLagMs)
    && after.maxCompactionLagMs == Or(c.maxCompactionLagMs, before.maxCompactionLagMs)
  }

  lemma HoursMean(h: int)
    ensures 0 <= h <= 2_562_047 ==> HoursToMs(h) == h * 3_600_000
  {
    if 0 <= h <= 2_562_047 {
      HoursExactIff(h);
    }
  }

  lemma HoursFields(hours: Option<int>, negative: int, before: int)
    ensures HoursBecome(hours, negative, before, Or(RetentionMs(hours, negative), before))
    ensures SegmentBecomes(hours, before, Or(SegmentMs(hours), before))
  {
    if hours.Some? {
      HoursMean(hours.value);
      HoursMean(1);
    }
    hide HoursToMs;
  }

  lemma PercentField(percent: Option<IntOrString>, before: real)
    requires PercentToRatio(percent).Ok?
    ensures PercentBecomes(percent, before, Or(PercentToRatio(percent).value, before))
  {
  }

  /** A creation gives the topic every setting of the spec, and Aiven's defaults where there is none. */
  lemma CreateGives(defaults: KafkaTopic, c: Settings)
    requires CreateRequest(c).Ok?
    ensures var after := Overlay(defaults, CreateRequest(c).value);
            && Becomes(c, defaults, after)
            && HoursBecome(c.deleteRetentionHours, 0, defaults.deleteRetentionMs, after.deleteRetentionMs)
  {
    HoursFields(c.retentionHours, RETENTION_DEFAULT, defaults.retentionMs);
    HoursFields(c.localRetentionHours, LOCAL_RETENTION_DEFAULT, defaults.localRetentionMs);
    HoursFields(c.deleteRetentionHours, DELETE_RETENTION_DEFAULT, defaults.deleteRetentionMs);
    HoursFields(c.segmentHours, 0, defaults.segmentMs);
    PercentField(c.minCleanableDirtyRatioPercent, defaults.minCleanableDirtyRatio);
    hide RetentionMs, SegmentMs, PercentToRatio, HoursBecome, SegmentBecomes, PercentBecomes;
  }

  /** An update gives the topic every setting of the spec but the deletion retention, which it leaves alone. */
  lemma UpdateGives(t: KafkaTopic, c: Settings)
    requires UpdateRequest(c).Ok?
    ensures var after := Overlay(t, UpdateRequest(c).value);
            Becomes(c, t, after) && after.deleteRetentionMs == t.deleteRetentionMs
  {
    CreateGives(t, c);
    hide RetentionMs, SegmentMs, PercentToRatio, EnableRemoteStorage, HoursBecome, SegmentBecomes, PercentBecomes;
  }

  /**
    Which call a sync makes, and what it does: none if the look-up fails, a creation if it says that the topic is
    not there, and an update if one of the compared values differs.
  */
  lemma SyncGives(r: Remote, name: string, c: Settings)
    ensures var res, answered := SyncTopic(r, name, Some(c), false), NextRead(r).answer;
            && (answered.Some? ==> res.answer == answered && res.remote.log == r.log)
            && (res.answer.None? ==>
                  && name in res.remote.topics
                  && var after := res.remote.topics[name];
                  && if name !in r.topics then
                       && Becomes(c, r.defaults, after)
                       && HoursBecome(c.deleteRetentionHours, 0, r.defaults.deleteRetentionMs, after.deleteRetentionMs)
                     else
                       && after.deleteRetentionMs == r.topics[name].deleteRetentionMs
                       && (after == r.topics[name] || Becomes(c, r.topics[name], after)))
  {
    hide Becomes, HoursBecome, TopicConfigChanged, Overlay, CreateRequest, UpdateRequest;
    if CreateRequest(c).Ok? {
      CreateGives(r.defaults, c);
    }
    if name in r.topics && UpdateRequest(c).Ok? {
      UpdateGives(r.topics[name], c);
    }
  }

  /** Without a config a topic that is there is left alone, and one that is not gets Aiven's defaults. */
  lemma NoConfigGives(r: Remote, name: string)
    ensures var res := SyncTopic(r, name, None, false);
            && (name in r.topics ==> res.remote.topics == r.topics && res.remote.log == r.log)
            && (name !in r.topics && res.answer.None? ==>
                  name in res.remote.topics && res.remote.topics[name] == r.defaults)
  {
    hide RetentionMs, SegmentMs;
    NothingAsked();
  }

  lemma NothingAsked()
    ensures RetentionMs(None, RETENTION_DEFAULT).None? && RetentionMs(None, LOCAL_RETENTION_DEFAULT).None?
    ensures RetentionMs(None, DELETE_RETENTION_DEFAULT).None? && SegmentMs(None).None?
  {
  }

  // ----- What the comparison overlooks -----

  /** The topic has all that the settings ask for: to overwrite it with them changes nothing. */
  predicate Satisfies(t: KafkaTopic, c: Settings) {
    var ratio := PercentToRatio(c.minCleanableDirtyRatioPercent);
    ratio.Ok? && Overlay(t, Wish(c, ratio.value)) == t
  }

  predicate RetentionAsked(t: KafkaTopic, c: Settings) {
    c.deleteRetentionHours.Some? ==>
      t.deleteRetentionMs == RetentionMs(c.deleteRetentionHours, DELETE_RETENTION_DEFAULT).value
  }

  /** The two settings that are sent but never compared are as asked. */
  predicate UncomparedAsked(t: KafkaTopic, c: Settings) {
    && (c.cleanupPolicy.Some? && c.cleanupPolicy.value != "" ==> t.cleanupPolicy == c.cleanupPolicy.value)
    && (EnableRemoteStorage(c).Some? ==> t.remoteStorageEnable)
  }

  /** A topic that was not there, or one whose deletion retention is right and whose other values get sent or are. */
  predicate Attains(found: Option<KafkaTopic>, c: Settings) {
    found.Some? ==>
      RetentionAsked(found.value, c) && (TopicConfigChanged(found.value, Some(c)) || UncomparedAsked(found.value, c))
  }

  function Found(topics: map<string, KafkaTopic>, name: string): Option<KafkaTopic> {
    if name in topics then Some(topics[name]) else None
  }

  /** The comparison sees all but the cleanup policy and the remote storage. */
  lemma SatisfiesIff(t: KafkaTopic, c: Settings)
    ensures Satisfies(t, c) <==> !TopicConfigChanged(t, Some(c)) && UncomparedAsked(t, c)
  {
    var ratio := PercentToRatio(c.minCleanableDirtyRatioPercent);
    if ratio.Ok? {
      var u := Overlay(t, Wish(c, ratio.value));
      assert u.minCleanableDirtyRatio == t.minCleanableDirtyRatio
             <==> ratio.value.None? || ratio.value.value == t.minCleanableDirtyRatio;
    }
    hide HoursToMs;
  }

  lemma CreatedSatisfies(defaults: KafkaTopic, c: Settings)
    requires CreateRequest(c).Ok?
    ensures Satisfies(Overlay(defaults, CreateRequest(c).value), c)
  {
    hide HoursToMs, RetentionMs, SegmentMs, EnableRemoteStorage;
  }

  lemma UpdatedSatisfiesIff(t: KafkaTopic, c: Settings)
    requires UpdateRequest(c).Ok?
    ensures Satisfies(Overlay(t, UpdateRequest(c).value), c) <==> RetentionAsked(t, c)
  {
    hide HoursToMs, SegmentMs, EnableRemoteStorage;
  }

  /**
    When a sync has succeeded, the topic has all that the settings ask for exactly if it was created, or if its
    deletion retention was right and either something compared differed, so that all was sent, or the cleanup
    policy and the remote storage were right as well.
  */
  lemma SyncSatisfiesIff(r: Remote, name: string, c: Settings)
    requires SyncTopic(r, name, Some(c), false).answer.None?
    ensures var after := SyncTopic(r, name, Some(c), false).remote;
            name in after.topics && (Satisfies(after.topics[name], c) <==> Attains(Found(r.topics, name), c))
  {
    if name !in r.topics {
      CreatedSatisfies(r.defaults, c);
    } else {
      SatisfiesIff(r.topics[name], c);
      UnchangedRetention(r.topics[name], c);
      if TopicConfigChanged(r.topics[name], Some(c)) {
        UpdatedSatisfiesIff(r.topics[name], c);
      }
    }
    hide TopicConfigChanged, Satisfies, CreateRequest, UpdateRequest, RetentionAsked, UncomparedAsked, Overlay;
  }

  lemma UnchangedRetention(t: KafkaTopic, c: Settings)
    ensures !TopicConfigChanged(t, Some(c)) ==> RetentionAsked(t, c)
  {
    hide HoursToMs;
  }

  // ----- What is never updated -----

  /** The service after `n` syncs in a row. */
  function AfterSyncs(r: Remote, name: string, c: Settings, n: nat): Remote {
    if n == 0 then r else SyncTopic(AfterSyncs(r, name, c, n - 1), name, Some(c), false).remote
  }

  /** A sync never changes the deletion retention of a topic that is there, whatever it is asked for. */
  lemma RetentionStays(r: Remote, name: string, c: Settings)
    requires name in r.topics
    ensures var after := SyncTopic(r, name, Some(c), false).remote;
            name in after.topics && after.topics[name].deleteRetentionMs == r.topics[name].deleteRetentionMs
  {
    hide TopicConfigChanged, CheckedRatio;
  }

  /** How many of the next `n` calls that read are going to be answered. */
  function Answered(answers: seq<Option<Fault>>, n: nat): nat {
    if n == 0 then 0
    else Answered(answers, n - 1) + if n <= |answers| && answers[n - 1].Some? then 0 else 1
  }

  function Rest(answers: seq<Option<Fault>>, n: nat): seq<Option<Fault>> {
    if n <= |answers| then answers[n..] else []
  }

  /**
    A topic that is there with another deletion retention than the one asked for is updated at every sync whose
    look-up is answered, for ever, whether the updates succeed or not.
  */
  lemma {:induction false} RetentionNeverSettles(r: Remote, name: string, c: Settings, n: nat)
    requires name in r.topics && UpdateRequest(c).Ok? && !RetentionAsked(r.topics[name], c)
    ensures var after := AfterSyncs(r, name, c, n);
            && after.answers == Rest(r.answers, n) && name in after.topics
            && after.topics[name].deleteRetentionMs == r.topics[name].deleteRetentionMs
            && after.log == r.log + seq(Answered(r.answers, n), _ => UpdateTopicCall(name, UpdateRequest(c).value))
  {
    if n > 0 {
      RetentionNeverSettles(r, name, c, n - 1);
      var before := AfterSyncs(r, name, c, n - 1);
      RetentionStays(before, name, c);
      UnchangedRetention(before.topics[name], c);
      OneMoreSync(before, name, c);
      hide TopicConfigChanged, UpdateRequest, HoursToMs, Overlay, SyncTopic;
      assert NextRead(before).answer.Some? <==> n <= |r.answers| && r.answers[n - 1].Some?;
    }
  }

  lemma OneMoreSync(r: Remote, name: string, c: Settings)
    requires name in r.topics && UpdateRequest(c).Ok? && TopicConfigChanged(r.topics[name], Some(c))
    ensures var after := SyncTopic(r, name, Some(c), false).remote;
            && after.answers == NextRead(r).remote.answers
            && after.log == if NextRead(r).answer.Some? then r.log
                            else r.log + [UpdateTopicCall(name, UpdateRequest(c).value)]
  {
    hide TopicConfigChanged, UpdateRequest, Overlay;
  }

  lemma {:induction false} AllOfThem(n: nat)
    ensures Answered([], n) == n
  {
    if n > 0 {
      AllOfThem(n - 1);
    }
  }

  /** A day of deletion retention asked for, none there: a hundred syncs are a hundred updates. */
  lemma RetentionExample(t: KafkaTopic)
    ensures var c := NO_SETTINGS.(deleteRetentionHours := Some(24));
            var r := Remote([], map["a" := t.(deleteRetentionMs := 0)], ["a"], t, [], [], []);
            |AfterSyncs(r, "a", c, 100).log| == 100
  {
    var c := NO_SETTINGS.(deleteRetentionHours := Some(24));
    var r := Remote([], map["a" := t.(deleteRetentionMs := 0)], ["a"], t, [], [], []);
    HoursExactIff(24);
    RetentionNeverSettles(r, "a", c, 100);
    AllOfThem(100);
    hide AfterSyncs, Answered;
  }

  // ----- What is sent -----

  predicate ValidRequest(q: TopicRequest) {
    && (q.minCleanableDirtyRatio.Some? ==> 0.0 < q.minCleanableDirtyRatio.value <= 1.0)
    && !BiggerThan(q.minInsyncReplicas, q.replication)
  }

  predicate InvalidSettings(c: Settings) {
    || BiggerThan(c.minimumInSyncReplicas, c.replication)
    || (c.minCleanableDirtyRatioPercent.Some? &&
        match c.minCleanableDirtyRatioPercent.value
        case IntVal(v) => !(0 < v <= 100)
        case Percentage(v) => !(0 < v <= 100)
        case Malformed(_) => true)
  }

  /**
    A sync sends at most one request, about its own topic, with valid values; invalid settings send none and
    are an error if the topic is missing.
  */
  lemma RequestsAreValid(r: Remote, name: string, config: Option<Settings>, dryRun: bool)
    ensures var res := SyncTopic(r, name, config, dryRun);
            && (res.remote.log == r.log ||
                exists q :: ValidRequest(q) && !dryRun
                            && (res.remote.log == r.log + [CreateTopicCall(name, q)] ||
                                res.remote.log == r.log + [UpdateTopicCall(name, q)]))
            && (config.Some? && InvalidSettings(config.value) ==> res.remote.log == r.log)
            && (config.Some? && InvalidSettings(config.value) && name !in r.topics ==> res.answer.Some?)
  {
    var c := Or(config, NO_SETTINGS);
    SettingsDecide(c);
    hide CreateRequest, UpdateRequest, TopicConfigChanged, ValidRequest, InvalidSettings, Overlay;
    if CreateRequest(c).Ok? && UpdateRequest(c).Ok? {
      assert ValidRequest(CreateRequest(c).value) && ValidRequest(UpdateRequest(c).value);
    }
  }

  lemma SettingsDecide(c: Settings)
    ensures CreateRequest(c).Ok? <==> UpdateRequest(c).Ok?
    ensures UpdateRequest(c).Err? <==> InvalidSettings(c)
    ensures UpdateRequest(c).Err? ==>
              UpdateRequest(c).error == CreateRequest(c).error
              == if BiggerThan(c.minimumInSyncReplicas, c.replication) then BAD_REPLICAS else BAD_PERCENT
    ensures UpdateRequest(c).Ok? ==> ValidRequest(UpdateRequest(c).value) && ValidRequest(CreateRequest(c).value)
  {
  }

  /** Nothing but the topic `name` differs, and the service is still sound. */
  ghost predicate OnlyTopic(before: Remote, after: Remote, name: string) {
    && Sound(after) && after.acls == before.acls && after.defaults == before.defaults
    && after.topics - {name} == before.topics - {name}
    && (name in before.topics ==> name in after.topics)
  }

  lemma CreateFrame(r: Remote, name: string, q: TopicRequest)
    requires Sound(r)
    ensures OnlyTopic(r, CreateTopic(r, name, q).remote, name)
    ensures CreateTopic(r, name, q).answer.None? ==> name in CreateTopic(r, name, q).remote.topics
  {
    hide Overlay, SoundIds;
    var after := CreateTopic(r, name, q).remote;
    assert after.topics - {name} == r.topics - {name};
    if after.names != r.names {
      assert after.names == r.names + [name];
    }
  }

  lemma UpdateFrame(r: Remote, name: string, q: TopicRequest)
    requires Sound(r)
    ensures OnlyTopic(r, UpdateTopic(r, name, q).remote, name)
    ensures UpdateTopic(r, name, q).answer.None? ==> name in UpdateTopic(r, name, q).remote.topics
  {
    hide Overlay, SoundIds, DistinctBy;
    var after := UpdateTopic(r, name, q).remote;
    assert after.topics - {name} == r.topics - {name};
    assert after.names == r.names;
  }

  lemma MutateFrame(r: Remote, name: string, c: Settings)
    requires Sound(r)
    ensures OnlyTopic(r, Created(r, name, c, false).remote, name)
    ensures OnlyTopic(r, Updated(r, name, c, false).remote, name)
    ensures Created(r, name, c, false).answer.None? ==> name in Created(r, name, c, false).remote.topics
    ensures Updated(r, name, c, false).answer.None? ==> name in Updated(r, name, c, false).remote.topics
  {
    hide Sound, CreateRequest, UpdateRequest, CreateTopic, UpdateTopic;
    if CreateRequest(c).Ok? {
      CreateFrame(r, name, CreateRequest(c).value);
    }
    if UpdateRequest(c).Ok? {
      UpdateFrame(r, name, UpdateRequest(c).value);
    }
  }

  /** A sync touches its own topic only, and keeps the service sound; a dry run touches nothing. */
  lemma SyncTopicFrame(r: Remote, name: string, config: Option<Settings>, dryRun: bool)
    requires Sound(r)
    ensures var res := SyncTopic(r, name, config, dryRun);
            && OnlyTopic(r, res.remote, name)
            && (res.answer.None? && !dryRun ==> name in res.remote.topics)
            && (dryRun ==> res.remote == GetTopic(r, name).remote)
  {
    var c := Or(config, NO_SETTINGS);
    var got := GetTopic(r, name).remote;
    hide TopicConfigChanged, CreateRequest, UpdateRequest, CreateTopic, UpdateTopic, SoundIds, DistinctBy;
    MutateFrame(got, name, c);
  }

  // ----- Hours -----

  /** The conversion of hours is exact up to MAX_HOURS and for no larger int64 value. */
  lemma HoursExactIff(h: int)
    requires 0 <= h < TWO_63
    ensures HoursToMs(h) == h * MS_PER_HOUR <==> h <= MAX_HOURS
  {
    var ns := h * NS_PER_HOUR;
    if h <= MAX_HOURS {
      assert 0 <= ns < TWO_63;
      assert Wrap64(ns) == ns;
      assert ns == (h * MS_PER_HOUR) * NS_PER_MS;
    } else {
      assert -TWO_63 <= Wrap64(ns) < TWO_63;
      assert HoursToMs(h) <= TWO_63 / NS_PER_MS < h * MS_PER_HOUR;
    }
  }

  /** One hour more wraps around to a negative retention. */
  lemma HoursOverflow()
    ensures HoursToMs(MAX_HOURS + 1) == -9_223_371_273_709
  {
  }

  /** Hours as the specs mean them: every negative value is the same "default" setting. */
  function NormalHours(h: int, default: int): int {
    if h >= 0 then h else if default == 0 then 0 else -1
  }

  /** Up to MAX_HOURS two settings convert to the same milliseconds exactly when they mean the same. */
  lemma HoursDistinguished(h: int, k: int, default: int)
    requires h <= MAX_HOURS && k <= MAX_HOURS && default <= 0
    ensures RetentionMs(Some(h), default) == RetentionMs(Some(k), default)
            <==> NormalHours(h, default) == NormalHours(k, default)
    ensures SegmentMs(Some(h)) == SegmentMs(Some(k)) <==> (h == k || (h <= 1 && k <= 1))
  {
    if h >= 0 { HoursExactIff(h); }
    if k >= 0 { HoursExactIff(k); }
    HoursExactIff(1);
  }
}
