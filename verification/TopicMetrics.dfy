/** Counting topics by source, team and pool (pkg/metrics/collectors/topic.go). */
module TopicMetrics {
  import opened Basics
  import opened Resources

  const SOURCE_CLUSTER := "cluster"
  const SOURCE_AIVEN := "aiven"

  datatype Key = Key(source: string, team: string, pool: string)

  type Reports = map<Key, nat>

  predicate DotFree(s: string) {
    '.' !in s
  }

  /** The part of `s` before its first dot. */
  function BeforeDot(s: string): string {
    if s == "" || s[0] == '.' then "" else [s[0]] + BeforeDot(s[1..])
  }

  function TeamOf(topic: string, cluster: seq<StoredTopic>): string {
    if cluster == [] then if '.' in topic then BeforeDot(topic) else ""
    else if FullName(cluster[0]) == topic then cluster[0].namespace
    else TeamOf(topic, cluster[1..])
  }

  method TopicTeam(topic: string, cluster: seq<StoredTopic>) returns (team: string)
    ensures team == TeamOf(topic, cluster)
  {
    for i := 0 to |cluster|
      invariant TeamOf(topic, cluster[i..]) == TeamOf(topic, cluster)
    {
      if FullName(cluster[i]) == topic {
        return cluster[i].namespace;
      }
      assert cluster[i..][1..] == cluster[i + 1..];
    }
    return if '.' in topic then BeforeDot(topic) else "";
  }

  // ----- The team of a topic -----

  lemma {:induction false} BeforeFirstDot(namespace: string, name: string)
    requires DotFree(namespace)
    ensures BeforeDot(namespace + "." + name) == namespace
  {
    if namespace != "" {
      assert (namespace + "." + name)[1..] == namespace[1..] + "." + name;
      BeforeFirstDot(namespace[1..], name);
    }
  }

  ghost predicate DotFreeNamespaces(cluster: seq<StoredTopic>) {
    forall top :: top in cluster ==> DotFree(top.namespace)
  }

  /** The team is the namespace in the topic's name, whether or not the topic is still in the cluster. */
  lemma {:induction false} TeamIsNamespace(namespace: string, name: string, cluster: seq<StoredTopic>)
    requires DotFree(namespace) && DotFreeNamespaces(cluster)
    ensures TeamOf(namespace + "." + name, cluster) == namespace
  {
    BeforeFirstDot(namespace, name);
    if cluster == [] {
      assert (namespace + "." + name)[|namespace|] == '.';
    } else if FullName(cluster[0]) == namespace + "." + name {
      BeforeFirstDot(cluster[0].namespace, cluster[0].name);
    } else {
      TeamIsNamespace(namespace, name, cluster[1..]);
    }
  }

  // ----- Counting -----

  function Count(reports: Reports, k: Key): nat {
    if k in reports then reports[k] else 0
  }

  function ClusterKey(top: StoredTopic): Key {
    Key(SOURCE_CLUSTER, top.namespace, top.spec.pool)
  }

  function AivenKey(topic: string, pool: string, cluster: seq<StoredTopic>): Key {
    Key(SOURCE_AIVEN, TeamOf(topic, cluster), pool)
  }

  function ClusterKeys(cluster: seq<StoredTopic>): seq<Key> {
    seq(|cluster|, i requires 0 <= i < |cluster| => ClusterKey(cluster[i]))
  }

  function AivenKeys(topics: seq<string>, pool: string, cluster: seq<StoredTopic>): seq<Key> {
    seq(|topics|, i requires 0 <= i < |topics| => AivenKey(topics[i], pool, cluster))
  }

  /** How many topics there are for a key. */
  function Topics(k: Key, cluster: seq<StoredTopic>, aiven: map<string, seq<string>>): nat {
    multiset(ClusterKeys(cluster))[k]
    + if k.pool in aiven then multiset(AivenKeys(aiven[k.pool], k.pool, cluster))[k] else 0
  }

  /** `reports` counts `keys` on top of what `before` counts, and has no entry without a count. */
  ghost predicate Counted(reports: Reports, before: Reports, keys: seq<Key>) {
    && (forall k :: Count(reports, k) == Count(before, k) + multiset(keys)[k])
    && forall k :: k in reports ==> reports[k] > 0
  }

  lemma CountOneMore(reports: Reports, before: Reports, keys: seq<Key>, i: nat)
    requires i < |keys| && Counted(reports, before, keys[..i])
    ensures Counted(reports[keys[i] := Count(reports, keys[i]) + 1], before, keys[..i + 1])
  {
    assert keys[..i + 1] == keys[..i] + [keys[i]];
  }

  /** The counts once only `pools` are left to visit. */
  ghost predicate Without(reports: Reports, cluster: seq<StoredTopic>, aiven: map<string, seq<string>>,
                          pools: set<string>)
  {
    && (forall k :: Count(reports, k)
                    == if k.pool in pools then multiset(ClusterKeys(cluster))[k] else Topics(k, cluster, aiven))
    && forall k :: k in reports ==> reports[k] > 0
  }

  lemma ClusterCounted(reports: Reports, cluster: seq<StoredTopic>, aiven: map<string, seq<string>>)
    requires Counted(reports, map[], ClusterKeys(cluster))
    ensures Without(reports, cluster, aiven, aiven.Keys)
  {}

  lemma PoolCounted(reports: Reports, before: Reports, cluster: seq<StoredTopic>, aiven: map<string, seq<string>>,
                    pools: set<string>, pool: string)
    requires pool in pools && pool in aiven && Without(before, cluster, aiven, pools)
    requires Counted(reports, before, AivenKeys(aiven[pool], pool, cluster))
    ensures Without(reports, cluster, aiven, pools - {pool})
  {
    forall k: Key
      ensures Count(reports, k)
              == if k.pool in pools - {pool} then multiset(ClusterKeys(cluster))[k] else Topics(k, cluster, aiven)
    {
      var keys := AivenKeys(aiven[pool], pool, cluster);
      if k.pool != pool {
        assert k !in keys;
        assert multiset(keys)[k] == 0;
      }
    }
  }

  lemma NothingCounted(reports: Reports, keys: seq<Key>)
    requires forall k :: k in reports ==> reports[k] > 0
    ensures Counted(reports, reports, keys[..0])
  {}

  lemma WithoutIsPositive(reports: Reports, cluster: seq<StoredTopic>, aiven: map<string, seq<string>>,
                          pools: set<string>)
    requires Without(reports, cluster, aiven, pools)
    ensures forall k :: k in reports ==> reports[k] > 0
  {}

  lemma AllVisited(reports: Reports, cluster: seq<StoredTopic>, aiven: map<string, seq<string>>)
    requires Without(reports, cluster, aiven, {})
    ensures forall k :: Count(reports, k) == Topics(k, cluster, aiven)
    ensures forall k :: k in reports ==> reports[k] > 0
  {}

  method Report(cluster: seq<StoredTopic>, aiven: map<string, seq<string>>) returns (reports: Reports)
    ensures forall k :: Count(reports, k) == Topics(k, cluster, aiven)
    ensures forall k :: k in reports ==> reports[k] > 0
  {
    hide Counted, Without, TeamOf, Topics, Count;
    reports := map[];
    NothingCounted(reports, ClusterKeys(cluster));
    for i := 0 to |cluster|
      invariant Counted(reports, map[], ClusterKeys(cluster)[..i])
    {
      CountOneMore(reports, map[], ClusterKeys(cluster), i);
      var k := ClusterKey(cluster[i]);
      reports := reports[k := Count(reports, k) + 1];
    }
    assert ClusterKeys(cluster)[..|cluster|] == ClusterKeys(cluster);
    ClusterCounted(reports, cluster, aiven);

    var pools := aiven.Keys;
    while pools != {}
      invariant pools <= aiven.Keys
      invariant Without(reports, cluster, aiven, pools)
    {
      var pool :| pool in pools;
      var tops := aiven[pool];
      ghost var before, keys := reports, AivenKeys(tops, pool, cluster);
      WithoutIsPositive(reports, cluster, aiven, pools);
      NothingCounted(reports, keys);
      for i := 0 to |tops|
        invariant Counted(reports, before, keys[..i])
      {
        CountOneMore(reports, before, keys, i);
        var team := TopicTeam(tops[i], cluster);
        var k := Key(SOURCE_AIVEN, team, pool);
        reports := reports[k := Count(reports, k) + 1];
      }
      assert keys[..|tops|] == keys;
      PoolCounted(reports, before, cluster, aiven, pools, pool);
      pools := pools - {pool};
    }
    AllVisited(reports, cluster, aiven);
  }

  /** The sum of the counts of the keys that `keep` accepts. */
  ghost function Total(reports: Reports, keep: Key -> bool): nat {
    if reports == map[] then 0
    else
      var k := Pick(reports);
      (if keep(k) then reports[k] else 0) + Total(reports - {k}, keep)
  }

  ghost function Pick(reports: Reports): Key
    requires reports != map[]
    ensures Pick(reports) in reports
  {
    var k :| k in reports;
    k
  }

  lemma {:induction false} TotalIsSize(reports: Reports, keep: Key -> bool, keys: multiset<Key>)
    requires forall k :: keep(k) ==> Count(reports, k) == keys[k]
    requires forall k :: k in keys ==> keep(k)
    ensures Total(reports, keep) == |keys|
    decreases |reports|
  {
    if reports == map[] {
      forall k
        ensures keys[k] == 0
      {
        assert keep(k) ==> Count(reports, k) == 0;
      }
      assert keys == multiset{};
    } else {
      var k := Pick(reports);
      var rest := reports - {k};
      assert forall other :: Count(rest, other) == if other == k then 0 else Count(reports, other);
      TotalIsSize(rest, keep, keys[k := 0]);
    }
  }

  function OfSource(source: string): Key -> bool {
    (k: Key) => k.source == source
  }

  function InPool(pool: string): Key -> bool {
    (k: Key) => k.source == SOURCE_AIVEN && k.pool == pool
  }

  /** The cluster's counts add up to the number of its topics, and those of a pool at Aiven to its listed topics. */
  lemma CountsAreConserved(reports: Reports, cluster: seq<StoredTopic>, aiven: map<string, seq<string>>)
    requires forall k :: Count(reports, k) == Topics(k, cluster, aiven)
    ensures Total(reports, OfSource(SOURCE_CLUSTER)) == |cluster|
    ensures forall pool :: pool in aiven ==> Total(reports, InPool(pool)) == |aiven[pool]|
  {
    TotalIsSize(reports, OfSource(SOURCE_CLUSTER), multiset(ClusterKeys(cluster)));
    forall pool | pool in aiven
      ensures Total(reports, InPool(pool)) == |aiven[pool]|
    {
      TotalIsSize(reports, InPool(pool), multiset(AivenKeys(aiven[pool], pool, cluster)));
    }
  }

  /** Topics that are built from a namespace are counted for it at Aiven, whatever is left in the cluster. */
  lemma AivenCountsIgnoreCluster(topics: seq<string>, pool: string, cluster: seq<StoredTopic>,
                                 other: seq<StoredTopic>)
    requires DotFreeNamespaces(cluster) && DotFreeNamespaces(other)
    requires forall t :: t in topics ==> exists ns, n :: DotFree(ns) && t == ns + "." + n
    ensures AivenKeys(topics, pool, cluster) == AivenKeys(topics, pool, other)
  {
    forall i | 0 <= i < |topics|
      ensures AivenKey(topics[i], pool, cluster) == AivenKey(topics[i], pool, other)
    {
      assert topics[i] in topics;
      var ns, n :| DotFree(ns) && topics[i] == ns + "." + n;
      TeamIsNamespace(ns, n, cluster);
      TeamIsNamespace(ns, n, other);
    }
  }

  // ----- What is counted -----

  predicate Belongs(top: StoredTopic, team: string, pool: string) {
    top.namespace == team && top.spec.pool == pool
  }

  function InCluster(team: string, pool: string): StoredTopic -> bool {
    (top: StoredTopic) => Belongs(top, team, pool)
  }

  function OfTeam(team: string, cluster: seq<StoredTopic>): string -> bool {
    (topic: string) => TeamOf(topic, cluster) == team
  }

  lemma {:induction false} ClusterCount(cluster: seq<StoredTopic>, k: Key)
    ensures multiset(ClusterKeys(cluster))[k]
            == if k.source == "cluster" then |Filter(cluster, InCluster(k.team, k.pool))| else 0
    decreases |cluster|
  {
    if cluster == [] {
      assert ClusterKeys(cluster) == [];
    } else {
      var front, last := cluster[..|cluster| - 1], cluster[|cluster| - 1];
      ClusterCount(front, k);
      assert ClusterKeys(cluster) == ClusterKeys(front) + [ClusterKey(last)];
    }
  }

  lemma {:induction false} AivenCount(topics: seq<string>, pool: string, cluster: seq<StoredTopic>, k: Key)
    ensures multiset(AivenKeys(topics, pool, cluster))[k]
            == if k.source == "aiven" && k.pool == pool then |Filter(topics, OfTeam(k.team, cluster))| else 0
    decreases |topics|
  {
    if topics == [] {
      assert AivenKeys(topics, pool, cluster) == [];
    } else {
      var front, last := topics[..|topics| - 1], topics[|topics| - 1];
      AivenCount(front, pool, cluster, k);
      assert AivenKeys(topics, pool, cluster) == AivenKeys(front, pool, cluster) + [AivenKey(last, pool, cluster)];
    }
  }

  /**
    The count for a team and a pool is, for the cluster, the number of topics in the team's namespace that name the
    pool, and for Aiven the number of topics listed in the pool that are the team's.
  */
  lemma CountsMean(team: string, pool: string, cluster: seq<StoredTopic>, aiven: map<string, seq<string>>)
    ensures Topics(Key("cluster", team, pool), cluster, aiven) == |Filter(cluster, InCluster(team, pool))|
    ensures Topics(Key("aiven", team, pool), cluster, aiven)
            == if pool in aiven then |Filter(aiven[pool], OfTeam(team, cluster))| else 0
  {
    ClusterCount(cluster, Key("cluster", team, pool));
    ClusterCount(cluster, Key("aiven", team, pool));
    if pool in aiven {
      AivenCount(aiven[pool], pool, cluster, Key("cluster", team, pool));
      AivenCount(aiven[pool], pool, cluster, Key("aiven", team, pool));
    }
  }

  /** The team of a topic in the cluster is the namespace of the first such resource; another without a dot has none. */
  lemma {:induction false} TeamMeans(topic: string, cluster: seq<StoredTopic>)
    ensures (exists i :: 0 <= i < |cluster| && FullName(cluster[i]) == topic
                         && TeamOf(topic, cluster) == cluster[i].namespace
                         && forall j :: 0 <= j < i ==> FullName(cluster[j]) != topic)
            || ((forall i :: 0 <= i < |cluster| ==> FullName(cluster[i]) != topic)
                && ('.' !in topic ==> TeamOf(topic, cluster) == ""))
  {
    if cluster != [] && FullName(cluster[0]) != topic {
      var rest := cluster[1..];
      TeamMeans(topic, rest);
      if i :| 0 <= i < |rest| && FullName(rest[i]) == topic && TeamOf(topic, rest) == rest[i].namespace
              && forall j :: 0 <= j < i ==> FullName(rest[j]) != topic {
        assert cluster[i + 1] == rest[i];
        assert forall j :: 0 < j < i + 1 ==> cluster[j] == rest[j - 1];
      } else {
        assert forall j :: 0 < j < |cluster| ==> cluster[j] == rest[j - 1];
      }
    }
  }
}
