/** ACLs first, then the topic (controllers/synchronizer.go). */
module Synchronizer {
  import opened Basics
  import opened Errors
  import opened AclModel
  import opened TopicModel
  import opened AivenService
  import opened Resources
  import AclManager
  import TopicManager

  function SyncBoth(r: Remote, name: string, acl: seq<TopicACL>, config: Option<Settings>,
                    userName: TopicACL -> Result<string, Error>, dryRun: bool): Reply<Option<Error>>
  {
    var acls := AclManager.SyncAcls(r, name, acl, userName, dryRun);
    if acls.answer.Some? then acls else TopicManager.SyncTopic(acls.remote, name, config, dryRun)
  }

  class Synchronizer {
    const acls: AclManager.Manager
    const topics: TopicManager.Manager

    constructor (aiven: Aiven, topic: Topic<Config?>, userName: TopicACL -> Result<string, Error>, dryRun: bool)
      ensures acls.aiven == topics.aiven == aiven
      ensures acls.topicName == topics.topicName == FullName(topic)
      ensures acls.acls == topic.spec.acl && topics.config == topic.spec.config
      ensures acls.userName == userName && acls.dryRun == topics.dryRun == dryRun
    {
      acls := new AclManager.Manager(aiven, FullName(topic), topic.spec.acl, userName, dryRun);
      topics := new TopicManager.Manager(aiven, FullName(topic), topic.spec.config, dryRun);
    }

    method Synchronize() returns (err: Option<Error>)
      requires acls.aiven == topics.aiven && acls.topicName == topics.topicName && acls.dryRun == topics.dryRun
      modifies acls.aiven
      ensures Reply(err, acls.aiven.state)
              == SyncBoth(old(acls.aiven.state), acls.topicName, acls.acls, ValuesOf(topics.config),
                          acls.userName, acls.dryRun)
    {
      err := acls.Synchronize();
      if err.Some? {
        return;
      }
      err := topics.Synchronize();
    }
  }

  /** Resolves the service of the topic's pool; without it there is no synchronizer. */
  method NewSynchronizer(aiven: Aiven, topic: Topic<Config?>, userName: TopicACL -> Result<string, Error>, dryRun: bool)
    returns (synchronizer: Synchronizer?, err: Option<Error>)
    modifies aiven
    ensures Reply(err, aiven.state) == ResolveServiceName(old(aiven.state))
    ensures err.Some? <==> synchronizer == null
    ensures synchronizer != null ==>
              && fresh(synchronizer)
              && synchronizer.acls.aiven == synchronizer.topics.aiven == aiven
              && synchronizer.acls.topicName == synchronizer.topics.topicName == FullName(topic)
              && synchronizer.acls.acls == topic.spec.acl && synchronizer.topics.config == topic.spec.config
              && synchronizer.acls.userName == userName
              && synchronizer.acls.dryRun == synchronizer.topics.dryRun == dryRun
  {
    err := aiven.ResolveKafkaServiceName();
    if err.Some? {
      return null, err;
    }
    synchronizer := new Synchronizer(aiven, topic, userName, dryRun);
  }
}
