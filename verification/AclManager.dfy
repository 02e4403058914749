/** The ACL synchronisation of pkg/aiven/acl/acl.go: list, diff, create what is missing, delete what is surplus. */
module AclManager {
  import opened Basics
  import opened Errors
  import opened AclModel
  import opened AivenService

  const NO_ID := PlainError("attemping to delete acl without ID")

  /** Creates `adds` in order and stops at the first failure. */
  function AddAll(r: Remote, adds: seq<Acl>, dryRun: bool): Reply<Option<Error>>
    decreases |adds|
  {
    if adds == [] then Reply(None, r)
    else
      var created := if dryRun then Reply(None, r) else CreateAcl(r, GrantOf(adds[0]));
      if created.answer.Some? then created else AddAll(created.remote, adds[1..], dryRun)
  }

  /** Deletes `dels` in order and stops at the first failure or missing ID. */
  function DeleteAll(r: Remote, dels: seq<Acl>, dryRun: bool): Reply<Option<Error>>
    decreases |dels|
  {
    if dels == [] then Reply(None, r)
    else if dels[0].id == "" then Reply(Some(NO_ID), r)
    else
      var deleted := if dryRun then Reply(None, r) else DeleteAcl(r, dels[0].id);
      if deleted.answer.Some? then deleted else DeleteAll(deleted.remote, dels[1..], dryRun)
  }

  /** The changes for one topic, given what was listed and what is wanted. */
  function Reconciled(r: Remote, existing: seq<Acl>, wanted: seq<Acl>, dryRun: bool): Reply<Option<Error>> {
    var added := AddAll(r, Missing(existing, wanted), dryRun);
    if added.answer.Some? then added else DeleteAll(added.remote, Surplus(existing, wanted), dryRun)
  }

  function SyncAcls(r: Remote, topic: string, specs: seq<TopicACL>,
                    userName: TopicACL -> Result<string, Error>, dryRun: bool): Reply<Option<Error>>
  {
    var listed := ListAcls(r);
    if listed.answer.Err? then Reply(Some(listed.answer.error), listed.remote)
    else
      match Wanted(topic, specs, userName)
      case Err(e) => Reply(Some(e), listed.remote)
      case Ok(wanted) => Reconciled(listed.remote, OfTopic(listed.answer.value, topic), wanted, dryRun)
  }

  class Manager {
    const aiven: Aiven
    const topicName: string
    const acls: seq<TopicACL>
    const userName: TopicACL -> Result<string, Error>
    const dryRun: bool

    constructor (aiven: Aiven, topicName: string, acls: seq<TopicACL>,
                 userName: TopicACL -> Result<string, Error>, dryRun: bool)
      ensures this.aiven == aiven && this.topicName == topicName && this.acls == acls
      ensures this.userName == userName && this.dryRun == dryRun
    {
      this.aiven, this.topicName, this.acls := aiven, topicName, acls;
      this.userName, this.dryRun := userName, dryRun;
    }

    method Synchronize() returns (err: Option<Error>)
      modifies aiven
      ensures Reply(err, aiven.state) == SyncAcls(old(aiven.state), topicName, acls, userName, dryRun)
    {
      var existing := GetExistingAcls();
      if existing.Err? {
        return Some(existing.error);
      }
      var wanted := GetWantedAcls(topicName, acls, userName);
      if wanted.Err? {
        return Some(wanted.error);
      }
      var toAdd := NewACLs(existing.value, wanted.value);
      var toDelete := DeleteACLs(existing.value, wanted.value);
      err := Add(toAdd);
      if err.Some? {
        return;
      }
      err := Delete(toDelete);
    }

    method GetExistingAcls() returns (r: Result<seq<Acl>, Error>)
      modifies aiven
      ensures aiven.state == ListAcls(old(aiven.state)).remote
      ensures r == match ListAcls(old(aiven.state)).answer
                   case Err(e) => Err(e)
                   case Ok(listed) => Ok(OfTopic(listed, topicName))
    {
      var listed := aiven.AclList();
      if listed.Err? {
        return Err(listed.error);
      }
      var result := TopicACLs(listed.value, topicName);
      return Ok(result);
    }

    method Add(toAdd: seq<Acl>) returns (err: Option<Error>)
      modifies aiven
      ensures Reply(err, aiven.state) == AddAll(old(aiven.state), toAdd, dryRun)
    {
      for i := 0 to |toAdd|
        invariant AddAll(aiven.state, toAdd[i..], dryRun) == AddAll(old(aiven.state), toAdd, dryRun)
      {
        assert toAdd[i..][1..] == toAdd[i + 1..];
        if !dryRun {
          err := aiven.AclCreate(GrantOf(toAdd[i]));
          if err.Some? {
            return;
          }
        }
      }
      return None;
    }

    method Delete(toDelete: seq<Acl>) returns (err: Option<Error>)
      modifies aiven
      ensures Reply(err, aiven.state) == DeleteAll(old(aiven.state), toDelete, dryRun)
    {
      for i := 0 to |toDelete|
        invariant DeleteAll(aiven.state, toDelete[i..], dryRun) == DeleteAll(old(aiven.state), toDelete, dryRun)
      {
        assert toDelete[i..][1..] == toDelete[i + 1..];
        if |toDelete[i].id| == 0 {
          return Some(NO_ID);
        }
        if !dryRun {
          err := aiven.AclDelete(toDelete[i].id);
          if err.Some? {
            return;
          }
        }
      }
      return None;
    }
  }
}
