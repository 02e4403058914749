/** Calls of Synchronize: what they leave alone, what dry runs answer, and that they succeed if nothing fails. */
module AclOutcomes {
  import opened Basics
  import opened Errors
  import opened AclModel
  import opened AivenService
  import opened AclManager
  import opened AclRuns

  // ----- What a sync leaves alone -----

  /** Only ACL entries, scripts and the log differ. */
  predicate SameTopics(before: Remote, after: Remote) {
    after.topics == before.topics && after.names == before.names && after.defaults == before.defaults
  }

  lemma {:induction false} AddAllFrame(r: Remote, adds: seq<Acl>, dryRun: bool)
    ensures SameTopics(r, AddAll(r, adds, dryRun).remote)
    ensures AddAll(r, adds, dryRun).remote.answers == r.answers
    decreases |adds|
  {
    if adds != [] {
      AddAllFrame(if dryRun then r else CreateAcl(r, GrantOf(adds[0])).remote, adds[1..], dryRun);
    }
  }

  lemma {:induction false} DeleteAllFrame(r: Remote, dels: seq<Acl>, dryRun: bool)
    ensures SameTopics(r, DeleteAll(r, dels, dryRun).remote)
    ensures DeleteAll(r, dels, dryRun).remote.answers == r.answers
    ensures OnlyDeletes(r, DeleteAll(r, dels, dryRun).remote)
    decreases |dels|
  {
    if dels != [] && dels[0].id != "" {
      var next := if dryRun then r else DeleteAcl(r, dels[0].id).remote;
      DeleteAllFrame(next, dels[1..], dryRun);
      assert dryRun || next.log == r.log + [DeleteAclCall(dels[0].id)];
      OnlyDeletesTransitive(r, next, DeleteAll(next, dels[1..], dryRun).remote);
    }
  }

  lemma SyncAclsFrame(r: Remote, topic: string, specs: seq<TopicACL>, userName: TopicACL -> Result<string, Error>,
                      dryRun: bool)
    ensures SameTopics(r, SyncAcls(r, topic, specs, userName, dryRun).remote)
    ensures SyncAcls(r, topic, specs, userName, dryRun).remote.answers == ListAcls(r).remote.answers
    ensures specs == [] ==> OnlyDeletes(r, SyncAcls(r, topic, specs, userName, dryRun).remote)
  {
    var listed := ListAcls(r);
    if listed.answer.Ok? && Wanted(topic, specs, userName).Ok? {
      var view, w := OfTopic(r.acls, topic), Wanted(topic, specs, userName).value;
      AddAllFrame(listed.remote, Missing(view, w), dryRun);
      var added := AddAll(listed.remote, Missing(view, w), dryRun);
      DeleteAllFrame(added.remote, Surplus(view, w), dryRun);
    }
  }

  /** The calls issued in between are deletions, every one. */
  ghost predicate OnlyDeletes(before: Remote, after: Remote) {
    && before.log <= after.log
    && forall i :: |before.log| <= i < |after.log| ==> after.log[i].DeleteAclCall? || after.log[i].DeleteTopicCall?
  }

  lemma OnlyDeletesTransitive(a: Remote, b: Remote, c: Remote)
    requires OnlyDeletes(a, b) && OnlyDeletes(b, c)
    ensures OnlyDeletes(a, c)
  {
  }

  // ----- Dry runs -----

  lemma {:induction false} DryAdds(r: Remote, adds: seq<Acl>)
    ensures AddAll(r, adds, true) == Reply(None, r)
    decreases |adds|
  {
    if adds != [] {
      DryAdds(r, adds[1..]);
    }
  }

  lemma {:induction false} DryDeletes(r: Remote, dels: seq<Acl>)
    requires forall a :: a in dels ==> a.id != ""
    ensures DeleteAll(r, dels, true) == Reply(None, r)
    decreases |dels|
  {
    if dels != [] {
      DryDeletes(r, dels[1..]);
    }
  }

  /** A dry run only lists. */
  lemma DryAcls(r: Remote, name: string, specs: seq<TopicACL>, userName: TopicACL -> Result<string, Error>)
    requires SoundIds(r.acls)
    ensures var res := SyncAcls(r, name, specs, userName, true);
            && res.remote == ListAcls(r).remote
            && (res.answer.None? <==> ListAcls(r).answer.Ok? && Wanted(name, specs, userName).Ok?)
  {
    var listed := ListAcls(r);
    if listed.answer.Ok? && Wanted(name, specs, userName).Ok? {
      var view, w := OfTopic(r.acls, name), Wanted(name, specs, userName).value;
      DryAdds(listed.remote, Missing(view, w));
      SurplusIsThere(r.acls, name, w);
      DryDeletes(listed.remote, Surplus(view, w));
    }
  }

  // ----- Runs without failures -----

  lemma {:induction false} RealAdds(r: Remote, adds: seq<Acl>)
    requires AllSucceed(r)
    ensures AddAll(r, adds, false).answer.None? && AllSucceed(AddAll(r, adds, false).remote)
    decreases |adds|
  {
    if adds != [] {
      RealAdds(CreateAcl(r, GrantOf(adds[0])).remote, adds[1..]);
    }
  }

  lemma {:induction false} RealDeletes(r: Remote, dels: seq<Acl>)
    requires AllSucceed(r) && DistinctBy(dels, IdOf)
    requires forall a :: a in dels ==> a in r.acls && a.id != ""
    ensures DeleteAll(r, dels, false).answer.None? && AllSucceed(DeleteAll(r, dels, false).remote)
    decreases |dels|
  {
    if dels != [] {
      var next := DeleteAcl(r, dels[0].id).remote;
      assert dels[0] in r.acls;
      FilterMembers(r.acls, NotId(dels[0].id));
      forall a | a in dels[1..]
        ensures a in next.acls
      {
        var j :| 0 <= j < |dels[1..]| && dels[1..][j] == a;
        assert dels[j + 1] == a;
      }
      RealDeletes(next, dels[1..]);
    }
  }

  lemma {:induction false} AddsKeepEntries(r: Remote, adds: seq<Acl>)
    ensures forall a :: a in r.acls ==> a in AddAll(r, adds, false).remote.acls
    decreases |adds|
  {
    if adds != [] {
      AddsKeepEntries(CreateAcl(r, GrantOf(adds[0])).remote, adds[1..]);
    }
  }

  /** A real ACL sync whose writes all succeed answers like a dry one. */
  lemma RealAcls(r: Remote, name: string, specs: seq<TopicACL>, userName: TopicACL -> Result<string, Error>)
    requires SoundIds(r.acls) && AllSucceed(r)
    ensures SyncAcls(r, name, specs, userName, false).answer
            == SyncAcls(r, name, specs, userName, true).answer
    ensures AllSucceed(SyncAcls(r, name, specs, userName, false).remote)
  {
    DryAcls(r, name, specs, userName);
    var listed := ListAcls(r).remote;
    if ListAcls(r).answer.Ok? && Wanted(name, specs, userName).Ok? {
      var view, w := OfTopic(r.acls, name), Wanted(name, specs, userName).value;
      RealAdds(listed, Missing(view, w));
      AddsKeepEntries(listed, Missing(view, w));
      SurplusIsThere(r.acls, name, w);
      FilterDistinct(r.acls, OnTopic(name), IdOf);
      FilterDistinct(view, UnmatchedBy(w), IdOf);
      RealDeletes(AddAll(listed, Missing(view, w), false).remote, Surplus(view, w));
    }
  }

  lemma SyncSucceeds(r: Remote, topic: string, specs: seq<TopicACL>, userName: TopicACL -> Result<string, Error>)
    requires SoundIds(r.acls) && AllSucceed(r) && AllAnswered(r) && Wanted(topic, specs, userName).Ok?
    ensures var res := SyncAcls(r, topic, specs, userName, false);
            res.answer.None? && SoundIds(res.remote.acls) && AllSucceed(res.remote) && AllAnswered(res.remote)
  {
    RealAcls(r, topic, specs, userName);
    DryAcls(r, topic, specs, userName);
    SyncIsSafe(r, topic, specs, userName);
    SyncAclsFrame(r, topic, specs, userName, false);
    hide SyncAcls, SoundIds, OfTopic, AllSucceed;
  }
}
