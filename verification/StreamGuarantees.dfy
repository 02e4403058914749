/** What the Stream reconciler guarantees. */
module StreamGuarantees {
  import opened Basics
  import opened Errors
  import opened AclModel
  import opened TopicModel
  import opened AivenService
  import opened AclOutcomes
  import opened StreamReconciler
  import AclManager
  import AclRuns
  import Resources
  import TopicReconciler
  import opened TopicGuarantees

  /** The topics outside the prefix, and the entries outside the wildcard, are as they were. */
  ghost predicate OthersKept(before: Remote, after: Remote, n: Names) {
    && Sound(after)
    && (forall t :: t != n.topicWildcard ==> OfTopic(after.acls, t) == OfTopic(before.acls, t))
    && (forall k :: k in after.topics ==> k in before.topics && after.topics[k] == before.topics[k])
    && (forall k :: k in before.topics && !HasPrefix(k, n.topicPrefix) ==> k in after.topics)
    && (forall a :: a in OfTopic(after.acls, n.topicWildcard) ==> a in OfTopic(before.acls, n.topicWildcard))
  }

  ghost predicate Gone(r: Remote, n: Names) {
    && OfTopic(r.acls, n.topicWildcard) == []
    && forall k :: k in r.topics ==> !HasPrefix(k, n.topicPrefix)
  }

  lemma KeptTransitive(a: Remote, b: Remote, c: Remote, n: Names)
    requires OthersKept(a, b, n) && OthersKept(b, c, n)
    ensures OthersKept(a, c, n)
  {
    hide Sound, OfTopic, HasPrefix;
  }

  lemma ReadIsKept(r: Remote, n: Names)
    requires Sound(r)
    ensures OthersKept(r, r, n) && OthersKept(r, NextRead(r).remote, n)
  {
    hide SoundIds, DistinctBy, OfTopic, HasPrefix;
  }

  lemma AclsAreKept(r: Remote, n: Names, userName: TopicACL -> Result<string, Error>)
    requires Sound(r)
    ensures OthersKept(r, AclManager.SyncAcls(r, n.topicWildcard, [], userName, false).remote, n)
  {
    SyncAclsFrame(r, n.topicWildcard, [], userName, false);
    AclRuns.SyncIsSafe(r, n.topicWildcard, [], userName);
    assert Wanted(n.topicWildcard, [], userName) == Ok([]);
    hide AclManager.SyncAcls, SoundIds, DistinctBy, OfTopic;
  }

  lemma DeleteTopicIsKept(r: Remote, name: string, n: Names)
    requires Sound(r) && HasPrefix(name, n.topicPrefix)
    ensures OthersKept(r, DeleteTopic(r, name).remote, n)
    ensures DeleteTopic(r, name).answer.None? ==> name !in DeleteTopic(r, name).remote.topics
    ensures DeleteTopic(r, name).remote.acls == r.acls
  {
    DeleteTopicFrame(r, name);
    hide SoundIds, DistinctBy, OfTopic;
  }

  /** However far the loop gets, it removes only topics with the prefix; to the end, all of the listed ones. */
  lemma {:induction false} TopicsAreKept(r: Remote, names: seq<string>, n: Names)
    requires Sound(r)
    ensures var res := DeleteTopics(r, names, n.topicPrefix, false);
            && OthersKept(r, res.remote, n)
            && res.remote.acls == r.acls
            && (res.answer.None? ==>
                  forall k :: k in names && HasPrefix(k, n.topicPrefix) ==> k !in res.remote.topics)
    decreases |names|
  {
    ReadIsKept(r, n);
    if names != [] {
      hide Sound, DeleteTopic, HasPrefix, OthersKept;
      var skipped := !HasPrefix(names[0], n.topicPrefix);
      var next := if skipped then r else DeleteTopic(r, names[0]).remote;
      if !skipped {
        DeleteTopicIsKept(r, names[0], n);
      }
      KeptIsSound(r, next, n);
      TopicsAreKept(next, names[1..], n);
      var end := DeleteTopics(next, names[1..], n.topicPrefix, false).remote;
      KeptTransitive(r, next, end, n);
      KeptOnlyShrinks(next, end, n);
    }
  }

  lemma KeptIsSound(before: Remote, after: Remote, n: Names)
    requires OthersKept(before, after, n)
    ensures Sound(after)
  {
  }

  lemma KeptOnlyShrinks(before: Remote, after: Remote, n: Names)
    requires OthersKept(before, after, n)
    ensures after.topics.Keys <= before.topics.Keys
  {
  }

  /**
    Whichever call fails, a deletion has removed entries of the wildcard and topics with the prefix only; one
    that is final has removed all of them.
  */
  lemma DeletionIsExact(env: Setup, s: Stream, status: StreamStatus, r: Remote, now: string)
    requires Sound(r) && !env.dryRun
    ensures var p := HandleDelete(env, s, status, r, now);
            && OthersKept(r, p.remote, s.names)
            && (p.result.deleteFinalized ==> Gone(p.remote, s.names))
  {
    var n := s.names;
    ReadIsKept(r, n);
    var resolved := ResolveServiceName(r).remote;
    assert Sound(resolved);
    AclsAreKept(resolved, n, env.userName);
    var acls := AclManager.SyncAcls(resolved, n.topicWildcard, [], env.userName, false);
    if acls.answer.None? {
      EmptySyncClears(resolved, n.topicWildcard, env.userName);
    }
    KeptIsSound(resolved, acls.remote, n);
    ReadIsKept(acls.remote, n);
    var listed := ListTopics(acls.remote);
    KeptIsSound(acls.remote, listed.remote, n);
    TopicsAreKept(listed.remote, acls.remote.names, n);
    hide AclManager.SyncAcls, DeleteTopics, OthersKept, Failed, Finalized, HasPrefix, OfTopic;
    var end := DeleteTopics(listed.remote, acls.remote.names, n.topicPrefix, false).remote;
    KeptTransitive(r, resolved, acls.remote, n);
    KeptTransitive(r, acls.remote, listed.remote, n);
    KeptTransitive(r, listed.remote, end, n);
    KeptOnlyShrinks(listed.remote, end, n);
  }

  /**
    A deletion interrupted anywhere can be taken up again: when a later attempt is final, nothing of the
    stream is left and everything else is as it was before the first one.
  */
  lemma DeletionRestarts(env: Setup, s: Stream, one: StreamStatus, two: StreamStatus, r: Remote, again: Remote,
                         now: string, later: string)
    requires Sound(r) && !env.dryRun
    requires var first := HandleDelete(env, s, one, r, now).remote;
             again.acls == first.acls && again.topics == first.topics && again.names == first.names
    requires HandleDelete(env, s, two, again, later).result.deleteFinalized
    ensures Gone(HandleDelete(env, s, two, again, later).remote, s.names)
    ensures OthersKept(r, HandleDelete(env, s, two, again, later).remote, s.names)
  {
    var first := HandleDelete(env, s, one, r, now).remote;
    DeletionIsExact(env, s, one, r, now);
    KeptIsSound(r, first, s.names);
    SameIsKept(first, again, s.names);
    KeptIsSound(first, again, s.names);
    hide HandleDelete, OthersKept, Gone, Sound;
    DeletionIsExact(env, s, two, again, later);
    KeptTransitive(r, first, again, s.names);
    KeptTransitive(r, again, HandleDelete(env, s, two, again, later).remote, s.names);
  }

  lemma SameIsKept(a: Remote, b: Remote, n: Names)
    requires Sound(a)
    requires b.acls == a.acls && b.topics == a.topics && b.names == a.names
    ensures OthersKept(a, b, n)
  {
    hide SoundIds, DistinctBy, OfTopic, HasPrefix;
  }

  lemma {:induction false} RealTopicDeletions(r: Remote, names: seq<string>, prefix: string)
    requires AllSucceed(r) && DistinctBy(names, NameOf) && forall k :: k in names ==> k in r.topics
    ensures DeleteTopics(r, names, prefix, false).answer.None?
    decreases |names|
  {
    if names != [] {
      var next := if HasPrefix(names[0], prefix) then DeleteTopic(r, names[0]).remote else r;
      assert names[0] in r.topics;
      forall k | k in names[1..]
        ensures k in next.topics
      {
        var j :| 0 <= j < |names[1..]| && names[1..][j] == k;
        assert NameOf(names[j + 1]) != NameOf(names[0]);
      }
      RealTopicDeletions(next, names[1..], prefix);
    }
  }

  /** If no call fails, a deletion in a known pool is final. */
  lemma DeletionFinishes(env: Setup, s: Stream, status: StreamStatus, r: Remote, now: string)
    requires Sound(r) && !env.dryRun && s.spec.pool in env.projects && AllSucceed(r) && AllAnswered(r)
    ensures HandleDelete(env, s, status, r, now).result.deleteFinalized
  {
    var resolved := ResolveServiceName(r).remote;
    var n := s.names;
    DryAcls(resolved, n.topicWildcard, [], env.userName);
    RealAcls(resolved, n.topicWildcard, [], env.userName);
    SyncAclsFrame(resolved, n.topicWildcard, [], env.userName, false);
    hide AclManager.SyncAcls, SoundIds;
    var acls := AclManager.SyncAcls(resolved, n.topicWildcard, [], env.userName, false);
    RealTopicDeletions(ListTopics(acls.remote).remote, r.names, n.topicPrefix);
    hide DeleteTopics;
  }

  // ----- Dry runs -----

  lemma {:induction false} DryTopicDeletions(r: Remote, names: seq<string>, prefix: string)
    ensures DeleteTopics(r, names, prefix, true) == Reply(None, r)
    decreases |names|
  {
    if names != [] {
      DryTopicDeletions(r, names[1..], prefix);
    }
  }

  /** A sync that wants nothing calls Aiven exactly when there is something to delete. */
  lemma EmptySyncCalls(r: Remote, name: string, userName: TopicACL -> Result<string, Error>)
    requires SoundIds(r.acls)
    ensures AclManager.SyncAcls(r, name, [], userName, false).remote.log != r.log
            <==> ListAcls(r).answer.Ok? && OfTopic(r.acls, name) != []
  {
    var view, listed := OfTopic(r.acls, name), ListAcls(r).remote;
    EmptySync(r, name, userName);
    hide AclManager.SyncAcls;
    ViewHasIds(r, name);
    if view != [] {
      DeletesSomething(listed, view);
    }
  }

  lemma ViewHasIds(r: Remote, name: string)
    requires SoundIds(r.acls)
    ensures forall a :: a in OfTopic(r.acls, name) ==> a.id != ""
  {
    FilterMembers(r.acls, OnTopic(name));
  }

  lemma DeletesSomething(r: Remote, dels: seq<Acl>)
    requires dels != [] && dels[0].id != ""
    ensures AclManager.DeleteAll(r, dels, false).remote.log != r.log
  {
    var next := DeleteAcl(r, dels[0].id).remote;
    assert next.log == r.log + [DeleteAclCall(dels[0].id)];
    DeleteAllFrame(next, dels[1..], false);
  }

  /** Wanting nothing deletes all that is there. */
  lemma EmptySync(r: Remote, name: string, userName: TopicACL -> Result<string, Error>)
    ensures AclManager.SyncAcls(r, name, [], userName, false).remote
            == if ListAcls(r).answer.Err? then ListAcls(r).remote
               else AclManager.DeleteAll(ListAcls(r).remote, OfTopic(r.acls, name), false).remote
  {
    var view := OfTopic(r.acls, name);
    assert Wanted(name, [], userName) == Ok([]) && Missing(view, []) == [];
    FilterAll(view, UnmatchedBy([]));
  }

  lemma DryDeletionIff(env: Setup, s: Stream, status: StreamStatus, r: Remote, now: string)
    requires env.dryRun && Sound(r)
    ensures var after := HandleDelete(env, s, status, r, now).remote;
            && SameTopics(r, after)
            && (after.log != r.log
                <==> s.spec.pool in env.projects && ResolveServiceName(r).answer.None?
                     && ListAcls(ResolveServiceName(r).remote).answer.Ok?
                     && OfTopic(r.acls, s.names.topicWildcard) != [])
  {
    var resolved := ResolveServiceName(r).remote;
    var n := s.names;
    EmptySyncCalls(resolved, n.topicWildcard, env.userName);
    SyncAclsFrame(resolved, n.topicWildcard, [], env.userName, false);
    hide AclManager.SyncAcls, SoundIds, OfTopic, Failed, Finalized;
    var acls := AclManager.SyncAcls(resolved, n.topicWildcard, [], env.userName, false);
    DryTopicDeletions(ListTopics(acls.remote).remote, acls.remote.names, n.topicPrefix);
  }

  /**
    A dry run leaves the topics alone, but it does change the ACLs in one case: when a stream is being
    deleted, its pool is in use and resolves, the entries can be listed, and there are any.
  */
  lemma DryRunCallsIff(env: Setup, s: Stream, r: Remote, now: string)
    requires env.dryRun && Sound(r)
    ensures var after := ProcessStream(env, s, r, now).remote;
            && SameTopics(r, after)
            && (!s.deleting ==> OnlyRead(r, after))
            && (after.log != r.log
                <==> s.deleting && s.spec.pool in env.projects && ResolveServiceName(r).answer.None?
                     && ListAcls(ResolveServiceName(r).remote).answer.Ok?
                     && OfTopic(r.acls, s.names.topicWildcard) != [])
  {
    var status := Or(s.status, NO_STATUS).(fullyQualifiedTopicPrefix := s.names.topicPrefix);
    DryDeletionIff(env, s, status, r, now);
    DryAcls(ResolveServiceName(r).remote, s.names.topicWildcard, AclsOf(s, false), env.userName);
    hide AclManager.SyncAcls, HandleDelete, OfTopic, SoundIds, Failed, AclsOf;
  }

  // ----- The finalizer -----

  /** A reconcile that drops the finalizer, or makes the resource go away, has left nothing of the stream. */
  lemma FinalizerGuards(env: Setup, s: Stream, r: Remote, getFails: bool, w: TopicReconciler.Write, now: string)
    requires Sound(r) && !env.dryRun && Resources.FINALIZER in s.finalizers
    ensures var res := ReconcileStream(env, Some(s), r, getFails, w, now);
            res.stored.None? || Resources.FINALIZER !in res.stored.value.finalizers
            ==> s.deleting && Gone(res.remote, s.names)
  {
    var status := Or(s.status, NO_STATUS).(fullyQualifiedTopicPrefix := s.names.topicPrefix);
    hide HandleDelete, Gone, OthersKept, AclManager.SyncAcls, Sound, Failed, RolledOut, AclsOf;
    DeletionIsExact(env, s, status, r, now);
    OnlyDeletionFinalizes(env, s, r, now);
  }

  /** A stream without the finalizer gets it from a reconcile that completes and from no other. */
  lemma GuardedIffComplete(env: Setup, s: Stream, r: Remote, getFails: bool, w: TopicReconciler.Write, now: string)
    requires !s.deleting && Resources.FINALIZER !in s.finalizers
    ensures var res, result := ReconcileStream(env, Some(s), r, getFails, w, now), ProcessStream(env, s, r, now).result;
            && res.stored.Some?
            && (Resources.FINALIZER in res.stored.value.finalizers
                <==> !getFails && !w.Rejected? && result.error.None? && !result.skipped)
  {
    OnlyDeletionFinalizes(env, s, r, now);
    hide ProcessStream;
  }

  lemma OnlyDeletionFinalizes(env: Setup, s: Stream, r: Remote, now: string)
    ensures ProcessStream(env, s, r, now).result.deleteFinalized ==> s.deleting
  {
    hide AclManager.SyncAcls, HandleDelete;
  }
}
