/**
  A Stream over its whole life: the user creates, edits and deletes the resource, the stream's application
  creates topics with its prefix, reconciles run with any failures, and others use the service as well.
*/
module StreamRuns {
  import opened Basics
  import opened Errors
  import opened AclModel
  import opened AivenService
  import opened StreamReconciler
  import opened StreamGuarantees
  import AclManager
  import AclRuns
  import Resources
  import TopicGuarantees
  import TopicModel
  import TopicReconciler

  datatype World = World(stored: Option<Stream>, pools: map<string, Remote>)

  datatype Event =
    | UserCreates(stream: Stream)
    | UserEdits(spec: StreamSpec)
    | UserDeletes
    | AppWrites(remote: Remote)
    | Reconcile(answers: seq<Option<Fault>>, outcomes: seq<Outcome>, getFails: bool, write: TopicReconciler.Write,
                now: string)
    | OthersWrite(pool: string, remote: Remote)

  function Facing(w: World, s: Stream, e: Event): Remote
    requires s.spec.pool in w.pools && e.Reconcile?
  {
    w.pools[s.spec.pool].(answers := e.answers, outcomes := e.outcomes)
  }

  function Step(env: Setup, w: World, e: Event): World
    requires w.stored.Some? ==> w.stored.value.spec.pool in w.pools
  {
    match e
    case UserCreates(s) => if w.stored.Some? then w else w.(stored := Some(s))
    case UserEdits(spec) => if w.stored.None? then w else w.(stored := Some(w.stored.value.(spec := spec)))
    case UserDeletes =>
      if w.stored.None? then w
      else if w.stored.value.finalizers == {} then w.(stored := None)
      else w.(stored := Some(w.stored.value.(deleting := true)))
    case AppWrites(remote) =>
      if w.stored.None? then w else w.(pools := w.pools[w.stored.value.spec.pool := remote])
    case Reconcile(_, _, getFails, write, now) =>
      if w.stored.None? then w
      else
        var s := w.stored.value;
        var res := ReconcileStream(env, w.stored, Facing(w, s, e), getFails, write, now);
        World(res.stored, w.pools[s.spec.pool := res.remote])
    case OthersWrite(pool, remote) => w.(pools := w.pools[pool := remote])
  }

  /** A resource without finalizers does not outlive its deletion. */
  predicate Lingers(s: Stream) {
    s.deleting ==> s.finalizers != {}
  }

  /** The resource keeps its names, its pool is known, and the services are sound. */
  ghost predicate Healthy(w: World, n: Names) {
    && (w.stored.Some? ==>
          w.stored.value.names == n && w.stored.value.spec.pool in w.pools && Lingers(w.stored.value))
    && forall p :: p in w.pools ==> Sound(w.pools[p])
  }

  /** Users leave status and finalizer alone; applications the entries; others the entries and the topics. */
  ghost predicate ValidEvent(w: World, n: Names, e: Event)
    requires Healthy(w, n)
  {
    match e
    case UserCreates(s) =>
      s.names == n && s.spec.pool in w.pools && !s.deleting && s.status.None? && Resources.FINALIZER !in s.finalizers
    case UserEdits(spec) => spec.pool in w.pools
    case UserDeletes => true
    case AppWrites(remote) =>
      w.stored.Some? && Sound(remote) && SameEntries(w.pools[w.stored.value.spec.pool], remote, n)
    case Reconcile(_, _, _, _, _) => true
    case OthersWrite(pool, remote) => pool in w.pools && Sound(remote) && SameOwn(w.pools[pool], remote, n)
  }

  ghost predicate SameEntries(before: Remote, after: Remote, n: Names) {
    OfTopic(after.acls, n.topicWildcard) == OfTopic(before.acls, n.topicWildcard)
  }

  ghost predicate SameOwn(before: Remote, after: Remote, n: Names) {
    && SameEntries(before, after, n)
    && forall k :: HasPrefix(k, n.topicPrefix) ==> (k in after.topics <==> k in before.topics)
  }

  /** What a reconcile can leave in the cluster. */
  ghost predicate LeftBehind(s: Stream, p: Processed, stored: Option<Stream>) {
    || stored == Some(s)
    || (stored.None? && s.deleting && p.result.deleteFinalized && !p.result.skipped && p.result.error.None?)
    || (!p.result.skipped && stored.Some? &&
        var written := s.(status := Some(p.result.status));
        || (p.result.error.Some? && stored == Some(written))
        || (p.result.error.None? && p.result.deleteFinalized
            && stored == Some(written.(finalizers := s.finalizers - {Resources.FINALIZER})))
        || (p.result.error.None? && !p.result.deleteFinalized
            && stored == Some(written.(finalizers := s.finalizers + {Resources.FINALIZER}))))
  }

  lemma ReconcileLeaves(env: Setup, s: Stream, r: Remote, getFails: bool, w: TopicReconciler.Write, now: string)
    requires Lingers(s)
    ensures var res := ReconcileStream(env, Some(s), r, getFails, w, now);
            && LeftBehind(s, ProcessStream(env, s, r, now), res.stored)
            && res.remote == if getFails then r else ProcessStream(env, s, r, now).remote
  {
    OnlyDeletionFinalizes(env, s, r, now);
    hide ProcessStream;
  }

  lemma DeletionIsSound(env: Setup, s: Stream, status: StreamStatus, r: Remote, now: string)
    requires Sound(r)
    ensures Sound(HandleDelete(env, s, status, r, now).remote)
  {
    var n := s.names;
    if env.dryRun {
      var resolved := ResolveServiceName(r).remote;
      ReadIsKept(r, n);
      AclsAreKept(resolved, n, env.userName);
      var acls := AclManager.SyncAcls(resolved, n.topicWildcard, [], env.userName, false).remote;
      ReadIsKept(acls, n);
      hide AclManager.SyncAcls, OthersKept, Failed, Finalized;
      KeptIsSound(r, resolved, n);
      KeptIsSound(resolved, acls, n);
      KeptIsSound(acls, ListTopics(acls).remote, n);
      DryTopicDeletions(ListTopics(acls).remote, acls.names, n.topicPrefix);
      hide Sound;
    } else {
      DeletionIsExact(env, s, status, r, now);
      KeptIsSound(r, HandleDelete(env, s, status, r, now).remote, n);
    }
  }

  lemma ProcessIsSound(env: Setup, s: Stream, r: Remote, now: string)
    requires Sound(r)
    ensures Sound(ProcessStream(env, s, r, now).remote)
  {
    var status := TopicModel.Or(s.status, NO_STATUS).(fullyQualifiedTopicPrefix := s.names.topicPrefix);
    var resolved := ResolveServiceName(r).remote;
    DeletionIsSound(env, s, status, r, now);
    assert Sound(resolved);
    TopicGuarantees.SyncAclsOwn(resolved, s.names.topicWildcard, AclsOf(s, false), env.userName, env.dryRun);
    hide HandleDelete, AclManager.SyncAcls, Failed, RolledOut, AclsOf, SoundIds, DistinctBy;
  }

  lemma ReconcileKeepsHealthy(env: Setup, w: World, n: Names, e: Event)
    requires Healthy(w, n) && e.Reconcile? && w.stored.Some?
    ensures Healthy(Step(env, w, e), n)
  {
    var s := w.stored.value;
    var r := Facing(w, s, e);
    assert Sound(r);
    hide ReconcileStream, ProcessStream, Sound, Lingers;
    ReconcileLeaves(env, s, r, e.getFails, e.write, e.now);
    ReconcileLingers(env, s, r, e.getFails, e.write, e.now);
    ProcessIsSound(env, s, r, e.now);
  }

  lemma StepKeepsHealthy(env: Setup, w: World, n: Names, e: Event)
    requires Healthy(w, n) && ValidEvent(w, n, e)
    ensures Healthy(Step(env, w, e), n)
  {
    hide ReconcileStream, Sound, SameOwn, SameEntries;
    if e.Reconcile? && w.stored.Some? {
      ReconcileKeepsHealthy(env, w, n, e);
    }
  }

  lemma ReconcileLingers(env: Setup, s: Stream, r: Remote, getFails: bool, w: TopicReconciler.Write, now: string)
    requires Lingers(s)
    ensures var stored := ReconcileStream(env, Some(s), r, getFails, w, now).stored;
            stored.Some? ==> Lingers(stored.value)
  {
    hide ProcessStream;
  }

  /** A run: the worlds `ws`, each reached from the one before by the event in between. */
  ghost predicate Trace(env: Setup, n: Names, ws: seq<World>, es: seq<Event>) {
    && |ws| == |es| + 1
    && (forall i :: 0 <= i < |ws| ==> Healthy(ws[i], n))
    && forall i :: 0 <= i < |es| ==> ValidEvent(ws[i], n, es[i]) && ws[i + 1] == Step(env, ws[i], es[i])
  }

  /** Every event goes on from every world: nothing but the first one's health is assumed of a run. */
  lemma TraceGoesOn(env: Setup, n: Names, ws: seq<World>, es: seq<Event>, e: Event)
    requires Trace(env, n, ws, es) && ValidEvent(ws[|es|], n, e)
    ensures Trace(env, n, ws + [Step(env, ws[|es|], e)], es + [e])
  {
    hide Step, Healthy, ValidEvent;
    StepKeepsHealthy(env, ws[|es|], n, e);
  }

  // ----- Where a finalizer comes from -----

  predicate Guarded(w: World) {
    w.stored.Some? && Resources.FINALIZER in w.stored.value.finalizers
  }

  /** The reconcile runs to its end without an error for a stream that is not being deleted. */
  ghost predicate Completes(env: Setup, w: World, e: Event)
    requires w.stored.Some? ==> w.stored.value.spec.pool in w.pools
  {
    && e.Reconcile? && !e.getFails && w.stored.Some? && !w.stored.value.deleting
    && var res := ProcessStream(env, w.stored.value, Facing(w, w.stored.value, e), e.now).result;
    && res.error.None? && !res.skipped
  }

  /** A stream gets its finalizer exactly from a reconcile that completes and is stored. */
  lemma StepGuardsIff(env: Setup, w: World, n: Names, e: Event)
    requires Healthy(w, n) && ValidEvent(w, n, e) && !Guarded(w)
    ensures Guarded(Step(env, w, e)) <==> Completes(env, w, e) && !e.write.Rejected?
  {
    if e.Reconcile? && w.stored.Some? {
      var s := w.stored.value;
      var r := Facing(w, s, e);
      if s.deleting {
        ReconcileLeaves(env, s, r, e.getFails, e.write, e.now);
        DeletingFinalizes(env, s, r, e.now);
      } else {
        GuardedIffComplete(env, s, r, e.getFails, e.write, e.now);
      }
      hide ReconcileStream, ProcessStream, Sound;
    } else {
      hide ReconcileStream, Sound;
    }
  }

  lemma GetFailsStays(env: Setup, s: Stream, r: Remote, w: TopicReconciler.Write, now: string)
    ensures ReconcileStream(env, Some(s), r, true, w, now).stored == Some(s)
  {
  }

  lemma DeletingFinalizes(env: Setup, s: Stream, r: Remote, now: string)
    ensures var res := ProcessStream(env, s, r, now).result;
            s.deleting ==> !res.skipped && (res.error.None? <==> res.deleteFinalized)
  {
    hide AclManager.SyncAcls, DeleteTopics;
  }

  /** Over every run, a finalizer that is there now was put there by a reconcile that completed. */
  lemma {:induction false} GuardedMeansComplete(env: Setup, n: Names, ws: seq<World>, es: seq<Event>, i: nat)
    requires Trace(env, n, ws, es) && i < |ws| && !Guarded(ws[0]) && Guarded(ws[i])
    ensures exists k :: 0 <= k < i && Completes(env, ws[k], es[k])
  {
    hide Healthy, ValidEvent, Step, Guarded, Completes;
    if i > 0 {
      if Guarded(ws[i - 1]) {
        GuardedMeansComplete(env, n, ws, es, i - 1);
      } else {
        StepGuardsIff(env, ws[i - 1], n, es[i - 1]);
      }
    }
  }

  /** The grants of a stream as it should be: its own entry and those of its additional users, and nothing else. */
  ghost predicate Granted(s: Stream, r: Remote, userName: TopicACL -> Result<string, Error>) {
    && (forall a :: WantsAcl(s, a) ==> userName(a).Ok?)
    && forall g :: g in Grants(OfTopic(r.acls, s.names.topicWildcard))
                   <==> exists a :: WantsAcl(s, a) && userName(a).Ok?
                                    && g == Grant(a.access, s.names.topicWildcard, userName(a).value)
  }

  lemma ExactIsGranted(s: Stream, r: Remote, userName: TopicACL -> Result<string, Error>)
    requires AclRuns.Exact(r.acls, s.names.topicWildcard, AclsOf(s, false), userName)
    ensures Granted(s, r, userName)
  {
    AclsOfMeans(s);
    hide AclsOf, WantsAcl, OfTopic, Grants;
    var acls := AclsOf(s, false);
    forall g
      ensures g in Grants(OfTopic(r.acls, s.names.topicWildcard))
              <==> exists a :: WantsAcl(s, a) && userName(a).Ok?
                               && g == Grant(a.access, s.names.topicWildcard, userName(a).value)
    {
      if a :| WantsAcl(s, a) && userName(a).Ok? && g == Grant(a.access, s.names.topicWildcard, userName(a).value) {
        assert a in acls;
      }
    }
  }

  /** And that reconcile left exactly the entries that the stream wants. */
  lemma CompleteIsExact(env: Setup, w: World, n: Names, e: Event)
    requires !env.dryRun && Healthy(w, n) && Completes(env, w, e)
    ensures Granted(w.stored.value, Step(env, w, e).pools[w.stored.value.spec.pool], env.userName)
  {
    var s := w.stored.value;
    var r := Facing(w, s, e);
    assert SoundIds(r.acls);
    hide ReconcileStream, ProcessStream, AclRuns.Exact, AclsOf, SoundIds, Granted;
    ReconcileLeaves(env, s, r, e.getFails, e.write, e.now);
    SyncedIsExact(env, s, r, e.now);
    ExactIsGranted(s, Step(env, w, e).pools[s.spec.pool], env.userName);
  }

  lemma SyncedIsExact(env: Setup, s: Stream, r: Remote, now: string)
    requires !env.dryRun && SoundIds(r.acls) && !s.deleting
    ensures var p := ProcessStream(env, s, r, now);
            p.result.error.None? && !p.result.skipped ==>
              AclRuns.Exact(p.remote.acls, s.names.topicWildcard, AclsOf(s, false), env.userName)
  {
    var resolved := ResolveServiceName(r).remote;
    var acls := AclManager.SyncAcls(resolved, s.names.topicWildcard, AclsOf(s, false), env.userName, false);
    if acls.answer.None? {
      AclRuns.SyncStep(resolved, s.names.topicWildcard, AclsOf(s, false), env.userName);
    }
    hide AclManager.SyncAcls, AclRuns.Exact, AclsOf, SoundIds;
  }
}
