/** When a Topic reconcile gets to its end, and how soon a topic that nobody touches is settled, or gone. */
module TopicProgress {
  import opened Basics
  import opened AclModel
  import opened AclOutcomes
  import opened AivenService
  import opened Resources
  import opened Synchronizer
  import opened TopicReconciler
  import opened TopicGuarantees
  import opened TopicRuns
  import opened TopicAlignment
  import AclManager
  import Errors
  import TopicManager
  import TopicModel
  import TopicOutcomes

  // ----- One call -----

  /** The settings can be sent, or need not be. */
  predicate Sendable(r: Remote, name: string, c: TopicModel.Settings) {
    TopicManager.UpdateRequest(c).Ok? || (name in r.topics && !TopicManager.TopicConfigChanged(r.topics[name], Some(c)))
  }

  /** There is something to synchronise, and nothing in the spec stands in the way. */
  predicate Workable(env: Setup, t: StoredTopic, r: Remote) {
    var spec := Defaulted(env.lib, t.spec);
    var hash := env.lib.hash(spec);
    && hash.Ok? && env.lib.needsSync(t.status, hash.value) && t.spec.pool in env.projects
    && Wanted(FullName(t), spec.acl, env.lib.userName).Ok?
    && Sendable(r, FullName(t), spec.config.value)
  }

  lemma SyncTopicSucceedsIff(r: Remote, name: string, c: TopicModel.Settings)
    requires AllSucceed(r) && AllAnswered(r)
    ensures TopicManager.SyncTopic(r, name, Some(c), false).answer.None? <==> Sendable(r, name, c)
  {
    TopicManager.SettingsDecide(c);
    hide TopicManager.CreateRequest, TopicManager.UpdateRequest, TopicManager.TopicConfigChanged, TopicModel.Overlay;
  }

  lemma SyncBothSucceedsIff(r: Remote, name: string, acl: seq<TopicACL>, c: TopicModel.Settings,
                            userName: TopicACL -> Result<string, Errors.Error>)
    requires Sound(r) && AllSucceed(r) && AllAnswered(r)
    ensures SyncBoth(r, name, acl, Some(c), userName, false).answer.None?
            <==> Wanted(name, acl, userName).Ok? && Sendable(r, name, c)
  {
    var acls := AclManager.SyncAcls(r, name, acl, userName, false);
    RealAcls(r, name, acl, userName);
    DryAcls(r, name, acl, userName);
    if Wanted(name, acl, userName).Ok? {
      SyncSucceeds(r, name, acl, userName);
      SyncAclsFrame(r, name, acl, userName, false);
      SyncTopicSucceedsIff(acls.remote, name, c);
    }
    hide AclManager.SyncAcls, TopicManager.SyncTopic, AllSucceed, Wanted, TopicManager.UpdateRequest,
         TopicManager.TopicConfigChanged;
  }

  lemma RealSyncCompletesIff(env: Setup, t: StoredTopic, r: Remote, now: string)
    requires !env.dryRun && Sound(r) && AllSucceed(r) && AllAnswered(r) && !t.deleting
    ensures var res := ProcessTopic(env, t, r, now).result;
            res.error.None? && !res.skipped <==> Workable(env, t, r)
  {
    var spec, name := Defaulted(env.lib, t.spec), FullName(t);
    var resolved := ResolveServiceName(ResolveServiceName(r).remote).remote;
    SyncBothSucceedsIff(resolved, name, spec.acl, spec.config.value, env.lib.userName);
    hide SyncBoth, Wanted, Sound, AllSucceed, FullName, TopicManager.UpdateRequest, TopicManager.TopicConfigChanged;
  }

  /** If no call fails, a sync completes exactly if the topic is workable, in a dry run as well. */
  lemma SyncCompletesIff(env: Setup, t: StoredTopic, r: Remote, now: string)
    requires Sound(r) && (AllSucceed(r) || env.dryRun) && AllAnswered(r) && !t.deleting
    ensures var res := ProcessTopic(env, t, r, now).result;
            res.error.None? && !res.skipped <==> Workable(env, t, r)
  {
    if env.dryRun {
      var live := r.(outcomes := []);
      DryRunSimulates(env, t, r, live, now);
      assert AllSucceed(live) && Sound(live);
      hide ProcessTopic, Sound, TopicManager.UpdateRequest, TopicManager.TopicConfigChanged, Wanted;
      RealSyncCompletesIff(env.(dryRun := false), t, live, now);
    } else {
      hide ProcessTopic, Sound, Workable;
      RealSyncCompletesIff(env, t, r, now);
    }
  }

  lemma RealDeletionFinishes(env: Setup, t: StoredTopic, r: Remote, now: string)
    requires !env.dryRun && Sound(r) && AllSucceed(r) && AllAnswered(r) && t.deleting
    ensures var res := ProcessTopic(env, t, r, now).result; res.error.None? && !res.skipped && res.deleteFinalized
  {
    var resolved := ResolveServiceName(r).remote;
    assert Wanted(FullName(t), [], env.lib.userName) == Ok([]);
    SyncSucceeds(resolved, FullName(t), [], env.lib.userName);
    hide AclManager.SyncAcls, Failed, Finalized, FullName, SoundIds;
  }

  /** If no call fails, a deletion is final, in a dry run as well. */
  lemma DeletionFinishes(env: Setup, t: StoredTopic, r: Remote, now: string)
    requires Sound(r) && (AllSucceed(r) || env.dryRun) && AllAnswered(r) && t.deleting
    ensures var res := ProcessTopic(env, t, r, now).result; res.error.None? && !res.skipped && res.deleteFinalized
  {
    if env.dryRun {
      var live := r.(outcomes := []);
      DryRunSimulates(env, t, r, live, now);
      assert AllSucceed(live) && Sound(live);
      hide ProcessTopic, Sound;
      RealDeletionFinishes(env.(dryRun := false), t, live, now);
    } else {
      hide ProcessTopic, Sound;
      RealDeletionFinishes(env, t, r, now);
    }
  }

  // ----- Runs -----

  /** The reconcile meets no failure, at Aiven or in the cluster, except perhaps a lost answer to its write. */
  predicate Good(env: Setup, e: Event) {
    && e.Reconcile? && !e.getFails && !e.write.Rejected?
    && (forall i :: 0 <= i < |e.answers| ==> e.answers[i].None?)
    && (env.dryRun || forall i :: 0 <= i < |e.outcomes| ==> e.outcomes[i].Success?)
  }

  lemma GoodFaces(env: Setup, w: World, name: string, e: Event)
    requires Healthy(w, name) && Good(env, e) && w.stored.Some?
    ensures var r := Facing(w, w.stored.value, e); Sound(r) && (AllSucceed(r) || env.dryRun) && AllAnswered(r)
  {
  }

  /** A reconcile without failures completes exactly if the topic is workable. */
  lemma GoodCompletesIff(env: Setup, w: World, name: string, e: Event)
    requires Healthy(w, name) && Good(env, e) && w.stored.Some? && !w.stored.value.deleting
    ensures Completes(env, w, e) <==> Workable(env, w.stored.value, w.pools[w.stored.value.spec.pool])
  {
    var t := w.stored.value;
    GoodFaces(env, w, name, e);
    hide ProcessTopic, Sound, TopicManager.UpdateRequest, TopicManager.TopicConfigChanged, Wanted;
    SyncCompletesIff(env, TakenUp(t), Facing(w, t, e), e.now);
  }

  /** Whether a synchronisation is needed depends on the stored hash only. */
  ghost predicate NeedsByHash(lib: Library) {
    forall status: Option<TopicStatus>, hash ::
      lib.needsSync(status, hash) <==> status.None? || status.value.synchronizationHash != hash
  }

  /** Nothing in the spec stands in the way of its synchronisation, whatever is at Aiven. */
  predicate SpecWorks(env: Setup, t: StoredTopic) {
    var spec := Defaulted(env.lib, t.spec);
    var hash := env.lib.hash(spec);
    && hash.Ok? && hash.value != "" && t.spec.pool in env.projects
    && Wanted(FullName(t), spec.acl, env.lib.userName).Ok?
    && TopicManager.UpdateRequest(spec.config.value).Ok?
  }

  /** The resource is there, not being deleted, and its spec works. */
  ghost predicate Works(env: Setup, w: World) {
    w.stored.Some? && !w.stored.value.deleting && SpecWorks(env, w.stored.value)
  }

  lemma WorksStays(env: Setup, w: World, name: string, e: Event)
    requires Lawful(env.lib) && Healthy(w, name) && ValidEvent(w, name, e) && Works(env, w)
    requires e.Reconcile? || e.OthersWrite?
    ensures Works(env, Step(env, w, e))
  {
    if e.Reconcile? {
      var t := w.stored.value;
      var r := Facing(w, t, e);
      ReconcileLeaves(env, t, r, e.getFails, e.write, e.now);
      DefaultsAreStable(env, TakenUp(t), r, e.now);
      OnlyDeletionFinalizes(env, TakenUp(t), r, e.now);
      hide ReconcileTopic, ProcessTopic, Lawful, Healthy, Wanted, TopicManager.UpdateRequest, Defaulted;
    } else {
      hide ReconcileTopic, Lawful, Healthy, Wanted, TopicManager.UpdateRequest, Defaulted;
    }
  }

  lemma OnlyDeletionFinalizes(env: Setup, t: StoredTopic, r: Remote, now: string)
    ensures ProcessTopic(env, t, r, now).result.deleteFinalized ==> t.deleting
  {
    var status := StatusOf(t).(fullyQualifiedName := FullName(t));
    SyncNeverFinalizes(env, t, status, ResolveServiceName(r).remote, now);
    hide ProcessDeletion, ProcessSync, FullName;
  }

  /** Only a reconcile that completes settles a topic. */
  lemma OnlyCompleteSettles(env: Setup, w: World, name: string, e: Event)
    requires Lawful(env.lib) && Healthy(w, name) && ValidEvent(w, name, e) && Works(env, w)
    requires e.Reconcile? || e.OthersWrite?
    requires !TopicRuns.Settled(env, w) && TopicRuns.Settled(env, Step(env, w, e))
    ensures Completes(env, w, e)
  {
    if e.Reconcile? {
      var t := w.stored.value;
      var r := Facing(w, t, e);
      ReconcileLeaves(env, t, r, e.getFails, e.write, e.now);
      DefaultsAreStable(env, TakenUp(t), r, e.now);
      ProcessHash(env, TakenUp(t), r, e.now);
      OnlyDeletionFinalizes(env, TakenUp(t), r, e.now);
      UnstoredStays(env, t, r, e.getFails, e.write, e.now);
      FailureNeverFinalizes(env, TakenUp(t), r, e.now);
      hide ReconcileTopic, ProcessTopic, Lawful, Healthy, Wanted, TopicManager.UpdateRequest, Defaulted, SyncBoth;
    }
  }

  lemma UnstoredStays(env: Setup, t: StoredTopic, r: Remote, getFails: bool, write: Write, now: string)
    ensures getFails || write.Rejected? ==> ReconcileTopic(env, Some(t), r, getFails, write, now).stored == Some(t)
  {
    hide ProcessTopic;
  }

  /** A good reconcile of a topic whose spec works settles it, if it is not settled already. */
  lemma GoodSettles(env: Setup, w: World, name: string, e: Event)
    requires Lawful(env.lib) && NeedsByHash(env.lib) && Healthy(w, name) && Works(env, w) && Good(env, e)
    ensures TopicRuns.Settled(env, w) || Completes(env, w, e)
  {
    GoodCompletesIff(env, w, name, e);
    hide Lawful, Healthy, Completes, Wanted, TopicManager.UpdateRequest, TopicManager.TopicConfigChanged;
  }

  lemma {:induction false} WorksRun(env: Setup, name: string, ws: seq<World>, es: seq<Event>, i: nat, n: nat)
    requires Lawful(env.lib) && Trace(env, name, ws, es) && i <= n < |ws| && Works(env, ws[i])
    requires forall m :: i <= m < n ==> es[m].Reconcile? || es[m].OthersWrite?
    ensures Works(env, ws[n])
    ensures TopicRuns.Settled(env, ws[n]) ==>
              TopicRuns.Settled(env, ws[i]) || exists j :: i <= j < n && Completes(env, ws[j], es[j])
  {
    assert forall m :: 0 <= m < |ws| ==> Healthy(ws[m], name);
    hide Sound, ValidEvent, Step, Lawful, Works, TopicRuns.Settled, Completes;
    if i < n {
      WorksRun(env, name, ws, es, i, n - 1);
      WorksStays(env, ws[n - 1], name, es[n - 1]);
      if TopicRuns.Settled(env, ws[n]) && !TopicRuns.Settled(env, ws[n - 1]) {
        OnlyCompleteSettles(env, ws[n - 1], name, es[n - 1]);
      }
    }
  }

  /**
    Once the user leaves a topic alone whose spec works, a single reconcile without failures is enough, however
    many have failed before it and whatever fails afterwards: the topic is settled from then on. Unless it was
    settled already some reconcile has completed, and Aiven has what the spec asks for exactly if that one was to
    lead to it.
  */
  lemma OneGoodReconcile(env: Setup, name: string, ws: seq<World>, es: seq<Event>, i: nat, k: nat, n: nat)
    requires Lawful(env.lib) && NeedsByHash(env.lib) && Trace(env, name, ws, es) && i <= k < n < |ws|
    requires Works(env, ws[i]) && Good(env, es[k])
    requires forall m :: i <= m < n ==> es[m].Reconcile? || es[m].OthersWrite?
    ensures TopicRuns.Settled(env, ws[n])
    ensures TopicRuns.Settled(env, ws[i]) ||
            exists j :: i <= j <= k && Completes(env, ws[j], es[j]) && (InLine(env, ws[n]) <==> WillMatch(env, ws[j]))
  {
    assert forall m :: 0 <= m < |ws| ==> Healthy(ws[m], name);
    hide Sound, ValidEvent, Step, Lawful, NeedsByHash, Works, TopicRuns.Settled, Completes, Good, InLine, WillMatch;
    WorksRun(env, name, ws, es, i, k);
    GoodSettles(env, ws[k], name, es[k]);
    var j := k;
    if TopicRuns.Settled(env, ws[k]) {
      SettledRunKeeps(env, name, ws, es, k, n);
      if !TopicRuns.Settled(env, ws[i]) {
        j :| i <= j < k && Completes(env, ws[j], es[j]);
        InLineUntilTouched(env, name, ws, es, j, n);
      }
    } else {
      InLineUntilTouched(env, name, ws, es, k, n);
    }
  }

  /**
    A reconcile leaves a topic unsettled without being repeated exactly if the topic was not settled before and the
    pool's name failed to resolve: an error that the reconciler does not retry.
  */
  lemma ForgottenIff(env: Setup, w: World, name: string, e: Event)
    requires Lawful(env.lib) && NeedsByHash(env.lib) && Healthy(w, name) && Works(env, w) && e.Reconcile?
    ensures var t := w.stored.value;
            var r := Facing(w, t, e);
            !ReconcileTopic(env, w.stored, r, e.getFails, e.write, e.now).requeue
            && !TopicRuns.Settled(env, Step(env, w, e))
            <==> !TopicRuns.Settled(env, w) && !e.getFails
                 && !(TopicOutcomes.Resolves(r) && TopicOutcomes.ResolvesAgain(r))
  {
    var t := w.stored.value;
    if TopicRuns.Settled(env, w) {
      SettledStays(env, w, name, e);
    } else {
      UnsettledNeeds(env, w);
      hide ProcessTopic, ReconcileTopic, Step, Lawful, NeedsByHash, Works, TopicRuns.Settled, TopicOutcomes.HashFor,
           TopicOutcomes.Resolves, TopicOutcomes.ResolvesAgain, Sound;
      ForgottenUnsettled(env, w, name, e);
    }
  }

  lemma UnsettledNeeds(env: Setup, w: World)
    requires NeedsByHash(env.lib) && Works(env, w) && !TopicRuns.Settled(env, w)
    ensures var t := TakenUp(w.stored.value);
            var hash := TopicOutcomes.HashFor(env, t);
            !t.deleting && hash.Ok? && env.lib.needsSync(t.status, hash.value) && t.spec.pool in env.projects
  {
    assert TopicOutcomes.HashFor(env, TakenUp(w.stored.value)) == env.lib.hash(Defaulted(env.lib, w.stored.value.spec));
    hide Wanted, TopicManager.UpdateRequest;
  }

  lemma ForgottenUnsettled(env: Setup, w: World, name: string, e: Event)
    requires Lawful(env.lib) && Healthy(w, name) && Works(env, w) && !TopicRuns.Settled(env, w) && e.Reconcile?
    requires w.stored.Some? && !w.stored.value.deleting
    requires var t := TakenUp(w.stored.value);
             var hash := TopicOutcomes.HashFor(env, t);
             hash.Ok? && env.lib.needsSync(t.status, hash.value) && t.spec.pool in env.projects
    ensures var r := Facing(w, w.stored.value, e);
            !ReconcileTopic(env, w.stored, r, e.getFails, e.write, e.now).requeue
            && !TopicRuns.Settled(env, Step(env, w, e))
            <==> !e.getFails && !(TopicOutcomes.Resolves(r) && TopicOutcomes.ResolvesAgain(r))
  {
    hide ProcessTopic, ReconcileTopic, Step, Lawful, Works, TopicRuns.Settled, TopicOutcomes.HashFor,
         TopicOutcomes.Resolves, TopicOutcomes.ResolvesAgain, Sound, TopicOutcomes.WrittenBack;
    var r := Facing(w, w.stored.value, e);
    var taken := TakenUp(w.stored.value);
    TopicOutcomes.ReconcileMeans(env, w.stored, r, e.getFails, e.write, e.now);
    TopicOutcomes.RequeueIff(env, taken, r, e.now);
    TopicOutcomes.SkippedIff(env, taken, r, e.now);
    if TopicRuns.Settled(env, Step(env, w, e)) {
      OnlyCompleteSettles(env, w, name, e);
    }
    SuccessSettles(env, w, name, e);
    if !(TopicOutcomes.Resolves(r) && TopicOutcomes.ResolvesAgain(r)) {
      SecondLookUp(env, taken, r, e.now);
    }
  }

  /** A look-up that fails ends a call that has something to synchronise. */
  lemma SecondLookUp(env: Setup, t: StoredTopic, r: Remote, now: string)
    requires !t.deleting && !(TopicOutcomes.Resolves(r) && TopicOutcomes.ResolvesAgain(r))
    requires var hash := TopicOutcomes.HashFor(env, t); hash.Ok? && env.lib.needsSync(t.status, hash.value)
    ensures ProcessTopic(env, t, r, now).result.error.Some?
  {
    hide SyncBoth, AclManager.SyncAcls, Failed;
    TopicOutcomes.FailedFields(env.lib);
  }

  // ----- Deletion -----

  /** The resource is gone, or being deleted with no finalizer but ours left. */
  predicate Going(w: World) {
    w.stored.Some? ==> w.stored.value.deleting && w.stored.value.finalizers <= {FINALIZER}
  }

  lemma GoingStays(env: Setup, w: World, name: string, e: Event)
    requires Healthy(w, name) && ValidEvent(w, name, e) && Going(w) && (e.Reconcile? || e.OthersWrite?)
    ensures Going(Step(env, w, e))
    ensures Good(env, e) || w.stored.None? ==> Step(env, w, e).stored.None?
    ensures !env.dryRun && w.stored.Some? && Step(env, w, e).stored.None? ==> CleansUp(w, e, Step(env, w, e))
  {
    if e.Reconcile? && w.stored.Some? {
      var t := w.stored.value;
      var r := Facing(w, t, e);
      assert Sound(r);
      ReconcileLeaves(env, t, r, e.getFails, e.write, e.now);
      if Good(env, e) {
        GoodFaces(env, w, name, e);
        DeletionFinishes(env, TakenUp(t), r, e.now);
      }
      if !env.dryRun {
        ReconcileGuards(env, w, name, e);
      }
      hide ProcessTopic, Sound, CleansUp;
    } else {
      hide ReconcileTopic, Sound, CleansUp;
    }
  }

  /** And a single one is enough for a deletion, which outside dry runs has cleaned up when the resource is gone. */
  lemma {:induction false} OneGoodDeletion(env: Setup, name: string, ws: seq<World>, es: seq<Event>,
                                           i: nat, n: nat)
    requires Trace(env, name, ws, es) && i <= n < |ws| && Going(ws[i]) && ws[i].stored.Some?
    requires forall m :: i <= m < n ==> es[m].Reconcile? || es[m].OthersWrite?
    ensures Going(ws[n])
    ensures (exists k :: i <= k < n && Good(env, es[k])) ==> ws[n].stored.None?
    ensures !env.dryRun && ws[n].stored.None? ==>
              exists j :: i <= j < n && ws[j].stored.Some? && CleansUp(ws[j], es[j], ws[j + 1])
  {
    hide Healthy, ValidEvent, Step, Going, Good, CleansUp;
    if i < n {
      OneGoodDeletion(env, name, ws, es, i, n - 1);
      GoingStays(env, ws[n - 1], name, es[n - 1]);
    }
  }
}
