/**
  When a topic whose stored hash is up to date, and that reconciles therefore skip, has at Aiven what its
  spec asks for, and when it has not.
*/
module TopicAlignment {
  import opened Basics
  import opened Errors
  import opened AclModel
  import opened AivenService
  import opened Resources
  import opened Synchronizer
  import opened TopicReconciler
  import opened TopicGuarantees
  import opened TopicRuns
  import AclManager
  import TopicManager
  import TopicModel

  // ----- What is not logged has not happened -----

  /** The log only grows, and without a new call in it nothing at Aiven has changed. */
  predicate Logged(before: Remote, after: Remote) {
    && before.log <= after.log
    && (after.log == before.log ==> after.acls == before.acls && after.topics == before.topics)
  }

  lemma {:induction false} AddAllLogged(r: Remote, adds: seq<Acl>, dryRun: bool)
    ensures Logged(r, AclManager.AddAll(r, adds, dryRun).remote)
    decreases |adds|
  {
    if adds != [] {
      var next := if dryRun then r else CreateAcl(r, GrantOf(adds[0])).remote;
      AddAllLogged(next, adds[1..], dryRun);
      assert dryRun || next.log == r.log + [CreateAclCall(GrantOf(adds[0]))];
    }
  }

  lemma {:induction false} DeleteAllLogged(r: Remote, dels: seq<Acl>, dryRun: bool)
    ensures Logged(r, AclManager.DeleteAll(r, dels, dryRun).remote)
    decreases |dels|
  {
    if dels != [] && dels[0].id != "" {
      var next := if dryRun then r else DeleteAcl(r, dels[0].id).remote;
      DeleteAllLogged(next, dels[1..], dryRun);
      assert dryRun || next.log == r.log + [DeleteAclCall(dels[0].id)];
    }
  }

  lemma SyncAclsLogged(r: Remote, topic: string, specs: seq<TopicACL>, userName: TopicACL -> Result<string, Error>,
                       dryRun: bool)
    ensures Logged(r, AclManager.SyncAcls(r, topic, specs, userName, dryRun).remote)
  {
    var listed := ListAcls(r).remote;
    if ListAcls(r).answer.Ok? && Wanted(topic, specs, userName).Ok? {
      var view, w := OfTopic(r.acls, topic), Wanted(topic, specs, userName).value;
      AddAllLogged(listed, Missing(view, w), dryRun);
      DeleteAllLogged(AclManager.AddAll(listed, Missing(view, w), dryRun).remote, Surplus(view, w), dryRun);
    }
  }

  lemma SyncTopicLogged(r: Remote, name: string, config: Option<TopicModel.Settings>, dryRun: bool)
    ensures Logged(r, TopicManager.SyncTopic(r, name, config, dryRun).remote)
  {
    hide TopicManager.CreateRequest, TopicManager.UpdateRequest, TopicManager.TopicConfigChanged, TopicModel.Overlay;
    var got := GetTopic(r, name).remote;
    assert forall c :: |got.log + [c]| > |got.log|;
  }

  lemma SyncBothLogged(r: Remote, name: string, acl: seq<TopicACL>, config: Option<TopicModel.Settings>,
                       userName: TopicACL -> Result<string, Error>, dryRun: bool)
    ensures Logged(r, SyncBoth(r, name, acl, config, userName, dryRun).remote)
  {
    SyncAclsLogged(r, name, acl, userName, dryRun);
    SyncTopicLogged(AclManager.SyncAcls(r, name, acl, userName, dryRun).remote, name, config, dryRun);
    hide AclManager.SyncAcls, TopicManager.SyncTopic;
  }

  lemma DeletionLogged(env: Setup, t: StoredTopic, status: TopicStatus, r: Remote, now: string)
    ensures Logged(r, ProcessDeletion(env, t, status, r, now).remote)
  {
    var name := FullName(t);
    SyncAclsLogged(r, name, [], env.lib.userName, env.dryRun);
    hide AclManager.SyncAcls, Failed, Finalized, FullName;
    var acls := AclManager.SyncAcls(r, name, [], env.lib.userName, env.dryRun).remote;
    assert |DeleteTopic(acls, name).remote.log| > |acls.log|;
  }

  /** A call of Process that issues no mutating call changes nothing at Aiven. */
  lemma ProcessLogged(env: Setup, t: StoredTopic, r: Remote, now: string)
    ensures Logged(r, ProcessTopic(env, t, r, now).remote)
  {
    var resolved := ResolveServiceName(r).remote;
    var status := StatusOf(t).(fullyQualifiedName := FullName(t));
    var spec := Defaulted(env.lib, t.spec);
    DeletionLogged(env, t, status, resolved, now);
    SyncBothLogged(ResolveServiceName(resolved).remote, FullName(t), spec.acl, spec.config, env.lib.userName,
                   env.dryRun);
    hide ProcessDeletion, SyncBoth, Failed, RolledOut, FullName;
  }

  // ----- In line -----

  /** Settled, and Aiven has what the stored spec asks for. */
  ghost predicate InLine(env: Setup, w: World)
    requires w.stored.Some? ==> w.stored.value.spec.pool in w.pools
  {
    TopicRuns.Settled(env, w) && AtAiven(env, w)
  }

  ghost predicate AtAiven(env: Setup, w: World)
    requires w.stored.Some? ==> w.stored.value.spec.pool in w.pools
  {
    w.stored.Some? && Matches(env.lib, w.stored.value, w.pools[w.stored.value.spec.pool])
  }

  lemma MatchesSame(lib: Library, t: StoredTopic, u: StoredTopic, r: Remote, s: Remote)
    requires FullName(u) == FullName(t) && Defaulted(lib, u.spec) == Defaulted(lib, t.spec)
    requires SameOwn(r, s, FullName(t))
    ensures Matches(lib, u, s) <==> Matches(lib, t, r)
  {
    hide Wanted, OfTopic, TopicManager.Satisfies, Grants;
  }

  /** The resource is there both times, with the same pool and the same spec once defaults are filled in. */
  ghost predicate SameSpec(env: Setup, a: World, b: World) {
    && a.stored.Some? && b.stored.Some?
    && b.stored.value.spec.pool == a.stored.value.spec.pool
    && Defaulted(env.lib, b.stored.value.spec) == Defaulted(env.lib, a.stored.value.spec)
  }

  /** The two worlds are alike in all that decides whether Aiven has what the spec asks for. */
  ghost predicate Alike(env: Setup, a: World, b: World, name: string)
    requires Healthy(a, name) && Healthy(b, name)
  {
    && SameSpec(env, a, b)
    && SameOwn(a.pools[a.stored.value.spec.pool], b.pools[a.stored.value.spec.pool], name)
  }

  lemma AlikeMatch(env: Setup, a: World, b: World, name: string)
    requires Healthy(a, name) && Healthy(b, name) && Alike(env, a, b, name)
    ensures AtAiven(env, a) <==> AtAiven(env, b)
  {
    var pool := a.stored.value.spec.pool;
    MatchesSame(env.lib, a.stored.value, b.stored.value, a.pools[pool], b.pools[pool]);
    hide Matches, SameOwn, Defaulted;
  }

  // ----- What a complete reconcile gives -----

  /** What a complete reconcile will lead to: a dry run keeps what is there, a real one gives what is attainable. */
  ghost predicate WillMatch(env: Setup, w: World)
    requires w.stored.Some? ==> w.stored.value.spec.pool in w.pools
  {
    && w.stored.Some?
    && if env.dryRun then AtAiven(env, w)
       else Attainable(env.lib, w.stored.value, w.pools[w.stored.value.spec.pool])
  }

  lemma CompleteStores(env: Setup, w: World, name: string, e: Event)
    requires Lawful(env.lib) && Healthy(w, name)
    ensures Completes(env, w, e) ==>
              var next, t := Step(env, w, e), w.stored.value;
              && Healthy(next, name) && TopicRuns.Settled(env, next)
              && SameSpec(env, w, next)
              && next.pools == w.pools[t.spec.pool := ProcessTopic(env, TakenUp(t), Facing(w, t, e), e.now).remote]
  {
    if Completes(env, w, e) {
      var t := w.stored.value;
      var r := Facing(w, t, e);
      StepKeepsHealthy(env, w, name, e);
      SuccessSettles(env, w, name, e);
      SuccessHash(env, TakenUp(t), r, e.now);
      DefaultsAreStable(env, TakenUp(t), r, e.now);
      hide ProcessTopic, Lawful, Healthy, TopicRuns.Settled, Defaulted;
    }
  }

  lemma DryProcessReads(env: Setup, t: StoredTopic, r: Remote, now: string)
    requires env.dryRun && Sound(r)
    ensures OnlyRead(r, ProcessTopic(env, t, r, now).remote)
  {
    DryRunSimulates(env, t, r, r.(outcomes := []), now);
    hide ProcessTopic;
  }

  /**
    After a complete reconcile the topic is settled. It is in line after a dry run exactly if Aiven had before what
    the spec asks for, and after a real one exactly if that was attainable.
  */
  lemma CompleteInLineIff(env: Setup, w: World, name: string, e: Event)
    requires Lawful(env.lib) && Healthy(w, name)
    ensures Completes(env, w, e) ==>
              var next := Step(env, w, e);
              && Healthy(next, name) && TopicRuns.Settled(env, next)
              && (InLine(env, next) <==> WillMatch(env, w))
  {
    if Completes(env, w, e) {
      CompletedInLineIff(env, w, name, e);
    }
    hide *;
  }

  lemma CompletedInLineIff(env: Setup, w: World, name: string, e: Event)
    requires Lawful(env.lib) && Healthy(w, name) && Completes(env, w, e)
    ensures var next := Step(env, w, e);
            && Healthy(next, name) && TopicRuns.Settled(env, next)
            && (InLine(env, next) <==> WillMatch(env, w))
  {
    var t, pool := w.stored.value, w.stored.value.spec.pool;
    var r := Facing(w, t, e);
    var next, p := Step(env, w, e), ProcessTopic(env, TakenUp(t), r, e.now);
    CompleteStores(env, w, name, e);
    assert Sound(r);
    if env.dryRun {
      DryProcessReads(env, TakenUp(t), r, e.now);
      hide ProcessTopic, Step, Lawful, Sound, TopicRuns.Settled, Completes;
      assert SameOwn(w.pools[pool], next.pools[pool], name);
      AlikeMatch(env, w, next, name);
    } else {
      RolloutIsReal(env, TakenUp(t), r, e.now);
      assert Attainable(env.lib, TakenUp(t), r) <==> Attainable(env.lib, t, w.pools[pool]);
      hide ProcessTopic, Step, Lawful, Sound, TopicRuns.Settled, Matches, Passes, Attainable, Defaulted;
      MatchesSame(env.lib, TakenUp(t), next.stored.value, p.remote, p.remote);
    }
  }

  // ----- What follows keeps it -----

  /** The event is an edit, another topic's reconcile, or a reconcile that issues no mutating call. */
  ghost predicate Quiet(env: Setup, w: World, e: Event)
    requires w.stored.Some? ==> w.stored.value.spec.pool in w.pools
  {
    || e.UserEdits? || e.OthersWrite?
    || (e.Reconcile? && forall p :: p in w.pools ==> Step(env, w, e).pools[p].log == w.pools[p].log)
  }

  /** The entries and the settings of the topic are the same in every pool. */
  ghost predicate SameEverywhere(a: World, b: World, name: string) {
    b.pools.Keys == a.pools.Keys && forall p :: p in a.pools ==> SameOwn(a.pools[p], b.pools[p], name)
  }

  lemma SameTransitive(a: World, b: World, c: World, name: string)
    requires SameEverywhere(a, b, name) && SameEverywhere(b, c, name)
    ensures SameEverywhere(a, c, name)
  {
    forall p | p in a.pools
      ensures SameOwn(a.pools[p], c.pools[p], name)
    {
      assert SameOwn(a.pools[p], b.pools[p], name) && SameOwn(b.pools[p], c.pools[p], name);
    }
  }

  lemma QuietStepKeeps(env: Setup, w: World, name: string, e: Event)
    requires Healthy(w, name) && ValidEvent(w, name, e) && Quiet(env, w, e)
    ensures SameEverywhere(w, Step(env, w, e), name)
  {
    if e.Reconcile? && w.stored.Some? {
      var t := w.stored.value;
      var r := Facing(w, t, e);
      ReconcileLeaves(env, t, r, e.getFails, e.write, e.now);
      ProcessLogged(env, TakenUp(t), r, e.now);
      hide ReconcileTopic, ProcessTopic, Sound;
      assert Step(env, w, e).pools[t.spec.pool].log == w.pools[t.spec.pool].log;
    } else {
      hide ReconcileTopic, Sound;
    }
  }

  lemma {:induction false} QuietRunKeeps(env: Setup, name: string, ws: seq<World>, es: seq<Event>, i: nat, n: nat)
    requires Trace(env, name, ws, es) && i <= n < |ws|
    requires forall k :: i <= k < n ==> Quiet(env, ws[k], es[k])
    ensures SameEverywhere(ws[i], ws[n], name)
  {
    hide Quiet, Healthy, ValidEvent, Step, SameEverywhere;
    if i < n {
      QuietRunKeeps(env, name, ws, es, i, n - 1);
      QuietStepKeeps(env, ws[n - 1], name, es[n - 1]);
      SameTransitive(ws[i], ws[n - 1], ws[n], name);
    } else {
      SameItself(ws[i], name);
    }
  }

  lemma SameItself(w: World, name: string)
    ensures SameEverywhere(w, w, name)
  {
  }

  /**
    Between two moments at which the spec is the same, however it was edited in between, Aiven keeps having
    what the spec asks for, or not having it, if no reconcile in between issued a mutating call.
  */
  lemma RevertedInLineIff(env: Setup, name: string, ws: seq<World>, es: seq<Event>, i: nat, n: nat)
    requires Trace(env, name, ws, es) && i <= n < |ws|
    requires forall k :: i <= k < n ==> Quiet(env, ws[k], es[k])
    requires SameSpec(env, ws[i], ws[n])
    ensures AtAiven(env, ws[n]) <==> AtAiven(env, ws[i])
  {
    QuietRunKeeps(env, name, ws, es, i, n);
    hide Quiet, ValidEvent, Step, SameOwn, Defaulted, AtAiven;
    AlikeMatch(env, ws[i], ws[n], name);
  }

  lemma StoredSpecStays(env: Setup, w: World, name: string, e: Event)
    requires Lawful(env.lib) && Healthy(w, name) && ValidEvent(w, name, e) && TopicRuns.Settled(env, w)
    requires e.Reconcile? || e.OthersWrite?
    ensures SameSpec(env, w, Step(env, w, e))
  {
    if e.Reconcile? {
      var t := w.stored.value;
      var r := Facing(w, t, e);
      SettledIsQuiet(env, TakenUp(t), r, e.now);
      DefaultsAreStable(env, TakenUp(t), r, e.now);
      ReconcileLeaves(env, t, r, e.getFails, e.write, e.now);
    }
    hide ReconcileTopic, ProcessTopic, Lawful, Healthy, TopicRuns.Settled;
  }

  /** Until the user touches a settled topic it stays settled and keeps its spec, and all reconciles are quiet. */
  lemma {:induction false} SettledRunKeeps(env: Setup, name: string, ws: seq<World>, es: seq<Event>, i: nat, n: nat)
    requires Lawful(env.lib) && Trace(env, name, ws, es) && i <= n < |ws| && TopicRuns.Settled(env, ws[i])
    requires forall k :: i <= k < n ==> es[k].Reconcile? || es[k].OthersWrite?
    ensures TopicRuns.Settled(env, ws[n])
    ensures SameSpec(env, ws[i], ws[n])
    ensures forall k :: i <= k < n ==> Quiet(env, ws[k], es[k])
  {
    hide Healthy, ValidEvent, Step, Lawful, SameSpec, Quiet, TopicRuns.Settled;
    if i < n {
      SettledRunKeeps(env, name, ws, es, i, n - 1);
      SettledStays(env, ws[n - 1], name, es[n - 1]);
      StoredSpecStays(env, ws[n - 1], name, es[n - 1]);
      SettledEventIsQuiet(env, ws[n - 1], name, es[n - 1]);
      SameSpecTransitive(env, ws[i], ws[n - 1], ws[n]);
    } else {
      SettledIsStored(env, ws[i]);
    }
  }

  lemma SameSpecTransitive(env: Setup, a: World, b: World, c: World)
    requires SameSpec(env, a, b) && SameSpec(env, b, c)
    ensures SameSpec(env, a, c)
  {
  }

  lemma SettledEventIsQuiet(env: Setup, w: World, name: string, e: Event)
    requires Lawful(env.lib) && Healthy(w, name) && ValidEvent(w, name, e) && TopicRuns.Settled(env, w)
    requires e.Reconcile? || e.OthersWrite?
    ensures Quiet(env, w, e)
  {
    SettledStays(env, w, name, e);
    hide ReconcileTopic, Lawful, Healthy;
  }

  /**
    Until the user touches the resource after a complete reconcile: the topic stays settled, and Aiven has
    what its spec asks for exactly if that reconcile was to lead to it.
  */
  lemma InLineUntilTouched(env: Setup, name: string, ws: seq<World>, es: seq<Event>, i: nat, n: nat)
    requires Lawful(env.lib) && Trace(env, name, ws, es) && i < n < |ws|
    requires forall k :: i < k < n ==> es[k].Reconcile? || es[k].OthersWrite?
    ensures Completes(env, ws[i], es[i]) ==>
              TopicRuns.Settled(env, ws[n]) && (InLine(env, ws[n]) <==> WillMatch(env, ws[i]))
  {
    assert Healthy(ws[i], name);
    hide Sound, ValidEvent, Step, Lawful, Defaulted, AtAiven, WillMatch, Completes, TopicRuns.Settled, Quiet;
    if Completes(env, ws[i], es[i]) {
      CompleteInLineIff(env, ws[i], name, es[i]);
      SettledRunKeeps(env, name, ws, es, i + 1, n);
      RevertedInLineIff(env, name, ws, es, i + 1, n);
    }
  }

  lemma SettledIsStored(env: Setup, w: World)
    requires TopicRuns.Settled(env, w)
    ensures SameSpec(env, w, w)
  {
  }

  /**
    And if the user does touch it: once the spec is back, and the stored hash says so, the same holds as long
    as the reconciles of the edited specs issued no mutating call.
  */
  lemma InLineAfterRevert(env: Setup, name: string, ws: seq<World>, es: seq<Event>, i: nat, n: nat)
    requires Lawful(env.lib) && Trace(env, name, ws, es) && i < n < |ws|
    requires forall k :: i < k < n ==> Quiet(env, ws[k], es[k])
    requires TopicRuns.Settled(env, ws[n]) && SameSpec(env, ws[i], ws[n])
    ensures Completes(env, ws[i], es[i]) ==> (InLine(env, ws[n]) <==> WillMatch(env, ws[i]))
  {
    assert Healthy(ws[i], name);
    hide Sound, ValidEvent, Step, Lawful, Defaulted, AtAiven, WillMatch, Completes, Quiet, ProcessTopic;
    if Completes(env, ws[i], es[i]) {
      CompleteInLineIff(env, ws[i], name, es[i]);
      CompleteStores(env, ws[i], name, es[i]);
      RevertedInLineIff(env, name, ws, es, i + 1, n);
    }
  }

  /** A reconcile that fails keeps the stored hash, so a topic whose spec is then changed back is settled again. */
  lemma RevertIsSettled(env: Setup, w: World, name: string, edited: StoredSpec, e: Event, removeData: bool)
    requires Lawful(env.lib) && Healthy(w, name) && TopicRuns.Settled(env, w) && edited.pool in w.pools && e.Reconcile?
    requires var one := Step(env, w, UserEdits(edited, removeData));
             ProcessTopic(env, TakenUp(one.stored.value), Facing(one, one.stored.value, e), e.now).result.error.Some?
    ensures var one := Step(env, w, UserEdits(edited, removeData));
            Healthy(Step(env, one, e), name) &&
            TopicRuns.Settled(env, Step(env, Step(env, one, e), UserEdits(w.stored.value.spec, removeData)))
  {
    var one := Step(env, w, UserEdits(edited, removeData));
    var t := one.stored.value;
    var r := Facing(one, t, e);
    ProcessHash(env, TakenUp(t), r, e.now);
    ReconcileLeaves(env, t, r, e.getFails, e.write, e.now);
    FailureNeverFinalizes(env, TakenUp(t), r, e.now);
    StepKeepsHealthy(env, one, name, e);
    hide ReconcileTopic, ProcessTopic, Lawful, Sound, SyncBoth;
  }

  lemma FailureNeverFinalizes(env: Setup, t: StoredTopic, r: Remote, now: string)
    ensures var res := ProcessTopic(env, t, r, now).result;
            res.error.Some? ==> !res.deleteFinalized && !res.skipped
  {
    hide SyncBoth, AclManager.SyncAcls, DeleteTopic;
  }

  /** And so is one whose spec is edited to another one with the same hash, without any reconcile. */
  lemma EqualHashIsSettled(env: Setup, w: World, name: string, edited: StoredSpec, removeData: bool)
    requires Healthy(w, name) && TopicRuns.Settled(env, w) && edited.pool in w.pools
    ensures var next := Step(env, w, UserEdits(edited, removeData));
            TopicRuns.Settled(env, next)
            <==> env.lib.hash(Defaulted(env.lib, edited)) == env.lib.hash(Defaulted(env.lib, w.stored.value.spec))
  {
  }
}
