/**
  A Topic over its whole life. The user creates, edits and deletes the resource, reconciles run with any
  failures at Aiven or in the cluster, and the reconciles of other topics change the service in between.
*/
module TopicRuns {
  import opened Basics
  import opened Errors
  import opened AclModel
  import opened AivenService
  import opened AclOutcomes
  import opened Resources
  import opened Synchronizer
  import opened TopicReconciler
  import opened TopicGuarantees
  import opened Scrubbing
  import AclManager
  import AclRuns
  import TopicManager

  /** The resource, and the service of every pool in use. */
  datatype World = World(stored: Option<StoredTopic>, pools: map<string, Remote>)

  datatype Event =
    | UserCreates(topic: StoredTopic)
    | UserEdits(spec: StoredSpec, removeData: bool)
    | UserDeletes
    | Reconcile(answers: seq<Option<Fault>>, outcomes: seq<Outcome>, getFails: bool, write: Write, now: string)
    | OthersWrite(pool: string, remote: Remote)

  /** The service a reconcile of `t` talks to, with the answers it is going to get. */
  function Facing(w: World, t: StoredTopic, e: Event): Remote
    requires t.spec.pool in w.pools && e.Reconcile?
  {
    w.pools[t.spec.pool].(answers := e.answers, outcomes := e.outcomes)
  }

  function Step(env: Setup, w: World, e: Event): World
    requires w.stored.Some? ==> w.stored.value.spec.pool in w.pools
  {
    match e
    case UserCreates(t) => if w.stored.Some? then w else w.(stored := Some(t))
    case UserEdits(spec, removeData) =>
      if w.stored.None? then w else w.(stored := Some(w.stored.value.(spec := spec, removeData := removeData)))
    case UserDeletes =>
      if w.stored.None? then w
      else if w.stored.value.finalizers == {} then w.(stored := None)
      else w.(stored := Some(w.stored.value.(deleting := true)))
    case Reconcile(_, _, getFails, write, now) =>
      if w.stored.None? then w
      else
        var t := w.stored.value;
        var res := ReconcileTopic(env, w.stored, Facing(w, t, e), getFails, write, now);
        World(res.stored, w.pools[t.spec.pool := res.remote])
    case OthersWrite(pool, remote) => w.(pools := w.pools[pool := remote])
  }

  /** The resource keeps its identity, its pool is known, and the services are sound. */
  ghost predicate Healthy(w: World, name: string) {
    && (w.stored.Some? ==> FullName(w.stored.value) == name && w.stored.value.spec.pool in w.pools)
    && forall p :: p in w.pools ==> Sound(w.pools[p])
  }

  /** Users leave status and finalizer alone, and other reconciles leave this topic alone. */
  ghost predicate ValidEvent(w: World, name: string, e: Event) {
    match e
    case UserCreates(t) =>
      FullName(t) == name && t.spec.pool in w.pools && !t.deleting && t.status.None? && FINALIZER !in t.finalizers
    case UserEdits(spec, _) => spec.pool in w.pools
    case UserDeletes => true
    case Reconcile(_, _, _, _, _) => true
    case OthersWrite(pool, remote) => pool in w.pools && Sound(remote) && SameOwn(w.pools[pool], remote, name)
  }

  ghost predicate SameOwn(before: Remote, after: Remote, name: string) {
    && OfTopic(after.acls, name) == OfTopic(before.acls, name)
    && (name in after.topics <==> name in before.topics)
    && (name in after.topics ==> after.topics[name] == before.topics[name])
  }

  /** The topic as a reconcile takes it up. */
  function TakenUp(t: StoredTopic): StoredTopic {
    t.(finalizers := t.finalizers + {FINALIZER})
  }

  /** What a reconcile can leave in the cluster: what was there, what Process returned, or nothing. */
  ghost predicate LeftBehind(t: StoredTopic, p: Processed, stored: Option<StoredTopic>) {
    || stored == Some(t)
    || (!p.result.skipped && stored.None? && t.deleting && p.result.deleteFinalized)
    || (!p.result.skipped && stored.Some? &&
        var written := TakenUp(t).(spec := t.spec.(config := p.config), status := Some(p.result.status));
        || stored == Some(written)
        || (p.result.deleteFinalized && stored == Some(written.(finalizers := written.finalizers - {FINALIZER}))))
  }

  lemma ReconcileLeaves(env: Setup, t: StoredTopic, r: Remote, getFails: bool, write: Write, now: string)
    ensures LeftBehind(t, ProcessTopic(env, TakenUp(t), r, now),
                       ReconcileTopic(env, Some(t), r, getFails, write, now).stored)
    ensures !getFails ==> ReconcileTopic(env, Some(t), r, getFails, write, now).remote
                          == ProcessTopic(env, TakenUp(t), r, now).remote
    ensures getFails ==> ReconcileTopic(env, Some(t), r, getFails, write, now).remote == r
  {
    hide ProcessTopic;
  }

  lemma ReconcileKeepsHealthy(env: Setup, w: World, name: string, e: Event)
    requires Healthy(w, name) && e.Reconcile? && w.stored.Some?
    ensures Healthy(Step(env, w, e), name)
  {
    var t := w.stored.value;
    var r := Facing(w, t, e);
    assert Sound(r);
    ReconcileLeaves(env, t, r, e.getFails, e.write, e.now);
    ProcessOwn(env, TakenUp(t), r, e.now);
    hide ReconcileTopic, ProcessTopic, Sound;
  }

  lemma StepKeepsHealthy(env: Setup, w: World, name: string, e: Event)
    requires Healthy(w, name) && ValidEvent(w, name, e)
    ensures Healthy(Step(env, w, e), name)
  {
    if e.Reconcile? && w.stored.Some? {
      ReconcileKeepsHealthy(env, w, name, e);
    } else {
      hide ReconcileTopic, Sound;
    }
  }

  /** A run: the worlds `ws`, each reached from the one before by the event in between. */
  ghost predicate Trace(env: Setup, name: string, ws: seq<World>, es: seq<Event>) {
    && |ws| == |es| + 1
    && (forall i :: 0 <= i < |ws| ==> Healthy(ws[i], name))
    && forall i :: 0 <= i < |es| ==> ValidEvent(ws[i], name, es[i]) && ws[i + 1] == Step(env, ws[i], es[i])
  }

  /** Every event goes on from every world: nothing but the first one's health is assumed of a run. */
  lemma TraceGoesOn(env: Setup, name: string, ws: seq<World>, es: seq<Event>, e: Event)
    requires Trace(env, name, ws, es) && ValidEvent(ws[|es|], name, e)
    ensures Trace(env, name, ws + [Step(env, ws[|es|], e)], es + [e])
  {
    hide Step, Healthy, ValidEvent;
    StepKeepsHealthy(env, ws[|es|], name, e);
  }

  // ----- Where a stored hash comes from -----

  function HashOf(w: World): string {
    if w.stored.None? then "" else StatusOf(w.stored.value).synchronizationHash
  }

  /** This reconcile synchronised ACLs and topic, both, to a defaulted spec with hash `h`. */
  ghost predicate SyncedAt(env: Setup, w: World, e: Event, h: string)
    requires w.stored.Some? ==> w.stored.value.spec.pool in w.pools
  {
    && e.Reconcile? && !e.getFails && w.stored.Some? && !w.stored.value.deleting
    && var t := w.stored.value;
    var spec, res := Defaulted(env.lib, t.spec), ProcessTopic(env, TakenUp(t), Facing(w, t, e), e.now).result;
    var resolved := ResolveServiceName(ResolveServiceName(Facing(w, t, e)).remote).remote;
    && res.error.None? && !res.skipped && env.lib.hash(spec) == Ok(h)
    && SyncBoth(resolved, FullName(t), spec.acl, spec.config, env.lib.userName, env.dryRun).answer.None?
  }

  lemma StepHash(env: Setup, w: World, name: string, e: Event)
    requires Healthy(w, name) && ValidEvent(w, name, e)
    ensures var h := HashOf(Step(env, w, e)); h == "" || h == HashOf(w) || SyncedAt(env, w, e, h)
  {
    if e.Reconcile? && w.stored.Some? {
      var t := w.stored.value;
      ReconcileLeaves(env, t, Facing(w, t, e), e.getFails, e.write, e.now);
      ProcessHash(env, TakenUp(t), Facing(w, t, e), e.now);
      hide ReconcileTopic, ProcessTopic, SyncBoth, Healthy, ValidEvent;
    } else {
      hide ReconcileTopic, SyncedAt, Healthy;
    }
  }

  /** The status hash Process returns is the old one or that of a spec it has just synchronised. */
  lemma ProcessHash(env: Setup, t: StoredTopic, r: Remote, now: string)
    ensures var res := ProcessTopic(env, t, r, now).result;
            var spec := Defaulted(env.lib, t.spec);
            var resolved := ResolveServiceName(ResolveServiceName(r).remote).remote;
            || res.skipped
            || res.status.synchronizationHash == StatusOf(t).synchronizationHash
            || (&& !t.deleting && res.error.None? && env.lib.hash(spec) == Ok(res.status.synchronizationHash)
                && SyncBoth(resolved, FullName(t), spec.acl, spec.config, env.lib.userName, env.dryRun).answer.None?)
  {
    hide SyncBoth, AclManager.SyncAcls, DeleteTopic;
  }

  /**
    In every reachable world the stored hash is empty, was there at the start, or is the hash of a
    defaulted spec that one earlier reconcile synchronised completely.
  */
  lemma {:induction false} HashProvenance(env: Setup, name: string, ws: seq<World>, es: seq<Event>, n: nat)
    requires Trace(env, name, ws, es) && n < |ws|
    ensures var h := HashOf(ws[n]);
            h == "" || h == HashOf(ws[0]) || exists k :: 0 <= k < n && SyncedAt(env, ws[k], es[k], h)
  {
    if n > 0 {
      HashProvenance(env, name, ws, es, n - 1);
      hide SyncedAt, Healthy, ValidEvent, Step, HashOf;
      StepHash(env, ws[n - 1], name, es[n - 1]);
    }
  }

  /**
    And that reconcile has left Aiven with the wanted grants and a topic that passes the comparison, and with all
    settings of the spec exactly if that was attainable before.
  */
  lemma SyncedMatches(env: Setup, w: World, name: string, e: Event, h: string)
    requires !env.dryRun && Healthy(w, name) && SyncedAt(env, w, e, h)
    ensures var t, pool := w.stored.value, w.stored.value.spec.pool;
            var after := Step(env, w, e).pools[pool];
            && Passes(env.lib, t, after)
            && (Matches(env.lib, t, after) <==> Attainable(env.lib, t, w.pools[pool]))
  {
    var t := w.stored.value;
    var r := Facing(w, t, e);
    SyncedResult(env, w, name, e, h);
    RolloutIsReal(env, TakenUp(t), r, e.now);
    hide *;
    TakenUpMatches(env.lib, t, r, w.pools[t.spec.pool], Step(env, w, e).pools[t.spec.pool]);
  }

  lemma SyncedResult(env: Setup, w: World, name: string, e: Event, h: string)
    requires Healthy(w, name) && SyncedAt(env, w, e, h)
    ensures var t := w.stored.value;
            var r := Facing(w, t, e);
            var p := ProcessTopic(env, TakenUp(t), r, e.now);
            && Sound(r) && r.topics == w.pools[t.spec.pool].topics
            && !TakenUp(t).deleting && p.result.error.None? && !p.result.skipped
            && Step(env, w, e).pools[t.spec.pool] == p.remote
  {
    var t := w.stored.value;
    ReconcileLeaves(env, t, Facing(w, t, e), e.getFails, e.write, e.now);
    assert Sound(Facing(w, t, e));
    hide ReconcileTopic, ProcessTopic, SyncBoth, Sound;
  }

  /** The finalizer has no part in what Aiven is to have, and the scripts have none in what it has. */
  lemma TakenUpMatches(lib: Library, t: StoredTopic, r: Remote, before: Remote, after: Remote)
    requires r.topics == before.topics
    ensures Passes(lib, TakenUp(t), after) <==> Passes(lib, t, after)
    ensures Matches(lib, TakenUp(t), after) <==> Matches(lib, t, after)
    ensures Attainable(lib, TakenUp(t), r) <==> Attainable(lib, t, before)
  {
    hide AclRuns.Exact, TopicManager.TopicConfigChanged, TopicManager.Satisfies, TopicManager.Attains;
  }

  // ----- What a status says -----

  /** A status that says "rollout complete" lists no errors and no failure. */
  predicate Honest(w: World) {
    w.stored.Some? && StatusOf(w.stored.value).synchronizationState == ROLLOUT_COMPLETE ==>
      StatusOf(w.stored.value).errors == [] && StatusOf(w.stored.value).latestAivenSyncFailure == ""
  }

  lemma ProcessIsHonest(env: Setup, t: StoredTopic, r: Remote, now: string)
    requires Lawful(env.lib)
    requires StatusOf(t).synchronizationState == ROLLOUT_COMPLETE ==>
               StatusOf(t).errors == [] && StatusOf(t).latestAivenSyncFailure == ""
    ensures var res := ProcessTopic(env, t, r, now).result;
            res.skipped ||
            (res.status.synchronizationState == ROLLOUT_COMPLETE ==>
               res.status.errors == [] && res.status.latestAivenSyncFailure == "")
  {
    assert env.lib.failedPrepare != ROLLOUT_COMPLETE && env.lib.failedSynchronization != ROLLOUT_COMPLETE;
    hide SyncBoth, AclManager.SyncAcls, DeleteTopic, Lawful, CheckForPossibleCredentials;
  }

  lemma StepIsHonest(env: Setup, w: World, name: string, e: Event)
    requires Lawful(env.lib) && Healthy(w, name) && ValidEvent(w, name, e) && Honest(w)
    ensures Honest(Step(env, w, e))
  {
    if e.Reconcile? && w.stored.Some? {
      var t := w.stored.value;
      ReconcileLeaves(env, t, Facing(w, t, e), e.getFails, e.write, e.now);
      ProcessIsHonest(env, TakenUp(t), Facing(w, t, e), e.now);
      hide ReconcileTopic, ProcessTopic, Lawful, Healthy, ValidEvent;
    } else {
      hide ReconcileTopic, Lawful, Healthy;
    }
  }

  lemma {:induction false} CompleteMeansNoErrors(env: Setup, name: string, ws: seq<World>, es: seq<Event>, n: nat)
    requires Lawful(env.lib) && Trace(env, name, ws, es) && n < |ws| && Honest(ws[0])
    ensures Honest(ws[n])
  {
    if n > 0 {
      CompleteMeansNoErrors(env, name, ws, es, n - 1);
      hide Honest, Lawful, Healthy, ValidEvent, Step;
      StepIsHonest(env, ws[n - 1], name, es[n - 1]);
    }
  }

  // ----- The finalizer guards what is at Aiven -----

  predicate Guarded(w: World) {
    w.stored.Some? && FINALIZER in w.stored.value.finalizers
  }

  /** This event is a reconcile of a resource being deleted, and it has left nothing of the topic at Aiven. */
  ghost predicate CleansUp(w: World, e: Event, next: World) {
    && e.Reconcile? && w.stored.Some? && w.stored.value.deleting
    && w.stored.value.spec.pool in next.pools
    && Clean(next.pools[w.stored.value.spec.pool], w.stored.value)
  }

  lemma ReconcileGuards(env: Setup, w: World, name: string, e: Event)
    requires !env.dryRun && Healthy(w, name) && e.Reconcile? && w.stored.Some?
    ensures Step(env, w, e).stored == w.stored || Guarded(Step(env, w, e)) || CleansUp(w, e, Step(env, w, e))
  {
    var t := w.stored.value;
    var r := Facing(w, t, e);
    assert Sound(r);
    ReconcileLeaves(env, t, r, e.getFails, e.write, e.now);
    if ProcessTopic(env, TakenUp(t), r, e.now).result.deleteFinalized {
      DeletionIsClean(env, TakenUp(t), r, e.now);
      assert !e.getFails ==> Clean(ReconcileTopic(env, Some(t), r, e.getFails, e.write, e.now).remote, t);
    }
    hide ReconcileTopic, ProcessTopic, Clean, Sound, Healthy;
  }

  /** Whatever a reconcile writes carries the finalizer, unless the topic has been cleaned up. */
  lemma StepGuards(env: Setup, w: World, name: string, e: Event)
    requires !env.dryRun && Healthy(w, name) && ValidEvent(w, name, e) && Guarded(w)
    ensures Guarded(Step(env, w, e)) || CleansUp(w, e, Step(env, w, e))
  {
    if e.Reconcile? {
      ReconcileGuards(env, w, name, e);
      hide Step, Healthy, CleansUp;
    } else {
      hide Healthy, CleansUp, ReconcileTopic;
    }
  }

  /**
    Once stored, the finalizer goes, and the resource with it, only in a reconcile that has left Aiven
    without entries for the topic and, if the data was to be removed, without the topic.
  */
  lemma {:induction false} FinalizerGuards(env: Setup, name: string, ws: seq<World>, es: seq<Event>, i: nat, n: nat)
    requires !env.dryRun && Trace(env, name, ws, es) && i <= n < |ws|
    requires Guarded(ws[i]) && !Guarded(ws[n])
    ensures exists k :: i <= k < n && Guarded(ws[k]) && CleansUp(ws[k], es[k], ws[k + 1])
  {
    hide Healthy, ValidEvent, Step, CleansUp, Guarded;
    if i < n {
      if Guarded(ws[n - 1]) {
        StepGuards(env, ws[n - 1], name, es[n - 1]);
      } else {
        FinalizerGuards(env, name, ws, es, i, n - 1);
      }
    }
  }

  /** A reconcile of a resource that is being deleted issues nothing but deletions. */
  lemma DeletingOnlyDeletes(env: Setup, w: World, name: string, e: Event)
    requires Healthy(w, name) && e.Reconcile? && w.stored.Some? && w.stored.value.deleting
    ensures var pool := w.stored.value.spec.pool; OnlyDeletes(w.pools[pool], Step(env, w, e).pools[pool])
  {
    var t := w.stored.value;
    ReconcileLeaves(env, t, Facing(w, t, e), e.getFails, e.write, e.now);
    DeletionOnlyDeletes(env, TakenUp(t), Facing(w, t, e), e.now);
    hide ReconcileTopic, ProcessTopic, Sound;
  }

  /** And it stays one that is being deleted for as long as it is there. */
  lemma DeletingStays(env: Setup, w: World, name: string, e: Event)
    requires Healthy(w, name) && ValidEvent(w, name, e) && w.stored.Some? && w.stored.value.deleting
    ensures var next := Step(env, w, e).stored; next.Some? ==> next.value.deleting
  {
    if e.Reconcile? {
      var t := w.stored.value;
      ReconcileLeaves(env, t, Facing(w, t, e), e.getFails, e.write, e.now);
    }
    hide ReconcileTopic, ProcessTopic, Healthy;
  }

  // ----- Quiescence -----

  /** The stored hash is that of the stored spec. */
  ghost predicate Settled(env: Setup, w: World) {
    && w.stored.Some? && !w.stored.value.deleting && w.stored.value.status.Some?
    && env.lib.hash(Defaulted(env.lib, w.stored.value.spec)) == Ok(HashOf(w))
  }

  /** Filling in defaults, by way of a shared config or not, does not change what is hashed. */
  lemma DefaultsAreStable(env: Setup, t: StoredTopic, r: Remote, now: string)
    requires Lawful(env.lib)
    ensures Defaulted(env.lib, t.spec.(config := ProcessTopic(env, t, r, now).config)) == Defaulted(env.lib, t.spec)
  {
    hide SyncBoth, AclManager.SyncAcls, DeleteTopic, Failed, Finalized, RolledOut, Reveals, LowerCases;
  }

  /** The reconcile runs to its end without an error, and its status gets stored. */
  ghost predicate Completes(env: Setup, w: World, e: Event)
    requires w.stored.Some? ==> w.stored.value.spec.pool in w.pools
  {
    && e.Reconcile? && !e.getFails && !e.write.Rejected? && w.stored.Some? && !w.stored.value.deleting
    && var res := ProcessTopic(env, TakenUp(w.stored.value), Facing(w, w.stored.value, e), e.now).result;
    && res.error.None? && !res.skipped
  }

  /** Such a reconcile settles the topic, even if the answer to its write is lost. */
  lemma SuccessSettles(env: Setup, w: World, name: string, e: Event)
    requires Lawful(env.lib) && Healthy(w, name)
    ensures Completes(env, w, e) ==> Settled(env, Step(env, w, e))
  {
    if Completes(env, w, e) {
      var t := TakenUp(w.stored.value);
      var r := Facing(w, w.stored.value, e);
      DefaultsAreStable(env, t, r, e.now);
      SuccessHash(env, t, r, e.now);
      hide ProcessTopic, Lawful, Healthy;
    }
  }

  lemma SuccessHash(env: Setup, t: StoredTopic, r: Remote, now: string)
    requires !t.deleting
    ensures var res := ProcessTopic(env, t, r, now).result;
            res.error.None? && !res.skipped ==>
              !res.deleteFinalized && env.lib.hash(Defaulted(env.lib, t.spec)) == Ok(res.status.synchronizationHash)
  {
    hide SyncBoth;
  }

  /** A settled topic is not written to Aiven, and is skipped unless its pool's name fails to resolve. */
  lemma SettledIsQuiet(env: Setup, t: StoredTopic, r: Remote, now: string)
    requires Lawful(env.lib) && !t.deleting && t.status.Some?
    requires env.lib.hash(Defaulted(env.lib, t.spec)) == Ok(t.status.value.synchronizationHash)
    ensures var p := ProcessTopic(env, t, r, now);
            && p.remote == ResolveServiceName(r).remote
            && (p.result.skipped <==> ResolveServiceName(r).answer.None?)
            && (p.result.skipped || (!p.result.deleteFinalized
                && p.result.status.synchronizationHash == t.status.value.synchronizationHash))
  {
    assert !env.lib.needsSync(t.status, t.status.value.synchronizationHash);
    hide SyncBoth, Lawful;
  }

  ghost predicate Untouched(before: Remote, after: Remote) {
    after.acls == before.acls && after.topics == before.topics && after.log == before.log
  }

  lemma SettledStays(env: Setup, w: World, name: string, e: Event)
    requires Lawful(env.lib) && Healthy(w, name) && ValidEvent(w, name, e) && Settled(env, w)
    requires e.Reconcile? || e.OthersWrite?
    ensures Settled(env, Step(env, w, e))
    ensures e.Reconcile? ==> var pool := w.stored.value.spec.pool;
              && Untouched(w.pools[pool], Step(env, w, e).pools[pool])
              && (!e.getFails && NextRead(Facing(w, w.stored.value, e)).answer.None? ==>
                    Step(env, w, e).stored == w.stored)
  {
    if e.Reconcile? {
      var t := w.stored.value;
      var r := Facing(w, t, e);
      SettledIsQuiet(env, TakenUp(t), r, e.now);
      DefaultsAreStable(env, TakenUp(t), r, e.now);
      ReconcileLeaves(env, t, r, e.getFails, e.write, e.now);
      hide ReconcileTopic, ProcessTopic, Lawful, Healthy, ValidEvent;
    } else {
      hide ReconcileTopic, Lawful, Healthy;
    }
  }

  lemma {:induction false} SettledRunIsQuiet(env: Setup, name: string, ws: seq<World>, es: seq<Event>, i: nat, n: nat)
    requires Lawful(env.lib) && Trace(env, name, ws, es) && i <= n < |ws| && Settled(env, ws[i])
    requires forall k :: i <= k < n ==> es[k].Reconcile? || es[k].OthersWrite?
    ensures Settled(env, ws[n])
    ensures n < |es| && es[n].Reconcile? ==>
              var pool := ws[n].stored.value.spec.pool; Untouched(ws[n].pools[pool], ws[n + 1].pools[pool])
  {
    if i < n {
      SettledRunIsQuiet(env, name, ws, es, i, n - 1);
      SettledStays(env, ws[n - 1], name, es[n - 1]);
    }
    if n < |es| && es[n].Reconcile? {
      SettledStays(env, ws[n], name, es[n]);
    }
    hide Healthy, ValidEvent, Step, Settled, Lawful, Untouched;
  }

  /**
    After one complete reconcile, no later one calls Aiven to change anything until the user touches the
    resource, whatever fails in the meantime.
  */
  lemma QuietUntilTouched(env: Setup, name: string, ws: seq<World>, es: seq<Event>, i: nat, n: nat)
    requires Lawful(env.lib) && Trace(env, name, ws, es) && i < n < |es| && es[n].Reconcile?
    requires forall k :: i < k < n ==> es[k].Reconcile? || es[k].OthersWrite?
    ensures Completes(env, ws[i], es[i]) ==>
              && ws[n].stored.Some?
              && var pool := ws[n].stored.value.spec.pool;
                 Untouched(ws[n].pools[pool], ws[n + 1].pools[pool])
  {
    assert Healthy(ws[i], name) && Healthy(ws[n], name);
    hide Sound, ValidEvent, Step, Settled, Lawful, Untouched, Completes;
    if Completes(env, ws[i], es[i]) {
      SuccessSettles(env, ws[i], name, es[i]);
      SettledRunIsQuiet(env, name, ws, es, i + 1, n);
      SettledIsThere(env, ws[n]);
    }
  }

  lemma SettledIsThere(env: Setup, w: World)
    requires Settled(env, w)
    ensures w.stored.Some?
  {
  }
}
