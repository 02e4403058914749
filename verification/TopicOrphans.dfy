/**
  What is left at Aiven of a topic whose resource is gone, or has moved to another pool. The finalizer guards
  a resource only once it is stored, and only for the pool that the spec names at the end.
*/
module TopicOrphans {
  import opened AclModel
  import opened AivenService
  import opened AclOutcomes
  import opened Resources
  import opened TopicReconciler
  import opened TopicGuarantees
  import opened TopicRuns
  import opened TopicAlignment
  import AclManager

  /** No entry for the topic, and, if `data` counts, no topic either. */
  ghost predicate Nothing(r: Remote, name: string, data: bool) {
    OfTopic(r.acls, name) == [] && (data ==> name !in r.topics)
  }

  /** The pool has something of the topic, but the resource is gone or in another pool. */
  ghost predicate StrandedIn(w: World, p: string, name: string, data: bool)
    requires p in w.pools
  {
    !Nothing(w.pools[p], name, data) && (w.stored.Some? ==> w.stored.value.spec.pool != p)
  }

  ghost predicate Stranded(w: World, name: string, data: bool) {
    exists p :: p in w.pools && StrandedIn(w, p, name, data)
  }

  /** The user deletes a resource without finalizers, or moves it to another pool. */
  predicate Leaves(w: World, e: Event) {
    && w.stored.Some?
    && ((e.UserDeletes? && w.stored.value.finalizers == {})
        || (e.UserEdits? && e.spec.pool != w.stored.value.spec.pool))
  }

  /** A reconcile that is to delete the topic, and whose write will let the resource go if the deletion is final. */
  predicate LetsGo(w: World, e: Event) {
    && e.Reconcile? && w.stored.Some? && w.stored.value.deleting
    && !e.getFails && !e.write.Rejected? && w.stored.value.finalizers <= {FINALIZER}
  }

  /** A dry run lets the resource go: all it needs is that the pool's name resolves and the entries can be listed. */
  predicate DryGoes(env: Setup, w: World, e: Event)
    requires w.stored.Some? ==> w.stored.value.spec.pool in w.pools
  {
    && env.dryRun && LetsGo(w, e)
    && var resolved := ResolveServiceName(Facing(w, w.stored.value, e));
    && resolved.answer.None? && ListAcls(resolved.remote).answer.Ok?
  }

  /** The resource goes with a reconcile that was not asked to remove the data. */
  predicate KeepsData(env: Setup, w: World, e: Event)
    requires w.stored.Some? ==> w.stored.value.spec.pool in w.pools
  {
    !env.dryRun && e.Reconcile? && w.stored.Some? && !w.stored.value.removeData && Step(env, w, e).stored.None?
  }

  /**
    The user leaves a pool that has something of the topic, a dry run lets the resource go while the pool has, or
    the topic itself is kept on purpose.
  */
  ghost predicate Abandons(env: Setup, w: World, e: Event, name: string, data: bool)
    requires Healthy(w, name)
  {
    && w.stored.Some?
    && var r := w.pools[w.stored.value.spec.pool];
    || ((Leaves(w, e) || DryGoes(env, w, e)) && !Nothing(r, name, data))
    || (data && KeepsData(env, w, e) && name in r.topics)
  }

  /** Nothing of the topic is in any pool. */
  ghost predicate Blank(w: World, name: string, data: bool) {
    forall p :: p in w.pools ==> Nothing(w.pools[p], name, data)
  }

  // ----- One event -----

  lemma NothingSame(a: Remote, b: Remote, name: string, data: bool)
    requires SameOwn(a, b, name)
    ensures Nothing(a, name, data) <==> Nothing(b, name, data)
  {
  }

  /** A deletion that need not remove the data leaves the topics alone. */
  lemma KeptData(env: Setup, t: StoredTopic, r: Remote, now: string)
    requires t.deleting && !t.removeData
    ensures ProcessTopic(env, t, r, now).remote.topics == r.topics
  {
    SyncAclsFrame(ResolveServiceName(r).remote, FullName(t), [], env.lib.userName, env.dryRun);
    hide AclManager.SyncAcls, Failed, Finalized, FullName;
  }

  /** A dry deletion is final exactly if the pool's name resolves and the entries can be listed. */
  lemma DryDeletionFinalIff(env: Setup, t: StoredTopic, r: Remote, now: string)
    requires env.dryRun && Sound(r) && t.deleting
    ensures var res, resolved := ProcessTopic(env, t, r, now).result, ResolveServiceName(r);
            && !res.skipped && (res.error.None? <==> res.deleteFinalized)
            && (res.deleteFinalized <==> resolved.answer.None? && ListAcls(resolved.remote).answer.Ok?)
  {
    DryAcls(ResolveServiceName(r).remote, FullName(t), [], env.lib.userName);
    hide AclManager.SyncAcls, Failed, Finalized, FullName;
  }

  /** Exactly when a dry run makes a resource go. */
  lemma DryGoesIff(env: Setup, w: World, name: string, e: Event)
    requires env.dryRun && Healthy(w, name) && e.Reconcile? && w.stored.Some?
    ensures Step(env, w, e).stored.None? <==> DryGoes(env, w, e)
  {
    var t := w.stored.value;
    var r := Facing(w, t, e);
    assert Sound(r);
    ReconcileLeaves(env, t, r, e.getFails, e.write, e.now);
    if t.deleting {
      DryDeletionFinalIff(env, TakenUp(t), r, e.now);
    }
    hide ProcessTopic, Sound;
  }

  /** Only a reconcile that was told to delete lets the resource go, and only by the finalizer it has removed. */
  lemma GoneWithReconcile(env: Setup, w: World, name: string, e: Event, data: bool)
    requires Healthy(w, name) && e.Reconcile? && w.stored.Some? && Step(env, w, e).stored.None?
    ensures Nothing(Step(env, w, e).pools[w.stored.value.spec.pool], name, data) <==> !Abandons(env, w, e, name, data)
  {
    var t := w.stored.value;
    var r := Facing(w, t, e);
    assert Sound(r);
    ReconcileLeaves(env, t, r, e.getFails, e.write, e.now);
    if env.dryRun {
      DryGoesIff(env, w, name, e);
      DryProcessReads(env, TakenUp(t), r, e.now);
    } else {
      DeletionIsClean(env, TakenUp(t), r, e.now);
      if !t.removeData {
        KeptData(env, TakenUp(t), r, e.now);
      }
    }
    hide ReconcileTopic, ProcessTopic, OfTopic, Sound, DryGoes;
  }

  /** Only the pool that the spec names can change, and the spec keeps naming it. */
  lemma ReconcileElsewhere(env: Setup, w: World, e: Event)
    requires e.Reconcile? && w.stored.Some? && w.stored.value.spec.pool in w.pools
    ensures var next, pool := Step(env, w, e), w.stored.value.spec.pool;
            && next.pools.Keys == w.pools.Keys
            && (forall p :: p in w.pools && p != pool ==> next.pools[p] == w.pools[p])
            && (next.stored.Some? ==> next.stored.value.spec.pool == pool)
  {
    var t := w.stored.value;
    ReconcileLeaves(env, t, Facing(w, t, e), e.getFails, e.write, e.now);
    hide ReconcileTopic, ProcessTopic;
  }

  lemma ReconcileStrandsNothing(env: Setup, w: World, name: string, e: Event, data: bool)
    requires Healthy(w, name) && e.Reconcile? && w.stored.Some? && !Stranded(w, name, data)
    requires !Abandons(env, w, e, name, data)
    ensures !Stranded(Step(env, w, e), name, data)
  {
    var next := Step(env, w, e);
    ReconcileElsewhere(env, w, e);
    if next.stored.None? {
      GoneWithReconcile(env, w, name, e, data);
    }
    hide Step, Healthy, Nothing;
    forall p | p in next.pools
      ensures !StrandedIn(next, p, name, data)
    {
      assert !StrandedIn(w, p, name, data);
    }
  }

  lemma StepStrandsNothing(env: Setup, w: World, name: string, e: Event, data: bool)
    requires Healthy(w, name) && ValidEvent(w, name, e) && !Stranded(w, name, data)
    requires !Abandons(env, w, e, name, data)
    ensures !Stranded(Step(env, w, e), name, data)
  {
    if e.Reconcile? && w.stored.Some? {
      ReconcileStrandsNothing(env, w, name, e, data);
    } else {
      var next := Step(env, w, e);
      if e.OthersWrite? {
        NothingSame(w.pools[e.pool], e.remote, name, data);
      }
      hide Nothing, Sound, ReconcileTopic, SameOwn, KeepsData, DryGoes;
      forall p | p in next.pools
        ensures !StrandedIn(next, p, name, data)
      {
        assert !StrandedIn(w, p, name, data);
      }
    }
  }

  lemma AbandonedIsStranded(env: Setup, w: World, name: string, e: Event, data: bool)
    requires Healthy(w, name) && ValidEvent(w, name, e) && Abandons(env, w, e, name, data)
    ensures Stranded(Step(env, w, e), name, data)
  {
    var next, pool := Step(env, w, e), w.stored.value.spec.pool;
    if e.Reconcile? {
      if env.dryRun {
        DryGoesIff(env, w, name, e);
      }
      GoneWithReconcile(env, w, name, e, data);
    }
    hide ReconcileTopic, Nothing, Sound, DryGoes;
    assert StrandedIn(next, pool, name, data);
  }

  // ----- Whole runs -----

  lemma {:induction false} UnlessAbandoned(env: Setup, name: string, ws: seq<World>, es: seq<Event>, n: nat, data: bool)
    requires Trace(env, name, ws, es) && n < |ws| && !Stranded(ws[0], name, data)
    requires forall k :: 0 <= k < n ==> !Abandons(env, ws[k], es[k], name, data)
    ensures !Stranded(ws[n], name, data)
  {
    hide Healthy, ValidEvent, Step, Stranded, Abandons;
    if n > 0 {
      UnlessAbandoned(env, name, ws, es, n - 1, data);
      StepStrandsNothing(env, ws[n - 1], name, es[n - 1], data);
    }
  }

  /**
    Something gets stranded in a run exactly if, while a pool has something of the topic, the user leaves it, by
    deleting a resource without finalizers or by moving it, or a dry run lets the resource go, or the topic is
    kept on purpose.
  */
  lemma StrandedIffAbandoned(env: Setup, name: string, ws: seq<World>, es: seq<Event>, n: nat, data: bool)
    requires Trace(env, name, ws, es) && n < |ws| && !Stranded(ws[0], name, data)
    ensures (exists m :: 0 <= m <= n && Stranded(ws[m], name, data))
            <==> exists k :: 0 <= k < n && Abandons(env, ws[k], es[k], name, data)
  {
    hide Healthy, ValidEvent, Step, Abandons, Stranded;
    if k :| 0 <= k < n && Abandons(env, ws[k], es[k], name, data) {
      AbandonedIsStranded(env, ws[k], name, es[k], data);
      assert Stranded(ws[k + 1], name, data);
    } else {
      forall m | 0 <= m <= n
        ensures !Stranded(ws[m], name, data)
      {
        UnlessAbandoned(env, name, ws, es, m, data);
      }
    }
  }

  // ----- A condition on what the user does -----

  /** A reconcile has taken up the resource that is there at `k`. */
  predicate Touched(ws: seq<World>, es: seq<Event>, k: nat)
    requires k < |ws| && |ws| == |es| + 1
  {
    && k > 0 && ws[k].stored.Some?
    && ((es[k - 1].Reconcile? && !es[k - 1].getFails) || Touched(ws, es, k - 1))
  }

  /** The user deletes a resource without finalizers, or moves one, only before any reconcile has taken it up. */
  predicate Careful(ws: seq<World>, es: seq<Event>, n: nat)
    requires n < |ws| && |ws| == |es| + 1
  {
    forall k :: 0 <= k < n && Leaves(ws[k], es[k]) ==> !Touched(ws, es, k)
  }

  /** Whenever a reconcile makes the resource go, it was asked to remove the data. */
  ghost predicate DataRemoved(env: Setup, name: string, ws: seq<World>, es: seq<Event>, n: nat)
    requires Trace(env, name, ws, es) && n < |ws|
  {
    forall k :: 0 <= k < n ==> !KeepsData(env, ws[k], es[k])
  }

  lemma UserKeepsBlank(env: Setup, w: World, name: string, e: Event, data: bool)
    requires Healthy(w, name) && ValidEvent(w, name, e) && Blank(w, name, data)
    requires e.Reconcile? ==> e.getFails || w.stored.None?
    ensures Blank(Step(env, w, e), name, data)
  {
    if e.OthersWrite? {
      NothingSame(w.pools[e.pool], e.remote, name, data);
    }
    hide ProcessTopic, Sound, OfTopic;
  }

  lemma NotStrandedIsBlank(w: World, name: string, data: bool)
    requires !Stranded(w, name, data) && w.stored.None?
    ensures Blank(w, name, data)
  {
    hide Nothing;
    forall p | p in w.pools
      ensures Nothing(w.pools[p], name, data)
    {
      assert !StrandedIn(w, p, name, data);
    }
  }

  lemma BlankIsNotStranded(w: World, name: string, data: bool)
    requires Blank(w, name, data)
    ensures !Stranded(w, name, data)
  {
  }

  lemma DryReconcileKeepsBlank(env: Setup, w: World, name: string, e: Event, data: bool)
    requires env.dryRun && Healthy(w, name) && e.Reconcile? && w.stored.Some? && Blank(w, name, data)
    ensures Blank(Step(env, w, e), name, data)
  {
    var t := w.stored.value;
    var r := Facing(w, t, e);
    assert Sound(r);
    ReconcileLeaves(env, t, r, e.getFails, e.write, e.now);
    DryProcessReads(env, TakenUp(t), r, e.now);
    hide ReconcileTopic, ProcessTopic, Sound, OfTopic;
  }

  lemma NotAbandoned(env: Setup, w: World, name: string, e: Event, data: bool, touched: bool)
    requires Healthy(w, name) && (Leaves(w, e) ==> !touched) && (!touched || env.dryRun ==> Blank(w, name, data))
    requires data ==> !KeepsData(env, w, e)
    ensures !Abandons(env, w, e, name, data)
  {
    hide Nothing, Step, Leaves, KeepsData;
  }

  /** Dry runs, and all runs before a reconcile has taken up the resource, leave nothing where there was nothing. */
  lemma BlankStays(env: Setup, w: World, name: string, e: Event, data: bool)
    requires Healthy(w, name) && ValidEvent(w, name, e) && Blank(w, name, data)
    requires e.Reconcile? ==> e.getFails || w.stored.None? || env.dryRun
    ensures Blank(Step(env, w, e), name, data)
  {
    if e.Reconcile? && w.stored.Some? && env.dryRun {
      DryReconcileKeepsBlank(env, w, name, e, data);
    } else {
      UserKeepsBlank(env, w, name, e, data);
    }
  }

  lemma {:induction false} CarefulStrandsNothing(env: Setup, name: string, ws: seq<World>, es: seq<Event>, n: nat,
                                                 data: bool)
    requires Trace(env, name, ws, es) && n < |ws| && Blank(ws[0], name, data) && Careful(ws, es, n)
    requires data ==> DataRemoved(env, name, ws, es, n)
    ensures !Stranded(ws[n], name, data)
    ensures !Touched(ws, es, n) || env.dryRun ==> Blank(ws[n], name, data)
  {
    hide Healthy, ValidEvent, Step, Stranded, Blank, Leaves, KeepsData;
    if n == 0 {
      BlankIsNotStranded(ws[0], name, data);
    } else {
      var w, e := ws[n - 1], es[n - 1];
      CarefulStrandsNothing(env, name, ws, es, n - 1, data);
      NotAbandoned(env, w, name, e, data, Touched(ws, es, n - 1));
      StepStrandsNothing(env, w, name, e, data);
      if !Touched(ws, es, n) || env.dryRun {
        if ws[n].stored.None? {
          NotStrandedIsBlank(ws[n], name, data);
        } else {
          BlankStays(env, w, name, e, data);
        }
      }
    }
  }

  /**
    A resource that is gone has left nothing in any pool, provided that none was deleted without finalizers or
    moved to another pool after a reconcile had taken it up, and that the data was to be removed if it counts.
  */
  lemma GoneLeavesNothing(env: Setup, name: string, ws: seq<World>, es: seq<Event>, n: nat, data: bool)
    requires Trace(env, name, ws, es) && n < |ws| && Blank(ws[0], name, data) && Careful(ws, es, n)
    requires data ==> DataRemoved(env, name, ws, es, n)
    ensures ws[n].stored.None? ==> Blank(ws[n], name, data)
    ensures ws[n].stored.Some? ==>
              forall p :: p in ws[n].pools && p != ws[n].stored.value.spec.pool ==> Nothing(ws[n].pools[p], name, data)
  {
    CarefulStrandsNothing(env, name, ws, es, n, data);
    hide Healthy, ValidEvent, Step, Nothing;
    if ws[n].stored.None? {
      NotStrandedIsBlank(ws[n], name, data);
    } else {
      forall p | p in ws[n].pools && p != ws[n].stored.value.spec.pool
        ensures Nothing(ws[n].pools[p], name, data)
      {
        assert !StrandedIn(ws[n], p, name, data);
      }
    }
  }
}
