/** What is left at Aiven of a stream whose resource is gone, or has moved to another pool. */
module StreamOrphans {
  import opened AclModel
  import opened AivenService
  import opened StreamReconciler
  import opened StreamGuarantees
  import opened StreamRuns
  import AclManager
  import TopicGuarantees
  import TopicModel

  /** The pool has something of the stream, but the resource is gone or in another pool. */
  ghost predicate StrandedIn(w: World, p: string, n: Names)
    requires p in w.pools
  {
    !Gone(w.pools[p], n) && (w.stored.Some? ==> w.stored.value.spec.pool != p)
  }

  ghost predicate Stranded(w: World, n: Names) {
    exists p :: p in w.pools && StrandedIn(w, p, n)
  }

  /** The user deletes a resource without finalizers, or moves it to another pool. */
  predicate Leaves(w: World, e: Event) {
    && w.stored.Some?
    && ((e.UserDeletes? && w.stored.value.finalizers == {})
        || (e.UserEdits? && e.spec.pool != w.stored.value.spec.pool))
  }

  /** A dry run makes the resource go. */
  predicate DryGoes(env: Setup, w: World, e: Event)
    requires w.stored.Some? ==> w.stored.value.spec.pool in w.pools
  {
    env.dryRun && e.Reconcile? && w.stored.Some? && Step(env, w, e).stored.None?
  }

  ghost predicate HasTopics(r: Remote, n: Names) {
    exists k :: k in r.topics && HasPrefix(k, n.topicPrefix)
  }

  /** The user leaves a pool that has something of the stream, or a dry run lets go of one that has its topics. */
  ghost predicate Abandons(env: Setup, w: World, e: Event, n: Names)
    requires Healthy(w, n)
  {
    && w.stored.Some?
    && var r := w.pools[w.stored.value.spec.pool];
    || (Leaves(w, e) && !Gone(r, n))
    || (DryGoes(env, w, e) && HasTopics(r, n))
  }

  // ----- One event -----

  lemma GoneSame(a: Remote, b: Remote, n: Names)
    requires SameOwn(a, b, n)
    ensures Gone(a, n) <==> Gone(b, n)
  {
  }

  /** A dry deletion that is final has deleted the entries, and kept the topics. */
  lemma DryDeletionClears(env: Setup, s: Stream, status: StreamStatus, r: Remote, now: string)
    requires env.dryRun && Sound(r)
    ensures var p := HandleDelete(env, s, status, r, now);
            p.result.deleteFinalized ==>
              OfTopic(p.remote.acls, s.names.topicWildcard) == [] && p.remote.topics == r.topics
  {
    var resolved := ResolveServiceName(r).remote;
    var n := s.names;
    DryDeletionIff(env, s, status, r, now);
    var acls := AclManager.SyncAcls(resolved, n.topicWildcard, [], env.userName, false);
    if acls.answer.None? {
      TopicGuarantees.EmptySyncClears(resolved, n.topicWildcard, env.userName);
    }
    DryTopicDeletions(ListTopics(acls.remote).remote, acls.remote.names, n.topicPrefix);
    hide AclManager.SyncAcls, SoundIds, OfTopic, Failed, Finalized;
  }

  /** What a reconcile that makes the resource go has left. */
  lemma GoneWithReconcile(env: Setup, w: World, n: Names, e: Event)
    requires Healthy(w, n) && e.Reconcile? && w.stored.Some? && Step(env, w, e).stored.None?
    ensures var before, after := w.pools[w.stored.value.spec.pool], Step(env, w, e).pools[w.stored.value.spec.pool];
            Gone(after, n) <==> !(env.dryRun && HasTopics(before, n))
  {
    var s := w.stored.value;
    var r := Facing(w, s, e);
    assert Sound(r);
    var status := TopicModel.Or(s.status, NO_STATUS).(fullyQualifiedTopicPrefix := s.names.topicPrefix);
    ReconcileLeaves(env, s, r, e.getFails, e.write, e.now);
    GetFailsStays(env, s, r, e.write, e.now);
    if env.dryRun {
      DryDeletionClears(env, s, status, r, e.now);
    } else {
      DeletionIsExact(env, s, status, r, e.now);
    }
    hide ReconcileStream, HandleDelete, OfTopic, Sound, HasPrefix;
  }

  /** Only the pool that the spec names can change, and the spec keeps naming it. */
  lemma ReconcileElsewhere(env: Setup, w: World, n: Names, e: Event)
    requires Healthy(w, n) && e.Reconcile? && w.stored.Some?
    ensures var next, pool := Step(env, w, e), w.stored.value.spec.pool;
            && next.pools.Keys == w.pools.Keys
            && (forall p :: p in w.pools && p != pool ==> next.pools[p] == w.pools[p])
            && (next.stored.Some? ==> next.stored.value.spec.pool == pool)
  {
    var s := w.stored.value;
    ReconcileLeaves(env, s, Facing(w, s, e), e.getFails, e.write, e.now);
    hide ReconcileStream, ProcessStream, Sound;
  }

  lemma ReconcileStrandsNothing(env: Setup, w: World, n: Names, e: Event)
    requires Healthy(w, n) && e.Reconcile? && w.stored.Some? && !Stranded(w, n) && !Abandons(env, w, e, n)
    ensures !Stranded(Step(env, w, e), n)
  {
    var next := Step(env, w, e);
    ReconcileElsewhere(env, w, n, e);
    if next.stored.None? {
      GoneWithReconcile(env, w, n, e);
    }
    hide Step, Healthy, Gone, HasTopics;
    forall p | p in next.pools
      ensures !StrandedIn(next, p, n)
    {
      assert !StrandedIn(w, p, n);
    }
  }

  lemma StepStrandsNothing(env: Setup, w: World, n: Names, e: Event)
    requires Healthy(w, n) && ValidEvent(w, n, e) && !Stranded(w, n) && !Abandons(env, w, e, n)
    ensures !Stranded(Step(env, w, e), n)
  {
    if e.Reconcile? && w.stored.Some? {
      ReconcileStrandsNothing(env, w, n, e);
    } else {
      var next := Step(env, w, e);
      if e.OthersWrite? {
        GoneSame(w.pools[e.pool], e.remote, n);
      }
      hide Gone, Sound, ReconcileStream, SameOwn, SameEntries, HasTopics;
      forall p | p in next.pools
        ensures !StrandedIn(next, p, n)
      {
        assert !StrandedIn(w, p, n);
      }
    }
  }

  lemma AbandonedIsStranded(env: Setup, w: World, n: Names, e: Event)
    requires Healthy(w, n) && ValidEvent(w, n, e) && Abandons(env, w, e, n)
    ensures Stranded(Step(env, w, e), n)
  {
    var next, pool := Step(env, w, e), w.stored.value.spec.pool;
    if e.Reconcile? {
      GoneWithReconcile(env, w, n, e);
    }
    hide ReconcileStream, Gone, Sound, HasTopics;
    assert StrandedIn(next, pool, n);
  }

  // ----- Whole runs -----

  lemma {:induction false} UnlessAbandoned(env: Setup, n: Names, ws: seq<World>, es: seq<Event>, i: nat)
    requires Trace(env, n, ws, es) && i < |ws| && !Stranded(ws[0], n)
    requires forall k :: 0 <= k < i ==> !Abandons(env, ws[k], es[k], n)
    ensures !Stranded(ws[i], n)
  {
    hide Healthy, ValidEvent, Step, Stranded, Abandons;
    if i > 0 {
      UnlessAbandoned(env, n, ws, es, i - 1);
      StepStrandsNothing(env, ws[i - 1], n, es[i - 1]);
    }
  }

  /**
    Something gets stranded in a run exactly if the user leaves a pool that has something of the stream, by
    deleting a resource without finalizers or by moving it, or if a dry run lets go of a stream with topics.
  */
  lemma StrandedIffAbandoned(env: Setup, n: Names, ws: seq<World>, es: seq<Event>, i: nat)
    requires Trace(env, n, ws, es) && i < |ws| && !Stranded(ws[0], n)
    ensures (exists m :: 0 <= m <= i && Stranded(ws[m], n))
            <==> exists k :: 0 <= k < i && Abandons(env, ws[k], es[k], n)
  {
    hide Healthy, ValidEvent, Step, Abandons, Stranded;
    if k :| 0 <= k < i && Abandons(env, ws[k], es[k], n) {
      AbandonedIsStranded(env, ws[k], n, es[k]);
      assert Stranded(ws[k + 1], n);
    } else {
      forall m | 0 <= m <= i
        ensures !Stranded(ws[m], n)
      {
        UnlessAbandoned(env, n, ws, es, m);
      }
    }
  }

  // ----- A condition on what the user does -----

  /** A reconcile has taken up the resource that is there at `k`, or its application has been at work. */
  predicate Touched(ws: seq<World>, es: seq<Event>, k: nat)
    requires k < |ws| && |ws| == |es| + 1
  {
    && k > 0 && ws[k].stored.Some?
    && ((es[k - 1].Reconcile? && !es[k - 1].getFails) || es[k - 1].AppWrites? || Touched(ws, es, k - 1))
  }

  /** The user deletes a resource without finalizers, or moves one, only before anything has happened to it. */
  predicate Careful(ws: seq<World>, es: seq<Event>, i: nat)
    requires i < |ws| && |ws| == |es| + 1
  {
    forall k :: 0 <= k < i && Leaves(ws[k], es[k]) ==> !Touched(ws, es, k)
  }

  ghost predicate Blank(w: World, n: Names) {
    forall p :: p in w.pools ==> Gone(w.pools[p], n)
  }

  lemma NotStrandedIsBlank(w: World, n: Names)
    requires !Stranded(w, n) && w.stored.None?
    ensures Blank(w, n)
  {
    hide Gone;
    forall p | p in w.pools
      ensures Gone(w.pools[p], n)
    {
      assert !StrandedIn(w, p, n);
    }
  }

  lemma UserKeepsBlank(env: Setup, w: World, n: Names, e: Event)
    requires Healthy(w, n) && ValidEvent(w, n, e) && Blank(w, n) && !e.AppWrites?
    requires e.Reconcile? ==> e.getFails || w.stored.None?
    ensures Blank(Step(env, w, e), n)
  {
    if e.OthersWrite? {
      GoneSame(w.pools[e.pool], e.remote, n);
    }
    hide ProcessStream, Sound, OfTopic, HasPrefix;
  }

  lemma NotAbandoned(env: Setup, w: World, n: Names, e: Event, touched: bool)
    requires Healthy(w, n) && !env.dryRun && (Leaves(w, e) ==> !touched) && (!touched ==> Blank(w, n))
    ensures !Abandons(env, w, e, n)
  {
    hide Gone, Step, Leaves;
  }

  lemma {:induction false} CarefulStrandsNothing(env: Setup, n: Names, ws: seq<World>, es: seq<Event>, i: nat)
    requires Trace(env, n, ws, es) && i < |ws| && !env.dryRun && Blank(ws[0], n) && Careful(ws, es, i)
    ensures !Stranded(ws[i], n) && (!Touched(ws, es, i) ==> Blank(ws[i], n))
  {
    if i == 0 {
      hide Gone, Healthy;
    } else {
      hide Healthy, ValidEvent, Step, Blank, Leaves, Stranded;
      var w, e := ws[i - 1], es[i - 1];
      CarefulStrandsNothing(env, n, ws, es, i - 1);
      NotAbandoned(env, w, n, e, Touched(ws, es, i - 1));
      StepStrandsNothing(env, w, n, e);
      if !Touched(ws, es, i) {
        if ws[i].stored.None? {
          NotStrandedIsBlank(ws[i], n);
        } else {
          UserKeepsBlank(env, w, n, e);
        }
      }
    }
  }

  /**
    A stream's resource that is gone has left nothing in any pool, provided that none was deleted without
    finalizers or moved to another pool after a reconcile had taken it up.
  */
  lemma GoneLeavesNothing(env: Setup, n: Names, ws: seq<World>, es: seq<Event>, i: nat)
    requires Trace(env, n, ws, es) && i < |ws| && !env.dryRun && Blank(ws[0], n) && Careful(ws, es, i)
    ensures ws[i].stored.None? ==> Blank(ws[i], n)
  {
    CarefulStrandsNothing(env, n, ws, es, i);
    hide Healthy, ValidEvent, Step, Gone;
    if ws[i].stored.None? {
      NotStrandedIsBlank(ws[i], n);
    }
  }
}
