/** Where the stored hash of a Stream comes from, and that a stream whose hash is up to date is left in peace. */
module StreamSettling {
  import opened Basics
  import opened AivenService
  import opened StreamReconciler
  import opened StreamRuns
  import opened StreamOutcomes

  function HashOf(w: World): string {
    if w.stored.None? then "" else StatusOf(w.stored.value).synchronizationHash
  }

  /** An equal stored hash means that no synchronisation is needed. */
  ghost predicate Lawful(env: Setup) {
    forall status: StreamStatus :: !env.needsSync(Some(status), status.synchronizationHash)
  }

  /** The stored hash is that of the stored spec. */
  ghost predicate Settled(env: Setup, w: World) {
    && w.stored.Some? && !w.stored.value.deleting && w.stored.value.status.Some?
    && env.hash(w.stored.value.spec) == Ok(HashOf(w))
  }

  /** After a call that ended well the stream with its new status is skipped, without any call at all. */
  lemma NextIsSkipped(env: Setup, s: Stream, r: Remote, now: string, later: Remote, after: string)
    requires Lawful(env) && !s.deleting
    ensures var res := ProcessStream(env, s, r, now).result;
            res.error.None? && !res.skipped ==>
              var again := ProcessStream(env, s.(status := Some(res.status)), later, after);
              again.result.skipped && again.remote == later
  {
    var res := ProcessStream(env, s, r, now).result;
    SuccessMeans(env, s, r, now);
    if res.error.None? && !res.skipped {
      assert !env.needsSync(Some(res.status), res.status.synchronizationHash);
      SkippedIff(env, s.(status := Some(res.status)), later, after);
    }
    hide ProcessStream;
  }

  // ----- Whole runs -----

  /** A reconcile that completes and is stored settles the stream. */
  lemma CompleteSettles(env: Setup, w: World, n: Names, e: Event)
    requires Healthy(w, n) && Completes(env, w, e) && !e.write.Rejected?
    ensures Settled(env, Step(env, w, e))
  {
    var s := w.stored.value;
    var r := Facing(w, s, e);
    ReconcileMeans(env, w.stored, r, e.getFails, e.write, e.now);
    SuccessMeans(env, s, r, e.now);
    hide ReconcileStream, ProcessStream, Healthy;
  }

  /** The event is not one of the user's. */
  predicate Untouching(e: Event) {
    e.Reconcile? || e.OthersWrite? || e.AppWrites?
  }

  /** A settled stream stays so, and a reconcile of it changes neither the resource nor anything at Aiven. */
  lemma SettledStays(env: Setup, w: World, n: Names, e: Event)
    requires Lawful(env) && Healthy(w, n) && ValidEvent(w, n, e) && Settled(env, w) && Untouching(e)
    ensures var next := Step(env, w, e);
            && Settled(env, next) && next.stored == w.stored
            && (e.Reconcile? ==>
                  forall p :: p in w.pools ==>
                    && p in next.pools && next.pools[p].acls == w.pools[p].acls
                    && next.pools[p].topics == w.pools[p].topics && next.pools[p].log == w.pools[p].log)
  {
    if e.Reconcile? {
      var s := w.stored.value;
      var r := Facing(w, s, e);
      assert !env.needsSync(Some(s.status.value), s.status.value.synchronizationHash);
      SkippedIff(env, s, r, e.now);
      ReconcileMeans(env, w.stored, r, e.getFails, e.write, e.now);
      hide ReconcileStream, ProcessStream, Healthy;
    } else {
      hide ReconcileStream, Healthy;
    }
  }

  lemma {:induction false} SettledRun(env: Setup, n: Names, ws: seq<World>, es: seq<Event>, i: nat, k: nat)
    requires Lawful(env) && Trace(env, n, ws, es) && i <= k < |ws| && Settled(env, ws[i])
    requires forall m :: i <= m < k ==> Untouching(es[m])
    ensures Settled(env, ws[k]) && ws[k].stored == ws[i].stored
  {
    hide Healthy, ValidEvent, Step, Settled, Lawful, Untouching;
    if i < k {
      SettledRun(env, n, ws, es, i, k - 1);
      SettledStays(env, ws[k - 1], n, es[k - 1]);
    }
  }

  /**
    After one reconcile that completes and is stored, no later one changes the resource or anything at Aiven until
    the user touches the resource, whatever fails in the meantime.
  */
  lemma QuietUntilTouched(env: Setup, n: Names, ws: seq<World>, es: seq<Event>, i: nat, k: nat)
    requires Lawful(env) && Trace(env, n, ws, es) && i < k < |es|
    requires forall m :: i < m <= k ==> Untouching(es[m])
    requires Completes(env, ws[i], es[i]) && !es[i].write.Rejected?
    ensures Settled(env, ws[k]) && ws[k + 1].stored == ws[k].stored == ws[i + 1].stored
    ensures es[k].Reconcile? ==>
              forall p :: p in ws[k].pools ==>
                && p in ws[k + 1].pools && ws[k + 1].pools[p].acls == ws[k].pools[p].acls
                && ws[k + 1].pools[p].topics == ws[k].pools[p].topics && ws[k + 1].pools[p].log == ws[k].pools[p].log
  {
    hide Healthy, ValidEvent, Step, Settled, Lawful, Completes, Untouching;
    CompleteSettles(env, ws[i], n, es[i]);
    SettledRun(env, n, ws, es, i + 1, k);
    SettledStays(env, ws[k], n, es[k]);
  }

  /** This reconcile completed for a spec with hash `h`. */
  ghost predicate SyncedAt(env: Setup, w: World, e: Event, h: string)
    requires w.stored.Some? ==> w.stored.value.spec.pool in w.pools
  {
    Completes(env, w, e) && env.hash(w.stored.value.spec) == Ok(h)
  }

  lemma StepHash(env: Setup, w: World, n: Names, e: Event)
    requires Healthy(w, n) && ValidEvent(w, n, e)
    ensures var h := HashOf(Step(env, w, e)); h == "" || h == HashOf(w) || SyncedAt(env, w, e, h)
  {
    if e.Reconcile? && w.stored.Some? {
      var s := w.stored.value;
      var r := Facing(w, s, e);
      ReconcileMeans(env, w.stored, r, e.getFails, e.write, e.now);
      SuccessMeans(env, s, r, e.now);
      FailureMeans(env, s, r, e.now);
      hide ReconcileStream, ProcessStream, Healthy, Cause;
    } else {
      hide ReconcileStream, SyncedAt, Healthy;
    }
  }

  /**
    In every reachable world the stored hash is empty, was there at the start, or is that of a spec for which one
    earlier reconcile ran to its end.
  */
  lemma {:induction false} HashProvenance(env: Setup, n: Names, ws: seq<World>, es: seq<Event>, k: nat)
    requires Trace(env, n, ws, es) && k < |ws|
    ensures var h := HashOf(ws[k]);
            h == "" || h == HashOf(ws[0]) || exists m :: 0 <= m < k && SyncedAt(env, ws[m], es[m], h)
  {
    if k > 0 {
      HashProvenance(env, n, ws, es, k - 1);
      StepHash(env, ws[k - 1], n, es[k - 1]);
      hide SyncedAt, Healthy, ValidEvent, Step, HashOf;
    }
  }
}
