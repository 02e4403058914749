/** Concrete lives of a stream: inputs for which what one might expect of the reconciler does not hold. */
module StreamLives {
  import opened Basics
  import opened Errors
  import opened AclModel
  import opened AivenService
  import opened StreamReconciler
  import opened StreamGuarantees
  import opened StreamRuns
  import opened StreamOrphans
  import AclInterleaving
  import AclManager
  import Resources
  import TopicModel
  import TopicReconciler

  const ENV := Setup(
    (a: TopicACL) => Ok(a.application),
    (s: StreamSpec) => Ok(""),
    (status: Option<StreamStatus>, hash: string) => status.None?,
    (c: char) => c,
    "",
    "",
    ["p"],
    false)

  const NAMES := Names("s_", "s_*", TopicACL("admin", "s", "a"), "")

  const STREAM := Stream("a", NAMES, false, {}, StreamSpec("p", ["u"]), None)

  const AT_AIVEN := TopicModel.KafkaTopic(1, 1, "", 0, 0, 1, 0, 0, 0, 0, false, 0, 0.5, 0, 0)

  const SERVICE := Remote([], map[], [], AT_AIVEN, [], [], [])

  const EMPTY := World(None, map["p" := SERVICE])

  /** The first of the two entries is granted, the second is not, and all that is written is accepted. */
  const FAILING := Reconcile([], [Success, Failure(PlainError(""), false)], false, TopicReconciler.Accepted, "")

  function EntryOf(user: string): Acl {
    Acl("", "admin", "s_*", user)
  }

  lemma EntriesAreWanted()
    ensures Wanted("s_*", AclsOf(STREAM, false), ENV.userName) == Ok([EntryOf("s"), EntryOf("u")])
  {
    var one, two := NAMES.acl, AdminOf(STREAM, "u");
    assert AclsOf(STREAM, false) == [one, two] && [one, two][..1] == [one] && [one][..0] == [];
    assert Wanted("s_*", [], ENV.userName) == Ok([]);
    assert [] + [EntryOf("s")] == [EntryOf("s")];
    assert Wanted("s_*", [one], ENV.userName) == Ok([EntryOf("s")]);
    assert [EntryOf("s")] + [EntryOf("u")] == [EntryOf("s"), EntryOf("u")];
  }

  lemma OneIsAdded(r: Remote)
    requires r.acls == [] && r.outcomes == FAILING.outcomes
    ensures var res := AclManager.AddAll(r, [EntryOf("s"), EntryOf("u")], false);
            res.answer.Some? && OfTopic(res.remote.acls, "s_*") != []
  {
    var adds := [EntryOf("s"), EntryOf("u")];
    var next := CreateAcl(r, GrantOf(adds[0])).remote;
    assert adds[1..] == [EntryOf("u")];
    AclInterleaving.CreateOnView([], FreshId([]), GrantOf(adds[0]), "s_*");
    assert CreateAcl(next, GrantOf(adds[1])).remote.acls == next.acls;
    hide OfTopic;
  }

  lemma OneIsGranted(r: Remote)
    requires r.acls == [] && r.answers == [] && r.outcomes == FAILING.outcomes
    ensures var res := AclManager.SyncAcls(r, "s_*", AclsOf(STREAM, false), ENV.userName, false);
            res.answer.Some? && OfTopic(res.remote.acls, "s_*") != []
  {
    EntriesAreWanted();
    assert OfTopic(r.acls, "s_*") == [];
    FilterAll([EntryOf("s"), EntryOf("u")], UnmatchedBy([]));
    OneIsAdded(ListAcls(r).remote);
    hide Wanted, AclManager.AddAll, OfTopic, Filter, AclsOf;
  }

  lemma FirstReconcileFails()
    ensures var p := ProcessStream(ENV, STREAM, SERVICE.(outcomes := FAILING.outcomes), "");
            p.result.error.Some? && !p.result.skipped && OfTopic(p.remote.acls, "s_*") != []
  {
    OneIsGranted(SERVICE.(outcomes := FAILING.outcomes));
    hide AclManager.SyncAcls, OfTopic, Failed, AclsOf;
  }

  /**
    The first reconcile of a stream fails half-way, its status is written, and then the user deletes the
    resource. It goes at once, without a finalizer to hold it, and the entry stays at Aiven.
  */
  lemma FailedReconcileStrands()
    ensures Healthy(EMPTY, NAMES) && Blank(EMPTY, NAMES)
    ensures var made := Step(ENV, EMPTY, UserCreates(STREAM));
            Healthy(made, NAMES) &&
            var failed := Step(ENV, made, FAILING);
            Healthy(failed, NAMES) &&
            var end := Step(ENV, failed, UserDeletes);
            end.stored.None? && Stranded(end, NAMES)
  {
    EmptyIsHealthy();
    FailingIsFaced();
    FirstReconcileFails();
    hide ProcessStream, OfTopic, Sound, HasPrefix, Healthy, Blank, ReconcileStream, ValidEvent;
    var made := Step(ENV, EMPTY, UserCreates(STREAM));
    CreationIsValid();
    StepKeepsHealthy(ENV, EMPTY, NAMES, UserCreates(STREAM));
    FailureIsWritten(ENV, made, STREAM, FAILING);
    FailingIsValid(made);
    StepKeepsHealthy(ENV, made, NAMES, FAILING);
    var failed := Step(ENV, made, FAILING);
    var end := Step(ENV, failed, UserDeletes);
    assert StrandedIn(end, "p", NAMES);
  }

  lemma EmptyIsHealthy()
    ensures Healthy(EMPTY, NAMES) && Blank(EMPTY, NAMES)
  {
    assert OfTopic([], "s_*") == [];
  }

  lemma CreationIsValid()
    requires Healthy(EMPTY, NAMES)
    ensures ValidEvent(EMPTY, NAMES, UserCreates(STREAM))
  {
  }

  lemma FailingIsValid(w: World)
    requires Healthy(w, NAMES)
    ensures ValidEvent(w, NAMES, FAILING)
  {
  }

  lemma FailingIsFaced()
    ensures Facing(Step(ENV, EMPTY, UserCreates(STREAM)), STREAM, FAILING) == SERVICE.(outcomes := FAILING.outcomes)
  {
    hide ReconcileStream;
  }

  /** A reconcile that fails stores its status, and leaves the finalizers as they are. */
  lemma FailureIsWritten(env: Setup, w: World, s: Stream, e: Event)
    requires w.stored == Some(s) && s.spec.pool in w.pools && !s.deleting
    requires e.Reconcile? && !e.getFails && e.write.Accepted?
    requires ProcessStream(env, s, Facing(w, s, e), e.now).result.error.Some?
    ensures var p := ProcessStream(env, s, Facing(w, s, e), e.now);
            !p.result.skipped ==>
              Step(env, w, e) == World(Some(s.(status := Some(p.result.status))), w.pools[s.spec.pool := p.remote])
  {
    hide ProcessStream;
  }

  /** A dry run that does delete: a stream with an entry in a pool that is in use. */
  lemma DryRunDeletes()
    ensures var env, s := ENV.(dryRun := true), STREAM.(deleting := true, finalizers := {Resources.FINALIZER});
            var r := SERVICE.(acls := [EntryOf("s").(id := "1")]);
            Sound(r) && ProcessStream(env, s, r, "").remote.log != r.log
  {
    var env, s := ENV.(dryRun := true), STREAM.(deleting := true, finalizers := {Resources.FINALIZER});
    var entry := EntryOf("s").(id := "1");
    var r := SERVICE.(acls := [entry]);
    FilterAll([entry], OnTopic("s_*"));
    DryRunCallsIff(env, s, r, "");
    hide ProcessStream;
  }
}
