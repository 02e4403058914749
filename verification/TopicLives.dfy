/** Concrete lives of a topic: inputs for which what one might expect of the reconciler does not hold. */
module TopicLives {
  import opened Basics
  import opened Errors
  import opened AclModel
  import opened TopicModel
  import opened AivenService
  import opened AclOutcomes
  import opened Resources
  import opened Scrubbing
  import opened Synchronizer
  import opened TopicReconciler
  import opened TopicGuarantees
  import opened TopicRuns
  import opened TopicAlignment
  import opened TopicOrphans
  import AclManager
  import AclRuns
  import TopicManager
  import TopicOutcomes
  import TopicProgress

  /** A library that keeps the laws: the hash tells whether there are ACL entries. */
  const LIB := Library(
    (a: TopicACL) => Ok(a.application),
    (s: Settings) => s,
    (s: StoredSpec) => Ok(if s.acl == [] then "0" else "1"),
    (status: Option<TopicStatus>, hash: string) => status.None? || status.value.synchronizationHash != hash,
    (c: char) => if 'A' <= c <= 'Z' then c + ' ' else c,
    "",
    "")

  const ENV := Setup(LIB, ["p"], false)

  const SPEC: StoredSpec := TopicSpec("p", Some(NO_SETTINGS), [])
  const EDITED: StoredSpec := SPEC.(acl := [TopicACL("read", "x", "y")])

  const TOPIC: StoredTopic :=
    Topic("a", "b", false, {FINALIZER}, false, SPEC, Some(NO_STATUS.(synchronizationHash := "0")))

  const AT_AIVEN := KafkaTopic(1, 1, "", 0, 0, 1, 0, 0, 0, 0, false, 0, 0.5, 0, 0)

  const SERVICE := Remote([], map["a.b" := AT_AIVEN], ["a.b"], AT_AIVEN, [], [], [])

  const START := World(Some(TOPIC), map["p" := SERVICE])

  /** The ACL entry is created, then the topic cannot be looked up. */
  const FAILING := Reconcile([None, None, None, Some(PlainError(""))], [], false, Accepted, "")

  lemma LibraryIsLawful()
    ensures Lawful(LIB)
  {
  }

  lemma StartIsInLine()
    ensures Healthy(START, "a.b") && InLine(ENV, START)
  {
    assert FullName(TOPIC) == "a.b";
    assert Wanted("a.b", [], LIB.userName) == Ok([]);
    assert OfTopic([], "a.b") == [];
  }

  const ENTRY := Acl("", "read", "a.b", "x")

  lemma EntryIsWanted()
    ensures Wanted("a.b", EDITED.acl, LIB.userName) == Ok([ENTRY])
  {
    var spec := TopicACL("read", "x", "y");
    assert EDITED.acl == [spec] && [spec][..0] == [];
    assert LIB.userName(spec) == Ok("x") && Wanted("a.b", [], LIB.userName) == Ok([]);
    assert [] + [ENTRY] == [ENTRY];
  }

  lemma EntryIsMissing()
    ensures Missing([], [ENTRY]) == [ENTRY] && Surplus([], [ENTRY]) == []
  {
    assert !Has([], GrantOf(ENTRY)) && [ENTRY][..0] == [];
    assert Filter([ENTRY][..0], UnmatchedBy([])) == [];
  }

  lemma EntryIsAdded(r: Remote)
    requires r.outcomes == []
    ensures AclManager.AddAll(r, [ENTRY], false).answer.None?
  {
    assert AclManager.AddAll(CreateAcl(r, GrantOf(ENTRY)).remote, [], false).answer.None?;
  }

  lemma AclsGoThrough(r: Remote)
    requires r.acls == [] && r.outcomes == [] && NextRead(r).answer.None?
    ensures var res := AclManager.SyncAcls(r, "a.b", EDITED.acl, LIB.userName, false);
            && res.answer.None?
            && res.remote.answers == NextRead(r).remote.answers
            && OfTopic(res.remote.acls, "a.b") != []
  {
    EntryIsWanted();
    EntryIsMissing();
    EntryIsAdded(ListAcls(r).remote);
    assert OfTopic(r.acls, "a.b") == [];
    SyncAclsFrame(r, "a.b", EDITED.acl, LIB.userName, false);
    hide Wanted, Missing, Surplus, AclManager.AddAll, OfTopic, Filter;
    assert AclManager.SyncAcls(r, "a.b", EDITED.acl, LIB.userName, false).answer.None?;
    hide AclManager.SyncAcls;
    AclRuns.SyncIsExact(r, "a.b", EDITED.acl, LIB.userName);
    EntriesGrant([ENTRY]);
  }

  lemma HalfApplied(t: StoredTopic, r: Remote)
    requires t == TOPIC.(spec := EDITED) && r == SERVICE.(answers := FAILING.answers, outcomes := [])
    ensures var p := ProcessTopic(ENV, t, r, "");
            p.result.error.Some? && OfTopic(p.remote.acls, "a.b") != []
  {
    var resolved := ResolveServiceName(ResolveServiceName(r).remote).remote;
    assert resolved == SERVICE.(answers := [None, Some(PlainError(""))]);
    assert FullName(t) == "a.b";
    assert Defaulted(LIB, EDITED) == EDITED;
    AclsGoThrough(resolved);
    hide AclManager.SyncAcls, OfTopic, Failed;
    var acls := AclManager.SyncAcls(resolved, "a.b", EDITED.acl, LIB.userName, false).remote;
    assert TopicManager.SyncTopic(acls, "a.b", EDITED.config, false).answer == Some(PlainError(""));
  }

  lemma UnwantedEntry(t: StoredTopic, r: Remote)
    requires t.spec.acl == [] && OfTopic(r.acls, FullName(t)) != []
    ensures !Matches(LIB, t, r)
  {
    EntriesGrant(OfTopic(r.acls, FullName(t)));
    assert Wanted(FullName(t), [], LIB.userName) == Ok([]);
  }

  /**
    The spec is edited, the reconcile fails half-way, and the edit is taken back: the topic is settled, and
    so skipped from then on, while Aiven has an entry that nobody wants.
  */
  lemma SkippedNeedNotMatch()
    ensures Lawful(LIB) && Healthy(START, "a.b") && InLine(ENV, START)
    ensures var edited := Step(ENV, START, UserEdits(EDITED, false));
            Healthy(Step(ENV, edited, FAILING), "a.b") &&
            var end := Step(ENV, Step(ENV, edited, FAILING), UserEdits(SPEC, false));
            Healthy(end, "a.b") && TopicRuns.Settled(ENV, end) && !InLine(ENV, end)
  {
    LibraryIsLawful();
    StartIsInLine();
    RevertLeavesEntry();
    hide *;
  }

  lemma RevertLeavesEntry()
    requires Lawful(LIB) && Healthy(START, "a.b") && TopicRuns.Settled(ENV, START)
    ensures var edited := Step(ENV, START, UserEdits(EDITED, false));
            Healthy(Step(ENV, edited, FAILING), "a.b") &&
            var end := Step(ENV, Step(ENV, edited, FAILING), UserEdits(SPEC, false));
            Healthy(end, "a.b") && TopicRuns.Settled(ENV, end) && !InLine(ENV, end)
  {
    var edited := Step(ENV, START, UserEdits(EDITED, false));
    var t := edited.stored.value;
    var r := Facing(edited, t, FAILING);
    assert TakenUp(t) == TOPIC.(spec := EDITED);
    hide ProcessTopic, ReconcileTopic, Matches, OfTopic, Lawful, Sound;
    HalfApplied(TakenUp(t), r);
    RevertIsSettled(ENV, START, "a.b", EDITED, FAILING, false);
    var failed := Step(ENV, edited, FAILING);
    StepKeepsHealthy(ENV, failed, "a.b", UserEdits(SPEC, false));
    var end := Step(ENV, failed, UserEdits(SPEC, false));
    ReconcileLeaves(ENV, t, r, false, Accepted, "");
    UnwantedEntry(end.stored.value, end.pools["p"]);
  }

  const DRY := ENV.(dryRun := true)

  const UNLISTED := World(Some(TOPIC.(spec := EDITED)), map["p" := SERVICE])

  const RECONCILE := Reconcile([], [], false, Accepted, "")

  lemma DryCompletes()
    ensures Healthy(UNLISTED, "a.b") && Completes(DRY, UNLISTED, RECONCILE)
  {
    var t := TOPIC.(spec := EDITED);
    assert TakenUp(t) == t && FullName(t) == "a.b" && Defaulted(LIB, EDITED) == EDITED;
    assert Facing(UNLISTED, t, RECONCILE) == SERVICE;
    EntryIsWanted();
    DryAcls(SERVICE, "a.b", EDITED.acl, LIB.userName);
    hide AclManager.SyncAcls, Wanted, OfTopic;
    assert SyncBoth(SERVICE, "a.b", EDITED.acl, EDITED.config, LIB.userName, true).answer.None?;
  }

  /** A dry run completes and settles the topic while nothing its spec asks for is at Aiven. */
  lemma DryRunNeedNotMatch()
    ensures Lawful(LIB) && Healthy(UNLISTED, "a.b") && Completes(DRY, UNLISTED, RECONCILE)
    ensures var end := Step(DRY, UNLISTED, RECONCILE);
            Healthy(end, "a.b") && TopicRuns.Settled(DRY, end) && !InLine(DRY, end)
  {
    LibraryIsLawful();
    DryCompletes();
    EntryIsWanted();
    assert OfTopic([], "a.b") == [] && GrantOf(ENTRY) in Grants([ENTRY]);
    AclRuns.ExactIff([], "a.b", EDITED.acl, LIB.userName);
    assert !Matches(LIB, TOPIC.(spec := EDITED), SERVICE);
    hide ProcessTopic, ReconcileTopic, Lawful, Sound, Matches;
    CompleteInLineIff(DRY, UNLISTED, "a.b", RECONCILE);
  }

  const NEW: StoredTopic := Topic("a", "b", false, {}, false, EDITED, None)

  const EMPTY := World(None, map["p" := SERVICE])

  lemma EntryIsLeft(t: StoredTopic)
    requires t == NEW.(finalizers := {FINALIZER})
    ensures OfTopic(ProcessTopic(ENV, t, SERVICE, "").remote.acls, "a.b") != []
  {
    assert FullName(t) == "a.b" && Defaulted(LIB, EDITED) == EDITED;
    AclsGoThrough(SERVICE);
    SyncAclsOwn(SERVICE, "a.b", EDITED.acl, LIB.userName, false);
    var acls := AclManager.SyncAcls(SERVICE, "a.b", EDITED.acl, LIB.userName, false).remote;
    assert Sound(acls);
    hide AclManager.SyncAcls, OfTopic, OnlyOwn, Sound, Failed, RolledOut;
    TopicManager.SyncTopicFrame(acls, "a.b", EDITED.config, false);
    hide TopicManager.SyncTopic;
  }

  /** A write that is rejected changes the service only. */
  lemma RejectedStays(env: Setup, w: World, t: StoredTopic, e: Event)
    requires w.stored == Some(t) && t.spec.pool in w.pools
    requires e.Reconcile? && !e.getFails && e.write.Rejected?
    ensures Step(env, w, e)
            == World(w.stored, w.pools[t.spec.pool := ProcessTopic(env, TakenUp(t), Facing(w, t, e), e.now).remote])
  {
    hide ProcessTopic;
  }

  /**
    The first reconcile of a topic does all its work, but its write is rejected, and then the user deletes the
    resource. It goes at once, without a finalizer to hold it, and the entry stays at Aiven.
  */
  lemma RejectedWriteStrands()
    ensures Healthy(EMPTY, "a.b") && Blank(EMPTY, "a.b", false)
    ensures var made := Step(ENV, EMPTY, UserCreates(NEW));
            Healthy(made, "a.b") &&
            var done := Step(ENV, made, RECONCILE.(write := Rejected));
            Healthy(done, "a.b") &&
            var end := Step(ENV, done, UserDeletes);
            end.stored.None? && Stranded(end, "a.b", false)
  {
    EmptyIsHealthy();
    var made := Step(ENV, EMPTY, UserCreates(NEW));
    var e := RECONCILE.(write := Rejected);
    assert Facing(made, NEW, e) == SERVICE && TakenUp(NEW) == NEW.(finalizers := {FINALIZER});
    EntryIsLeft(TakenUp(NEW));
    CreationIsValid();
    hide ProcessTopic, OfTopic, Sound, ReconcileTopic, Healthy, Blank, ValidEvent;
    StepKeepsHealthy(ENV, EMPTY, "a.b", UserCreates(NEW));
    RejectedStays(ENV, made, NEW, e);
    ReconcileIsValid(made, e);
    StepKeepsHealthy(ENV, made, "a.b", e);
    var end := Step(ENV, Step(ENV, made, e), UserDeletes);
    assert StrandedIn(end, "p", "a.b", false);
  }

  lemma EmptyIsHealthy()
    ensures Healthy(EMPTY, "a.b") && Blank(EMPTY, "a.b", false)
  {
    assert OfTopic([], "a.b") == [];
  }

  lemma CreationIsValid()
    ensures ValidEvent(EMPTY, "a.b", UserCreates(NEW))
  {
    assert FullName(NEW) == "a.b";
  }

  lemma ReconcileIsValid(w: World, e: Event)
    requires e.Reconcile?
    ensures ValidEvent(w, "a.b", e)
  {
  }

  /** An answer that has a trigger word in it ends up in the stored status as it is. */
  lemma StatusShowsToken()
    ensures var res := ProcessTopic(ENV, TOPIC, SERVICE.(answers := [Some(PlainError("token"))]), "").result;
            StatusReveals(res.status, LIB.lower)
  {
    LibraryIsLawful();
    var e := PlainError("token");
    assert ToLower(e.text, LIB.lower) == "token" == TRIGGER_WORDS[1];
    assert OccursAt("token", "token", 0);
    FailuresShow(ENV, TOPIC, SERVICE.(answers := [Some(e)]), "");
    hide ProcessTopic, Lawful;
  }

  const COMPACT: StoredSpec := SPEC.(config := Some(NO_SETTINGS.(cleanupPolicy := Some("compact"))))

  const EDITED_POLICY := World(Some(TOPIC.(spec := COMPACT, status := None)), map["p" := SERVICE])

  lemma PolicyCompletes()
    ensures Healthy(EDITED_POLICY, "a.b") && Completes(ENV, EDITED_POLICY, RECONCILE)
    ensures ProcessTopic(ENV, TOPIC.(spec := COMPACT, status := None), SERVICE, "").remote == SERVICE
  {
    var t := TOPIC.(spec := COMPACT, status := None);
    assert TakenUp(t) == t && FullName(t) == "a.b" && Defaulted(LIB, COMPACT) == COMPACT;
    assert Facing(EDITED_POLICY, t, RECONCILE) == SERVICE;
    assert Wanted("a.b", [], LIB.userName) == Ok([]) && OfTopic([], "a.b") == [];
    AclRuns.SecondSyncIsQuiet(SERVICE, "a.b", [], LIB.userName, false);
    hide AclManager.SyncAcls, OfTopic;
    assert SyncBoth(SERVICE, "a.b", [], COMPACT.config, LIB.userName, false) == Reply(None, SERVICE);
  }

  /**
    A spec asks for another cleanup policy than the topic has, and for nothing else: the reconcile completes and
    settles the topic without a single call that would change it, and the topic keeps its policy.
  */
  lemma PolicyNeedNotMatch()
    ensures Lawful(LIB) && Healthy(EDITED_POLICY, "a.b") && Completes(ENV, EDITED_POLICY, RECONCILE)
    ensures var end := Step(ENV, EDITED_POLICY, RECONCILE);
            && Healthy(end, "a.b") && TopicRuns.Settled(ENV, end) && !InLine(ENV, end)
            && end.pools["p"] == SERVICE
  {
    LibraryIsLawful();
    PolicyCompletes();
    assert !Attainable(LIB, TOPIC.(spec := COMPACT, status := None), SERVICE);
    CompleteStores(ENV, EDITED_POLICY, "a.b", RECONCILE);
    hide ProcessTopic, ReconcileTopic, Lawful, Sound, Attainable, Matches, Completes;
    CompleteInLineIff(ENV, EDITED_POLICY, "a.b", RECONCILE);
  }

  const DELETING := World(
    Some(TOPIC.(deleting := true, removeData := true)),
    map["p" := SERVICE.(acls := [ENTRY.(id := "1")])])

  /** A dry run lets go of a topic that is being deleted, and its entry and its data stay at Aiven. */
  lemma DryRunStrands()
    ensures Healthy(DELETING, "a.b") && !Stranded(DELETING, "a.b", true)
    ensures var end := Step(DRY, DELETING, RECONCILE);
            end.stored.None? && Stranded(end, "a.b", true)
  {
    DeletingIsHealthy();
    DryLetsGo();
    hide ReconcileTopic, ProcessTopic, OfTopic, Sound, DryGoes, Nothing, Healthy;
    DryGoesIff(DRY, DELETING, "a.b", RECONCILE);
    AbandonedIsStranded(DRY, DELETING, "a.b", RECONCILE, true);
  }

  lemma DeletingIsHealthy()
    ensures Healthy(DELETING, "a.b") && !Stranded(DELETING, "a.b", true)
  {
    assert FullName(TOPIC) == "a.b";
    hide OfTopic, ReconcileTopic;
  }

  lemma DryLetsGo()
    ensures DryGoes(DRY, DELETING, RECONCILE) && !Nothing(DELETING.pools["p"], "a.b", true)
  {
    FilterAll([ENTRY.(id := "1")], OnTopic("a.b"));
  }

  const LOOK_UP_FAILS := Reconcile([Some(PlainError(""))], [], false, Accepted, "")

  /** The pool's name fails to resolve once: the edited topic stays as it is, and the reconcile is not repeated. */
  lemma LookUpFailureIsForgotten()
    ensures Healthy(UNLISTED, "a.b") && !TopicRuns.Settled(ENV, UNLISTED)
    ensures var r := Facing(UNLISTED, UNLISTED.stored.value, LOOK_UP_FAILS);
            && !ReconcileTopic(ENV, UNLISTED.stored, r, false, Accepted, "").requeue
            && !TopicRuns.Settled(ENV, Step(ENV, UNLISTED, LOOK_UP_FAILS))
  {
    LibraryIsLawful();
    DryCompletes();
    EntryIsWanted();
    assert FullName(TOPIC.(spec := EDITED)) == "a.b" && Defaulted(LIB, EDITED) == EDITED;
    assert TopicProgress.Works(ENV, UNLISTED) && TopicProgress.NeedsByHash(LIB);
    assert !TopicOutcomes.Resolves(Facing(UNLISTED, UNLISTED.stored.value, LOOK_UP_FAILS));
    hide ProcessTopic, ReconcileTopic, Step, Lawful, Sound;
    TopicProgress.ForgottenIff(ENV, UNLISTED, "a.b", LOOK_UP_FAILS);
  }
}
