/** What one call of TopicReconciler.Process guarantees, through all the layers below it. */
module TopicGuarantees {
  import opened Basics
  import opened Errors
  import opened AclModel
  import opened TopicModel
  import opened AivenService
  import opened AclOutcomes
  import opened Scrubbing
  import opened Resources
  import opened Synchronizer
  import opened TopicReconciler
  import AclManager
  import AclRuns
  import TopicManager

  // ----- Which calls are made -----

  /** A topic that is being deleted causes no creation and no update. */
  lemma DeletionOnlyDeletes(env: Setup, t: StoredTopic, r: Remote, now: string)
    requires t.deleting
    ensures OnlyDeletes(r, ProcessTopic(env, t, r, now).remote)
  {
    var resolved := ResolveServiceName(r).remote;
    SyncAclsFrame(resolved, FullName(t), [], env.lib.userName, env.dryRun);
    hide AclManager.SyncAcls;
    var acls := AclManager.SyncAcls(resolved, FullName(t), [], env.lib.userName, env.dryRun).remote;
    assert DeleteTopic(acls, FullName(t)).remote.log == acls.log + [DeleteTopicCall(FullName(t))];
  }

  // ----- Soundness is kept, and other topics are left alone -----

  /** Nothing but this topic's entries and settings differs. */
  ghost predicate OnlyOwn(before: Remote, after: Remote, name: string) {
    && Sound(after)
    && (forall other :: other != name ==> OfTopic(after.acls, other) == OfTopic(before.acls, other))
    && after.topics - {name} == before.topics - {name}
  }

  lemma OwnTransitive(a: Remote, b: Remote, c: Remote, name: string)
    requires OnlyOwn(a, b, name) && OnlyOwn(b, c, name)
    ensures OnlyOwn(a, c, name)
  {
    hide Sound, OfTopic;
  }

  lemma ReadIsOwn(r: Remote, name: string)
    requires Sound(r)
    ensures OnlyOwn(r, NextRead(r).remote, name)
  {
    hide SoundIds, DistinctBy, OfTopic;
  }

  lemma DeleteTopicFrame(r: Remote, name: string)
    requires Sound(r)
    ensures OnlyOwn(r, DeleteTopic(r, name).remote, name)
  {
    FilterMembers(r.names, NotName(name));
    FilterDistinct(r.names, NotName(name), NameOf);
    hide SoundIds, OfTopic, DistinctBy, Filter;
    var after := DeleteTopic(r, name).remote;
    assert after.topics - {name} == r.topics - {name};
    assert after.names == r.names || after.names == Filter(r.names, NotName(name));
  }

  lemma SyncAclsOwn(r: Remote, name: string, specs: seq<TopicACL>, userName: TopicACL -> Result<string, Error>,
                    dryRun: bool)
    requires Sound(r)
    ensures OnlyOwn(r, AclManager.SyncAcls(r, name, specs, userName, dryRun).remote, name)
    ensures AclManager.SyncAcls(r, name, specs, userName, dryRun).remote.topics == r.topics
  {
    SyncAclsFrame(r, name, specs, userName, dryRun);
    if dryRun {
      DryAcls(r, name, specs, userName);
    } else {
      AclRuns.SyncIsSafe(r, name, specs, userName);
    }
    hide AclManager.SyncAcls, SoundIds, OfTopic, DistinctBy;
  }

  lemma SyncTopicOwn(r: Remote, name: string, config: Option<Settings>, dryRun: bool)
    requires Sound(r)
    ensures OnlyOwn(r, TopicManager.SyncTopic(r, name, config, dryRun).remote, name)
  {
    TopicManager.SyncTopicFrame(r, name, config, dryRun);
    hide TopicManager.SyncTopic, SoundIds, OfTopic, DistinctBy;
  }

  lemma SyncBothOwn(r: Remote, name: string, acl: seq<TopicACL>, config: Option<Settings>,
                    userName: TopicACL -> Result<string, Error>, dryRun: bool)
    requires Sound(r)
    ensures OnlyOwn(r, SyncBoth(r, name, acl, config, userName, dryRun).remote, name)
  {
    SyncAclsOwn(r, name, acl, userName, dryRun);
    var acls := AclManager.SyncAcls(r, name, acl, userName, dryRun).remote;
    assert Sound(acls);
    hide AclManager.SyncAcls, TopicManager.SyncTopic, OnlyOwn, Sound;
    SyncTopicOwn(acls, name, config, dryRun);
    OwnTransitive(r, acls, TopicManager.SyncTopic(acls, name, config, dryRun).remote, name);
  }

  lemma DeletionOwn(env: Setup, t: StoredTopic, status: TopicStatus, r: Remote, now: string)
    requires Sound(r)
    ensures OnlyOwn(r, ProcessDeletion(env, t, status, r, now).remote, FullName(t))
  {
    var name := FullName(t);
    SyncAclsOwn(r, name, [], env.lib.userName, env.dryRun);
    var acls := AclManager.SyncAcls(r, name, [], env.lib.userName, env.dryRun).remote;
    assert Sound(acls);
    hide AclManager.SyncAcls, DeleteTopic, OnlyOwn, Sound, Failed, Finalized, FullName;
    DeleteTopicFrame(acls, name);
    OwnTransitive(r, acls, DeleteTopic(acls, name).remote, name);
  }

  lemma SyncOwn(env: Setup, t: StoredTopic, status: TopicStatus, r: Remote, now: string)
    requires Sound(r)
    ensures OnlyOwn(r, ProcessSync(env, t, status, r, now).remote, FullName(t))
  {
    var name, spec := FullName(t), Defaulted(env.lib, t.spec);
    var resolved := ResolveServiceName(r).remote;
    var synced := SyncBoth(resolved, name, spec.acl, spec.config, env.lib.userName, env.dryRun).remote;
    UntouchedIsOwn(r, name);
    ReadIsOwn(r, name);
    assert Sound(resolved);
    hide SyncBoth, OnlyOwn, Sound, Failed, RolledOut, FullName;
    SyncBothOwn(resolved, name, spec.acl, spec.config, env.lib.userName, env.dryRun);
    OwnTransitive(r, resolved, synced, name);
  }

  lemma UntouchedIsOwn(r: Remote, name: string)
    requires Sound(r)
    ensures OnlyOwn(r, r, name)
  {
  }

  /** One call of Process leaves all other topics, and the entries of all other topics, as they were. */
  lemma ProcessOwn(env: Setup, t: StoredTopic, r: Remote, now: string)
    requires Sound(r)
    ensures OnlyOwn(r, ProcessTopic(env, t, r, now).remote, FullName(t))
  {
    var name := FullName(t);
    var status := StatusOf(t).(fullyQualifiedName := name);
    var resolved := ResolveServiceName(r).remote;
    ReadIsOwn(r, name);
    assert Sound(resolved);
    hide ProcessDeletion, ProcessSync, OnlyOwn, Sound, Failed;
    DeletionOwn(env, t, status, resolved, now);
    SyncOwn(env, t, status, resolved, now);
    OwnTransitive(r, resolved, ProcessDeletion(env, t, status, resolved, now).remote, name);
    OwnTransitive(r, resolved, ProcessSync(env, t, status, resolved, now).remote, name);
  }

  // ----- Dry runs -----

  /** The two services look the same to everything that only reads. */
  predicate SameReads(a: Remote, b: Remote) {
    a.acls == b.acls && a.topics == b.topics && a.answers == b.answers
  }

  lemma SameDryAnswer(d: Remote, r: Remote, name: string, acl: seq<TopicACL>,
                      userName: TopicACL -> Result<string, Error>)
    requires SoundIds(r.acls) && SameReads(d, r)
    ensures AclManager.SyncAcls(d, name, acl, userName, true).answer
            == AclManager.SyncAcls(r, name, acl, userName, true).answer
  {
    DryAcls(d, name, acl, userName);
    DryAcls(r, name, acl, userName);
  }

  /** `d` as a dry run leaves it, with some reading calls answered. */
  predicate OnlyRead(d: Remote, after: Remote) {
    after == d.(answers := after.answers)
  }

  /** What both runs have in common so far. */
  ghost predicate InStep(d: Remote, r: Remote) {
    Sound(r) && SameReads(d, r) && AllSucceed(r)
  }

  lemma ReadsInStep(d: Remote, r: Remote)
    requires InStep(d, r)
    ensures NextRead(d).answer == NextRead(r).answer
    ensures InStep(NextRead(d).remote, NextRead(r).remote)
  {
    hide SoundIds, DistinctBy;
  }

  /** The ACL step of both runs: the same answer, and the same topics to look at afterwards. */
  lemma AclsInStep(d: Remote, r: Remote, name: string, acl: seq<TopicACL>, userName: TopicACL -> Result<string, Error>)
    requires InStep(d, r)
    ensures var dry := AclManager.SyncAcls(d, name, acl, userName, true);
            var live := AclManager.SyncAcls(r, name, acl, userName, false);
            && dry.answer == live.answer && OnlyRead(d, dry.remote)
            && AllSucceed(live.remote)
            && dry.remote.topics == live.remote.topics && dry.remote.answers == live.remote.answers
  {
    DryAcls(d, name, acl, userName);
    SameDryAnswer(d, r, name, acl, userName);
    RealAcls(r, name, acl, userName);
    SyncAclsFrame(r, name, acl, userName, false);
    hide AclManager.SyncAcls, SoundIds, DistinctBy;
  }

  lemma TopicInStep(d: Remote, r: Remote, name: string, config: Option<Settings>)
    requires d.topics == r.topics && d.answers == r.answers && AllSucceed(r)
    ensures var dry := TopicManager.SyncTopic(d, name, config, true);
            && dry.answer == TopicManager.SyncTopic(r, name, config, false).answer && OnlyRead(d, dry.remote)
  {
    hide TopicManager.CreateRequest, TopicManager.UpdateRequest, TopicManager.TopicConfigChanged;
  }

  lemma BothInStep(d: Remote, r: Remote, name: string, acl: seq<TopicACL>, config: Option<Settings>,
                   userName: TopicACL -> Result<string, Error>)
    requires InStep(d, r)
    ensures var dry := SyncBoth(d, name, acl, config, userName, true);
            && dry.answer == SyncBoth(r, name, acl, config, userName, false).answer && OnlyRead(d, dry.remote)
  {
    AclsInStep(d, r, name, acl, userName);
    hide AclManager.SyncAcls, TopicManager.SyncTopic, AllSucceed, InStep;
    var dry := AclManager.SyncAcls(d, name, acl, userName, true);
    var live := AclManager.SyncAcls(r, name, acl, userName, false);
    TopicInStep(dry.remote, live.remote, name, config);
  }

  /** Same result and same config, and the dry run has only read. */
  predicate SameOutcome(d: Remote, dry: Processed, live: Processed) {
    dry.result == live.result && dry.config == live.config && OnlyRead(d, dry.remote)
  }

  lemma DeletionInStep(env: Setup, t: StoredTopic, status: TopicStatus, d: Remote, r: Remote, now: string)
    requires env.dryRun && InStep(d, r)
    ensures SameOutcome(d, ProcessDeletion(env, t, status, d, now),
                        ProcessDeletion(env.(dryRun := false), t, status, r, now))
  {
    AclsInStep(d, r, FullName(t), [], env.lib.userName);
    hide AclManager.SyncAcls, Failed, Finalized, InStep, FullName;
  }

  lemma SyncInStep(env: Setup, t: StoredTopic, status: TopicStatus, d: Remote, r: Remote, now: string)
    requires env.dryRun && InStep(d, r)
    ensures SameOutcome(d, ProcessSync(env, t, status, d, now),
                        ProcessSync(env.(dryRun := false), t, status, r, now))
  {
    var spec := Defaulted(env.lib, t.spec);
    ReadsInStep(d, r);
    hide SyncBoth, Failed, RolledOut, InStep, FullName;
    BothInStep(NextRead(d).remote, NextRead(r).remote, FullName(t), spec.acl, spec.config, env.lib.userName);
  }

  /**
    A dry run changes nothing at Aiven, and returns what a real run from the same state returns when all
    of that run's mutating calls succeed; `now` stands for the time stamps of both.
  */
  lemma DryRunSimulates(env: Setup, t: StoredTopic, d: Remote, r: Remote, now: string)
    requires env.dryRun && Sound(r) && SameReads(d, r) && AllSucceed(r)
    ensures SameOutcome(d, ProcessTopic(env, t, d, now), ProcessTopic(env.(dryRun := false), t, r, now))
  {
    var status := StatusOf(t).(fullyQualifiedName := FullName(t));
    ReadsInStep(d, r);
    hide ProcessDeletion, ProcessSync, Failed, InStep, FullName;
    DeletionInStep(env, t, status, NextRead(d).remote, NextRead(r).remote, now);
    SyncInStep(env, t, status, NextRead(d).remote, NextRead(r).remote, now);
  }

  // ----- What success means -----

  ghost predicate Clean(r: Remote, t: StoredTopic) {
    && OfTopic(r.acls, FullName(t)) == []
    && (t.removeData ==> FullName(t) !in r.topics)
  }

  lemma EntriesGrant(acls: seq<Acl>)
    requires acls != []
    ensures Grants(acls) != {}
  {
    assert GrantOf(acls[0]) in Grants(acls);
  }

  /** An ACL sync that wants nothing and succeeds leaves nothing. */
  lemma EmptySyncClears(r: Remote, name: string, userName: TopicACL -> Result<string, Error>)
    requires SoundIds(r.acls) && AclManager.SyncAcls(r, name, [], userName, false).answer.None?
    ensures OfTopic(AclManager.SyncAcls(r, name, [], userName, false).remote.acls, name) == []
  {
    var view := OfTopic(AclManager.SyncAcls(r, name, [], userName, false).remote.acls, name);
    AclRuns.SyncIsExact(r, name, [], userName);
    assert Wanted(name, [], userName) == Ok([]);
    hide AclManager.SyncAcls;
    if view != [] {
      EntriesGrant(view);
    }
  }

  lemma FinalDeletion(env: Setup, t: StoredTopic, status: TopicStatus, r: Remote, now: string)
    requires SoundIds(r.acls) && !env.dryRun && ProcessDeletion(env, t, status, r, now).result.deleteFinalized
    ensures Clean(ProcessDeletion(env, t, status, r, now).remote, t)
  {
    hide AclManager.SyncAcls, OfTopic, FullName, SoundIds;
    EmptySyncClears(r, FullName(t), env.lib.userName);
  }

  /** A deletion that is final has left no entry and, if so requested, no topic. */
  lemma DeletionIsClean(env: Setup, t: StoredTopic, r: Remote, now: string)
    requires Sound(r) && !env.dryRun && ProcessTopic(env, t, r, now).result.deleteFinalized
    ensures t.deleting && Clean(ProcessTopic(env, t, r, now).remote, t)
  {
    var status := StatusOf(t).(fullyQualifiedName := FullName(t));
    var resolved := ResolveServiceName(r).remote;
    assert SoundIds(resolved.acls);
    hide ProcessDeletion, ProcessSync, Clean, SoundIds, DistinctBy, FullName;
    SyncNeverFinalizes(env, t, status, resolved, now);
    if ProcessDeletion(env, t, status, resolved, now).result.deleteFinalized {
      FinalDeletion(env, t, status, resolved, now);
    }
  }

  lemma SyncNeverFinalizes(env: Setup, t: StoredTopic, status: TopicStatus, r: Remote, now: string)
    ensures !ProcessSync(env, t, status, r, now).result.deleteFinalized
  {
    hide SyncBoth;
  }

  /**
    What the reconciler sees when all is well: the wanted grants, and a topic in which its comparison finds no
    difference, except perhaps in the deletion retention. The comparison overlooks other things as well.
  */
  ghost predicate Passes(lib: Library, t: StoredTopic, r: Remote) {
    var spec, name := Defaulted(lib, t.spec), FullName(t);
    && AclRuns.Exact(r.acls, name, spec.acl, lib.userName)
    && name in r.topics
    && !TopicManager.TopicConfigChanged(r.topics[name], Some(spec.config.value.(deleteRetentionHours := None)))
  }

  /** Aiven has what the defaulted spec asks for: the wanted grants, and a topic with all of its settings. */
  ghost predicate Matches(lib: Library, t: StoredTopic, r: Remote) {
    var spec, name := Defaulted(lib, t.spec), FullName(t);
    && AclRuns.Exact(r.acls, name, spec.acl, lib.userName)
    && name in r.topics && TopicManager.Satisfies(r.topics[name], spec.config.value)
  }

  /** A sync that succeeds will give the topic all of its settings. */
  predicate Attainable(lib: Library, t: StoredTopic, r: Remote) {
    TopicManager.Attains(TopicManager.Found(r.topics, FullName(t)), Defaulted(lib, t.spec).config.value)
  }

  /**
    When a rollout is reported complete, the topic's grants are exactly the wanted ones and the topic passes the
    comparison. It has all settings of the spec exactly if that was attainable before.
  */
  lemma RolloutIsReal(env: Setup, t: StoredTopic, r: Remote, now: string)
    requires Sound(r) && !env.dryRun && !t.deleting
    ensures var p := ProcessTopic(env, t, r, now);
            p.result.error.None? && !p.result.skipped ==>
              && Passes(env.lib, t, p.remote)
              && (Matches(env.lib, t, p.remote) <==> Attainable(env.lib, t, r))
  {
    var spec, name := Defaulted(env.lib, t.spec), FullName(t);
    var resolved := ResolveServiceName(ResolveServiceName(r).remote).remote;
    SyncedIsReal(resolved, name, spec.acl, spec.config.value, env.lib.userName);
    hide SyncBoth, AclRuns.Exact, TopicManager.TopicConfigChanged, TopicManager.Satisfies, TopicManager.Attains, Failed,
         SoundIds, DistinctBy;
  }

  lemma SyncedIsReal(r: Remote, name: string, acl: seq<TopicACL>, c: Settings,
                     userName: TopicACL -> Result<string, Error>)
    requires Sound(r)
    ensures var res := SyncBoth(r, name, acl, Some(c), userName, false);
            res.answer.None? ==>
              && AclRuns.Exact(res.remote.acls, name, acl, userName)
              && name in res.remote.topics
              && !TopicManager.TopicConfigChanged(res.remote.topics[name], Some(c.(deleteRetentionHours := None)))
              && (TopicManager.Satisfies(res.remote.topics[name], c)
                  <==> TopicManager.Attains(TopicManager.Found(r.topics, name), c))
  {
    var acls := AclManager.SyncAcls(r, name, acl, userName, false);
    SyncAclsOwn(r, name, acl, userName, false);
    if acls.answer.None? {
      AclRuns.SyncIsExact(r, name, acl, userName);
      assert AclRuns.Exact(acls.remote.acls, name, acl, userName);
      assert Sound(acls.remote);
      hide AclManager.SyncAcls, AclRuns.Exact, Sound, OnlyOwn;
      TopicManager.SyncTopicFrame(acls.remote, name, Some(c), false);
      hide TopicManager.SyncTopic, TopicManager.TopicConfigChanged, TopicManager.Satisfies, TopicManager.Attains;
      if TopicManager.SyncTopic(acls.remote, name, Some(c), false).answer.None? {
        SyncedTopicPasses(acls.remote, name, c);
        TopicManager.SyncSatisfiesIff(acls.remote, name, c);
      }
    }
  }

  lemma SyncedTopicPasses(r: Remote, name: string, c: Settings)
    requires TopicManager.SyncTopic(r, name, Some(c), false).answer.None?
    ensures var topics := TopicManager.SyncTopic(r, name, Some(c), false).remote.topics;
            name in topics
            && !TopicManager.TopicConfigChanged(topics[name], Some(c.(deleteRetentionHours := None)))
  {
    hide TopicManager.HoursToMs;
    if name !in r.topics {
      TopicManager.UnchangedAfterCreate(r.defaults, c);
    } else if TopicManager.TopicConfigChanged(r.topics[name], Some(c)) {
      TopicManager.ChangedAfterUpdate(r.topics[name], c.(deleteRetentionHours := None));
      assert TopicManager.UpdateRequest(c) == TopicManager.UpdateRequest(c.(deleteRetentionHours := None));
    }
  }

  /** An error that Process returns has no trigger word in it. */
  lemma ErrorsAreScrubbed(env: Setup, t: StoredTopic, r: Remote, now: string)
    requires Lawful(env.lib)
    ensures var res := ProcessTopic(env, t, r, now).result;
            res.error.Some? ==> !Reveals(res.error.value, env.lib.lower)
  {
    forall status, e, retry
      ensures !Reveals(Failed(env.lib, status, e, env.lib.failedPrepare, retry, now).error.value, env.lib.lower)
      ensures !Reveals(Failed(env.lib, status, e, env.lib.failedSynchronization, retry, now).error.value, env.lib.lower)
    {
      var shown := if BodyError(e) then PlainError(UNKNOWN) else e;
      ScrubbedRevealsNothing(env.lib.failedPrepare, shown, env.lib.lower);
      ScrubbedRevealsNothing(env.lib.failedSynchronization, shown, env.lib.lower);
    }
    hide AclManager.SyncAcls, SyncBoth, DeleteTopic, Reveals, Lawful;
  }

  // ----- What the status shows -----

  predicate StatusReveals(status: TopicStatus, lower: char -> char) {
    Reveals(status.message, lower) || exists e :: e in status.errors && Reveals(e, lower)
  }

  /** The parts of an error that get into a status have a trigger word in them. */
  predicate ErrorReveals(e: Error, lower: char -> char) {
    match e
    case PlainError(text) => Reveals(text, lower)
    case AivenError(code, message, moreInfo, _) =>
      code != HTTP_OK && (Reveals(message, lower) || Reveals(moreInfo, lower))
  }

  /** Unlike the error that is returned, the status is not scrubbed: it shows what the error says. */
  lemma StatusRevealsIff(lib: Library, status: TopicStatus, e: Error, state: string, retry: bool, now: string)
    requires Lawful(lib)
    ensures StatusReveals(Failed(lib, status, e, state, retry, now).status, lib.lower) <==> ErrorReveals(e, lib.lower)
  {
    var lower, shown := lib.lower, Failed(lib, status, e, state, retry, now).status;
    assert shown.message == Report(e).0 && shown.errors == Report(e).1;
    UnknownRevealsNothing(lower);
    assert LowerCases(lower);
    hide Failed, Reveals, Lawful, LowerCases, UNKNOWN, Sentence;
    assert forall x :: x in shown.errors <==> x == shown.errors[0];
    if e.AivenError? && !BodyError(e) {
      JoinRevealsIff(e.message, e.moreInfo, lower);
    }
  }

  function DeletionCause(env: Setup, t: StoredTopic, r: Remote): Option<Error> {
    var acls := AclManager.SyncAcls(r, FullName(t), [], env.lib.userName, env.dryRun);
    if acls.answer.Some? then Some(Prefixed("failed to delete ACLs on Aiven: ", acls.answer.value))
    else if !t.removeData || env.dryRun then None
    else
      var err := DeleteTopic(acls.remote, FullName(t)).answer;
      if err.None? || IsNotFound(err.value) then None
      else Some(Prefixed("failed to delete topic on Aiven: ", err.value))
  }

  function SyncCause(env: Setup, t: StoredTopic, r: Remote): Option<Error> {
    var spec, resolved := Defaulted(env.lib, t.spec), ResolveServiceName(r);
    var hash := env.lib.hash(spec);
    if hash.Err? then Some(PlainError("unable to calculate synchronization hash"))
    else if !env.lib.needsSync(t.status, hash.value) then None
    else if t.spec.pool !in env.projects then
      Some(PlainError("pool '" + t.spec.pool + "' cannot be used in this cluster"))
    else if resolved.answer.Some? then resolved.answer
    else SyncBoth(resolved.remote, FullName(t), spec.acl, spec.config, env.lib.userName, env.dryRun).answer
  }

  /** The error that ends a call of Process, if one does. */
  function Cause(env: Setup, t: StoredTopic, r: Remote): Option<Error> {
    var resolved := ResolveServiceName(r);
    if resolved.answer.Some? then resolved.answer
    else if t.deleting then DeletionCause(env, t, resolved.remote)
    else SyncCause(env, t, resolved.remote)
  }

  /** The call ends with an error whose text is clean, and a status that shows what the cause says. */
  ghost predicate Shows(lib: Library, res: TopicReconcileResult, cause: Option<Error>) {
    && (res.error.Some? <==> cause.Some?)
    && (cause.Some? ==>
          && !Reveals(res.error.value, lib.lower)
          && (StatusReveals(res.status, lib.lower) <==> ErrorReveals(cause.value, lib.lower)))
  }

  lemma FailedShows(lib: Library, status: TopicStatus, e: Error, state: string, retry: bool, now: string)
    requires Lawful(lib) && (state == lib.failedPrepare || state == lib.failedSynchronization)
    ensures Shows(lib, Failed(lib, status, e, state, retry, now), Some(e))
  {
    var shown := if BodyError(e) then PlainError(UNKNOWN) else e;
    ScrubbedRevealsNothing(state, shown, lib.lower);
    StatusRevealsIff(lib, status, e, state, retry, now);
    hide Reveals, StatusReveals, ErrorReveals, UNKNOWN;
  }

  lemma DeletionShows(env: Setup, t: StoredTopic, status: TopicStatus, r: Remote, now: string)
    requires Lawful(env.lib)
    ensures Shows(env.lib, ProcessDeletion(env, t, status, r, now).result, DeletionCause(env, t, r))
  {
    var lib := env.lib;
    hide Failed, Lawful, StatusReveals, ErrorReveals, Reveals, FullName, AclManager.SyncAcls, DeleteTopic;
    forall s, e, retry
      ensures Shows(lib, Failed(lib, s, e, lib.failedSynchronization, retry, now), Some(e))
    {
      FailedShows(lib, s, e, lib.failedSynchronization, retry, now);
    }
  }

  lemma SyncShows(env: Setup, t: StoredTopic, status: TopicStatus, r: Remote, now: string)
    requires Lawful(env.lib)
    ensures Shows(env.lib, ProcessSync(env, t, status, r, now).result, SyncCause(env, t, r))
  {
    var lib := env.lib;
    hide Failed, Lawful, StatusReveals, ErrorReveals, Reveals, FullName, SyncBoth;
    forall s, e, retry
      ensures Shows(lib, Failed(lib, s, e, lib.failedSynchronization, retry, now), Some(e))
      ensures Shows(lib, Failed(lib, s, e, lib.failedPrepare, retry, now), Some(e))
    {
      FailedShows(lib, s, e, lib.failedSynchronization, retry, now);
      FailedShows(lib, s, e, lib.failedPrepare, retry, now);
    }
  }

  /**
    On every failing path of Process the returned error is clean, and the status has a trigger word in it exactly
    if the error that ended the call has.
  */
  lemma FailuresShow(env: Setup, t: StoredTopic, r: Remote, now: string)
    requires Lawful(env.lib)
    ensures Shows(env.lib, ProcessTopic(env, t, r, now).result, Cause(env, t, r))
  {
    var status := StatusOf(t).(fullyQualifiedName := FullName(t));
    var resolved := ResolveServiceName(r);
    DeletionShows(env, t, status, resolved.remote, now);
    SyncShows(env, t, status, resolved.remote, now);
    if resolved.answer.Some? {
      FailedShows(env.lib, status, resolved.answer.value, env.lib.failedSynchronization, false, now);
    }
    hide Failed, Lawful, Shows, FullName, ProcessDeletion, ProcessSync, DeletionCause, SyncCause;
  }
}
