/**
  Several Topic reconciles at work on one service at once, one remote call at a time. Between any two calls of
  one reconcile the others, and anybody else who leaves its topic alone, may have made any number of theirs.
*/
module TopicInterleaving {
  import opened Basics
  import opened Errors
  import opened AclModel
  import opened AivenService
  import opened AclOutcomes
  import opened AclRuns
  import opened TopicGuarantees
  import opened TopicRuns
  import Interleaving = AclInterleaving
  import TopicManager
  import TopicModel

  /** What one reconcile is about to do, its local checks passed: to synchronise its topic, or to delete it. */
  datatype Job = Job(
    name: string,
    deleting: bool,
    removeData: bool,
    acl: seq<TopicACL>,
    config: TopicModel.Settings,
    userName: TopicACL -> Result<string, Error>)

  /** The call that is next, with what the look-up of the topic has found. */
  datatype Phase =
    | Resolving
    | Listing
    | Acls(run: Interleaving.Run)
    | Getting
    | Creating(request: TopicModel.TopicRequest)
    | Updating(request: TopicModel.TopicRequest, current: TopicModel.KafkaTopic)
    | Removing
    | Over(ok: bool, found: Option<TopicModel.KafkaTopic>)

  const FAILED := Over(false, None)

  datatype Machine = Machine(remote: Remote, phase: Phase)

  function AfterAcls(job: Job, run: Interleaving.Run): Phase {
    if !run.Finished? then Acls(run)
    else if !job.deleting then Getting
    else if job.removeData then Removing
    else Over(true, None)
  }

  /** The next call of a run of creations and deletions. */
  function CallAcl(job: Job, r: Remote, run: Interleaving.Run): Machine {
    match run
    case Adding(s, w, todo) =>
      if todo == [] then Machine(r, FAILED)
      else
        var created := CreateAcl(r, GrantOf(todo[0]));
        Machine(created.remote,
                if created.answer.Some? then FAILED else AfterAcls(job, Interleaving.ToAdd(s, w, todo[1..])))
    case Deleting(s, w, todo) =>
      if todo == [] || todo[0].id == "" then Machine(r, FAILED)
      else
        var deleted := DeleteAcl(r, todo[0].id);
        Machine(deleted.remote,
                if deleted.answer.Some? then FAILED else AfterAcls(job, Interleaving.ToDelete(s, w, todo[1..])))
    case _ => Machine(r, FAILED)
  }

  /** What follows a look-up of the topic. */
  function AfterGet(job: Job, got: Result<TopicModel.KafkaTopic, Error>): Phase {
    match got
    case Err(e) =>
      if !IsNotFound(e) then FAILED
      else
        var q := TopicManager.CreateRequest(job.config);
        if q.Err? then FAILED else Creating(q.value)
    case Ok(t) =>
      if !TopicManager.TopicConfigChanged(t, Some(job.config)) then Over(true, Some(t))
      else
        var q := TopicManager.UpdateRequest(job.config);
        if q.Err? then FAILED else Updating(q.value, t)
  }

  /** The next call. */
  function NextCall(job: Job, m: Machine): Machine {
    var r := m.remote;
    match m.phase
    case Resolving =>
      var resolved := ResolveServiceName(r);
      Machine(resolved.remote, if resolved.answer.Some? then FAILED else Listing)
    case Listing =>
      var listed, wanted := ListAcls(r), Wanted(job.name, job.acl, job.userName);
      Machine(listed.remote,
              if listed.answer.Err? || wanted.Err? then FAILED
              else AfterAcls(job, Interleaving.Started(OfTopic(r.acls, job.name), wanted.value)))
    case Acls(run) => CallAcl(job, r, run)
    case Getting =>
      var got := GetTopic(r, job.name);
      Machine(got.remote, AfterGet(job, got.answer))
    case Creating(q) =>
      var created := CreateTopic(r, job.name, q);
      Machine(created.remote, Over(created.answer.None?, None))
    case Updating(q, found) =>
      var updated := UpdateTopic(r, job.name, q);
      Machine(updated.remote, Over(updated.answer.None?, Some(found)))
    case Removing =>
      var deleted := DeleteTopic(r, job.name);
      Machine(deleted.remote, Over(deleted.answer.None? || IsNotFound(deleted.answer.value), None))
    case Over(_, _) => m
  }

  // ----- What holds before each call -----

  ghost predicate Granted(job: Job, r: Remote) {
    Exact(r.acls, job.name, job.acl, job.userName)
  }

  /**
    What a reconcile that ends well promises, given the topic it found: a clean deletion, or the wanted grants and
    a topic that passes the comparison, with all settings asked for exactly if what was found lets it attain them.
  */
  ghost predicate Done(job: Job, r: Remote, found: Option<TopicModel.KafkaTopic>) {
    && Granted(job, r)
    && (if job.deleting then job.removeData ==> job.name !in r.topics
        else
          && job.name in r.topics
          && !TopicManager.TopicConfigChanged(r.topics[job.name], Some(job.config.(deleteRetentionHours := None)))
          && (TopicManager.Satisfies(r.topics[job.name], job.config) <==> TopicManager.Attains(found, job.config)))
  }

  ghost predicate PhaseInv(job: Job, r: Remote, phase: Phase) {
    match phase
    case Resolving => true
    case Listing => true
    case Acls(run) =>
      && Interleaving.Pending(run) && Wanted(job.name, job.acl, job.userName) == Ok(run.wanted)
      && Interleaving.RunInv(OfTopic(r.acls, job.name), job.name, run)
    case Getting => !job.deleting && Granted(job, r)
    case Creating(q) =>
      && !job.deleting && Granted(job, r) && TopicManager.CreateRequest(job.config) == Ok(q)
    case Updating(q, found) =>
      && !job.deleting && Granted(job, r) && TopicManager.UpdateRequest(job.config) == Ok(q)
      && TopicManager.TopicConfigChanged(found, Some(job.config))
      && TopicManager.Found(r.topics, job.name) == Some(found)
    case Removing => job.deleting && Granted(job, r)
    case Over(ok, found) => ok ==> Done(job, r, found)
  }

  /** Whoever leaves the topic alone leaves all that is promised of it alone. */
  lemma OthersKeep(job: Job, r: Remote, s: Remote, phase: Phase)
    requires PhaseInv(job, r, phase) && SameOwn(r, s, job.name)
    ensures PhaseInv(job, s, phase)
  {
    hide OfTopic, Interleaving.RunInv, Wanted, Grants, TopicManager.TopicConfigChanged, TopicManager.CreateRequest,
         TopicManager.UpdateRequest, TopicManager.Satisfies, TopicManager.Attains;
  }

  lemma RunEnds(job: Job, r: Remote, run: Interleaving.Run)
    requires Interleaving.RunInv(OfTopic(r.acls, job.name), job.name, run)
    requires Interleaving.Pending(run) || run.Finished?
    requires Wanted(job.name, job.acl, job.userName) == Ok(run.wanted)
    ensures PhaseInv(job, r, AfterAcls(job, run))
  {
    ExactIff(r.acls, job.name, job.acl, job.userName);
    hide Wanted, OfTopic, Interleaving.RunInv, Grants, Exact;
    if run.Finished? {
      FinishedRunIsExact(OfTopic(r.acls, job.name), job.name, run);
    }
    assert run.Finished? ==> Granted(job, r);
  }

  lemma FinishedRunIsExact(view: seq<Acl>, topic: string, run: Interleaving.Run)
    requires Interleaving.RunInv(view, topic, run) && run.Finished?
    ensures Grants(view) == Grants(run.wanted)
  {
    UnmatchedMembers(view, run.wanted);
    forall a | a in view
      ensures GrantOf(a) in Grants(run.wanted)
    {
      assert a !in Surplus(view, run.wanted);
    }
    forall x | x in run.wanted
      ensures GrantOf(x) in Grants(view)
    {
      assert Has(view, GrantOf(x));
    }
  }

  lemma ListKeeps(job: Job, r: Remote)
    requires Sound(r)
    ensures PhaseInv(job, NextCall(job, Machine(r, Listing)).remote, NextCall(job, Machine(r, Listing)).phase)
  {
    var wanted := Wanted(job.name, job.acl, job.userName);
    if ListAcls(r).answer.Ok? && wanted.Ok? {
      var run := Interleaving.Started(OfTopic(r.acls, job.name), wanted.value);
      Interleaving.StartKeeps(OfTopic(r.acls, job.name), job.name, wanted.value);
      StartedOn(OfTopic(r.acls, job.name), wanted.value);
      hide Interleaving.Started, Wanted, Interleaving.RunInv, OfTopic;
      RunEnds(job, ListAcls(r).remote, run);
    }
  }

  lemma StartedOn(view: seq<Acl>, w: seq<Acl>)
    ensures var run := Interleaving.Started(view, w);
            run.wanted == w && (Interleaving.Pending(run) || run.Finished?)
  {
    hide Missing, Surplus;
  }

  /** A creation or a deletion has the effect that the ACL machine gives it. */
  lemma CallAclIsWritten(job: Job, r: Remote, run: Interleaving.Run)
    requires Sound(r) && PhaseInv(job, r, Acls(run))
    ensures var m := CallAcl(job, r, run);
            var (acls, next) := Interleaving.Written(r.acls, run, FreshId(r.acls));
            && (m.phase == FAILED || (m.remote.acls == acls && m.phase == AfterAcls(job, next)))
            && next.wanted == run.wanted && (Interleaving.Pending(next) || next.Finished?)
  {
    Interleaving.PendingIsOwn(r.acls, job.name, run);
    hide Interleaving.RunInv, Wanted, OfTopic, Surplus, FreshId;
  }

  lemma AclCallKeeps(job: Job, r: Remote, run: Interleaving.Run)
    requires Sound(r) && PhaseInv(job, r, Acls(run))
    ensures PhaseInv(job, CallAcl(job, r, run).remote, CallAcl(job, r, run).phase)
  {
    AclsInv(job, r, run);
    hide CallAcl, PhaseInv, Sound, Interleaving.RunInv, Interleaving.Written, Interleaving.Pending, OfTopic, Wanted,
         SoundIds, FreshId, AfterAcls;
    CallAclIsWritten(job, r, run);
    Interleaving.WrittenKeeps(r.acls, job.name, run, FreshId(r.acls));
    var (acls, next) := Interleaving.Written(r.acls, run, FreshId(r.acls));
    var m := CallAcl(job, r, run);
    if m.phase == FAILED {
      FailedIsFine(job, m.remote);
    } else {
      RunEnds(job, m.remote, next);
    }
  }

  lemma AclsInv(job: Job, r: Remote, run: Interleaving.Run)
    requires Sound(r) && PhaseInv(job, r, Acls(run))
    ensures SoundIds(r.acls) && Interleaving.Pending(run)
    ensures Wanted(job.name, job.acl, job.userName) == Ok(run.wanted)
    ensures Interleaving.RunInv(OfTopic(r.acls, job.name), job.name, run)
  {
  }

  lemma FailedIsFine(job: Job, r: Remote)
    ensures PhaseInv(job, r, FAILED)
  {
  }

  lemma GetKeeps(job: Job, r: Remote)
    requires PhaseInv(job, r, Getting)
    ensures var m := NextCall(job, Machine(r, Getting)); PhaseInv(job, m.remote, m.phase)
  {
    hide TopicManager.TopicConfigChanged, TopicManager.CreateRequest, TopicManager.UpdateRequest, Exact,
         TopicManager.Satisfies, TopicManager.Attains;
    if job.name in r.topics {
      LessChanges(r.topics[job.name], job.config);
      UnchangedAttains(r.topics[job.name], job.config);
    }
  }

  lemma UnchangedAttains(t: TopicModel.KafkaTopic, c: TopicModel.Settings)
    ensures !TopicManager.TopicConfigChanged(t, Some(c)) ==>
              (TopicManager.Satisfies(t, c) <==> TopicManager.Attains(Some(t), c))
  {
    TopicManager.SatisfiesIff(t, c);
    TopicManager.UnchangedRetention(t, c);
    hide TopicManager.TopicConfigChanged, TopicManager.Satisfies, TopicManager.RetentionAsked,
         TopicManager.UncomparedAsked;
  }

  lemma LessChanges(t: TopicModel.KafkaTopic, c: TopicModel.Settings)
    ensures !TopicManager.TopicConfigChanged(t, Some(c)) ==>
              !TopicManager.TopicConfigChanged(t, Some(c.(deleteRetentionHours := None)))
  {
    hide TopicManager.HoursToMs;
  }

  lemma CreateKeeps(job: Job, r: Remote, q: TopicModel.TopicRequest)
    requires PhaseInv(job, r, Creating(q))
    ensures var m := NextCall(job, Machine(r, Creating(q))); PhaseInv(job, m.remote, m.phase)
  {
    hide TopicManager.TopicConfigChanged, TopicManager.CreateRequest, TopicModel.Overlay, TopicManager.Satisfies, Exact;
    TopicManager.UnchangedAfterCreate(r.defaults, job.config);
    LessChanges(TopicModel.Overlay(r.defaults, q), job.config);
    TopicManager.CreatedSatisfies(r.defaults, job.config);
  }

  lemma UpdateKeeps(job: Job, r: Remote, q: TopicModel.TopicRequest, found: TopicModel.KafkaTopic)
    requires PhaseInv(job, r, Updating(q, found))
    ensures var m := NextCall(job, Machine(r, Updating(q, found))); PhaseInv(job, m.remote, m.phase)
  {
    var c := job.config;
    UpdatedPasses(found, c);
    TopicManager.UpdatedSatisfiesIff(found, c);
    hide TopicManager.TopicConfigChanged, TopicManager.UpdateRequest, TopicModel.Overlay, TopicManager.Satisfies, Exact,
         TopicManager.RetentionAsked, TopicManager.UncomparedAsked;
  }

  lemma UpdatedPasses(t: TopicModel.KafkaTopic, c: TopicModel.Settings)
    requires TopicManager.UpdateRequest(c).Ok?
    ensures !TopicManager.TopicConfigChanged(TopicModel.Overlay(t, TopicManager.UpdateRequest(c).value),
                                             Some(c.(deleteRetentionHours := None)))
  {
    assert TopicManager.UpdateRequest(c) == TopicManager.UpdateRequest(c.(deleteRetentionHours := None));
    TopicManager.ChangedAfterUpdate(t, c.(deleteRetentionHours := None));
  }

  lemma RemoveKeeps(job: Job, r: Remote)
    requires PhaseInv(job, r, Removing)
    ensures var m := NextCall(job, Machine(r, Removing)); PhaseInv(job, m.remote, m.phase)
  {
    hide Exact;
  }

  /** A reconcile's own call establishes what holds before its next one. */
  lemma CallKeeps(job: Job, r: Remote, phase: Phase)
    requires Sound(r) && PhaseInv(job, r, phase)
    ensures var m := NextCall(job, Machine(r, phase)); PhaseInv(job, m.remote, m.phase)
  {
    match phase
    case Resolving =>
    case Listing => ListKeeps(job, r);
    case Acls(run) => AclCallKeeps(job, r, run);
    case Getting => GetKeeps(job, r);
    case Creating(q) => CreateKeeps(job, r, q);
    case Updating(q, found) => UpdateKeeps(job, r, q, found);
    case Removing => RemoveKeeps(job, r);
    case Over(_, _) =>
  }

  // ----- Other topics -----

  /** The entries as the pending call would leave them: sound, and those of other topics as before. */
  lemma WrittenElsewhere(r: Remote, name: string, run: Interleaving.Run)
    requires SoundIds(r.acls) && Interleaving.Pending(run) && Interleaving.RunInv(OfTopic(r.acls, name), name, run)
    ensures var acls := Interleaving.Written(r.acls, run, FreshId(r.acls)).0;
            SoundIds(acls) && forall other :: other != name ==> OfTopic(acls, other) == OfTopic(r.acls, other)
  {
    Interleaving.PendingIsOwn(r.acls, name, run);
    var acls := Interleaving.Written(r.acls, run, FreshId(r.acls)).0;
    hide Interleaving.RunInv, OfTopic;
    if run.Adding? {
      var g := GrantOf(run.todo[0]);
      Interleaving.SoundAfterCreate(r.acls, FreshId(r.acls), g);
      forall other | other != name
        ensures OfTopic(acls, other) == OfTopic(r.acls, other)
      {
        Interleaving.CreateOnView(r.acls, FreshId(r.acls), g, other);
      }
    } else {
      Interleaving.SoundAfterFilter(r.acls, NotId(run.todo[0].id));
      forall other | other != name
        ensures OfTopic(acls, other) == OfTopic(r.acls, other)
      {
        Interleaving.DeleteOnView(r.acls, run.todo[0], other);
      }
    }
  }

  lemma CallAclFrame(job: Job, r: Remote, run: Interleaving.Run)
    requires Interleaving.Pending(run) && run.todo != []
    ensures var s := CallAcl(job, r, run).remote;
            && SameTopics(r, s)
            && (s.acls == r.acls || s.acls == Interleaving.Written(r.acls, run, FreshId(r.acls)).0)
  {
    hide AfterAcls, FreshId, Without, WithGrant, Surplus;
  }

  lemma AclCallOwn(job: Job, r: Remote, run: Interleaving.Run)
    requires Sound(r) && PhaseInv(job, r, Acls(run))
    ensures OnlyOwn(r, CallAcl(job, r, run).remote, job.name)
  {
    Interleaving.PendingIsOwn(r.acls, job.name, run);
    WrittenElsewhere(r, job.name, run);
    CallAclFrame(job, r, run);
    hide CallAcl, PhaseInv, OfTopic, SoundIds, DistinctBy, FreshId, Interleaving.Written;
  }

  lemma WriteOwn(r: Remote, name: string, q: TopicModel.TopicRequest)
    requires Sound(r)
    ensures OnlyOwn(r, CreateTopic(r, name, q).remote, name)
    ensures OnlyOwn(r, UpdateTopic(r, name, q).remote, name)
  {
    TopicManager.CreateFrame(r, name, q);
    TopicManager.UpdateFrame(r, name, q);
    hide CreateTopic, UpdateTopic, Sound, OfTopic;
  }

  /** A call leaves all topics but its own alone. */
  lemma CallOwn(job: Job, r: Remote, phase: Phase)
    requires Sound(r) && PhaseInv(job, r, phase)
    ensures OnlyOwn(r, NextCall(job, Machine(r, phase)).remote, job.name)
  {
    ReadIsOwn(r, job.name);
    UntouchedIsOwn(r, job.name);
    DeleteTopicFrame(r, job.name);
    if phase.Acls? {
      AclCallOwn(job, r, phase.run);
    } else if phase.Creating? || phase.Updating? {
      WriteOwn(r, job.name, phase.request);
    }
    hide OnlyOwn, Sound, PhaseInv, CallAcl, CreateTopic, UpdateTopic, DeleteTopic, AfterAcls, AfterGet;
  }

  lemma OwnIsSame(r: Remote, s: Remote, name: string, other: string)
    requires OnlyOwn(r, s, name) && other != name
    ensures SameOwn(r, s, other)
  {
    hide Sound, OfTopic;
    assert other in s.topics <==> other in s.topics - {name};
    assert other in r.topics <==> other in r.topics - {name};
    if other in r.topics {
      assert (s.topics - {name})[other] == (r.topics - {name})[other];
    }
  }

  // ----- Many reconciles -----

  /** The service, and for each topic what its reconcile is to do and where it is. */
  datatype Fleet = Fleet(remote: Remote, jobs: seq<Job>, phases: seq<Phase>)

  /**
    A reconcile makes its next call; or one starts from the beginning, with an edited spec if need be; or somebody
    else uses the service.
  */
  datatype Event =
    | Turn(who: nat, answers: seq<Option<Fault>>, outcomes: seq<Outcome>)
    | Begins(who: nat, job: Job)
    | Outside(remote: Remote)

  function Step(f: Fleet, e: Event): Fleet
    requires |f.jobs| == |f.phases| && (!e.Outside? ==> e.who < |f.jobs|)
  {
    match e
    case Turn(i, answers, outcomes) =>
      var m := NextCall(f.jobs[i], Machine(f.remote.(answers := answers, outcomes := outcomes), f.phases[i]));
      Fleet(m.remote, f.jobs, f.phases[i := m.phase])
    case Begins(i, job) => f.(jobs := f.jobs[i := job], phases := f.phases[i := Resolving])
    case Outside(remote) => f.(remote := remote)
  }

  ghost predicate ValidEvent(f: Fleet, e: Event) {
    && |f.jobs| == |f.phases| && (!e.Outside? ==> e.who < |f.jobs|)
    && (e.Begins? ==> e.job.name == f.jobs[e.who].name)
    && (e.Outside? ==>
          Sound(e.remote) && forall i :: 0 <= i < |f.jobs| ==> SameOwn(f.remote, e.remote, f.jobs[i].name))
  }

  ghost predicate FleetInv(f: Fleet) {
    && |f.jobs| == |f.phases| && Sound(f.remote)
    && (forall i, j :: 0 <= i < j < |f.jobs| ==> f.jobs[i].name != f.jobs[j].name)
    && forall i :: 0 <= i < |f.jobs| ==> PhaseInv(f.jobs[i], f.remote, f.phases[i])
  }

  /** A turn of one reconcile leaves the topics of all others alone. */
  lemma TurnElsewhere(f: Fleet, e: Event, i: nat)
    requires FleetInv(f) && ValidEvent(f, e) && e.Turn? && i < |f.jobs| && i != e.who
    ensures SameOwn(f.remote, Step(f, e).remote, f.jobs[i].name)
  {
    var next, job := Step(f, e), f.jobs[e.who];
    var r := f.remote.(answers := e.answers, outcomes := e.outcomes);
    assert Sound(r) && SameOwn(f.remote, r, job.name);
    OthersKeep(job, f.remote, r, f.phases[e.who]);
    CallOwn(job, r, f.phases[e.who]);
    hide NextCall, PhaseInv, Sound, OnlyOwn, SameOwn;
    OwnIsSame(r, next.remote, job.name, f.jobs[i].name);
    ScriptsAside(f.remote, r, next.remote, f.jobs[i].name);
  }

  lemma TurnKeepsOwn(f: Fleet, e: Event)
    requires FleetInv(f) && ValidEvent(f, e) && e.Turn?
    ensures var next := Step(f, e);
            Sound(next.remote) && PhaseInv(f.jobs[e.who], next.remote, next.phases[e.who])
  {
    var next, job := Step(f, e), f.jobs[e.who];
    var r := f.remote.(answers := e.answers, outcomes := e.outcomes);
    assert Sound(r) && SameOwn(f.remote, r, job.name);
    OthersKeep(job, f.remote, r, f.phases[e.who]);
    CallKeeps(job, r, f.phases[e.who]);
    CallOwn(job, r, f.phases[e.who]);
    KeptSound(r, next.remote, job.name);
  }

  lemma TurnKeeps(f: Fleet, e: Event)
    requires FleetInv(f) && ValidEvent(f, e) && e.Turn?
    ensures FleetInv(Step(f, e))
  {
    var next := Step(f, e);
    TurnKeepsOwn(f, e);
    hide NextCall, PhaseInv, Sound, SameOwn;
    forall i | 0 <= i < |f.jobs|
      ensures PhaseInv(f.jobs[i], next.remote, next.phases[i])
    {
      if i != e.who {
        TurnElsewhere(f, e, i);
        OthersKeep(f.jobs[i], f.remote, next.remote, f.phases[i]);
      }
    }
  }

  lemma KeptSound(r: Remote, s: Remote, name: string)
    requires OnlyOwn(r, s, name)
    ensures Sound(s)
  {
  }

  lemma ScriptsAside(f: Remote, r: Remote, s: Remote, name: string)
    requires r == f.(answers := r.answers, outcomes := r.outcomes) && SameOwn(r, s, name)
    ensures SameOwn(f, s, name)
  {
  }

  lemma FleetStepKeeps(f: Fleet, e: Event)
    requires FleetInv(f) && ValidEvent(f, e)
    ensures FleetInv(Step(f, e))
  {
    hide PhaseInv, Sound, SameOwn, NextCall;
    if e.Turn? {
      TurnKeeps(f, e);
    } else if e.Outside? {
      forall i | 0 <= i < |f.jobs|
        ensures PhaseInv(f.jobs[i], e.remote, f.phases[i])
      {
        OthersKeep(f.jobs[i], f.remote, e.remote, f.phases[i]);
      }
    } else {
      ResolvingIsFine(e.job, f.remote);
    }
  }

  lemma ResolvingIsFine(job: Job, r: Remote)
    ensures PhaseInv(job, r, Resolving)
  {
  }

  ghost predicate FleetRun(fs: seq<Fleet>, es: seq<Event>) {
    && |fs| == |es| + 1
    && forall k :: 0 <= k < |es| ==> ValidEvent(fs[k], es[k]) && fs[k + 1] == Step(fs[k], es[k])
  }

  // ----- What a reconcile finds -----

  /** When the reconcile of topic i that is under way at `n` began. */
  function Beginning(es: seq<Event>, i: nat, n: nat): (k: nat)
    requires n <= |es|
    ensures k <= n
  {
    if n == 0 then 0
    else if es[n - 1].Begins? && es[n - 1].who == i then n
    else Beginning(es, i, n - 1)
  }

  /** What the reconcile will find, or has found, is what was there when it began. */
  ghost predicate FindsStart(job: Job, start: Remote, r: Remote, phase: Phase) {
    var there := TopicManager.Found(start.topics, job.name);
    match phase
    case Creating(_) => there == None
    case Updating(_, found) => there == Some(found)
    case Over(ok, found) => ok && !job.deleting ==> found == there
    case _ => TopicManager.Found(r.topics, job.name) == there
  }

  lemma FindsAfterOthers(job: Job, start: Remote, r: Remote, s: Remote, phase: Phase)
    requires FindsStart(job, start, r, phase) && SameOwn(r, s, job.name)
    ensures FindsStart(job, start, s, phase)
  {
    hide OfTopic;
  }

  lemma FindsAfterCall(job: Job, start: Remote, r: Remote, phase: Phase)
    requires PhaseInv(job, r, phase) && FindsStart(job, start, r, phase)
    ensures var m := NextCall(job, Machine(r, phase)); FindsStart(job, start, m.remote, m.phase)
  {
    if phase.Acls? {
      AclCallFinds(job, start, r, phase.run);
    }
    hide PhaseInv, CallAcl, Wanted, OfTopic, TopicManager.TopicConfigChanged, TopicManager.CreateRequest,
         TopicManager.UpdateRequest, TopicModel.Overlay, Interleaving.Started;
  }

  lemma AclCallFinds(job: Job, start: Remote, r: Remote, run: Interleaving.Run)
    requires PhaseInv(job, r, Acls(run)) && FindsStart(job, start, r, Acls(run))
    ensures var m := CallAcl(job, r, run); FindsStart(job, start, m.remote, m.phase)
  {
    Interleaving.PendingIsOwn(r.acls, job.name, run);
    CallAclFrame(job, r, run);
    CallAclPhase(job, r, run);
    hide PhaseInv, CallAcl;
  }

  lemma CallAclPhase(job: Job, r: Remote, run: Interleaving.Run)
    ensures var phase := CallAcl(job, r, run).phase;
            phase == FAILED || phase.Acls? || phase.Getting? || phase.Removing? || (phase.Over? && job.deleting)
  {
    hide CreateAcl, DeleteAcl, Surplus;
  }

  lemma FindsStep(f: Fleet, e: Event, start: Remote, i: nat)
    requires FleetInv(f) && ValidEvent(f, e) && i < |f.jobs| && FindsStart(f.jobs[i], start, f.remote, f.phases[i])
    requires !(e.Begins? && e.who == i)
    ensures var next := Step(f, e); FindsStart(f.jobs[i], start, next.remote, next.phases[i])
  {
    var job, next := f.jobs[i], Step(f, e);
    if e.Turn? && e.who == i {
      var r := f.remote.(answers := e.answers, outcomes := e.outcomes);
      assert SameOwn(f.remote, r, job.name);
      OthersKeep(job, f.remote, r, f.phases[i]);
      FindsAfterOthers(job, start, f.remote, r, f.phases[i]);
      FindsAfterCall(job, start, r, f.phases[i]);
    } else {
      if e.Turn? {
        TurnElsewhere(f, e, i);
      }
      hide PhaseInv, FindsStart, NextCall, Sound;
      if e.Turn? || e.Outside? {
        FindsAfterOthers(job, start, f.remote, next.remote, f.phases[i]);
      }
    }
  }

  // ----- Main result -----

  /**
    Whatever comes between the calls of a reconcile, and whatever fails: when it ends well, its topic has exactly
    the wanted grants and passes the comparison, or has been cleaned up, and that stays so until it starts again.
    It has all the settings asked for exactly if they were attainable when the reconcile began.
  */
  lemma {:induction false} InterleavedReconcilesAreReal(fs: seq<Fleet>, es: seq<Event>, n: nat, i: nat)
    requires FleetRun(fs, es) && n < |fs| && FleetInv(fs[0]) && i < |fs[0].jobs|
    requires forall k :: 0 <= k < |fs[0].phases| ==> fs[0].phases[k] == Resolving
    ensures FleetInv(fs[n]) && |fs[n].jobs| == |fs[n].phases| == |fs[0].jobs|
    ensures var job, start := fs[n].jobs[i], fs[Beginning(es, i, n)].remote;
            && FindsStart(job, start, fs[n].remote, fs[n].phases[i])
            && (fs[n].phases[i].Over? && fs[n].phases[i].ok ==>
                  Done(job, fs[n].remote, TopicManager.Found(start.topics, job.name)))
    decreases n
  {
    FewPhases(fs[0]);
    if n > 0 {
      hide FleetInv, ValidEvent, Step, Done, PhaseInv, FindsStart;
      var f, e := fs[n - 1], es[n - 1];
      InterleavedReconcilesAreReal(fs, es, n - 1, i);
      SameJobs(f, e);
      FleetStepKeeps(f, e);
      if e.Begins? && e.who == i {
        BeginsAnew(f, e);
      } else {
        FindsStep(f, e, fs[Beginning(es, i, n - 1)].remote, i);
      }
    } else {
      NothingFound(fs[0], i);
    }
    FinalPhase(fs[n], i, fs[Beginning(es, i, n)].remote);
  }

  lemma NothingFound(f: Fleet, i: nat)
    requires |f.jobs| == |f.phases| && i < |f.jobs| && f.phases[i] == Resolving
    ensures FindsStart(f.jobs[i], f.remote, f.remote, f.phases[i])
  {
  }

  lemma FewPhases(f: Fleet)
    requires FleetInv(f)
    ensures |f.jobs| == |f.phases|
  {
  }

  lemma SameJobs(f: Fleet, e: Event)
    requires ValidEvent(f, e)
    ensures var next := Step(f, e);
            && |next.jobs| == |f.jobs| && |next.phases| == |f.phases|
            && forall i :: 0 <= i < |f.jobs| && !(e.Begins? && e.who == i) ==> next.jobs[i] == f.jobs[i]
  {
    hide NextCall;
  }

  lemma BeginsAnew(f: Fleet, e: Event)
    requires ValidEvent(f, e) && e.Begins?
    ensures var next := Step(f, e); FindsStart(next.jobs[e.who], next.remote, next.remote, next.phases[e.who])
  {
  }

  lemma FinalPhase(f: Fleet, i: nat, start: Remote)
    requires FleetInv(f) && i < |f.jobs| == |f.phases| && FindsStart(f.jobs[i], start, f.remote, f.phases[i])
    ensures var job := f.jobs[i];
            f.phases[i].Over? && f.phases[i].ok ==> Done(job, f.remote, TopicManager.Found(start.topics, job.name))
  {
    assert PhaseInv(f.jobs[i], f.remote, f.phases[i]);
    hide Granted, TopicManager.TopicConfigChanged, TopicManager.Satisfies, TopicManager.Attains, Sound;
  }
}
