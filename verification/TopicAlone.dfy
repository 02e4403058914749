/** Process is what the interleaving machine does when nobody else uses the service. */
module TopicAlone {
  import opened Basics
  import opened Errors
  import opened AclModel
  import opened AivenService
  import opened AclManager
  import opened Resources
  import opened TopicInterleaving
  import opened TopicReconciler
  import Interleaving = AclInterleaving
  import TopicGuarantees
  import TopicManager

  /** `n` calls of one reconcile in a row. */
  function Alone(job: Job, m: Machine, n: nat): Machine {
    if n == 0 then m else NextCall(job, Alone(job, m, n - 1))
  }

  lemma {:induction false} AloneAgain(job: Job, m: Machine, a: nat, b: nat)
    ensures Alone(job, m, a + b) == Alone(job, Alone(job, m, a), b)
  {
    hide NextCall;
    if b > 0 {
      AloneAgain(job, m, a, b - 1);
    }
  }

  /** The reconcile is over. */
  predicate Ends(m: Machine, remote: Remote, ok: bool) {
    m.remote == remote && m.phase.Over? && m.phase.ok == ok
  }

  /** The phase after a step that may have failed. */
  function Unless(err: Option<Error>, phase: Phase): Phase {
    if err.Some? then FAILED else phase
  }

  lemma AloneOnce(job: Job, m: Machine)
    ensures Alone(job, m, 0) == m && Alone(job, m, 1) == NextCall(job, m)
  {
    hide NextCall;
    assert Alone(job, m, 1) == NextCall(job, Alone(job, m, 0));
  }

  lemma AddAlone(job: Job, r: Remote, s: seq<Acl>, w: seq<Acl>, todo: seq<Acl>)
    requires todo != []
    ensures var created := CreateAcl(r, GrantOf(todo[0]));
            NextCall(job, Machine(r, AfterAcls(job, Interleaving.ToAdd(s, w, todo))))
            == Machine(created.remote, Unless(created.answer, AfterAcls(job, Interleaving.ToAdd(s, w, todo[1..]))))
  {
    hide CreateAcl, Surplus;
  }

  lemma {:induction false} AddsAlone(job: Job, r: Remote, s: seq<Acl>, w: seq<Acl>, todo: seq<Acl>) returns (n: nat)
    ensures var res := AddAll(r, todo, false);
            Alone(job, Machine(r, AfterAcls(job, Interleaving.ToAdd(s, w, todo))), n)
            == Machine(res.remote,
                       Unless(res.answer, AfterAcls(job, Interleaving.ToDelete(s, w, Surplus(s, w)))))
    decreases |todo|
  {
    hide CreateAcl, Surplus, NextCall, Alone, AfterAcls;
    n := 0;
    var m := Machine(r, AfterAcls(job, Interleaving.ToAdd(s, w, todo)));
    AloneOnce(job, m);
    if todo != [] {
      AddAlone(job, r, s, w, todo);
      n := 1;
      var created := CreateAcl(r, GrantOf(todo[0]));
      if created.answer.None? {
        var rest := AddsAlone(job, created.remote, s, w, todo[1..]);
        AloneAgain(job, m, 1, rest);
        n := 1 + rest;
      }
    }
  }

  lemma DeleteAlone(job: Job, r: Remote, s: seq<Acl>, w: seq<Acl>, todo: seq<Acl>)
    requires todo != []
    ensures var deleted := if todo[0].id == "" then Reply(Some(NO_ID), r) else DeleteAcl(r, todo[0].id);
            NextCall(job, Machine(r, AfterAcls(job, Interleaving.ToDelete(s, w, todo))))
            == Machine(deleted.remote, Unless(deleted.answer, AfterAcls(job, Interleaving.ToDelete(s, w, todo[1..]))))
  {
    hide DeleteAcl;
  }

  lemma {:induction false} DeletesAlone(job: Job, r: Remote, s: seq<Acl>, w: seq<Acl>, todo: seq<Acl>)
    returns (n: nat)
    ensures var res := DeleteAll(r, todo, false);
            Alone(job, Machine(r, AfterAcls(job, Interleaving.ToDelete(s, w, todo))), n)
            == Machine(res.remote, Unless(res.answer, AfterAcls(job, Interleaving.Finished(s, w))))
    decreases |todo|
  {
    hide DeleteAcl, NextCall, Alone, AfterAcls;
    n := 0;
    var m := Machine(r, AfterAcls(job, Interleaving.ToDelete(s, w, todo)));
    AloneOnce(job, m);
    if todo != [] {
      DeleteAlone(job, r, s, w, todo);
      n := 1;
      if todo[0].id != "" {
        var deleted := DeleteAcl(r, todo[0].id);
        if deleted.answer.None? {
          var rest := DeletesAlone(job, deleted.remote, s, w, todo[1..]);
          AloneAgain(job, m, 1, rest);
          n := 1 + rest;
        }
      }
    }
  }

  /** What is next once the ACLs are done. */
  function AclsDone(job: Job): Phase {
    if !job.deleting then Getting else if job.removeData then Removing else Over(true, None)
  }

  lemma ListAlone(job: Job, r: Remote)
    ensures var listed, wanted := ListAcls(r), Wanted(job.name, job.acl, job.userName);
            NextCall(job, Machine(r, Listing))
            == Machine(listed.remote,
                       if listed.answer.Err? || wanted.Err? then FAILED
                       else AfterAcls(job, Interleaving.Started(OfTopic(r.acls, job.name), wanted.value)))
  {
    hide Wanted, OfTopic, AfterAcls, Interleaving.Started;
  }

  lemma SyncAclsAlone(job: Job, r: Remote) returns (n: nat)
    ensures var res := SyncAcls(r, job.name, job.acl, job.userName, false);
            Alone(job, Machine(r, Listing), n) == Machine(res.remote, Unless(res.answer, AclsDone(job)))
  {
    hide AddAll, DeleteAll, Missing, Surplus, OfTopic, Wanted, NextCall, Alone, Interleaving.ToAdd,
         Interleaving.ToDelete;
    var m := Machine(r, Listing);
    var listed, wanted := ListAcls(r), Wanted(job.name, job.acl, job.userName);
    AloneOnce(job, m);
    ListAlone(job, r);
    n := 1;
    if listed.answer.Ok? && wanted.Ok? {
      var s, w := OfTopic(r.acls, job.name), wanted.value;
      var added := AddAll(listed.remote, Missing(s, w), false);
      var adds := AddsAlone(job, listed.remote, s, w, Missing(s, w));
      AloneAgain(job, m, 1, adds);
      n := 1 + adds;
      if added.answer.None? {
        var dels := DeletesAlone(job, added.remote, s, w, Surplus(s, w));
        AloneAgain(job, m, n, dels);
        n := n + dels;
      }
    }
  }

  lemma SyncTopicAlone(job: Job, r: Remote) returns (n: nat)
    ensures var res := TopicManager.SyncTopic(r, job.name, Some(job.config), false);
            Ends(Alone(job, Machine(r, Getting), n), res.remote, res.answer.None?)
  {
    hide TopicManager.CreateRequest, TopicManager.UpdateRequest, TopicManager.TopicConfigChanged, CreateTopic,
         UpdateTopic;
    var m := Machine(r, Getting);
    assert Alone(job, m, 0) == m && Alone(job, m, 1) == NextCall(job, m);
    n := 1;
    var next := NextCall(job, m);
    if !next.phase.Over? {
      assert Alone(job, m, 2) == NextCall(job, next);
      n := 2;
    }
  }

  lemma RemoveAlone(job: Job, r: Remote)
    ensures var deleted := DeleteTopic(r, job.name);
            Ends(Alone(job, Machine(r, Removing), 1), deleted.remote,
                 deleted.answer.None? || IsNotFound(deleted.answer.value))
  {
    hide DeleteTopic;
    assert Alone(job, Machine(r, Removing), 0) == Machine(r, Removing);
  }

  function JobOf(env: Setup, t: StoredTopic): Job {
    var spec := Defaulted(env.lib, t.spec);
    Job(FullName(t), t.deleting, t.removeData, if t.deleting then [] else t.spec.acl, spec.config.value,
        env.lib.userName)
  }

  /** The machine, from one state to the end. */
  ghost predicate Reaches(job: Job, m: Machine, remote: Remote, ok: bool) {
    exists n: nat :: Ends(Alone(job, m, n), remote, ok)
  }

  lemma ReachesOnward(job: Job, m: Machine, mid: Machine, remote: Remote, ok: bool, n: nat)
    requires Alone(job, m, n) == mid && Reaches(job, mid, remote, ok)
    ensures Reaches(job, m, remote, ok)
  {
    var k: nat :| Ends(Alone(job, mid, k), remote, ok);
    AloneAgain(job, m, n, k);
  }

  lemma ReachesNow(job: Job, m: Machine, remote: Remote, ok: bool, n: nat)
    requires Ends(Alone(job, m, n), remote, ok)
    ensures Reaches(job, m, remote, ok)
  {
  }

  lemma DeletionAlone(env: Setup, t: StoredTopic, status: TopicStatus, r: Remote, now: string)
    requires !env.dryRun && t.deleting
    ensures var p := ProcessDeletion(env, t, status, r, now);
            Reaches(JobOf(env, t), Machine(r, Listing), p.remote, p.result.error.None?)
  {
    hide SyncAcls, Failed, Finalized, DeleteTopic, NextCall, Alone, FullName, Reaches;
    var job := JobOf(env, t);
    var p := ProcessDeletion(env, t, status, r, now);
    var acls := SyncAcls(r, job.name, [], job.userName, false);
    var n := SyncAclsAlone(job, r);
    var mid := Machine(acls.remote, Unless(acls.answer, AclsDone(job)));
    FailedFails(env, status, now);
    if acls.answer.None? && t.removeData {
      RemoveAlone(job, acls.remote);
      ReachesNow(job, mid, p.remote, p.result.error.None?, 1);
      ReachesOnward(job, Machine(r, Listing), mid, p.remote, p.result.error.None?, n);
    } else {
      ReachesNow(job, Machine(r, Listing), p.remote, p.result.error.None?, n);
    }
  }

  lemma FailedFails(env: Setup, status: TopicStatus, now: string)
    ensures forall s, e, state, retry :: Failed(env.lib, s, e, state, retry, now).error.Some?
    ensures forall s, message :: Finalized(s, message, now).error.None?
    ensures forall hash :: RolledOut(status, hash, now).error.None?
  {
  }

  lemma SyncAlone(env: Setup, t: StoredTopic, status: TopicStatus, r: Remote, now: string)
    requires !env.dryRun && !t.deleting && t.spec.pool in env.projects
    requires var hash := env.lib.hash(Defaulted(env.lib, t.spec)); hash.Ok? && env.lib.needsSync(t.status, hash.value)
    ensures var p := ProcessSync(env, t, status, r, now);
            Reaches(JobOf(env, t), Machine(r, Resolving), p.remote, p.result.error.None?)
  {
    hide SyncAcls, TopicManager.SyncTopic, Failed, RolledOut, FullName, Reaches;
    var job := JobOf(env, t);
    var start := Machine(r, Resolving);
    var resolved := ResolveServiceName(r);
    var p := ProcessSync(env, t, status, r, now);
    assert Alone(job, start, 0) == start;
    assert Alone(job, start, 1) == Machine(resolved.remote, Unless(resolved.answer, Listing));
    hide NextCall, Alone;
    FailedFails(env, status, now);
    if resolved.answer.Some? {
      ReachesNow(job, start, p.remote, p.result.error.None?, 1);
    } else {
      var acls := SyncAcls(resolved.remote, job.name, job.acl, job.userName, false);
      var mid := Machine(acls.remote, Unless(acls.answer, AclsDone(job)));
      var n := SyncAclsAlone(job, resolved.remote);
      if acls.answer.Some? {
        ReachesNow(job, Machine(resolved.remote, Listing), p.remote, p.result.error.None?, n);
      } else {
        var k := SyncTopicAlone(job, acls.remote);
        ReachesNow(job, mid, p.remote, p.result.error.None?, k);
        ReachesOnward(job, Machine(resolved.remote, Listing), mid, p.remote, p.result.error.None?, n);
      }
      ReachesOnward(job, start, Machine(resolved.remote, Listing), p.remote, p.result.error.None?, 1);
    }
  }

  /** The local checks of Process let the reconcile go on. */
  predicate GoesOn(env: Setup, t: StoredTopic) {
    t.deleting ||
    (t.spec.pool in env.projects &&
     var hash := env.lib.hash(Defaulted(env.lib, t.spec));
     hash.Ok? && env.lib.needsSync(t.status, hash.value))
  }

  /** Once its first look-up and its local checks have passed, Process is a run of the machine. */
  lemma ProcessAlone(env: Setup, t: StoredTopic, r: Remote, now: string)
    requires !env.dryRun && ResolveServiceName(r).answer.None? && GoesOn(env, t)
    ensures var p := ProcessTopic(env, t, r, now);
            Reaches(JobOf(env, t), Machine(ResolveServiceName(r).remote, if t.deleting then Listing else Resolving),
                    p.remote, p.result.error.None?)
  {
    var status := StatusOf(t).(fullyQualifiedName := FullName(t));
    var resolved := ResolveServiceName(r).remote;
    hide ProcessDeletion, ProcessSync, Reaches, FullName, Failed;
    if t.deleting {
      DeletionAlone(env, t, status, resolved, now);
    } else {
      SyncAlone(env, t, status, resolved, now);
    }
  }

  /** What the machine promises is what is promised of Process. */
  lemma DoneMeans(env: Setup, t: StoredTopic, before: Remote, r: Remote)
    ensures Done(JobOf(env, t), r, TopicManager.Found(before.topics, FullName(t)))
            <==> if t.deleting then TopicGuarantees.Clean(r, t)
                 else
                   && TopicGuarantees.Passes(env.lib, t, r)
                   && (TopicGuarantees.Matches(env.lib, t, r) <==> TopicGuarantees.Attainable(env.lib, t, before))
  {
    if t.deleting {
      var view := OfTopic(r.acls, FullName(t));
      assert Wanted(FullName(t), [], env.lib.userName) == Ok([]);
      if view != [] {
        TopicGuarantees.EntriesGrant(view);
      }
    }
    hide Wanted, OfTopic, TopicManager.TopicConfigChanged, TopicManager.Satisfies, TopicManager.Attains, FullName;
  }
}
