/** Manager.Synchronize as a run of the interleaving machine, and what follows for one call of it. */
module AclRuns {
  import opened Basics
  import opened Errors
  import opened AclModel
  import opened AivenService
  import opened AclManager
  import opened AclInterleaving

  lemma AddFollows(r: Remote, sys: System, topics: seq<string>, i: nat, s: seq<Acl>, w: seq<Acl>, todo: seq<Acl>)
    returns (schedule: seq<Event>)
    requires |sys.runs| == |topics| && i < |topics| && sys.acls == r.acls && sys.runs[i] == ToAdd(s, w, todo)
    ensures ValidSchedule(sys, topics, schedule)
    ensures var res := AddAll(r, todo, false);
            Execute(sys, topics, schedule)
            == System(res.remote.acls, sys.runs[i := if res.answer.None? then ToAdd(s, w, []) else Stopped(s, w)])
    decreases |todo|
  {
    if todo == [] {
      schedule := [];
    } else {
      var e := Write(i, NextWrite(r, CreateAclCall(GrantOf(todo[0]))).answer, FreshId(r.acls));
      var created := CreateAcl(r, GrantOf(todo[0]));
      var next := Step(sys, topics, e);
      assert next.acls == created.remote.acls;
      if created.answer.Some? {
        schedule := [e];
        assert schedule[1..] == [];
      } else {
        var rest := AddFollows(created.remote, next, topics, i, s, w, todo[1..]);
        schedule := [e] + rest;
        assert schedule[1..] == rest;
      }
    }
  }

  lemma DeleteFollows(r: Remote, sys: System, topics: seq<string>, i: nat, s: seq<Acl>, w: seq<Acl>, todo: seq<Acl>)
    returns (schedule: seq<Event>)
    requires Inv(sys, topics) && i < |topics| && sys.acls == r.acls && sys.runs[i] == ToDelete(s, w, todo)
    ensures ValidSchedule(sys, topics, schedule)
    ensures var res := DeleteAll(r, todo, false);
            Execute(sys, topics, schedule)
            == System(res.remote.acls, sys.runs[i := if res.answer.None? then Finished(s, w) else Stopped(s, w)])
    decreases |todo|
  {
    if todo == [] {
      schedule := [];
      assert sys.runs[i := Finished(s, w)] == sys.runs;
    } else {
      PendingIsOwn(sys.acls, topics[i], sys.runs[i]);
      var e := Write(i, NextWrite(r, DeleteAclCall(todo[0].id)).answer, FreshId(r.acls));
      var deleted := DeleteAcl(r, todo[0].id);
      var next := Step(sys, topics, e);
      StepKeepsInvariant(sys, topics, e);
      assert next.acls == deleted.remote.acls;
      if deleted.answer.Some? {
        schedule := [e];
        assert schedule[1..] == [];
      } else {
        var rest := DeleteFollows(deleted.remote, next, topics, i, s, w, todo[1..]);
        schedule := [e] + rest;
        assert schedule[1..] == rest;
      }
    }
  }

  lemma {:induction false} SchedulesCompose(sys: System, topics: seq<string>, one: seq<Event>, two: seq<Event>)
    requires ValidSchedule(sys, topics, one) && ValidSchedule(Execute(sys, topics, one), topics, two)
    ensures ValidSchedule(sys, topics, one + two)
    ensures Execute(sys, topics, one + two) == Execute(Execute(sys, topics, one), topics, two)
    decreases |one|
  {
    if one == [] {
      assert one + two == two;
    } else {
      assert (one + two)[1..] == one[1..] + two;
      SchedulesCompose(Step(sys, topics, one[0]), topics, one[1..], two);
    }
  }

  /** How a call of Synchronize can leave its manager. */
  ghost predicate RunAfter(run: Run, view: seq<Acl>, wanted: Result<seq<Acl>, Error>, err: Option<Error>) {
    && (err.None? <==> run.Finished?)
    && (run == Idle || (wanted.Ok? && !Pending(run) && run.snapshot == view && run.wanted == wanted.value))
  }

  /** The writes of one call, from the listing on. */
  lemma ReconciledFollows(r: Remote, sys: System, topics: seq<string>, i: nat, view: seq<Acl>, w: seq<Acl>)
    returns (schedule: seq<Event>, run: Run)
    requires Inv(sys, topics) && i < |topics| && sys.acls == r.acls && sys.runs[i] == Started(view, w)
    ensures ValidSchedule(sys, topics, schedule)
    ensures var res := Reconciled(r, view, w, false);
            && Execute(sys, topics, schedule) == System(res.remote.acls, sys.runs[i := run])
            && run == if res.answer.None? then Finished(view, w) else Stopped(view, w)
  {
    hide RunInv, SoundIds, Missing, Surplus, Step;
    var added := AddAll(r, Missing(view, w), false);
    schedule := AddFollows(r, sys, topics, i, view, w, Missing(view, w));
    if added.answer.Some? {
      run := Stopped(view, w);
    } else {
      InterleavingKeepsInvariant(sys, topics, schedule);
      var next := Execute(sys, topics, schedule);
      var dels := DeleteFollows(added.remote, next, topics, i, view, w, Surplus(view, w));
      run := if DeleteAll(added.remote, Surplus(view, w), false).answer.None? then Finished(view, w)
             else Stopped(view, w);
      SchedulesCompose(sys, topics, schedule, dels);
      schedule := schedule + dels;
    }
  }

  /** Whatever fails, one call of Synchronize is a run of the machine in which only its own manager moves. */
  lemma SyncFollows(r: Remote, sys: System, topics: seq<string>, i: nat,
                    specs: seq<TopicACL>, userName: TopicACL -> Result<string, Error>)
    returns (schedule: seq<Event>, run: Run)
    requires Inv(sys, topics) && i < |topics| && sys.acls == r.acls
    ensures ValidSchedule(sys, topics, schedule)
    ensures var res := SyncAcls(r, topics[i], specs, userName, false);
            && Execute(sys, topics, schedule) == System(res.remote.acls, sys.runs[i := run])
            && RunAfter(run, OfTopic(r.acls, topics[i]), Wanted(topics[i], specs, userName), res.answer)
            && (run == Idle ==> res.remote.acls == r.acls)
  {
    hide RunInv;
    var listed := ListAcls(r);
    var wanted := Wanted(topics[i], specs, userName);
    if listed.answer.Err? || wanted.Err? {
      schedule, run := [ListFails(i)], Idle;
      assert schedule[1..] == [];
    } else {
      var view, w := OfTopic(r.acls, topics[i]), wanted.value;
      var e := List(i, w);
      StepKeepsInvariant(sys, topics, e);
      var writes;
      writes, run := ReconciledFollows(listed.remote, Step(sys, topics, e), topics, i, view, w);
      schedule := [e] + writes;
      assert schedule[1..] == writes;
    }
  }

  /** What one call of Synchronize does to the store, whichever call fails. */
  lemma SyncIsSafe(r: Remote, topic: string, specs: seq<TopicACL>, userName: TopicACL -> Result<string, Error>)
    requires SoundIds(r.acls)
    ensures var after := SyncAcls(r, topic, specs, userName, false).remote;
            && SoundIds(after.acls)
            && (forall t :: t != topic ==> OfTopic(after.acls, t) == OfTopic(r.acls, t))
            && match Wanted(topic, specs, userName)
               case Err(_) => after.acls == r.acls
               case Ok(w) => Kept(OfTopic(after.acls, topic), OfTopic(r.acls, topic), w)
                             && FromEither(OfTopic(after.acls, topic), OfTopic(r.acls, topic), w)
  {
    var sys := System(r.acls, [Idle]);
    var schedule, run := SyncFollows(r, sys, [topic], 0, specs, userName);
    InterleavingKeepsInvariant(sys, [topic], schedule);
    var end := Execute(sys, [topic], schedule);
    assert end.runs[0] == run;
    assert RunInv(OfTopic(end.acls, topic), topic, run);
  }

  /** All users of the spec have names, and the topic grants each the access that the spec gives it and nothing else. */
  ghost predicate Exact(acls: seq<Acl>, topic: string, specs: seq<TopicACL>,
                        userName: TopicACL -> Result<string, Error>)
  {
    && (forall s :: s in specs ==> userName(s).Ok?)
    && Grants(OfTopic(acls, topic))
       == set s | s in specs && userName(s).Ok? :: Grant(s.access, topic, userName(s).value)
  }

  lemma ExactIff(acls: seq<Acl>, topic: string, specs: seq<TopicACL>, userName: TopicACL -> Result<string, Error>)
    ensures Exact(acls, topic, specs, userName)
            <==> Wanted(topic, specs, userName).Ok?
                 && Grants(OfTopic(acls, topic)) == Grants(Wanted(topic, specs, userName).value)
  {
    WantedMeans(topic, specs, userName);
    if Wanted(topic, specs, userName).Ok? {
      WantedGrants(topic, specs, userName);
    }
    hide Wanted, OfTopic, Grants;
    assert AllNamed(specs, userName) <==> forall s :: s in specs ==> userName(s).Ok?;
  }

  /** A call of Synchronize that succeeds leaves exactly the grants that the spec asks for. */
  lemma SyncIsExact(r: Remote, topic: string, specs: seq<TopicACL>, userName: TopicACL -> Result<string, Error>)
    requires SoundIds(r.acls)
    requires SyncAcls(r, topic, specs, userName, false).answer.None?
    ensures Exact(SyncAcls(r, topic, specs, userName, false).remote.acls, topic, specs, userName)
    ensures Wanted(topic, specs, userName).Ok?
    ensures Grants(OfTopic(SyncAcls(r, topic, specs, userName, false).remote.acls, topic))
            == Grants(Wanted(topic, specs, userName).value)
  {
    var sys := System(r.acls, [Idle]);
    var schedule, run := SyncFollows(r, sys, [topic], 0, specs, userName);
    InterleavingKeepsInvariant(sys, [topic], schedule);
    assert Execute(sys, [topic], schedule).runs[0] == run;
    FinishedIsExact(Execute(sys, [topic], schedule), [topic], 0);
    ExactIff(SyncAcls(r, topic, specs, userName, false).remote.acls, topic, specs, userName);
    hide Exact, SyncAcls, Grants, OfTopic;
  }

  /**
    Wherever a call stopped, a later one that succeeds, be it for another spec, leaves exactly the grants
    it wants, and all other topics as they were before the first.
  */
  lemma RetryIsExact(r: Remote, topic: string, specs: seq<TopicACL>, again: Remote, edited: seq<TopicACL>,
                     userName: TopicACL -> Result<string, Error>)
    requires SoundIds(r.acls) && again.acls == SyncAcls(r, topic, specs, userName, false).remote.acls
    ensures var retried := SyncAcls(again, topic, edited, userName, false);
            retried.answer.None? ==>
              && Exact(retried.remote.acls, topic, edited, userName)
              && forall t :: t != topic ==> OfTopic(retried.remote.acls, t) == OfTopic(r.acls, t)
  {
    SyncIsSafe(r, topic, specs, userName);
    hide SyncAcls, OfTopic, SoundIds, Exact;
    if SyncAcls(again, topic, edited, userName, false).answer.None? {
      SyncStep(again, topic, edited, userName);
    }
  }

  /** A second call after a successful one, with the same spec, writes nothing. */
  lemma SecondSyncIsQuiet(r: Remote, topic: string, specs: seq<TopicACL>, userName: TopicACL -> Result<string, Error>,
                          dryRun: bool)
    requires Wanted(topic, specs, userName).Ok?
    requires Grants(OfTopic(r.acls, topic)) == Grants(Wanted(topic, specs, userName).value)
    ensures SyncAcls(r, topic, specs, userName, dryRun).remote == ListAcls(r).remote
  {
    var view, w := OfTopic(r.acls, topic), Wanted(topic, specs, userName).value;
    forall a | a in view
      ensures GrantOf(a) in Grants(w)
    {
      assert GrantOf(a) in Grants(view);
    }
    forall x | x in w
      ensures GrantOf(x) in Grants(view)
    {
      assert GrantOf(x) in Grants(w);
    }
    forall g
      ensures Has(view, g) <==> Has(w, g)
    {
      HasGrants(view, g);
      HasGrants(w, g);
    }
    FilterNone(w, UnmatchedBy(view));
    FilterNone(view, UnmatchedBy(w));
  }

  /** The managers of `topics`, run to the end one after another; false once one of them has failed. */
  function InTurn(r: Remote, topics: seq<string>, specs: seq<seq<TopicACL>>,
                  userName: TopicACL -> Result<string, Error>): Reply<bool>
    requires |topics| == |specs|
  {
    if topics == [] then Reply(true, r)
    else
      var n := |topics| - 1;
      var before := InTurn(r, topics[..n], specs[..n], userName);
      if !before.answer then before
      else
        var last := SyncAcls(before.remote, topics[n], specs[n], userName, false);
        Reply(last.answer.None?, last.remote)
  }

  lemma SyncStep(r: Remote, topic: string, specs: seq<TopicACL>, userName: TopicACL -> Result<string, Error>)
    requires SoundIds(r.acls) && SyncAcls(r, topic, specs, userName, false).answer.None?
    ensures var after := SyncAcls(r, topic, specs, userName, false).remote;
            && SoundIds(after.acls)
            && (forall t :: t != topic ==> OfTopic(after.acls, t) == OfTopic(r.acls, t))
            && Exact(after.acls, topic, specs, userName)
  {
    SyncIsSafe(r, topic, specs, userName);
    SyncIsExact(r, topic, specs, userName);
  }

  lemma {:induction false} InTurnIsExact(r: Remote, topics: seq<string>, specs: seq<seq<TopicACL>>,
                                         userName: TopicACL -> Result<string, Error>)
    requires |topics| == |specs| && SoundIds(r.acls)
    requires forall i, j :: 0 <= i < j < |topics| ==> topics[i] != topics[j]
    requires InTurn(r, topics, specs, userName).answer
    ensures var after := InTurn(r, topics, specs, userName).remote.acls;
            && SoundIds(after)
            && (forall t :: t !in topics ==> OfTopic(after, t) == OfTopic(r.acls, t))
            && forall i :: 0 <= i < |topics| ==> Exact(after, topics[i], specs[i], userName)
    decreases |topics|
  {
    if topics != [] {
      hide SoundIds, SyncAcls;
      var n := |topics| - 1;
      var front, frontSpecs := topics[..n], specs[..n];
      var before := InTurn(r, front, frontSpecs, userName).remote;
      InTurnIsExact(r, front, frontSpecs, userName);
      SyncStep(before, topics[n], specs[n], userName);
      var after := InTurn(r, topics, specs, userName).remote.acls;
      forall i | 0 <= i < n
        ensures Exact(after, topics[i], specs[i], userName)
      {
        assert front[i] == topics[i] && frontSpecs[i] == specs[i];
        assert Exact(before.acls, front[i], frontSpecs[i], userName);
      }
      forall t | t !in topics
        ensures OfTopic(after, t) == OfTopic(r.acls, t)
      {
        assert t != topics[n] && t !in front;
      }
    }
  }

  /**
    Managers of different topics do not interfere: if every manager finishes, any interleaving, each call
    made from a stale snapshot, grants on every topic what running the managers one after another grants.
  */
  lemma InterleavedLikeInTurn(r: Remote, sys: System, topics: seq<string>, specs: seq<seq<TopicACL>>,
                              userName: TopicACL -> Result<string, Error>, schedule: seq<Event>, topic: string)
    requires |topics| == |specs| && Inv(sys, topics) && sys.acls == r.acls
    requires InTurn(r, topics, specs, userName).answer
    requires ValidSchedule(sys, topics, schedule)
    requires var end := Execute(sys, topics, schedule);
             |end.runs| == |topics| &&
             forall i :: 0 <= i < |topics| ==>
               end.runs[i].Finished? && Ok(end.runs[i].wanted) == Wanted(topics[i], specs[i], userName)
    ensures Grants(OfTopic(Execute(sys, topics, schedule).acls, topic))
            == Grants(OfTopic(InTurn(r, topics, specs, userName).remote.acls, topic))
  {
    InTurnIsExact(r, topics, specs, userName);
    InterleavingKeepsInvariant(sys, topics, schedule);
    if topic in topics {
      var i :| 0 <= i < |topics| && topics[i] == topic;
      ExactIff(InTurn(r, topics, specs, userName).remote.acls, topic, specs[i], userName);
      FinishedIsExact(Execute(sys, topics, schedule), topics, i);
    }
  }

  /**
    When the k-th of the n deletions is the first to fail, exactly n - k + 1 entries are still to delete,
    or n - k if the failed call took effect all the same.
  */
  lemma {:induction false} DeletionFailsAt(r: Remote, topic: string, w: seq<Acl>, dels: seq<Acl>, k: nat)
    requires SoundIds(r.acls)
    requires Surplus(OfTopic(r.acls, topic), w) == dels && Satisfied(OfTopic(r.acls, topic), w)
    requires 1 <= k <= |dels| && k <= |r.outcomes| && r.outcomes[k - 1].Failure?
    requires forall j :: 0 <= j < k - 1 ==> r.outcomes[j].Success?
    ensures var res := DeleteAll(r, dels, false);
            && res.answer == Some(r.outcomes[k - 1].error)
            && Surplus(OfTopic(res.remote.acls, topic), w) == dels[if r.outcomes[k - 1].applied then k else k - 1..]
            && Satisfied(OfTopic(res.remote.acls, topic), w)
    decreases k
  {
    hide Satisfied;
    var view := OfTopic(r.acls, topic);
    var deleted := DeleteAcl(r, dels[0].id);
    SurplusIsThere(r.acls, topic, w);
    SoundAfterFilter(r.acls, OnTopic(topic));
    DeleteOnView(r.acls, dels[0], topic);
    DeleteKeepsDeleting(view, view, w, dels);
    if k > 1 {
      SoundAfterFilter(r.acls, NotId(dels[0].id));
      DeletionFailsAt(deleted.remote, topic, w, dels[1..], k - 1);
    }
  }

  lemma SurplusIsThere(acls: seq<Acl>, topic: string, w: seq<Acl>)
    requires SoundIds(acls)
    ensures forall a :: a in Surplus(OfTopic(acls, topic), w) ==> a in acls && a.topic == topic && a.id != ""
  {
    FilterMembers(acls, OnTopic(topic));
    FilterMembers(OfTopic(acls, topic), UnmatchedBy(w));
  }
}
