/** How far interleaved ACL managers are from being finished, and that they get there. */
module AclProgress {
  import opened Basics
  import opened Errors
  import opened AclModel
  import opened AivenService
  import opened AclInterleaving
  import opened AclRuns
  import opened AclOutcomes
  import AclManager

  /** The calls that a manager has still to make. */
  function Remaining(run: Run): nat {
    match run
    case Adding(s, w, todo) => |todo| + |Surplus(s, w)|
    case Deleting(_, _, todo) => |todo|
    case _ => 0
  }

  /** How many calls of manager `i` are in the schedule. */
  function WritesBy(schedule: seq<Event>, i: nat): nat {
    if schedule == [] then 0
    else (if schedule[0].Write? && schedule[0].who == i then 1 else 0) + WritesBy(schedule[1..], i)
  }

  /** Manager `i` does not start over, and none of its calls fails. */
  predicate Smooth(schedule: seq<Event>, i: nat) {
    forall k :: 0 <= k < |schedule| && schedule[k].who == i ==> schedule[k].Write? && schedule[k].outcome.Success?
  }

  predicate OnItsWay(run: Run) {
    Pending(run) || run.Finished?
  }

  lemma StartedRemaining(view: seq<Acl>, wanted: seq<Acl>)
    ensures var run := Started(view, wanted);
            && OnItsWay(run) && run.wanted == wanted
            && Remaining(run) == Distance(view, wanted)
  {
    hide Missing, Surplus;
  }

  /** A call of the manager brings it one call closer; a call of another one makes no difference to it. */
  lemma StepRemaining(sys: System, topics: seq<string>, e: Event, i: nat)
    requires Inv(sys, topics) && ValidEvent(sys, topics, e) && i < |topics| && OnItsWay(sys.runs[i])
    requires e.who == i ==> e.Write? && e.outcome.Success?
    ensures var run, next := sys.runs[i], Step(sys, topics, e).runs[i];
            && OnItsWay(next) && next.wanted == run.wanted
            && (if e.who == i && Pending(run) then Remaining(next) == Remaining(run) - 1 else next == run)
  {
    PendingIsOwn(sys.acls, topics[i], sys.runs[i]);
    assert RunInv(OfTopic(sys.acls, topics[i]), topics[i], sys.runs[i]);
    hide Missing, Surplus, SoundIds, Kept, FromEither, AddingInv, DeletingInv, OfTopic;
  }

  lemma FinishedIff(sys: System, topics: seq<string>, i: nat)
    requires Inv(sys, topics) && i < |topics| && OnItsWay(sys.runs[i])
    ensures sys.runs[i].Finished? <==> Remaining(sys.runs[i]) == 0
  {
    PendingIsOwn(sys.acls, topics[i], sys.runs[i]);
  }

  /**
    Without failures a manager makes exactly the calls that its snapshot calls for, and is finished after the
    last of them and no sooner, whatever the others do, and with duplicates in its spec as well.
  */
  lemma {:induction false} FinishesIff(sys: System, topics: seq<string>, schedule: seq<Event>, i: nat)
    requires Inv(sys, topics) && ValidSchedule(sys, topics, schedule)
    requires i < |topics| && OnItsWay(sys.runs[i]) && Smooth(schedule, i)
    ensures var run, end := sys.runs[i], Execute(sys, topics, schedule);
            && |end.runs| == |topics|
            && OnItsWay(end.runs[i]) && end.runs[i].wanted == run.wanted
            && (end.runs[i].Finished? <==> WritesBy(schedule, i) >= Remaining(run))
            && (WritesBy(schedule, i) <= Remaining(run) ==>
                  Remaining(end.runs[i]) == Remaining(run) - WritesBy(schedule, i))
    decreases |schedule|
  {
    hide RunInv, Inv, Step, Pending, OnItsWay;
    FinishedIff(sys, topics, i);
    FewRuns(sys, topics);
    if schedule != [] {
      var e, next := schedule[0], Step(sys, topics, schedule[0]);
      assert schedule[0].who == i ==> schedule[0].Write? && schedule[0].outcome.Success?;
      assert Smooth(schedule[1..], i) by {
        forall k | 0 <= k < |schedule[1..]|
          ensures schedule[1..][k] == schedule[k + 1]
        {}
      }
      StepKeepsInvariant(sys, topics, e);
      StepRemaining(sys, topics, e, i);
      PendingRemaining(sys.runs[i]);
      FinishesIff(next, topics, schedule[1..], i);
    }
  }

  lemma FewRuns(sys: System, topics: seq<string>)
    requires Inv(sys, topics)
    ensures |sys.runs| == |topics|
  {
  }

  lemma PendingRemaining(run: Run)
    requires OnItsWay(run)
    ensures run.Finished? <==> !Pending(run)
  {
  }

  // ----- With enough turns for everybody -----

  /** Every manager has listed, and gets to make the calls that the listing calls for. */
  ghost predicate EnoughTurns(sys: System, topics: seq<string>, plan: seq<seq<Acl>>, schedule: seq<Event>) {
    && |topics| == |plan| == |sys.runs|
    && forall i :: 0 <= i < |topics| ==>
         && sys.runs[i] == Started(OfTopic(sys.acls, topics[i]), plan[i])
         && Smooth(schedule, i)
         && WritesBy(schedule, i) >= Distance(OfTopic(sys.acls, topics[i]), plan[i])
  }

  lemma EnoughTurnsFinish(sys: System, topics: seq<string>, plan: seq<seq<Acl>>, schedule: seq<Event>)
    requires Inv(sys, topics) && ValidSchedule(sys, topics, schedule) && EnoughTurns(sys, topics, plan, schedule)
    ensures AllFinished(Execute(sys, topics, schedule), plan)
  {
    var end := Execute(sys, topics, schedule);
    InterleavingKeepsInvariant(sys, topics, schedule);
    FewRuns(end, topics);
    hide Inv, ValidSchedule, Execute, Smooth, WritesBy, Started, Remaining, Distance;
    forall i | 0 <= i < |plan|
      ensures end.runs[i].Finished? && end.runs[i].wanted == plan[i]
    {
      StartedRemaining(OfTopic(sys.acls, topics[i]), plan[i]);
      FinishesIff(sys, topics, schedule, i);
    }
  }

  lemma {:induction false} InTurnSucceeds(r: Remote, topics: seq<string>, specs: seq<seq<TopicACL>>,
                                          userName: TopicACL -> Result<string, Error>)
    requires |topics| == |specs| && SoundIds(r.acls) && AllSucceed(r) && AllAnswered(r)
    requires forall i :: 0 <= i < |topics| ==> Wanted(topics[i], specs[i], userName).Ok?
    ensures var res := InTurn(r, topics, specs, userName);
            res.answer && SoundIds(res.remote.acls) && AllSucceed(res.remote) && AllAnswered(res.remote)
    decreases |topics|
  {
    if topics != [] {
      hide SoundIds, AllSucceed, AllAnswered, Wanted;
      var n := |topics| - 1;
      InTurnSucceeds(r, topics[..n], specs[..n], userName);
      var before := InTurn(r, topics[..n], specs[..n], userName).remote;
      SyncSucceeds(before, topics[n], specs[n], userName);
      hide AclManager.SyncAcls;
    }
  }

  /**
    Managers that have all listed, none of whose calls fails, and that all get their turns grant on every topic
    what they grant when run one after another.
  */
  lemma EnoughTurnsLikeInTurn(r: Remote, sys: System, topics: seq<string>, specs: seq<seq<TopicACL>>,
                              userName: TopicACL -> Result<string, Error>, plan: seq<seq<Acl>>,
                              schedule: seq<Event>, topic: string)
    requires |topics| == |specs| == |plan| && Inv(sys, topics) && sys.acls == r.acls
    requires AllSucceed(r) && AllAnswered(r)
    requires forall i :: 0 <= i < |topics| ==> Wanted(topics[i], specs[i], userName) == Ok(plan[i])
    requires ValidSchedule(sys, topics, schedule) && EnoughTurns(sys, topics, plan, schedule)
    ensures Grants(OfTopic(Execute(sys, topics, schedule).acls, topic))
            == Grants(OfTopic(InTurn(r, topics, specs, userName).remote.acls, topic))
  {
    InTurnSucceeds(r, topics, specs, userName);
    EnoughTurnsFinish(sys, topics, plan, schedule);
    InterleavingKeepsInvariant(sys, topics, schedule);
    FewRuns(Execute(sys, topics, schedule), topics);
    hide Inv, SoundIds, Wanted, InTurn, Execute, OfTopic, EnoughTurns;
    InterleavedLikeInTurn(r, sys, topics, specs, userName, schedule, topic);
  }
}
