/**
  Several ACL managers at work on one service, one topic each. A manager lists once and then issues its
  creations and deletions one at a time from that snapshot; the calls of all managers interleave in any
  order, any call can fail, and a manager can start over at any point, with an edited spec if need be.
*/
module AclInterleaving {
  import opened Basics
  import opened Errors
  import opened AclModel
  import opened AivenService

  /** Where one manager is; `todo` holds the calls of the phase still to make. */
  datatype Run =
    | Idle
    | Adding(snapshot: seq<Acl>, wanted: seq<Acl>, todo: seq<Acl>)
    | Deleting(snapshot: seq<Acl>, wanted: seq<Acl>, todo: seq<Acl>)
    | Finished(snapshot: seq<Acl>, wanted: seq<Acl>)
    | Stopped(snapshot: seq<Acl>, wanted: seq<Acl>)

  /** The store, and the manager of each topic. */
  datatype System = System(acls: seq<Acl>, runs: seq<Run>)

  datatype Event =
    | List(who: nat, wanted: seq<Acl>)
    | ListFails(who: nat)
    | Write(who: nat, outcome: Outcome, id: string)

  function ToDelete(snapshot: seq<Acl>, wanted: seq<Acl>, todo: seq<Acl>): Run {
    if todo == [] then Finished(snapshot, wanted) else Deleting(snapshot, wanted, todo)
  }

  function ToAdd(snapshot: seq<Acl>, wanted: seq<Acl>, todo: seq<Acl>): Run {
    if todo == [] then ToDelete(snapshot, wanted, Surplus(snapshot, wanted)) else Adding(snapshot, wanted, todo)
  }

  function Started(view: seq<Acl>, wanted: seq<Acl>): Run {
    ToAdd(view, wanted, Missing(view, wanted))
  }

  /** The effect of the pending call, and the run after it if it is answered with success. */
  function Written(acls: seq<Acl>, run: Run, id: string): (seq<Acl>, Run) {
    match run
    case Adding(s, w, todo) =>
      if todo == [] then (acls, run) else (WithGrant(acls, id, GrantOf(todo[0])), ToAdd(s, w, todo[1..]))
    case Deleting(s, w, todo) =>
      if todo == [] then (acls, run) else (Without(acls, todo[0].id), ToDelete(s, w, todo[1..]))
    case _ => (acls, run)
  }

  predicate Pending(run: Run) {
    run.Adding? || run.Deleting?
  }

  function Step(sys: System, topics: seq<string>, e: Event): System
    requires |sys.runs| == |topics| && e.who < |topics|
  {
    match e
    case List(i, wanted) => sys.(runs := sys.runs[i := Started(OfTopic(sys.acls, topics[i]), wanted)])
    case ListFails(i) => sys.(runs := sys.runs[i := Idle])
    case Write(i, outcome, id) =>
      var run := sys.runs[i];
      var (acls, next) := Written(sys.acls, run, id);
      if !Pending(run) then sys
      else
        match outcome
        case Success => System(acls, sys.runs[i := next])
        case Failure(_, applied) =>
          System(if applied then acls else sys.acls, sys.runs[i := Stopped(run.snapshot, run.wanted)])
  }

  /** Specs name their own topic, and Aiven hands out unused IDs. */
  ghost predicate ValidEvent(sys: System, topics: seq<string>, e: Event) {
    && |sys.runs| == |topics| && e.who < |topics|
    && (e.List? ==> forall a :: a in e.wanted ==> a.topic == topics[e.who])
    && (e.Write? ==> UnusedId(sys.acls, e.id))
  }

  ghost predicate ValidSchedule(sys: System, topics: seq<string>, schedule: seq<Event>)
    decreases |schedule|
  {
    schedule == [] ||
    (ValidEvent(sys, topics, schedule[0]) && ValidSchedule(Step(sys, topics, schedule[0]), topics, schedule[1..]))
  }

  ghost function Execute(sys: System, topics: seq<string>, schedule: seq<Event>): System
    requires ValidSchedule(sys, topics, schedule)
    decreases |schedule|
  {
    if schedule == [] then sys else Execute(Step(sys, topics, schedule[0]), topics, schedule[1..])
  }

  // ----- The invariant -----

  /** Every wanted entry of the snapshot is still there, ID and all. */
  ghost predicate Kept(view: seq<Acl>, snapshot: seq<Acl>, wanted: seq<Acl>) {
    forall a :: a in snapshot && Has(wanted, GrantOf(a)) ==> a in view
  }

  /** Nothing is there but what was listed and what is wanted. */
  ghost predicate FromEither(view: seq<Acl>, snapshot: seq<Acl>, wanted: seq<Acl>) {
    forall a :: a in view ==> a in snapshot || Has(wanted, GrantOf(a))
  }

  ghost predicate Satisfied(view: seq<Acl>, wanted: seq<Acl>) {
    forall w :: w in wanted ==> Has(view, GrantOf(w))
  }

  ghost predicate AddingInv(view: seq<Acl>, s: seq<Acl>, w: seq<Acl>, todo: seq<Acl>) {
    && s <= view
    && (forall a :: a in view[|s|..] ==> Has(w, GrantOf(a)))
    && (forall x :: x in w ==> Has(view, GrantOf(x)) || x in todo)
    && (forall x :: x in todo ==> x in w)
    && (DistinctBy(w, GrantOf) ==> todo == Missing(view, w))
  }

  ghost predicate DeletingInv(view: seq<Acl>, s: seq<Acl>, w: seq<Acl>, todo: seq<Acl>) {
    && Surplus(view, w) == todo
    && Satisfied(view, w)
  }

  /** What holds of the entries of a manager's topic, whichever call comes next. */
  ghost predicate RunInv(view: seq<Acl>, topic: string, run: Run) {
    run.Idle? ||
    (&& (forall a :: a in run.wanted ==> a.topic == topic)
     && Kept(view, run.snapshot, run.wanted)
     && FromEither(view, run.snapshot, run.wanted)
     && match run
        case Adding(s, w, todo) => todo != [] && AddingInv(view, s, w, todo)
        case Deleting(s, w, todo) => todo != [] && DeletingInv(view, s, w, todo)
        case Finished(s, w) => DeletingInv(view, s, w, [])
        case Stopped(_, _) => true)
  }

  ghost predicate Inv(sys: System, topics: seq<string>) {
    && |sys.runs| == |topics|
    && (forall i, j :: 0 <= i < j < |topics| ==> topics[i] != topics[j])
    && SoundIds(sys.acls)
    && forall i :: 0 <= i < |topics| ==> RunInv(OfTopic(sys.acls, topics[i]), topics[i], sys.runs[i])
  }

  // ----- One call's effect on the entries of each topic -----

  lemma CreateOnView(acls: seq<Acl>, id: string, g: Grant, topic: string)
    ensures OfTopic(WithGrant(acls, id, g), topic)
            == if g.topic == topic then WithGrant(OfTopic(acls, topic), id, g) else OfTopic(acls, topic)
  {
    FilterSnoc(acls, Acl(id, g.permission, g.topic, g.username), OnTopic(topic));
  }

  lemma DeleteOnView(acls: seq<Acl>, a: Acl, topic: string)
    requires SoundIds(acls) && a in acls
    ensures OfTopic(Without(acls, a.id), topic)
            == if a.topic == topic then Without(OfTopic(acls, topic), a.id) else OfTopic(acls, topic)
  {
    FilterCommutes(acls, NotId(a.id), OnTopic(topic));
    if a.topic != topic {
      FilterMembers(acls, OnTopic(topic));
      forall b | b in OfTopic(acls, topic)
        ensures b.id != a.id
      {
        if b.id == a.id {
          DistinctSame(acls, IdOf, a, b);
        }
      }
      FilterAll(OfTopic(acls, topic), NotId(a.id));
    }
  }

  lemma SoundAfterCreate(acls: seq<Acl>, id: string, g: Grant)
    requires SoundIds(acls) && UnusedId(acls, id)
    ensures SoundIds(WithGrant(acls, id, g))
  {
  }

  lemma SoundAfterFilter(acls: seq<Acl>, keep: Acl -> bool)
    requires SoundIds(acls)
    ensures SoundIds(Filter(acls, keep))
  {
    FilterDistinct(acls, keep, IdOf);
  }

  // ----- Each phase keeps the invariant -----

  lemma StartKeeps(view: seq<Acl>, topic: string, wanted: seq<Acl>)
    requires forall a :: a in wanted ==> a.topic == topic
    ensures RunInv(view, topic, Started(view, wanted))
  {
    var todo := Missing(view, wanted);
    FilterMembers(wanted, UnmatchedBy(view));
    assert AddingInv(view, view, wanted, todo);
    if todo == [] {
      AddedAll(view, view, wanted);
    }
  }

  lemma AddedAll(view: seq<Acl>, s: seq<Acl>, w: seq<Acl>)
    requires AddingInv(view, s, w, [])
    ensures DeletingInv(view, s, w, Surplus(s, w))
  {
    assert view == s + view[|s|..];
    FilterAppend(s, view[|s|..], UnmatchedBy(w));
    FilterNone(view[|s|..], UnmatchedBy(w));
  }

  /** After a successful creation the same run is missing one entry fewer. */
  lemma MissingAfterCreate(view: seq<Acl>, w: seq<Acl>, id: string, x: Acl)
    requires DistinctBy(w, GrantOf)
    requires Missing(view, w) != [] && Missing(view, w)[0] == x
    ensures Missing(WithGrant(view, id, GrantOf(x)), w) == Missing(view, w)[1..]
  {
    var todo := Missing(view, w);
    var next := WithGrant(view, id, GrantOf(x));
    assert next[|view|] in next && GrantOf(next[|view|]) == GrantOf(x);
    FilterDistinct(w, UnmatchedBy(view), GrantOf);
    var other := (a: Acl) => GrantOf(a) != GrantOf(x);
    forall a | a in w
      ensures UnmatchedBy(next)(a) <==> UnmatchedBy(view)(a) && other(a)
    {
      if Has(view, GrantOf(a)) {
        var b :| b in view && GrantOf(b) == GrantOf(a);
        assert b in next;
      }
    }
    FilterBoth(w, UnmatchedBy(view), other, UnmatchedBy(next));
    FilterFirst(todo, other, GrantOf);
  }

  lemma HasAfterCreate(view: seq<Acl>, id: string, g: Grant, h: Grant)
    ensures Has(WithGrant(view, id, g), h) <==> Has(view, h) || h == g
  {
    var next := WithGrant(view, id, g);
    assert next[|view|] in next && GrantOf(next[|view|]) == g;
    if Has(view, h) {
      var b :| b in view && GrantOf(b) == h;
      assert b in next;
    }
  }

  lemma AddKeepsAdding(view: seq<Acl>, s: seq<Acl>, w: seq<Acl>, todo: seq<Acl>, id: string)
    requires todo != [] && AddingInv(view, s, w, todo)
    ensures AddingInv(WithGrant(view, id, GrantOf(todo[0])), s, w, todo[1..])
  {
    var g := GrantOf(todo[0]);
    var next := WithGrant(view, id, g);
    assert Has(w, g) by {
      assert todo[0] in w;
    }
    assert next[|s|..] == view[|s|..] + [next[|view|]];
    forall x | x in w
      ensures Has(next, GrantOf(x)) || x in todo[1..]
    {
      HasAfterCreate(view, id, g, GrantOf(x));
    }
    if DistinctBy(w, GrantOf) {
      MissingAfterCreate(view, w, id, todo[0]);
    }
  }

  lemma AddKeeps(view: seq<Acl>, topic: string, run: Run, id: string)
    requires RunInv(view, topic, run) && run.Adding?
    ensures var next := WithGrant(view, id, GrantOf(run.todo[0]));
            && RunInv(next, topic, ToAdd(run.snapshot, run.wanted, run.todo[1..]))
            && RunInv(next, topic, Stopped(run.snapshot, run.wanted))
  {
    var Adding(s, w, todo) := run;
    hide Has;
    var next := WithGrant(view, id, GrantOf(todo[0]));
    AddKeepsAdding(view, s, w, todo, id);
    assert FromEither(next, s, w) by {
      assert next == s + next[|s|..];
    }
    if todo[1..] == [] {
      AddedAll(next, s, w);
    }
  }

  /** The pending call is about the manager's own topic; a pending deletion is of an entry that is there. */
  lemma PendingIsOwn(acls: seq<Acl>, topic: string, run: Run)
    requires RunInv(OfTopic(acls, topic), topic, run)
    ensures run.Adding? ==> run.todo != [] && run.todo[0].topic == topic
    ensures run.Deleting? ==> run.todo != [] && run.todo[0] in acls && run.todo[0].topic == topic
  {
    if run.Adding? {
      assert run.todo[0] in run.wanted;
    } else if run.Deleting? {
      FilterMembers(acls, OnTopic(topic));
      FilterMembers(OfTopic(acls, topic), UnmatchedBy(run.wanted));
      assert run.todo[0] in Surplus(OfTopic(acls, topic), run.wanted);
    }
  }

  lemma DeleteKeepsDeleting(view: seq<Acl>, s: seq<Acl>, w: seq<Acl>, todo: seq<Acl>)
    requires SoundIds(view) && todo != [] && DeletingInv(view, s, w, todo)
    ensures DeletingInv(Without(view, todo[0].id), s, w, todo[1..])
    ensures forall a :: a in view && Has(w, GrantOf(a)) ==> a in Without(view, todo[0].id)
  {
    var first := todo[0];
    var next := Without(view, first.id);
    FilterMembers(view, UnmatchedBy(w));
    assert first in Surplus(view, w);
    FilterMembers(view, NotId(first.id));
    forall a | a in view && Has(w, GrantOf(a))
      ensures a in next
    {
      if a.id == first.id {
        DistinctSame(view, IdOf, a, first);
      }
    }
    forall x | x in w
      ensures Has(next, GrantOf(x))
    {
      var a :| a in view && GrantOf(a) == GrantOf(x);
      assert Has(w, GrantOf(a));
    }
    FilterCommutes(view, NotId(first.id), UnmatchedBy(w));
    FilterDistinct(view, UnmatchedBy(w), IdOf);
    FilterFirst(todo, NotId(first.id), IdOf);
  }

  lemma DeleteKeeps(view: seq<Acl>, topic: string, run: Run)
    requires SoundIds(view) && RunInv(view, topic, run) && run.Deleting?
    ensures var next := Without(view, run.todo[0].id);
            && RunInv(next, topic, ToDelete(run.snapshot, run.wanted, run.todo[1..]))
            && RunInv(next, topic, Stopped(run.snapshot, run.wanted))
  {
    var Deleting(s, w, todo) := run;
    hide Has;
    DeleteKeepsDeleting(view, s, w, todo);
    FilterMembers(view, NotId(todo[0].id));
    if todo[1..] == [] {
      assert DeletingInv(Without(view, todo[0].id), s, w, []);
    }
  }

  lemma StoppedKeeps(view: seq<Acl>, topic: string, run: Run)
    requires RunInv(view, topic, run)
    ensures RunInv(view, topic, Idle)
    ensures !run.Idle? ==> RunInv(view, topic, Stopped(run.snapshot, run.wanted))
  {
  }

  /** No call of one manager shows in the entries of any other topic. */
  lemma WriteElsewhere(sys: System, topics: seq<string>, e: Event, topic: string)
    requires Inv(sys, topics) && ValidEvent(sys, topics, e)
    requires topic != topics[e.who]
    ensures OfTopic(Step(sys, topics, e).acls, topic) == OfTopic(sys.acls, topic)
  {
    hide RunInv;
    var run := sys.runs[e.who];
    PendingIsOwn(sys.acls, topics[e.who], run);
    if e.Write? && run.Adding? {
      CreateOnView(sys.acls, e.id, GrantOf(run.todo[0]), topic);
    } else if e.Write? && run.Deleting? {
      DeleteOnView(sys.acls, run.todo[0], topic);
    }
  }

  lemma WrittenKeeps(acls: seq<Acl>, topic: string, run: Run, id: string)
    requires SoundIds(acls) && UnusedId(acls, id)
    requires RunInv(OfTopic(acls, topic), topic, run) && Pending(run)
    ensures var (after, next) := Written(acls, run, id);
            && SoundIds(after)
            && RunInv(OfTopic(after, topic), topic, next)
            && RunInv(OfTopic(after, topic), topic, Stopped(run.snapshot, run.wanted))
  {
    hide SoundIds, Kept, FromEither, AddingInv, DeletingInv;
    PendingIsOwn(acls, topic, run);
    if run.Adding? {
      CreateOnView(acls, id, GrantOf(run.todo[0]), topic);
      SoundAfterCreate(acls, id, GrantOf(run.todo[0]));
      AddKeeps(OfTopic(acls, topic), topic, run, id);
    } else {
      SoundAfterFilter(acls, OnTopic(topic));
      SoundAfterFilter(acls, NotId(run.todo[0].id));
      DeleteKeeps(OfTopic(acls, topic), topic, run);
      DeleteOnView(acls, run.todo[0], topic);
    }
  }

  lemma StepKeepsOwn(sys: System, topics: seq<string>, e: Event)
    requires Inv(sys, topics) && ValidEvent(sys, topics, e)
    ensures var next := Step(sys, topics, e);
            && SoundIds(next.acls)
            && RunInv(OfTopic(next.acls, topics[e.who]), topics[e.who], next.runs[e.who])
  {
    hide RunInv, Written, SoundIds;
    var topic, run := topics[e.who], sys.runs[e.who];
    StoppedKeeps(OfTopic(sys.acls, topic), topic, run);
    if e.List? {
      StartKeeps(OfTopic(sys.acls, topic), topic, e.wanted);
    } else if e.Write? && Pending(run) {
      WrittenKeeps(sys.acls, topic, run, e.id);
    }
  }

  lemma StepKeepsInvariant(sys: System, topics: seq<string>, e: Event)
    requires Inv(sys, topics) && ValidEvent(sys, topics, e)
    ensures Inv(Step(sys, topics, e), topics)
  {
    hide RunInv, Written, SoundIds;
    var next := Step(sys, topics, e);
    StepKeepsOwn(sys, topics, e);
    forall i | 0 <= i < |topics|
      ensures RunInv(OfTopic(next.acls, topics[i]), topics[i], next.runs[i])
    {
      if i != e.who {
        WriteElsewhere(sys, topics, e, topics[i]);
      }
    }
  }

  // ----- Main results -----

  /** At every point of every interleaving, with any failures, each topic is in the state its manager accounts for. */
  lemma {:induction false} InterleavingKeepsInvariant(sys: System, topics: seq<string>, schedule: seq<Event>)
    requires Inv(sys, topics) && ValidSchedule(sys, topics, schedule)
    ensures Inv(Execute(sys, topics, schedule), topics)
    ensures forall t :: t !in topics ==>
              OfTopic(Execute(sys, topics, schedule).acls, t) == OfTopic(sys.acls, t)
    decreases |schedule|
  {
    if schedule != [] {
      var e, next := schedule[0], Step(sys, topics, schedule[0]);
      StepKeepsInvariant(sys, topics, e);
      InterleavingKeepsInvariant(next, topics, schedule[1..]);
      forall t | t !in topics
        ensures OfTopic(next.acls, t) == OfTopic(sys.acls, t)
      {
        WriteElsewhere(sys, topics, e, t);
      }
    }
  }

  /** A finished manager's topic has exactly the wanted grants. */
  lemma FinishedIsExact(sys: System, topics: seq<string>, i: nat)
    requires Inv(sys, topics) && i < |topics| && sys.runs[i].Finished?
    ensures Grants(OfTopic(sys.acls, topics[i])) == Grants(sys.runs[i].wanted)
  {
    var view, w := OfTopic(sys.acls, topics[i]), sys.runs[i].wanted;
    assert RunInv(view, topics[i], sys.runs[i]);
    UnmatchedMembers(view, w);
    forall a | a in view
      ensures GrantOf(a) in Grants(w)
    {
      assert a !in Surplus(view, w);
    }
    forall x | x in w
      ensures GrantOf(x) in Grants(view)
    {
      assert Has(view, GrantOf(x));
    }
  }

  ghost predicate AllFinished(sys: System, plan: seq<seq<Acl>>) {
    |sys.runs| == |plan| && forall i :: 0 <= i < |plan| ==> sys.runs[i].Finished? && sys.runs[i].wanted == plan[i]
  }

  /** Any two schedules after which every manager has finished with the same spec agree on every topic. */
  lemma SchedulesAgree(sys: System, topics: seq<string>, plan: seq<seq<Acl>>,
                       one: seq<Event>, two: seq<Event>, topic: string)
    requires Inv(sys, topics)
    requires ValidSchedule(sys, topics, one) && AllFinished(Execute(sys, topics, one), plan)
    requires ValidSchedule(sys, topics, two) && AllFinished(Execute(sys, topics, two), plan)
    ensures Grants(OfTopic(Execute(sys, topics, one).acls, topic))
            == Grants(OfTopic(Execute(sys, topics, two).acls, topic))
  {
    InterleavingKeepsInvariant(sys, topics, one);
    InterleavingKeepsInvariant(sys, topics, two);
    if topic in topics {
      var i :| 0 <= i < |topics| && topics[i] == topic;
      FinishedIsExact(Execute(sys, topics, one), topics, i);
      FinishedIsExact(Execute(sys, topics, two), topics, i);
    }
  }

  // ----- Progress -----

  /** Wanted positions nothing satisfies, and entries nothing wants. */
  function Distance(view: seq<Acl>, wanted: seq<Acl>): nat {
    |Missing(view, wanted)| + |Surplus(view, wanted)|
  }

  lemma AddApproaches(view: seq<Acl>, s: seq<Acl>, w: seq<Acl>, todo: seq<Acl>, id: string)
    requires todo != [] && AddingInv(view, s, w, todo)
    ensures var next := WithGrant(view, id, GrantOf(todo[0]));
            && Distance(next, w) <= Distance(view, w)
            && (DistinctBy(w, GrantOf) ==> Distance(next, w) == Distance(view, w) - 1)
  {
    var g := GrantOf(todo[0]);
    var next := WithGrant(view, id, g);
    assert todo[0] in w;
    FilterSnoc(view, Acl(id, g.permission, g.topic, g.username), UnmatchedBy(w));
    forall x | x in w && UnmatchedBy(next)(x)
      ensures UnmatchedBy(view)(x)
    {
      HasAfterCreate(view, id, g, GrantOf(x));
    }
    FilterShrinks(w, UnmatchedBy(view), UnmatchedBy(next));
    if DistinctBy(w, GrantOf) {
      MissingAfterCreate(view, w, id, todo[0]);
    }
  }

  lemma DeleteApproaches(view: seq<Acl>, s: seq<Acl>, w: seq<Acl>, todo: seq<Acl>)
    requires SoundIds(view) && todo != [] && DeletingInv(view, s, w, todo)
    ensures Distance(Without(view, todo[0].id), w) == Distance(view, w) - 1
  {
    var next := Without(view, todo[0].id);
    DeleteKeepsDeleting(view, s, w, todo);
    FilterNone(w, UnmatchedBy(view));
    FilterNone(w, UnmatchedBy(next));
  }

  /**
    No call takes a topic further from its spec; one that takes effect brings it one closer if the spec has
    no duplicates.
  */
  lemma WriteApproaches(sys: System, topics: seq<string>, e: Event)
    requires Inv(sys, topics) && ValidEvent(sys, topics, e) && e.Write? && Pending(sys.runs[e.who])
    ensures var run, topic := sys.runs[e.who], topics[e.who];
            var before := Distance(OfTopic(sys.acls, topic), run.wanted);
            var after := Distance(OfTopic(Step(sys, topics, e).acls, topic), run.wanted);
            && after <= before
            && ((e.outcome.Success? || e.outcome.applied) && (run.Deleting? || DistinctBy(run.wanted, GrantOf))
                ==> after == before - 1)
  {
    var run, topic := sys.runs[e.who], topics[e.who];
    var view := OfTopic(sys.acls, topic);
    assert RunInv(view, topic, run);
    PendingIsOwn(sys.acls, topic, run);
    if run.Adding? {
      CreateOnView(sys.acls, e.id, GrantOf(run.todo[0]), topic);
      AddApproaches(view, run.snapshot, run.wanted, run.todo, e.id);
    } else {
      SoundAfterFilter(sys.acls, OnTopic(topic));
      DeleteOnView(sys.acls, run.todo[0], topic);
      DeleteApproaches(view, run.snapshot, run.wanted, run.todo);
    }
  }

  /** A manager that starts over on a topic it has finished, with the same spec, has no call to make. */
  lemma FinishedStaysFinished(sys: System, topics: seq<string>, e: Event)
    requires Inv(sys, topics) && ValidEvent(sys, topics, e) && e.List?
    requires sys.runs[e.who].Finished? && sys.runs[e.who].wanted == e.wanted
    ensures Step(sys, topics, e).acls == sys.acls && Step(sys, topics, e).runs[e.who].Finished?
  {
    var view := OfTopic(sys.acls, topics[e.who]);
    assert RunInv(view, topics[e.who], sys.runs[e.who]);
    FilterNone(e.wanted, UnmatchedBy(view));
  }
}
