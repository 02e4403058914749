/** Which calls one Synchronize makes, in which order, and which of them decides its answer. */
module AclCalls {
  import opened Basics
  import opened Errors
  import opened AclModel
  import opened AivenService
  import opened AclManager
  import opened AclOutcomes
  import opened AclRuns

  function Creations(acls: seq<Acl>): seq<Call> {
    seq(|acls|, (i: int) requires 0 <= i < |acls| =>
      CreateAclCall(Grant(acls[i].permission, acls[i].topic, acls[i].username)))
  }

  function Deletions(acls: seq<Acl>): seq<Call> {
    seq(|acls|, (i: int) requires 0 <= i < |acls| => DeleteAclCall(acls[i].id))
  }

  /** The answers left after `n` writes. */
  function Left(outcomes: seq<Outcome>, n: nat): seq<Outcome> {
    if n <= |outcomes| then outcomes[n..] else []
  }

  /** Of `n` writes all succeed, or all but the last, whose error is the answer. */
  predicate Decides(outcomes: seq<Outcome>, n: nat, answer: Option<Error>) {
    && (forall k :: 0 <= k < n && k < |outcomes| && outcomes[k].Failure? ==> k == n - 1 && answer.Some?)
    && (answer.Some? ==> 0 < n <= |outcomes| && outcomes[n - 1].Failure? && answer.value == outcomes[n - 1].error)
  }

  lemma DecidesOneMore(outcomes: seq<Outcome>, n: nat, answer: Option<Error>)
    requires outcomes == [] || outcomes[0].Success?
    requires Decides(Left(outcomes, 1), n, answer)
    ensures Decides(outcomes, n + 1, answer)
    ensures Left(Left(outcomes, 1), n) == Left(outcomes, n + 1)
  {
    var rest := Left(outcomes, 1);
    forall k | 0 <= k < n + 1 && k < |outcomes| && outcomes[k].Failure?
      ensures k == n && answer.Some?
    {
      assert k > 0 && rest[k - 1] == outcomes[k];
    }
  }

  lemma DecidesAtOnce(outcomes: seq<Outcome>)
    ensures Decides(outcomes, 0, None) && Left(outcomes, 0) == outcomes
    ensures outcomes != [] && outcomes[0].Failure? ==> Decides(outcomes, 1, Some(outcomes[0].error))
  {
  }

  lemma CallsFirst(acls: seq<Acl>, m: nat)
    requires m < |acls|
    ensures Creations(acls[..m + 1]) == [CreateAclCall(GrantOf(acls[0]))] + Creations(acls[1..][..m])
    ensures Deletions(acls[..m + 1]) == [DeleteAclCall(acls[0].id)] + Deletions(acls[1..][..m])
  {
  }

  lemma OneCreation(r: Remote, a: Acl)
    ensures var created := CreateAcl(r, GrantOf(a));
            && created.remote.log == r.log + [CreateAclCall(GrantOf(a))]
            && created.remote.outcomes == Left(r.outcomes, 1)
            && (created.answer.Some? ==> r.outcomes != [] && created.answer == Some(r.outcomes[0].error)
                                         && r.outcomes[0].Failure?)
            && (created.answer.None? ==> r.outcomes == [] || r.outcomes[0].Success?)
  {
    hide FreshId, WithGrant;
  }

  lemma {:induction false} AddCalls(r: Remote, adds: seq<Acl>) returns (n: nat)
    ensures var res := AddAll(r, adds, false);
            && n <= |adds| && res.remote.log == r.log + Creations(adds[..n])
            && Decides(r.outcomes, n, res.answer) && (res.answer.None? ==> n == |adds|)
            && res.remote.outcomes == Left(r.outcomes, n)
    decreases |adds|
  {
    hide CreateAcl, Creations, Deletions, Decides, Left;
    DecidesAtOnce(r.outcomes);
    n := 0;
    if adds != [] {
      var created := CreateAcl(r, GrantOf(adds[0]));
      OneCreation(r, adds[0]);
      CallsFirst(adds, 0);
      NoCalls(adds[1..][..0]);
      n := 1;
      if created.answer.None? {
        var m := AddCalls(created.remote, adds[1..]);
        n := m + 1;
        CallsFirst(adds, m);
        DecidesOneMore(r.outcomes, m, AddAll(created.remote, adds[1..], false).answer);
      }
    } else {
      NoCalls(adds[..0]);
    }
  }

  lemma NoCalls(acls: seq<Acl>)
    requires acls == []
    ensures Creations(acls) == [] && Deletions(acls) == []
  {
  }

  /** The entries that are to be deleted are there, once each, with their IDs. */
  ghost predicate Deletable(acls: seq<Acl>, dels: seq<Acl>) {
    DistinctBy(dels, IdOf) && forall a :: a in dels ==> a in acls && a.id != ""
  }

  lemma DeletableRest(acls: seq<Acl>, dels: seq<Acl>)
    requires Deletable(acls, dels) && dels != []
    ensures Deletable(Without(acls, dels[0].id), dels[1..])
  {
    FilterMembers(acls, NotId(dels[0].id));
    forall a | a in dels[1..]
      ensures a in Without(acls, dels[0].id) && a.id != ""
    {
      var j :| 0 <= j < |dels[1..]| && dels[1..][j] == a;
      assert dels[j + 1] == a && IdOf(dels[0]) != IdOf(dels[j + 1]);
    }
  }

  lemma OneDeletion(r: Remote, a: Acl)
    requires a in r.acls
    ensures var deleted := DeleteAcl(r, a.id);
            && deleted.remote.log == r.log + [DeleteAclCall(a.id)]
            && deleted.remote.outcomes == Left(r.outcomes, 1)
            && (deleted.answer.Some? ==> r.outcomes != [] && deleted.answer == Some(r.outcomes[0].error)
                                         && r.outcomes[0].Failure?)
            && (deleted.answer.None? ==> (r.outcomes == [] || r.outcomes[0].Success?)
                                         && deleted.remote.acls == Without(r.acls, a.id))
  {
    hide Without;
  }

  lemma {:induction false} DeleteCalls(r: Remote, dels: seq<Acl>) returns (n: nat)
    requires Deletable(r.acls, dels)
    ensures var res := DeleteAll(r, dels, false);
            && n <= |dels| && res.remote.log == r.log + Deletions(dels[..n])
            && Decides(r.outcomes, n, res.answer) && (res.answer.None? ==> n == |dels|)
    decreases |dels|
  {
    hide DeleteAcl, Creations, Deletions, Decides, Left, Without;
    DecidesAtOnce(r.outcomes);
    n := 0;
    if dels == [] {
      NoCalls(dels[..0]);
    } else {
      var deleted := DeleteAcl(r, dels[0].id);
      OneDeletion(r, dels[0]);
      CallsFirst(dels, 0);
      NoCalls(dels[1..][..0]);
      n := 1;
      if deleted.answer.None? {
        DeletableRest(r.acls, dels);
        var m := DeleteCalls(deleted.remote, dels[1..]);
        n := m + 1;
        CallsFirst(dels, m);
        DecidesOneMore(r.outcomes, m, DeleteAll(deleted.remote, dels[1..], false).answer);
      }
    }
  }

  /** A deletion without an ID is refused without a call. */
  lemma NoIdStops(r: Remote, dels: seq<Acl>, dryRun: bool)
    requires dels != [] && dels[0].id == ""
    ensures var res := DeleteAll(r, dels, dryRun); res.answer.Some? && res.remote == r
  {
  }

  /** If the listing fails or a user has no name, that is the answer, and nothing is written. */
  lemma NothingWritten(r: Remote, topic: string, specs: seq<TopicACL>, userName: TopicACL -> Result<string, Error>,
                       dryRun: bool)
    ensures var res := SyncAcls(r, topic, specs, userName, dryRun);
            && (ListAcls(r).answer.Err? ==> res.answer == Some(ListAcls(r).answer.error))
            && (ListAcls(r).answer.Ok? && !AllNamed(specs, userName) ==>
                  exists i :: 0 <= i < |specs| && userName(specs[i]).Err? && AllNamed(specs[..i], userName)
                              && res.answer == Some(userName(specs[i]).error))
            && (ListAcls(r).answer.Err? || !AllNamed(specs, userName) ==> res.remote == ListAcls(r).remote)
  {
    WantedMeans(topic, specs, userName);
    hide Wanted;
  }

  lemma DecidesBoth(outcomes: seq<Outcome>, a: nat, d: nat, answer: Option<Error>)
    requires Decides(outcomes, a, None) && Decides(Left(outcomes, a), d, answer)
    ensures Decides(outcomes, a + d, answer)
  {
    var rest := Left(outcomes, a);
    forall k | 0 <= k < a + d && k < |outcomes| && outcomes[k].Failure?
      ensures k == a + d - 1 && answer.Some?
    {
      assert k >= a && rest[k - a] == outcomes[k];
    }
  }

  /**
    The calls of one sync: creations of what is missing, in the spec's order, then deletions of the surplus, in the
    listing's. None is made after one that fails, and its error is the answer; so nothing is taken away before all
    that is missing has been granted.
  */
  lemma CallsInOrder(r: Remote, topic: string, specs: seq<TopicACL>, userName: TopicACL -> Result<string, Error>)
    returns (a: nat, d: nat)
    requires SoundIds(r.acls) && ListAcls(r).answer.Ok? && Wanted(topic, specs, userName).Ok?
    ensures var view, w := OfTopic(r.acls, topic), Wanted(topic, specs, userName).value;
            var res := SyncAcls(r, topic, specs, userName, false);
            && a <= |Missing(view, w)| && d <= |Surplus(view, w)|
            && res.remote.log == r.log + Creations(Missing(view, w)[..a]) + Deletions(Surplus(view, w)[..d])
            && (d > 0 ==> a == |Missing(view, w)|)
            && (res.answer.None? ==> a == |Missing(view, w)| && d == |Surplus(view, w)|)
            && Decides(r.outcomes, a + d, res.answer)
  {
    hide AddAll, DeleteAll, Missing, Surplus, OfTopic, Wanted, SoundIds, Creations, Deletions, Decides, Deletable, Left;
    var view, w := OfTopic(r.acls, topic), Wanted(topic, specs, userName).value;
    var listed := ListAcls(r).remote;
    a := AddCalls(listed, Missing(view, w));
    d := 0;
    var added := AddAll(listed, Missing(view, w), false);
    if added.answer.None? {
      SurplusIsDeletable(r, topic, w, Missing(view, w));
      d := DeleteCalls(added.remote, Surplus(view, w));
      DecidesBoth(r.outcomes, a, d, DeleteAll(added.remote, Surplus(view, w), false).answer);
    } else {
      NoCalls(Surplus(view, w)[..0]);
    }
  }

  lemma SurplusIsDeletable(r: Remote, topic: string, w: seq<Acl>, adds: seq<Acl>)
    requires SoundIds(r.acls)
    ensures Deletable(AddAll(ListAcls(r).remote, adds, false).remote.acls, Surplus(OfTopic(r.acls, topic), w))
  {
    AddsKeepEntries(ListAcls(r).remote, adds);
    SurplusIsThere(r.acls, topic, w);
    FilterDistinct(r.acls, OnTopic(topic), IdOf);
    FilterDistinct(OfTopic(r.acls, topic), UnmatchedBy(w), IdOf);
    hide AddAll, OfTopic, Surplus, SoundIds, DistinctBy;
  }
}
