/** Access control entries and their matching (pkg/aiven/acl/model.go, and the pure part of acl.go). */
module AclModel {
  import opened Basics
  import opened Errors

  /** An entry as Aiven holds it; wanted entries have the empty ID. */
  datatype Acl = Acl(id: string, permission: string, topic: string, username: string)

  /** What matching compares: everything but the ID. */
  datatype Grant = Grant(permission: string, topic: string, username: string)

  function GrantOf(a: Acl): Grant {
    Grant(a.permission, a.topic, a.username)
  }

  function IdOf(a: Acl): string {
    a.id
  }

  /** An entry of a Topic or Stream spec. */
  datatype TopicACL = TopicACL(access: string, application: string, team: string)

  function Grants(acls: seq<Acl>): set<Grant> {
    set a | a in acls :: GrantOf(a)
  }

  predicate Has(acls: seq<Acl>, g: Grant) {
    exists a :: a in acls && GrantOf(a) == g
  }

  lemma HasGrants(acls: seq<Acl>, g: Grant)
    ensures Has(acls, g) <==> g in Grants(acls)
  {
  }

  /** The elements the other list has no match for. */
  function UnmatchedBy(others: seq<Acl>): Acl -> bool {
    (a: Acl) => !Has(others, GrantOf(a))
  }

  lemma UnmatchedMembers(acls: seq<Acl>, others: seq<Acl>)
    ensures forall a :: a in Filter(acls, UnmatchedBy(others)) <==> a in acls && GrantOf(a) !in Grants(others)
  {
    FilterMembers(acls, UnmatchedBy(others));
    forall a: Acl
      ensures UnmatchedBy(others)(a) <==> GrantOf(a) !in Grants(others)
    {
      HasGrants(others, GrantOf(a));
    }
  }

  function OnTopic(topic: string): Acl -> bool {
    (a: Acl) => a.topic == topic
  }

  function NotId(id: string): Acl -> bool {
    (a: Acl) => a.id != id
  }

  function OfTopic(acls: seq<Acl>, topic: string): seq<Acl> {
    Filter(acls, OnTopic(topic))
  }

  function Missing(existing: seq<Acl>, wanted: seq<Acl>): seq<Acl> {
    Filter(wanted, UnmatchedBy(existing))
  }

  function Surplus(existing: seq<Acl>, wanted: seq<Acl>): seq<Acl> {
    Filter(existing, UnmatchedBy(wanted))
  }

  function Without(acls: seq<Acl>, id: string): seq<Acl> {
    Filter(acls, NotId(id))
  }

  /** What Aiven is assumed to guarantee: IDs are unique and not empty. */
  ghost predicate SoundIds(acls: seq<Acl>) {
    && DistinctBy(acls, IdOf)
    && forall a :: a in acls ==> a.id != ""
  }

  predicate UnusedId(acls: seq<Acl>, id: string) {
    id != "" && forall a :: a in acls ==> a.id != id
  }

  /** An ID no entry has: longer than all of them. */
  function FreshId(acls: seq<Acl>): (id: string)
    ensures UnusedId(acls, id)
    ensures forall a :: a in acls ==> |a.id| < |id|
  {
    if acls == [] then "1"
    else
      var rest := FreshId(acls[1..]);
      seq(|rest| + |acls[0].id| + 1, _ => '1')
  }

  /** The entries a spec asks for; the first username that cannot be generated ends it. */
  function Wanted(topic: string, specs: seq<TopicACL>, userName: TopicACL -> Result<string, Error>):
    (r: Result<seq<Acl>, Error>)
    ensures r.Ok? ==> |r.value| == |specs|
                      && forall a :: a in r.value ==> a.topic == topic && a.id == ""
  {
    if specs == [] then Ok([])
    else
      match Wanted(topic, specs[..|specs| - 1], userName)
      case Err(e) => Err(e)
      case Ok(front) =>
        match userName(specs[|specs| - 1])
        case Err(e) => Err(e)
        case Ok(name) => Ok(front + [Acl("", specs[|specs| - 1].access, topic, name)])
  }

  method Contains(acls: seq<Acl>, other: Acl) returns (found: bool)
    ensures found <==> GrantOf(other) in Grants(acls)
  {
    for i := 0 to |acls|
      invariant forall k :: 0 <= k < i ==> GrantOf(acls[k]) != GrantOf(other)
    {
      var mine := acls[i];
      if mine.username == other.username && mine.topic == other.topic && mine.permission == other.permission {
        assert mine in acls;
        return true;
      }
    }
    return false;
  }

  /** Appends in a loop what `existing` does not contain. */
  method NewACLs(existing: seq<Acl>, wanted: seq<Acl>) returns (candidates: seq<Acl>)
    ensures candidates == Missing(existing, wanted)
    ensures forall a :: a in candidates <==> a in wanted && GrantOf(a) !in Grants(existing)
  {
    candidates := [];
    for i := 0 to |wanted|
      invariant candidates == Filter(wanted[..i], UnmatchedBy(existing))
    {
      HasGrants(existing, GrantOf(wanted[i]));
      FilterSnoc(wanted[..i], wanted[i], UnmatchedBy(existing));
      assert wanted[..i + 1] == wanted[..i] + [wanted[i]];
      var found := Contains(existing, wanted[i]);
      if !found {
        candidates := candidates + [wanted[i]];
      }
    }
    assert wanted[..|wanted|] == wanted;
    UnmatchedMembers(wanted, existing);
  }

  method DeleteACLs(existing: seq<Acl>, wanted: seq<Acl>) returns (candidates: seq<Acl>)
    ensures candidates == Surplus(existing, wanted)
    ensures forall a :: a in candidates <==> a in existing && GrantOf(a) !in Grants(wanted)
  {
    candidates := [];
    for i := 0 to |existing|
      invariant candidates == Filter(existing[..i], UnmatchedBy(wanted))
    {
      HasGrants(wanted, GrantOf(existing[i]));
      FilterSnoc(existing[..i], existing[i], UnmatchedBy(wanted));
      assert existing[..i + 1] == existing[..i] + [existing[i]];
      var found := Contains(wanted, existing[i]);
      if !found {
        candidates := candidates + [existing[i]];
      }
    }
    assert existing[..|existing|] == existing;
    UnmatchedMembers(existing, wanted);
  }

  method TopicACLs(acls: seq<Acl>, topic: string) returns (result: seq<Acl>)
    ensures result == OfTopic(acls, topic)
    ensures forall a :: a in result <==> a in acls && a.topic == topic
  {
    result := [];
    for i := 0 to |acls|
      invariant result == Filter(acls[..i], OnTopic(topic))
    {
      FilterSnoc(acls[..i], acls[i], OnTopic(topic));
      assert acls[..i + 1] == acls[..i] + [acls[i]];
      if acls[i].topic == topic {
        result := result + [acls[i]];
      }
    }
    assert acls[..|acls|] == acls;
    FilterMembers(acls, OnTopic(topic));
  }

  method GetWantedAcls(topic: string, specs: seq<TopicACL>, userName: TopicACL -> Result<string, Error>)
    returns (r: Result<seq<Acl>, Error>)
    ensures r == Wanted(topic, specs, userName)
  {
    var wanted: seq<Acl> := [];
    for i := 0 to |specs|
      invariant Wanted(topic, specs[..i], userName) == Ok(wanted)
    {
      assert specs[..i + 1][..i] == specs[..i];
      match userName(specs[i])
      case Err(e) =>
        WantedStops(topic, specs, userName, i + 1);
        return Err(e);
      case Ok(name) =>
        wanted := wanted + [Acl("", specs[i].access, topic, name)];
    }
    assert specs[..|specs|] == specs;
    return Ok(wanted);
  }

  /** The first error decides, whatever the later entries are. */
  lemma {:induction false} WantedStops(topic: string, specs: seq<TopicACL>,
                                       userName: TopicACL -> Result<string, Error>, n: nat)
    requires n <= |specs| && Wanted(topic, specs[..n], userName).Err?
    ensures Wanted(topic, specs, userName) == Wanted(topic, specs[..n], userName)
  {
    if n < |specs| {
      var front := specs[..|specs| - 1];
      assert front[..n] == specs[..n];
      WantedStops(topic, front, userName, n);
    } else {
      assert specs[..n] == specs;
    }
  }

  /** The grants that a spec asks for, one for each entry whose user name can be generated. */
  function Asked(topic: string, specs: seq<TopicACL>, userName: TopicACL -> Result<string, Error>): set<Grant> {
    set s | s in specs && userName(s).Ok? :: Grant(s.access, topic, userName(s).value)
  }

  predicate AllNamed(specs: seq<TopicACL>, userName: TopicACL -> Result<string, Error>) {
    forall i :: 0 <= i < |specs| ==> userName(specs[i]).Ok?
  }

  /**
    Every entry of the spec becomes one wanted entry in its place, with the access it names, for the topic and for
    the generated user; and if some name cannot be generated, the first such entry's error is the answer.
  */
  lemma {:induction false} WantedMeans(topic: string, specs: seq<TopicACL>, userName: TopicACL -> Result<string, Error>)
    ensures Wanted(topic, specs, userName).Ok? <==> AllNamed(specs, userName)
    ensures var wanted := Wanted(topic, specs, userName);
            if wanted.Ok? then
              && |wanted.value| == |specs|
              && forall i :: 0 <= i < |specs| ==>
                   && userName(specs[i]).Ok?
                   && wanted.value[i] == Acl("", specs[i].access, topic, userName(specs[i]).value)
            else
              exists i :: 0 <= i < |specs| && userName(specs[i]) == Err(wanted.error) && AllNamed(specs[..i], userName)
  {
    if specs != [] {
      var front := specs[..|specs| - 1];
      WantedMeans(topic, front, userName);
      if Wanted(topic, front, userName).Err? {
        var i :| 0 <= i < |front| && userName(front[i]) == Err(Wanted(topic, front, userName).error)
                 && AllNamed(front[..i], userName);
        assert specs[i] == front[i] && specs[..i] == front[..i];
      } else {
        assert forall i :: 0 <= i < |front| ==> specs[i] == front[i];
      }
    }
  }

  lemma WantedGrants(topic: string, specs: seq<TopicACL>, userName: TopicACL -> Result<string, Error>)
    requires Wanted(topic, specs, userName).Ok?
    ensures Grants(Wanted(topic, specs, userName).value) == Asked(topic, specs, userName)
  {
    var w := Wanted(topic, specs, userName).value;
    WantedMeans(topic, specs, userName);
    hide Wanted;
    forall g | g in Asked(topic, specs, userName)
      ensures g in Grants(w)
    {
      var s :| s in specs && userName(s).Ok? && g == Grant(s.access, topic, userName(s).value);
      var i :| 0 <= i < |specs| && specs[i] == s;
      assert w[i] in w && GrantOf(w[i]) == g;
    }
    forall g | g in Grants(w)
      ensures g in Asked(topic, specs, userName)
    {
      var a :| a in w && GrantOf(a) == g;
      var i :| 0 <= i < |w| && w[i] == a;
      assert specs[i] in specs;
    }
  }
}
