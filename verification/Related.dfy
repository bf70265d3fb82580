/**
 Related tasks: each lists the other's Graph ID in `related`, in our
 extension. A change is to the set, kept as a sequence: one ID linked or not,
 made on the list as it is when it is applied.
 */
module Related {
  import opened Entities
  import opened Sequences

  /** Adds or removes `other`, and drops `stale`, IDs that task had before. */
  datatype Link = Link(other: string, linked: bool, stale: seq<string>)

  /** `ids` with the change made, one ID after the other. */
  function Kept(link: Link, ids: seq<string>, n: nat): seq<string>
    requires n <= |ids|
  {
    if n == 0 then []
    else
      var after, id := Kept(link, ids, n - 1), ids[n - 1];
      var keep := if id == link.other then link.linked && id !in after else id !in link.stale;
      if keep then after + [id] else after
  }

  function Apply(link: Link, ids: seq<string>): seq<string>
  {
    var after := Kept(link, ids, |ids|);
    if link.linked && link.other !in after then after + [link.other] else after
  }

  method ApplyLink(link: Link, ids: seq<string>) returns (after: seq<string>)
    ensures after == Apply(link, ids)
  {
    after := [];
    for i := 0 to |ids|
      invariant after == Kept(link, ids, i)
    {
      var id := ids[i];
      var keep: bool;
      if id == link.other {
        keep := link.linked && id !in after;
      } else {
        keep := id !in link.stale;
      }
      if keep {
        after := after + [id];
      }
    }
    if link.linked && link.other !in after {
      after := after + [link.other];
    }
  }

  /** The link to undo it with; IDs dropped stay dropped. */
  function Inverse(link: Link): Link
  {
    Link(link.other, !link.linked, [])
  }

  // ----- As a set -----

  predicate Adds(link: Link, id: string)
  {
    link.linked && id == link.other
  }

  predicate Removes(link: Link, id: string)
  {
    if id == link.other then !link.linked else id in link.stale
  }

  lemma {:induction false} KeptIs(link: Link, ids: seq<string>, n: nat, id: string)
    requires n <= |ids|
    ensures id in Kept(link, ids, n) <==> id in ids[..n] && !Removes(link, id)
  {
    if n > 0 {
      KeptIs(link, ids, n - 1, id);
      assert ids[..n] == ids[..n - 1] + [ids[n - 1]];
    }
  }

  /** The IDs after: those before but for what it removes, and what it adds. */
  lemma ApplyIs(link: Link, ids: seq<string>, id: string)
    ensures id in Apply(link, ids) <==> Adds(link, id) || (id in ids && !Removes(link, id))
  {
    KeptIs(link, ids, |ids|, id);
    assert ids[..|ids|] == ids;
  }

  lemma {:induction false} KeptDistinct(link: Link, ids: seq<string>, n: nat)
    requires n <= |ids| && Distinct(ids)
    ensures Distinct(Kept(link, ids, n))
  {
    if n > 0 {
      KeptDistinct(link, ids, n - 1);
      KeptIs(link, ids, n - 1, ids[n - 1]);
      assert ids[n - 1] !in ids[..n - 1];
    }
  }

  /** Nothing is listed twice. */
  lemma ApplyDistinct(link: Link, ids: seq<string>)
    requires Distinct(ids)
    ensures Distinct(Apply(link, ids))
  {
    KeptDistinct(link, ids, |ids|);
  }

  lemma {:induction false} KeptAll(link: Link, ids: seq<string>, n: nat)
    requires n <= |ids| && Distinct(ids) && forall id :: id in ids ==> !Removes(link, id)
    ensures Kept(link, ids, n) == ids[..n]
  {
    if n > 0 {
      KeptAll(link, ids, n - 1);
      assert ids[..n] == ids[..n - 1] + [ids[n - 1]];
      assert ids[n - 1] !in ids[..n - 1];
      assert ids[n - 1] in ids;
    }
  }

  /** A change that changes no membership leaves the sequence as it is: it queues nothing. */
  lemma NoChangeExactly(link: Link, ids: seq<string>)
    requires Distinct(ids)
    ensures Apply(link, ids) == ids <==>
            (link.linked ==> link.other in ids) && forall id :: id in ids ==> !Removes(link, id)
  {
    if (link.linked ==> link.other in ids) && forall id :: id in ids ==> !Removes(link, id) {
      KeptAll(link, ids, |ids|);
      assert ids[..|ids|] == ids;
    } else if Apply(link, ids) == ids {
      ApplyIs(link, ids, link.other);
      forall id | id in ids ensures !Removes(link, id) {
        ApplyIs(link, ids, id);
      }
    }
  }

  // ----- Rebasing on Graph's list -----

  function IdsOf(extension: Entity): seq<string>
  {
    match Get(extension, RELATED)
    case Ids(ids) => ids
    case _ => []
  }

  /** An empty list leaves the extension. */
  function Rebase(document: Entity, link: Link, graph: Entity): Entity
  {
    var ids := Apply(link, IdsOf(graph));
    if ids == [] then document - {RELATED} else document[RELATED := Ids(ids)]
  }

  /** Only `related` is touched, and it is Graph's own list with the change made. */
  lemma RebaseTouchesOnlyRelated(document: Entity, link: Link, graph: Entity, f: Key)
    ensures f != RELATED ==> Get(Rebase(document, link, graph), f) == Get(document, f)
    ensures IdsOf(Rebase(document, link, graph)) == Apply(link, IdsOf(graph))
    ensures RELATED in Rebase(document, link, graph) <==> Apply(link, IdsOf(graph)) != []
  {
  }

  /** Sending a change: the operation's fields over Graph's copy, `related` rebased. */
  function Send(graph: Entity, body: Entity, link: Link): Entity
  {
    Rebase(Merge(graph, body), link, graph)
  }

  lemma SendingIsApplying(graph: Entity, body: Entity, link: Link)
    ensures IdsOf(Send(graph, body, link)) == Apply(link, IdsOf(graph))
  {
    RebaseTouchesOnlyRelated(Merge(graph, body), link, graph, RELATED);
  }

  // ----- Changes from many devices converge -----

  /** Graph's list once the first `n` of `links` are sent, each rebased on it. */
  function Sent(links: seq<Link>, ids: seq<string>, n: nat): seq<string>
    requires n <= |links|
  {
    if n == 0 then ids else Apply(links[n - 1], Sent(links, ids, n - 1))
  }

  function SentAll(links: seq<Link>, ids: seq<string>): seq<string>
  {
    Sent(links, ids, |links|)
  }

  ghost predicate SomeAdds(links: seq<Link>, n: nat, id: string)
    requires n <= |links|
  {
    exists i :: 0 <= i < n && Adds(links[i], id)
  }

  ghost predicate SomeRemoves(links: seq<Link>, n: nat, id: string)
    requires n <= |links|
  {
    exists i :: 0 <= i < n && Removes(links[i], id)
  }

  /** No change adds an ID another takes away. */
  ghost predicate Compatible(links: seq<Link>)
  {
    forall i, j, id :: 0 <= i < |links| && 0 <= j < |links| && Adds(links[i], id) ==> !Removes(links[j], id)
  }

  /** What compatible changes give, with no word of their order. */
  lemma {:induction false} SentIs(links: seq<Link>, ids: seq<string>, n: nat, id: string)
    requires n <= |links| && Compatible(links)
    ensures id in Sent(links, ids, n) <==>
            SomeAdds(links, n, id) || (id in ids && !SomeRemoves(links, n, id))
  {
    if n > 0 {
      var last := links[n - 1];
      SentIs(links, ids, n - 1, id);
      ApplyIs(last, Sent(links, ids, n - 1), id);
      assert SomeAdds(links, n, id) <==> SomeAdds(links, n - 1, id) || Adds(last, id);
      assert SomeRemoves(links, n, id) <==> SomeRemoves(links, n - 1, id) || Removes(last, id);
    }
  }

  ghost predicate SameIds(a: seq<string>, b: seq<string>)
  {
    forall id :: id in a <==> id in b
  }

  /** The same changes, in whatever order. */
  ghost predicate SameChanges(a: seq<Link>, b: seq<Link>)
  {
    forall link :: link in a <==> link in b
  }

  lemma Same(a: seq<Link>, b: seq<Link>, i: nat) returns (j: nat)
    requires SameChanges(a, b) && i < |a|
    ensures j < |b| && b[j] == a[i]
  {
    assert a[i] in b;
    j :| 0 <= j < |b| && b[j] == a[i];
  }

  lemma SameTouches(a: seq<Link>, b: seq<Link>, id: string)
    requires SameChanges(a, b)
    ensures SomeAdds(a, |a|, id) ==> SomeAdds(b, |b|, id)
    ensures SomeRemoves(a, |a|, id) ==> SomeRemoves(b, |b|, id)
  {
    if SomeAdds(a, |a|, id) {
      var i :| 0 <= i < |a| && Adds(a[i], id);
      var j := Same(a, b, i);
    }
    if SomeRemoves(a, |a|, id) {
      var i :| 0 <= i < |a| && Removes(a[i], id);
      var j := Same(a, b, i);
    }
  }

  lemma SameCompatible(a: seq<Link>, b: seq<Link>)
    requires SameChanges(a, b) && Compatible(a)
    ensures Compatible(b)
  {
    forall i, j, id | 0 <= i < |b| && 0 <= j < |b| && Adds(b[i], id) ensures !Removes(b[j], id) {
      var i' := Same(b, a, i);
      var j' := Same(b, a, j);
    }
  }

  lemma CompatibleConverge(links: seq<Link>, other: seq<Link>, ids: seq<string>)
    requires Compatible(links) && SameChanges(other, links)
    ensures SameIds(SentAll(other, ids), SentAll(links, ids))
  {
    SameCompatible(links, other);
    forall id ensures id in SentAll(other, ids) <==> id in SentAll(links, ids) {
      SentIs(links, ids, |links|, id);
      SentIs(other, ids, |other|, id);
      SameTouches(links, other, id);
      SameTouches(other, links, id);
    }
  }

  // ----- As they are sent: each rebased on Graph's copy -----

  /** A pending write: the fields of its body, planned from an older copy, and the change itself. */
  datatype Pending = Pending(body: Entity, link: Link)

  function LinksOf(sends: seq<Pending>): (r: seq<Link>)
    ensures |r| == |sends| && forall i :: 0 <= i < |r| ==> r[i] == sends[i].link
  {
    seq(|sends|, i requires 0 <= i < |sends| => sends[i].link)
  }

  /** Sending one pending write. */
  function SendOne(graph: Entity, p: Pending): Entity
  {
    Send(graph, p.body, p.link)
  }

  /** Graph's extension once the first `n` of `sends` are sent, in order. */
  function SendFirst(send: (Entity, Pending) -> Entity, sends: seq<Pending>, graph: Entity, n: nat): Entity
    requires n <= |sends|
  {
    if n == 0 then graph else send(SendFirst(send, sends, graph, n - 1), sends[n - 1])
  }

  function SendAll(sends: seq<Pending>, graph: Entity): Entity
  {
    SendFirst(SendOne, sends, graph, |sends|)
  }

  /** A send makes its change to Graph's own list, whatever its body says. */
  ghost predicate MakesChange(send: (Entity, Pending) -> Entity)
  {
    forall graph, p :: MakesChangeTo(send, graph, p)
  }

  ghost predicate MakesChangeTo(send: (Entity, Pending) -> Entity, graph: Entity, p: Pending)
  {
    IdsOf(send(graph, p)) == Apply(p.link, IdsOf(graph))
  }

  lemma SendOneMakesChange()
    ensures MakesChange(SendOne)
  {
    forall graph, p ensures MakesChangeTo(SendOne, graph, p) {
      SendingIsApplying(graph, p.body, p.link);
    }
  }

  lemma {:induction false} SendsApplyEach(send: (Entity, Pending) -> Entity, sends: seq<Pending>, graph: Entity, n: nat)
    requires n <= |sends| && MakesChange(send)
    ensures IdsOf(SendFirst(send, sends, graph, n)) == Sent(LinksOf(sends), IdsOf(graph), n)
  {
    if n > 0 {
      SendsApplyEach(send, sends, graph, n - 1);
      assert MakesChangeTo(send, SendFirst(send, sends, graph, n - 1), sends[n - 1]);
    }
  }

  /** So Graph's list is its own with each change made. */
  lemma SendsApply(sends: seq<Pending>, graph: Entity)
    ensures IdsOf(SendAll(sends, graph)) == SentAll(LinksOf(sends), IdsOf(graph))
  {
    SendOneMakesChange();
    SendsApplyEach(SendOne, sends, graph, |sends|);
  }

  lemma SameLinks(a: seq<Pending>, b: seq<Pending>)
    requires multiset(a) == multiset(b)
    ensures SameChanges(LinksOf(a), LinksOf(b))
  {
    forall link ensures link in LinksOf(a) ==> link in LinksOf(b) {
      LinkIn(a, b, link);
    }
    forall link ensures link in LinksOf(b) ==> link in LinksOf(a) {
      LinkIn(b, a, link);
    }
  }

  lemma LinkIn(a: seq<Pending>, b: seq<Pending>, link: Link)
    requires multiset(a) == multiset(b)
    ensures link in LinksOf(a) ==> link in LinksOf(b)
  {
    if link in LinksOf(a) {
      var i :| 0 <= i < |a| && LinksOf(a)[i] == link;
      assert a[i] in multiset(b) && a[i] in b;
      var j :| 0 <= j < |b| && b[j] == a[i];
      assert LinksOf(b)[j] == link;
    }
  }

  /** Two changes that disagree: whichever goes last decides. */
  lemma LastDecides(sends: seq<Pending>, i: nat, j: nat, id: string)
    returns (added: seq<Pending>, removed: seq<Pending>)
    requires i < |sends| && j < |sends| && Adds(sends[i].link, id) && Removes(sends[j].link, id)
    ensures multiset(added) == multiset(sends) && multiset(removed) == multiset(sends)
    ensures id in IdsOf(SendAll(added, map[])) && id !in IdsOf(SendAll(removed, map[]))
  {
    added, removed := Last(sends, i), Last(sends, j);
    DecidedLast(added, id);
    DecidedLast(removed, id);
  }

  lemma DecidedLast(sends: seq<Pending>, id: string)
    requires sends != []
    ensures Adds(sends[|sends| - 1].link, id) ==> id in IdsOf(SendAll(sends, map[]))
    ensures Removes(sends[|sends| - 1].link, id) ==> id !in IdsOf(SendAll(sends, map[]))
  {
    var n, links := |sends| - 1, LinksOf(sends);
    SendsApply(sends, map[]);
    ApplyIs(links[n], Sent(links, IdsOf(map[]), n), id);
  }

  function Last(sends: seq<Pending>, i: nat): (r: seq<Pending>)
    requires i < |sends|
    ensures |r| == |sends| && r[|r| - 1] == sends[i] && multiset(r) == multiset(sends)
  {
    assert sends == sends[..i] + [sends[i]] + sends[i + 1..];
    sends[..i] + sends[i + 1..] + [sends[i]]
  }

  /**
   Any number of devices' pending changes to one task, each rebased on Graph's
   copy as it is sent, give the same IDs in every order they are sent, from
   every extension Graph may hold, exactly when no change adds an ID another
   takes away.
   */
  lemma ConvergeExactly(sends: seq<Pending>)
    ensures Compatible(LinksOf(sends)) <==>
            forall other, graph :: multiset(other) == multiset(sends) ==>
              SameIds(IdsOf(SendAll(other, graph)), IdsOf(SendAll(sends, graph)))
  {
    if Compatible(LinksOf(sends)) {
      forall other, graph | multiset(other) == multiset(sends)
        ensures SameIds(IdsOf(SendAll(other, graph)), IdsOf(SendAll(sends, graph)))
      {
        SameLinks(other, sends);
        CompatibleConverge(LinksOf(sends), LinksOf(other), IdsOf(graph));
        SendsApply(sends, graph);
        SendsApply(other, graph);
      }
    } else {
      var i, j, id :| 0 <= i < |sends| && 0 <= j < |sends| && Adds(LinksOf(sends)[i], id) && Removes(LinksOf(sends)[j], id);
      var added, removed := LastDecides(sends, i, j, id);
      assert !(SameIds(IdsOf(SendAll(added, map[])), IdsOf(SendAll(sends, map[])))
               && SameIds(IdsOf(SendAll(removed, map[])), IdsOf(SendAll(sends, map[]))));
    }
  }

  predicate Mentions(link: Link, id: string)
  {
    id == link.other || id in link.stale
  }

  /** Changes none of which names another's ID are such. */
  lemma ApartIsCompatible(links: seq<Link>)
    requires forall i, j, id :: 0 <= i < |links| && 0 <= j < |links| && i != j && Mentions(links[i], id) ==>
               !Mentions(links[j], id)
    ensures Compatible(links)
  {
    forall i, j, id | 0 <= i < |links| && 0 <= j < |links| && Adds(links[i], id) ensures !Removes(links[j], id) {
      assert Mentions(links[i], id);
      if i != j {
        assert !Mentions(links[j], id);
      }
    }
  }

  // ----- As a sequence -----

  /** `x` is before `y` among the first `n` IDs. */
  ghost predicate Precedes(ids: seq<string>, n: nat, x: string, y: string)
    requires n <= |ids|
  {
    exists a, b :: 0 <= a < b < n && ids[a] == x && ids[b] == y
  }

  /** What `r` holds is in the order it is in `ids`. */
  ghost predicate InOrderOf(ids: seq<string>, n: nat, r: seq<string>)
    requires n <= |ids|
  {
    forall i, j :: 0 <= i < j < |r| ==> Precedes(ids, n, r[i], r[j])
  }

  lemma {:induction false} KeptInOrder(link: Link, ids: seq<string>, n: nat)
    requires n <= |ids|
    ensures InOrderOf(ids, n, Kept(link, ids, n))
  {
    if n > 0 {
      var rest, r := Kept(link, ids, n - 1), Kept(link, ids, n);
      KeptInOrder(link, ids, n - 1);
      forall i, j | 0 <= i < j < |r| ensures Precedes(ids, n, r[i], r[j]) {
        if j < |rest| {
          assert Precedes(ids, n - 1, rest[i], rest[j]);
          var a, b :| 0 <= a < b < n - 1 && ids[a] == rest[i] && ids[b] == rest[j];
          assert ids[a] == r[i] && ids[b] == r[j];
        } else {
          KeptIs(link, ids, n - 1, rest[i]);
          var a :| 0 <= a < n - 1 && ids[..n - 1][a] == rest[i];
          assert ids[a] == r[i] && ids[n - 1] == r[j];
        }
      }
    }
  }

  /** The IDs kept stay in the order they were, and a new one comes last. */
  lemma ApplyInOrder(link: Link, ids: seq<string>) returns (kept: seq<string>)
    ensures InOrderOf(ids, |ids|, kept)
    ensures Apply(link, ids) == if link.linked && link.other !in ids then kept + [link.other] else kept
  {
    kept := Kept(link, ids, |ids|);
    KeptInOrder(link, ids, |ids|);
    KeptIs(link, ids, |ids|, link.other);
    assert ids[..|ids|] == ids;
  }
}
