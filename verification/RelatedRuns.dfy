/**
 Runs of relating and unrelating tasks, undone and redone in any order: a
 link is always two-way. Each task keeps its Graph ID, which names it here.
 */
module RelatedRuns {
  import opened Entities
  import opened Sequences
  import opened Related

  type Links = map<string, seq<string>>

  /** A change to one task's list. */
  datatype LinkOp = LinkOp(task: string, link: Link)

  datatype Command = Command(ops: seq<LinkOp>, undone: bool)

  datatype World = World(links: Links, log: seq<Command>)

  // ----- Commands -----

  /** The IDs of a task's list that mean `other`. */
  function LinksTo(ids: seq<string>, other: string): (r: seq<string>)
    ensures forall k :: 0 <= k < |r| ==> r[k] == other
  {
    if ids == [] then []
    else if ids[|ids| - 1] == other then LinksTo(ids[..|ids| - 1], other) + [other]
    else LinksTo(ids[..|ids| - 1], other)
  }

  function Stale(linked: seq<string>, other: string): seq<string>
  {
    if linked == [] then []
    else if linked[|linked| - 1] != other then Stale(linked[..|linked| - 1], other) + [linked[|linked| - 1]]
    else Stale(linked[..|linked| - 1], other)
  }

  function PlannedLink(linked: seq<string>, other: string, relate: bool): Link
  {
    Link(other, relate, Stale(linked, other))
  }

  /** The write making the link, if it isn't so already. */
  function LinkOps(links: Links, op: LinkOp): seq<LinkOp>
    requires op.task in links
  {
    if Apply(op.link, links[op.task]) == links[op.task] then [] else [op]
  }

  ghost predicate Cached(links: Links, ops: seq<LinkOp>)
  {
    forall i :: 0 <= i < |ops| ==> ops[i].task in links
  }

  /** Of `wanted`, those that change their task as it is now. */
  function Changing(links: Links, wanted: seq<LinkOp>): (r: seq<LinkOp>)
    requires Cached(links, wanted)
    ensures Cached(links, r)
  {
    if wanted == [] then []
    else Changing(links, wanted[..|wanted| - 1]) + LinkOps(links, wanted[|wanted| - 1])
  }

  function ApplyOps(links: Links, ops: seq<LinkOp>): (r: Links)
    requires Cached(links, ops)
    ensures r.Keys == links.Keys
  {
    if ops == [] then links
    else
      var before, op := ApplyOps(links, ops[..|ops| - 1]), ops[|ops| - 1];
      before[op.task := Apply(op.link, before[op.task])]
  }

  method ChangeOps(links: Links, first: string, second: string, relate: bool) returns (ops: seq<LinkOp>)
    requires first in links && second in links
    ensures Cached(links, Wanted(links, first, second, relate))
    ensures ops == Changing(links, Wanted(links, first, second, relate))
  {
    var wanted := Wanted(links, first, second, relate);
    ops := [];
    for i := 0 to |wanted|
      invariant Cached(links, wanted[..i]) && ops == Changing(links, wanted[..i])
    {
      OneMoreChanges(links, wanted, i);
      ops := ops + LinkOps(links, wanted[i]);
    }
    assert wanted[..|wanted|] == wanted;
  }

  lemma OneMoreChanges(links: Links, wanted: seq<LinkOp>, i: nat)
    requires i < |wanted| && Cached(links, wanted)
    ensures Cached(links, wanted[..i]) && Cached(links, wanted[..i + 1])
    ensures Changing(links, wanted[..i + 1]) == Changing(links, wanted[..i]) + LinkOps(links, wanted[i])
  {
    assert wanted[..i + 1][..i] == wanted[..i];
  }

  function Wanted(links: Links, first: string, second: string, relate: bool): seq<LinkOp>
    requires first in links && second in links
  {
    [LinkOp(first, PlannedLink(LinksTo(links[first], second), second, relate)),
     LinkOp(second, PlannedLink(LinksTo(links[second], first), first, relate))]
  }

  function Inverses(ops: seq<LinkOp>): (r: seq<LinkOp>)
    ensures |r| == |ops|
    ensures forall i :: 0 <= i < |ops| ==> r[i] == LinkOp(ops[i].task, Inverse(ops[i].link))
  {
    seq(|ops|, i requires 0 <= i < |ops| => LinkOp(ops[i].task, Inverse(ops[i].link)))
  }

  datatype Act = Change(first: string, second: string, relate: bool) | Undo(k: nat)

  /** Two different cached tasks, or a command not undone yet. */
  ghost predicate Enabled(w: World, act: Act)
  {
    match act
    case Change(first, second, _) => first != second && first in w.links && second in w.links
    case Undo(k) => k < |w.log| && !w.log[k].undone && Cached(w.links, w.log[k].ops)
  }

  /** A command that changes nothing leaves no trace. */
  ghost function Next(w: World, act: Act): World
    requires Enabled(w, act)
  {
    match act
    case Change(first, second, relate) =>
      var ops := Changing(w.links, Wanted(w.links, first, second, relate));
      if ops == [] then w else World(ApplyOps(w.links, ops), w.log + [Command(ops, false)])
    case Undo(k) =>
      var ops := Changing(w.links, Inverses(w.log[k].ops));
      if ops == [] then w
      else World(ApplyOps(w.links, ops), w.log[k := w.log[k].(undone := true)] + [Command(ops, false)])
  }

  // ----- Two-way -----

  ghost predicate TwoWay(links: Links)
  {
    && (forall t :: t in links ==> Distinct(links[t]))
    && (forall a, b :: a in links && b in links ==> (b in links[a] <==> a in links[b]))
  }

  /** Both directions of one link. */
  function Both(a: string, b: string, linked: bool): seq<LinkOp>
  {
    [LinkOp(a, Link(b, linked, [])), LinkOp(b, Link(a, linked, []))]
  }

  ghost predicate IsBoth(links: Links, ops: seq<LinkOp>)
  {
    exists a, b, linked :: a != b && a in links && b in links && ops == Both(a, b, linked)
  }

  ghost predicate Good(w: World)
  {
    TwoWay(w.links) && forall i :: 0 <= i < |w.log| ==> IsBoth(w.links, w.log[i].ops)
  }

  lemma {:induction false} NothingStale(linked: seq<string>, other: string)
    requires forall k :: 0 <= k < |linked| ==> linked[k] == other
    ensures Stale(linked, other) == []
  {
    if linked != [] {
      NothingStale(linked[..|linked| - 1], other);
    }
  }

  /** With fixed IDs, a relate or unrelate asks for both directions and nothing else. */
  lemma WantedIsBoth(links: Links, first: string, second: string, relate: bool)
    requires first in links && second in links
    ensures Wanted(links, first, second, relate) == Both(first, second, relate)
  {
    NothingStale(LinksTo(links[first], second), second);
    NothingStale(LinksTo(links[second], first), first);
  }

  lemma ChangesExactly(links: Links, task: string, other: string, linked: bool)
    requires task in links && Distinct(links[task])
    ensures LinkOps(links, LinkOp(task, Link(other, linked, []))) == [] <==> (other in links[task] <==> linked)
  {
    NoChangeExactly(Link(other, linked, []), links[task]);
  }

  /** Both directions change, or neither does. */
  lemma BothOrNeither(links: Links, a: string, b: string, linked: bool)
    requires TwoWay(links) && a != b && a in links && b in links
    ensures Cached(links, Both(a, b, linked))
    ensures Changing(links, Both(a, b, linked)) == if b in links[a] <==> linked then [] else Both(a, b, linked)
  {
    ChangesExactly(links, a, b, linked);
    ChangesExactly(links, b, a, linked);
    var both := Both(a, b, linked);
    ChangingTwo(links, both[0], both[1]);
    assert both == [both[0], both[1]];
  }

  lemma ChangingTwo(links: Links, x: LinkOp, y: LinkOp)
    requires x.task in links && y.task in links
    ensures Cached(links, [x, y]) && Changing(links, [x, y]) == LinkOps(links, x) + LinkOps(links, y)
  {
    assert [x, y][..1] == [x] && [x][..0] == [];
    assert Changing(links, [x]) == LinkOps(links, x);
  }

  lemma BothApplied(links: Links, a: string, b: string, linked: bool)
    requires a != b && a in links && b in links
    ensures Cached(links, Both(a, b, linked))
    ensures ApplyOps(links, Both(a, b, linked))
            == links[a := Apply(Link(b, linked, []), links[a])][b := Apply(Link(a, linked, []), links[b])]
  {
    var both := Both(a, b, linked);
    assert both[..1] == [both[0]] && both[..1][..0] == [];
    assert ApplyOps(links, both[..1]) == links[a := Apply(Link(b, linked, []), links[a])];
  }

  /** What a change of one link does: that link, and no other. */
  lemma OnlyThatLink(links: Links, a: string, b: string, linked: bool, t: string, id: string)
    requires a != b && a in links && b in links && t in links && Cached(links, Both(a, b, linked))
    ensures id in ApplyOps(links, Both(a, b, linked))[t] <==>
            if (t == a && id == b) || (t == b && id == a) then linked else id in links[t]
  {
    BothApplied(links, a, b, linked);
    ApplyIs(Link(b, linked, []), links[a], id);
    ApplyIs(Link(a, linked, []), links[b], id);
  }

  lemma BothKeepsTwoWay(links: Links, a: string, b: string, linked: bool)
    requires TwoWay(links) && a != b && a in links && b in links && Cached(links, Both(a, b, linked))
    ensures TwoWay(ApplyOps(links, Both(a, b, linked)))
  {
    var after := ApplyOps(links, Both(a, b, linked));
    BothApplied(links, a, b, linked);
    ApplyDistinct(Link(b, linked, []), links[a]);
    ApplyDistinct(Link(a, linked, []), links[b]);
    forall x, y | x in after && y in after ensures y in after[x] <==> x in after[y] {
      OnlyThatLink(links, a, b, linked, x, y);
      OnlyThatLink(links, a, b, linked, y, x);
    }
  }

  lemma SameTasks(links: Links, after: Links, ops: seq<LinkOp>)
    requires links.Keys == after.Keys && IsBoth(links, ops)
    ensures IsBoth(after, ops)
  {
    var a, b, linked :| a != b && a in links && b in links && ops == Both(a, b, linked);
    assert a in after && b in after;
  }

  /** One link more or less, and the command that made it logged. */
  lemma LogKeeps(w: World, log: seq<Command>, a: string, b: string, linked: bool)
    requires Good(w) && a != b && a in w.links && b in w.links && Cached(w.links, Both(a, b, linked))
    requires |log| == |w.log| && forall i :: 0 <= i < |log| ==> log[i].ops == w.log[i].ops
    ensures Good(World(ApplyOps(w.links, Both(a, b, linked)), log + [Command(Both(a, b, linked), false)]))
  {
    var after, more := ApplyOps(w.links, Both(a, b, linked)), log + [Command(Both(a, b, linked), false)];
    BothKeepsTwoWay(w.links, a, b, linked);
    assert IsBoth(w.links, Both(a, b, linked));
    forall i | 0 <= i < |more| ensures IsBoth(after, more[i].ops) {
      SameTasks(w.links, after, if i < |log| then w.log[i].ops else Both(a, b, linked));
    }
  }

  lemma StepKeeps(w: World, act: Act)
    requires Good(w) && Enabled(w, act)
    ensures Good(Next(w, act))
  {
    if act.Undo? {
      UndoStepKeeps(w, act.k);
    } else {
      WantedIsBoth(w.links, act.first, act.second, act.relate);
      BothOrNeither(w.links, act.first, act.second, act.relate);
      LogKeeps(w, w.log, act.first, act.second, act.relate);
    }
  }

  lemma UndoStepKeeps(w: World, k: nat)
    requires Good(w) && Enabled(w, Undo(k))
    ensures Good(Next(w, Undo(k)))
  {
    var a, b, linked := UndoIs(w, k);
    BothOrNeither(w.links, a, b, !linked);
    LogKeeps(w, w.log[k := w.log[k].(undone := true)], a, b, !linked);
  }

  lemma UndoIs(w: World, k: nat) returns (a: string, b: string, linked: bool)
    requires Good(w) && k < |w.log|
    ensures a != b && a in w.links && b in w.links
    ensures w.log[k].ops == Both(a, b, linked) && Inverses(w.log[k].ops) == Both(a, b, !linked)
  {
    assert IsBoth(w.links, w.log[k].ops);
    a, b, linked :| a != b && a in w.links && b in w.links && w.log[k].ops == Both(a, b, linked);
  }

  ghost predicate ValidRun(w: World, acts: seq<Act>)
    decreases |acts|
  {
    acts != [] ==> Enabled(w, acts[0]) && ValidRun(Next(w, acts[0]), acts[1..])
  }

  ghost function Final(w: World, acts: seq<Act>): World
    requires ValidRun(w, acts)
    decreases |acts|
  {
    if acts == [] then w else Final(Next(w, acts[0]), acts[1..])
  }

  /** Every run of relate, unrelate, undo and redo, of any command, keeps links two-way with none listed twice. */
  lemma {:induction false} LinksStayTwoWay(w: World, acts: seq<Act>)
    requires Good(w) && ValidRun(w, acts)
    ensures Good(Final(w, acts))
    decreases |acts|
  {
    if acts != [] {
      StepKeeps(w, acts[0]);
      LinksStayTwoWay(Next(w, acts[0]), acts[1..]);
    }
  }

  /** A relate links the two both ways, an unrelate neither way, and no other link of any task changes. */
  lemma ChangeMeans(w: World, first: string, second: string, relate: bool, t: string, id: string)
    requires Good(w) && Enabled(w, Change(first, second, relate)) && t in w.links
    ensures t in Next(w, Change(first, second, relate)).links
    ensures id in Next(w, Change(first, second, relate)).links[t] <==>
            if (t == first && id == second) || (t == second && id == first) then relate else id in w.links[t]
  {
    WantedIsBoth(w.links, first, second, relate);
    BothOrNeither(w.links, first, second, relate);
    OnlyThatLink(w.links, first, second, relate, t, id);
  }

  /** On any links, two-way or not, it writes the tasks of the two that aren't as asked, and no other. */
  lemma WritesWhatChanges(links: Links, first: string, second: string, relate: bool)
    requires first in links && second in links && Distinct(links[first]) && Distinct(links[second])
    ensures Changing(links, Wanted(links, first, second, relate))
            == (if second in links[first] <==> relate then [] else [Both(first, second, relate)[0]])
             + (if first in links[second] <==> relate then [] else [Both(first, second, relate)[1]])
  {
    WantedIsBoth(links, first, second, relate);
    var both := Both(first, second, relate);
    ChangingTwo(links, both[0], both[1]);
    assert both == [both[0], both[1]];
    ChangesExactly(links, first, second, relate);
    ChangesExactly(links, second, first, relate);
  }

  /** And leaves both as asked, and every other link as it was. */
  lemma ChangeMends(links: Links, first: string, second: string, relate: bool, t: string, id: string)
    requires first != second && first in links && second in links && t in links
    requires Distinct(links[first]) && Distinct(links[second])
    ensures id in ApplyOps(links, Changing(links, Wanted(links, first, second, relate)))[t] <==>
            if (t == first && id == second) || (t == second && id == first) then relate else id in links[t]
  {
    WritesWhatChanges(links, first, second, relate);
    var x, y := Both(first, second, relate)[0], Both(first, second, relate)[1];
    if second in links[first] <==> relate {
      if first in links[second] <==> relate {
        NothingApplied(links);
      } else {
        assert [] + [y] == [y];
        OneDirection(links, y, t, id);
      }
    } else if first in links[second] <==> relate {
      assert [x] + [] == [x];
      OneDirection(links, x, t, id);
    } else {
      assert [x] + [y] == Both(first, second, relate);
      OnlyThatLink(links, first, second, relate, t, id);
    }
  }

  lemma NothingApplied(links: Links)
    ensures Cached(links, []) && ApplyOps(links, []) == links
  {
  }

  /** One write changes one direction of one link. */
  lemma OneDirection(links: Links, op: LinkOp, t: string, id: string)
    requires op.task in links && t in links && op.link.stale == []
    ensures Cached(links, [op])
    ensures id in ApplyOps(links, [op])[t] <==>
            if t == op.task && id == op.link.other then op.link.linked else id in links[t]
  {
    assert [op][..0] == [];
    ApplyIs(op.link, links[op.task], id);
  }

  /**
   Undoing one relate, whenever: that link goes, in both directions, and every
   other link of every task stays, those made later to a third task too.
   */
  lemma UndoKeepsTheOthers(w: World, k: nat, t: string, id: string) returns (a: string, b: string, linked: bool)
    requires Good(w) && Enabled(w, Undo(k)) && t in w.links
    ensures a != b && w.log[k].ops == Both(a, b, linked)
    ensures t in Next(w, Undo(k)).links
    ensures id in Next(w, Undo(k)).links[t] <==>
            if (t == a && id == b) || (t == b && id == a) then !linked else id in w.links[t]
  {
    a, b, linked := UndoIs(w, k);
    BothOrNeither(w.links, a, b, !linked);
    OnlyThatLink(w.links, a, b, !linked, t, id);
  }

  lemma SameBoth(a: string, b: string, linked: bool, a': string, b': string, linked': bool)
    requires Both(a, b, linked) == Both(a', b', linked')
    ensures a == a' && b == b' && linked == linked'
  {
    assert Both(a, b, linked)[0] == Both(a', b', linked')[0];
  }

  /** An undo that changed something: what it logged, and what it made of the links. */
  lemma UndoMakes(w: World, k: nat) returns (a: string, b: string, linked: bool)
    requires Good(w) && Enabled(w, Undo(k)) && |Next(w, Undo(k)).log| > |w.log|
    ensures a != b && a in w.links && b in w.links && (b in w.links[a] <==> linked)
    ensures Cached(w.links, Both(a, b, !linked))
    ensures Next(w, Undo(k)).links == ApplyOps(w.links, Both(a, b, !linked))
    ensures Next(w, Undo(k)).log[|w.log|] == Command(Both(a, b, !linked), false)
  {
    a, b, linked := UndoIs(w, k);
    BothOrNeither(w.links, a, b, !linked);
    UndoResult(w, k, Both(a, b, !linked));
  }

  lemma UndoResult(w: World, k: nat, inverse: seq<LinkOp>)
    requires Enabled(w, Undo(k)) && |Next(w, Undo(k)).log| > |w.log|
    requires Inverses(w.log[k].ops) == inverse && Cached(w.links, inverse)
    requires Changing(w.links, inverse) == [] || Changing(w.links, inverse) == inverse
    ensures Changing(w.links, inverse) == inverse && inverse != []
    ensures Next(w, Undo(k)).links == ApplyOps(w.links, inverse)
    ensures Next(w, Undo(k)).log[|w.log|] == Command(inverse, false)
  {
    UndoIsNext(w, k, Changing(w.links, inverse));
  }

  lemma UndoIsNext(w: World, k: nat, ops: seq<LinkOp>)
    requires Enabled(w, Undo(k)) && ops == Changing(w.links, Inverses(w.log[k].ops))
    ensures Next(w, Undo(k))
            == if ops == [] then w
               else World(ApplyOps(w.links, ops), w.log[k := w.log[k].(undone := true)] + [Command(ops, false)])
  {
  }

  lemma RedoEnabled(w: World, k: nat)
    requires Good(w) && Enabled(w, Undo(k)) && |Next(w, Undo(k)).log| > |w.log|
    ensures Good(Next(w, Undo(k))) && Enabled(Next(w, Undo(k)), Undo(|w.log|))
  {
    StepKeeps(w, Undo(k));
    var a, b, linked := UndoMakes(w, k);
  }

  /** An undo and its redo: every link of every task is as it was before the undo. */
  lemma RedoPutsItBack(w: World, k: nat, t: string, id: string)
    requires Good(w) && Enabled(w, Undo(k)) && |Next(w, Undo(k)).log| > |w.log| && t in w.links
    ensures var v := Next(w, Undo(k));
            && Enabled(v, Undo(|w.log|)) && t in Next(v, Undo(|w.log|)).links
            && (id in Next(v, Undo(|w.log|)).links[t] <==> id in w.links[t])
  {
    RedoEnabled(w, k);
    var v := Next(w, Undo(k));
    var a, b, linked := UndoMakes(w, k);
    assert t in v.links;
    var a', b', linked' := UndoKeepsTheOthers(v, |w.log|, t, id);
    SameBoth(a', b', linked', a, b, !linked);
    OnlyThatLink(w.links, a, b, !linked, t, id);
    assert b in w.links[a] <==> a in w.links[b];
  }
}
