/**
 A log of commands and undos, whatever it is they change: which command a bare
 undo picks, and why a run of commands and bare undos behaves as a stack of
 copies of the state would.
 */
module CommandLog {
  import opened Entities

  /** A command, or an undo of the one at `undoes`. `auto` is one the daemon made by itself. */
  datatype Command<O> = Command(id: string, undoes: Option<nat>, auto: bool, ops: O)

  predicate WasUndone<O>(log: seq<Command<O>>, i: nat)
  {
    exists j :: 0 <= j < |log| && log[j].undoes == Some(i)
  }

  /** Made by the user, not itself an undo, and with no undo logged of it. */
  predicate Live<O>(log: seq<Command<O>>, i: nat)
    requires i < |log|
  {
    log[i].undoes.None? && !log[i].auto && !WasUndone(log, i)
  }

  /** What `undo` with no operation named picks: the latest of them. */
  function LastUndoable<O>(log: seq<Command<O>>, n: nat): (r: Option<nat>)
    requires n <= |log|
    ensures r.Some? ==> r.value < n && Live(log, r.value)
    ensures forall i :: 0 <= i < n && Live(log, i) ==> r.Some? && i <= r.value
  {
    if n == 0 then None
    else if Live(log, n - 1) then Some(n - 1)
    else LastUndoable(log, n - 1)
  }

  /** An undo undoes a command before it. */
  ghost predicate GoodLog<O>(log: seq<Command<O>>)
  {
    forall j :: 0 <= j < |log| && log[j].undoes.Some? ==> log[j].undoes.value < j
  }

  ghost predicate NoneLive<O>(log: seq<Command<O>>, base: nat)
  {
    forall i :: 0 <= i < base && i < |log| ==> !Live(log, i)
  }

  lemma LiveAfter<O>(log: seq<Command<O>>, c: Command<O>, i: nat)
    requires i < |log|
    ensures Live(log + [c], i) <==> Live(log, i) && c.undoes != Some(i)
  {
    var longer := log + [c];
    if WasUndone(log, i) {
      var j :| 0 <= j < |log| && log[j].undoes == Some(i);
      assert longer[j].undoes == Some(i);
    }
    if c.undoes == Some(i) {
      assert longer[|log|].undoes == Some(i);
    }
  }

  lemma NoneLiveStays<O>(log: seq<Command<O>>, c: Command<O>, base: nat)
    requires base <= |log| && NoneLive(log, base)
    ensures NoneLive(log + [c], base)
  {
    forall i | 0 <= i < base ensures !Live(log + [c], i) {
      LiveAfter(log, c, i);
    }
  }

  /** A new command isn't undone yet. */
  lemma NewNotUndone<O>(log: seq<Command<O>>, c: Command<O>)
    requires GoodLog(log) && (c.undoes.Some? ==> c.undoes.value < |log|)
    ensures GoodLog(log + [c]) && !WasUndone(log + [c], |log|)
  {
  }

  // ----- The live commands since some point -----

  /** `live` lists the live commands from `base` on, in order. */
  ghost predicate LiveList<O>(log: seq<Command<O>>, live: seq<nat>, base: nat)
  {
    && (forall k :: 0 <= k < |live| ==> base <= live[k] < |log| && Live(log, live[k]))
    && (forall j, k :: 0 <= j < k < |live| ==> live[j] < live[k])
    && (forall i :: base <= i < |log| && Live(log, i) ==> i in live)
  }

  /** Whatever the log held before, a bare undo finds the latest live command since. */
  lemma LastIsLatest<O>(log: seq<Command<O>>, live: seq<nat>, base: nat)
    requires LiveList(log, live, base)
    ensures live != [] ==> LastUndoable(log, |log|) == Some(live[|live| - 1])
    ensures live == [] && NoneLive(log, base) ==> LastUndoable(log, |log|) == None
  {
    var latest := LastUndoable(log, |log|);
    if live != [] {
      assert Live(log, live[|live| - 1]) && latest.value in live;
      var k :| 0 <= k < |live| && live[k] == latest.value;
    }
  }

  lemma LiveGrows<O>(log: seq<Command<O>>, live: seq<nat>, base: nat, c: Command<O>)
    requires GoodLog(log) && base <= |log| && LiveList(log, live, base) && c.undoes.None? && !c.auto
    ensures LiveList(log + [c], live + [|log|], base)
  {
    var longer, more := log + [c], live + [|log|];
    NewNotUndone(log, c);
    forall i | base <= i < |longer| ensures i in more <==> Live(longer, i) {
      if i < |log| {
        LiveAfter(log, c, i);
        assert i in live <==> i in more;
      } else {
        assert more[|live|] == i;
      }
    }
  }

  lemma LivePops<O>(log: seq<Command<O>>, live: seq<nat>, base: nat, c: Command<O>)
    requires base <= |log| && LiveList(log, live, base) && live != [] && c.undoes == Some(live[|live| - 1])
    ensures LiveList(log + [c], live[..|live| - 1], base)
  {
    var longer, fewer := log + [c], live[..|live| - 1];
    forall k | 0 <= k < |fewer| ensures Live(longer, fewer[k]) {
      LiveAfter(log, c, live[k]);
    }
    forall i | base <= i < |longer| && Live(longer, i) ensures i in fewer {
      LiveAfter(log, c, i);
      var k :| 0 <= k < |live| && live[k] == i;
      assert fewer[k] == i;
    }
  }

  // ----- The stack of copies -----

  /** Each of the first `n` live commands leads from its copy to the next. */
  ghost predicate Stacked<O(!new), S(!new)>(
    leads: (O, S, S) -> bool, log: seq<Command<O>>, live: seq<nat>, path: seq<S>, n: nat)
    requires n <= |live| && n < |path|
  {
    n > 0 ==>
      && Stacked(leads, log, live, path, n - 1)
      && live[n - 1] < |log| && leads(log[live[n - 1]].ops, path[n - 1], path[n])
  }

  lemma {:induction false} StackedAgain<O(!new), S(!new)>(
    leads: (O, S, S) -> bool, log: seq<Command<O>>, live: seq<nat>, path: seq<S>,
    log': seq<Command<O>>, live': seq<nat>, path': seq<S>, n: nat)
    requires n <= |live| && n < |path| && Stacked(leads, log, live, path, n)
    requires |log| <= |log'| && forall i :: 0 <= i < |log| ==> log'[i] == log[i]
    requires n <= |live'| && forall k :: 0 <= k < n ==> live'[k] == live[k]
    requires n < |path'| && forall k :: 0 <= k <= n ==> path'[k] == path[k]
    ensures Stacked(leads, log', live', path', n)
  {
    if n > 0 {
      StackedAgain(leads, log, live, path, log', live', path', n - 1);
    }
  }

  /**
   Since the log was `base` long, the run has behaved as the copies `h` do:
   one from before each live command, the oldest first, then the state now.
   */
  ghost predicate Refines<O(!new), S(!new)>(
    leads: (O, S, S) -> bool, state: S, log: seq<Command<O>>, h: seq<S>, live: seq<nat>, base: nat)
  {
    && GoodLog(log) && base <= |log| && LiveList(log, live, base)
    && |h| == |live| + 1 && Stacked(leads, log, live, h, |live|) && state == h[|live|]
  }

  lemma StartRefines<O(!new), S(!new)>(leads: (O, S, S) -> bool, state: S, log: seq<Command<O>>)
    requires GoodLog(log)
    ensures Refines(leads, state, log, [state], [], |log|)
  {
  }

  /** A user's command adds a copy. */
  lemma PushedRefines<O(!new), S(!new)>(
    leads: (O, S, S) -> bool, state: S, log: seq<Command<O>>, h: seq<S>, live: seq<nat>, base: nat, c: Command<O>, to: S)
    requires Refines(leads, state, log, h, live, base) && c.undoes.None? && !c.auto && leads(c.ops, state, to)
    ensures Refines(leads, to, log + [c], h + [to], live + [|log|], base)
  {
    NewNotUndone(log, c);
    LiveGrows(log, live, base, c);
    StackedAgain(leads, log, live, h, log + [c], live + [|log|], h + [to], |live|);
  }

  /** A bare undo drops the last. */
  lemma PoppedRefines<O(!new), S(!new)>(
    leads: (O, S, S) -> bool, state: S, log: seq<Command<O>>, h: seq<S>, live: seq<nat>, base: nat, c: Command<O>)
    requires Refines(leads, state, log, h, live, base) && live != [] && c.undoes == Some(live[|live| - 1])
    ensures Refines(leads, h[|live| - 1], log + [c], h[..|live|], live[..|live| - 1], base)
  {
    NewNotUndone(log, c);
    LivePops(log, live, base, c);
    var n := |live| - 1;
    StackedAgain(leads, log, live, h, log + [c], live[..n], h[..n + 1], n);
  }

  /** What a bare undo picks led from the last copy to the state now. */
  lemma PicksTheLast<O(!new), S(!new)>(
    leads: (O, S, S) -> bool, state: S, log: seq<Command<O>>, h: seq<S>, live: seq<nat>, base: nat)
    requires Refines(leads, state, log, h, live, base)
    ensures live != [] ==>
              && LastUndoable(log, |log|) == Some(live[|live| - 1]) && live[|live| - 1] < |log|
              && !WasUndone(log, live[|live| - 1])
              && leads(log[live[|live| - 1]].ops, h[|live| - 1], state)
    ensures live == [] && NoneLive(log, base) ==> LastUndoable(log, |log|) == None
  {
    LastIsLatest(log, live, base);
  }
}
