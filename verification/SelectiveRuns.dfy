/**
 Undoing by name a command from anywhere in the log of a run of changes and
 undos, bare or by name: when no later operation touched what it set, it is
 as if every other logged operation had been made without it.
 */
module SelectiveRuns {
  import opened Entities
  import opened OpIds
  import opened Outbox
  import opened Undo
  import opened UndoSafety
  import opened CommandLog
  import opened UndoRuns
  import opened UndoSelective
  import opened AskedRuns

  // ----- Commands that lead from one cache to the next -----

  /** A row as any of these commands or undos logs it. */
  ghost predicate SoundRow(row: Op)
  {
    && TimesFlagged(row.op) && row.rollback.Some? && Timely(row)
    && (row.op.kind.Update? ==> Timed(row.rollback.value))
  }

  ghost predicate SoundRows(rows: seq<Op>)
  {
    forall i :: 0 <= i < |rows| ==> SoundRow(rows[i])
  }

  ghost predicate Link(rows: seq<Op>, from: Cache, to: Cache)
  {
    rows != [] && Transition(rows, from, to) && SoundRows(rows)
  }

  ghost predicate AllFlagged(ops: seq<NewOp>)
  {
    forall i :: 0 <= i < |ops| ==> TimesFlagged(ops[i])
  }

  lemma OpKeepsTimed(cache: Cache, op: NewOp)
    requires op.task in cache && FieldOp(op) && TimesFlagged(op) && TimedCache(cache)
    ensures TimedCache(ApplyOp(cache, op))
  {
  }

  /** Reminders stay times. */
  lemma {:induction false} KeepsTimed(cache: Cache, ops: seq<NewOp>, n: nat)
    requires n <= |ops| && Cached(cache, ops) && AllFieldOps(ops) && AllFlagged(ops) && TimedCache(cache)
    ensures TimedCache(ApplyFirst(cache, ops, n))
  {
    if n > 0 {
      KeepsTimed(cache, ops, n - 1);
      OpKeepsTimed(ApplyFirst(cache, ops, n - 1), ops[n - 1]);
    }
  }

  /** A planned command, queued, is a link. */
  lemma QueueLinks(cache: Cache, ops: seq<NewOp>)
    requires ops != [] && Planned(cache, ops) && AllFlagged(ops) && TimedCache(cache)
    ensures Link(Queue(cache, ops), cache, ApplyAll(cache, ops))
    ensures CleanCache(ApplyAll(cache, ops)) && TimedCache(ApplyAll(cache, ops))
  {
    var rows := Queue(cache, ops);
    QueueRecords(cache, ops);
    forall i | 0 <= i < |rows| ensures SoundRow(rows[i]) {
      assert rows[i] == Op(ops[i], Before(ops[i], ApplyFirst(cache, ops, i)[ops[i].task]), Pending);
      assert Timely(rows[i]);
      KeepsTimed(cache, ops, i);
    }
    KeepsTimed(cache, ops, |ops|);
    FieldOpsKeepClean(cache, ops, |ops|);
  }

  // ----- An undo, however much of it was refused, is a planned command -----

  /** Whatever the task is now, an inverse keeps the time in turn. */
  lemma InverseSound(row: Op, cache: Cache, id: string)
    requires Undoable(row, cache) && FieldOp(row.op) && SoundRow(row)
    ensures KeepsTime(InverseOf(row, cache, id), cache[row.op.task].raw) && TimesFlagged(InverseOf(row, cache, id))
  {
    var op, before, now := row.op, row.rollback.value, Target(row.op, cache[row.op.task]);
    InverseSends(op, before, now, REMINDER);
    InverseSends(op, before, now, REMINDER_ON);
    if REMINDER in op.body {
      HoldsField(op.body, now, REMINDER);
    }
    if REMINDER_ON in op.body {
      HoldsField(op.body, now, REMINDER_ON);
    }
    if REMINDER in InverseBody(op, before, now) {
      InverseValues(op, before, now, REMINDER);
    }
    if REMINDER_ON in InverseBody(op, before, now) {
      InverseValues(op, before, now, REMINDER_ON);
    }
  }

  lemma UndoIsPlanned(rows: seq<Op>, cache: Cache, id: string, inverse: seq<NewOp>)
    requires FieldCommand(rows) && DisjointClaims(Sent(rows)) && SoundRows(rows) && CleanCache(cache)
    requires forall i :: 0 <= i < |rows| ==> rows[i].op.task in cache && !cache[rows[i].op.task].deleted
    requires UndoPlan(rows, cache, id).Ok? && inverse == UndoPlan(rows, cache, id).value.inverse
    ensures inverse != [] && Planned(cache, inverse) && AllFlagged(inverse)
  {
    UndoDisjoint(rows, cache, id);
    forall k | 0 <= k < |inverse|
      ensures TimesFlagged(inverse[k]) && !cache[inverse[k].task].deleted
      ensures KeepsTime(inverse[k], cache[inverse[k].task].raw)
    {
      InverseAt(rows, cache, id, inverse, k);
    }
  }

  lemma InverseAt(rows: seq<Op>, cache: Cache, id: string, inverse: seq<NewOp>, k: nat)
    requires FieldCommand(rows) && SoundRows(rows)
    requires forall i :: 0 <= i < |rows| ==> rows[i].op.task in cache && !cache[rows[i].op.task].deleted
    requires UndoPlan(rows, cache, id).Ok? && inverse == UndoPlan(rows, cache, id).value.inverse && k < |inverse|
    ensures inverse[k].task in cache && !cache[inverse[k].task].deleted
    ensures TimesFlagged(inverse[k]) && KeepsTime(inverse[k], cache[inverse[k].task].raw)
  {
    PlanShape(rows, cache, id);
    var row := rows[Restored(rows, cache, id, |rows|)[k]];
    assert inverse[k] == InverseOf(row, cache, OpIdFor(id, k)) && SoundRow(row);
    InverseSound(row, cache, OpIdFor(id, k));
  }

  // ----- The log as a chain of caches -----

  /** The command at `base + i` led from one cache of `path` to the next. */
  ghost predicate Linked(w: World, path: seq<Cache>, base: nat, i: nat)
  {
    i + 1 < |path| && base + i < |w.log| && Link(w.log[base + i].ops, path[i], path[i + 1])
  }

  /** So did each since `base`, and the last cache is the cache now. */
  ghost predicate Chain(w: World, path: seq<Cache>, base: nat)
  {
    && base <= |w.log| && |path| == |w.log| - base + 1 && w.cache == path[|path| - 1]
    && CleanCache(w.cache) && TimedCache(w.cache)
    && forall i :: 0 <= i < |w.log| - base ==> Linked(w, path, base, i)
  }

  lemma LinkedStays(w: World, path: seq<Cache>, base: nat, c: UndoRuns.Command, to: Cache, i: nat)
    requires Linked(w, path, base, i)
    ensures Linked(World(to, w.log + [c]), path + [to], base, i)
  {
    assert (path + [to])[i] == path[i] && (path + [to])[i + 1] == path[i + 1];
    assert (w.log + [c])[base + i] == w.log[base + i];
  }

  lemma ChainGrows(w: World, path: seq<Cache>, base: nat, c: UndoRuns.Command, to: Cache)
    requires Chain(w, path, base) && Link(c.ops, w.cache, to) && CleanCache(to) && TimedCache(to)
    ensures Chain(World(to, w.log + [c]), path + [to], base)
  {
    var v, n := World(to, w.log + [c]), |w.log| - base;
    forall i | 0 <= i < n + 1 ensures Linked(v, path + [to], base, i) {
      if i < n {
        assert Linked(w, path, base, i);
        LinkedStays(w, path, base, c, to, i);
      } else {
        assert (path + [to])[i] == w.cache && (path + [to])[i + 1] == to && v.log[base + i] == c;
      }
    }
  }

  // ----- Replaying the log -----

  /** The operations logged from `a` up to `b`, in order. */
  ghost function OpsOf(log: seq<UndoRuns.Command>, a: nat, b: nat): seq<NewOp>
    requires a <= b <= |log|
  {
    if a == b then [] else OpsOf(log, a, b - 1) + Sent(log[b - 1].ops)
  }

  /** Field operations of the kind the chain holds, on live tasks of `cache`. */
  ghost predicate Fits(ops: seq<NewOp>, cache: Cache)
  {
    && Cached(cache, ops) && AllFieldOps(ops)
    && forall j :: 0 <= j < |ops| ==> WritesFlagWithTime(ops[j]) && !cache[ops[j].task].deleted
  }

  lemma LinkFits(rows: seq<Op>, from: Cache, to: Cache)
    requires Link(rows, from, to)
    ensures Fits(Sent(rows), from) && ApplyAll(from, Sent(rows)) == to
  {
    forall j | 0 <= j < |rows| ensures WritesFlagWithTime(Sent(rows)[j]) && !from[Sent(rows)[j].task].deleted {
      assert SoundRow(rows[j]);
    }
  }

  lemma MoreFits(ops: seq<NewOp>, more: seq<NewOp>, from: Cache, mid: Cache, all: seq<NewOp>)
    requires Fits(ops, from) && ApplyAll(from, ops) == mid && Fits(more, mid) && all == ops + more
    ensures Fits(all, from) && ApplyAll(from, all) == ApplyAll(mid, more)
  {
    FieldOpsKeepLife(from, ops, |ops|);
    ApplyAllConcat(from, ops, more);
  }

  /** Replaying the commands from `a` up to `b` leads from one cache of the chain to the other. */
  lemma {:induction false} Replays(w: World, path: seq<Cache>, base: nat, a: nat, b: nat, ops: seq<NewOp>)
    requires Chain(w, path, base) && base <= a <= b <= |w.log| && ops == OpsOf(w.log, a, b)
    ensures Fits(ops, path[a - base]) && ApplyAll(path[a - base], ops) == path[b - base]
    decreases b
  {
    if a < b {
      var fewer := OpsOf(w.log, a, b - 1);
      Replays(w, path, base, a, b - 1, fewer);
      OneMore(w, path, base, a, b, fewer, ops);
    }
  }

  lemma OneMore(w: World, path: seq<Cache>, base: nat, a: nat, b: nat, fewer: seq<NewOp>, ops: seq<NewOp>)
    requires Chain(w, path, base) && base <= a < b <= |w.log| && ops == fewer + Sent(w.log[b - 1].ops)
    requires Fits(fewer, path[a - base]) && ApplyAll(path[a - base], fewer) == path[b - 1 - base]
    ensures Fits(ops, path[a - base]) && ApplyAll(path[a - base], ops) == path[b - base]
  {
    assert Linked(w, path, base, b - 1 - base);
    LinkFits(w.log[b - 1].ops, path[b - 1 - base], path[b - base]);
    MoreFits(fewer, Sent(w.log[b - 1].ops), path[a - base], path[b - 1 - base], ops);
  }

  // ----- Every act of a run adds one link to the chain -----

  /** A change, or an undo of the command at `target`, or of the last one that can be. */
  datatype Act = Do(id: string, ops: seq<NewOp>) | Undo(id: string, target: Option<nat>)

  ghost function Picked(w: World, act: Act): Option<nat>
    requires act.Undo?
  {
    if act.target.Some? then act.target else LastUndoable(w.log, |w.log|)
  }

  /** A change asked for; an undo of something logged since `base`, or one that finds nothing. */
  ghost predicate CanAct(w: World, act: Act, base: nat)
  {
    match act
    case Do(id, ops) => Asked(w.cache, id, ops) && Cached(w.cache, ops)
    case Undo(_, _) => Picked(w, act).Some? ==> base <= Picked(w, act).value < |w.log|
  }

  ghost function ActNext(w: World, act: Act, base: nat): World
    requires CanAct(w, act, base)
  {
    match act
    case Do(id, ops) => Issue(w, id, ops)
    case Undo(id, _) =>
      match Picked(w, act)
      case None => w
      case Some(target) => match UndoAt(w, target, id) case Ok(undone) => undone case Err(_) => w
  }

  lemma DoChains(w: World, path: seq<Cache>, base: nat, act: Act)
    requires Chain(w, path, base) && act.Do? && CanAct(w, act, base) && act.ops != []
    ensures Chain(ActNext(w, act, base), path + [ActNext(w, act, base).cache], base)
  {
    AskedIsPlanned(w.cache, act.id, act.ops);
    QueueLinks(w.cache, act.ops);
    var c := CommandLog.Command(act.id, None, false, Queue(w.cache, act.ops));
    ChainGrows(w, path, base, c, ApplyAll(w.cache, act.ops));
  }

  /** What the chain's commands wrote is live now. */
  lemma StillLive(w: World, path: seq<Cache>, base: nat, target: nat)
    requires Chain(w, path, base) && base <= target < |w.log|
    ensures var rows := w.log[target].ops;
            && FieldCommand(rows) && DisjointClaims(Sent(rows)) && SoundRows(rows)
            && forall i :: 0 <= i < |rows| ==> rows[i].op.task in w.cache && !w.cache[rows[i].op.task].deleted
  {
    var from, to := ItsLink(w, path, base, target);
    var since := OpsOf(w.log, target, |w.log|);
    ReplaysFrom(w, path, base, target, |w.log|, since, from, w.cache);
    LinkStaysLive(w.log[target].ops, from, to, since, w.cache);
  }

  lemma LinkStaysLive(rows: seq<Op>, from: Cache, to: Cache, since: seq<NewOp>, now: Cache)
    requires Link(rows, from, to) && Fits(since, from) && now == ApplyAll(from, since)
    ensures forall i :: 0 <= i < |rows| ==> rows[i].op.task in now && !now[rows[i].op.task].deleted
  {
    FieldOpsKeepLife(from, since, |since|);
    assert forall i :: 0 <= i < |rows| ==> rows[i].op.task == Sent(rows)[i].task;
  }

  lemma UndoChains(w: World, path: seq<Cache>, base: nat, target: nat, id: string)
    requires Chain(w, path, base) && base <= target < |w.log| && UndoAt(w, target, id).Ok?
    ensures var v := UndoAt(w, target, id).value; Chain(v, path + [v.cache], base)
  {
    StillLive(w, path, base, target);
    var inverse := UndoPlan(w.log[target].ops, w.cache, id).value.inverse;
    UndoIsPlanned(w.log[target].ops, w.cache, id, inverse);
    QueueLinks(w.cache, inverse);
    var c := CommandLog.Command(id, Some(target), false, Queue(w.cache, inverse));
    ChainGrows(w, path, base, c, ApplyAll(w.cache, inverse));
  }

  lemma ActChains(w: World, path: seq<Cache>, base: nat, act: Act) returns (path': seq<Cache>)
    requires Chain(w, path, base) && CanAct(w, act, base)
    ensures Chain(ActNext(w, act, base), path', base) && path' != [] && path'[0] == path[0]
  {
    path' := path;
    if act.Do? {
      if act.ops != [] {
        DoChains(w, path, base, act);
        path' := path + [ActNext(w, act, base).cache];
      }
    } else if Picked(w, act).Some? && UndoAt(w, Picked(w, act).value, act.id).Ok? {
      UndoChains(w, path, base, Picked(w, act).value, act.id);
      path' := path + [ActNext(w, act, base).cache];
    }
  }

  ghost predicate Acts(w: World, acts: seq<Act>, base: nat)
    decreases |acts|
  {
    acts != [] ==> CanAct(w, acts[0], base) && Acts(ActNext(w, acts[0], base), acts[1..], base)
  }

  ghost function AfterActs(w: World, acts: seq<Act>, base: nat): World
    requires Acts(w, acts, base)
    decreases |acts|
  {
    if acts == [] then w else AfterActs(ActNext(w, acts[0], base), acts[1..], base)
  }

  lemma {:induction false} ActsChain(w: World, path: seq<Cache>, base: nat, acts: seq<Act>) returns (path': seq<Cache>)
    requires Chain(w, path, base) && Acts(w, acts, base)
    ensures Chain(AfterActs(w, acts, base), path', base) && path' != [] && path'[0] == path[0]
    decreases |acts|
  {
    path' := path;
    if acts != [] {
      path' := ActChains(w, path, base, acts[0]);
      path' := ActsChain(ActNext(w, acts[0], base), path', base, acts[1..]);
    }
  }

  // ----- Undoing one of them -----

  /**
   In a chain, undoing any command whose fields no later logged operation
   touched, whatever was undone in between: it succeeds whole, and the cache
   is what every other logged operation gives without it.
   */
  lemma SelectiveInChain(
    w: World, path: seq<Cache>, base: nat, target: nat, id: string, before: seq<NewOp>, later: seq<NewOp>)
    requires Chain(w, path, base) && base <= target < |w.log|
    requires before == OpsOf(w.log, base, target) && later == OpsOf(w.log, target + 1, |w.log|)
    requires Untouched(w.log[target].ops, later) && !WasUndone(w.log, target)
    ensures UndoPlan(w.log[target].ops, w.cache, id).Ok? && UndoPlan(w.log[target].ops, w.cache, id).value.refused == []
    ensures UndoAt(w, target, id).Ok? && Cached(path[0], before + later)
    ensures UndoAt(w, target, id).value.cache == ApplyAll(path[0], before + later)
  {
    var from, to := AroundIt(w, path, base, target, before, later);
    SelectiveLink(path[0], before, w.log[target].ops, from, to, later, w.cache, id);
    UndoAtIs(w, target, id);
  }

  /** The run before the command, the command, and the run after it. */
  lemma AroundIt(w: World, path: seq<Cache>, base: nat, target: nat, before: seq<NewOp>, later: seq<NewOp>)
    returns (from: Cache, to: Cache)
    requires Chain(w, path, base) && base <= target < |w.log|
    requires before == OpsOf(w.log, base, target) && later == OpsOf(w.log, target + 1, |w.log|)
    ensures Fits(before, path[0]) && ApplyAll(path[0], before) == from
    ensures Link(w.log[target].ops, from, to)
    ensures Fits(later, to) && ApplyAll(to, later) == w.cache
  {
    from, to := ItsLink(w, path, base, target);
    ReplaysFrom(w, path, base, base, target, before, path[0], from);
    ReplaysFrom(w, path, base, target + 1, |w.log|, later, to, w.cache);
  }

  lemma ItsLink(w: World, path: seq<Cache>, base: nat, target: nat) returns (from: Cache, to: Cache)
    requires Chain(w, path, base) && base <= target < |w.log|
    ensures from == path[target - base] && to == path[target + 1 - base] && Link(w.log[target].ops, from, to)
  {
    from, to := path[target - base], path[target + 1 - base];
    assert Linked(w, path, base, target - base);
  }

  lemma ReplaysFrom(
    w: World, path: seq<Cache>, base: nat, a: nat, b: nat, ops: seq<NewOp>, start: Cache, end: Cache)
    requires Chain(w, path, base) && base <= a <= b <= |w.log| && ops == OpsOf(w.log, a, b)
    requires start == path[a - base] && end == path[b - base]
    ensures Fits(ops, start) && ApplyAll(start, ops) == end
  {
    Replays(w, path, base, a, b, ops);
  }

  lemma SelectiveLink(
    start: Cache, before: seq<NewOp>, rows: seq<Op>, from: Cache, to: Cache, later: seq<NewOp>, now: Cache, id: string)
    requires Fits(before, start) && ApplyAll(start, before) == from && Link(rows, from, to)
    requires Fits(later, to) && ApplyAll(to, later) == now && Untouched(rows, later)
    ensures UndoPlan(rows, now, id).Ok? && UndoPlan(rows, now, id).value.refused == []
    ensures Cached(start, before + later) && Undone(rows, now, id) == ApplyAll(start, before + later)
  {
    assert Earlier(rows, later, from, to, now);
    TransitionKeepsLife(rows, from, to);
    SelectiveUndo(start, before, rows, later, to, now, id);
  }

  lemma UndoAtIs(w: World, target: nat, id: string)
    requires target < |w.log| && !WasUndone(w.log, target) && FieldCommand(w.log[target].ops)
    requires UndoPlan(w.log[target].ops, w.cache, id).Ok?
    ensures UndoAt(w, target, id).Ok? && UndoAt(w, target, id).value.cache == Undone(w.log[target].ops, w.cache, id)
  {
  }

  /**
   After any run of changes asked for and of undos, bare or by name, whole or
   partly refused, undoing by name any of its commands or undos that isn't
   undone and whose fields nothing logged later touched: it succeeds whole,
   and the cache is what replaying the run's other operations from the start
   gives.
   */
  lemma SelectiveInRun(w: World, acts: seq<Act>, v: World, target: nat, id: string, others: seq<NewOp>)
    requires CleanCache(w.cache) && TimedCache(w.cache) && Acts(w, acts, |w.log|) && v == AfterActs(w, acts, |w.log|)
    requires |w.log| <= target < |v.log| && !WasUndone(v.log, target)
    requires Untouched(v.log[target].ops, OpsOf(v.log, target + 1, |v.log|))
    requires others == OpsOf(v.log, |w.log|, target) + OpsOf(v.log, target + 1, |v.log|)
    ensures UndoPlan(v.log[target].ops, v.cache, id).Ok? && UndoPlan(v.log[target].ops, v.cache, id).value.refused == []
    ensures UndoAt(v, target, id).Ok? && Cached(w.cache, others)
    ensures UndoAt(v, target, id).value.cache == ApplyAll(w.cache, others)
  {
    var path := ActsChain(w, [w.cache], |w.log|, acts);
    SelectiveInChain(v, path, |w.log|, target, id,
                     OpsOf(v.log, |w.log|, target), OpsOf(v.log, target + 1, |v.log|));
  }
}
