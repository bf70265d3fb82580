/**
 At-most-once keys. A request under a key claims it, runs its change, and
 then records the result or frees the key. Requests run side by side, can be
 abandoned half way, their bookkeeping writes can fail, and the daemon can
 stop at any moment and start again.
 */
module Idempotency {
  import opened Entities

  /** What a key's result says once it has one. */
  datatype Outcome = Success(data: string) | Lost(op: string)

  /** A key in the store; `result` is `None` while its request runs. */
  datatype Row = Row(fingerprint: string, op: string, result: Option<Outcome>)

  type Keys = map<string, Row>

  datatype Claim = Fresh | Replay(outcome: Outcome) | Running(op: string) | Mismatch

  datatype Answer = Done(data: string) | OutcomeUnknown(op: string) | OtherRequest | Refused(why: string) | StoreFailed

  // ----- The store -----

  function ClaimOf(keys: Keys, key: string, fingerprint: string): Claim
  {
    if key !in keys then Fresh
    else if keys[key].fingerprint != fingerprint then Mismatch
    else
      match keys[key].result
      case Some(outcome) => Replay(outcome)
      case None => Running(keys[key].op)
  }

  function Claimed(keys: Keys, key: string, fingerprint: string, op: string): Keys
  {
    if key in keys then keys else keys[key := Row(fingerprint, op, None)]
  }

  function Finished(keys: Keys, key: string, outcome: Outcome): Keys
  {
    if key in keys then keys[key := keys[key].(result := Some(outcome))] else keys
  }

  function Released(keys: Keys, key: string): Keys
  {
    keys - {key}
  }

  /** After a restart: a key with no result gets an unknown outcome, but for those whose write failed. */
  function Settled(keys: Keys, failing: set<string>): Keys
  {
    map k | k in keys ::
      if keys[k].result.None? && k !in failing then keys[k].(result := Some(Lost(keys[k].op))) else keys[k]
  }

  class KeyStore {
    var keys: Keys

    constructor ()
      ensures keys == map[]
    {
      keys := map[];
    }

    method ClaimKey(key: string, fingerprint: string, op: string) returns (claim: Claim)
      modifies this
      ensures claim == ClaimOf(old(keys), key, fingerprint)
      ensures keys == Claimed(old(keys), key, fingerprint, op)
    {
      if key !in keys {
        keys := keys[key := Row(fingerprint, op, None)];
        return Fresh;
      }
      var row := keys[key];
      if row.fingerprint != fingerprint {
        return Mismatch;
      }
      if row.result.Some? {
        return Replay(row.result.value);
      }
      return Running(row.op);
    }

    method FinishKey(key: string, outcome: Outcome)
      modifies this
      ensures keys == Finished(old(keys), key, outcome)
    {
      if key in keys {
        keys := keys[key := keys[key].(result := Some(outcome))];
      }
    }

    method ReleaseKey(key: string)
      modifies this
      ensures keys == Released(old(keys), key)
    {
      keys := keys - {key};
    }

    /** The loop at start-up over the keys found with no result. */
    method SettleUnfinished(unfinished: seq<string>, failing: set<string>)
      requires forall k :: k in unfinished <==> k in keys && keys[k].result.None?
      modifies this
      ensures keys == Settled(old(keys), failing)
      ensures forall k :: k in old(keys) && old(keys)[k].result.Some? ==> k in keys && keys[k] == old(keys)[k]
      ensures forall k :: k in unfinished && k !in failing ==> keys[k].result == Some(Lost(old(keys)[k].op))
    {
      var i := 0;
      while i < |unfinished|
        invariant 0 <= i <= |unfinished|
        invariant keys.Keys == old(keys).Keys
        invariant forall k :: k in keys ==>
                    keys[k] == if k in unfinished[..i] && k !in failing
                               then old(keys)[k].(result := Some(Lost(old(keys)[k].op))) else old(keys)[k]
      {
        var key := unfinished[i];
        assert key in old(keys);
        assert unfinished[..i + 1] == unfinished[..i] + [key];
        if key !in failing {
          FinishKey(key, Lost(keys[key].op));
        }
        i := i + 1;
      }
      assert unfinished[..i] == unfinished;
    }

    /** A request with nothing in its way: `result` is what its change gives, `recorded` whether the write after it works. */
    method RunOnce(
      key: Option<string>, fingerprint: string, op: string, result: Result<string, string>, recorded: bool)
      returns (answer: Answer, ran: bool)
      modifies this
      ensures ran <==> key.None? || key.value !in old(keys)
      ensures ran ==> answer == if result.Ok? then Done(result.value) else Refused(result.error)
      ensures !ran ==> answer == Repeat(ClaimOf(old(keys), key.value, fingerprint)) && keys == old(keys)
      ensures key.None? ==> keys == old(keys)
      ensures key.Some? && ran ==>
                keys == if !recorded then old(keys)[key.value := Row(fingerprint, op, None)]
                        else if result.Ok? then old(keys)[key.value := Row(fingerprint, op, Some(Success(result.value)))]
                        else old(keys)
    {
      ran := true;
      if key.Some? {
        var claim := ClaimKey(key.value, fingerprint, op);
        if !claim.Fresh? {
          return Repeat(claim), false;
        }
        if recorded {
          match result {
            case Ok(data) => FinishKey(key.value, Success(data));
            case Err(_) => ReleaseKey(key.value);
          }
        }
      }
      answer := if result.Ok? then Done(result.value) else Refused(result.error);
    }
  }

  /** What a request whose claim isn't fresh is answered. */
  function Repeat(claim: Claim): Answer
    requires !claim.Fresh?
  {
    match claim
    case Replay(Success(data)) => Done(data)
    case Replay(Lost(op)) => OutcomeUnknown(op)
    case Running(op) => OutcomeUnknown(op)
    case Mismatch => OtherRequest
  }

  // ----- Requests side by side -----

  datatype Phase =
    | Holding
    | Succeeded(data: string)
    | Failing(why: string)
    | Answering(answer: Answer)
    | Answered(answer: Answer)
    | Gone

  /** `since` is how many changes were queued when it came. */
  datatype Request = Request(key: string, fingerprint: string, op: string, since: nat, phase: Phase)

  /** A change that was queued. */
  datatype Queued = Queued(key: string, fingerprint: string, op: string, data: string)

  datatype World = World(keys: Keys, requests: seq<Request>, queued: seq<Queued>)

  datatype Event =
    /** A request arrives and claims its key. */
    | Arrive(key: string, fingerprint: string, op: string)
    /** Its claim fails; the key may have been written all the same. */
    | ClaimFails(key: string, fingerprint: string, op: string, written: bool)
    | Succeed(i: nat, data: string)
    | Fail(i: nat, why: string)
    /** The result is recorded, or the key freed; `written` is false when that write fails. */
    | Record(i: nat, written: bool)
    /** An answer on its way is given. */
    | Answer(i: nat)
    | Abandon(i: nat)
    /** A crash or a stop, then start-up: `readable` is whether the keys could be read to settle them. */
    | Restart(readable: bool, failing: set<string>)

  predicate Live(r: Request)
  {
    r.phase.Holding? || r.phase.Succeeded? || r.phase.Failing?
  }

  predicate Enabled(w: World, e: Event)
  {
    match e
    case Succeed(i, _) => i < |w.requests| && w.requests[i].phase.Holding?
    case Fail(i, _) => i < |w.requests| && w.requests[i].phase.Holding?
    case Record(i, _) => i < |w.requests| && (w.requests[i].phase.Succeeded? || w.requests[i].phase.Failing?)
    case Answer(i) => i < |w.requests| && w.requests[i].phase.Answering?
    case Abandon(i) => i < |w.requests| && (Live(w.requests[i]) || w.requests[i].phase.Answering?)
    case _ => true
  }

  function Move(requests: seq<Request>, i: nat, phase: Phase): seq<Request>
    requires i < |requests|
  {
    requests[i := requests[i].(phase := phase)]
  }

  function Stopped(requests: seq<Request>): (r: seq<Request>)
    ensures |r| == |requests|
    ensures forall i :: 0 <= i < |r| ==>
              r[i] == if WasAnswered(requests[i]) then requests[i] else requests[i].(phase := Gone)
  {
    seq(|requests|, i requires 0 <= i < |requests| =>
      if WasAnswered(requests[i]) then requests[i] else requests[i].(phase := Gone))
  }

  predicate WasAnswered(r: Request)
  {
    r.phase.Answered?
  }

  function Next(w: World, e: Event): World
    requires Enabled(w, e)
  {
    match e
    case Arrive(key, fingerprint, op) =>
      var claim := ClaimOf(w.keys, key, fingerprint);
      var phase := if claim.Fresh? then Holding else Answering(Repeat(claim));
      w.(keys := Claimed(w.keys, key, fingerprint, op),
         requests := w.requests + [Request(key, fingerprint, op, |w.queued|, phase)])
    case ClaimFails(key, fingerprint, op, written) =>
      w.(keys := if written then Claimed(w.keys, key, fingerprint, op) else w.keys,
         requests := w.requests + [Request(key, fingerprint, op, |w.queued|, Answering(StoreFailed))])
    case Succeed(i, data) =>
      var r := w.requests[i];
      w.(requests := Move(w.requests, i, Succeeded(data)),
         queued := w.queued + [Queued(r.key, r.fingerprint, r.op, data)])
    case Fail(i, why) => w.(requests := Move(w.requests, i, Failing(why)))
    case Record(i, written) =>
      var r := w.requests[i];
      (match r.phase
       case Succeeded(data) =>
         w.(keys := if written then Finished(w.keys, r.key, Success(data)) else w.keys,
            requests := Move(w.requests, i, Answering(Done(data))))
       case Failing(why) =>
         w.(keys := if written then Released(w.keys, r.key) else w.keys,
            requests := Move(w.requests, i, Answering(Refused(why))))
       case _ => w)
    case Answer(i) => w.(requests := Move(w.requests, i, Answered(w.requests[i].phase.answer)))
    case Abandon(i) => w.(requests := Move(w.requests, i, Gone))
    case Restart(readable, failing) =>
      w.(keys := if readable then Settled(w.keys, failing) else w.keys, requests := Stopped(w.requests))
  }

  ghost predicate ValidRun(w: World, run: seq<Event>)
    decreases |run|
  {
    run != [] ==> Enabled(w, run[0]) && ValidRun(Next(w, run[0]), run[1..])
  }

  ghost function Final(w: World, run: seq<Event>): World
    requires ValidRun(w, run)
    decreases |run|
  {
    if run == [] then w else Final(Next(w, run[0]), run[1..])
  }

  const START := World(map[], [], [])

  // ----- What every step keeps -----

  /** A live request holds its key, unfinished. */
  ghost predicate Holds(w: World, i: nat)
    requires i < |w.requests|
  {
    var r := w.requests[i];
    Live(r) ==> r.key in w.keys && w.keys[r.key] == Row(r.fingerprint, r.op, None)
  }

  ghost predicate OneHolder(w: World)
  {
    forall i, j :: 0 <= i < j < |w.requests| && Live(w.requests[i]) && Live(w.requests[j]) ==>
      w.requests[i].key != w.requests[j].key
  }

  /** A queued change's key is kept for it, with its result, an unknown outcome, or none yet. */
  ghost predicate Kept(keys: Keys, q: Queued)
  {
    && q.key in keys && keys[q.key].fingerprint == q.fingerprint && keys[q.key].op == q.op
    && keys[q.key].result in {None, Some(Success(q.data)), Some(Lost(q.op))}
  }

  /** Whoever holds a queued change's key is the one who queued it. */
  ghost predicate Consistent(w: World, q: Queued)
  {
    forall i :: 0 <= i < |w.requests| && Live(w.requests[i]) && w.requests[i].key == q.key ==>
      w.requests[i].phase == Succeeded(q.data)
  }

  ghost predicate OnePerKey(queued: seq<Queued>)
  {
    forall i, j :: 0 <= i < j < |queued| ==> queued[i].key != queued[j].key
  }

  ghost predicate Good(w: World)
  {
    && (forall i :: 0 <= i < |w.requests| ==> Holds(w, i)) && OneHolder(w) && OnePerKey(w.queued)
    && (forall k :: 0 <= k < |w.queued| ==> Kept(w.keys, w.queued[k]) && Consistent(w, w.queued[k]))
  }

  lemma ArriveGood(w: World, e: Event)
    requires Good(w) && Enabled(w, e) && (e.Arrive? || e.ClaimFails?)
    ensures Good(Next(w, e))
  {
    var v := Next(w, e);
    forall i | 0 <= i < |v.requests| ensures Holds(v, i) {
      if i < |w.requests| {
        assert Holds(w, i);
      }
    }
    forall i, j | 0 <= i < j < |v.requests| && Live(v.requests[i]) && Live(v.requests[j])
      ensures v.requests[i].key != v.requests[j].key
    {
      assert Holds(w, i);
    }
    forall k | 0 <= k < |v.queued| ensures Kept(v.keys, v.queued[k]) && Consistent(v, v.queued[k]) {
      assert Kept(w.keys, w.queued[k]) && Consistent(w, w.queued[k]);
    }
  }

  lemma SucceedGood(w: World, e: Event)
    requires Good(w) && Enabled(w, e) && e.Succeed?
    ensures Good(Next(w, e))
  {
    var v, r := Next(w, e), w.requests[e.i];
    assert Holds(w, e.i);
    forall i | 0 <= i < |v.requests| ensures Holds(v, i) {
      assert Holds(w, i);
    }
    forall k | 0 <= k < |w.queued| ensures w.queued[k].key != r.key {
      assert Consistent(w, w.queued[k]);
    }
    forall k | 0 <= k < |v.queued| ensures Kept(v.keys, v.queued[k]) && Consistent(v, v.queued[k]) {
      if k < |w.queued| {
        assert Kept(w.keys, w.queued[k]) && Consistent(w, w.queued[k]);
      }
    }
  }

  /** Only the holder of a key writes or frees it. */
  lemma RecordGood(w: World, e: Event)
    requires Good(w) && Enabled(w, e) && e.Record?
    ensures Good(Next(w, e))
  {
    var v, r := Next(w, e), w.requests[e.i];
    assert Holds(w, e.i);
    forall i | 0 <= i < |v.requests| ensures Holds(v, i) {
      assert Holds(w, i);
    }
    forall k | 0 <= k < |v.queued| ensures Kept(v.keys, v.queued[k]) && Consistent(v, v.queued[k]) {
      assert Kept(w.keys, w.queued[k]) && Consistent(w, w.queued[k]);
    }
  }

  lemma StopGood(w: World, e: Event)
    requires Good(w) && Enabled(w, e) && (e.Fail? || e.Answer? || e.Abandon? || e.Restart?)
    ensures Good(Next(w, e))
  {
    var v := Next(w, e);
    forall i | 0 <= i < |v.requests| ensures Holds(v, i) {
      assert Holds(w, i);
    }
    forall k | 0 <= k < |v.queued| ensures Kept(v.keys, v.queued[k]) && Consistent(v, v.queued[k]) {
      assert Kept(w.keys, w.queued[k]) && Consistent(w, w.queued[k]);
    }
  }

  lemma StepGood(w: World, e: Event)
    requires Good(w) && Enabled(w, e)
    ensures Good(Next(w, e))
  {
    match e {
      case Arrive(_, _, _) => ArriveGood(w, e);
      case ClaimFails(_, _, _, _) => ArriveGood(w, e);
      case Succeed(_, _) => SucceedGood(w, e);
      case Record(_, _) => RecordGood(w, e);
      case _ => StopGood(w, e);
    }
  }

  lemma {:induction false} RunGood(w: World, run: seq<Event>)
    requires Good(w) && ValidRun(w, run)
    ensures Good(Final(w, run))
    decreases |run|
  {
    if run != [] {
      StepGood(w, run[0]);
      RunGood(Next(w, run[0]), run[1..]);
    }
  }

  // ----- Theorems over every interleaving -----

  /** A key's change is queued at most once. */
  lemma AtMostOnce(run: seq<Event>, i: nat, j: nat)
    requires ValidRun(START, run) && i < j < |Final(START, run).queued|
    ensures Final(START, run).queued[i].key != Final(START, run).queued[j].key
  {
    RunGood(START, run);
  }

  /** Nothing queued is ever forgotten. */
  lemma {:induction false} QueuedStays(w: World, run: seq<Event>)
    requires ValidRun(w, run)
    ensures w.queued <= Final(w, run).queued
    decreases |run|
  {
    if run != [] {
      QueuedStays(Next(w, run[0]), run[1..]);
    }
  }

  /**
   Once a change is queued, whatever happens next: every later request under
   its key is answered at once and changes nothing. The same request gets the
   first result, or that the outcome is unknown with the operation to look
   for, or that the store failed; another request is told the key is taken.
   */
  lemma AnswersAfterSuccess(run: seq<Event>, more: seq<Event>, q: Queued, fingerprint: string, op: string)
    requires ValidRun(START, run) && q in Final(START, run).queued && ValidRun(Final(START, run), more)
    ensures var w := Final(Final(START, run), more);
            var v := Next(w, Arrive(q.key, fingerprint, op));
            && v.keys == w.keys && v.queued == w.queued
            && v.requests == w.requests + [v.requests[|w.requests|]]
            && v.requests[|w.requests|].phase.Answering?
            && var answer := v.requests[|w.requests|].phase.answer;
               if fingerprint == q.fingerprint then answer in {Done(q.data), OutcomeUnknown(q.op)}
               else answer == OtherRequest
    ensures var w := Final(Final(START, run), more);
            forall written :: var v := Next(w, ClaimFails(q.key, fingerprint, op, written));
              && v.keys == w.keys && v.queued == w.queued
              && v.requests == w.requests + [Request(q.key, fingerprint, op, |w.queued|, Answering(StoreFailed))]
  {
    RunGood(START, run);
    RunGood(Final(START, run), more);
    QueuedStays(Final(START, run), more);
    var w := Final(Final(START, run), more);
    var k :| 0 <= k < |Final(START, run).queued| && Final(START, run).queued[k] == q;
    assert w.queued[k] == q;
    assert Kept(w.keys, q);
  }

  /** What a request that comes after `q` was queued, under its key, may be told. */
  ghost predicate Fitting(q: Queued, fingerprint: string, answer: Answer)
  {
    || answer == StoreFailed
    || (if fingerprint == q.fingerprint then answer in {Done(q.data), OutcomeUnknown(q.op)} else answer == OtherRequest)
  }

  /** It never runs, and its answer, given or on its way, fits. */
  ghost predicate Fair(w: World, i: nat)
    requires i < |w.requests|
  {
    var r := w.requests[i];
    && r.since <= |w.queued|
    && forall k :: 0 <= k < r.since && w.queued[k].key == r.key ==>
         && !Live(r)
         && (r.phase.Answering? || r.phase.Answered? ==> Fitting(w.queued[k], r.fingerprint, r.phase.answer))
  }

  ghost predicate AllFair(w: World)
  {
    forall i :: 0 <= i < |w.requests| ==> Fair(w, i)
  }

  lemma ArriveFair(w: World, e: Event, i: nat)
    requires Good(w) && AllFair(w) && Enabled(w, e) && (e.Arrive? || e.ClaimFails?) && i < |Next(w, e).requests|
    ensures Fair(Next(w, e), i)
  {
    var v := Next(w, e);
    if i < |w.requests| {
      assert Fair(w, i) && v.requests[i] == w.requests[i];
    } else {
      forall k | 0 <= k < |w.queued| && w.queued[k].key == e.key
        ensures !Live(v.requests[i]) && Fitting(w.queued[k], e.fingerprint, v.requests[i].phase.answer)
      {
        assert Kept(w.keys, w.queued[k]);
      }
    }
  }

  lemma OtherFair(w: World, e: Event, i: nat)
    requires AllFair(w) && Enabled(w, e) && !e.Arrive? && !e.ClaimFails? && i < |w.requests|
    ensures i < |Next(w, e).requests| && Fair(Next(w, e), i)
  {
    assert Fair(w, i);
    var v := Next(w, e);
    forall k | 0 <= k < v.requests[i].since ensures v.queued[k] == w.queued[k] {
    }
  }

  lemma {:induction false} RunFair(w: World, run: seq<Event>)
    requires Good(w) && AllFair(w) && ValidRun(w, run)
    ensures AllFair(Final(w, run))
    decreases |run|
  {
    if run != [] {
      var e := run[0];
      StepGood(w, e);
      forall i | 0 <= i < |Next(w, e).requests| ensures Fair(Next(w, e), i) {
        if e.Arrive? || e.ClaimFails? {
          ArriveFair(w, e, i);
        } else {
          OtherFair(w, e, i);
        }
      }
      RunFair(Next(w, e), run[1..]);
    }
  }

  /**
   In every interleaving: whatever a request is told that came after a change
   under its key was queued, it is that change's result, that its outcome is
   unknown, that the store failed, or that the key is another request's.
   */
  lemma AnswersFit(run: seq<Event>, i: nat, k: nat)
    requires ValidRun(START, run) && i < |Final(START, run).requests| && k < Final(START, run).requests[i].since
    ensures var w := Final(START, run);
            && k < |w.queued|
            && (w.queued[k].key == w.requests[i].key && (w.requests[i].phase.Answering? || w.requests[i].phase.Answered?) ==>
                  Fitting(w.queued[k], w.requests[i].fingerprint, w.requests[i].phase.answer))
  {
    RunFair(START, run);
    assert Fair(Final(START, run), i);
  }

  lemma OneEvent(w: World, e: Event, rest: seq<Event>)
    requires Enabled(w, e) && ValidRun(Next(w, e), rest)
    ensures ValidRun(w, [e] + rest) && Final(w, [e] + rest) == Final(Next(w, e), rest)
  {
    assert ([e] + rest)[1..] == rest;
  }

  /** A request fails and frees its key, a repeat succeeds, and only then is the failure told. */
  ghost function LateRun(key: string, fingerprint: string, a: string, b: string, why: string, data: string): seq<Event>
  {
    [Arrive(key, fingerprint, a)] + ([Fail(0, why)] + ([Record(0, true)]
    + ([Arrive(key, fingerprint, b)] + ([Succeed(1, data)] + ([Answer(0)] + [])))))
  }

  /** So one that came before the success can be told after it that it failed. */
  lemma LateFailure(key: string, fingerprint: string, a: string, b: string, why: string, data: string)
    ensures ValidRun(START, LateRun(key, fingerprint, a, b, why, data))
    ensures var w := Final(START, LateRun(key, fingerprint, a, b, why, data));
            && w.queued == [Queued(key, fingerprint, b, data)]
            && |w.requests| == 2 && w.requests[0] == Request(key, fingerprint, a, 0, Answered(Refused(why)))
  {
    var row := Row(fingerprint, b, None);
    var w1 := World(map[key := Row(fingerprint, a, None)], [Request(key, fingerprint, a, 0, Holding)], []);
    var w2 := w1.(requests := [Request(key, fingerprint, a, 0, Failing(why))]);
    var r := Request(key, fingerprint, a, 0, Answering(Refused(why)));
    var w3 := World(map[], [r], []);
    var w4 := World(map[key := row], [r, Request(key, fingerprint, b, 0, Holding)], []);
    var w5 := World(map[key := row], [r, Request(key, fingerprint, b, 0, Succeeded(data))], [Queued(key, fingerprint, b, data)]);
    assert Next(START, Arrive(key, fingerprint, a)) == w1;
    assert Next(w1, Fail(0, why)) == w2;
    assert Next(w2, Record(0, true)) == w3;
    assert Next(w3, Arrive(key, fingerprint, b)) == w4;
    assert Next(w4, Succeed(1, data)) == w5;
    OneEvent(w5, Answer(0), []);
    OneEvent(w4, Succeed(1, data), [Answer(0)] + []);
    OneEvent(w3, Arrive(key, fingerprint, b), [Succeed(1, data)] + ([Answer(0)] + []));
    OneEvent(w2, Record(0, true), [Arrive(key, fingerprint, b)] + ([Succeed(1, data)] + ([Answer(0)] + [])));
    OneEvent(w1, Fail(0, why),
             [Record(0, true)] + ([Arrive(key, fingerprint, b)] + ([Succeed(1, data)] + ([Answer(0)] + []))));
    OneEvent(START, Arrive(key, fingerprint, a),
             [Fail(0, why)] + ([Record(0, true)]
             + ([Arrive(key, fingerprint, b)] + ([Succeed(1, data)] + ([Answer(0)] + [])))));
  }

  /** While a key is claimed, a change under it is queued only for the request it is claimed for. */
  lemma NeverForAnother(run: seq<Event>, e: Event, key: string)
    requires ValidRun(START, run) && key in Final(START, run).keys && Enabled(Final(START, run), e)
    ensures var w := Final(START, run);
            var v := Next(w, e);
            forall k :: |w.queued| <= k < |v.queued| && v.queued[k].key == key ==>
              v.queued[k].fingerprint == w.keys[key].fingerprint && v.queued[k].op == w.keys[key].op
  {
    RunGood(START, run);
    var w := Final(START, run);
    if e.Succeed? {
      assert Holds(w, e.i);
    }
  }

  /** A request that failed, and whose key was freed, leaves the key as if it had never come. */
  lemma FailureFreesTheKey(run: seq<Event>, i: nat)
    requires ValidRun(START, run) && i < |Final(START, run).requests|
    requires Final(START, run).requests[i].phase.Failing?
    ensures var w := Final(START, run);
            var v, r := Next(w, Record(i, true)), w.requests[i];
            && v.queued == w.queued && v.keys == w.keys - {r.key}
            && (forall q :: q in v.queued ==> q.key != r.key)
            && ClaimOf(v.keys, r.key, r.fingerprint) == Fresh
  {
    RunGood(START, run);
    var w := Final(START, run);
    assert Holds(w, i);
    forall q | q in w.queued ensures q.key != w.requests[i].key {
      assert Consistent(w, q);
    }
  }

  // ----- What a repeat is told -----

  /** Only the holder of a key gives it a result, and it has none till then. */
  lemma StepKeepsResult(w: World, e: Event, key: string)
    requires Good(w) && Enabled(w, e) && key in w.keys && w.keys[key].result.Some?
    ensures key in Next(w, e).keys && Next(w, e).keys[key] == w.keys[key]
  {
    if e.Record? {
      assert Holds(w, e.i);
    }
  }

  /** A result once there stays, restarts and all. */
  lemma {:induction false} ResultStays(w: World, run: seq<Event>, key: string)
    requires Good(w) && ValidRun(w, run) && key in w.keys && w.keys[key].result.Some?
    ensures key in Final(w, run).keys && Final(w, run).keys[key] == w.keys[key]
    decreases |run|
  {
    if run != [] {
      StepGood(w, run[0]);
      StepKeepsResult(w, run[0], key);
      ResultStays(Next(w, run[0]), run[1..], key);
    }
  }

  /** The result `data` of a request under `key` is recorded by `e`. */
  ghost predicate Records(w: World, e: Event, key: string, data: string)
    requires Enabled(w, e)
  {
    e.Record? && e.written && w.requests[e.i].key == key && w.requests[e.i].phase == Succeeded(data)
  }

  ghost predicate Recorded(w: World, run: seq<Event>, key: string, data: string)
    requires ValidRun(w, run)
    decreases |run|
  {
    run != [] && (Records(w, run[0], key, data) || Recorded(Next(w, run[0]), run[1..], key, data))
  }

  ghost predicate EverRecorded(run: seq<Event>, key: string, data: string)
    requires ValidRun(START, run)
  {
    Recorded(START, run, key, data)
  }

  ghost predicate HasResult(w: World, key: string, data: string)
  {
    key in w.keys && w.keys[key].result == Some(Success(data))
  }

  lemma StepRecords(w: World, e: Event, key: string, data: string)
    requires Good(w) && Enabled(w, e)
    ensures HasResult(Next(w, e), key, data) <==> HasResult(w, key, data) || Records(w, e, key, data)
  {
    if HasResult(w, key, data) {
      StepKeepsResult(w, e, key);
    }
    if e.Record? {
      assert Holds(w, e.i);
    }
  }

  /** A key has a result exactly if it was recorded. */
  lemma {:induction false} ResultIsRecorded(w: World, run: seq<Event>, key: string, data: string)
    requires Good(w) && ValidRun(w, run)
    ensures HasResult(Final(w, run), key, data) <==> HasResult(w, key, data) || Recorded(w, run, key, data)
    decreases |run|
  {
    if run != [] {
      StepGood(w, run[0]);
      StepRecords(w, run[0], key, data);
      ResultIsRecorded(Next(w, run[0]), run[1..], key, data);
    }
  }

  /** What a request that arrives at `w` is told, if it is told at once. */
  ghost function ToldAt(w: World, key: string, fingerprint: string, op: string): Option<Answer>
  {
    var r := Next(w, Arrive(key, fingerprint, op)).requests[|w.requests|];
    if r.phase.Answering? then Some(r.phase.answer) else None
  }

  /**
   Over every interleaving: once a request's result was recorded, whatever
   happens next, restarts and all, every repeat with its fingerprint whose
   claim doesn't fail in the store is told that result.
   */
  lemma RecordedIsTold(run: seq<Event>, more: seq<Event>, e: Event, key: string, data: string, op: string)
    requires ValidRun(START, run) && Enabled(Final(START, run), e) && Records(Final(START, run), e, key, data)
    requires ValidRun(Next(Final(START, run), e), more)
    ensures var w, i := Final(START, run), e.i;
            ToldAt(Final(Next(w, e), more), key, w.requests[i].fingerprint, op) == Some(Done(data))
  {
    RunGood(START, run);
    var w := Final(START, run);
    assert Holds(w, e.i);
    StepGood(w, e);
    ResultStays(Next(w, e), more, key);
  }

  /**
   Exactly what any request is told at any moment: one whose key nobody holds
   runs; one with another fingerprint is told so; a repeat is told the result
   once that was recorded, and until then, its request running, abandoned or
   settled, that the outcome is unknown and which operation to look for.
   */
  lemma ToldExactly(run: seq<Event>, key: string, fingerprint: string, op: string, data: string)
    requires ValidRun(START, run)
    ensures var w := Final(START, run);
            && (ToldAt(w, key, fingerprint, op) == None <==> key !in w.keys)
            && (key in w.keys && w.keys[key].fingerprint != fingerprint ==>
                  ToldAt(w, key, fingerprint, op) == Some(OtherRequest))
            && (key in w.keys && w.keys[key].fingerprint == fingerprint ==>
                  && (ToldAt(w, key, fingerprint, op) == Some(Done(data)) <==> EverRecorded(run, key, data))
                  && (ToldAt(w, key, fingerprint, op) == Some(OutcomeUnknown(w.keys[key].op)) <==>
                        forall d :: !EverRecorded(run, key, d)))
  {
    RunGood(START, run);
    var w := Final(START, run);
    forall d ensures HasResult(w, key, d) <==> EverRecorded(run, key, d) {
      ResultIsRecorded(START, run, key, d);
    }
    LostNamesItsOp(run, key);
    if key in w.keys && w.keys[key].fingerprint == fingerprint {
      ToldByTheStore(w, key, op);
      if w.keys[key].result.Some? && w.keys[key].result.value.Success? {
        var d := w.keys[key].result.value.data;
        assert HasResult(w, key, d) && EverRecorded(run, key, d);
      } else {
        assert forall d :: !HasResult(w, key, d);
      }
    }
  }

  lemma ToldByTheStore(w: World, key: string, op: string)
    requires key in w.keys
    requires var r := w.keys[key].result; r.Some? && r.value.Lost? ==> r.value.op == w.keys[key].op
    ensures ToldAt(w, key, w.keys[key].fingerprint, op)
            == match w.keys[key].result
               case Some(Success(data)) => Some(Done(data))
               case _ => Some(OutcomeUnknown(w.keys[key].op))
  {
  }

  /** An unknown outcome names the operation its key was claimed for. */
  ghost predicate LostIsOwn(keys: Keys)
  {
    forall k :: k in keys && keys[k].result.Some? && keys[k].result.value.Lost? ==> keys[k].result.value.op == keys[k].op
  }

  lemma {:induction false} LostStaysOwn(w: World, run: seq<Event>)
    requires ValidRun(w, run) && LostIsOwn(w.keys)
    ensures LostIsOwn(Final(w, run).keys)
    decreases |run|
  {
    if run != [] {
      LostStaysOwn(Next(w, run[0]), run[1..]);
    }
  }

  lemma LostNamesItsOp(run: seq<Event>, key: string)
    requires ValidRun(START, run)
    ensures var w := Final(START, run);
            key in w.keys && w.keys[key].result.Some? && w.keys[key].result.value.Lost? ==>
              w.keys[key].result.value.op == w.keys[key].op
  {
    LostStaysOwn(START, run);
  }

  /** A start-up that reads the keys leaves a result to every key, but for those whose write fails. */
  lemma StartUpSettles(w: World, failing: set<string>, key: string)
    requires key in w.keys
    ensures var keys := Next(w, Restart(true, failing)).keys;
            && keys.Keys == w.keys.Keys
            && keys[key] == if w.keys[key].result.None? && key !in failing
                            then Row(w.keys[key].fingerprint, w.keys[key].op, Some(Lost(w.keys[key].op)))
                            else w.keys[key]
  {
  }
}
