/**
 A task's steps: finding them by name, planning their writes, and undoing one
 write field by field on the steps as they are now.
 */
module Steps {
  import opened Entities
  import opened OpIds

  datatype Step = Step(id: string, fields: Entity)

  type Steps = seq<Step>

  datatype Verb = Create | Update | Delete

  /** `carried` are fields repeated in the update, as Graph would reset them otherwise. */
  datatype Write = Write(verb: Verb, id: string, body: Entity, carried: set<Key>)

  /** A write as queued, with the task's steps before it. */
  datatype Op = Op(write: Write, before: Steps)

  datatype Refusal = DeletedSince | ChangedSince | NoRecord

  const STEP_FIELDS := {DISPLAY_NAME, IS_CHECKED, CHECKED_AT}

  // ----- What a write does -----

  function PlaceOf(steps: Steps, id: string): (i: nat)
    ensures i <= |steps|
    ensures i < |steps| ==> steps[i].id == id
    ensures forall k :: 0 <= k < i ==> steps[k].id != id
  {
    if steps == [] then 0 else if steps[0].id == id then 0 else 1 + PlaceOf(steps[1..], id)
  }

  function Find(steps: Steps, id: string): Option<Entity>
  {
    var i := PlaceOf(steps, id);
    if i < |steps| then Some(steps[i].fields) else None
  }

  /** `body` over a step, as a PATCH is: unchecking clears when it was checked. */
  function MergeFields(fields: Entity, body: Entity): Entity
  {
    var merged := fields + body;
    if IS_CHECKED in body && body[IS_CHECKED] == Flag(false) then merged - {CHECKED_AT} else merged
  }

  function AllBut(steps: Steps, id: string): (r: Steps)
    ensures forall s :: s in r <==> s in steps && s.id != id
    ensures (forall s :: s in steps ==> s.id != id) ==> r == steps
  {
    if steps == [] then []
    else
      var rest := AllBut(steps[..|steps| - 1], id);
      assert steps == steps[..|steps| - 1] + [steps[|steps| - 1]];
      if steps[|steps| - 1].id == id then rest else rest + [steps[|steps| - 1]]
  }

  function Apply(steps: Steps, w: Write): Steps
  {
    var i := PlaceOf(steps, w.id);
    match w.verb
    case Create => if i < |steps| then steps[i := Step(w.id, w.body)] else steps + [Step(w.id, w.body)]
    case Update => if i < |steps| then steps[i := Step(w.id, MergeFields(steps[i].fields, w.body))] else steps
    case Delete => AllBut(steps, w.id)
  }

  function ApplyAll(steps: Steps, writes: seq<Write>): Steps
  {
    if writes == [] then steps else Apply(ApplyAll(steps, writes[..|writes| - 1]), writes[|writes| - 1])
  }

  // ----- Undoing one -----

  /** The fields of `body`, but for those carried, that `now` doesn't hold. */
  function Moved(now: Entity, body: Entity, carried: set<Key>): set<Key>
  {
    set f | f in body && f !in carried && (f !in now || now[f] != body[f])
  }

  function Creatable(step: Entity): Entity
  {
    map f | f in step && f in STEP_FIELDS :: step[f]
  }

  /** Where a field's value comes from: a carried one takes what the step has now. */
  function Source(f: Key, now: Entity, before: Entity, carried: set<Key>): Entity
  {
    if f in carried then now else before
  }

  /** The writes that undo `op` on `steps`, `added` being the ID of a step added again. */
  function Inverse(op: Op, steps: Steps, added: string): Result<seq<Write>, Refusal>
  {
    var w, now, before := op.write, Find(steps, op.write.id), Find(op.before, op.write.id);
    match w.verb
    case Create =>
      if now.None? then Err(DeletedSince)
      else if Moved(now.value, w.body, {}) != {} then Err(ChangedSince)
      else Ok([Write(Delete, w.id, map[], {})])
    case Update =>
      if now.None? || before.None? then Err(DeletedSince)
      else if Moved(now.value, w.body, w.carried) != {} then Err(ChangedSince)
      else if exists f :: f in w.body && f !in Source(f, now.value, before.value, w.carried) then
        Ok([Write(Delete, w.id, map[], {}), Write(Create, added, Creatable(before.value), {})])
      else
        Ok([Write(Update, w.id, Back(w, now.value, before.value), if w.carried == {} then {} else {IS_CHECKED})])
    case Delete =>
      if before.None? then Err(NoRecord)
      else Ok([Write(Create, added, Creatable(before.value), {})])
  }

  function Back(w: Write, now: Entity, before: Entity): Entity
  {
    map f | f in w.body :: Get(Source(f, now, before, w.carried), f)
  }

  /** The loop over the fields: one that wasn't there before ends it, and the step goes back whole. */
  method UpdateInverse(w: Write, now: Entity, before: Entity, added: string) returns (writes: seq<Write>)
    ensures writes == if exists f :: f in w.body && f !in Source(f, now, before, w.carried)
                      then [Write(Delete, w.id, map[], {}), Write(Create, added, Creatable(before), {})]
                      else [Write(Update, w.id, Back(w, now, before), if w.carried == {} then {} else {IS_CHECKED})]
  {
    var back: Entity, left := map[], w.body.Keys;
    while left != {}
      invariant left <= w.body.Keys && back.Keys == w.body.Keys - left
      invariant forall f :: f in back ==>
                  f in Source(f, now, before, w.carried) && back[f] == Get(Source(f, now, before, w.carried), f)
      decreases left
    {
      var f :| f in left;
      var from := if f in w.carried then now else before;
      if f !in from {
        return [Write(Delete, w.id, map[], {}), Write(Create, added, Creatable(before), {})];
      }
      back := back[f := from[f]];
      left := left - {f};
    }
    assert back == Back(w, now, before);
    writes := [Write(Update, w.id, back, if w.carried == {} then {} else {IS_CHECKED})];
  }

  method UndoWrite(op: Op, steps: Steps, added: string) returns (r: Result<seq<Write>, Refusal>)
    ensures r == Inverse(op, steps, added)
  {
    var w, now, before := op.write, Find(steps, op.write.id), Find(op.before, op.write.id);
    match w.verb {
      case Create =>
        if now.None? {
          return Err(DeletedSince);
        }
        if Moved(now.value, w.body, {}) != {} {
          return Err(ChangedSince);
        }
        return Ok([Write(Delete, w.id, map[], {})]);
      case Update =>
        if now.None? || before.None? {
          return Err(DeletedSince);
        }
        if Moved(now.value, w.body, w.carried) != {} {
          return Err(ChangedSince);
        }
        var writes := UpdateInverse(w, now.value, before.value, added);
        return Ok(writes);
      case Delete =>
        if before.None? {
          return Err(NoRecord);
        }
        return Ok([Write(Create, added, Creatable(before.value), {})]);
    }
  }

  // ----- Planning -----

  /** A step as Graph has them: a text, checked or not, and a time only if it is checked. */
  ghost predicate Proper(step: Entity)
  {
    && DISPLAY_NAME in step && IS_CHECKED in step && step[IS_CHECKED].Flag?
    && (step[IS_CHECKED] == Flag(false) ==> CHECKED_AT !in step)
  }

  ghost predicate ProperSteps(steps: Steps)
  {
    && (forall i :: 0 <= i < |steps| ==> Proper(steps[i].fields))
    && (forall i, j :: 0 <= i < j < |steps| ==> steps[i].id != steps[j].id)
  }

  predicate IsChecked(step: Entity)
  {
    Get(step, IS_CHECKED) == Flag(true)
  }

  /** A rename carries whether the step is checked, which Graph would reset. */
  function RenameWrites(step: Step, text: string): seq<Write>
  {
    if Get(step.fields, DISPLAY_NAME) == Text(text) then []
    else
      [Write(Update, step.id, map[DISPLAY_NAME := Text(text), IS_CHECKED := Flag(IsChecked(step.fields))], {IS_CHECKED})]
  }

  function CheckWrites(found: seq<Step>, checked: bool): seq<Write>
  {
    if found == [] then []
    else
      var rest, step := CheckWrites(found[..|found| - 1], checked), found[|found| - 1];
      if IsChecked(step.fields) == checked then rest
      else rest + [Write(Update, step.id, map[IS_CHECKED := Flag(checked)], {})]
  }

  function DeleteWrite(step: Step): Write
  {
    Write(Delete, step.id, map[], {})
  }

  function CreateWrite(id: string, text: string): Write
  {
    Write(Create, id, map[DISPLAY_NAME := Text(text), IS_CHECKED := Flag(false)], {})
  }

  // ----- Finding steps by name -----

  datatype NotFound = NameOne | NoSuchStep(name: string) | SeveralSteps(name: string)

  function Matching(steps: Steps, text: string, n: nat): (r: seq<nat>)
    requires n <= |steps|
    ensures forall k :: 0 <= k < |r| ==> r[k] < n && Get(steps[r[k]].fields, DISPLAY_NAME) == Text(text)
  {
    if n == 0 then []
    else
      var rest := Matching(steps, text, n - 1);
      if Get(steps[n - 1].fields, DISPLAY_NAME) == Text(text) then rest + [n - 1] else rest
  }

  /** By ID, then by a number from 1, then by exact text; a text several share picks none. */
  function Named(steps: Steps, name: string): (r: Result<nat, NotFound>)
    ensures r.Ok? ==> r.value < |steps|
  {
    var i := PlaceOf(steps, name);
    if i < |steps| then Ok(i)
    else if AllDigits(name) then
      if 1 <= Parsed(name) <= |steps| then Ok(Parsed(name) - 1) else Err(NoSuchStep(name))
    else
      var matching := Matching(steps, name, |steps|);
      if |matching| == 1 then Ok(matching[0])
      else if matching == [] then Err(NoSuchStep(name))
      else Err(SeveralSteps(name))
  }

  /** The steps of the first `n` names, each once, where it is first named. */
  function NamedAll(steps: Steps, names: seq<string>, n: nat): Result<seq<nat>, NotFound>
    requires n <= |names|
  {
    if n == 0 then Ok([])
    else
      match NamedAll(steps, names, n - 1)
      case Err(e) => Err(e)
      case Ok(found) =>
        match Named(steps, names[n - 1])
        case Err(e) => Err(e)
        case Ok(i) => Ok(if i in found then found else found + [i])
  }

  lemma {:induction false} NamedStops(steps: Steps, names: seq<string>, m: nat, n: nat)
    requires m <= n <= |names| && NamedAll(steps, names, m).Err?
    ensures NamedAll(steps, names, n) == NamedAll(steps, names, m)
  {
    if m < n {
      NamedStops(steps, names, m, n - 1);
    }
  }

  method FindAll(steps: Steps, names: seq<string>) returns (r: Result<seq<nat>, NotFound>)
    ensures names == [] ==> r == Err(NameOne)
    ensures names != [] ==> r == NamedAll(steps, names, |names|)
  {
    if names == [] {
      return Err(NameOne);
    }
    var found: seq<nat> := [];
    for n := 0 to |names|
      invariant NamedAll(steps, names, n) == Ok(found)
    {
      var one := Named(steps, names[n]);
      if one.Err? {
        NamedStops(steps, names, n + 1, |names|);
        return Err(one.error);
      }
      if one.value !in found {
        found := found + [one.value];
      }
    }
    r := Ok(found);
  }

  ghost predicate NamedBy(steps: Steps, names: seq<string>, n: nat, i: nat)
    requires n <= |names|
  {
    exists k :: 0 <= k < n && Named(steps, names[k]) == Ok(i)
  }

  /** Every name found its step, none is there twice, and none is there unnamed. */
  lemma {:induction false} FoundOnce(steps: Steps, names: seq<string>, n: nat)
    requires n <= |names| && NamedAll(steps, names, n).Ok?
    ensures var found := NamedAll(steps, names, n).value;
            && (forall i, j :: 0 <= i < j < |found| ==> found[i] != found[j])
            && (forall i :: i in found <==> NamedBy(steps, names, n, i))
    ensures forall k :: 0 <= k < n ==> Named(steps, names[k]).Ok?
  {
    if n > 0 {
      FoundOnce(steps, names, n - 1);
      var i := Named(steps, names[n - 1]).value;
      forall j ensures NamedBy(steps, names, n, j) <==> NamedBy(steps, names, n - 1, j) || j == i {
        NamedOneMore(steps, names, n, j);
      }
    }
  }

  lemma {:induction false} NamedOneMore(steps: Steps, names: seq<string>, n: nat, j: nat)
    requires 0 < n <= |names|
    ensures NamedBy(steps, names, n, j) <==> NamedBy(steps, names, n - 1, j) || Named(steps, names[n - 1]) == Ok(j)
  {
  }

  // ----- Undo is field by field -----

  lemma {:induction false} IdAt(steps: Steps, i: nat)
    requires i < |steps| && forall j, k :: 0 <= j < k < |steps| ==> steps[j].id != steps[k].id
    ensures PlaceOf(steps, steps[i].id) == i
  {
  }

  lemma {:induction false} ReplacedAt(steps: Steps, i: nat, fields: Entity)
    requires i < |steps| && ProperSteps(steps)
    ensures PlaceOf(steps, steps[i].id) == i
    ensures PlaceOf(steps[i := Step(steps[i].id, fields)], steps[i].id) == i
  {
    IdAt(steps, i);
    IdAt(steps[i := Step(steps[i].id, fields)], i);
  }

  /** An update whose every field was there before is undone by one update, in place. */
  lemma {:induction false} UndoneInPlace(op: Op, was: Step, now: Steps, added: string)
    requires op.write.verb.Update? && op.write.id == was.id && Find(op.before, was.id) == Some(was.fields)
    requires Inverse(op, now, added).Ok?
    requires forall f :: f in op.write.body && f !in op.write.carried ==> f in was.fields
    requires Find(now, was.id).Some? && forall f :: f in op.write.carried ==> f in Find(now, was.id).value
    ensures var i := PlaceOf(now, was.id);
            && i < |now|
            && ApplyAll(now, Inverse(op, now, added).value)
               == now[i := Step(was.id, MergeFields(now[i].fields, Back(op.write, now[i].fields, was.fields)))]
  {
    var step := Find(now, was.id).value;
    InverseIsUpdate(op, was.fields, step, now, added);
    ApplyOne(now, Inverse(op, now, added).value[0]);
  }

  lemma {:induction false} InverseIsUpdate(op: Op, was: Entity, step: Entity, now: Steps, added: string)
    requires op.write.verb.Update? && Find(op.before, op.write.id) == Some(was) && Find(now, op.write.id) == Some(step)
    requires Inverse(op, now, added).Ok?
    requires forall f :: f in op.write.body && f !in op.write.carried ==> f in was
    requires forall f :: f in op.write.carried ==> f in step
    ensures exists carried ::
              Inverse(op, now, added) == Ok([Write(Update, op.write.id, Back(op.write, step, was), carried)])
  {
    assert forall f :: f in op.write.body ==> f in Source(f, step, was, op.write.carried);
  }

  lemma {:induction false} ApplyOne(steps: Steps, w: Write)
    ensures ApplyAll(steps, [w]) == Apply(steps, w)
  {
    assert [w][..0] == [];
  }

  /** The rename of a step there was, on the steps `now`. */
  ghost predicate RenameOf(op: Op, was: Step, text: string)
  {
    && ProperSteps(op.before) && was in op.before && Get(was.fields, DISPLAY_NAME) != Text(text)
    && op.write == RenameWrites(was, text)[0]
  }

  lemma {:induction false} FoundIn(steps: Steps, step: Step)
    requires ProperSteps(steps) && step in steps
    ensures Find(steps, step.id) == Some(step.fields)
  {
    var i :| 0 <= i < |steps| && steps[i] == step;
    ReplacedAt(steps, i, step.fields);
  }

  /** A rename is undone exactly while the step is there with the text it gave it. */
  lemma {:induction false} RenameUndoneWhen(op: Op, was: Step, text: string, now: Steps, added: string)
    requires RenameOf(op, was, text) && ProperSteps(now)
    ensures Inverse(op, now, added).Ok? <==>
            Find(now, was.id).Some? && Find(now, was.id).value[DISPLAY_NAME] == Text(text)
  {
    FoundIn(op.before, was);
    if Find(now, was.id).Some? {
      var step := now[PlaceOf(now, was.id)].fields;
      assert Moved(step, op.write.body, {IS_CHECKED}) == if step[DISPLAY_NAME] == Text(text) then {} else {DISPLAY_NAME};
    }
  }

  /** And then only its text goes back: whether it is checked, and every other step, stay as they are now. */
  lemma {:induction false} RenameUndoKeepsTheRest(op: Op, was: Step, text: string, now: Steps, added: string)
    requires RenameOf(op, was, text) && ProperSteps(now) && Inverse(op, now, added).Ok?
    ensures var i := PlaceOf(now, was.id);
            && i < |now|
            && ApplyAll(now, Inverse(op, now, added).value)
               == now[i := Step(was.id, now[i].fields[DISPLAY_NAME := was.fields[DISPLAY_NAME]])]
  {
    FoundIn(op.before, was);
    RenameUndoneWhen(op, was, text, now, added);
    var i := PlaceOf(now, was.id);
    var step := now[i].fields;
    assert Proper(step) && Proper(was.fields);
    UndoneInPlace(op, was, now, added);
    RenamedBack(op.write, step, was.fields);
  }

  /** A rename's inverse sends the old text and the check there is now, which changes the text alone. */
  lemma {:induction false} RenamedBack(w: Write, step: Entity, was: Entity)
    requires w.body.Keys == {DISPLAY_NAME, IS_CHECKED} && w.carried == {IS_CHECKED} && Proper(step) && Proper(was)
    ensures MergeFields(step, Back(w, step, was)) == step[DISPLAY_NAME := was[DISPLAY_NAME]]
  {
    assert Back(w, step, was) == map[DISPLAY_NAME := was[DISPLAY_NAME], IS_CHECKED := step[IS_CHECKED]];
  }

  /** That undo is a rename back, so it is undone as one. */
  lemma {:induction false} RenameUndoIsARename(op: Op, was: Step, text: string, now: Steps, added: string)
    requires RenameOf(op, was, text) && ProperSteps(now) && Inverse(op, now, added).Ok? && was.fields[DISPLAY_NAME].Text?
    ensures var i := PlaceOf(now, was.id);
            && i < |now| && Get(now[i].fields, DISPLAY_NAME) != was.fields[DISPLAY_NAME]
            && Inverse(op, now, added).value == RenameWrites(now[i], was.fields[DISPLAY_NAME].text)
  {
    FoundIn(op.before, was);
    RenameUndoneWhen(op, was, text, now, added);
    var step := now[PlaceOf(now, was.id)].fields;
    assert Proper(step) && Proper(was.fields);
    assert Back(op.write, step, was.fields)
        == map[DISPLAY_NAME := was.fields[DISPLAY_NAME], IS_CHECKED := Flag(IsChecked(step))];
    assert forall f :: f in op.write.body ==> f in Source(f, step, was.fields, op.write.carried);
  }

  /** The check, or uncheck, of a step there was that wasn't so already. */
  ghost predicate CheckOf(op: Op, was: Step, checked: bool)
  {
    && ProperSteps(op.before) && was in op.before && IsChecked(was.fields) != checked
    && op.write == CheckWrites([was], checked)[0]
  }

  lemma {:induction false} CheckWrite(was: Step, checked: bool)
    requires IsChecked(was.fields) != checked
    ensures CheckWrites([was], checked) == [Write(Update, was.id, map[IS_CHECKED := Flag(checked)], {})]
  {
    assert [was][..0] == [];
  }

  lemma {:induction false} CheckUndoneWhen(op: Op, was: Step, checked: bool, now: Steps, added: string)
    requires CheckOf(op, was, checked) && ProperSteps(now)
    ensures Inverse(op, now, added).Ok? <==> Find(now, was.id).Some? && IsChecked(Find(now, was.id).value) == checked
  {
    CheckWrite(was, checked);
    FoundIn(op.before, was);
    if Find(now, was.id).Some? {
      var step := now[PlaceOf(now, was.id)].fields;
      assert Proper(step);
      assert Moved(step, op.write.body, {}) == if IsChecked(step) == checked then {} else {IS_CHECKED};
    }
  }

  /** Only the check goes back (and, unchecked, its time): a rename since, and every other step, stay. */
  lemma {:induction false} CheckUndoKeepsTheRest(op: Op, was: Step, checked: bool, now: Steps, added: string)
    requires CheckOf(op, was, checked) && ProperSteps(now) && Inverse(op, now, added).Ok?
    ensures var i := PlaceOf(now, was.id);
            && i < |now|
            && var back := now[i].fields[IS_CHECKED := Flag(!checked)];
               ApplyAll(now, Inverse(op, now, added).value)
               == now[i := Step(was.id, if checked then back - {CHECKED_AT} else back)]
  {
    CheckWrite(was, checked);
    FoundIn(op.before, was);
    CheckUndoneWhen(op, was, checked, now, added);
    assert Proper(was.fields);
    UndoneInPlace(op, was, now, added);
    var i := PlaceOf(now, was.id);
    CheckedBack(op.write, now[i].fields, was.fields, checked);
  }

  /** And is a check or uncheck in turn. */
  lemma {:induction false} CheckUndoIsACheck(op: Op, was: Step, checked: bool, now: Steps, added: string)
    requires CheckOf(op, was, checked) && ProperSteps(now) && Inverse(op, now, added).Ok?
    ensures var i := PlaceOf(now, was.id);
            i < |now| && Inverse(op, now, added).value == CheckWrites([now[i]], !checked)
  {
    CheckWrite(was, checked);
    FoundIn(op.before, was);
    CheckUndoneWhen(op, was, checked, now, added);
    var i := PlaceOf(now, was.id);
    CheckWrite(now[i], !checked);
    assert Proper(was.fields);
    CheckInverse(op, was, checked, now, added);
  }

  lemma CheckInverse(op: Op, was: Step, checked: bool, now: Steps, added: string)
    requires op.write == Write(Update, was.id, map[IS_CHECKED := Flag(checked)], {})
    requires Find(op.before, was.id) == Some(was.fields) && Proper(was.fields) && IsChecked(was.fields) != checked
    requires Inverse(op, now, added).Ok?
    ensures Inverse(op, now, added).value == [Write(Update, was.id, map[IS_CHECKED := Flag(!checked)], {})]
  {
    var step := Find(now, was.id).value;
    assert Back(op.write, step, was.fields) == map[IS_CHECKED := Flag(!checked)];
    assert forall f :: f in op.write.body ==> f in Source(f, step, was.fields, {});
  }

  lemma {:induction false} CheckedBack(w: Write, step: Entity, was: Entity, checked: bool)
    requires w.body == map[IS_CHECKED := Flag(checked)] && w.carried == {}
    requires Proper(was) && IsChecked(was) != checked
    ensures var back := step[IS_CHECKED := Flag(!checked)];
            MergeFields(step, Back(w, step, was)) == if checked then back - {CHECKED_AT} else back
  {
    assert was[IS_CHECKED] == Flag(!checked);
    assert Back(w, step, was) == map[IS_CHECKED := Flag(!checked)];
    assert step + map[IS_CHECKED := Flag(!checked)] == step[IS_CHECKED := Flag(!checked)];
  }

  lemma {:induction false} CheckedStep(step: Entity, checked: bool)
    requires Proper(step) && IsChecked(step) != checked
    ensures var after := MergeFields(step, map[IS_CHECKED := Flag(checked)]);
            var back := after[IS_CHECKED := Flag(!checked)];
            && Proper(after) && IsChecked(after) == checked
            && ((if checked then back - {CHECKED_AT} else back) == step <==> checked || CHECKED_AT !in step)
  {
    var after := MergeFields(step, map[IS_CHECKED := Flag(checked)]);
    var back := after[IS_CHECKED := Flag(!checked)];
    assert step[IS_CHECKED] == Flag(!checked);
    if checked {
      assert back - {CHECKED_AT} == step;
    } else if CHECKED_AT !in step {
      assert back == step;
    }
  }

  /** Undone straight after, a check is taken back whole; an uncheck exactly when the step had no time. */
  lemma {:induction false} CheckThenUndo(steps: Steps, i: nat, checked: bool, added: string)
    requires ProperSteps(steps) && i < |steps| && IsChecked(steps[i].fields) != checked
    ensures var op := Op(CheckWrites([steps[i]], checked)[0], steps);
            var now := Apply(steps, op.write);
            && Inverse(op, now, added).Ok?
            && (ApplyAll(now, Inverse(op, now, added).value) == steps <==> checked || CHECKED_AT !in steps[i].fields)
  {
    var was := steps[i];
    CheckWrite(was, checked);
    var op := Op(CheckWrites([was], checked)[0], steps);
    var after := MergeFields(was.fields, op.write.body);
    ReplacedAt(steps, i, after);
    CheckedStep(was.fields, checked);
    var now := steps[i := Step(was.id, after)];
    assert Apply(steps, op.write) == now && ProperSteps(now);
    CheckUndoneWhen(op, was, checked, now, added);
    CheckUndoKeepsTheRest(op, was, checked, now, added);
    var back := after[IS_CHECKED := Flag(!checked)];
    var undone := now[i := Step(was.id, if checked then back - {CHECKED_AT} else back)];
    assert undone == steps <==> undone[i] == steps[i];
  }

  /** An add is undone exactly while the step is there, unchecked and with its text; then it alone goes. */
  lemma {:induction false} CreateUndo(op: Op, id: string, text: string, now: Steps, added: string)
    requires op.write == CreateWrite(id, text) && ProperSteps(now)
    ensures Inverse(op, now, added).Ok? <==>
            && Find(now, id).Some? && Find(now, id).value[DISPLAY_NAME] == Text(text)
            && !IsChecked(Find(now, id).value)
    ensures Inverse(op, now, added).Ok? ==>
              forall s :: s in ApplyAll(now, Inverse(op, now, added).value) <==> s in now && s.id != id
  {
    if Find(now, id).Some? {
      var step := now[PlaceOf(now, id)].fields;
      assert Proper(step);
      var moved := Moved(step, op.write.body, {});
      assert DISPLAY_NAME in moved <==> step[DISPLAY_NAME] != Text(text);
      assert IS_CHECKED in moved <==> IsChecked(step);
      assert forall f :: f in moved ==> f in {DISPLAY_NAME, IS_CHECKED};
      if Inverse(op, now, added).Ok? {
        var writes := Inverse(op, now, added).value;
        assert writes[..|writes| - 1] == [];
      }
    }
  }

  /** A delete is always undone: the step comes last, with every creatable field it had, under a new ID. */
  lemma {:induction false} DeleteUndo(op: Op, was: Step, now: Steps, added: string)
    requires ProperSteps(op.before) && was in op.before && op.write == DeleteWrite(was)
    requires forall s :: s in now ==> s.id != added
    ensures Inverse(op, now, added).Ok?
    ensures ApplyAll(now, Inverse(op, now, added).value) == now + [Step(added, Creatable(was.fields))]
    ensures forall f :: f in STEP_FIELDS ==> Get(Creatable(was.fields), f) == Get(was.fields, f)
  {
    FoundIn(op.before, was);
    var writes := Inverse(op, now, added).value;
    assert writes[..|writes| - 1] == [];
    assert PlaceOf(now, added) == |now|;
  }

  // ----- What a plan makes of the steps -----

  /** A new step comes last, with its text, unchecked. */
  lemma CreateMeans(steps: Steps, id: string, text: string)
    requires forall s :: s in steps ==> s.id != id
    ensures Apply(steps, CreateWrite(id, text))
            == steps + [Step(id, map[DISPLAY_NAME := Text(text), IS_CHECKED := Flag(false)])]
  {
  }

  /** A deleted step goes, and it alone. */
  lemma DeleteMeans(steps: Steps, step: Step, s: Step)
    ensures s in Apply(steps, DeleteWrite(step)) <==> s in steps && s.id != step.id
  {
  }

  /** A rename changes the text of its step and nothing else, and nothing at all if that is the text. */
  lemma {:induction false} RenameMeans(steps: Steps, i: nat, text: string)
    requires ProperSteps(steps) && i < |steps|
    ensures ApplyAll(steps, RenameWrites(steps[i], text))
            == steps[i := Step(steps[i].id, steps[i].fields[DISPLAY_NAME := Text(text)])]
  {
    var step := steps[i];
    if step.fields[DISPLAY_NAME] == Text(text) {
      assert step.fields[DISPLAY_NAME := Text(text)] == step.fields;
    } else {
      ApplyOne(steps, RenameWrites(step, text)[0]);
      ReplacedAt(steps, i, step.fields);
      assert Proper(step.fields);
      assert MergeFields(step.fields, RenameWrites(step, text)[0].body) == step.fields[DISPLAY_NAME := Text(text)];
    }
  }

  /** A step as asked: checked or not, and unchecked with no time. */
  ghost function Checked(fields: Entity, checked: bool): Entity
  {
    if IsChecked(fields) == checked then fields
    else if checked then fields[IS_CHECKED := Flag(true)]
    else fields[IS_CHECKED := Flag(false)] - {CHECKED_AT}
  }

  /** The steps with those of `found` checked or not as asked. */
  ghost function AllChecked(steps: Steps, found: seq<Step>, checked: bool): (r: Steps)
    ensures |r| == |steps|
  {
    seq(|steps|, i requires 0 <= i < |steps| =>
      if steps[i] in found then Step(steps[i].id, Checked(steps[i].fields, checked)) else steps[i])
  }

  lemma {:induction false} ApplyMore(steps: Steps, writes: seq<Write>, w: Write)
    ensures ApplyAll(steps, writes + [w]) == Apply(ApplyAll(steps, writes), w)
  {
    assert (writes + [w])[..|writes|] == writes;
  }

  /** Checking steps, or unchecking them, makes each named so and leaves every other as it was. */
  lemma {:induction false} ChecksMean(steps: Steps, found: seq<Step>, checked: bool)
    requires ProperSteps(steps) && (forall s :: s in found ==> s in steps)
    requires forall i, j :: 0 <= i < j < |found| ==> found[i] != found[j]
    ensures ApplyAll(steps, CheckWrites(found, checked)) == AllChecked(steps, found, checked)
    decreases |found|
  {
    if found == [] {
      assert AllChecked(steps, found, checked) == steps;
    } else {
      var n := |found| - 1;
      var rest, step := found[..n], found[n];
      assert found == rest + [step] && step !in rest;
      ChecksMean(steps, rest, checked);
      assert step in found;
      var i :| 0 <= i < |steps| && steps[i] == step;
      OneChecked(steps, rest, step, checked, i);
      if IsChecked(step.fields) != checked {
        ApplyMore(steps, CheckWrites(rest, checked), Write(Update, step.id, map[IS_CHECKED := Flag(checked)], {}));
      }
    }
  }

  lemma {:induction false} OneChecked(steps: Steps, rest: seq<Step>, step: Step, checked: bool, i: nat)
    requires ProperSteps(steps) && i < |steps| && steps[i] == step && step !in rest
    ensures var before, after := AllChecked(steps, rest, checked), AllChecked(steps, rest + [step], checked);
            if IsChecked(step.fields) == checked then after == before
            else after == Apply(before, Write(Update, step.id, map[IS_CHECKED := Flag(checked)], {}))
  {
    var before, after := AllChecked(steps, rest, checked), AllChecked(steps, rest + [step], checked);
    forall k | 0 <= k < |steps| ensures after[k] == if k == i then Step(step.id, Checked(step.fields, checked)) else before[k] {
      if k != i {
        assert steps[k].id != step.id;
      }
    }
    assert before[i] == step;
    if IsChecked(step.fields) != checked {
      assert forall j, k :: 0 <= j < k < |before| ==> before[j].id != before[k].id;
      IdAt(before, i);
      CheckedIs(step.fields, checked);
    }
  }

  lemma CheckedIs(fields: Entity, checked: bool)
    requires Proper(fields) && IsChecked(fields) != checked
    ensures MergeFields(fields, map[IS_CHECKED := Flag(checked)]) == Checked(fields, checked)
  {
  }

  // ----- Which step a name finds -----

  /** A step's own ID finds it. */
  lemma {:induction false} NamedById(steps: Steps, i: nat)
    requires i < |steps| && forall j, k :: 0 <= j < k < |steps| ==> steps[j].id != steps[k].id
    ensures Named(steps, steps[i].id) == Ok(i)
  {
    IdAt(steps, i);
  }

  /** A number that is no step's ID finds the step that many down, counting from one, if there are so many. */
  lemma {:induction false} NamedByNumber(steps: Steps, n: nat)
    requires forall s :: s in steps ==> s.id != Decimal(n)
    ensures Named(steps, Decimal(n)) == if 1 <= n <= |steps| then Ok(n - 1) else Err(NoSuchStep(Decimal(n)))
  {
    DecimalParses(n);
  }

  /** Any other name finds the one step with that text, and none if there isn't one or are several. */
  lemma {:induction false} NamedByText(steps: Steps, name: string, i: nat)
    requires (forall s :: s in steps ==> s.id != name) && !AllDigits(name) && i < |steps|
    ensures Named(steps, name) == Ok(i) <==>
            && Get(steps[i].fields, DISPLAY_NAME) == Text(name)
            && forall j :: 0 <= j < |steps| && j != i ==> Get(steps[j].fields, DISPLAY_NAME) != Text(name)
    ensures Named(steps, name) == Err(NoSuchStep(name)) <==>
            forall j :: 0 <= j < |steps| ==> Get(steps[j].fields, DISPLAY_NAME) != Text(name)
  {
    MatchingAre(steps, name, |steps|);
    OnlyOne(Matching(steps, name, |steps|), i);
    var matching := Matching(steps, name, |steps|);
    assert matching != [] ==> matching[0] in matching;
  }

  lemma OnlyOne(s: seq<nat>, i: nat)
    requires forall j, k :: 0 <= j < k < |s| ==> s[j] < s[k]
    ensures s == [i] <==> forall j :: j in s <==> j == i
  {
    assert |s| > 0 ==> s[0] in s;
    assert |s| > 1 ==> s[1] in s;
    assert (forall j :: j in s <==> j == i) ==> i in s;
  }

  lemma {:induction false} MatchingAre(steps: Steps, text: string, n: nat)
    requires n <= |steps|
    ensures forall j :: j in Matching(steps, text, n) <==> 0 <= j < n && Get(steps[j].fields, DISPLAY_NAME) == Text(text)
    ensures forall j, k :: 0 <= j < k < |Matching(steps, text, n)| ==> Matching(steps, text, n)[j] < Matching(steps, text, n)[k]
  {
    if n > 0 {
      MatchingAre(steps, text, n - 1);
    }
  }
}
