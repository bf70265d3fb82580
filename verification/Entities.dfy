/**
 The JSON documents the daemon edits: a task as Graph gives it, a task's or
 a list's open extension, and the body of a write.

 A field that is absent and one that is null mean the same to every reader in
 the daemon, so a document holds no nulls: a null in a body takes the field
 out. A date is its local day, and a reminder its minute: `Dates.dfy` is
 about the instants they travel as.
 */
module Entities {

  datatype Option<+T> = None | Some(value: T)

  datatype Result<+T, +E> = Ok(value: T) | Err(error: E)

  datatype Value =
    | Null
    | Flag(on: bool)
    | Text(text: string)
    | Number(number: int)
    | Day(day: int)
    | Minute(minute: int)
    | Ids(ids: seq<string>)
    | Repeats(pattern: string, first: int)

  /** The fields the model looks at, by name; `Other` is any other field. */
  datatype Key =
    | TITLE | NOTES | IMPORTANCE | STATUS | DUE | START | COMPLETED | CATEGORIES | RECURRENCE
    | REMINDER_ON | REMINDER
    | ASSIGNEE | STATUS_SET | DEFER_UNTIL | SOMEDAY | NAG | MY_DAY | MY_DAY_DUE_SET
    | FOLDER | ORDER | FOLDER_ORDER | RELATED
    | DISPLAY_NAME | IS_CHECKED | CHECKED_AT | CREATED_AT
    | OTHER(name: string)

  type Entity = map<Key, Value>

  function Get(e: Entity, field: Key): Value
  {
    if field in e then e[field] else Null
  }

  /** A document, as opposed to a body. */
  ghost predicate Clean(e: Entity)
  {
    forall f :: f in e ==> e[f] != Null
  }

  lemma CleanEqual(a: Entity, b: Entity)
    requires Clean(a) && Clean(b) && forall f: Key :: Get(a, f) == Get(b, f)
    ensures a == b
  {
    forall f: Key ensures f in a <==> f in b {
      assert Get(a, f) == Get(b, f);
    }
    forall f | f in a ensures a[f] == b[f] {
      assert Get(a, f) == Get(b, f);
    }
  }

  /** The fields of a body over a document: a null takes the field out. */
  function Merge(e: Entity, fields: Entity): (r: Entity)
    ensures Clean(e) ==> Clean(r)
  {
    (e + fields) - (set f | f in fields && fields[f] == Null)
  }

  lemma MergeReads(e: Entity, fields: Entity, f: Key)
    ensures Get(Merge(e, fields), f) == if f in fields then fields[f] else Get(e, f)
  {
  }

  /** The fields of `body` whose value `e` doesn't hold. */
  function FieldsNotHolding(body: Entity, e: Entity): set<Key>
  {
    set f | f in body && body[f] != Get(e, f)
  }

  predicate Holds(body: Entity, e: Entity)
  {
    FieldsNotHolding(body, e) == {}
  }

  lemma HoldsField(body: Entity, e: Entity, f: Key)
    requires Holds(body, e) && f in body
    ensures Get(e, f) == body[f]
  {
    assert f !in FieldsNotHolding(body, e);
  }

  // ----- Names as typed -----

  predicate Space(c: char)
  {
    c in {' ', '\t', '\n', '\r'}
  }

  function Trim(name: string): string
  {
    if name != [] && Space(name[0]) then Trim(name[1..])
    else if name != [] && Space(name[|name| - 1]) then Trim(name[..|name| - 1])
    else name
  }

  lemma {:induction false} TrimTwice(name: string)
    ensures Trim(Trim(name)) == Trim(name)
  {
    if name != [] && Space(name[0]) {
      TrimTwice(name[1..]);
    } else if name != [] && Space(name[|name| - 1]) {
      TrimTwice(name[..|name| - 1]);
    }
  }
}
