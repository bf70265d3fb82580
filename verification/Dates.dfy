/**
 Days that travel as instants. Graph stores a due date as midnight in the
 writer's zone and gives it back in UTC, the zone lost. Instants are minutes,
 days are numbered from the same origin, and zones are fixed offsets in
 minutes.
 */
module Dates {

  const DAY := 1440
  const HALF_DAY := 720

  /** The day a minute is on: Dafny's division rounds down, as dates do. */
  function DayOf(minute: int): int
  {
    minute / DAY
  }

  predicate Midnight(minute: int)
  {
    minute % DAY == 0
  }

  /** A `dateTimeTimeZone`: a local minute, in UTC or in a named zone. */
  datatype Zoned = Zoned(at: int, utc: bool)

  /** The local date of a due date, read at offset `local`. */
  function LocalDueDate(value: Zoned, local: int): int
  {
    if value.utc && Midnight(value.at + local) then DayOf(value.at + local)
    else DayOf(value.at + HALF_DAY)
  }

  /** The local day of a completion; a midnight in UTC stands for its own date. */
  function CompletionDate(value: Zoned, local: int): int
  {
    if !value.utc || Midnight(value.at) then DayOf(value.at) else DayOf(value.at + local)
  }

  /** What Graph gives back for day `day` written at offset `writer`. */
  function AsStored(day: int, writer: int): Zoned
  {
    Zoned(day * DAY - writer, true)
  }

  // ----- Reading a day back -----

  lemma DayOfShifted(day: int, shift: int)
    ensures DayOf(day * DAY + shift) == day + DayOf(shift)
    ensures Midnight(day * DAY + shift) <==> Midnight(shift)
  {
  }

  lemma HalfDayKeeps(writer: int)
    ensures DayOf(HALF_DAY - writer) == 0 <==> -HALF_DAY < writer <= HALF_DAY
  {
  }

  /**
   Exactly when a day is read back as written, for every day and any offsets:
   the reader is at the writer's offset, or they aren't whole days apart and
   the writer is within half a day of UTC.
   */
  lemma DayRecovered(day: int, writer: int, reader: int)
    ensures LocalDueDate(AsStored(day, writer), reader) == day
            <==> writer == reader || (!Midnight(reader - writer) && -HALF_DAY < writer <= HALF_DAY)
  {
    var at := day * DAY - writer;
    DayOfShifted(day, reader - writer);
    DayOfShifted(day, HALF_DAY - writer);
    assert at + reader == day * DAY + (reader - writer);
    assert at + HALF_DAY == day * DAY + (HALF_DAY - writer);
    HalfDayKeeps(writer);
    if Midnight(reader - writer) {
      WholeDays(reader - writer);
    }
  }

  lemma WholeDays(shift: int)
    requires Midnight(shift)
    ensures DayOf(shift) == 0 <==> shift == 0
  {
  }

  /** For the offsets in use, from -12 to +14 hours, whole days apart is a day apart. */
  lemma DayRecoveredOnEarth(day: int, writer: int, reader: int)
    requires -HALF_DAY <= writer <= 840 && -HALF_DAY <= reader <= 840
    ensures LocalDueDate(AsStored(day, writer), reader) == day
            <==> writer == reader
                 || (-HALF_DAY < writer <= HALF_DAY && reader - writer != DAY && writer - reader != DAY)
  {
    DayRecovered(day, writer, reader);
  }

  /** A completion recorded as a UTC date is that date to every reader; read as a due date it need not be. */
  lemma CompletionIsItsUtcDate(day: int, reader: int)
    ensures CompletionDate(Zoned(day * DAY, true), reader) == day
    ensures LocalDueDate(Zoned(day * DAY, true), reader) == day <==> (reader == 0 || !Midnight(reader))
  {
    DayOfShifted(day, 0);
    DayRecovered(day, 0, reader);
    assert AsStored(day, 0) == Zoned(day * DAY, true);
  }

  // ----- Writing one back -----

  /** What is sent for a value read: as it came if it is at midnight, else its local day at local midnight. */
  function AsWritten(value: Zoned, local: int): Zoned
  {
    if Midnight(value.at) then value else Zoned(LocalDueDate(value, local) * DAY, false)
  }

  /** Graph cuts what it is sent down to a date, in the zone sent, and answers in UTC. */
  function Store(sent: Zoned, local: int): Zoned
  {
    Zoned(DayOf(sent.at) * DAY - (if sent.utc then 0 else local), true)
  }

  /** `n` times read, written back and stored, by one user. */
  function Cycles(value: Zoned, local: int, n: nat): Zoned
  {
    if n == 0 then value else Store(AsWritten(Cycles(value, local, n - 1), local), local)
  }

  lemma OneCycle(value: Zoned, local: int)
    requires value.utc
    ensures Store(AsWritten(value, local), local).utc
    ensures LocalDueDate(Store(AsWritten(value, local), local), local) == LocalDueDate(value, local)
  {
    if Midnight(value.at) {
      assert value.at / DAY * DAY == value.at;
      assert Store(value, local) == value;
    } else {
      var day := LocalDueDate(value, local);
      DayOfShifted(day, 0);
      assert Store(AsWritten(value, local), local) == AsStored(day, local);
      DayRecovered(day, local, local);
    }
  }

  /** No drift: however often a date Graph gave is written back, its local day stays. */
  lemma {:induction false} NoDrift(value: Zoned, local: int, n: nat)
    requires value.utc
    ensures Cycles(value, local, n).utc
    ensures LocalDueDate(Cycles(value, local, n), local) == LocalDueDate(value, local)
  {
    if n > 0 {
      NoDrift(value, local, n - 1);
      OneCycle(Cycles(value, local, n - 1), local);
    }
  }

  /**
   Sending a date back as Graph gave it would not do: for a user up to half a
   day east of UTC, a day of their own then reads a day early.
   */
  lemma AsGivenDrifts(day: int, local: int)
    requires 0 < local < HALF_DAY
    ensures LocalDueDate(AsStored(day, local), local) == day
    ensures LocalDueDate(Store(AsStored(day, local), local), local) == day - 1
  {
    DayRecovered(day, local, local);
    DayOfShifted(day, -local);
    assert Store(AsStored(day, local), local) == AsStored(day - 1, 0);
    DayRecovered(day - 1, 0, local);
  }

  // ----- Times of day -----

  /**
   A completion at a local time of a day, given in UTC, is of that day to its
   own user, unless the time is midnight in UTC, which stands for the UTC date:
   that is the day exactly at an offset the time of day equals.
   */
  lemma CompletionIsItsLocalDay(day: int, minute: int, local: int)
    requires 0 <= minute < DAY
    ensures CompletionDate(Zoned(day * DAY + minute - local, true), local) == day
            <==> !Midnight(minute - local) || minute == local
    ensures CompletionDate(Zoned(day * DAY + minute, false), local) == day
  {
    DayOfShifted(day, minute - local);
    DayOfShifted(day, minute);
    assert day * DAY + minute - local == day * DAY + (minute - local);
    assert day * DAY + minute - local + local == day * DAY + minute;
    if Midnight(minute - local) {
      WholeDays(minute - local);
    }
  }

  /** A due date in a named zone is of the nearest midnight there, whatever the reader's offset. */
  lemma NamedZoneIsItsOwnDay(day: int, shift: int, local: int)
    ensures LocalDueDate(Zoned(day * DAY + shift, false), local) == day <==> -HALF_DAY <= shift < HALF_DAY
  {
    DayOfShifted(day, shift + HALF_DAY);
    assert day * DAY + shift + HALF_DAY == day * DAY + (shift + HALF_DAY);
  }

  /** What is written is a midnight: the value's own if it was at one, else that of its local day. */
  lemma WrittenAtMidnight(value: Zoned, local: int)
    ensures Midnight(AsWritten(value, local).at)
    ensures Midnight(value.at) ==> AsWritten(value, local) == value
    ensures !Midnight(value.at) ==>
              !AsWritten(value, local).utc && DayOf(AsWritten(value, local).at) == LocalDueDate(value, local)
  {
    DayOfShifted(LocalDueDate(value, local), 0);
  }
}
