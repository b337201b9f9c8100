/** The storage server's log of sentence-count changes and the shift computed from it. */
module ModificationLog {
  datatype LogEntry = LogEntry(id: int, file: string, index: int, delta: int)

  /** The entry was logged for `file` since a session that started at log id `start`. */
  predicate Since(e: LogEntry, file: string, start: int) {
    e.id >= start && e.file == file
  }

  /** `get_sentence_shift`: every new entry of the file whose index is below the index
      the session asked for. */
  function Shift(log: seq<LogEntry>, file: string, k: int, start: int): int {
    if log == [] then 0
    else
      (if Since(log[0], file, start) && log[0].index < k then log[0].delta else 0)
      + Shift(log[1..], file, k, start)
  }

  /** Where sentence `pos` really is after the logged changes: each entry is compared
      with the position the sentence has by then. */
  function Track(log: seq<LogEntry>, file: string, pos: int, start: int): int {
    if log == [] then pos
    else Track(log[1..], file, Moved(log[0], file, pos, start), start)
  }

  function Moved(e: LogEntry, file: string, pos: int, start: int): int {
    if Since(e, file, start) && e.index < pos then pos + e.delta else pos
  }

  /** Some entry has its index between the index asked for and the running position. */
  predicate Overtaken(log: seq<LogEntry>, file: string, k: int, pos: int, start: int) {
    log != [] &&
    (|| (Since(log[0], file, start) && k <= log[0].index < pos)
     || Overtaken(log[1..], file, k, Moved(log[0], file, pos, start), start))
  }

  predicate Growing(log: seq<LogEntry>) {
    forall i | 0 <= i < |log| :: log[i].delta > 0
  }

  /** The computed shift never passes the exact one, and meets it exactly when no entry
      falls between the index asked for and the running position. */
  lemma {:induction false} ShiftArithmetic(log: seq<LogEntry>, file: string, k: int, start: int)
    requires Growing(log)
    ensures k + Shift(log, file, k, start) <= Track(log, file, k, start)
    ensures k + Shift(log, file, k, start) == Track(log, file, k, start)
            <==> !Overtaken(log, file, k, k, start)
  {
    ShiftFrom(log, file, k, k, start);
  }

  lemma {:induction false} ShiftFrom(log: seq<LogEntry>, file: string, k: int, pos: int, start: int)
    requires Growing(log) && k <= pos
    ensures pos + Shift(log, file, k, start) <= Track(log, file, pos, start)
    ensures pos + Shift(log, file, k, start) == Track(log, file, pos, start)
            <==> !Overtaken(log, file, k, pos, start)
  {
    if log != [] {
      ShiftFrom(log[1..], file, k, Moved(log[0], file, pos, start), start);
    }
  }

  /** The shift can be wrong: after sentence 1 moved to 3, an edit of sentence 2 moves it
      again, but 2 is not below 1. */
  lemma ShiftCanMiss()
    ensures var log := [LogEntry(0, "f", 0, 2), LogEntry(1, "f", 2, 1)];
            1 + Shift(log, "f", 1, 0) == 3 && Track(log, "f", 1, 0) == 4
  {
    var log := [LogEntry(0, "f", 0, 2), LogEntry(1, "f", 2, 1)];
    assert log[1..] == [LogEntry(1, "f", 2, 1)] && log[1..][1..] == [];
  }

  lemma {:induction false} ShiftSnoc(log: seq<LogEntry>, e: LogEntry, file: string, k: int, start: int)
    ensures Shift(log + [e], file, k, start) ==
            Shift(log, file, k, start) + if Since(e, file, start) && e.index < k then e.delta else 0
  {
    if log == [] {
      assert log + [e] == [e] && [e][1..] == [];
    } else {
      assert (log + [e])[1..] == log[1..] + [e];
      ShiftSnoc(log[1..], e, file, k, start);
    }
  }

  lemma {:induction false} TrackSnoc(log: seq<LogEntry>, e: LogEntry, file: string, pos: int, start: int)
    ensures Track(log + [e], file, pos, start) == Moved(e, file, Track(log, file, pos, start), start)
  {
    if log == [] {
      assert log + [e] == [e] && [e][1..] == [];
    } else {
      assert (log + [e])[1..] == log[1..] + [e];
      TrackSnoc(log[1..], e, file, Moved(log[0], file, pos, start), start);
    }
  }

  lemma {:induction false} TrackOfOld(log: seq<LogEntry>, file: string, pos: int, start: int)
    requires forall i | 0 <= i < |log| :: log[i].id < start
    ensures Track(log, file, pos, start) == pos
  {
    if log != [] {
      TrackOfOld(log[1..], file, pos, start);
    }
  }

  lemma {:induction false} ShiftOfOld(log: seq<LogEntry>, file: string, k: int, start: int)
    requires forall i | 0 <= i < |log| :: log[i].id < start
    ensures Shift(log, file, k, start) == 0
  {
    if log != [] {
      ShiftOfOld(log[1..], file, k, start);
    }
  }

  /** All sentences the log says a file has gained. */
  function Gained(log: seq<LogEntry>, file: string): int {
    if log == [] then 0
    else (if log[0].file == file then log[0].delta else 0) + Gained(log[1..], file)
  }

  lemma {:induction false} GainedSnoc(log: seq<LogEntry>, e: LogEntry, file: string)
    ensures Gained(log + [e], file) == Gained(log, file) + if e.file == file then e.delta else 0
  {
    if log == [] {
      assert log + [e] == [e] && [e][1..] == [];
    } else {
      assert (log + [e])[1..] == log[1..] + [e];
      GainedSnoc(log[1..], e, file);
    }
  }

  /** All sentences it says the file has gained since a session that started at `start`. */
  function Grown(log: seq<LogEntry>, file: string, start: int): int {
    if log == [] then 0
    else (if Since(log[0], file, start) then log[0].delta else 0) + Grown(log[1..], file, start)
  }

  lemma {:induction false} GrownSnoc(log: seq<LogEntry>, e: LogEntry, file: string, start: int)
    ensures Grown(log + [e], file, start) == Grown(log, file, start) + if Since(e, file, start) then e.delta else 0
  {
    if log == [] {
      assert log + [e] == [e] && [e][1..] == [];
    } else {
      assert (log + [e])[1..] == log[1..] + [e];
      GrownSnoc(log[1..], e, file, start);
    }
  }

  lemma {:induction false} GrownOfOld(log: seq<LogEntry>, file: string, start: int)
    requires forall i | 0 <= i < |log| :: log[i].id < start
    ensures Grown(log, file, start) == 0
  {
    if log != [] {
      GrownOfOld(log[1..], file, start);
    }
  }

  /** Every new change of the file is at an index below `k`. */
  predicate AllBelow(log: seq<LogEntry>, file: string, k: int, start: int) {
    forall i | 0 <= i < |log| && Since(log[i], file, start) :: log[i].index < k
  }

  /** The shift leaves out the changes at and after the index asked for, and only those. */
  lemma {:induction false} ShiftAgainstGrown(log: seq<LogEntry>, file: string, k: int, start: int)
    requires Growing(log)
    ensures Shift(log, file, k, start) <= Grown(log, file, start)
    ensures Shift(log, file, k, start) == Grown(log, file, start) <==> AllBelow(log, file, k, start)
  {
    if log != [] {
      ShiftAgainstGrown(log[1..], file, k, start);
      assert forall i | 1 <= i < |log| :: log[i] == log[1..][i - 1];
    }
  }

  /** Nothing was logged for the file since `start`. */
  predicate NoneSince(log: seq<LogEntry>, file: string, start: int) {
    forall i | 0 <= i < |log| :: !Since(log[i], file, start)
  }

  lemma {:induction false} ShiftOfNone(log: seq<LogEntry>, file: string, k: int, start: int)
    requires NoneSince(log, file, start)
    ensures Shift(log, file, k, start) == 0
  {
    if log != [] {
      ShiftOfNone(log[1..], file, k, start);
    }
  }

  /** What an entry adds to the shift of a session that asked for `k`. */
  function Counted(e: LogEntry, k: int): int {
    if e.index < k then e.delta else 0
  }
}
