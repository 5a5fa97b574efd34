/**
 * The log sink `DBLogger`: a text buffer in front of an append-only table.
 * `Write` appends its input to the buffer and stores every complete line, in
 * arrival order; `Flush` stores a non-blank remainder as one last row.
 *
 * The table is the sequence `rows`. Whether the store accepts an insert is not
 * visible to this code, so each operation takes that answer as an argument, as
 * it takes the wall-clock readings used for lines too short to carry a timestamp.
 */
module DbLogger {
  import opened Wrappers
  import opened Text
  import opened LineParser
  import opened LineSplit

  /** The only error the sink reports: the store rejected an `INSERT`. */
  datatype IoError = StoreRejected

  /** Rust's `io::Result<T>`. */
  datatype IoResult<T> = Ok(value: T) | Err(error: IoError)

  /** The rows stored for `lines`, the `k`-th insert reading the clock as `clock(k)`. */
  function ParseAll(lines: seq<string>, clock: nat -> string): (r: seq<Row>)
    ensures |r| == |lines|
  {
    if lines == [] then []
    else ParseAll(lines[..|lines| - 1], clock) + [ParseLine(lines[|lines| - 1], clock(|lines| - 1))]
  }

  /** How many of `n` inserts succeed when the store rejects the one numbered `failAt`. */
  function Accepted(failAt: Option<nat>, n: nat): (r: nat)
    ensures r <= n
    ensures r < n <==> failAt.Some? && failAt.value < n
    ensures r < n ==> r == failAt.value
  {
    if failAt.Some? && failAt.value < n then failAt.value else n
  }

  /**
   * One round of the draining loop: with `count` lines stored, the buffer's first
   * `\n` ends line `count`, and storing it extends the rows by that line's row.
   */
  lemma {:induction false} DrainStep(lines: seq<string>, rest: string, count: nat)
    requires count < |lines| && CleanLines(lines)
    ensures var b := JoinLines(lines[count..]) + rest;
            var p := |lines[count]|;
            IndexOf(b, '\n') == Some(p) && b[..p] == lines[count]
            && b[p + 1..] == JoinLines(lines[count + 1..]) + rest
  {
    assert CleanLines(lines[count..]) by {
      forall i | 0 <= i < |lines[count..]| ensures '\n' !in lines[count..][i] {
        assert lines[count..][i] == lines[count + i];
      }
    }
    FirstLineOf(lines[count..], rest);
    assert lines[count..][1..] == lines[count + 1..];
  }

  /** The buffer still holds a `\n` exactly while lines remain to be stored. */
  lemma {:induction false} DrainEnd(lines: seq<string>, rest: string, count: nat)
    requires count <= |lines| && CleanLines(lines) && '\n' !in rest
    ensures IndexOf(JoinLines(lines[count..]) + rest, '\n').Some? <==> count < |lines|
  {
    if count < |lines| {
      DrainStep(lines, rest, count);
    } else {
      assert lines[count..] == [];
      assert JoinLines(lines[count..]) + rest == rest;
    }
  }

  /** Storing line `count` after the rows `pre` extends the parsed prefix by one row. */
  lemma {:induction false} ParseAllSnoc(pre: seq<Row>, lines: seq<string>, count: nat, clock: nat -> string)
    requires count < |lines|
    ensures pre + ParseAll(lines[..count + 1], clock)
         == (pre + ParseAll(lines[..count], clock)) + [ParseLine(lines[count], clock(count))]
  {
    assert lines[..count + 1][..count] == lines[..count];
  }

  /** One round of the draining loop, with the rows `pre` stored before the call. */
  lemma DrainRound(pre: seq<Row>, lines: seq<string>, rest: string, count: nat, clock: nat -> string)
    requires count < |lines| && CleanLines(lines)
    ensures var b := JoinLines(lines[count..]) + rest;
            var p := |lines[count]|;
            IndexOf(b, '\n') == Some(p) && b[..p] == lines[count]
            && b[p + 1..] == JoinLines(lines[count + 1..]) + rest
            && pre + ParseAll(lines[..count + 1], clock)
               == (pre + ParseAll(lines[..count], clock)) + [ParseLine(lines[count], clock(count))]
  {
    DrainStep(lines, rest, count);
    ParseAllSnoc(pre, lines, count, clock);
  }

  class DBLogger {
    /** Text received but not yet stored: at most one unterminated line once `Write` succeeds. */
    var buffer: string
    /** The log table, oldest row first. */
    var rows: seq<Row>

    /** A sink with an empty buffer in front of an empty table. */
    constructor ()
      ensures buffer == [] && rows == []
    {
      buffer := [];
      rows := [];
    }

    /**
     * `insert_line`: parse `line` and append the row, unless the store rejects it.
     * `now` is what the clock reads; `storeFails` is the store's answer.
     */
    method InsertLine(line: string, now: string, storeFails: bool) returns (r: IoResult<()>)
      modifies this`rows
      ensures storeFails ==> r == Err(StoreRejected) && rows == old(rows)
      ensures !storeFails ==> r == Ok(()) && rows == old(rows) + [ParseLine(line, now)]
    {
      if storeFails {
        return Err(StoreRejected);
      }
      rows := rows + [ParseLine(line, now)];
      return Ok(());
    }

    /**
     * `Write::write`: append `input` to the buffer, then drain and store each
     * complete line in turn. The `k`-th insert of this call reads the clock as
     * `clock(k)` and is rejected if `failAt == Some(k)`; a rejected line has already
     * left the buffer, and the lines after it stay there.
     */
    method Write(input: string, clock: nat -> string, failAt: Option<nat>) returns (r: IoResult<nat>)
      modifies this
      ensures var lines := SplitLines(old(buffer) + input).0;
              var rest := SplitLines(old(buffer) + input).1;
              var k := Accepted(failAt, |lines|);
              rows == old(rows) + ParseAll(lines[..k], clock)
              && (k == |lines| ==> r == Ok(|input|) && buffer == rest)
              && (k < |lines| ==> r == Err(StoreRejected) && buffer == JoinLines(lines[k + 1..]) + rest)
      ensures r.Ok? ==> r.value == |input| && '\n' !in buffer
      ensures r.Ok? ==> |rows| == |old(rows)| + Count(old(buffer) + input, '\n')
    {
      buffer := buffer + input;
      ghost var lines := SplitLines(buffer).0;
      ghost var rest := SplitLines(buffer).1;
      ghost var k := Accepted(failAt, |lines|);
      var count := 0;
      DrainEnd(lines, rest, 0);
      while IndexOf(buffer, '\n').Some?
        invariant count <= k
        invariant buffer == JoinLines(lines[count..]) + rest
        invariant rows == old(rows) + ParseAll(lines[..count], clock)
        decreases |buffer|
      {
        DrainEnd(lines, rest, count);
        DrainRound(old(rows), lines, rest, count, clock);
        var pos := IndexOf(buffer, '\n').value;
        var line := buffer[..pos];
        buffer := buffer[pos + 1..];
        var rejected := failAt.Some? && failAt.value == count;
        assert rejected <==> count == k;
        var res := InsertLine(line, clock(count), rejected);
        if res.Err? {
          assert buffer == JoinLines(lines[k + 1..]) + rest;
          return Err(res.error);
        }
        count := count + 1;
      }
      DrainEnd(lines, rest, count);
      assert lines[..count] == lines;
      SplitLinesCount(old(buffer) + input);
      return Ok(|input|);
    }

    /**
     * `Write::flush`: a buffer holding anything but whitespace is stored as one row,
     * parsed as it stands, and then cleared; a blank buffer is left alone.
     */
    method Flush(now: string, storeFails: bool) returns (r: IoResult<()>)
      modifies this
      ensures AllWhitespace(old(buffer)) ==> r == Ok(()) && buffer == old(buffer) && rows == old(rows)
      ensures !AllWhitespace(old(buffer)) && !storeFails
              ==> r == Ok(()) && buffer == [] && rows == old(rows) + [ParseLine(old(buffer), now)]
      ensures !AllWhitespace(old(buffer)) && storeFails
              ==> r == Err(StoreRejected) && buffer == old(buffer) && rows == old(rows)
    {
      TrimEmptyIff(buffer);
      if Trim(buffer) != [] {
        var res := InsertLine(buffer, now, storeFails);
        if res.Err? {
          return Err(res.error);
        }
        buffer := [];
      }
      return Ok(());
    }
  }

  /** The test lines below hold no `\n`. */
  lemma {:induction false} ExampleLines(first: string, more: string, second: string)
    requires first == "2024-01-02 11:00:00" + " [INFO] [user1]" + " First part."
    requires more == " Still user1."
    requires second == "2024-01-02 11:01:00" + " [WARN] [user2]" + " Second line fully."
    ensures '\n' !in first && '\n' !in more && '\n' !in second
  {
  }

  /** The partial test line holds no `\n` and is not blank. */
  lemma {:induction false} PartialLine(partial: string)
    requires partial == "2024-01-02 11:02:00" + " [" + "ERROR" + "] " + ("[" + "user3" + "] " + "Partial flush")
    ensures '\n' !in partial && !AllWhitespace(partial)
  {
    assert !IsWhitespace(partial[0]);
  }

  /**
   * Writing text that completes a run of clean lines, with no insert failing:
   * one row per line, and the buffer keeps only the unterminated remainder.
   */
  method WriteWholeLines(logger: DBLogger, input: string, ls: seq<string>, rest: string, clock: nat -> string)
      returns (r: IoResult<nat>)
    requires CleanLines(ls) && '\n' !in rest
    requires logger.buffer + input == JoinLines(ls) + rest
    modifies logger
    ensures r == Ok(|input|) && logger.buffer == rest
    ensures logger.rows == old(logger.rows) + ParseAll(ls, clock)
  {
    SplitJoin(ls, rest);
    r := logger.Write(input, clock, None);
    assert ls[..|ls|] == ls;
  }

  /** src/main.rs:321-339: a line written in two pieces, then a full line: two rows. */
  method WriteLinesExample(logger: DBLogger, now: string)
    requires logger.buffer == []
    modifies logger
    ensures |logger.rows| == |old(logger.rows)| + 2 && logger.buffer == []
  {
    var clock: nat -> string := k => now;
    var first := "2024-01-02 11:00:00" + " [INFO] [user1]" + " First part.";
    var more := " Still user1.";
    var second := "2024-01-02 11:01:00" + " [WARN] [user2]" + " Second line fully.";
    ExampleLines(first, more, second);
    ghost var n := |logger.rows|;
    assert [] + first == JoinLines([]) + first;
    var w1 := WriteWholeLines(logger, first, [], first, clock);
    assert |logger.rows| == n;
    assert first + (more + "\n") == JoinLines([first + more]) + [] by {
      JoinOne(first + more, []);
    }
    var w2 := WriteWholeLines(logger, more + "\n", [first + more], [], clock);
    assert |logger.rows| == n + 1;
    assert [] + (second + "\n") == JoinLines([second]) + [] by {
      JoinOne(second, []);
    }
    var w3 := WriteWholeLines(logger, second + "\n", [second], [], clock);
  }

  /**
   * src/main.rs:343-378: a partial line is stored by `Flush`, and a second `Flush`
   * of the now empty buffer stores nothing.
   */
  method FlushPartialExample(logger: DBLogger, now: string) returns (lastMessage: string)
    requires logger.buffer == []
    modifies logger
    ensures |logger.rows| == |old(logger.rows)| + 1 && logger.buffer == []
    ensures lastMessage == "Partial flush"
  {
    var clock: nat -> string := k => now;
    var partial := "2024-01-02 11:02:00" + " [" + "ERROR" + "] " + ("[" + "user3" + "] " + "Partial flush");
    PartialLine(partial);
    assert [] + partial == partial;
    SplitJoin([], partial);
    var w := logger.Write(partial, clock, None);
    var f1 := logger.Flush(now, false);
    lastMessage := logger.rows[|logger.rows| - 1].message;
    PartialFlushExample(partial, now);
    var f2 := logger.Flush(now, false);
  }

  /** src/main.rs:316-378, the whole test: two rows, then three, then still three. */
  method WriteAndFlushExample(now: string) returns (afterLines: nat, afterFlush: nat, lastMessage: string, afterEmptyFlush: nat)
    ensures afterLines == 2 && afterFlush == 3 && lastMessage == "Partial flush" && afterEmptyFlush == 3
  {
    var logger := new DBLogger();
    WriteLinesExample(logger, now);
    afterLines := |logger.rows|;
    lastMessage := FlushPartialExample(logger, now);
    afterFlush := |logger.rows|;
    var f := logger.Flush(now, false);
    afterEmptyFlush := |logger.rows|;
  }

  /** The two test lines below hold no `\n`. */
  lemma {:induction false} TwoLines(la: string, lb: string)
    requires la == "2024-01-03 12:00:00" + " [" + "INFO" + "] " + ("[" + "userA" + "] " + "Line A.")
    requires lb == "2024-01-03 12:01:00" + " [" + "INFO" + "] " + ("[" + "userB" + "] " + "Line B.")
    ensures CleanLines([la, lb])
  {
    assert '\n' !in la && '\n' !in lb;
  }

  /** src/main.rs:382-405: two complete lines in one write become two rows, in order. */
  method MultipleLinesExample(now: string) returns (count: nat, messages: seq<string>)
    ensures count == 2 && messages == ["Line A.", "Line B."]
  {
    var clock: nat -> string := k => now;
    var la := "2024-01-03 12:00:00" + " [" + "INFO" + "] " + ("[" + "userA" + "] " + "Line A.");
    var lb := "2024-01-03 12:01:00" + " [" + "INFO" + "] " + ("[" + "userB" + "] " + "Line B.");
    TwoLines(la, lb);
    JoinOne(lb, []);
    assert [la, lb][1..] == [lb];
    assert JoinLines([la, lb]) + [] == [] + (la + "\n" + lb + "\n");
    SplitJoin([la, lb], []);
    var logger := new DBLogger();
    var w := logger.Write(la + "\n" + lb + "\n", clock, None);
    assert [la, lb][..2] == [la, lb];
    assert [la, lb][..1] == [la];
    count := |logger.rows|;
    messages := [logger.rows[0].message, logger.rows[1].message];
    TwoLinesExample(la, lb, now);
  }

  /** src/main.rs:409-426: an empty write followed by a flush stores nothing. */
  method EmptyWriteExample(now: string) returns (count: nat)
    ensures count == 0
  {
    var logger := new DBLogger();
    SplitJoin([], []);
    var w := logger.Write([], k => now, None);
    var f := logger.Flush(now, false);
    count := |logger.rows|;
  }

  /**
   * src/db/db_logger.rs:76-81: when the store rejects the first of three lines, that
   * line is gone from the buffer, nothing is stored, and the later text stays
   * buffered; the next `Write`, even an empty one, stores `beta` and keeps `gamma`.
   */
  method RejectedInsertExample(now: string)
    returns (first: IoResult<nat>, left: string, second: IoResult<nat>, stored: seq<Row>, kept: string)
    ensures first == Err(StoreRejected) && left == "beta" + "\n" + "gamma"
    ensures second == Ok(0) && stored == [ParseLine("beta", now)] && kept == "gamma"
  {
    var clock: nat -> string := k => now;
    var logger := new DBLogger();
    var input := "alpha" + "\n" + "beta" + "\n" + "gamma";
    assert CleanLines(["alpha", "beta"]) && '\n' !in "gamma";
    JoinOne("beta", "gamma");
    assert ["alpha", "beta"][1..] == ["beta"];
    assert JoinLines(["alpha", "beta"]) + "gamma" == [] + input;
    SplitJoin(["alpha", "beta"], "gamma");
    first := logger.Write(input, clock, Some(0));
    assert ["alpha", "beta"][1..] == ["beta"];
    left := logger.buffer;
    assert left + [] == JoinLines(["beta"]) + "gamma";
    SplitJoin(["beta"], "gamma");
    second := logger.Write([], clock, None);
    stored := logger.rows;
    kept := logger.buffer;
  }
}
