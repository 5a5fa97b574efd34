/**
 * The line parser of the structured log sink (`DBLogger::insert_line`): it turns
 * one text line into a table row (timestamp, level, username, message).
 *
 * Lines of at least 30 characters are read by fixed offset and bracket search:
 * the first 19 characters are the timestamp, the text between the first `[` and
 * the first `]` is the level, and a leading `[...]` group of what follows is the
 * username. Shorter lines are stored as a bare message stamped with the current
 * time, which the caller supplies as `now`.
 */
module LineParser {
  import opened Wrappers
  import opened Text

  /** One row of the log table. */
  datatype Row = Row(timestamp: string, level: string, username: string, message: string)

  /** Lines shorter than this are not parsed. */
  const MinParsedLength: nat := 30

  /** Width of the `%Y-%m-%d %H:%M:%S` timestamp at the start of a line. */
  const TimestampWidth: nat := 19

  /**
   * The username step: when the rest of the line starts with `[` and holds a `]`,
   * the trimmed text between them (quotes not yet removed) and the trimmed text
   * after the `]`; otherwise no username and the whole rest.
   */
  function SplitUser(full: string): (string, string) {
    if |full| > 0 && full[0] == '[' then
      match IndexOf(full, ']')
      case Some(userEnd) => (Trim(full[1..userEnd]), Trim(full[userEnd + 1..]))
      case None => ([], full)
    else
      ([], full)
  }

  /** The row `insert_line` stores for `line` when the wall clock reads `now`. */
  function ParseLine(line: string, now: string): (r: Row)
    ensures |line| >= MinParsedLength ==> r.timestamp == line[..TimestampWidth]
    ensures |line| < MinParsedLength ==> r == Row(now, [], [], Trim(line))
    ensures IsTrimmed(r.level) && IsTrimmed(r.message)
    ensures '"' !in r.username
  {
    if |line| >= MinParsedLength then
      var levelStart := IndexOf(line, '[').UnwrapOr(0);
      var levelEnd := IndexOf(line, ']').UnwrapOr(0);
      var level := if levelEnd > levelStart then Trim(line[levelStart + 1..levelEnd]) else [];
      var full := if levelEnd + 2 <= |line| then Trim(line[levelEnd + 2..]) else [];
      var (rawUser, message) := SplitUser(full);
      Row(line[..TimestampWidth], level, RemoveChar(rawUser, '"'), message)
    else
      Row(now, [], [], Trim(line))
  }

  /** The line the logging facility writes for one record: `"{time} [{level}] {message}"`. */
  function FormatLine(time: string, level: string, message: string): string {
    time + " [" + level + "] " + message
  }

  /**
   * A correlation key that Rust's debug form prints without escapes: printable
   * ASCII with no backslash and no `"`. It also holds no `]`, which would end the
   * username group early.
   */
  predicate IsPlainKey(key: string) {
    forall k :: 0 <= k < |key| ==> 32 <= key[k] as int < 127 && key[k] != '\\' && key[k] != '"' && key[k] != ']'
  }

  /**
   * The two cases of the username step: without a leading `[` and a `]` there is
   * no username and the text is kept whole; with them both parts are trimmed and
   * together shorter than the text by at least the two brackets.
   */
  lemma SplitUserCases(full: string)
    ensures !(|full| > 0 && full[0] == '[' && ']' in full) ==> SplitUser(full) == ([], full)
    ensures |full| > 0 && full[0] == '[' && ']' in full
            ==> var (user, message) := SplitUser(full);
                IsTrimmed(user) && IsTrimmed(message) && |user| + |message| <= |full| - 2
  {
  }

  /** The layout of a formatted line: the timestamp, then `[`, the level, `]`, and the message. */
  lemma FormatLineLayout(time: string, level: string, message: string)
    ensures var line := FormatLine(time, level, message);
            |line| == |time| + |level| + |message| + 4
            && line[..|time|] == time && line[|time| + 1] == '[' && line[|time| + 2 + |level|] == ']'
            && line[|time| + 2..|time| + 2 + |level|] == level && line[|time| + 4 + |level|..] == message
  {
  }

  /**
   * The message of a record the API layer logs (`[{:?}] text`): the quoted
   * correlation key followed by the text. For a plain key this is exactly
   * Rust's debug form. Other keys would be printed with escapes, which this
   * function does not produce.
   */
  function TaggedMessage(key: string, text: string): (m: string)
    requires IsPlainKey(key)
    ensures |m| == |key| + 5 + |text|
    ensures m[0] == '[' && m[|key| + 3] == ']' && ']' !in m[..|key| + 3]
    ensures m[|key| + 4..] == " " + text
  {
    "[\"" + key + "\"] " + text
  }

  /** The timestamp prefix as the logging facility writes it: 19 characters, no brackets. */
  predicate IsTimestampPrefix(time: string) {
    |time| == TimestampWidth && '[' !in time && ']' !in time
  }

  /**
   * Trimming a line remainder `head + " " + text` whose `head` is itself trimmed and
   * non-empty keeps `head`, and what follows `head` trims to `Trim(text)`.
   */
  lemma {:induction false} TrimAfterHead(head: string, text: string)
    requires head != [] && IsTrimmed(head)
    ensures |Trim(head + " " + text)| >= |head|
    ensures Trim(head + " " + text)[..|head|] == head
    ensures Trim(Trim(head + " " + text)[|head|..]) == Trim(text)
  {
    var t := " " + text;
    assert head + " " + text == head + t;
    assert |Trim(head + t)| >= |head| && Trim(head + t)[..|head|] == head
        && Trim(Trim(head + t)[|head|..]) == Trim(t) by {
      TrimKeepsHead(head, t);
    }
    assert Trim(t) == Trim(text) by {
      assert AllWhitespace(" ");
      TrimAfterWhitespace(" ", text);
    }
  }

  /**
   * A formatted line of at least 30 characters parses into its timestamp, its
   * trimmed level, and whatever the username step makes of its trimmed message.
   */
  lemma {:induction false} ParseFormatted(time: string, level: string, message: string, now: string)
    requires IsTimestampPrefix(time)
    requires ']' !in level
    requires |FormatLine(time, level, message)| >= MinParsedLength
    ensures var (rawUser, text) := SplitUser(Trim(message));
            ParseLine(FormatLine(time, level, message), now)
              == Row(time, Trim(level), RemoveChar(rawUser, '"'), text)
  {
    var line := FormatLine(time, level, message);
    var ls := |time| + 1;
    var le := ls + 1 + |level|;
    assert line == time + " [" + level + "] " + message;
    assert line[ls] == '[' && line[le] == ']';
    assert line[..ls] == time + " ";
    assert line[..le] == time + " [" + level;
    IndexOfAt(line, '[', ls);
    IndexOfAt(line, ']', le);
    assert line[ls + 1..le] == level;
    assert line[le + 2..] == message;
    assert line[..TimestampWidth] == time;
  }

  /** A text that opens with `[` and has its first `]` at `p` splits around that `]`. */
  lemma SplitUserAt(full: string, p: nat)
    requires 0 < p < |full| && full[0] == '[' && full[p] == ']' && ']' !in full[..p]
    ensures SplitUser(full) == (Trim(full[1..p]), Trim(full[p + 1..]))
  {
    IndexOfAt(full, ']', p);
  }

  /**
   * The shape of `Trim("[u] text")` for `u` without `]`: it opens with `[`, its
   * first `]` follows `u`, and what comes after that `]` trims as `text` does.
   */
  lemma {:induction false} GroupShape(u: string, text: string)
    requires ']' !in u
    ensures var full := Trim("[" + u + "] " + text);
            var p := |u| + 1;
            p < |full| && full[0] == '[' && full[p] == ']' && ']' !in full[..p]
            && full[1..p] == u && Trim(full[p + 1..]) == Trim(text)
  {
    var bu := "[" + u;
    var head := bu + "]";
    var full := Trim(head + " " + text);
    assert Trim("[" + u + "] " + text) == full by {
      assert "[" + u + "] " + text == head + " " + text;
    }
    assert |full| >= |head| && full[..|head|] == head
        && Trim(full[|bu| + 1..]) == Trim(text) by {
      TrimAfterHead(head, text);
    }
    assert full[0] == '[' && full[|bu|] == ']' by {
      assert full[..|head|][0] == head[0] && full[..|head|][|bu|] == head[|bu|];
    }
    assert full[..|bu|] == bu by {
      PrefixOfPrefix(full, |head|, |bu|);
      assert head[..|bu|] == bu;
    }
    assert ']' !in bu && bu[1..] == u by {
      assert bu == "[" + u;
    }
    assert full[1..|bu|] == u by {
      assert full[1..|bu|] == full[..|bu|][1..];
    }
  }

  /** The username step on `[u] text`, where `u` holds no `]`, yields `u` and `text`, both trimmed. */
  lemma {:induction false} SplitUserOfGroup(u: string, text: string)
    requires ']' !in u
    ensures SplitUser(Trim("[" + u + "] " + text)) == (Trim(u), Trim(text))
  {
    GroupShape(u, text);
    SplitUserAt(Trim("[" + u + "] " + text), |u| + 1);
  }

  /**
   * Round trip for a bracketed username group: a well-formed line of at least 30
   * characters whose message starts with `[u]` parses back into its timestamp, the
   * trimmed level, the trimmed `u` without quotes, and the trimmed text.
   */
  lemma {:induction false} ParseFormattedWithUser(time: string, level: string, u: string, text: string, now: string)
    requires IsTimestampPrefix(time)
    requires ']' !in level && ']' !in u
    requires |FormatLine(time, level, "[" + u + "] " + text)| >= MinParsedLength
    ensures ParseLine(FormatLine(time, level, "[" + u + "] " + text), now)
         == Row(time, Trim(level), RemoveChar(Trim(u), '"'), Trim(text))
  {
    ParseFormatted(time, level, "[" + u + "] " + text, now);
    SplitUserOfGroup(u, text);
  }

  /** Removing the quotes Rust's debug form puts around a quote-free string gives the string back. */
  lemma {:induction false} UnquoteKey(key: string)
    requires '"' !in key
    ensures var u := "\"" + key + "\"";
            Trim(u) == u && RemoveChar(Trim(u), '"') == key
  {
    var u := "\"" + key + "\"";
    assert IsTrimmed(u) by { assert u[0] == '"' && u[|u| - 1] == '"'; }
    TrimTrimmed(u);
    assert u == "\"" + (key + "\"");
    RemoveCharConcat("\"", key + "\"", '"');
    RemoveCharConcat(key, "\"", '"');
  }

  /**
   * The same round trip for a record logged by the API layer, whose message starts
   * with the quoted correlation key: a plain key comes back as the username.
   */
  lemma {:induction false} ParseLoggedRecord(time: string, level: string, key: string, text: string, now: string)
    requires IsTimestampPrefix(time)
    requires ']' !in level && IsPlainKey(key)
    requires |FormatLine(time, level, TaggedMessage(key, text))| >= MinParsedLength
    ensures ParseLine(FormatLine(time, level, TaggedMessage(key, text)), now)
         == Row(time, Trim(level), key, Trim(text))
  {
    var u := "\"" + key + "\"";
    assert TaggedMessage(key, text) == "[" + u + "] " + text;
    assert ']' !in u;
    ParseFormattedWithUser(time, level, u, text, now);
    UnquoteKey(key);
  }

  /**
   * Round trip without a username group: when the message does not start with `[`
   * once trimmed, the username is empty and the message is the trimmed text.
   */
  lemma {:induction false} ParseFormattedWithoutUser(time: string, level: string, text: string, now: string)
    requires IsTimestampPrefix(time)
    requires ']' !in level
    requires Trim(text) == [] || Trim(text)[0] != '['
    requires |FormatLine(time, level, text)| >= MinParsedLength
    ensures ParseLine(FormatLine(time, level, text), now) == Row(time, Trim(level), [], Trim(text))
  {
    ParseFormatted(time, level, text, now);
  }

  /** A line shorter than 30 characters keeps only its trimmed text and takes the clock's time. */
  lemma {:induction false} ShortLineIsBareMessage(line: string, now: string)
    requires |line| < MinParsedLength
    ensures ParseLine(line, now).timestamp == now
    ensures ParseLine(line, now).level == [] && ParseLine(line, now).username == []
    ensures ParseLine(line, now).message == Trim(line)
  {
  }

  /** A line of at least 30 characters without any `]`: the level is empty and the rest starts at index 2. */
  lemma {:induction false} LineWithoutClosingBracket(line: string, now: string)
    requires |line| >= MinParsedLength && ']' !in line
    ensures ParseLine(line, now).level == []
    ensures var full := Trim(line[2..]);
            ParseLine(line, now).message == SplitUser(full).1
  {
  }

  /** The timestamp of the test lines below is a well-formed prefix. */
  lemma {:induction false} ExampleTimestamp(time: string)
    requires time == "2024-01-01 10:00:00"
    ensures IsTimestampPrefix(time)
  {
  }

  /** src/main.rs:216-242: a record with a quoted username. */
  lemma {:induction false} FullFormatExample(line: string, now: string)
    requires line == "2024-01-01 10:00:00" + " [" + "INFO" + "] " + ("[\"" + "testuser" + "\"] " + "This is a test message.")
    ensures ParseLine(line, now) == Row("2024-01-01 10:00:00", "INFO", "testuser", "This is a test message.")
  {
    var time, level, key, text := "2024-01-01 10:00:00", "INFO", "testuser", "This is a test message.";
    ExampleTimestamp(time);
    TrimTrimmed(level);
    TrimTrimmed(text);
    ParseLoggedRecord(time, level, key, text, now);
  }

  /** src/main.rs:246-272: a record without a username group. */
  lemma {:induction false} NoUsernameExample(line: string, now: string)
    requires line == "2024-01-01 10:00:00" + " [" + "ERROR" + "] " + "This is an error message without username."
    ensures ParseLine(line, now) == Row("2024-01-01 10:00:00", "ERROR", "", "This is an error message without username.")
  {
    var time, level, text := "2024-01-01 10:00:00", "ERROR", "This is an error message without username.";
    ExampleTimestamp(time);
    TrimTrimmed(level);
    TrimTrimmed(text);
    ParseFormattedWithoutUser(time, level, text, now);
  }

  /** src/main.rs:276-297: a line under 30 characters becomes a bare message. */
  lemma {:induction false} ShortFallbackExample(line: string, now: string)
    requires line == "Short message"
    ensures ParseLine(line, now) == Row(now, "", "", "Short message")
  {
    TrimTrimmed(line);
  }

  /** src/main.rs:301-312: an unquoted username is kept as it is. */
  lemma {:induction false} UnquotedUsernameExample(line: string, now: string)
    requires line == "2024-01-01 10:00:00" + " [" + "DEBUG" + "] " + ("[" + "anotheruser" + "] " + "Debug message.")
    ensures ParseLine(line, now).username == "anotheruser"
  {
    var time, level, u, text := "2024-01-01 10:00:00", "DEBUG", "anotheruser", "Debug message.";
    ExampleTimestamp(time);
    assert '"' !in u;
    TrimTrimmed(u);
    ParseFormattedWithUser(time, level, u, text, now);
  }

  /** src/main.rs:343-364: the partial line that `flush` stores. */
  lemma {:induction false} PartialFlushExample(line: string, now: string)
    requires line == "2024-01-02 11:02:00" + " [" + "ERROR" + "] " + ("[" + "user3" + "] " + "Partial flush")
    ensures ParseLine(line, now).message == "Partial flush"
  {
    var time, level, u, text := "2024-01-02 11:02:00", "ERROR", "user3", "Partial flush";
    assert IsTimestampPrefix(time);
    TrimTrimmed(text);
    ParseFormattedWithUser(time, level, u, text, now);
  }

  /** src/main.rs:386-405: the two lines written in one piece keep their messages. */
  lemma {:induction false} TwoLinesExample(la: string, lb: string, now: string)
    requires la == "2024-01-03 12:00:00" + " [" + "INFO" + "] " + ("[" + "userA" + "] " + "Line A.")
    requires lb == "2024-01-03 12:01:00" + " [" + "INFO" + "] " + ("[" + "userB" + "] " + "Line B.")
    ensures ParseLine(la, now).message == "Line A." && ParseLine(lb, now).message == "Line B."
  {
    assert IsTimestampPrefix("2024-01-03 12:00:00") && IsTimestampPrefix("2024-01-03 12:01:00");
    TrimTrimmed("Line A.");
    TrimTrimmed("Line B.");
    ParseFormattedWithUser("2024-01-03 12:00:00", "INFO", "userA", "Line A.", now);
    ParseFormattedWithUser("2024-01-03 12:01:00", "INFO", "userB", "Line B.", now);
  }
}
