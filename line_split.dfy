/**
 * The line discipline of the log sink's buffer: text is a sequence of complete
 * lines, each terminated by `\n`, followed by an unterminated remainder.
 * `SplitLines` is the reference for what the draining loop of `write` takes out
 * of the buffer, and `JoinLines` is its inverse.
 */
module LineSplit {
  import opened Wrappers
  import opened Text

  /** Every line followed by its `\n`, in order. */
  function JoinLines(ls: seq<string>): string {
    if ls == [] then [] else ls[0] + "\n" + JoinLines(ls[1..])
  }

  /** None of the lines holds a `\n`. */
  predicate CleanLines(ls: seq<string>) {
    forall i :: 0 <= i < |ls| ==> '\n' !in ls[i]
  }

  /**
   * The complete lines of `s`, in order, and the text after the last `\n`;
   * each line is cut at the first `\n` of what is left, as `find('\n')` does.
   */
  function SplitLines(s: string): (r: (seq<string>, string))
    ensures JoinLines(r.0) + r.1 == s
    ensures CleanLines(r.0) && '\n' !in r.1
    decreases |s|
  {
    match IndexOf(s, '\n')
    case None => ([], s)
    case Some(p) =>
      var tail := SplitLines(s[p + 1..]);
      SplitStep(s, p, tail.0, tail.1);
      ([s[..p]] + tail.0, tail.1)
  }

  /** Putting the first line back in front of the split of what follows its `\n`. */
  lemma {:induction false} SplitStep(s: string, p: nat, ls: seq<string>, rest: string)
    requires p < |s| && s[p] == '\n' && '\n' !in s[..p]
    requires JoinLines(ls) + rest == s[p + 1..] && CleanLines(ls)
    ensures JoinLines([s[..p]] + ls) + rest == s
    ensures CleanLines([s[..p]] + ls)
  {
    JoinCons(s[..p], ls);
    CutAt(s, p);
    calc {
      JoinLines([s[..p]] + ls) + rest;
      (s[..p] + "\n" + JoinLines(ls)) + rest;
      s[..p] + "\n" + (JoinLines(ls) + rest);
      s;
    }
    forall i | 0 <= i < |[s[..p]] + ls| ensures '\n' !in ([s[..p]] + ls)[i] {
      if i > 0 { assert ([s[..p]] + ls)[i] == ls[i - 1]; }
    }
  }

  lemma {:induction false} JoinCons(line: string, ls: seq<string>)
    ensures JoinLines([line] + ls) == line + "\n" + JoinLines(ls)
  {
    assert ([line] + ls)[1..] == ls;
  }

  lemma {:induction false} CutAt(s: string, p: nat)
    requires p < |s| && s[p] == '\n'
    ensures s == s[..p] + "\n" + s[p + 1..]
  {
    assert s[p..p + 1] == "\n";
    assert s == s[..p] + s[p..p + 1] + s[p + 1..];
  }

  /**
   * In a text that starts with a complete clean line, the first `\n` ends that
   * line, and what follows it is the rest of the text.
   */
  lemma {:induction false} FirstLineOf(ls: seq<string>, rest: string)
    requires |ls| > 0 && CleanLines(ls)
    ensures var s := JoinLines(ls) + rest;
            IndexOf(s, '\n') == Some(|ls[0]|)
            && s[..|ls[0]|] == ls[0]
            && s[|ls[0]| + 1..] == JoinLines(ls[1..]) + rest
  {
    var s := JoinLines(ls) + rest;
    var tail := JoinLines(ls[1..]) + rest;
    assert s == ls[0] + ("\n" + tail);
    assert s[..|ls[0]|] == ls[0];
    assert s[|ls[0]|] == '\n';
    IndexOfAt(s, '\n', |ls[0]|);
    assert s[|ls[0]| + 1..] == tail;
  }

  /** One line on its own: the line, its `\n`, and the remainder. */
  lemma {:induction false} JoinOne(line: string, rest: string)
    ensures JoinLines([line]) + rest == line + "\n" + rest
  {
    assert [line][1..] == [];
  }

  /** Splitting is the inverse of joining: clean lines and a clean remainder come back unchanged. */
  lemma {:induction false} SplitJoin(ls: seq<string>, rest: string)
    requires CleanLines(ls) && '\n' !in rest
    ensures SplitLines(JoinLines(ls) + rest) == (ls, rest)
    decreases |ls|
  {
    var s := JoinLines(ls) + rest;
    if ls == [] {
      assert s == rest;
    } else {
      var p := |ls[0]|;
      var tail := JoinLines(ls[1..]) + rest;
      assert IndexOf(s, '\n') == Some(p) && s[..p] == ls[0] && s[p + 1..] == tail by {
        FirstLineOf(ls, rest);
      }
      assert SplitLines(tail) == (ls[1..], rest) by {
        assert CleanLines(ls[1..]) by {
          forall i | 0 <= i < |ls[1..]| ensures '\n' !in ls[1..][i] {
            assert ls[1..][i] == ls[i + 1];
          }
        }
        SplitJoin(ls[1..], rest);
      }
      assert SplitLines(s) == ([ls[0]] + ls[1..], rest);
      assert [ls[0]] + ls[1..] == ls;
    }
  }

  /** Joining distributes over concatenation of line lists. */
  lemma {:induction false} JoinLinesAppend(a: seq<string>, b: seq<string>)
    ensures JoinLines(a + b) == JoinLines(a) + JoinLines(b)
    decreases |a|
  {
    if a == [] {
      assert a + b == b;
    } else {
      assert (a + b)[0] == a[0];
      assert (a + b)[1..] == a[1..] + b;
      JoinLinesAppend(a[1..], b);
    }
  }

  lemma {:induction false} CleanLinesAppend(a: seq<string>, b: seq<string>)
    requires CleanLines(a) && CleanLines(b)
    ensures CleanLines(a + b)
  {
    forall i | 0 <= i < |a + b| ensures '\n' !in (a + b)[i] {
      if i < |a| { assert (a + b)[i] == a[i]; } else { assert (a + b)[i] == b[i - |a|]; }
    }
  }

  lemma {:induction false} Regroup(s: string, t: string, l1: seq<string>, r1: string, l2: seq<string>, r2: string)
    requires s == JoinLines(l1) + r1 && r1 + t == JoinLines(l2) + r2
    ensures s + t == JoinLines(l1 + l2) + r2
  {
    JoinLinesAppend(l1, l2);
    calc {
      s + t;
      (JoinLines(l1) + r1) + t;
      JoinLines(l1) + (r1 + t);
      JoinLines(l1) + (JoinLines(l2) + r2);
      (JoinLines(l1) + JoinLines(l2)) + r2;
    }
  }

  /**
   * Text that arrives in two pieces splits into the same lines as the whole:
   * the lines of `s`, then the lines of `s`'s remainder continued by `t`.
   */
  lemma {:induction false} SplitAppend(s: string, t: string)
    ensures var (l1, r1) := SplitLines(s);
            var (l2, r2) := SplitLines(r1 + t);
            SplitLines(s + t) == (l1 + l2, r2)
  {
    var (l1, r1) := SplitLines(s);
    var (l2, r2) := SplitLines(r1 + t);
    CleanLinesAppend(l1, l2);
    Regroup(s, t, l1, r1, l2, r2);
    SplitJoin(l1 + l2, r2);
  }

  /** Each line ends at one `\n`: the number of lines is the number of `\n` characters. */
  lemma {:induction false} JoinLinesCount(ls: seq<string>)
    requires CleanLines(ls)
    ensures Count(JoinLines(ls), '\n') == |ls|
    decreases |ls|
  {
    if ls != [] {
      assert CleanLines(ls[1..]) by {
        forall i | 0 <= i < |ls[1..]| ensures '\n' !in ls[1..][i] {
          assert ls[1..][i] == ls[i + 1];
        }
      }
      JoinLinesCount(ls[1..]);
      CountConcat(ls[0] + "\n", JoinLines(ls[1..]), '\n');
      CountConcat(ls[0], "\n", '\n');
      assert Count("\n", '\n') == 1 by {
        assert "\n"[1..] == [];
      }
    }
  }

  /** `SplitLines` yields exactly one line per `\n` of its input. */
  lemma {:induction false} SplitLinesCount(s: string)
    ensures |SplitLines(s).0| == Count(s, '\n')
  {
    var (ls, rest) := SplitLines(s);
    JoinLinesCount(ls);
    CountConcat(JoinLines(ls), rest, '\n');
  }
}
