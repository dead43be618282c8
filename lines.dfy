/**
 * Newline-delimited text, as the monitor test's FileFollower sees the file
 * that `bluechictl monitor` writes: complete lines, each ended by '\n',
 * followed by a possibly torn tail that has no '\n' yet. Positions are
 * character offsets into the text, like the follower's cursor.
 */
module Lines {
  import opened Seqs

  /** The first '\n' at or after `p`, or `|c|` when there is none. */
  function NextNewline(c: string, p: nat): (i: nat)
    requires p <= |c|
    ensures p <= i <= |c|
    ensures i < |c| ==> c[i] == '\n'
    decreases |c| - p
  {
    if p == |c| || c[p] == '\n' then p else NextNewline(c, p + 1)
  }

  /** No newline lies between `p` and the one NextNewline finds. */
  lemma {:induction false} NextNewlineClear(c: string, p: nat, j: nat)
    requires p <= |c| && p <= j < NextNewline(c, p)
    ensures c[j] != '\n'
    decreases j - p
  {
    if p < j {
      NextNewlineClear(c, p + 1, j);
    }
  }

  /** The text after `p` holds a complete line. */
  predicate HasLine(c: string, p: nat)
    requires p <= |c|
  {
    NextNewline(c, p) < |c|
  }

  /** The line that starts at `p`, without its newline. */
  function LineAt(c: string, p: nat): string
    requires p <= |c|
  {
    c[p..NextNewline(c, p)]
  }

  /** The complete lines of `c` after position `p`, in order. */
  function LinesFrom(c: string, p: nat): seq<string>
    requires p <= |c|
    decreases |c| - p
  {
    if HasLine(c, p) then [LineAt(c, p)] + LinesFrom(c, NextNewline(c, p) + 1) else []
  }

  /** Where a reader of complete lines that starts at `p` stops: just past the last newline. */
  function ConsumedEnd(c: string, p: nat): (e: nat)
    requires p <= |c|
    ensures p <= e <= |c| && !HasLine(c, e)
    decreases |c| - p
  {
    if HasLine(c, p) then ConsumedEnd(c, NextNewline(c, p) + 1) else p
  }

  /** `s.split('\n')[0]`: the text before the first newline, or all of `s` when it has none. */
  function FirstLine(s: string): (line: string)
    ensures '\n' !in line
    ensures '\n' in s ==> |line| < |s| && s[..|line| + 1] == line + "\n"
    ensures '\n' !in s ==> line == s
  {
    var i := NextNewline(s, 0);
    assert i < |s| ==> s[..i + 1] == s[..i] + [s[i]];
    assert forall j | 0 <= j < i :: s[..i][j] != '\n' by {
      forall j | 0 <= j < i ensures s[..i][j] != '\n' { NextNewlineClear(s, 0, j); }
    }
    s[..i]
  }

  /** Each line followed by its '\n', concatenated: the text a list of lines was read from. */
  function Join(lines: seq<string>): string
  {
    if lines == [] then [] else lines[0] + "\n" + Join(lines[1..])
  }

  /** No line contains a newline. */
  predicate NewlineFree(lines: seq<string>)
  {
    forall i :: 0 <= i < |lines| ==> '\n' !in lines[i]
  }

  /** `'\n' in c[p:]`, the test `new_lines()` makes, holds exactly when a complete line follows `p`. */
  lemma {:induction false} NewlineInRest(c: string, p: nat)
    requires p <= |c|
    ensures ('\n' in c[p..]) <==> HasLine(c, p)
  {
    var i := NextNewline(c, p);
    if i < |c| {
      assert c[p..][i - p] == '\n';
    } else {
      forall k | 0 <= k < |c[p..]|
        ensures c[p..][k] != '\n'
      {
        assert c[p..][k] == c[p + k];
        NextNewlineClear(c, p, p + k);
      }
    }
  }

  /** Searching a suffix finds the same newline, shifted by the suffix's offset. */
  lemma {:induction false} NextNewlineShift(c: string, p: nat, j: nat)
    requires p + j <= |c|
    ensures NextNewline(c[p..], j) + p == NextNewline(c, p + j)
    decreases |c| - p - j
  {
    if p + j < |c| {
      assert c[p..][j] == c[p + j];
      if c[p + j] != '\n' {
        NextNewlineShift(c, p, j + 1);
      }
    }
  }

  /** Splitting the rest of the file at its first newline, as the generator does, gives LineAt. */
  lemma FirstLineOfRest(c: string, p: nat)
    requires p <= |c|
    ensures FirstLine(c[p..]) == LineAt(c, p)
  {
    NextNewlineShift(c, p, 0);
  }

  lemma {:induction false} JoinAppend(a: seq<string>, b: seq<string>)
    ensures Join(a + b) == Join(a) + Join(b)
  {
    if a == [] {
      assert a + b == b;
    } else {
      assert (a + b)[1..] == a[1..] + b;
      JoinAppend(a[1..], b);
    }
  }

  /**
   * The text a reader consumes from `p` is exactly its lines rejoined with
   * their terminators, and none of those lines contains a newline.
   */
  lemma {:induction false} ConsumedSpan(c: string, p: nat)
    requires p <= |c|
    ensures c[p..ConsumedEnd(c, p)] == Join(LinesFrom(c, p))
    ensures NewlineFree(LinesFrom(c, p))
    decreases |c| - p
  {
    if HasLine(c, p) {
      var i := NextNewline(c, p);
      ConsumedSpan(c, i + 1);
      var line, rest := LineAt(c, p), LinesFrom(c, i + 1);
      var e := ConsumedEnd(c, i + 1);
      assert ConsumedEnd(c, p) == e;
      assert LinesFrom(c, p) == [line] + rest;
      LineSpan(c, p, e);
      JoinCons(line, rest);
      NewlineFreeCons(line, rest);
    }
  }

  /** A line found by NextNewline has no newline, and it and its newline open the span after it. */
  lemma LineSpan(c: string, p: nat, e: nat)
    requires p <= |c| && HasLine(c, p) && NextNewline(c, p) < e <= |c|
    ensures '\n' !in LineAt(c, p)
    ensures c[p..e] == LineAt(c, p) + "\n" + c[NextNewline(c, p) + 1..e]
  {
    var i := NextNewline(c, p);
    var line := LineAt(c, p);
    forall j | 0 <= j < |line|
      ensures line[j] != '\n'
    {
      assert line[j] == c[p + j];
      NextNewlineClear(c, p, p + j);
    }
    assert c[p..e] == c[p..i] + [c[i]] + c[i + 1..e];
  }

  lemma JoinCons(line: string, rest: seq<string>)
    ensures Join([line] + rest) == line + "\n" + Join(rest)
  {
    assert ([line] + rest)[1..] == rest;
  }

  lemma NewlineFreeCons(line: string, rest: seq<string>)
    requires '\n' !in line && NewlineFree(rest)
    ensures NewlineFree([line] + rest)
  {
    forall k | 0 <= k < |[line] + rest|
      ensures '\n' !in ([line] + rest)[k]
    {
      if k > 0 {
        assert ([line] + rest)[k] == rest[k - 1];
      }
    }
  }

  /** Extending a text leaves its earlier newlines where they were. */
  lemma {:induction false} NextNewlineAppend(c: string, t: string, p: nat)
    requires p <= |c|
    ensures NextNewline(c, p) < |c| ==> NextNewline(c + t, p) == NextNewline(c, p)
    ensures NextNewline(c, p) == |c| ==> NextNewline(c + t, p) == NextNewline(c + t, |c|)
    decreases |c| - p
  {
    if p < |c| {
      assert (c + t)[p] == c[p];
      if c[p] != '\n' {
        NextNewlineAppend(c, t, p + 1);
      }
    }
  }

  /** LinesFrom and ConsumedEnd at a position where a complete line starts. */
  lemma Unfold(c: string, p: nat)
    requires p <= |c| && HasLine(c, p)
    ensures LinesFrom(c, p) == [LineAt(c, p)] + LinesFrom(c, NextNewline(c, p) + 1)
    ensures ConsumedEnd(c, p) == ConsumedEnd(c, NextNewline(c, p) + 1)
  {
  }

  /** A complete line of `c` is still the same complete line once text is appended. */
  lemma LineAtAppend(c: string, t: string, p: nat)
    requires p <= |c| && HasLine(c, p)
    ensures HasLine(c + t, p) && NextNewline(c + t, p) == NextNewline(c, p)
    ensures LineAt(c + t, p) == LineAt(c, p)
  {
    NextNewlineAppend(c, t, p);
    var i := NextNewline(c, p);
    assert (c + t)[p..i] == c[p..i];
  }

  /**
   * Appending text never changes the lines that were already complete: the
   * lines of `c + t` after `p` are those of `c`, followed by the lines that
   * start where the reader of `c` stopped. Reading with two polls, one
   * before and one after the append, yields what a single later poll would.
   */
  lemma LinesFromAppend(c: string, t: string, p: nat)
    requires p <= |c|
    ensures LinesFrom(c + t, p) == LinesFrom(c, p) + LinesFrom(c + t, ConsumedEnd(c, p))
    ensures ConsumedEnd(c + t, p) == ConsumedEnd(c + t, ConsumedEnd(c, p))
  {
    LinesAppend(c, t, p);
    ConsumedAppend(c, t, p);
  }

  lemma {:induction false} LinesAppend(c: string, t: string, p: nat)
    requires p <= |c|
    ensures LinesFrom(c + t, p) == LinesFrom(c, p) + LinesFrom(c + t, ConsumedEnd(c, p))
    decreases |c| - p
  {
    if HasLine(c, p) {
      var i := NextNewline(c, p);
      var e := ConsumedEnd(c, i + 1);
      LineAtAppend(c, t, p);
      LinesAppend(c, t, i + 1);
      Unfold(c, p);
      Unfold(c + t, p);
      AppendAssoc([LineAt(c, p)], LinesFrom(c, i + 1), LinesFrom(c + t, e));
    } else {
      assert LinesFrom(c, p) == [] && ConsumedEnd(c, p) == p;
      assert [] + LinesFrom(c + t, p) == LinesFrom(c + t, p);
    }
  }

  lemma {:induction false} ConsumedAppend(c: string, t: string, p: nat)
    requires p <= |c|
    ensures ConsumedEnd(c + t, p) == ConsumedEnd(c + t, ConsumedEnd(c, p))
    decreases |c| - p
  {
    if HasLine(c, p) {
      var i := NextNewline(c, p);
      LineAtAppend(c, t, p);
      ConsumedAppend(c, t, i + 1);
      assert ConsumedEnd(c, p) == ConsumedEnd(c, i + 1);
      assert ConsumedEnd(c + t, p) == ConsumedEnd(c + t, i + 1);
    }
  }

  /**
   * Round trip: newline-free lines, rejoined with their terminators and
   * followed by a tail without a newline, read back as exactly those lines,
   * and the reader stops at the start of the tail.
   */
  lemma {:induction false} LinesOfJoin(lines: seq<string>, tail: string)
    requires NewlineFree(lines) && '\n' !in tail
    ensures LinesFrom(Join(lines) + tail, 0) == lines
    ensures ConsumedEnd(Join(lines) + tail, 0) == |Join(lines)|
    decreases |lines|
  {
    var u := Join(lines) + tail;
    if lines == [] {
      assert u == tail;
      NewlineInRest(u, 0);
      assert u[0..] == u;
    } else {
      var n := |lines| - 1;
      var front, last := lines[..n], lines[n];
      assert NewlineFree(front) by {
        forall k | 0 <= k < |front| ensures '\n' !in front[k] {
          assert front[k] == lines[k];
        }
      }
      var j := Join(front);
      LinesOfJoin(front, []);
      assert j + [] == j;
      assert lines == front + [last];
      JoinAppend(front, [last]);
      assert Join([last]) == last + "\n";
      var rest := (last + "\n") + tail;
      assert u == j + rest;
      LinesFromAppend(j, rest, 0);
      LastLine(j, last, tail);
    }
  }

  /** After `j`, the text `line + "\n" + tail` holds exactly one complete line. */
  lemma LastLine(j: string, line: string, tail: string)
    requires '\n' !in line && '\n' !in tail
    ensures var u := j + ((line + "\n") + tail);
      && LinesFrom(u, |j|) == [line]
      && ConsumedEnd(u, |j|) == |j| + |line| + 1
  {
    LastLineLayout(j, line, tail);
    OnlyLine(j + ((line + "\n") + tail), |j|, line);
  }

  /** A line at `p` followed by nothing but a newline-free remainder is the only line from `p`. */
  lemma OnlyLine(u: string, p: nat, line: string)
    requires '\n' !in line
    requires var q := p + |line|;
      && q < |u| && u[p..q] == line && u[q] == '\n'
      && forall m :: q + 1 <= m < |u| ==> u[m] != '\n'
    ensures LinesFrom(u, p) == [line] && ConsumedEnd(u, p) == p + |line| + 1
  {
    NewlineAfter(u, p, line);
    NoNewlineFrom(u, p + |line| + 1);
    Unfold(u, p);
  }

  /** Where the pieces of `j + ((line + "\n") + tail)` sit. */
  lemma LastLineLayout(j: string, line: string, tail: string)
    requires '\n' !in line && '\n' !in tail
    ensures var u := j + ((line + "\n") + tail);
      var p, q := |j|, |j| + |line|;
      && q < |u| && u[p..q] == line && u[q] == '\n'
      && forall m :: q + 1 <= m < |u| ==> u[m] != '\n'
  {
    var r := (line + "\n") + tail;
    var u := j + r;
    var p, q := |j|, |j| + |line|;
    assert u[p..q] == line by {
      assert u[p..q] == r[..|line|];
    }
    assert u[q] == '\n' by {
      assert u[q] == r[|line|];
    }
    forall m | q + 1 <= m < |u|
      ensures u[m] != '\n'
    {
      TailChar(j, line, tail, m);
    }
  }

  /** A character past the line's newline comes from `tail`. */
  lemma TailChar(j: string, line: string, tail: string, m: nat)
    requires |j| + |line| + 1 <= m < |j| + |line| + 1 + |tail|
    ensures (j + ((line + "\n") + tail))[m] == tail[m - |j| - |line| - 1]
  {
    var s := line + "\n";
    var r := s + tail;
    assert (j + r)[m] == r[m - |j|];
    assert r[m - |j|] == tail[m - |j| - |s|];
  }

  /** Without a newline from `p` on, the search runs to the end. */
  lemma {:induction false} NoNewlineFrom(c: string, p: nat)
    requires p <= |c|
    requires forall m :: p <= m < |c| ==> c[m] != '\n'
    ensures NextNewline(c, p) == |c|
    decreases |c| - p
  {
    if p < |c| {
      NoNewlineFrom(c, p + 1);
    }
  }

  /** A newline-free `line` at `p` followed by a newline is the line at `p`. */
  lemma NewlineAfter(c: string, p: nat, line: string)
    requires p + |line| < |c| && c[p..p + |line|] == line && c[p + |line|] == '\n' && '\n' !in line
    ensures NextNewline(c, p) == p + |line| && LineAt(c, p) == line
  {
    var i, k := NextNewline(c, p), p + |line|;
    forall m | p <= m < k
      ensures c[m] != '\n'
    {
      assert c[m] == line[m - p];
    }
    if i > k {
      NextNewlineClear(c, p, k);
    }
  }

  /**
   * A reader that started at `start` stands at `cursor` having yielded
   * `yielded`: those lines and the complete lines still ahead make up the
   * complete lines after `start`, and reading on stops where reading from
   * `start` would.
   */
  predicate ReaderAt(c: string, start: nat, cursor: nat, yielded: seq<string>)
  {
    && start <= cursor <= |c|
    && yielded + LinesFrom(c, cursor) == LinesFrom(c, start)
    && ConsumedEnd(c, cursor) == ConsumedEnd(c, start)
  }

  /** A reader that has not read anything yet. */
  lemma ReaderStart(c: string, p: nat)
    requires p <= |c|
    ensures ReaderAt(c, p, p, [])
  {
    assert [] + LinesFrom(c, p) == LinesFrom(c, p);
  }

  /**
   * One step of a reader: yielding the line at the cursor and moving past
   * its newline keeps the reader consistent.
   */
  lemma ReadStep(c: string, start: nat, p: nat, yielded: seq<string>)
    requires ReaderAt(c, start, p, yielded) && HasLine(c, p)
    ensures ReaderAt(c, start, NextNewline(c, p) + 1, yielded + [LineAt(c, p)])
  {
    var q := NextNewline(c, p) + 1;
    Unfold(c, p);
    AppendAssoc(yielded, [LineAt(c, p)], LinesFrom(c, q));
  }

  /** A reader with no complete line ahead has yielded all the complete lines, and stands at the end of them. */
  lemma ReaderDone(c: string, start: nat, p: nat, yielded: seq<string>)
    requires ReaderAt(c, start, p, yielded) && !HasLine(c, p)
    ensures yielded == LinesFrom(c, start) && p == ConsumedEnd(c, start)
  {
    assert yielded + [] == yielded;
  }
}
