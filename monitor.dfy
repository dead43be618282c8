/**
 * The event matcher of the `bluechictl monitor` test: a two-stage state
 * machine over the lines `bluechictl monitor` writes. A "created" line
 * arms it, and a "removed" line after that completes it.
 */
module Monitor {
  import opened Lines
  import opened Follower

  const CreatedMarker := "Unit created (reason: real)"
  const RemovedMarker := "Unit removed (reason: real)"

  /** Python's `sub in s` on strings: `sub` starts at some position of `s`. */
  predicate Contains(s: string, sub: string)
    decreases |s|
  {
    sub <= s || (|s| > 0 && Contains(s[1..], sub))
  }

  /** `sub in s` holds exactly when `sub` is a prefix of some suffix of `s`. */
  lemma {:induction false} ContainsAt(s: string, sub: string)
    ensures Contains(s, sub) <==> exists k :: 0 <= k <= |s| && sub <= s[k..]
    decreases |s|
  {
    if |s| == 0 {
      assert s[0..] == s;
    } else {
      ContainsAt(s[1..], sub);
      if Contains(s, sub) {
        if sub <= s {
          assert s[0..] == s;
        } else {
          var k :| 0 <= k <= |s[1..]| && sub <= s[1..][k..];
          assert s[1..][k..] == s[k + 1..];
        }
      }
      if exists k :: 0 <= k <= |s| && sub <= s[k..] {
        var k :| 0 <= k <= |s| && sub <= s[k..];
        if k == 0 {
          assert s[0..] == s;
        } else {
          assert s[1..][k - 1..] == s[k..];
        }
      }
    }
  }

  /** The test object's `created` and `removed` fields. */
  datatype Flags = Flags(created: bool, removed: bool)

  /** The flags `setUp` starts from. */
  const Init := Flags(false, false)

  /** The `elif` branch of the loop: this line sets `removed` and ends the wait. */
  predicate Fires(f: Flags, line: string)
  {
    f.created && !f.removed && Contains(line, RemovedMarker)
  }

  /** One pass of the body of the `for` loop over a line. */
  function Step(f: Flags, line: string): (g: Flags)
    ensures f.created ==> g.created
    ensures f.removed ==> g.removed
    ensures (f.removed ==> f.created) ==> (g.removed ==> g.created)
    ensures g.removed != f.removed <==> Fires(f, line)
  {
    if !f.created && Contains(line, CreatedMarker) then
      f.(created := true)
    else if Fires(f, line) then
      f.(removed := true)
    else
      f
  }

  /** The flags after the loop body has run over `lines` in order, starting from `f`. */
  function Run(f: Flags, lines: seq<string>): Flags
  {
    if |lines| == 0 then f else Step(Run(f, lines[..|lines| - 1]), lines[|lines| - 1])
  }

  /** Everything the monitor process has written, when it writes `chunks` in turn. */
  function Concat(chunks: seq<string>): string
  {
    if |chunks| == 0 then [] else Concat(chunks[..|chunks| - 1]) + chunks[|chunks| - 1]
  }

  /** Running over one more line is one more step. */
  lemma RunSnoc(f: Flags, lines: seq<string>, line: string)
    ensures Run(f, lines + [line]) == Step(Run(f, lines), line)
  {
    assert (lines + [line])[..|lines|] == lines;
  }

  /** Running over two batches of lines is running over the first, then over the second. */
  lemma {:induction false} RunAppend(f: Flags, a: seq<string>, b: seq<string>)
    ensures Run(f, a + b) == Run(Run(f, a), b)
    decreases |b|
  {
    if |b| == 0 {
      assert a + b == a;
    } else {
      var b' := b[..|b| - 1];
      assert a + b == (a + b') + [b[|b| - 1]];
      RunSnoc(f, a + b', b[|b| - 1]);
      RunAppend(f, a, b');
      RunSnoc(Run(f, a), b', b[|b| - 1]);
      assert b' + [b[|b| - 1]] == b;
    }
  }

  /**
   * The flags only move forward, and `removed` is never set without
   * `created`.
   */
  lemma {:induction false} RunMonotone(f: Flags, lines: seq<string>)
    ensures f.created ==> Run(f, lines).created
    ensures f.removed ==> Run(f, lines).removed
    ensures (f.removed ==> f.created) ==> (Run(f, lines).removed ==> Run(f, lines).created)
    decreases |lines|
  {
    if |lines| > 0 {
      RunMonotone(f, lines[..|lines| - 1]);
    }
  }

  /** Once both flags are set, no line changes anything. */
  lemma {:induction false} RunComplete(lines: seq<string>)
    ensures Run(Flags(true, true), lines) == Flags(true, true)
    decreases |lines|
  {
    if |lines| > 0 {
      RunComplete(lines[..|lines| - 1]);
    }
  }

  /** From the initial flags, `created` ends up set exactly when some line holds the created marker. */
  lemma {:induction false} RunCreated(lines: seq<string>)
    ensures Run(Init, lines).created <==> exists i :: 0 <= i < |lines| && Contains(lines[i], CreatedMarker)
    decreases |lines|
  {
    if |lines| > 0 {
      var front := lines[..|lines| - 1];
      RunCreated(front);
      if exists i :: 0 <= i < |front| && Contains(front[i], CreatedMarker) {
        var i :| 0 <= i < |front| && Contains(front[i], CreatedMarker);
        assert lines[i] == front[i];
      }
      if exists i :: 0 <= i < |lines| && Contains(lines[i], CreatedMarker) {
        var i :| 0 <= i < |lines| && Contains(lines[i], CreatedMarker);
        if i < |front| {
          assert front[i] == lines[i];
        }
      }
    }
  }

  /** A "removed" line that comes after a "created" line, in that order. */
  predicate CreatedThenRemoved(lines: seq<string>)
  {
    exists i, j :: 0 <= i < j < |lines| && Contains(lines[i], CreatedMarker) && Contains(lines[j], RemovedMarker)
  }

  /**
   * From the initial flags, `removed` ends up set exactly when a line with
   * the removed marker comes after a line with the created marker; a
   * "removed" line seen before any "created" line is ignored.
   */
  lemma {:induction false} RunRemoved(lines: seq<string>)
    ensures Run(Init, lines).removed <==> CreatedThenRemoved(lines)
    decreases |lines|
  {
    if |lines| > 0 {
      var n := |lines| - 1;
      var front := lines[..n];
      RunRemoved(front);
      RunCreated(front);
      if CreatedThenRemoved(front) {
        var i, j :| 0 <= i < j < |front| && Contains(front[i], CreatedMarker) && Contains(front[j], RemovedMarker);
        assert lines[i] == front[i] && lines[j] == front[j];
      }
      if CreatedThenRemoved(lines) {
        var i, j :| 0 <= i < j < |lines| && Contains(lines[i], CreatedMarker) && Contains(lines[j], RemovedMarker);
        assert front[i] == lines[i];
        if j < n {
          assert front[j] == lines[j];
        } else if !Run(Init, front).removed {
          assert Fires(Run(Init, front), lines[n]);
        }
      }
      if Run(Init, lines).removed && !Run(Init, front).removed {
        var i :| 0 <= i < |front| && Contains(front[i], CreatedMarker);
        assert lines[i] == front[i];
        assert Contains(lines[n], RemovedMarker);
      }
    }
  }

  /** The test passes on a run of lines exactly when a "removed" line comes after a "created" line. */
  lemma Complete(lines: seq<string>)
    ensures Run(Init, lines) == Flags(true, true) <==> CreatedThenRemoved(lines)
  {
    RunRemoved(lines);
    RunMonotone(Init, lines);
  }

  /** The chunks written so far, then the rest. */
  lemma {:induction false} ConcatSplit(chunks: seq<string>, k: nat)
    requires k <= |chunks|
    ensures Concat(chunks) == Concat(chunks[..k]) + Concat(chunks[k..])
    decreases |chunks|
  {
    if k < |chunks| {
      var n := |chunks| - 1;
      assert chunks[..n][..k] == chunks[..k];
      ConcatSplit(chunks[..n], k);
      assert chunks[k..][..|chunks[k..]| - 1] == chunks[..n][k..];
      assert Concat(chunks[k..]) == Concat(chunks[..n][k..]) + chunks[n];
    } else {
      assert chunks[..k] == chunks;
    }
  }

  /** Feeding one more chunk extends what has been written by it. */
  lemma ConcatSnoc(chunks: seq<string>, k: nat)
    requires k < |chunks|
    ensures Concat(chunks[..k + 1]) == Concat(chunks[..k]) + chunks[k]
  {
    assert chunks[..k + 1][..k] == chunks[..k];
  }

  /**
   * A matcher that has run over the lines a reader yielded, and stopped
   * either because the lines ran out or because both events were seen,
   * ends as if it had run over all the complete lines.
   */
  lemma Drained(c: string, start: nat, cursor: nat, seen: seq<string>, f0: Flags, f: Flags)
    requires ReaderAt(c, start, cursor, seen)
    requires f == Run(f0, seen)
    requires f == Flags(true, true) || !HasLine(c, cursor)
    ensures f == Run(f0, LinesFrom(c, start))
    ensures !HasLine(c, cursor) ==> cursor == ConsumedEnd(c, start)
  {
    var rest := LinesFrom(c, cursor);
    RunAppend(f0, seen, rest);
    if !HasLine(c, cursor) {
      ReaderDone(c, start, cursor, seen);
    } else {
      RunComplete(rest);
    }
  }

  class MonitorTest {
    var created: bool
    var removed: bool

    /** `setUp`: neither event has been seen. */
    constructor ()
      ensures !created && !removed
    {
      created := false;
      removed := false;
    }

    /**
     * The body of the `for` loop of `process_events` on one line: set
     * `created` on the first "created" line, then `removed` on a "removed"
     * line, and answer whether the wait is over.
     */
    method EvaluateLine(line: string) returns (eventsReceived: bool)
      modifies this
      ensures Flags(created, removed) == Step(old(Flags(created, removed)), line)
      ensures eventsReceived <==> Fires(old(Flags(created, removed)), line)
    {
      eventsReceived := false;
      if !created && Contains(line, CreatedMarker) {
        created := true;
      } else if created && !removed && Contains(line, RemovedMarker) {
        removed := true;
        eventsReceived := true;
      }
    }

    /**
     * The `for line in bluechictl_out` loop of `process_events`: run the
     * matcher over the complete lines after the follower's cursor, and
     * break out as soon as the "removed" event arrives. The flags end up as
     * if the matcher had run over all those lines, since lines after the
     * "removed" event change nothing. Without a break the cursor ends past
     * the last complete line; after a break it stays at the start of the
     * "removed" line.
     */
    method EvaluateLines(follower: FileFollower) returns (eventsReceived: bool)
      requires follower.Valid()
      modifies this, follower, follower.fileDesc
      ensures follower.Valid() && follower.fileDesc == old(follower.fileDesc)
      ensures follower.Content() == old(follower.Content())
      ensures Flags(created, removed) == Run(old(Flags(created, removed)), LinesFrom(follower.Content(), old(follower.pos)))
      ensures eventsReceived <==> !old(removed) && removed
      ensures eventsReceived ==> created
      ensures !eventsReceived ==> follower.pos == ConsumedEnd(follower.Content(), old(follower.pos))
    {
      ghost var c := follower.Content();
      ghost var start := follower.pos;
      ghost var fStart := Flags(created, removed);
      eventsReceived := false;
      var gen := new LineGenerator(follower);
      ghost var seen: seq<string> := [];
      var line := gen.Next();
      while line.Some?
        invariant gen.Valid() && gen.follower == follower && gen.start == start && gen.text == c
        invariant follower.fileDesc == old(follower.fileDesc)
        invariant fresh(gen)
        invariant line.Some? ==> gen.yielded == seen + [line.value] && !gen.done
        invariant line.None? ==> gen.yielded == seen && gen.done
        invariant Flags(created, removed) == Run(fStart, seen)
        invariant removed == fStart.removed
        decreases gen.Remaining()
      {
        RunSnoc(fStart, seen, line.value);
        seen := seen + [line.value];
        eventsReceived := EvaluateLine(line.value);
        if eventsReceived {
          break;
        }
        line := gen.Next();
      }
      assert follower.Content() == c && follower.pos <= gen.Cursor();
      Drained(c, start, gen.Cursor(), seen, fStart, Flags(created, removed));
    }

    /**
     * `process_events`: follow the monitor's output and run the matcher over
     * every complete line until the "removed" event arrives or the monitor
     * exits. `output[k]` is the text that is new at the k-th pass of the
     * `for` loop; `output` is thus the output the follower reads before the
     * monitor exits, and text written after the last pass is not part of it.
     * The outcome is the matcher run over all complete lines of that text,
     * since lines after the "removed" event change nothing.
     */
    method ProcessEvents(output: seq<string>)
      modifies this
      ensures Flags(created, removed) == Run(old(Flags(created, removed)), LinesFrom(Concat(output), 0))
    {
      ghost var f0 := Flags(created, removed);
      var file := new TextFile();
      var follower := new FileFollower("bluechictl-out");
      follower.Enter(file);
      var eventsReceived := false;
      var k := 0;
      while !eventsReceived && k < |output|
        invariant k <= |output|
        invariant follower.fileDesc != null && follower.fileDesc.file == file && follower.Valid()
        invariant fresh(follower) && fresh(follower.fileDesc) && fresh(file)
        invariant file.content == Concat(output[..k])
        invariant Flags(created, removed) == Run(f0, LinesFrom(file.content, 0))
        invariant !eventsReceived ==> follower.pos == ConsumedEnd(file.content, 0)
        invariant eventsReceived ==> created && removed
      {
        ghost var before := file.content;
        ghost var fStart := Flags(created, removed);
        file.Append(output[k]);
        ConcatSnoc(output, k);
        k := k + 1;
        LinesFromAppend(before, output[k - 1], 0);
        eventsReceived := EvaluateLines(follower);
        RunAppend(f0, LinesFrom(before, 0), LinesFrom(file.content, ConsumedEnd(before, 0)));
      }
      follower.Exit();
      ConcatSplit(output, k);
      LinesFromAppend(file.content, Concat(output[k..]), 0);
      ghost var later := LinesFrom(Concat(output), ConsumedEnd(file.content, 0));
      RunAppend(f0, LinesFrom(file.content, 0), later);
      if k < |output| {
        RunComplete(later);
      } else {
        assert output[..k] == output && output[k..] == [] && file.content + [] == file.content;
        assert !HasLine(file.content, ConsumedEnd(file.content, 0));
        assert later == [];
      }
    }
  }

  /**
   * `test_monitor_specific_node_and_unit`: set up, process the monitor's
   * output, and pass when both events were seen. It passes exactly when a
   * complete "removed" line follows a complete "created" line in the
   * output the follower reads before the monitor exits.
   */
  method TestMonitorSpecificNodeAndUnit(output: seq<string>) returns (passed: bool)
    ensures passed <==> CreatedThenRemoved(LinesFrom(Concat(output), 0))
  {
    var test := new MonitorTest();
    test.ProcessEvents(output);
    passed := test.created && test.removed;
    Complete(LinesFrom(Concat(output), 0));
  }
}
