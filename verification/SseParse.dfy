/**
 * What the observer hands over, said without a state machine: split the stream at CR, LF or CRLF,
 * group lines by blank lines, join each group's data payloads with LF, and drop a group that has
 * an oversize line, too much data, an empty payload or the terminator mark.
 */
module SseParse {
  import opened Bytes
  import opened SseAutomaton

  function FirstTerminator(s: seq<byte>): (i: nat)
    ensures i <= |s| && NoTerminator(s[..i]) && (i < |s| ==> IsTerminator(s[i]))
  {
    if s == [] || IsTerminator(s[0]) then 0
    else
      var i := 1 + FirstTerminator(s[1..]);
      assert s[..i] == [s[0]] + s[1..][..i - 1];
      i
  }

  lemma {:induction false} FirstTerminatorIs(s: seq<byte>, i: nat)
    requires i < |s| && NoTerminator(s[..i]) && IsTerminator(s[i])
    ensures FirstTerminator(s) == i
    decreases i
  {
    if i > 0 {
      assert s[..i][0] == s[0];
      assert s[1..][..i - 1] == s[..i][1..];
      FirstTerminatorIs(s[1..], i - 1);
    }
  }

  /** Where the next line starts, after the terminator at i: CRLF counts as one. */
  function AfterTerminator(s: seq<byte>, i: nat): (j: nat)
    requires i < |s|
    ensures i < j <= |s|
  {
    if s[i] == CR && i + 1 < |s| && s[i + 1] == LF then i + 2 else i + 1
  }

  /** The terminated lines of a stream, and what is left unterminated at its end. */
  function SplitLines(s: seq<byte>): (r: (seq<seq<byte>>, seq<byte>))
    decreases |s|
  {
    var i := FirstTerminator(s);
    if i == |s| then ([], s)
    else
      var (lines, rest) := SplitLines(s[AfterTerminator(s, i)..]);
      ([s[..i]] + lines, rest)
  }

  /** Every line of the stream; an unterminated nonempty end counts as one. */
  function AllLines(s: seq<byte>): seq<seq<byte>> {
    var (lines, rest) := SplitLines(s);
    if rest == [] then lines else lines + [rest]
  }

  function FirstBlank(lines: seq<seq<byte>>): (i: nat)
    ensures i <= |lines| && NoBlank(lines[..i]) && (i < |lines| ==> lines[i] == [])
  {
    if lines == [] || lines[0] == [] then 0
    else
      var i := 1 + FirstBlank(lines[1..]);
      assert lines[..i] == [lines[0]] + lines[1..][..i - 1];
      i
  }

  lemma {:induction false} FirstBlankIs(lines: seq<seq<byte>>, i: nat)
    requires i < |lines| && NoBlank(lines[..i]) && lines[i] == []
    ensures FirstBlank(lines) == i
    decreases i
  {
    if i > 0 {
      assert lines[..i][0] == lines[0];
      assert forall l :: l in lines[1..][..i - 1] ==> l in lines[..i];
      FirstBlankIs(lines[1..], i - 1);
    }
  }

  predicate NoBlank(lines: seq<seq<byte>>) {
    [] !in lines
  }

  /** Blank lines close groups; the last group is closed by the end of the stream. */
  function Groups(lines: seq<seq<byte>>): seq<seq<seq<byte>>>
    decreases |lines|
  {
    var i := FirstBlank(lines);
    if i == |lines| then [lines] else [lines[..i]] + Groups(lines[i + 1..])
  }

  function Payloads(group: seq<seq<byte>>): seq<seq<byte>> {
    if group == [] then []
    else
      var n := |group| - 1;
      Payloads(group[..n]) + if IsDataLine(group[n]) then [PayloadOf(group[n])] else []
  }

  function Join(pieces: seq<seq<byte>>): seq<byte> {
    if |pieces| == 0 then []
    else if |pieces| == 1 then pieces[0]
    else Join(pieces[..|pieces| - 1]) + [LF] + pieces[|pieces| - 1]
  }

  predicate HasOversizeLine(group: seq<seq<byte>>, max: nat) {
    exists i :: 0 <= i < |group| && |group[i]| > max
  }

  /** At most one event per group. */
  function GroupEvents(group: seq<seq<byte>>, max: nat): seq<seq<byte>> {
    var payload := Join(Payloads(group));
    if HasOversizeLine(group, max) || |payload| + 1 > max || payload == [] || payload == DONE_MARK then []
    else [payload]
  }

  function EventsOf(groups: seq<seq<seq<byte>>>, max: nat): seq<seq<byte>> {
    if groups == [] then [] else GroupEvents(groups[0], max) + EventsOf(groups[1..], max)
  }

  function Parse(stream: seq<byte>, max: nat): seq<seq<byte>> {
    EventsOf(Groups(AllLines(stream)), max)
  }

  // ---- From bytes to lines ----

  /** A whole line, as the automaton treats it between two terminators. */
  function TakeLine(s: Obs, line: seq<byte>, max: nat): Obs {
    if |line| > max then s.(skipEvent := true) else ConsumeLine(s, line, max)
  }

  function TakeLines(s: Obs, lines: seq<seq<byte>>, max: nat): Obs {
    if lines == [] then s
    else TakeLine(TakeLines(s, lines[..|lines| - 1], max), lines[|lines| - 1], max)
  }

  predicate BetweenLines(s: Obs) {
    s.line == [] && !s.skipLine
  }

  lemma {:induction false} TakeLinesConcat(s: Obs, a: seq<seq<byte>>, b: seq<seq<byte>>, max: nat)
    ensures TakeLines(s, a + b, max) == TakeLines(TakeLines(s, a, max), b, max)
    decreases |b|
  {
    if b == [] {
      assert a + b == a;
    } else {
      assert (a + b)[..|a + b| - 1] == a + b[..|b| - 1];
      TakeLinesConcat(s, a, b[..|b| - 1], max);
    }
  }

  lemma {:induction false} TakeLinesStaysBetween(s: Obs, lines: seq<seq<byte>>, max: nat)
    requires BetweenLines(s)
    ensures BetweenLines(TakeLines(s, lines, max))
    ensures TakeLines(s, lines, max).skipLF == s.skipLF
    decreases |lines|
  {
    if lines != [] {
      TakeLinesStaysBetween(s, lines[..|lines| - 1], max);
    }
  }

  lemma EndOfLine(s: Obs, line: seq<byte>, terminator: byte, max: nat)
    requires BetweenLines(s)
    ensures EndLine(Append(s, line, max), terminator, max) == TakeLine(s, line, max).(skipLF := terminator == CR)
  {
    assert s.line + line == line;
  }

  /** Feeding bytes is taking the lines they split into; the unterminated end stays in the buffer. */
  lemma {:induction false} FeedIsTakeLines(s: Obs, stream: seq<byte>, max: nat)
    requires BetweenLines(s) && !s.skipLF
    ensures var (lines, rest) := SplitLines(stream);
            Feed(s, stream, max).(skipLF := false) == Append(TakeLines(s, lines, max), rest, max)
    decreases |stream|
  {
    var i := FirstTerminator(stream);
    var (lines, rest) := SplitLines(stream);
    if i == |stream| {
      assert stream[..i] == stream;
      FeedChunk(s, stream, max);
    } else {
      var j := AfterTerminator(stream, i);
      var line := stream[..i];
      var t := TakeLine(s, line, max);
      FeedLine(s, stream, i, max);
      EndOfLine(s, line, stream[i], max);
      FeedFromLineStart(t, stream, i, max);
      FeedIsTakeLines(t, stream[j..], max);
      TakeLinesConcat(s, [line], lines[1..], max);
      assert TakeLines(s, [line], max) == t by {
        var one := [line];
        assert one[..0] == [];
        assert TakeLines(s, [], max) == s;
      }
    }
  }

  lemma {:induction false} FeedFromLineStart(t: Obs, stream: seq<byte>, i: nat, max: nat)
    requires i < |stream| && IsTerminator(stream[i]) && !t.skipLF
    ensures Feed(t.(skipLF := stream[i] == CR), stream[i + 1..], max).(skipLF := false)
         == Feed(t, stream[AfterTerminator(stream, i)..], max).(skipLF := false)
  {
    var rest := stream[i + 1..];
    if stream[i] == CR && rest != [] {
      FeedAfterCR(t.(skipLF := true), rest, max);
      assert t.(skipLF := true).(skipLF := false) == t;
    } else {
      assert t.(skipLF := false) == t;
    }
  }

  // ---- From lines to groups ----

  /** The accumulated data of a group: each payload with its LF. */
  function Terminated(pieces: seq<seq<byte>>): seq<byte> {
    if pieces == [] then [] else Terminated(pieces[..|pieces| - 1]) + pieces[|pieces| - 1] + [LF]
  }

  lemma {:induction false} TerminatedIsJoin(pieces: seq<seq<byte>>)
    ensures pieces != [] ==> Terminated(pieces) == Join(pieces) + [LF]
    ensures TrimLF(Terminated(pieces)) == Join(pieces)
    decreases |pieces|
  {
    if |pieces| == 1 {
      assert pieces[..0] == [];
      assert Terminated(pieces) == [] + pieces[0] + [LF];
    } else if |pieces| > 1 {
      var n := |pieces| - 1;
      TerminatedIsJoin(pieces[..n]);
      assert Terminated(pieces) == Join(pieces[..n]) + [LF] + pieces[n] + [LF];
    }
  }

  /** Inside a group the buffer holds the payloads so far, unless something was too large. */
  lemma {:induction false} TakeGroup(s: Obs, group: seq<seq<byte>>, max: nat)
    requires s.data == [] && !s.skipEvent && NoBlank(group)
    ensures var t := TakeLines(s, group, max);
            && t == s.(data := t.data, skipEvent := t.skipEvent)
            && (t.skipEvent <==> HasOversizeLine(group, max) || |Terminated(Payloads(group))| > max)
            && (!t.skipEvent ==> t.data == Terminated(Payloads(group)))
    decreases |group|
  {
    if group != [] {
      var n := |group| - 1;
      var front, last := group[..n], group[n];
      assert last in group;
      assert forall l :: l in front ==> l in group;
      TakeGroup(s, front, max);
      OversizeLast(group, max);
      if IsDataLine(last) {
        var pieces := Payloads(front) + [PayloadOf(last)];
        assert pieces[..|pieces| - 1] == Payloads(front);
        assert Terminated(pieces) == Terminated(Payloads(front)) + PayloadOf(last) + [LF];
      } else {
        assert Payloads(group) == Payloads(front);
      }
    } else {
      assert Payloads(group) == [];
    }
  }

  lemma OversizeLast(group: seq<seq<byte>>, max: nat)
    requires group != []
    ensures HasOversizeLine(group, max)
       <==> HasOversizeLine(group[..|group| - 1], max) || |group[|group| - 1]| > max
  {
    if HasOversizeLine(group[..|group| - 1], max) {
      var i :| 0 <= i < |group| - 1 && |group[..|group| - 1][i]| > max;
      assert |group[i]| > max;
    }
    if HasOversizeLine(group, max) && |group[|group| - 1]| <= max {
      var i :| 0 <= i < |group| && |group[i]| > max;
      assert group[..|group| - 1][i] == group[i];
    }
  }

  lemma {:induction false} FlushGroup(s: Obs, group: seq<seq<byte>>, max: nat)
    requires s.data == [] && !s.skipEvent && NoBlank(group)
    ensures Flush(TakeLines(s, group, max), max) == AddEvents(s, GroupEvents(group, max))
  {
    TakeGroup(s, group, max);
    TerminatedIsJoin(Payloads(group));
  }

  function AddEvents(s: Obs, events: seq<seq<byte>>): Obs {
    s.(events := s.events + events)
  }

  lemma AddEventsTwice(s: Obs, a: seq<seq<byte>>, b: seq<seq<byte>>)
    ensures AddEvents(AddEvents(s, a), b) == AddEvents(s, a + b)
  {
    assert s.events + a + b == s.events + (a + b);
  }

  /** Taking all lines and flushing at the end hands over one event per surviving group. */
  lemma {:induction false} TakeAllGroups(s: Obs, lines: seq<seq<byte>>, max: nat)
    requires s.data == [] && !s.skipEvent
    ensures Flush(TakeLines(s, lines, max), max) == AddEvents(s, EventsOf(Groups(lines), max))
    decreases |lines|
  {
    var i := FirstBlank(lines);
    var group := lines[..i];
    if i == |lines| {
      assert group == lines;
      FlushGroup(s, lines, max);
      EventsOfLast(lines, max);
    } else {
      var more := lines[i + 1..];
      assert lines == group + [[]] + more;
      TakeClosedGroup(s, group, more, max);
      TakeAllGroups(AddEvents(s, GroupEvents(group, max)), more, max);
      AddEventsTwice(s, GroupEvents(group, max), EventsOf(Groups(more), max));
      EventsOfNext(group, Groups(more), max);
    }
  }

  lemma {:induction false} EventsOfNext(group: seq<seq<byte>>, groups: seq<seq<seq<byte>>>, max: nat)
    ensures EventsOf([group] + groups, max) == GroupEvents(group, max) + EventsOf(groups, max)
  {
    assert ([group] + groups)[1..] == groups;
  }

  lemma {:induction false} EventsOfLast(group: seq<seq<byte>>, max: nat)
    ensures EventsOf([group], max) == GroupEvents(group, max)
  {
    var groups := [group];
    assert groups[1..] == [];
  }

  lemma {:induction false} TakeClosedGroup(s: Obs, group: seq<seq<byte>>, more: seq<seq<byte>>, max: nat)
    requires s.data == [] && !s.skipEvent && NoBlank(group)
    ensures TakeLines(s, group + [[]] + more, max)
         == TakeLines(AddEvents(s, GroupEvents(group, max)), more, max)
  {
    TakeLinesConcat(s, group + [[]], more, max);
    TakeLinesConcat(s, group, [[]], max);
    TakeBlank(TakeLines(s, group, max), max);
    FlushGroup(s, group, max);
  }

  lemma {:induction false} TakeBlank(s: Obs, max: nat)
    ensures TakeLines(s, [[]], max) == Flush(s, max)
  {
    var lines: seq<seq<byte>> := [[]];
    assert lines[..|lines| - 1] == [] && lines[|lines| - 1] == [];
    assert TakeLines(s, [], max) == s;
  }

  // ---- The whole observer ----

  lemma FinishIsTakeLast(s: Obs, rest: seq<byte>, max: nat)
    requires BetweenLines(s)
    ensures Finish(Append(s, rest, max), max).events
         == Flush(if rest == [] then s else TakeLine(s, rest, max), max).events
  {
    assert s.line + rest == rest;
  }

  lemma FinishIgnoresSkipLF(s: Obs, max: nat)
    ensures Finish(s, max).events == Finish(s.(skipLF := false), max).events
  {
  }

  /** The observer meets its declarative meaning, for every stream and every way of cutting it. */
  lemma {:induction false} ObserverParses(writes: seq<seq<byte>>, max: nat)
    ensures Finish(FeedAll(FRESH, writes, max), max).events == Parse(Flatten(writes), max)
  {
    var stream := Flatten(writes);
    SplittingInvariance(FRESH, writes, max);
    FeedIsTakeLines(FRESH, stream, max);
    var (lines, rest) := SplitLines(stream);
    var t := TakeLines(FRESH, lines, max);
    FinishIgnoresSkipLF(Feed(FRESH, stream, max), max);
    TakeLinesStaysBetween(FRESH, lines, max);
    FinishIsTakeLast(t, rest, max);
    if rest != [] {
      assert (lines + [rest])[..|lines|] == lines;
    }
    TakeAllGroups(FRESH, AllLines(stream), max);
    assert AddEvents(FRESH, Parse(stream, max)).events == Parse(stream, max);
  }
}
