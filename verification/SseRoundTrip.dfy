/** Encoding a payload as server-sent-event lines, and when the observer gives it back. */
module SseRoundTrip {
  import opened Bytes
  import opened SseAutomaton
  import opened SseParse

  /** "data: " */
  const LINE_START: seq<byte> := DATA_PREFIX + [SPACE]

  /** A line may begin with a space after the colon or without one. */
  predicate IsStart(start: seq<byte>) {
    start == DATA_PREFIX || start == LINE_START
  }

  function FirstLF(s: seq<byte>): (i: nat)
    ensures i <= |s| && LF !in s[..i] && (i < |s| ==> s[i] == LF)
  {
    if s == [] || s[0] == LF then 0
    else
      var i := 1 + FirstLF(s[1..]);
      assert s[..i] == [s[0]] + s[1..][..i - 1];
      i
  }

  /** The LF-separated pieces of a payload; always at least one. */
  function Pieces(payload: seq<byte>): (pieces: seq<seq<byte>>)
    ensures pieces != []
    decreases |payload|
  {
    var i := FirstLF(payload);
    if i == |payload| then [payload] else [payload[..i]] + Pieces(payload[i + 1..])
  }

  function LinesOf(start: seq<byte>, pieces: seq<seq<byte>>): (lines: seq<seq<byte>>)
    ensures |lines| == |pieces|
    ensures forall i :: 0 <= i < |lines| ==> lines[i] == start + pieces[i]
  {
    if pieces == [] then [] else [start + pieces[0]] + LinesOf(start, pieces[1..])
  }

  function WireLines(lines: seq<seq<byte>>): seq<byte> {
    if lines == [] then [] else lines[0] + [LF] + WireLines(lines[1..])
  }

  /** One data line per piece, closed by a blank line. */
  function Encode(start: seq<byte>, payload: seq<byte>): seq<byte> {
    WireLines(LinesOf(start, Pieces(payload)) + [[]])
  }

  predicate BeginsWithSpace(piece: seq<byte>) {
    piece != [] && piece[0] == SPACE
  }

  /** Without a space of its own after the colon, a line loses one that its piece begins with. */
  predicate KeepsPiece(start: seq<byte>, piece: seq<byte>) {
    start == DATA_PREFIX ==> !BeginsWithSpace(piece)
  }

  /** What the collector can retain: bounds on the payload and on each encoded line, and no piece that
      would lose its first space. */
  ghost predicate Retainable(start: seq<byte>, payload: seq<byte>, max: nat) {
    && payload != [] && payload != DONE_MARK && CR !in payload
    && |payload| < max
    && forall i :: 0 <= i < |Pieces(payload)| ==>
                     |start + Pieces(payload)[i]| <= max && KeepsPiece(start, Pieces(payload)[i])
  }

  lemma {:induction false} PiecesHaveNoLF(payload: seq<byte>)
    requires CR !in payload
    ensures forall i :: 0 <= i < |Pieces(payload)| ==> NoTerminator(Pieces(payload)[i])
    decreases |payload|
  {
    var i := FirstLF(payload);
    if i < |payload| {
      PiecesHaveNoLF(payload[i + 1..]);
    } else {
      assert payload[..i] == payload;
    }
    assert forall k :: 0 <= k < i ==> payload[..i][k] in payload;
    assert NoTerminator(payload[..i]);
  }

  lemma {:induction false} JoinCons(head: seq<byte>, tail: seq<seq<byte>>)
    requires tail != []
    ensures Join([head] + tail) == head + [LF] + Join(tail)
    decreases |tail|
  {
    var all := [head] + tail;
    var n := |tail| - 1;
    if n == 0 {
      assert all[..1] == [head] && all[1] == tail[0];
    } else {
      assert all[..|all| - 1] == [head] + tail[..n];
      JoinCons(head, tail[..n]);
    }
  }

  lemma SplitAtLF(payload: seq<byte>, i: nat)
    requires i < |payload| && payload[i] == LF
    ensures payload == payload[..i] + [LF] + payload[i + 1..]
  {
  }

  lemma {:induction false} JoinPieces(payload: seq<byte>)
    ensures Join(Pieces(payload)) == payload
    decreases |payload|
  {
    var i := FirstLF(payload);
    if i < |payload| {
      JoinPieces(payload[i + 1..]);
      JoinCons(payload[..i], Pieces(payload[i + 1..]));
      SplitAtLF(payload, i);
    }
  }

  /** A line in front of more wire: its LF is the first terminator. */
  lemma {:induction false} SplitFirstLine(line: seq<byte>, more: seq<byte>)
    requires NoTerminator(line)
    ensures SplitLines(line + [LF] + more) == ([line] + SplitLines(more).0, SplitLines(more).1)
  {
    var wire := line + [LF] + more;
    assert wire[|line|] == LF && wire[..|line|] == line;
    FirstTerminatorIs(wire, |line|);
    assert wire[|line| + 1..] == more;
  }

  lemma {:induction false} SplitWireLines(lines: seq<seq<byte>>)
    requires forall i :: 0 <= i < |lines| ==> NoTerminator(lines[i])
    ensures SplitLines(WireLines(lines)) == (lines, [])
    decreases |lines|
  {
    if lines != [] {
      SplitFirstLine(lines[0], WireLines(lines[1..]));
      SplitWireLines(lines[1..]);
      assert lines == [lines[0]] + lines[1..];
    }
  }

  /** What is left of each piece. */
  function Kept(start: seq<byte>, pieces: seq<seq<byte>>): (kept: seq<seq<byte>>)
    ensures |kept| == |pieces|
    ensures forall i :: 0 <= i < |pieces| ==>
                          kept[i] == if KeepsPiece(start, pieces[i]) then pieces[i] else pieces[i][1..]
  {
    if pieces == [] then []
    else
      var p := pieces[|pieces| - 1];
      Kept(start, pieces[..|pieces| - 1]) + [if KeepsPiece(start, p) then p else p[1..]]
  }

  lemma {:induction false} PayloadsOfLines(start: seq<byte>, pieces: seq<seq<byte>>, lines: seq<seq<byte>>)
    requires IsStart(start) && |lines| == |pieces|
    requires forall i :: 0 <= i < |lines| ==> lines[i] == start + pieces[i]
    ensures Payloads(lines) == Kept(start, pieces)
    decreases |lines|
  {
    if lines != [] {
      var n := |lines| - 1;
      PayloadsOfLines(start, pieces[..n], lines[..n]);
      PayloadOfPiece(start, pieces[n]);
    }
  }

  lemma PayloadOfPiece(start: seq<byte>, piece: seq<byte>)
    requires IsStart(start)
    ensures IsDataLine(start + piece)
    ensures PayloadOf(start + piece) == if KeepsPiece(start, piece) then piece else piece[1..]
  {
    var line := start + piece;
    assert line[..5] == DATA_PREFIX;
    if start == LINE_START {
      assert line[5] == SPACE && line[6..] == piece;
    } else {
      assert line[5..] == piece;
    }
  }

  /** Shorter pieces make a shorter whole. */
  lemma {:induction false} JoinShrinks(less: seq<seq<byte>>, more: seq<seq<byte>>)
    requires |less| == |more| && forall i :: 0 <= i < |less| ==> |less[i]| <= |more[i]|
    ensures |Join(less)| <= |Join(more)|
    ensures |Join(less)| == |Join(more)| ==> forall i :: 0 <= i < |less| ==> |less[i]| == |more[i]|
    decreases |less|
  {
    if |less| > 1 {
      JoinShrinks(less[..|less| - 1], more[..|more| - 1]);
    }
  }

  /** The whole is kept exactly when every piece is. */
  lemma {:induction false} KeptIsWhole(start: seq<byte>, payload: seq<byte>)
    ensures Join(Kept(start, Pieces(payload))) == payload
       <==> forall i :: 0 <= i < |Pieces(payload)| ==> KeepsPiece(start, Pieces(payload)[i])
  {
    var pieces := Pieces(payload);
    JoinPieces(payload);
    JoinShrinks(Kept(start, pieces), pieces);
    if forall i :: 0 <= i < |pieces| ==> KeepsPiece(start, pieces[i]) {
      assert Kept(start, pieces) == pieces;
    }
  }

  lemma {:induction false} GroupsOfOne(group: seq<seq<byte>>)
    requires NoBlank(group)
    ensures Groups(group + [[]]) == [group, []]
  {
    var lines := group + [[]];
    assert lines[|group|] == [] && lines[..|group|] == group;
    FirstBlankIs(lines, |group|);
    assert lines[|group| + 1..] == [];
    assert Groups([]) == [[]];
  }

  /** Any lines but blank ones, closed by a blank line, are one group. */
  lemma {:induction false} LinesAreOneGroup(lines: seq<seq<byte>>, max: nat)
    requires NoBlank(lines) && forall i :: 0 <= i < |lines| ==> NoTerminator(lines[i])
    ensures Parse(WireLines(lines + [[]]), max) == GroupEvents(lines, max)
  {
    SplitWireLines(lines + [[]]);
    GroupsOfOne(lines);
    OneGroupEvents(lines, max);
  }

  lemma {:induction false} EncodedEvents(start: seq<byte>, payload: seq<byte>, max: nat)
    requires IsStart(start) && CR !in payload
    ensures Parse(Encode(start, payload), max) ==
            GroupEvents(LinesOf(start, Pieces(payload)), max)
    ensures Payloads(LinesOf(start, Pieces(payload))) == Kept(start, Pieces(payload))
  {
    var pieces := Pieces(payload);
    var lines := LinesOf(start, pieces);
    PiecesHaveNoLF(payload);
    StartHasNoTerminator(start);
    assert NoBlank(lines);
    LinesAreOneGroup(lines, max);
    PayloadsOfLines(start, pieces, lines);
  }

  lemma StartHasNoTerminator(start: seq<byte>)
    requires IsStart(start)
    ensures NoTerminator(start) && start != []
  {
  }

  lemma {:induction false} OversizeLines(start: seq<byte>, pieces: seq<seq<byte>>, max: nat)
    ensures HasOversizeLine(LinesOf(start, pieces), max) <==>
            exists i :: 0 <= i < |pieces| && |start + pieces[i]| > max
  {
    var lines := LinesOf(start, pieces);
    if HasOversizeLine(lines, max) {
      var i :| 0 <= i < |lines| && |lines[i]| > max;
      assert |start + pieces[i]| > max;
    }
    if i :| 0 <= i < |pieces| && |start + pieces[i]| > max {
      assert |lines[i]| > max;
    }
  }

  lemma {:induction false} OneGroupEvents(group: seq<seq<byte>>, max: nat)
    ensures EventsOf([group, []], max) == GroupEvents(group, max)
  {
    var groups := [group, []];
    assert groups[1..] == [[]];
    EventsOfNothing(max);
  }

  lemma {:induction false} EventsOfNothing(max: nat)
    ensures EventsOf([[]], max) == []
  {
    var groups: seq<seq<seq<byte>>> := [[]];
    assert groups[1..] == [];
    assert Join(Payloads(groups[0])) == [];
    assert EventsOf(groups, max) == GroupEvents(groups[0], max) + EventsOf([], max);
  }

  lemma {:induction false} GivenBack(start: seq<byte>, payload: seq<byte>, max: nat)
    requires IsStart(start) && CR !in payload
    ensures Parse(Encode(start, payload), max) == [payload] <==> Retainable(start, payload, max)
  {
    EncodedEvents(start, payload, max);
    KeptIsWhole(start, payload);
    OversizeLines(start, Pieces(payload), max);
  }

  lemma {:induction false} CrIsNeverGivenBack(payload: seq<byte>, writes: seq<seq<byte>>, max: nat)
    requires CR in payload
    ensures Finish(FeedAll(FRESH, writes, max), max).events != [payload]
  {
    SplittingInvariance(FRESH, writes, max);
    FeedKeepsBounds(FRESH, Flatten(writes), max);
    FinishKeepsBounds(Feed(FRESH, Flatten(writes), max), max);
    assert payload !in Finish(FeedAll(FRESH, writes, max), max).events;
    assert [payload][0] == payload;
  }

  /** The round trip, with its exact condition: under any splitting of the encoded bytes, written with
      or without a space after the colon, exactly the payload is handed over if it is retainable, and
      otherwise it never is. */
  lemma {:induction false} RoundTrip(start: seq<byte>, payload: seq<byte>, writes: seq<seq<byte>>, max: nat)
    requires IsStart(start) && Flatten(writes) == Encode(start, payload)
    ensures Finish(FeedAll(FRESH, writes, max), max).events == [payload] <==> Retainable(start, payload, max)
  {
    if CR in payload {
      CrIsNeverGivenBack(payload, writes, max);
    } else {
      ObserverParses(writes, max);
      GivenBack(start, payload, max);
    }
  }

  /** A single data line, under any splitting: its payload is kept whole if it does not begin with a
      space, and loses exactly one if it does. */
  lemma {:induction false} DataLineIsKept(p: seq<byte>, writes: seq<seq<byte>>, max: nat)
    requires NoTerminator(p) && Flatten(writes) == DATA_PREFIX + p + [LF] + [LF]
    ensures var kept := if p != [] && p[0] == SPACE then p[1..] else p;
            Finish(FeedAll(FRESH, writes, max), max).events ==
            if kept != [] && kept != DONE_MARK && |kept| < max && 5 + |p| <= max then [kept] else []
  {
    ObserverParses(writes, max);
    DataLineParses(p, DATA_PREFIX + p, max);
  }

  lemma {:induction false} DataLineParses(p: seq<byte>, line: seq<byte>, max: nat)
    requires NoTerminator(p) && line == DATA_PREFIX + p
    ensures var kept := if p != [] && p[0] == SPACE then p[1..] else p;
            Parse(line + [LF] + [LF], max) ==
            if kept != [] && kept != DONE_MARK && |kept| < max && 5 + |p| <= max then [kept] else []
  {
    var lines := [line];
    StartHasNoTerminator(DATA_PREFIX);
    OneLineParses(line, lines, max);
    OneLineEvents(p, lines, max);
  }

  lemma {:induction false} OneLineParses(line: seq<byte>, lines: seq<seq<byte>>, max: nat)
    requires lines == [line] && line != [] && NoTerminator(line)
    ensures Parse(line + [LF] + [LF], max) == GroupEvents(lines, max)
  {
    OneWireLine(line);
    LinesAreOneGroup(lines, max);
  }

  lemma {:induction false} OneLineEvents(p: seq<byte>, lines: seq<seq<byte>>, max: nat)
    requires lines == [DATA_PREFIX + p]
    ensures var kept := if p != [] && p[0] == SPACE then p[1..] else p;
            GroupEvents(lines, max) ==
            if kept != [] && kept != DONE_MARK && |kept| < max && 5 + |p| <= max then [kept] else []
  {
    OnePayload(p);
    assert HasOversizeLine(lines, max) <==> |lines[0]| > max;
  }

  lemma OneWireLine(line: seq<byte>)
    ensures WireLines([line] + [[]]) == line + [LF] + [LF]
  {
    var lines := [line] + [[]];
    assert lines[1..] == [[]];
    var blank: seq<seq<byte>> := [[]];
    assert blank[1..] == [];
    assert WireLines(blank) == [LF];
  }

  lemma OnePayload(p: seq<byte>)
    ensures Join(Payloads([DATA_PREFIX + p])) == if p != [] && p[0] == SPACE then p[1..] else p
  {
    var lines := [DATA_PREFIX + p];
    PayloadOfPiece(DATA_PREFIX, p);
    assert lines[..0] == [];
    assert Payloads(lines[..0]) == [];
    assert Payloads(lines) == [PayloadOf(DATA_PREFIX + p)];
  }

  lemma {:induction false} PayloadsConcat(a: seq<seq<byte>>, b: seq<seq<byte>>)
    ensures Payloads(a + b) == Payloads(a) + Payloads(b)
    decreases |b|
  {
    if b == [] {
      assert a + b == a;
    } else {
      assert (a + b)[..|a + b| - 1] == a + b[..|b| - 1];
      PayloadsConcat(a, b[..|b| - 1]);
    }
  }

  lemma {:induction false} PayloadsWithout(before: seq<seq<byte>>, line: seq<byte>, after: seq<seq<byte>>)
    requires !(DATA_PREFIX <= line)
    ensures Payloads(before + [line] + after) == Payloads(before + after)
  {
    var one := [line];
    assert one[..0] == [];
    assert Payloads(one[..0]) == [];
    assert Payloads(one) == [];
    PayloadsConcat(before, one);
    PayloadsConcat(before + one, after);
    PayloadsConcat(before, after);
  }

  lemma OversizeWithout(before: seq<seq<byte>>, line: seq<byte>, after: seq<seq<byte>>, max: nat)
    requires |line| <= max
    ensures HasOversizeLine(before + [line] + after, max) <==> HasOversizeLine(before + after, max)
  {
    var with, without := before + [line] + after, before + after;
    if i :| 0 <= i < |with| && |with[i]| > max {
      assert with[i] == without[if i < |before| then i else i - 1];
    }
    if i :| 0 <= i < |without| && |without[i]| > max {
      assert without[i] == with[if i < |before| then i else i + 1];
    }
  }

  /** A line that does not begin with "data:" changes nothing, wherever in an event it stands. */
  lemma {:induction false} OtherLineIsIgnored(before: seq<seq<byte>>, line: seq<byte>, after: seq<seq<byte>>, max: nat)
    requires NoBlank(before + [line] + after) && !(DATA_PREFIX <= line) && |line| <= max
    requires forall i :: 0 <= i < |before + [line] + after| ==> NoTerminator((before + [line] + after)[i])
    ensures Parse(WireLines(before + [line] + after + [[]]), max) == Parse(WireLines(before + after + [[]]), max)
  {
    var with, without := before + [line] + after, before + after;
    forall i | 0 <= i < |without|
      ensures NoTerminator(without[i]) && without[i] != []
    {
      assert without[i] == with[if i < |before| then i else i + 1];
    }
    LinesAreOneGroup(with, max);
    LinesAreOneGroup(without, max);
    PayloadsWithout(before, line, after);
    OversizeWithout(before, line, after, max);
  }

  lemma {:induction false} SplitFirstCrLf(line: seq<byte>, more: seq<byte>)
    requires NoTerminator(line)
    ensures SplitLines(line + [CR, LF] + more) == ([line] + SplitLines(more).0, SplitLines(more).1)
  {
    var wire := line + [CR, LF] + more;
    assert wire[|line|] == CR && wire[|line| + 1] == LF && wire[..|line|] == line;
    FirstTerminatorIs(wire, |line|);
    assert wire[|line| + 2..] == more;
  }

  lemma EncodeOneLine(payload: seq<byte>)
    requires LF !in payload
    ensures Encode(LINE_START, payload) == LINE_START + payload + [LF] + [LF]
  {
    var line := LINE_START + payload;
    assert Pieces(payload) == [payload] && LinesOf(LINE_START, [payload]) == [line];
    OneWireLine(line);
  }

  lemma CrReadsAsEmpty(cr: seq<byte>, none: seq<byte>)
    requires cr == [CR] && none == []
    ensures AllLines(Encode(LINE_START, cr)) == AllLines(Encode(LINE_START, none))
  {
    EncodeOneLine(cr);
    EncodeOneLine(none);
    assert Encode(LINE_START, cr) == LINE_START + [CR, LF] + [LF];
    assert Encode(LINE_START, none) == LINE_START + [LF] + [LF];
    SplitFirstCrLf(LINE_START, [LF]);
    SplitFirstLine(LINE_START, [LF]);
  }

  /** A payload of a single CR is lost, whatever the bounds: its encoding reads like an empty one. */
  lemma {:induction false} LoneCrIsLost(payload: seq<byte>, writes: seq<seq<byte>>, max: nat)
    requires payload == [CR] && Flatten(writes) == Encode(LINE_START, payload)
    ensures Finish(FeedAll(FRESH, writes, max), max).events == []
  {
    var none: seq<byte> := [];
    ObserverParses(writes, max);
    CrReadsAsEmpty(payload, none);
    NothingIsNoEvent(none, max);
  }

  lemma NothingIsNoEvent(none: seq<byte>, max: nat)
    requires none == []
    ensures Parse(Encode(LINE_START, none), max) == []
  {
    EncodedEvents(LINE_START, none, max);
    KeptIsWhole(LINE_START, none);
  }

  lemma FinishKeepsBounds(s: Obs, max: nat)
    requires Bounded(s, max) && Clean(s)
    ensures Bounded(Finish(s, max), max)
  {
    ConsumeKeepsBounds(s, max);
    var t := if !s.skipLine && s.line != [] then ConsumeLine(s, s.line, max) else s;
    FlushKeepsBounds(t.(line := []), max);
  }
}
