/**
 * The diagnostic snapshot taken while requests go on: it looks at each exchange under that exchange's
 * lock and later at its buffer under the buffer's, and record, Finish, eviction and body reads happen
 * in between as they like.
 */
module TraceSnapshot {
  import opened Bytes
  import opened TraceCapture
  import opened TraceLifecycle

  /** Which exchange is looked at, and how far the run was at that look and at the one at its buffer. */
  datatype Look = Look(e: nat, at: nat, later: nat)

  ghost predicate InRun(look: Look, ls: seq<Label>, max: nat)
    requires max >= 2
  {
    look.at <= look.later <= |ls| && look.e in Run(ls[..look.at], max).ex
  }

  /** A buffer's copy: as much as may be kept of what was read through it, and how much that was. */
  function Copied(data: seq<byte>, maxBodyBytes: nat): (seq<byte>, nat) {
    (data[..Min(|data|, maxBodyBytes)], |data|)
  }

  function DataIn(s: Sys, b: nat): seq<byte> {
    if b in s.bufs then s.bufs[b].data else []
  }

  /** The request's part of what the looks find: nothing once the exchange is released, else what is on
      record and the buffer as it is by then, which may be released in between. */
  ghost function Found(ls: seq<Label>, look: Look, record: View, maxBodyBytes: nat, max: nat): View
    requires max >= 2 && InRun(look, ls, max)
  {
    var x := Run(ls[..look.at], max).ex[look.e];
    if x.closed then View([], 0, None, None, [])
    else if x.sent.None? then record.(sending := None)
    else record.(sending := Some(Copied(DataIn(Run(ls[..look.later], max), x.sent.value), maxBodyBytes)))
  }

  /** What was read through the buffer is always a part of this body. */
  ghost predicate ReadsOf(ls: seq<Label>, b: nat, content: seq<byte>) {
    forall i :: 0 <= i < |ls| && ls[i].Consume? && ls[i].b == b ==> ls[i].data <= content
  }

  lemma {:induction false} BufferHoldsPart(ls: seq<Label>, b: nat, content: seq<byte>, max: nat)
    requires max >= 2 && ReadsOf(ls, b, content)
    ensures DataIn(Run(ls, max), b) <= content
    decreases |ls|
  {
    if ls != [] {
      var front, last := ls[..|ls| - 1], ls[|ls| - 1];
      BufferHoldsPart(front, b, content, max);
      StepHoldsPart(Run(front, max), last, b, content, max);
    }
  }

  lemma StepHoldsPart(s: Sys, l: Label, b: nat, content: seq<byte>, max: nat)
    requires max >= 2 && DataIn(s, b) <= content
    requires l.Consume? && l.b == b ==> l.data <= content
    ensures DataIn(Step(s, l, max), b) <= content
  {
  }

  /** At whatever moments the looks happen, a body that is observed while it is sent is attached whole
      or not at all, unless a part of it could pass for the whole. */
  lemma {:induction false} ObservedWheneverSeen(ls: seq<Label>, look: Look, views: seq<View>, reports: seq<Report>,
                                                error: seq<byte>, budget: nat, i: nat, first: seq<byte>,
                                                content: seq<byte>, contentLength: int, maxBodyBytes: nat, max: nat)
    requires max >= 2 && InRun(look, ls, max)
    requires |views| == |reports| && i < |views| && Greedy(views, reports, error, budget, i)
    requires SameRequest(views[i], Found(ls, look, RecordOf(first, false, contentLength, maxBodyBytes),
                                         maxBodyBytes, max))
    requires var sent := Run(ls[..look.at], max).ex[look.e].sent;
             !Run(ls[..look.at], max).ex[look.e].closed ==> sent.Some? && ReadsOf(ls, sent.value, content)
    requires !PartPassesForWhole(first, content, contentLength, maxBodyBytes)
    ensures reports[i].body == content || reports[i].body == []
  {
    var x := Run(ls[..look.at], max).ex[look.e];
    if !x.closed {
      var data := DataIn(Run(ls[..look.later], max), x.sent.value);
      BufferHoldsPart(ls[..look.later], x.sent.value, content, max);
      assert data == content[..|data|];
      assert data[..Min(|data|, maxBodyBytes)] == content[..Min(|data|, maxBodyBytes)];
      ObservedIsWhole(views, reports, error, budget, i, first, content, |data|, contentLength, maxBodyBytes);
    }
  }

  /** So is a replayed one, without exception. */
  lemma {:induction false} ReplayedWheneverSeen(ls: seq<Label>, look: Look, views: seq<View>, reports: seq<Report>,
                                                error: seq<byte>, budget: nat, i: nat, content: seq<byte>,
                                                contentLength: int, maxBodyBytes: nat, max: nat)
    requires max >= 2 && InRun(look, ls, max)
    requires |views| == |reports| && i < |views| && Greedy(views, reports, error, budget, i)
    requires var replayed := content[..Min(|content|, maxBodyBytes + 1)];
             SameRequest(views[i], Found(ls, look, RecordOf(replayed, true, contentLength, maxBodyBytes),
                                         maxBodyBytes, max))
    requires Run(ls[..look.at], max).ex[look.e].sent.None?
    ensures reports[i].body == content || reports[i].body == []
  {
    if !Run(ls[..look.at], max).ex[look.e].closed {
      ReplayedIsWhole(views, reports, error, budget, i, content, contentLength, maxBodyBytes);
    }
  }
}
