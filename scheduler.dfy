/**
 * `doStep` as a function of the history, the command buffer, the local
 * command and the current timestamp, and what it guarantees: nothing happens
 * before the next slice is due; otherwise gaps are filled, buffered commands
 * are merged, history is rewritten from the earliest changed state, exactly
 * one state is appended and the oldest entries are evicted.
 */
module Scheduler {
  import opened Wrappers
  import opened Wire
  import opened History
  import opened CommandBuffer

  /** The instant the slice after `latestSlice` is due. */
  function Due(timeToStart: int, latestSlice: int): int {
    timeToStart + (1 + latestSlice) * TIMESLICE
  }

  /** A gap: at least one whole TIMESLICE more than due has passed. */
  predicate Gap(timestamp: int, due: int) {
    timestamp >= due + TIMESLICE
  }

  /** `Math.ceil(n / d)` for a non-negative integer `n`. */
  function CeilDiv(n: nat, d: nat): (r: nat)
    requires d > 0
    ensures (r - 1) * d < n <= r * d
  {
    (n + d - 1) / d
  }

  /**
   * How many filler states `doStep` builds: `ceil((timestamp - due) / TIMESLICE) - 1`
   * when there is a gap, none otherwise.
   */
  function FillerCount(timestamp: int, due: int): (n: nat)
    ensures Gap(timestamp, due) ==> (n * TIMESLICE < timestamp - due <= (n + 1) * TIMESLICE)
    ensures !Gap(timestamp, due) ==> n == 0
  {
    if Gap(timestamp, due) then CeilDiv(timestamp - due, TIMESLICE) - 1 else 0
  }

  /** A gap of exactly one slice is reported as a gap but builds no filler. */
  lemma OneSliceGapBuildsNoFiller(timestamp: int, due: int)
    requires timestamp == due + TIMESLICE
    ensures Gap(timestamp, due) && FillerCount(timestamp, due) == 0
  {
  }

  /**
   * The slice a rewrite starts from: with a gap it is widened to the pre-gap
   * latest slice unless the drain found an earlier one; without a gap it is
   * the drain's candidate.
   */
  function RewriteStart(gap: bool, latestSlice: int, candidate: Option<int>): (r: Option<int>)
    ensures gap ==> r.Some? && r.value <= latestSlice
    ensures gap && candidate.Some? && candidate.value <= latestSlice ==> r == candidate
    ensures gap && (candidate.None? || candidate.value > latestSlice) ==> r == Some(latestSlice)
    ensures !gap ==> r == candidate
  {
    if gap && (candidate.None? || latestSlice < candidate.value) then Some(latestSlice) else candidate
  }

  /** The slice of the state the drain returns. */
  function CandidateSlice<W, I>(d: DrainState<W, I>): Option<int> {
    if Truthy(d.candidate) then d.candidate else None
  }

  /** The history before the drain: the old one plus the fillers. */
  function Filled<W, I>(timeToStart: int, emptyWorld: W, h: seq<GameState<W, I>>, timestamp: int): seq<GameState<W, I>>
    requires |h| > 0
  {
    var latest := h[|h| - 1];
    h + Fillers(latest, FillerCount(timestamp, Due(timeToStart, latest.slice)), emptyWorld)
  }

  /** The history after the drain and the rewrite, before the new state is appended. */
  function Rewritten<W, I>(timeToStart: int, emptyWorld: W, step: StepFn<W, I>,
                           h: seq<GameState<W, I>>, buffer: seq<Item>, userCommand: Option<seq<u16>>,
                           timestamp: int): seq<GameState<W, I>>
    requires |h| > 0
    requires forall k | 0 <= k < |buffer| :: WellFormed(buffer[k])
  {
    var latest := h[|h| - 1];
    var filled := Filled(timeToStart, emptyWorld, h, timestamp);
    var d := Drain(filled, buffer, userCommand);
    var start := RewriteStart(Gap(timestamp, Due(timeToStart, latest.slice)), latest.slice, CandidateSlice(d));
    if start.Some? then RewriteFrom(step, userCommand, d.history, FindSliceIndex(d.history, start.value))
    else d.history
  }

  /** `doStep(timestamp)`: the new history and the new command buffer. */
  function Advanced<W, I>(timeToStart: int, myIndex: int, emptyWorld: W, step: StepFn<W, I>,
                          h: seq<GameState<W, I>>, buffer: seq<Item>, userCommand: Option<seq<u16>>,
                          timestamp: int): (seq<GameState<W, I>>, seq<Item>)
    requires |h| > 0
    requires forall k | 0 <= k < |buffer| :: WellFormed(buffer[k])
  {
    var latest := h[|h| - 1];
    if timestamp < Due(timeToStart, latest.slice) then (h, buffer)
    else
      var filled := Filled(timeToStart, emptyWorld, h, timestamp);
      var r := Rewritten(timeToStart, emptyWorld, step, h, buffer, userCommand, timestamp);
      (Evict(r + [NextState(step, userCommand, myIndex, r[|r| - 1])]),
       Remaining(filled[0].slice, |filled|, buffer))
  }

  /**
   * The start `doStep` picks: the state `loadCommandsIntoGameStates` returns,
   * replaced by the pre-gap newest state when there was a gap and that state
   * is older than the returned one (or nothing was returned). Rewriting from
   * the slice of that pick gives `Rewritten`.
   */
  lemma PickedStartRewrites<W, I>(timeToStart: int, emptyWorld: W, step: StepFn<W, I>,
                                  h: seq<GameState<W, I>>, buffer: seq<Item>, userCommand: Option<seq<u16>>,
                                  timestamp: int)
    requires |h| > 0 && Contiguous(h) && Aligned(timeToStart, h)
    requires forall k | 0 <= k < |buffer| :: WellFormed(buffer[k])
    ensures var latestIndex := |h| - 1;
            var filled := Filled(timeToStart, emptyWorld, h, timestamp);
            var d := Drain(filled, buffer, userCommand);
            var returned := Returned(filled[0].slice, d);
            var gap := Gap(timestamp, Due(timeToStart, h[latestIndex].slice));
            var picked := if gap && (returned.None? || d.history[latestIndex].slice < returned.value.slice)
                          then Some(d.history[latestIndex]) else returned;
            Rewritten(timeToStart, emptyWorld, step, h, buffer, userCommand, timestamp)
              == if picked.Some? then RewriteFrom(step, userCommand, d.history, FindSliceIndex(d.history, picked.value.slice))
                 else d.history
  {
    var latestIndex := |h| - 1;
    var filled := Filled(timeToStart, emptyWorld, h, timestamp);
    FilledShape(timeToStart, emptyWorld, h, timestamp);
    var d := Drain(filled, buffer, userCommand);
    assert SameButCommands(d.history[latestIndex], filled[latestIndex]);
    if Truthy(d.candidate) {
      assert SameButCommands(d.history[d.candidate.value - filled[0].slice], filled[d.candidate.value - filled[0].slice]);
    }
  }

  /** Once the next slice is due, `Advanced` appends to the rewritten history and keeps the unmatched commands. */
  lemma AdvancedWhenDue<W, I>(timeToStart: int, myIndex: int, emptyWorld: W, step: StepFn<W, I>,
                              h: seq<GameState<W, I>>, buffer: seq<Item>, userCommand: Option<seq<u16>>,
                              timestamp: int, r: seq<GameState<W, I>>, next: GameState<W, I>)
    requires |h| > 0
    requires forall k | 0 <= k < |buffer| :: WellFormed(buffer[k])
    requires timestamp >= Due(timeToStart, h[|h| - 1].slice)
    requires r == Rewritten(timeToStart, emptyWorld, step, h, buffer, userCommand, timestamp) && |r| > 0
    requires next == NextState(step, userCommand, myIndex, r[|r| - 1])
    ensures var filled := Filled(timeToStart, emptyWorld, h, timestamp);
            && |filled| > 0
            && Advanced(timeToStart, myIndex, emptyWorld, step, h, buffer, userCommand, timestamp)
               == (Evict(r + [next]), Remaining(filled[0].slice, |filled|, buffer))
  {
  }

  /** The history shape every `doStep` keeps. */
  ghost predicate WellShaped<W, I>(timeToStart: int, h: seq<GameState<W, I>>) {
    1 <= |h| <= HISTORY_CAP && Contiguous(h) && Aligned(timeToStart, h)
  }

  /** The drain writes only command slots, so the history keeps its shape. */
  lemma DrainKeepsShape<W, I>(timeToStart: int, h: seq<GameState<W, I>>, buffer: seq<Item>,
                              userCommand: Option<seq<u16>>)
    requires WellShaped(timeToStart, h)
    requires forall k | 0 <= k < |buffer| :: WellFormed(buffer[k])
    ensures WellShaped(timeToStart, Drain(h, buffer, userCommand).history)
  {
    var d := Drain(h, buffer, userCommand).history;
    forall i | 0 <= i < |d| ensures d[i].slice == h[i].slice && d[i].time == h[i].time {
      assert SameButCommands(d[i], h[i]);
    }
  }

  /** A rewrite from any index keeps every slice and time, so the history keeps its shape. */
  lemma RewriteKeepsShape<W, I>(timeToStart: int, h: seq<GameState<W, I>>,
                                step: StepFn<W, I>, userCommand: Option<seq<u16>>, index: int)
    requires WellShaped(timeToStart, h)
    ensures WellShaped(timeToStart, RewriteFrom(step, userCommand, h, index))
  {
    RewriteShape(step, userCommand, h, index);
  }

  /** Appending the fillers keeps the history contiguous and aligned. */
  lemma FilledShape<W, I>(timeToStart: int, emptyWorld: W, h: seq<GameState<W, I>>, timestamp: int)
    requires |h| > 0 && Contiguous(h) && Aligned(timeToStart, h)
    ensures var f := Filled(timeToStart, emptyWorld, h, timestamp);
            var latest := h[|h| - 1];
            && |f| == |h| + FillerCount(timestamp, Due(timeToStart, latest.slice))
            && f[..|h|] == h && Contiguous(f) && Aligned(timeToStart, f)
  {
    var f := Filled(timeToStart, emptyWorld, h, timestamp);
    var latest := h[|h| - 1];
    var n := FillerCount(timestamp, Due(timeToStart, latest.slice));
    assert f[..|h|] == h;
    forall i | 0 <= i < |f|
      ensures f[i].slice == f[0].slice + i && f[i].time == timeToStart + f[i].slice * TIMESLICE
    {
      if i >= |h| {
        assert f[i] == Filler(latest, i - |h| + 1, emptyWorld);
      }
    }
  }

  /** The drain and the rewrite touch neither the length, the slices nor the times. */
  lemma RewrittenShape<W, I>(timeToStart: int, emptyWorld: W, step: StepFn<W, I>,
                             h: seq<GameState<W, I>>, buffer: seq<Item>, userCommand: Option<seq<u16>>,
                             timestamp: int)
    requires |h| > 0 && Contiguous(h) && Aligned(timeToStart, h)
    requires forall k | 0 <= k < |buffer| :: WellFormed(buffer[k])
    ensures var f := Filled(timeToStart, emptyWorld, h, timestamp);
            var r := Rewritten(timeToStart, emptyWorld, step, h, buffer, userCommand, timestamp);
            |r| == |f| && forall i | 0 <= i < |r| :: r[i].slice == f[i].slice && r[i].time == f[i].time
  {
    var f := Filled(timeToStart, emptyWorld, h, timestamp);
    FilledShape(timeToStart, emptyWorld, h, timestamp);
    var latest := h[|h| - 1];
    var d := Drain(f, buffer, userCommand);
    var start := RewriteStart(Gap(timestamp, Due(timeToStart, latest.slice)), latest.slice, CandidateSlice(d));
    if start.Some? {
      RewriteShape(step, userCommand, d.history, FindSliceIndex(d.history, start.value));
    }
  }

  /**
   * A slice is due: the history stays contiguous, aligned and within the cap,
   * and it never gets shorter.
   */
  lemma AdvanceKeepsShape<W, I>(timeToStart: int, myIndex: int, emptyWorld: W, step: StepFn<W, I>,
                                h: seq<GameState<W, I>>, buffer: seq<Item>,
                                userCommand: Option<seq<u16>>, timestamp: int)
    requires WellShaped(timeToStart, h)
    requires forall k | 0 <= k < |buffer| :: WellFormed(buffer[k])
    requires timestamp >= Due(timeToStart, h[|h| - 1].slice)
    ensures var h' := Advanced(timeToStart, myIndex, emptyWorld, step, h, buffer, userCommand, timestamp).0;
            WellShaped(timeToStart, h') && |h'| >= |h|
  {
    var latest := h[|h| - 1];
    FilledShape(timeToStart, emptyWorld, h, timestamp);
    var r := Rewritten(timeToStart, emptyWorld, step, h, buffer, userCommand, timestamp);
    RewrittenShape(timeToStart, emptyWorld, step, h, buffer, userCommand, timestamp);
    var next := NextState(step, userCommand, myIndex, r[|r| - 1]);
    AdvancedWhenDue(timeToStart, myIndex, emptyWorld, step, h, buffer, userCommand, timestamp, r, next);
    AppendThenEvict(timeToStart, r, next);
  }

  /**
   * A slice is due: the newest state is the one appended on top of the
   * rewritten history, its slice is the old latest slice plus the fillers
   * plus one, and the slice after it is due no earlier than `timestamp`.
   */
  lemma AdvanceNewestSlice<W, I>(timeToStart: int, myIndex: int, emptyWorld: W, step: StepFn<W, I>,
                                 h: seq<GameState<W, I>>, buffer: seq<Item>,
                                 userCommand: Option<seq<u16>>, timestamp: int)
    requires WellShaped(timeToStart, h)
    requires forall k | 0 <= k < |buffer| :: WellFormed(buffer[k])
    requires timestamp >= Due(timeToStart, h[|h| - 1].slice)
    ensures var h' := Advanced(timeToStart, myIndex, emptyWorld, step, h, buffer, userCommand, timestamp).0;
            var r := Rewritten(timeToStart, emptyWorld, step, h, buffer, userCommand, timestamp);
            var latest := h[|h| - 1];
            && |h'| > 0 && |r| > 0
            && h'[|h'| - 1] == NextState(step, userCommand, myIndex, r[|r| - 1])
            && h'[|h'| - 1].slice == latest.slice + FillerCount(timestamp, Due(timeToStart, latest.slice)) + 1
            && Due(timeToStart, h'[|h'| - 1].slice) >= timestamp
  {
    var latest := h[|h| - 1];
    var due := Due(timeToStart, latest.slice);
    var n := FillerCount(timestamp, due);
    var r := Rewritten(timeToStart, emptyWorld, step, h, buffer, userCommand, timestamp);
    assert |r| > 0 && Contiguous(r) && Aligned(timeToStart, r) && r[|r| - 1].slice == latest.slice + n by {
      FilledShape(timeToStart, emptyWorld, h, timestamp);
      RewrittenShape(timeToStart, emptyWorld, step, h, buffer, userCommand, timestamp);
    }
    var next := NextState(step, userCommand, myIndex, r[|r| - 1]);
    var h' := Evict(r + [next]);
    assert |h'| > 0 && h'[|h'| - 1] == next by {
      AppendThenEvict(timeToStart, r, next);
    }
    assert Advanced(timeToStart, myIndex, emptyWorld, step, h, buffer, userCommand, timestamp).0 == h' by {
      AdvancedWhenDue(timeToStart, myIndex, emptyWorld, step, h, buffer, userCommand, timestamp, r, next);
    }
    CatchesUp(timeToStart, latest.slice, timestamp);
  }

  /**
   * One due step catches up: after the fillers and the appended state, the
   * slice after the newest one is due no earlier than `timestamp`, and
   * the newest one itself is due no later than `timestamp`.
   */
  lemma CatchesUp(timeToStart: int, latestSlice: int, timestamp: int)
    requires timestamp >= Due(timeToStart, latestSlice)
    ensures var newest := latestSlice + FillerCount(timestamp, Due(timeToStart, latestSlice)) + 1;
            Due(timeToStart, newest - 1) <= timestamp <= Due(timeToStart, newest)
  {
    var due := Due(timeToStart, latestSlice);
    var n := FillerCount(timestamp, due);
    assert Due(timeToStart, latestSlice + n + 1) == due + (n + 1) * TIMESLICE;
    assert Due(timeToStart, latestSlice + n) == due + n * TIMESLICE;
  }

  /** Appending the next slice and evicting keeps the shape and leaves the appended state newest. */
  lemma AppendThenEvict<W, I>(timeToStart: int, r: seq<GameState<W, I>>, next: GameState<W, I>)
    requires |r| > 0 && Contiguous(r) && Aligned(timeToStart, r)
    requires next.slice == r[|r| - 1].slice + 1 && next.time == r[|r| - 1].time + TIMESLICE
    ensures var h' := Evict(r + [next]);
            WellShaped(timeToStart, h') && h'[|h'| - 1] == next
            && |h'| == if |r| + 1 > HISTORY_CAP then HISTORY_CAP else |r| + 1
  {
    var a := r + [next];
    assert Contiguous(a) && Aligned(timeToStart, a) by {
      forall i | 0 <= i < |a|
        ensures a[i].slice == a[0].slice + i && a[i].time == timeToStart + a[i].slice * TIMESLICE
      {
        if i < |r| {
          assert a[i] == r[i];
        }
      }
    }
    var h' := Evict(a);
    EvictKeepsNewest(a);
    if |a| > HISTORY_CAP {
      SuffixShape(timeToStart, a, |a| - HISTORY_CAP);
    }
  }

  /** A suffix of a contiguous, aligned history is contiguous and aligned. */
  lemma SuffixShape<W, I>(timeToStart: int, a: seq<GameState<W, I>>, off: nat)
    requires off < |a| && Contiguous(a) && Aligned(timeToStart, a)
    ensures Contiguous(a[off..]) && Aligned(timeToStart, a[off..])
  {
    var s := a[off..];
    forall i | 0 <= i < |s|
      ensures s[i].slice == s[0].slice + i && s[i].time == timeToStart + s[i].slice * TIMESLICE
    {
      assert s[i] == a[off + i];
      assert s[0] == a[off];
    }
  }

  /**
   * With a gap, every state after the pre-gap latest one (all fillers
   * included) is recomputed from the state before it.
   */
  lemma GapRecomputesFillers<W, I>(timeToStart: int, emptyWorld: W, step: StepFn<W, I>,
                                   h: seq<GameState<W, I>>, buffer: seq<Item>, userCommand: Option<seq<u16>>,
                                   timestamp: int)
    requires |h| > 0 && Contiguous(h) && Aligned(timeToStart, h)
    requires forall k | 0 <= k < |buffer| :: WellFormed(buffer[k])
    requires Gap(timestamp, Due(timeToStart, h[|h| - 1].slice))
    ensures var f := Filled(timeToStart, emptyWorld, h, timestamp);
            var d := Drain(f, buffer, userCommand);
            var r := Rewritten(timeToStart, emptyWorld, step, h, buffer, userCommand, timestamp);
            |r| == |f| && forall j | |h| <= j < |r| :: r[j] == Recompute(step, userCommand, r[j - 1], d.history[j])
  {
    var latest := h[|h| - 1];
    var f := Filled(timeToStart, emptyWorld, h, timestamp);
    FilledShape(timeToStart, emptyWorld, h, timestamp);
    var d := Drain(f, buffer, userCommand);
    var start := RewriteStart(true, latest.slice, CandidateSlice(d));
    assert Contiguous(d.history) by {
      forall i | 0 <= i < |d.history| ensures d.history[i].slice == d.history[0].slice + i {
        assert SameButCommands(d.history[i], f[i]);
        assert SameButCommands(d.history[0], f[0]);
      }
    }
    var s := start.value;
    assert SameButCommands(d.history[0], f[0]);
    assert f[0].slice == h[0].slice;
    assert latest.slice == h[0].slice + |h| - 1;
    var c := CandidateSlice(d);
    assert c.Some? ==> d.candidate.Some? && c.value >= f[0].slice;
    assert s >= d.history[0].slice;
    FindSliceInContiguous(d.history, s);
    var idx := FindSliceIndex(d.history, s);
    assert 0 <= idx <= |h| - 1;
    RewriteShape(step, userCommand, d.history, idx);
  }
}
