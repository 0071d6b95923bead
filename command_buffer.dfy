/**
 * `loadCommandsIntoGameStates` as a fold over the buffered items: which items
 * leave the buffer, how each one lands in a state's command slot, and which
 * state a rewrite of history must start from.
 */
module CommandBuffer {
  import opened Wrappers
  import opened Wire
  import opened History

  /** The state the drain loop carries: the history being written and the candidate slice. */
  datatype DrainState<W, I> = DrainState(history: seq<GameState<W, I>>, candidate: Option<int>)

  /** The item targets one of the `length` slices starting at `first`. */
  predicate InWindow(slice: Option<u16>, first: int, length: int) {
    slice.Some? && first <= slice.value as int < first + length
  }

  /** JavaScript truthiness of the candidate: `undefined` and slice 0 are both false. */
  predicate Truthy(c: Option<int>) {
    c.Some? && c.value != 0
  }

  /** `!rewriteHistoryFromSlice || rewriteHistoryFromSlice > slice` then take `slice`. */
  function UpdateCandidate(c: Option<int>, slice: int): Option<int> {
    if !Truthy(c) || c.value > slice then Some(slice) else c
  }

  /** The stored command is missing, or its value word differs from `value`. */
  predicate Differs(stored: Option<seq<u16>>, value: u16) {
    stored.None? || |stored.value| <= 2 || stored.value[2] != value
  }

  /** The value word a slot holds now, if any. */
  function StoredValue(commands: map<int, Slot>, peer: int, userCommand: Option<seq<u16>>): Option<u16> {
    var s := Stored(commands, peer, userCommand);
    if s.Some? && |s.value| > 2 then Some(s.value[2]) else None
  }

  /** Only the command slots of a state may differ. */
  ghost predicate SameButCommands<W, I>(a: GameState<W, I>, b: GameState<W, I>) {
    a.slice == b.slice && a.time == b.time && a.world == b.world
    && a.randomPointer == b.randomPointer && a.info == b.info
  }

  /** One turn of the drain loop for `item`, over the window of `length` slices from `first`. */
  function DrainStep<W, I>(d: DrainState<W, I>, item: Item, first: int, length: int,
                           userCommand: Option<seq<u16>>): (r: DrainState<W, I>)
    requires WellFormed(item) && |d.history| == length
    ensures |r.history| == length
    ensures forall i | 0 <= i < length :: SameButCommands(r.history[i], d.history[i])
  {
    if InWindow(item.slice, first, length) then
      var slice := item.slice.value as int;
      var gs := d.history[slice - first];
      var origin := item.command[1] as int;
      if Differs(Stored(gs.commands, origin, userCommand), item.command[2]) then
        var c := if slice < first + length - 1 then UpdateCandidate(d.candidate, slice) else d.candidate;
        DrainState(d.history[slice - first := gs.(commands := gs.commands[origin := Received(item.command)])], c)
      else
        d
    else
      d
  }

  /** The drain loop after the given items, over the window of `h`. */
  function Drain<W, I>(h: seq<GameState<W, I>>, items: seq<Item>, userCommand: Option<seq<u16>>): (d: DrainState<W, I>)
    requires |h| > 0
    requires forall k | 0 <= k < |items| :: WellFormed(items[k])
    ensures |d.history| == |h|
    ensures forall i | 0 <= i < |h| :: SameButCommands(d.history[i], h[i])
    ensures d.candidate.Some? ==> h[0].slice <= d.candidate.value < h[0].slice + |h| - 1
    decreases |items|
  {
    if items == [] then DrainState(h, None)
    else
      var d := Drain(h, items[..|items| - 1], userCommand);
      DrainStep(d, items[|items| - 1], h[0].slice, |h|, userCommand)
  }

  /** The items the drain leaves in the buffer: those outside the window, in their order. */
  function Remaining(first: int, length: int, items: seq<Item>): (r: seq<Item>)
    decreases |items|
  {
    if items == [] then []
    else
      var rest := Remaining(first, length, items[..|items| - 1]);
      if InWindow(items[|items| - 1].slice, first, length) then rest else rest + [items[|items| - 1]]
  }

  /** The items the drain takes out of the buffer. */
  function Matched(first: int, length: int, items: seq<Item>): seq<Item>
    decreases |items|
  {
    if items == [] then []
    else
      var rest := Matched(first, length, items[..|items| - 1]);
      if InWindow(items[|items| - 1].slice, first, length) then rest + [items[|items| - 1]] else rest
  }

  /** The drain over one more item is one more drain step. */
  lemma DrainSnoc<W, I>(h: seq<GameState<W, I>>, items: seq<Item>, k: nat, userCommand: Option<seq<u16>>)
    requires |h| > 0 && k < |items|
    requires forall j | 0 <= j < |items| :: WellFormed(items[j])
    ensures Drain(h, items[..k + 1], userCommand)
         == DrainStep(Drain(h, items[..k], userCommand), items[k], h[0].slice, |h|, userCommand)
  {
    assert items[..k + 1][..k] == items[..k];
  }

  /** What stays after one more item: that item too, unless it is in the window. */
  lemma RemainingSnoc(first: int, length: int, items: seq<Item>, k: nat)
    requires k < |items|
    ensures Remaining(first, length, items[..k + 1])
         == Remaining(first, length, items[..k]) + (if InWindow(items[k].slice, first, length) then [] else [items[k]])
  {
    assert items[..k + 1][..k] == items[..k];
  }

  /** The buffer during the drain loop: what stayed so far, then the items not yet scanned. */
  lemma SpliceAt(buffer: seq<Item>, rest: seq<Item>, current: seq<Item>, index: nat)
    requires index < |buffer| && current == rest + buffer[index..]
    ensures current[|rest|] == buffer[index]
    ensures current[..|rest|] + current[|rest| + 1..] == rest + buffer[index + 1..]
    ensures current == (rest + [buffer[index]]) + buffer[index + 1..]
  {
    assert buffer[index..] == [buffer[index]] + buffer[index + 1..];
    assert current[..|rest|] == rest;
    assert current[|rest| + 1..] == buffer[index + 1..];
  }

  /**
   * One turn of the scan over the buffer: the item at the scan position is the
   * next unscanned one, and taking it out (when it is in the window) or
   * stepping over it (when not) keeps the buffer equal to what stayed so far
   * followed by what is not yet scanned.
   */
  lemma ScanStep(first: int, length: int, buffer: seq<Item>, index: nat, current: seq<Item>, removed: nat)
    requires index < |buffer|
    requires current == Remaining(first, length, buffer[..index]) + buffer[index..]
    requires |Remaining(first, length, buffer[..index])| == index - removed
    ensures index - removed < |current| && current[index - removed] == buffer[index]
    ensures var rest := Remaining(first, length, buffer[..index + 1]);
            if InWindow(buffer[index].slice, first, length) then
              && current[..index - removed] + current[index - removed + 1..] == rest + buffer[index + 1..]
              && |rest| == index + 1 - (removed + 1)
            else
              && current == rest + buffer[index + 1..]
              && |rest| == index + 1 - removed
  {
    var rest := Remaining(first, length, buffer[..index]);
    RemainingSnoc(first, length, buffer, index);
    SpliceAt(buffer, rest, current, index);
  }

  /** The state the drain returns: the entry at a truthy candidate slice, else none. */
  function Returned<W, I>(first: int, d: DrainState<W, I>): Option<GameState<W, I>>
    requires d.candidate.Some? ==> first <= d.candidate.value < first + |d.history|
  {
    if Truthy(d.candidate) then Some(d.history[d.candidate.value - first]) else None
  }

  /**
   * An item leaves the buffer exactly when its slice lies in the window;
   * every other item (stale, future or without a slice) stays.
   */
  lemma {:induction false} RemainingMembers(first: int, length: int, items: seq<Item>)
    ensures forall x :: x in Remaining(first, length, items) <==> x in items && !InWindow(x.slice, first, length)
    ensures forall x :: x in Matched(first, length, items) <==> x in items && InWindow(x.slice, first, length)
    decreases |items|
  {
    if items != [] {
      var init := items[..|items| - 1];
      RemainingMembers(first, length, init);
      assert items == init + [items[|items| - 1]];
    }
  }

  /** The drain splits the buffer: what stays and what is taken are together the old buffer. */
  lemma {:induction false} DrainPartitionsBuffer(first: int, length: int, items: seq<Item>)
    ensures multiset(Remaining(first, length, items)) + multiset(Matched(first, length, items)) == multiset(items)
    decreases |items|
  {
    if items != [] {
      var init := items[..|items| - 1];
      DrainPartitionsBuffer(first, length, init);
      assert items == init + [items[|items| - 1]];
    }
  }

  /** A stale command, older than the window, is never dropped. */
  lemma StaleCommandStays(first: int, length: int, items: seq<Item>, x: Item)
    requires x in items && x.slice.Some? && (x.slice.value as int) < first
    ensures x in Remaining(first, length, items)
  {
    RemainingMembers(first, length, items);
  }

  /** The value of the last in-window item that targets `slice` for `peer`, if any. */
  function LastValue(items: seq<Item>, first: int, length: int, slice: int, peer: int): Option<u16>
    requires forall k | 0 <= k < |items| :: WellFormed(items[k])
    decreases |items|
  {
    if items == [] then None
    else
      var x := items[|items| - 1];
      assert WellFormed(x);
      if InWindow(x.slice, first, length) && x.slice.value as int == slice && x.command[1] as int == peer
      then Some(x.command[2])
      else LastValue(items[..|items| - 1], first, length, slice, peer)
  }

  /**
   * The outcome in each slot: it ends up holding the value of the last
   * in-window item aimed at it, and a slot no item aims at keeps its value.
   */
  lemma {:induction false} DrainSlotValue<W, I>(h: seq<GameState<W, I>>, items: seq<Item>,
                                                userCommand: Option<seq<u16>>, i: int, peer: int)
    requires |h| > 0 && 0 <= i < |h|
    requires forall k | 0 <= k < |items| :: WellFormed(items[k])
    ensures StoredValue(Drain(h, items, userCommand).history[i].commands, peer, userCommand)
         == match LastValue(items, h[0].slice, |h|, h[0].slice + i, peer)
            case Some(v) => Some(v)
            case None => StoredValue(h[i].commands, peer, userCommand)
    decreases |items|
  {
    if items != [] {
      var init := items[..|items| - 1];
      DrainSlotValue(h, init, userCommand, i, peer);
      StepSlotValue(Drain(h, init, userCommand), items[|items| - 1], h[0].slice, |h|, userCommand, i, peer);
    }
  }

  /** Two in-window items aim at the same slot of the same slice with different values. */
  predicate Conflict(x: Item, y: Item, first: int, length: int)
    requires WellFormed(x) && WellFormed(y)
  {
    && InWindow(x.slice, first, length) && x.slice == y.slice
    && x.command[1] == y.command[1] && x.command[2] != y.command[2]
  }

  /**
   * Delivery order decides a slot: of two conflicting items, the one
   * delivered last wins, so the two orders leave different histories.
   */
  lemma DeliveryOrderDecidesSlot<W, I>(h: seq<GameState<W, I>>, p: seq<Item>, x: Item, y: Item,
                                       userCommand: Option<seq<u16>>)
    requires |h| > 0
    requires forall k | 0 <= k < |p| :: WellFormed(p[k])
    requires WellFormed(x) && WellFormed(y) && Conflict(x, y, h[0].slice, |h|)
    ensures var i := x.slice.value as int - h[0].slice;
            var peer := x.command[1] as int;
            && StoredValue(Drain(h, p + [x, y], userCommand).history[i].commands, peer, userCommand) == Some(y.command[2])
            && StoredValue(Drain(h, p + [y, x], userCommand).history[i].commands, peer, userCommand) == Some(x.command[2])
  {
    var i := x.slice.value as int - h[0].slice;
    var peer := x.command[1] as int;
    DrainSlotValue(h, p + [x, y], userCommand, i, peer);
    DrainSlotValue(h, p + [y, x], userCommand, i, peer);
  }

  /**
   * Without a conflict, delivery order does not matter: swapping two adjacent
   * items leaves every slot holding the same value.
   */
  lemma SwapKeepsSlotValues<W, I>(h: seq<GameState<W, I>>, p: seq<Item>, x: Item, y: Item,
                                  userCommand: Option<seq<u16>>, i: int, peer: int)
    requires |h| > 0 && 0 <= i < |h|
    requires forall k | 0 <= k < |p| :: WellFormed(p[k])
    requires WellFormed(x) && WellFormed(y) && !Conflict(x, y, h[0].slice, |h|)
    ensures StoredValue(Drain(h, p + [x, y], userCommand).history[i].commands, peer, userCommand)
         == StoredValue(Drain(h, p + [y, x], userCommand).history[i].commands, peer, userCommand)
  {
    DrainSlotValue(h, p + [x, y], userCommand, i, peer);
    DrainSlotValue(h, p + [y, x], userCommand, i, peer);
    assert (p + [x, y])[..|p| + 1] == p + [x];
    assert (p + [y, x])[..|p| + 1] == p + [y];
    assert (p + [x])[..|p|] == p && (p + [y])[..|p|] == p;
  }

  /** One turn of the drain sets the slot its item aims at to the item's value and leaves every other slot alone. */
  lemma StepSlotValue<W, I>(d: DrainState<W, I>, item: Item, first: int, length: int,
                            userCommand: Option<seq<u16>>, i: int, peer: int)
    requires WellFormed(item) && |d.history| == length && 0 <= i < length
    ensures StoredValue(DrainStep(d, item, first, length, userCommand).history[i].commands, peer, userCommand)
         == if InWindow(item.slice, first, length) && item.slice.value as int == first + i && item.command[1] as int == peer
            then Some(item.command[2])
            else StoredValue(d.history[i].commands, peer, userCommand)
  {
  }

  /**
   * An item whose value equals the stored one changes nothing; any other
   * in-window item overwrites its slot with its own command array.
   */
  lemma DrainStepOutcome<W, I>(d: DrainState<W, I>, item: Item, first: int, length: int,
                               userCommand: Option<seq<u16>>)
    requires WellFormed(item) && |d.history| == length && InWindow(item.slice, first, length)
    ensures var gs := d.history[item.slice.value as int - first];
            var r := DrainStep(d, item, first, length, userCommand);
            (!Differs(Stored(gs.commands, item.command[1] as int, userCommand), item.command[2]) ==> r == d)
            && (Differs(Stored(gs.commands, item.command[1] as int, userCommand), item.command[2]) ==>
                  r.history[item.slice.value as int - first].commands
                  == gs.commands[item.command[1] as int := Received(item.command)])
  {
  }

  /** The slices, in drain order, whose slot an item changed while not being the newest slice. */
  function ChangedSlices<W, I>(h: seq<GameState<W, I>>, items: seq<Item>, userCommand: Option<seq<u16>>): (r: seq<int>)
    requires |h| > 0
    requires forall k | 0 <= k < |items| :: WellFormed(items[k])
    ensures forall k | 0 <= k < |r| :: h[0].slice <= r[k] < h[0].slice + |h| - 1
    decreases |items|
  {
    if items == [] then []
    else
      var init := items[..|items| - 1];
      var rest := ChangedSlices(h, init, userCommand);
      var x := items[|items| - 1];
      var d := Drain(h, init, userCommand);
      assert WellFormed(x);
      if Changes(d, x, h[0].slice, |h|, userCommand) then rest + [x.slice.value as int] else rest
  }

  /** The item lands in a slice other than the newest and changes the value stored there. */
  predicate Changes<W, I>(d: DrainState<W, I>, item: Item, first: int, length: int, userCommand: Option<seq<u16>>)
    requires WellFormed(item) && |d.history| == length
  {
    && InWindow(item.slice, first, length)
    && Differs(Stored(d.history[item.slice.value as int - first].commands, item.command[1] as int, userCommand), item.command[2])
    && (item.slice.value as int) < first + length - 1
  }

  /**
   * One turn can move the candidate only when its item changes a slice other
   * than the newest; it then moves by the truthiness rule of `UpdateCandidate`.
   */
  lemma StepCandidate<W, I>(d: DrainState<W, I>, item: Item, first: int, length: int, userCommand: Option<seq<u16>>)
    requires WellFormed(item) && |d.history| == length
    ensures DrainStep(d, item, first, length, userCommand).candidate
         == if Changes(d, item, first, length, userCommand) then UpdateCandidate(d.candidate, item.slice.value as int)
            else d.candidate
  {
  }

  /** The candidate fold of the drain loop over a sequence of changed slices. */
  function CandidateFold(s: seq<int>): (c: Option<int>)
    ensures c.Some? ==> c.value in s
    decreases |s|
  {
    if s == [] then None else UpdateCandidate(CandidateFold(s[..|s| - 1]), s[|s| - 1])
  }

  /** The drain's candidate is the candidate fold of its changed slices. */
  lemma {:induction false} DrainCandidate<W, I>(h: seq<GameState<W, I>>, items: seq<Item>, userCommand: Option<seq<u16>>)
    requires |h| > 0
    requires forall k | 0 <= k < |items| :: WellFormed(items[k])
    ensures Drain(h, items, userCommand).candidate == CandidateFold(ChangedSlices(h, items, userCommand))
    decreases |items|
  {
    if items != [] {
      var init := items[..|items| - 1];
      var x := items[|items| - 1];
      DrainCandidate(h, init, userCommand);
      var d0 := Drain(h, init, userCommand);
      var s0 := ChangedSlices(h, init, userCommand);
      assert WellFormed(x);
      assert Drain(h, items, userCommand) == DrainStep(d0, x, h[0].slice, |h|, userCommand);
      StepCandidate(d0, x, h[0].slice, |h|, userCommand);
      if Changes(d0, x, h[0].slice, |h|, userCommand) {
        var s := ChangedSlices(h, items, userCommand);
        assert s == s0 + [x.slice.value as int];
        assert s[..|s| - 1] == s0;
      }
    }
  }

  /** The slices after the last 0 in `s`. */
  function SinceLastZero(s: seq<int>): seq<int>
    decreases |s|
  {
    if s == [] then []
    else if s[|s| - 1] == 0 then []
    else SinceLastZero(s[..|s| - 1]) + [s[|s| - 1]]
  }

  /** The least element of a non-empty sequence. */
  function Min(s: seq<int>): int
    requires s != []
    decreases |s|
  {
    if |s| == 1 then s[0]
    else
      var m := Min(s[..|s| - 1]);
      if s[|s| - 1] < m then s[|s| - 1] else m
  }

  /**
   * The candidate the drain ends with: the least changed slice since the last
   * change at slice 0; a change at slice 0 discards every earlier candidate,
   * and with nothing after it there is no candidate.
   */
  lemma {:induction false} CandidateIsMinSinceLastZero(s: seq<int>)
    requires forall k | 0 <= k < |s| :: s[k] >= 0
    ensures var t := SinceLastZero(s);
            (Truthy(CandidateFold(s)) <==> t != []) && (t != [] ==> CandidateFold(s) == Some(Min(t)))
    decreases |s|
  {
    if s != [] {
      var init := s[..|s| - 1];
      CandidateIsMinSinceLastZero(init);
      var t0 := SinceLastZero(init);
      var c0 := CandidateFold(init);
      assert c0.Some? ==> c0.value >= 0;
      if s[|s| - 1] != 0 {
        var t := SinceLastZero(s);
        assert t == t0 + [s[|s| - 1]];
        if t0 != [] {
          assert t[..|t| - 1] == t0;
        } else {
          assert t == [s[|s| - 1]];
        }
      }
    }
  }

  /** With no change at slice 0, the candidate is the least changed slice (none if nothing changed). */
  lemma {:induction false} CandidateWithoutZero(s: seq<int>)
    requires forall k | 0 <= k < |s| :: s[k] > 0
    ensures s == [] ==> CandidateFold(s) == None
    ensures s != [] ==> CandidateFold(s) == Some(Min(s))
    decreases |s|
  {
    SinceLastZeroWithoutZero(s);
    CandidateIsMinSinceLastZero(s);
  }

  lemma {:induction false} SinceLastZeroWithoutZero(s: seq<int>)
    requires forall k | 0 <= k < |s| :: s[k] > 0
    ensures SinceLastZero(s) == s
    decreases |s|
  {
    if s != [] {
      SinceLastZeroWithoutZero(s[..|s| - 1]);
      assert s == s[..|s| - 1] + [s[|s| - 1]];
    }
  }

  /**
   * Delivery order decides whether history is rewritten: a change at a slice
   * `a > 0` followed by one at slice 0 leaves no truthy candidate, while the
   * reverse order leaves the candidate `a`.
   */
  lemma DeliveryOrderDecidesRewrite(s: seq<int>, a: int)
    requires forall k | 0 <= k < |s| :: s[k] >= 0
    requires a > 0
    ensures !Truthy(CandidateFold(s + [a, 0]))
    ensures CandidateFold(s + [0, a]) == Some(a)
  {
    SliceZeroDiscardsEarlierCandidate(s + [a], []);
    assert s + [a] + [0] == s + [a, 0];
    SliceZeroDiscardsEarlierCandidate(s, [a]);
    assert s + [0] + [a] == s + [0, a];
    assert [a][..0] == [];
  }

  /**
   * A change at slice 0 discards every earlier candidate: right after it the
   * candidate is 0, which is falsy, and whatever changes follow fold exactly
   * as if nothing had come before.
   */
  lemma {:induction false} SliceZeroDiscardsEarlierCandidate(s: seq<int>, t: seq<int>)
    requires forall k | 0 <= k < |s| :: s[k] >= 0
    ensures CandidateFold(s + [0]) == Some(0) && !Truthy(CandidateFold(s + [0]))
    ensures t != [] ==> CandidateFold(s + [0] + t) == CandidateFold(t)
    decreases |t|
  {
    assert (s + [0])[..|s|] == s;
    if |t| == 1 {
      assert (s + [0] + t)[..|s| + 1] == s + [0];
      assert t[..0] == [];
    } else if |t| > 1 {
      var t' := t[..|t| - 1];
      SliceZeroDiscardsEarlierCandidate(s, t');
      assert (s + [0] + t)[..|s| + |t|] == s + [0] + t';
    }
  }
}
