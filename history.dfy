/**
 * The bounded, slice-contiguous history of game states kept by the
 * multiplayer scene, and the two ways a state is derived from its
 * predecessor: appending a new slice and recomputing an existing one during
 * a rewrite of history.
 */
module History {
  import opened Wrappers
  import opened Wire

  /** Milliseconds of simulated time per slice. */
  const TIMESLICE: int := 100
  /** Slices the displayed state trails the newest one. */
  const RENDER_DELAY: int := 2
  /** The most states the history keeps. */
  const HISTORY_CAP: int := 1000

  /**
   * A peer's slot in a state's `commands` array. `Local` is the scene's one
   * `userCommand` array, stored by reference: its value is whatever that
   * array holds when the slot is read. `Received` holds a buffered command's
   * own word array.
   */
  datatype Slot = Local | Received(words: seq<u16>)

  /**
   * One entry of the history. `commands` is a sparse array: a peer without
   * a key has no command (`undefined`).
   */
  datatype GameState<W, I> = GameState(
    slice: int,
    time: int,
    world: W,
    commands: map<int, Slot>,
    randomPointer: int,
    info: I)

  /**
   * The world, the game hooks and `world.step`, as one function: from the
   * predecessor's world, info, random pointer and commands (by peer index)
   * to the successor's world, info and random pointer.
   */
  type StepFn<!W, !I> = (W, I, int, map<nat, seq<u16>>) -> (W, I, int)

  /** The command array a slot holds, reading `Local` through `userCommand`. */
  function Stored(commands: map<int, Slot>, peer: int, userCommand: Option<seq<u16>>): Option<seq<u16>>
  {
    if peer !in commands then None
    else match commands[peer]
      case Local => userCommand
      case Received(w) => Some(w)
  }

  /**
   * The commands the step function sees: the array indices that hold a
   * command, each with the command array it holds at this moment.
   */
  function Resolve(commands: map<int, Slot>, userCommand: Option<seq<u16>>): (r: map<nat, seq<u16>>)
    ensures forall k: nat :: k in r <==> Stored(commands, k, userCommand).Some?
    ensures forall k: nat | k in r :: Some(r[k]) == Stored(commands, k, userCommand)
  {
    map k: nat | k in commands && Stored(commands, k, userCommand).Some? :: Stored(commands, k, userCommand).value
  }

  /**
   * A shared slot follows the local command: once `userCommand` changes, every
   * state whose slot is `Local` hands the new command to the step function,
   * also when an old slice is recomputed.
   */
  lemma LocalSlotFollowsUserCommand(commands: map<int, Slot>, peer: nat, before: seq<u16>, after: seq<u16>)
    requires peer in commands && commands[peer] == Local
    ensures Resolve(commands, Some(before))[peer] == before
    ensures Resolve(commands, Some(after))[peer] == after
  {
    assert Stored(commands, peer, Some(before)) == Some(before);
    assert Stored(commands, peer, Some(after)) == Some(after);
  }

  /**
   * `nextGameState` on an existing successor (a rewrite): world, info and
   * random pointer come from the step applied to the predecessor; the
   * successor keeps its slice, time and commands.
   */
  function Recompute<W, I>(step: StepFn<W, I>, userCommand: Option<seq<u16>>,
                           pred: GameState<W, I>, succ: GameState<W, I>): (r: GameState<W, I>)
    ensures r.slice == succ.slice && r.time == succ.time && r.commands == succ.commands
    ensures (r.world, r.info, r.randomPointer)
         == step(pred.world, pred.info, pred.randomPointer, Resolve(pred.commands, userCommand))
  {
    var (w, i, p) := step(pred.world, pred.info, pred.randomPointer, Resolve(pred.commands, userCommand));
    succ.(world := w, info := i, randomPointer := p)
  }

  /**
   * `nextGameState` appending a new state: one slice and one TIMESLICE later
   * than the predecessor, with only the local peer's slot filled, and that
   * slot shares `userCommand`.
   */
  function NextState<W, I>(step: StepFn<W, I>, userCommand: Option<seq<u16>>, myIndex: int,
                           pred: GameState<W, I>): (r: GameState<W, I>)
    ensures r.slice == pred.slice + 1 && r.time == pred.time + TIMESLICE
    ensures r.commands == map[myIndex := Local]
    ensures (r.world, r.info, r.randomPointer)
         == step(pred.world, pred.info, pred.randomPointer, Resolve(pred.commands, userCommand))
  {
    var (w, i, p) := step(pred.world, pred.info, pred.randomPointer, Resolve(pred.commands, userCommand));
    GameState(pred.slice + 1, pred.time + TIMESLICE, w, map[myIndex := Local], p, i)
  }

  /**
   * The i-th state built to fill a gap after `latest`: a new empty world, no
   * commands, and `latest`'s random pointer and info.
   */
  function Filler<W, I>(latest: GameState<W, I>, i: int, emptyWorld: W): (r: GameState<W, I>)
    ensures r.slice == latest.slice + i && r.time == latest.time + i * TIMESLICE
    ensures r.commands == map[]
  {
    GameState(latest.slice + i, latest.time + i * TIMESLICE, emptyWorld, map[],
              latest.randomPointer, latest.info)
  }

  /** The fillers 1 .. n after `latest`, in order. */
  function Fillers<W, I>(latest: GameState<W, I>, n: nat, emptyWorld: W): (r: seq<GameState<W, I>>)
    ensures |r| == n
    ensures forall j | 0 <= j < n :: r[j] == Filler(latest, j + 1, emptyWorld)
  {
    seq(n, j requires 0 <= j < n => Filler(latest, j + 1, emptyWorld))
  }

  /** Each entry is one slice after the one before it. */
  ghost predicate Contiguous<W, I>(h: seq<GameState<W, I>>) {
    forall i | 0 <= i < |h| :: h[i].slice == h[0].slice + i
  }

  /** Each entry's time is the start time plus its slice's worth of TIMESLICEs. */
  ghost predicate Aligned<W, I>(timeToStart: int, h: seq<GameState<W, I>>) {
    forall i | 0 <= i < |h| :: h[i].time == timeToStart + h[i].slice * TIMESLICE
  }

  /** `Array.prototype.findIndex` by slice: the first index holding `slice`, or -1. */
  function FindSliceIndex<W, I>(h: seq<GameState<W, I>>, slice: int): (r: int)
    ensures -1 <= r < |h|
    ensures r >= 0 ==> h[r].slice == slice && forall j | 0 <= j < r :: h[j].slice != slice
    ensures r == -1 ==> forall j | 0 <= j < |h| :: h[j].slice != slice
  {
    if |h| == 0 then -1
    else if h[0].slice == slice then 0
    else
      var k := FindSliceIndex(h[1..], slice);
      if k == -1 then -1 else k + 1
  }

  /** In a contiguous history, a slice is found exactly at its offset from the first slice. */
  lemma FindSliceInContiguous<W, I>(h: seq<GameState<W, I>>, slice: int)
    requires |h| > 0 && Contiguous(h)
    ensures FindSliceIndex(h, slice)
         == if h[0].slice <= slice < h[0].slice + |h| then slice - h[0].slice else -1
  {
    if h[0].slice <= slice < h[0].slice + |h| {
      assert h[slice - h[0].slice].slice == slice;
    }
  }

  /**
   * The `while` loop of `rewriteHistory`: from `index` on, each successor is
   * recomputed from its (already recomputed) predecessor, in index order; a
   * negative index (slice not found) changes nothing.
   */
  function RewriteFrom<W, I>(step: StepFn<W, I>, userCommand: Option<seq<u16>>,
                             h: seq<GameState<W, I>>, index: int): (r: seq<GameState<W, I>>)
    ensures |r| == |h|
    decreases |h| - index
  {
    if 0 <= index < |h| - 1 then
      RewriteFrom(step, userCommand, h[index + 1 := Recompute(step, userCommand, h[index], h[index + 1])], index + 1)
    else
      h
  }

  /** The states a peer computes forward from `base`, one per entry of `later`, keeping each entry's slice, time and commands. */
  function Replay<W, I>(step: StepFn<W, I>, userCommand: Option<seq<u16>>,
                        base: GameState<W, I>, later: seq<GameState<W, I>>): (r: seq<GameState<W, I>>)
    ensures |r| == |later|
    decreases |later|
  {
    if later == [] then []
    else
      var next := Recompute(step, userCommand, base, later[0]);
      [next] + Replay(step, userCommand, next, later[1..])
  }

  /**
   * Rewriting from an index found in the history keeps every entry up to it
   * and replaces the rest by a forward replay from it.
   */
  lemma {:induction false} RewriteIsReplay<W, I>(step: StepFn<W, I>, userCommand: Option<seq<u16>>,
                                                 h: seq<GameState<W, I>>, index: int)
    requires 0 <= index < |h|
    ensures RewriteFrom(step, userCommand, h, index)
         == h[..index + 1] + Replay(step, userCommand, h[index], h[index + 1..])
    decreases |h| - index
  {
    if index < |h| - 1 {
      var next := Recompute(step, userCommand, h[index], h[index + 1]);
      var h' := h[index + 1 := next];
      RewriteIsReplay(step, userCommand, h', index + 1);
      assert h'[..index + 2] == h[..index + 1] + [next];
      assert h'[index + 2..] == h[index + 2..];
      assert h[index + 1..][1..] == h[index + 2..];
    } else {
      assert h[index + 1..] == [];
    }
  }

  /**
   * What a rewrite promises: the same length; every entry keeps its slice,
   * time and commands; entries up to the start are untouched; each later
   * entry is recomputed from the entry before it; a start not in
   * `0 .. |h|-2` leaves the history as it was.
   */
  lemma {:induction false} RewriteShape<W, I>(step: StepFn<W, I>, userCommand: Option<seq<u16>>,
                                              h: seq<GameState<W, I>>, index: int)
    ensures var r := RewriteFrom(step, userCommand, h, index);
      && |r| == |h|
      && (forall j | 0 <= j < |h| ::
            r[j].slice == h[j].slice && r[j].time == h[j].time && r[j].commands == h[j].commands)
      && (forall j | 0 <= j < |h| && j <= index :: r[j] == h[j])
      && (forall j | 0 <= index < j < |h| :: r[j] == Recompute(step, userCommand, r[j - 1], h[j]))
      && (!(0 <= index < |h| - 1) ==> r == h)
    decreases |h| - index
  {
    if 0 <= index < |h| - 1 {
      var h' := h[index + 1 := Recompute(step, userCommand, h[index], h[index + 1])];
      RewriteShape(step, userCommand, h', index + 1);
    }
  }

  /** Two states the step function cannot tell apart, each read with its own peer's local command. */
  ghost predicate SameInputs<W, I>(a: GameState<W, I>, ua: Option<seq<u16>>,
                                   b: GameState<W, I>, ub: Option<seq<u16>>) {
    a.world == b.world && a.info == b.info && a.randomPointer == b.randomPointer
    && Resolve(a.commands, ua) == Resolve(b.commands, ub)
  }

  /** Two entries for the same slice and time holding the same commands. */
  ghost predicate SameSchedule<W, I>(a: GameState<W, I>, ua: Option<seq<u16>>,
                                     b: GameState<W, I>, ub: Option<seq<u16>>) {
    a.slice == b.slice && a.time == b.time && Resolve(a.commands, ua) == Resolve(b.commands, ub)
  }

  /**
   * Rollback convergence: two peers that agree on a base state and on the
   * commands of every later slice compute the same later states, whatever
   * worlds those entries held before.
   */
  lemma {:induction false} ReplayConverges<W, I>(step: StepFn<W, I>,
                                                 ua: Option<seq<u16>>, baseA: GameState<W, I>, laterA: seq<GameState<W, I>>,
                                                 ub: Option<seq<u16>>, baseB: GameState<W, I>, laterB: seq<GameState<W, I>>)
    requires SameInputs(baseA, ua, baseB, ub)
    requires |laterA| == |laterB|
    requires forall j | 0 <= j < |laterA| :: SameSchedule(laterA[j], ua, laterB[j], ub)
    ensures var ra := Replay(step, ua, baseA, laterA);
            var rb := Replay(step, ub, baseB, laterB);
            forall j | 0 <= j < |ra| :: SameInputs(ra[j], ua, rb[j], ub) && ra[j].slice == rb[j].slice && ra[j].time == rb[j].time
    decreases |laterA|
  {
    if laterA != [] {
      var na := Recompute(step, ua, baseA, laterA[0]);
      var nb := Recompute(step, ub, baseB, laterB[0]);
      assert SameInputs(na, ua, nb, ub);
      ReplayConverges(step, ua, na, laterA[1..], ub, nb, laterB[1..]);
      var ra := Replay(step, ua, baseA, laterA);
      var rb := Replay(step, ub, baseB, laterB);
      assert ra == [na] + Replay(step, ua, na, laterA[1..]);
      assert rb == [nb] + Replay(step, ub, nb, laterB[1..]);
      forall j | 0 <= j < |ra|
        ensures SameInputs(ra[j], ua, rb[j], ub) && ra[j].slice == rb[j].slice && ra[j].time == rb[j].time
      {
        if j > 0 {
          assert ra[j] == Replay(step, ua, na, laterA[1..])[j - 1];
          assert rb[j] == Replay(step, ub, nb, laterB[1..])[j - 1];
        }
      }
    }
  }

  /**
   * The `while` loop that cleans old history: drop the front entry while more
   * than HISTORY_CAP remain.
   */
  function Evict<T>(h: seq<T>): (r: seq<T>)
    decreases |h|
  {
    if |h| > HISTORY_CAP then Evict(h[1..]) else h
  }

  /** Eviction keeps exactly the newest `min(|h|, HISTORY_CAP)` entries. */
  lemma {:induction false} EvictKeepsNewest<T>(h: seq<T>)
    ensures |h| <= HISTORY_CAP ==> Evict(h) == h
    ensures |h| > HISTORY_CAP ==> Evict(h) == h[|h| - HISTORY_CAP..]
    decreases |h|
  {
    if |h| > HISTORY_CAP {
      EvictKeepsNewest(h[1..]);
      assert h[1..][|h| - 1 - HISTORY_CAP..] == h[|h| - HISTORY_CAP..];
    }
  }

  /** Where the scene renders from: RENDER_DELAY + 1 entries before the end, once there are that many. */
  function RenderIndex(length: nat): (r: nat)
    ensures length > 0 ==> r < length
    ensures length > RENDER_DELAY + 1 ==> length - r == RENDER_DELAY + 1
  {
    if length > RENDER_DELAY + 1 then length - (RENDER_DELAY + 1) else 0
  }
}
