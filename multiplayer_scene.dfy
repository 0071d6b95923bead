/**
 * The lockstep/rollback scene: a class holding the history, the command
 * buffer, the shared local command and the memoised random values, with
 * the methods that change them in place.
 */
module Multiplayer {
  import opened Wrappers
  import opened Wire
  import opened History
  import opened CommandBuffer
  import opened RandomValues
  import opened Scheduler

  /** `peers.findIndex(peer => peer.uuid == uuid)`: the first index, or -1. */
  function IndexOf(peers: seq<string>, uuid: string): (r: int)
    ensures -1 <= r < |peers|
    ensures r >= 0 ==> peers[r] == uuid && forall j | 0 <= j < r :: peers[j] != uuid
    ensures r == -1 <==> uuid !in peers
  {
    if peers == [] then -1
    else if peers[0] == uuid then 0
    else
      var k := IndexOf(peers[1..], uuid);
      assert peers == [peers[0]] + peers[1..];
      if k == -1 then -1 else k + 1
  }

  /**
   * The outgoing-command rule of `update`: the local command is (re)sent
   * when the stored value is 0 (a fresh array holds zeros) or differs from
   * the value just read.
   */
  function OutgoingCommand(previous: Option<seq<u16>>, value: u16, myIndex: int, latestSlice: int): (r: Option<seq<u16>>)
    requires previous.Some? ==> |previous.value| == 4
    ensures r.Some? ==> r.value == Outgoing(myIndex, value, latestSlice)
  {
    var stored: u16 := if previous.Some? then previous.value[2] else 0;
    if stored == 0 || stored != value then Some(Outgoing(myIndex, value, latestSlice)) else None
  }

  /**
   * Nothing is sent exactly when an existing local command already holds the
   * same non-zero value; in particular an idle player (value 0) resends on
   * every frame.
   */
  lemma OutgoingCommandRule(previous: Option<seq<u16>>, value: u16, myIndex: int, latestSlice: int)
    requires previous.Some? ==> |previous.value| == 4
    ensures OutgoingCommand(previous, value, myIndex, latestSlice).None?
        <==> previous.Some? && previous.value[2] == value && value != 0
    ensures value == 0 ==> OutgoingCommand(previous, value, myIndex, latestSlice).Some?
  {
  }

  /**
   * One turn of the drain loop: an item whose slice lies in the window of
   * `history` (first slice `first`) is taken; when its value differs from the
   * stored command of its sender, it is stored (as received) in the state of
   * its slice, and the candidate moves to that slice when the slice is not
   * the newest and is earlier than a truthy candidate.
   */
  method MergeCommand<W, I>(history: seq<GameState<W, I>>, candidate: Option<int>, item: Item, first: int,
                            userCommand: Option<seq<u16>>)
    returns (history': seq<GameState<W, I>>, candidate': Option<int>, taken: bool)
    requires WellFormed(item)
    ensures taken == InWindow(item.slice, first, |history|)
    ensures DrainState(history', candidate') == DrainStep(DrainState(history, candidate), item, first, |history|, userCommand)
  {
    history', candidate' := history, candidate;
    var length := |history|;
    taken := item.slice.Some? && item.slice.value as int >= first && (item.slice.value as int) < first + length;
    if taken {
      var gameState := history[item.slice.value as int - first];
      var origin := item.command[1] as int;
      if Differs(Stored(gameState.commands, origin, userCommand), item.command[2]) {
        if (item.slice.value as int) < first + length - 1
           && (!Truthy(candidate) || candidate.value > item.slice.value as int) {
          candidate' := Some(item.slice.value as int);
        }
        history' := history[item.slice.value as int - first
                            := gameState.(commands := gameState.commands[origin := Received(item.command)])];
      }
    }
  }

  /**
   * The drain loop of `loadCommandsIntoGameStates`: scan the buffer once,
   * merging and taking out every item whose slice lies in the window of
   * `history`, and fold the earliest changed slice into the candidate.
   */
  method DrainBuffer<W, I>(history0: seq<GameState<W, I>>, buffer0: seq<Item>, userCommand: Option<seq<u16>>)
    returns (history: seq<GameState<W, I>>, buffer: seq<Item>, rewriteFromSlice: Option<int>)
    requires |history0| > 0
    requires forall k | 0 <= k < |buffer0| :: WellFormed(buffer0[k])
    ensures DrainState(history, rewriteFromSlice) == Drain(history0, buffer0, userCommand)
    ensures buffer == Remaining(history0[0].slice, |history0|, buffer0)
  {
    history, buffer := history0, buffer0;
    var historyLength := |history|;
    var firstSlice := history[0].slice;
    var commandBufferSize := |buffer|;
    var removed := 0;
    rewriteFromSlice := None;
    for index := 0 to commandBufferSize
      invariant 0 <= removed <= index
      invariant buffer == Remaining(firstSlice, historyLength, buffer0[..index]) + buffer0[index..]
      invariant |Remaining(firstSlice, historyLength, buffer0[..index])| == index - removed
      invariant Drain(history0, buffer0[..index], userCommand) == DrainState(history, rewriteFromSlice)
    {
      ScanStep(firstSlice, historyLength, buffer0, index, buffer, removed);
      DrainSnoc(history0, buffer0, index, userCommand);
      var item := buffer[index - removed];
      var taken;
      history, rewriteFromSlice, taken := MergeCommand(history, rewriteFromSlice, item, firstSlice, userCommand);
      if taken {
        buffer := buffer[..index - removed] + buffer[index - removed + 1..];
        removed := removed + 1;
      }
    }
    assert buffer0[..commandBufferSize] == buffer0;
  }

  /**
   * The filler loop of `doStep`: for `i` from 1 while `i < toBuild`, push the
   * i-th filler after `latest`, so `toBuild - 1` fillers in all.
   */
  method AppendFillers<W, I>(history: seq<GameState<W, I>>, latest: GameState<W, I>, toBuild: int, emptyWorld: W)
    returns (r: seq<GameState<W, I>>)
    ensures r == history + Fillers(latest, if toBuild > 1 then toBuild - 1 else 0, emptyWorld)
  {
    r := history;
    var i := 1;
    while i < toBuild
      invariant 1 <= i <= if toBuild > 1 then toBuild else 1
      invariant r == history + Fillers(latest, i - 1, emptyWorld)
      decreases toBuild - i
    {
      r := r + [Filler(latest, i, emptyWorld)];
      assert Fillers(latest, i, emptyWorld) == Fillers(latest, i - 1, emptyWorld) + [Filler(latest, i, emptyWorld)];
      i := i + 1;
    }
    assert i - 1 == if toBuild > 1 then toBuild - 1 else 0;
  }

  /** The eviction loop of `doStep`: drop the oldest entry while more than `HISTORY_CAP` are kept. */
  method EvictOldest<T>(history: seq<T>) returns (r: seq<T>)
    ensures r == Evict(history)
  {
    r := history;
    while |r| > HISTORY_CAP
      invariant Evict(r) == Evict(history)
      decreases |r|
    {
      r := r[1..];
    }
  }

  /**
   * The rewrite loop of `rewriteHistory`: from `index` while it is not the
   * newest entry, recompute the next state from the current one.
   */
  method RewriteLoop<W, I>(step: StepFn<W, I>, userCommand: Option<seq<u16>>, history: seq<GameState<W, I>>, index: int)
    returns (r: seq<GameState<W, I>>)
    ensures r == RewriteFrom(step, userCommand, history, index)
  {
    r := history;
    var i := index;
    while i >= 0 && i < |r| - 1
      invariant |r| == |history|
      invariant RewriteFrom(step, userCommand, r, i) == RewriteFrom(step, userCommand, history, index)
      decreases |r| - i
    {
      r := r[i + 1 := Recompute(step, userCommand, r[i], r[i + 1])];
      i := i + 1;
    }
  }

  /**
   * The gap filling of `doStep`: when `timestamp` is at least one slice past
   * the due time of the newest state, build `ceil(gap / TIMESLICE)` minus one
   * fillers after it.
   */
  method FillGaps<W, I>(timeToStart: int, emptyWorld: W, history: seq<GameState<W, I>>, timestamp: int)
    returns (h: seq<GameState<W, I>>)
    requires |history| > 0
    ensures h == Filled(timeToStart, emptyWorld, history, timestamp)
  {
    var latest := history[|history| - 1];
    var latestTimestamp := timeToStart + (1 + latest.slice) * TIMESLICE;
    h := history;
    var gapsInHistory := timestamp >= latestTimestamp + TIMESLICE;
    if gapsInHistory {
      var gamestatesToBuild := CeilDiv(timestamp - latestTimestamp, TIMESLICE);
      h := AppendFillers(h, latest, gamestatesToBuild, emptyWorld);
    }
  }

  /**
   * The first part of `doStep` once the next slice is due: fill the gap
   * after the newest state, merge the buffered commands and rewrite history
   * from the picked state.
   */
  method FillMergeRewrite<W, I>(timeToStart: int, emptyWorld: W, step: StepFn<W, I>,
                                history: seq<GameState<W, I>>, buffer: seq<Item>, userCommand: Option<seq<u16>>,
                                timestamp: int)
    returns (h: seq<GameState<W, I>>, b: seq<Item>)
    requires WellShaped(timeToStart, history)
    requires forall k | 0 <= k < |buffer| :: WellFormed(buffer[k])
    ensures h == Rewritten(timeToStart, emptyWorld, step, history, buffer, userCommand, timestamp)
    ensures var filled := Filled(timeToStart, emptyWorld, history, timestamp);
            |filled| > 0 && b == Remaining(filled[0].slice, |filled|, buffer)
  {
    var latestIndex := |history| - 1;
    var latest := history[latestIndex];
    var latestTimestamp := timeToStart + (1 + latest.slice) * TIMESLICE;
    var gapsInHistory := timestamp >= latestTimestamp + TIMESLICE;
    h := FillGaps(timeToStart, emptyWorld, history, timestamp);
    ghost var filled := h;
    var firstSlice := h[0].slice;
    var rewriteFromSlice;
    h, b, rewriteFromSlice := DrainBuffer(h, buffer, userCommand);
    ghost var d := Drain(filled, buffer, userCommand);
    var rewriteHistoryFrom := if Truthy(rewriteFromSlice) then Some(h[rewriteFromSlice.value - firstSlice]) else None;
    assert rewriteHistoryFrom == Returned(firstSlice, d);
    if gapsInHistory && (rewriteHistoryFrom.None? || h[latestIndex].slice < rewriteHistoryFrom.value.slice) {
      rewriteHistoryFrom := Some(h[latestIndex]);
    }
    if rewriteHistoryFrom.Some? {
      h := RewriteLoop(step, userCommand, h, FindSliceIndex(h, rewriteHistoryFrom.value.slice));
    }
    assert gapsInHistory == Gap(timestamp, Due(timeToStart, latest.slice));
    PickedStartRewrites(timeToStart, emptyWorld, step, history, buffer, userCommand, timestamp);
  }

  /**
   * `doStep` once the next slice is due: fill, merge and rewrite, then append
   * the next state and evict the oldest ones.
   */
  method AdvanceHistory<W, I>(timeToStart: int, myIndex: int, emptyWorld: W, step: StepFn<W, I>,
                              history: seq<GameState<W, I>>, buffer: seq<Item>, userCommand: Option<seq<u16>>,
                              timestamp: int)
    returns (h: seq<GameState<W, I>>, b: seq<Item>)
    requires WellShaped(timeToStart, history)
    requires forall k | 0 <= k < |buffer| :: WellFormed(buffer[k])
    requires timestamp >= Due(timeToStart, history[|history| - 1].slice)
    ensures (h, b) == Advanced(timeToStart, myIndex, emptyWorld, step, history, buffer, userCommand, timestamp)
    ensures forall k | 0 <= k < |b| :: WellFormed(b[k])
  {
    var rewritten;
    rewritten, b := FillMergeRewrite(timeToStart, emptyWorld, step, history, buffer, userCommand, timestamp);
    RewrittenShape(timeToStart, emptyWorld, step, history, buffer, userCommand, timestamp);
    var next := NextState(step, userCommand, myIndex, rewritten[|rewritten| - 1]);
    h := EvictOldest(rewritten + [next]);
    AdvancedWhenDue(timeToStart, myIndex, emptyWorld, step, history, buffer, userCommand, timestamp, rewritten, next);
    ghost var filled := Filled(timeToStart, emptyWorld, history, timestamp);
    RemainingMembers(filled[0].slice, |filled|, buffer);
  }

  /**
   * What holds of a scene between frames: the history is well shaped, the
   * render index trails the newest state by the render delay, every buffered
   * item is well formed and the local command has four words.
   */
  ghost predicate Consistent<W, I>(timeToStart: int, history: seq<GameState<W, I>>, renderIdx: nat,
                                   buffer: seq<Item>, userCommand: Option<seq<u16>>) {
    && WellShaped(timeToStart, history)
    && renderIdx == RenderIndex(|history|)
    && (forall k | 0 <= k < |buffer| :: WellFormed(buffer[k]))
    && (userCommand.Some? ==> |userCommand.value| == 4)
  }

  /** Draining the buffer into the history keeps the scene consistent. */
  lemma DrainKeepsConsistent<W, I>(timeToStart: int, history: seq<GameState<W, I>>, renderIdx: nat,
                                   buffer: seq<Item>, userCommand: Option<seq<u16>>)
    requires Consistent(timeToStart, history, renderIdx, buffer, userCommand)
    ensures Consistent(timeToStart, Drain(history, buffer, userCommand).history, renderIdx,
                       Remaining(history[0].slice, |history|, buffer), userCommand)
  {
    DrainKeepsShape(timeToStart, history, buffer, userCommand);
    RemainingMembers(history[0].slice, |history|, buffer);
  }

  class MultiplayerScene<W, I> {
    const timeToStart: int
    const peers: seq<string>
    const myUUID: string
    const myIndex: int
    /** The world a filler state gets: `new Phaser.Physics.Arcade.World(this, {})`. */
    const emptyWorld: W
    const step: StepFn<W, I>
    const draw: Stream

    var peersDisconnected: seq<string>
    var gameHistory: seq<GameState<W, I>>
    var renderGameStateIdx: nat
    var commandBuffer: seq<Item>
    /** The one local command array, shared by every `Local` slot. */
    var userCommand: Option<seq<u16>>
    var randomValues: seq<int>
    var running: bool

    predicate BufferWellFormed()
      reads this
    {
      forall k | 0 <= k < |commandBuffer| :: WellFormed(commandBuffer[k])
    }

    ghost predicate Valid()
      reads this
    {
      Consistent(timeToStart, gameHistory, renderGameStateIdx, commandBuffer, userCommand)
    }

    /** The newest state, which `latestGameState` refers to between steps. */
    function LatestGameState(): GameState<W, I>
      reads this
      requires |gameHistory| > 0
    {
      gameHistory[|gameHistory| - 1]
    }

    /**
     * The scene's constructor followed by `create`: the history holds the
     * initial state at slice 0 and time `timeToStart`, with random pointer -1
     * and no commands.
     */
    constructor (timeToStart: int, peers: seq<string>, myUUID: string, emptyWorld: W,
                 step: StepFn<W, I>, draw: Stream, initialWorld: W, initialInfo: I)
      ensures Valid()
      ensures this.timeToStart == timeToStart && this.peers == peers && this.myUUID == myUUID
      ensures myIndex == IndexOf(peers, myUUID)
      ensures this.emptyWorld == emptyWorld && this.step == step && this.draw == draw
      ensures gameHistory == [GameState(0, timeToStart, initialWorld, map[], -1, initialInfo)]
      ensures renderGameStateIdx == 0 && commandBuffer == [] && randomValues == []
      ensures userCommand == None && !running && peersDisconnected == []
    {
      this.timeToStart := timeToStart;
      this.peers := peers;
      this.myUUID := myUUID;
      this.myIndex := IndexOf(peers, myUUID);
      this.emptyWorld := emptyWorld;
      this.step := step;
      this.draw := draw;
      peersDisconnected := [];
      commandBuffer := [];
      randomValues := [];
      running := false;
      userCommand := None;
      gameHistory := [GameState(0, timeToStart, initialWorld, map[], -1, initialInfo)];
      renderGameStateIdx := 0;
    }

    /**
     * Advance the simulation to `timestamp`: nothing before the next slice is
     * due; otherwise fill gaps, merge buffered commands, rewrite history from
     * the earliest changed state, append one state and evict old ones.
     */
    method DoStep(timestamp: int)
      requires Valid()
      modifies this`gameHistory, this`commandBuffer, this`renderGameStateIdx
      ensures Valid()
      ensures (gameHistory, commandBuffer)
           == Advanced(timeToStart, myIndex, emptyWorld, step, old(gameHistory), old(commandBuffer), userCommand, timestamp)
      ensures timestamp < Due(timeToStart, old(LatestGameState()).slice) ==>
                gameHistory == old(gameHistory) && commandBuffer == old(commandBuffer)
                && renderGameStateIdx == old(renderGameStateIdx)
      ensures |gameHistory| >= |old(gameHistory)|
    {
      var latestTimestamp := timeToStart + (1 + gameHistory[|gameHistory| - 1].slice) * TIMESLICE;
      if timestamp >= latestTimestamp {
        ghost var history0 := gameHistory;
        gameHistory, commandBuffer := AdvanceHistory(timeToStart, myIndex, emptyWorld, step,
                                                     gameHistory, commandBuffer, userCommand, timestamp);
        assert WellShaped(timeToStart, gameHistory) && |gameHistory| >= |history0| by {
          AdvanceKeepsShape(timeToStart, myIndex, emptyWorld, step, history0, old(commandBuffer), userCommand, timestamp);
        }
        if |gameHistory| > RENDER_DELAY + 1 {
          renderGameStateIdx := |gameHistory| - (RENDER_DELAY + 1);
        }
      }
    }

    /**
     * One frame: start running once `timeToStart` has passed; while running,
     * apply the outgoing-command rule to the value read from the input and
     * then step.
     */
    method Update(timestamp: int, commandValue: u16) returns (sent: Option<seq<u16>>)
      requires Valid()
      modifies this`running, this`userCommand, this`gameHistory, this`commandBuffer, this`renderGameStateIdx
      ensures Valid()
      ensures running == (old(running) || timestamp >= timeToStart)
      ensures !running ==> sent.None? && userCommand == old(userCommand)
                           && gameHistory == old(gameHistory) && commandBuffer == old(commandBuffer)
      ensures running ==>
                sent == OutgoingCommand(old(userCommand), commandValue, myIndex, old(LatestGameState()).slice)
                && userCommand == (if sent.Some? then sent else old(userCommand))
                && (gameHistory, commandBuffer)
                   == Advanced(timeToStart, myIndex, emptyWorld, step, old(gameHistory), old(commandBuffer), userCommand, timestamp)
    {
      if !running && timestamp >= timeToStart {
        running := true;
      }
      if !running {
        return None;
      }
      sent := RunningFrame(timestamp, commandValue);
    }

    /** The running part of a frame: send the local command when the rule fires, then step. */
    method RunningFrame(timestamp: int, commandValue: u16) returns (sent: Option<seq<u16>>)
      requires Valid()
      modifies this`userCommand, this`gameHistory, this`commandBuffer, this`renderGameStateIdx
      ensures Valid()
      ensures sent == OutgoingCommand(old(userCommand), commandValue, myIndex, old(LatestGameState()).slice)
      ensures userCommand == (if sent.Some? then sent else old(userCommand))
      ensures (gameHistory, commandBuffer)
           == Advanced(timeToStart, myIndex, emptyWorld, step, old(gameHistory), old(commandBuffer), userCommand, timestamp)
    {
      sent := SendLocalCommand(commandValue);
      DoStep(timestamp);
    }

    /**
     * The outgoing-command rule: when it fires, the shared local command array
     * is overwritten in place with `[0, myIndex, value, latest slice]` and
     * that array is broadcast.
     */
    method SendLocalCommand(commandValue: u16) returns (sent: Option<seq<u16>>)
      requires Valid()
      modifies this`userCommand
      ensures Valid()
      ensures sent == OutgoingCommand(old(userCommand), commandValue, myIndex, LatestGameState().slice)
      ensures userCommand == if sent.Some? then sent else old(userCommand)
    {
      var stored: u16 := if userCommand.Some? then userCommand.value[2] else 0;
      if stored == 0 || stored != commandValue {
        userCommand := Some([KIND_INPUT, ToUint16(myIndex), commandValue, ToUint16(LatestGameState().slice)]);
        sent := userCommand;
      } else {
        sent := None;
      }
    }

    /** A received body of kind 0 is appended to the buffer; any other body is ignored. */
    method MessageReceived(uuid: string, body: seq<u16>)
      requires Valid()
      modifies this`commandBuffer
      ensures Valid()
      ensures commandBuffer == old(commandBuffer) + match BufferedItem(body) case Some(item) => [item] case None => []
    {
      if |body| > 0 && body[0] == KIND_INPUT {
        commandBuffer := commandBuffer + [Item(if |body| >= 4 then Some(body[3]) else None, body)];
      }
    }

    /**
     * Merge the buffered commands whose slice lies in the history window into
     * their states, take them out of the buffer, and return the state at the
     * earliest changed slice that is not the newest (none when that slice is
     * 0 or nothing changed).
     */
    method LoadCommandsIntoGameStates() returns (rewriteFrom: Option<GameState<W, I>>)
      requires |gameHistory| > 0 && BufferWellFormed()
      modifies this`gameHistory, this`commandBuffer
      ensures BufferWellFormed()
      ensures old(Valid()) ==> Valid()
      ensures var d := Drain(old(gameHistory), old(commandBuffer), userCommand);
              && gameHistory == d.history
              && commandBuffer == Remaining(old(gameHistory)[0].slice, |old(gameHistory)|, old(commandBuffer))
              && rewriteFrom == Returned(old(gameHistory)[0].slice, d)
    {
      var history, buffer, rewriteFromSlice := DrainBuffer(gameHistory, commandBuffer, userCommand);
      var firstSlice := gameHistory[0].slice;
      RemainingMembers(firstSlice, |gameHistory|, commandBuffer);
      ghost var valid := Valid();
      if valid {
        DrainKeepsConsistent(timeToStart, gameHistory, renderGameStateIdx, commandBuffer, userCommand);
      }
      gameHistory := history;
      commandBuffer := buffer;
      rewriteFrom := if Truthy(rewriteFromSlice) then Some(history[rewriteFromSlice.value - firstSlice]) else None;
    }

    /**
     * Recompute every state after the one holding `gameState.slice`, in index
     * order, from its predecessor; nothing when that slice is not found.
     */
    method RewriteHistory(gameState: GameState<W, I>)
      modifies this`gameHistory
      ensures old(Valid()) ==> Valid()
      ensures gameHistory == RewriteFrom(step, userCommand, old(gameHistory), FindSliceIndex(old(gameHistory), gameState.slice))
    {
      var index := FindSliceIndex(gameHistory, gameState.slice);
      if Valid() {
        RewriteKeepsShape(timeToStart, gameHistory, step, userCommand, index);
      }
      gameHistory := RewriteLoop(step, userCommand, gameHistory, index);
    }

    /**
     * `nextRandom(randomPointer, min, max)`: extend the memoised values up to
     * index `randomPointer + 1` and return the value there.
     */
    method NextRandom(randomPointer: int, min: int, max: int) returns (r: int)
      requires randomPointer >= -1
      modifies this`randomValues
      ensures randomValues == Grown(old(randomValues), randomPointer, min, max, draw)
      ensures r == NextRandomValue(old(randomValues), randomPointer, min, max, draw)
    {
      var pointer := randomPointer + 1;
      var i := |randomValues|;
      while i <= pointer
        invariant i == |randomValues|
        invariant Grown(randomValues, randomPointer, min, max, draw) == Grown(old(randomValues), randomPointer, min, max, draw)
        decreases pointer + 1 - i
      {
        randomValues := randomValues + [min + draw(i, min, max)];
        i := i + 1;
      }
      r := randomValues[pointer];
    }

    /** The connection listener: a peer of the session that is no longer ready is recorded as disconnected. */
    method ConnectionChanged(uuid: string, ready: bool)
      modifies this`peersDisconnected
      ensures peersDisconnected == if !ready && uuid in peers then old(peersDisconnected) + [uuid] else old(peersDisconnected)
      ensures !ready && uuid in peers ==> IsDisconnected(uuid)
    {
      if !ready {
        var i := IndexOf(peers, uuid);
        if i >= 0 {
          peersDisconnected := peersDisconnected + [peers[i]];
        }
      }
    }

    /** Whether a peer has been recorded as disconnected. */
    function IsDisconnected(uuid: string): (r: bool)
      reads this
      ensures r <==> exists i | 0 <= i < |peersDisconnected| :: peersDisconnected[i] == uuid
    {
      uuid in peersDisconnected
    }
  }
}
