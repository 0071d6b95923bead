# Lockstep rollback engine of a Phaser multiplayer game

This project models, in Dafny, the core of a small peer-to-peer browser game
built on Phaser. Every peer runs the same deterministic simulation in fixed
time slices of 100 ms. Peers exchange only their input commands. When a
remote command arrives for a slice that has already been simulated, the
engine stores it in that slice's state and recomputes every later state
("rollback").

The model has two parts.

- **The engine** (`MultiplayerScene`). It keeps a history of at most 1000 game
  states with consecutive slices, a buffer of received commands, the one
  shared local command array, and a memoised list of random values. Its
  operations are modelled on that state:
  - `doStep`: fill gaps, merge buffered commands, rewrite history, append
    the next state, evict old states, move the render index.
  - `loadCommandsIntoGameStates`, `rewriteHistory`, `messageReceived`,
    `nextRandom`, `isDisconnected`.
  - The outgoing-command rule of `update`.

  The Phaser world and the game hooks are one uninterpreted step function.
  It maps a predecessor's world, info, random pointer and commands to the
  successor's world, info and random pointer. The seeded random generator
  is an uninterpreted integer stream. Wire words are 16-bit, as in a
  `Uint16Array`.
- **The game rules of the star-collecting scene**:
  - how the pressed keys become a command value;
  - how a command value becomes a body's acceleration;
  - how a state's info (scores, bomb count) is cloned;
  - how the info changes when a player collects a star or hits a bomb.

Modules:

- `Wire`: 16-bit words, received items, the outgoing command.
- `History`: game states, the shared command slot, the two ways a state is
  derived from its predecessor, rewriting, eviction, the render index.
- `CommandBuffer`: the drain of the command buffer as a fold over the
  items, with what it removes, what it stores and which state it returns.
- `RandomValues`: the memoised random sequence.
- `Scheduler`: `doStep` as a function of the history, the buffer, the local
  command and the timestamp.
- `Multiplayer`: the scene class and the loop methods it calls.
- `MainScene`: the game rules.
- `Wrappers`: `Option`.

The loops of `doStep`, `loadCommandsIntoGameStates` and `rewriteHistory`
are methods with a `while` or `for` loop, each proved equal to a
specification function whose properties are proved as lemmas; the class
methods assign the loops' results to the scene's fields. The loop of
`nextRandom` runs directly on the scene's `randomValues` field. The loop
over a predecessor's commands that builds the step's input is the map
comprehension `History.Resolve`.

Quirks of the source that the model keeps:

- Commands older than the history window are never removed from the buffer.
- A change at slice 0 never triggers a rewrite, because the checks use
  JavaScript truthiness. It also cancels the rewrite that earlier changes in
  the same drain asked for.
- The outcome of a drain depends on the order in which commands arrived. Of
  two commands for the same peer and slice with different values, the one
  delivered last wins. A change at slice 0 delivered after another change
  cancels the rewrite, and delivered before it does not.
- Every appended state shares the local command array by reference. A later
  change of the local command is therefore seen by every state that holds it.
- A gap of exactly one slice is flagged as a gap but builds no filler state.
- Slices on the wire are taken modulo 2^16.

## Model

| member | source | states |
|---|---|---|
| Wire.ToUint16 | src/multiplayer-scene.ts:205-208 | storing an integer into a `Uint16Array` keeps it modulo 2^16, and keeps values in 0..65535 unchanged |
| Wire.BufferedItem | src/multiplayer-scene.ts:337-353 | a body becomes a buffered item exactly when its kind word is 0; the item holds the whole body and slice word 3, or no slice when the body is shorter than 4 words |
| Wire.Outgoing | src/multiplayer-scene.ts:204-208 | the sent command has four words: kind 0, then the value in word 2 |
| Wire.SentCommandIsBuffered | src/multiplayer-scene.ts:204-208 | a receiver buffers a sent command for the sender's latest slice modulo 2^16, with the sender's index and the value unchanged |
| Wire.SliceWrapsAround | src/multiplayer-scene.ts:208 | commands sent at slices 2^16 apart are buffered identically; in particular slice 65536 arrives as slice 0 |
| History.Resolve | src/multiplayer-scene.ts:302-306 | the step sees a command for exactly those peers whose slot holds one, reading the shared slot through the current local command |
| History.LocalSlotFollowsUserCommand | src/multiplayer-scene.ts:286 | a slot that shares the local command hands the step whatever the local command holds at that moment |
| History.Recompute | src/multiplayer-scene.ts:269-274 | a recomputed successor keeps its slice, time and commands, and takes world, info and random pointer from the step on its predecessor |
| History.NextState | src/multiplayer-scene.ts:277-286 | an appended state is one slice and one TIMESLICE after its predecessor, holds only the shared local command, and takes world, info and random pointer from the step |
| History.Filler | src/multiplayer-scene.ts:152-159 | the i-th filler is i slices and i TIMESLICEs after the latest state and has no commands |
| History.Fillers | src/multiplayer-scene.ts:151-160 | the fillers built for a gap are fillers 1..n in order |
| History.FindSliceIndex | src/multiplayer-scene.ts:321-323 | the first index holding a slice, or -1 when no entry holds it |
| History.FindSliceInContiguous | src/multiplayer-scene.ts:321-323 | in a contiguous history a slice is found exactly at its offset from the first slice, and not at all outside the window |
| History.RewriteShape | src/multiplayer-scene.ts:317-335 | a rewrite keeps the length and every slice, time and command list; entries up to the start are untouched; each later entry is recomputed from the already rewritten entry before it; a slice that is not found changes nothing |
| History.RewriteIsReplay | src/multiplayer-scene.ts:325-333 | rewriting from a found index equals the prefix up to it followed by a forward replay from that state |
| History.ReplayConverges | src/multiplayer-scene.ts:317-335 | two peers that agree on a base state and on every later slice's commands compute the same later states, whatever those entries held before |
| History.EvictKeepsNewest | src/multiplayer-scene.ts:180-182 | eviction keeps exactly the newest min(length, 1000) states, removing only from the front |
| History.RenderIndex | src/multiplayer-scene.ts:183-185 | the render index lies in the history, RENDER_DELAY+1 entries before its end, that is RENDER_DELAY behind the newest state, once the history is long enough |
| CommandBuffer.DrainStep | src/multiplayer-scene.ts:362-379 | one turn of the drain loop changes nothing in any state except command slots, and keeps the history length |
| CommandBuffer.StepCandidate | src/multiplayer-scene.ts:366-373 | one turn can move the candidate only when its item changes the stored value of a slice other than the newest; the candidate then becomes that slice when it is falsy or greater than the slice, so a truthy candidate at or below that slice stays |
| CommandBuffer.Drain | src/multiplayer-scene.ts:361-380 | the drain changes only command slots, and its candidate is a slice of the window other than the newest one |
| CommandBuffer.ScanStep | src/multiplayer-scene.ts:361-378 | with the `removed` counter, the item read at `index - removed` is the index-th item of the original buffer, and the splice leaves exactly the unmatched items seen so far, followed by the unseen items |
| CommandBuffer.RemainingMembers | src/multiplayer-scene.ts:363-378 | an item leaves the buffer exactly when its slice lies in [firstSlice, firstSlice+length); every other item stays |
| CommandBuffer.DrainPartitionsBuffer | src/multiplayer-scene.ts:357-380 | the items that stay and the items taken out together make up the old buffer |
| CommandBuffer.StaleCommandStays | src/multiplayer-scene.ts:363 | an item older than the window is never dropped |
| CommandBuffer.StepSlotValue | src/multiplayer-scene.ts:366-377 | one turn sets the slot its item targets to the item's value and leaves every other slot's value alone |
| CommandBuffer.DrainSlotValue | src/multiplayer-scene.ts:361-380 | after the drain, each slot holds the value of the last in-window item aimed at it; a slot no item targets keeps its value |
| CommandBuffer.DeliveryOrderDecidesSlot | src/multiplayer-scene.ts:366-377 | for any earlier items, two in-window items for the same peer and slice with different values leave the later one's value, so swapping their delivery order changes the history |
| CommandBuffer.SwapKeepsSlotValues | src/multiplayer-scene.ts:366-377 | when two adjacent items do not aim at the same slot with different values, swapping their delivery order leaves every slot holding the same value |
| CommandBuffer.DrainStepOutcome | src/multiplayer-scene.ts:366-377 | an item with the stored value changes nothing; any other in-window item overwrites its slot with its own command array |
| CommandBuffer.ChangedSlices | src/multiplayer-scene.ts:368-373 | every slice a drain changes, other than the newest, lies in the window |
| CommandBuffer.CandidateFold | src/multiplayer-scene.ts:368-373 | the candidate, when there is one, is one of the changed slices |
| CommandBuffer.DrainCandidate | src/multiplayer-scene.ts:368-373 | the drain's candidate is the candidate fold of the changed slices, in drain order |
| CommandBuffer.CandidateIsMinSinceLastZero | src/multiplayer-scene.ts:368-383 | a state is returned exactly when some slice changed after the last change at slice 0, and it is the least such slice |
| CommandBuffer.CandidateWithoutZero | src/multiplayer-scene.ts:368-383 | without a change at slice 0, the candidate is the least changed slice, or none when nothing changed |
| CommandBuffer.SliceZeroDiscardsEarlierCandidate | src/multiplayer-scene.ts:368-383 | after any changes, a change at slice 0 leaves the falsy candidate 0, and the changes that follow fold exactly as if nothing had come before |
| CommandBuffer.DeliveryOrderDecidesRewrite | src/multiplayer-scene.ts:368-373 | after any changes, a change at a slice a > 0 followed by one at slice 0 leaves no truthy candidate, while the reverse order leaves the candidate a |
| RandomValues.GrownShape | src/multiplayer-scene.ts:455-462 | `nextRandom` keeps every existing value, grows the list to max(old length, pointer+2), and fills entry k with min + the k-th draw |
| RandomValues.RepeatedDrawIsStable | src/multiplayer-scene.ts:455-462 | after any other draws, asking again for the same pointer returns the same value, whatever bounds are passed |
| Scheduler.CeilDiv | src/multiplayer-scene.ts:144-146 | the ceiling of a division of non-negative integers |
| Scheduler.FillerCount | src/multiplayer-scene.ts:142-151 | with a gap, the filler count n satisfies n·TIMESLICE < timestamp − due ≤ (n+1)·TIMESLICE; with no gap it is 0 |
| Scheduler.OneSliceGapBuildsNoFiller | src/multiplayer-scene.ts:142-151 | a gap of exactly one slice is flagged as a gap and builds no filler |
| Scheduler.RewriteStart | src/multiplayer-scene.ts:164-170 | with a gap, the start is the drain's slice when it is no later than the pre-gap latest slice, and that latest slice otherwise; without a gap, it is the drain's slice |
| Scheduler.PickedStartRewrites | src/multiplayer-scene.ts:163-173 | rewriting from the state that `doStep` picks gives the specified rewritten history |
| Scheduler.FilledShape | src/multiplayer-scene.ts:142-160 | filling keeps the old history as a prefix, adds exactly the filler count, and stays contiguous and aligned with the start time |
| Scheduler.RewrittenShape | src/multiplayer-scene.ts:163-173 | the drain and the rewrite change neither the length nor any slice or time |
| Scheduler.DrainKeepsShape | src/multiplayer-scene.ts:361-380 | the drain keeps the history contiguous, aligned with the start time and within 1000 states |
| Scheduler.RewriteKeepsShape | src/multiplayer-scene.ts:317-335 | a rewrite from any index keeps the history contiguous, aligned with the start time and within 1000 states |
| Scheduler.GapRecomputesFillers | src/multiplayer-scene.ts:164-173 | with a gap, every state after the pre-gap latest state, every filler included, is recomputed from its predecessor |
| Scheduler.AppendThenEvict | src/multiplayer-scene.ts:175-182 | appending the next slice and evicting keeps the history contiguous, aligned and within 1000 states, and the appended state is newest |
| Scheduler.AdvanceKeepsShape | src/multiplayer-scene.ts:136-185 | a due step keeps the history contiguous, aligned with the start time and within 1000 states, and never shortens it |
| Scheduler.AdvanceNewestSlice | src/multiplayer-scene.ts:151-178 | after a due step the newest state is the one appended on the rewritten history, and its slice is the old latest slice plus the filler count plus one |
| Scheduler.CatchesUp | src/multiplayer-scene.ts:138-151 | after one due step, the newest slice is due no later than the timestamp and the slice after it no earlier |
| Multiplayer.IndexOf | src/multiplayer-scene.ts:102 | `findIndex` over the peers: the first index of the uuid, or -1 exactly when it is absent |
| Multiplayer.OutgoingCommand | src/multiplayer-scene.ts:203-208 | when the rule fires, the command sent is `[0, myIndex, value, latest slice]` |
| Multiplayer.OutgoingCommandRule | src/multiplayer-scene.ts:204 | nothing is sent exactly when a stored local command already holds the same non-zero value; an idle player (value 0) sends on every frame |
| Multiplayer.MergeCommand | src/multiplayer-scene.ts:362-379 | one turn of the drain loop takes the item exactly when it is in the window, and moves history and candidate as the drain step specifies |
| Multiplayer.DrainBuffer | src/multiplayer-scene.ts:355-384 | the splicing loop with the `removed` counter gives the drain's history and candidate, and leaves exactly the unmatched items in order |
| Multiplayer.AppendFillers | src/multiplayer-scene.ts:151-160 | the loop from 1 while i < gamestatesToBuild appends fillers 1..n−1 |
| Multiplayer.FillGaps | src/multiplayer-scene.ts:141-161 | the gap branch of `doStep` yields the filled history |
| Multiplayer.EvictOldest | src/multiplayer-scene.ts:180-182 | the `shift` loop gives the evicted history |
| Multiplayer.RewriteLoop | src/multiplayer-scene.ts:321-333 | the `while` loop of `rewriteHistory` gives the rewrite from the found index |
| Multiplayer.FillMergeRewrite | src/multiplayer-scene.ts:141-173 | filling, draining and the widened rewrite give the rewritten history and the remaining buffer |
| Multiplayer.AdvanceHistory | src/multiplayer-scene.ts:141-182 | a due step gives the advanced history and buffer, and the buffer stays well formed |
| Multiplayer.DrainKeepsConsistent | src/multiplayer-scene.ts:355-384 | draining the buffer keeps the scene invariant: shape, render index, well-formed buffer |
| Multiplayer.MultiplayerScene.constructor | src/multiplayer-scene.ts:97-134 | the history holds the initial state at slice 0, time timeToStart, random pointer -1, no commands; render index 0; empty buffer and random values; not running |
| Multiplayer.MultiplayerScene.DoStep | src/multiplayer-scene.ts:136-187 | the scene invariant holds; history and buffer become the advanced ones; before the next slice is due nothing changes; the history never gets shorter; the render index trails the newest state |
| Multiplayer.MultiplayerScene.Update | src/multiplayer-scene.ts:189-223 | running starts once timeToStart is reached; before that nothing changes and nothing is sent; while running, the outgoing rule is applied and then the scene steps |
| Multiplayer.MultiplayerScene.RunningFrame | src/multiplayer-scene.ts:201-223 | the local command is sent by the outgoing rule, the shared array is overwritten in place, then the scene steps |
| Multiplayer.MultiplayerScene.SendLocalCommand | src/multiplayer-scene.ts:202-221 | the shared local command is overwritten in place exactly when the rule fires, and that array is what is sent |
| Multiplayer.MultiplayerScene.MessageReceived | src/multiplayer-scene.ts:337-353 | the buffer grows by exactly one item for a kind-0 body and is unchanged otherwise |
| Multiplayer.MultiplayerScene.LoadCommandsIntoGameStates | src/multiplayer-scene.ts:355-384 | history, buffer and returned state are the drain's; the buffer stays well formed; a consistent scene stays consistent |
| Multiplayer.MultiplayerScene.RewriteHistory | src/multiplayer-scene.ts:317-335 | the history becomes the rewrite from the index of the given state's slice; a consistent scene stays consistent |
| Multiplayer.MultiplayerScene.NextRandom | src/multiplayer-scene.ts:455-462 | the random list grows as specified, and the value returned is the one at pointer+1 |
| Multiplayer.MultiplayerScene.ConnectionChanged | src/multiplayer-scene.ts:108-114 | a peer of the session that is no longer ready is recorded as disconnected; anything else changes nothing |
| Multiplayer.MultiplayerScene.IsDisconnected | src/multiplayer-scene.ts:313-315 | true exactly when the uuid is recorded as disconnected |
| MainScene.ReadCommand | src/main-scene.ts:239-251 | the command is one of 0, 2, 10, 12, 20, 22; it is 10/12 exactly when right is pressed, 20/22 exactly when left is pressed and right is not, and carries +2 exactly when up is pressed |
| MainScene.Acceleration | src/main-scene.ts:213-226 | the horizontal acceleration is ±100 or 0; the vertical one is −500 or 0, and −500 only when the body touches down |
| MainScene.CommandRoundTrip | src/main-scene.ts:217-250 | decoding what `readCommand` encodes: right accelerates +100, left only −100, and up jumps −500 exactly when touching down |
| MainScene.UnknownCommandIsIdle | src/main-scene.ts:217-226 | any command outside the six values leaves the body unaccelerated |
| MainScene.ApplyCommandToBody | src/main-scene.ts:215-226 | the body's acceleration becomes the one chosen for the command |
| MainScene.CloneGameStateInfo | src/main-scene.ts:262-267 | the clone is a new object over a new scores array with equal scores and bomb count |
| MainScene.Scored | src/main-scene.ts:272 | only the player's score changes, by the given amount |
| MainScene.Decimal | src/main-scene.ts:284 | the count is printed as a non-empty string of decimal digits |
| MainScene.DecimalRoundTrip | src/main-scene.ts:284 | parsing the printed count gives the count back |
| MainScene.BombNamesDiffer | src/main-scene.ts:283-284 | different bomb counts give different bomb names |
| MainScene.FindFirst | src/main-scene.ts:285 | `find` returns the first position the callback accepts, or none when it accepts no position |
| MainScene.FindBomb | src/main-scene.ts:285-293 | the intended lookup: the first bomb with that name, or none exactly when no bomb has it |
| MainScene.FindBombAsWrittenNeverFinds | src/main-scene.ts:285 | as written, the lookup never finds a bomb |
| MainScene.ExistingBombIsMissedAsWritten | src/main-scene.ts:285-293 | whenever a bomb of that name exists, the written lookup misses it and the intended one finds it |
| MainScene.SpawnAsWritten | src/main-scene.ts:283-289 | as written, the spawn is named after the new count and never reuses a bomb, so a new one is always created |
| MainScene.IntendedSpawn | src/main-scene.ts:283-293 | as intended, the spawn reuses a bomb exactly when one already has the name, and that bomb has it |
| MainScene.ReplayedSpawnDuplicatesAsWritten | src/main-scene.ts:283-289 | when a bomb of that name already exists (a replay after rollback), the written spawn adds a second bomb of that name to the group; the intended spawn leaves the group as it was |
| MainScene.CollectStar | src/main-scene.ts:269-296 | the player gains 10; the bomb count goes up by one exactly when no star is left active; then the bomb named after the new count is created anew, as the written lookup never finds one, and its velocity draw uses the state's random pointer, which then advances by one |
| MainScene.HitBomb | src/main-scene.ts:298-303 | the player loses 10 and no other score changes |
| MainScene.ScoreHasNoFloor | src/main-scene.ts:301-303 | any score below 10 goes below zero on a hit: scores have no lower bound |

## Left out

- `interpolate` and `renderObjects`: floating-point position and velocity math and sprite updates.
- The Phaser world internals (`cloneWorld`, the world reassignment of game objects, `world.step`) and the game hooks `newGameState` and `applyCommandToBody`'s animations: they are inside the uninterpreted step function.
- src/world-cloner.ts: a field-by-field copy of library objects; it is part of the step function.
- src/pairings.ts: network and DOM wiring; not part of this model.
- `getLocalTimestamp`, `mesh.broadcast`, the `LAG_SIMULATION` timer, the connection and message listeners and debug logging: I/O and asynchrony. Timestamps, received bodies and connection events are method parameters, and a sent command is a method result.
- Timestamps are whole milliseconds. The source's timestamps may be fractional; `Math.ceil` over integers is `CeilDiv`.
- History.ReplayConverges: convergence is proved for a step that is a pure function of world, info, random pointer and commands. The source's hooks also read and write scene-level sprite state that a rollback does not restore: cloned bodies keep their game objects and sprite data flags (`playerBeingHit`, `playerCollectingStar`), stars' active flags and the bombs group. The model drops that state.
- Random draws made by the game hooks inside the step are not linked to the scene's random list: the step function is opaque.
- Messages are read as 16-bit words; the conversion of the byte buffer into words is not modelled.
- `sceneCreate`, `readyToStart` and `render`: game-specific set-up and display. The constructor takes the initial world and info as parameters.
- `readCommand` is not called by `update` in the model: `Update` takes the command value as a parameter, and `MainScene.ReadCommand` models how it is computed.
- `collectStar` and `hitBomb` effects on sprites (disabling and re-enabling stars, bomb position, tint) and the count of active stars: Phaser objects. The number of active stars and the names in the bombs group are parameters.
- The loops of `doStep`, `loadCommandsIntoGameStates` and `rewriteHistory` run on value copies of the history and buffer, which are then assigned back to the scene's fields. The model therefore does not capture aliasing between the history and other references to its states.
- The `latestGameState` field: between steps it is always the newest history entry, so the model reads it as `LatestGameState()`.
- Multiplayer.MultiplayerScene.DoStep: the newest state's slice is stated by `Scheduler.AdvanceNewestSlice` about `Advanced`, which `DoStep` ensures; it is not repeated as an ensures of its own.
- MainScene.CollectStar: follows the lookup as written, so it never reuses a bomb; the intended reuse is `MainScene.IntendedSpawn`, which no method of the model calls. It records the random pointer the bomb's velocity is drawn at, not the drawn velocity. It requires the player index to be a position of the scores array; with any other index the source writes a `NaN` entry outside the players' scores.
- MainScene.HitBomb: requires the player index to be a position of the scores array, for the same reason.
- MainScene.ApplyCommandToBody: only the acceleration is modelled; the choice of animation is left out.
- Independence of the drained history from the order in which commands arrive: the source does not have it, so the model does not promise it. The last of two conflicting commands wins (`CommandBuffer.DeliveryOrderDecidesSlot`), and a change at slice 0 cancels a rewrite only when it comes later (`CommandBuffer.DeliveryOrderDecidesRewrite`). Only the weaker swap of two non-conflicting adjacent commands is proved (`CommandBuffer.SwapKeepsSlotValues`), for the slots' values.

## Findings

| source | as written | input that shows it | evidently intended | confidence | as-written member | corrected member |
|---|---|---|---|---|---|---|
| src/main-scene.ts:285 | the `find` callback has a block body and no `return`, so it always yields `undefined`; no bomb is ever found, and the reuse branch never runs | bombs group holding `bomb1` while `collectStar` runs again for bomb count 1 (the slice is replayed after a rollback): a second `bomb1` is created | return the first bomb whose name equals `bomb${bombCount}`, so that a replayed spawn reuses it | not executed | MainScene.ReplayedSpawnDuplicatesAsWritten | MainScene.IntendedSpawn |
