/**
 * The game rules of the star-collecting scene: how the pressed keys become a
 * command value, how a command becomes a body's acceleration, and how the
 * per-state info (scores and bomb count) is copied and updated when a player
 * collects a star or is hit by a bomb.
 */
module MainScene {
  import opened Wrappers

  const STRENGTH_X: int := 100
  const STRENGTH_Y: int := 500

  /** The cursor keys that are down this frame. */
  datatype ArrowKeys = ArrowKeys(right: bool, left: bool, up: bool)

  /**
   * A direction counts as pressed when its cursor key is down or when the
   * on-screen joystick has a key of that name and it is down.
   */
  predicate Pressed(arrowDown: bool, joystick: map<string, bool>, name: string) {
    arrowDown || (name in joystick && joystick[name])
  }

  /** `readCommand`: right (10) wins over left (20); up adds 2. */
  function ReadCommand(arrow: ArrowKeys, joystick: map<string, bool>): (r: int)
    ensures r in {0, 2, 10, 12, 20, 22}
    ensures (r == 10 || r == 12) <==> Pressed(arrow.right, joystick, "right")
    ensures (r == 20 || r == 22) <==> !Pressed(arrow.right, joystick, "right") && Pressed(arrow.left, joystick, "left")
    ensures (r == 2 || r == 12 || r == 22) <==> Pressed(arrow.up, joystick, "up")
  {
    var right := Pressed(arrow.right, joystick, "right");
    var left := Pressed(arrow.left, joystick, "left");
    var up := Pressed(arrow.up, joystick, "up");
    (if right then 10 else if left then 20 else 0) + (if up then 2 else 0)
  }

  /** The acceleration `applyCommandToBody` sets for `command`, as (horizontal, vertical). */
  function Acceleration(command: int, touchingDown: bool): (r: (int, int))
    ensures r.0 in {STRENGTH_X, -STRENGTH_X, 0} && r.1 in {-STRENGTH_Y, 0}
    ensures r.1 == -STRENGTH_Y ==> touchingDown
  {
    (if command == 10 || command == 12 then STRENGTH_X
     else if command == 20 || command == 22 then -STRENGTH_X
     else 0,
     if touchingDown && (command == 2 || command == 12 || command == 22) then -STRENGTH_Y else 0)
  }

  /**
   * Decoding what `readCommand` encodes: the body accelerates right exactly
   * when right is pressed, left when only left is, and jumps exactly when up
   * is pressed while the body stands on something.
   */
  lemma CommandRoundTrip(arrow: ArrowKeys, joystick: map<string, bool>, touchingDown: bool)
    ensures var a := Acceleration(ReadCommand(arrow, joystick), touchingDown);
            var right := Pressed(arrow.right, joystick, "right");
            var left := Pressed(arrow.left, joystick, "left");
            var up := Pressed(arrow.up, joystick, "up");
            && a.0 == (if right then STRENGTH_X else if left then -STRENGTH_X else 0)
            && a.1 == (if touchingDown && up then -STRENGTH_Y else 0)
  {
  }

  /** Every command value other than the six `readCommand` produces leaves the body unaccelerated. */
  lemma UnknownCommandIsIdle(command: int, touchingDown: bool)
    requires command !in {0, 2, 10, 12, 20, 22}
    ensures Acceleration(command, touchingDown) == (0, 0)
  {
  }

  /** The part of a physics body the command drives. */
  class Body {
    var accelerationX: int
    var accelerationY: int
    var touchingDown: bool

    constructor (touchingDown: bool)
      ensures accelerationX == 0 && accelerationY == 0 && this.touchingDown == touchingDown
    {
      accelerationX := 0;
      accelerationY := 0;
      this.touchingDown := touchingDown;
    }
  }

  /** `applyCommandToBody` (acceleration only): set the body's acceleration for `command`. */
  method ApplyCommandToBody(body: Body, command: int)
    modifies body`accelerationX, body`accelerationY
    ensures (body.accelerationX, body.accelerationY) == Acceleration(command, body.touchingDown)
  {
    var x := if command == 10 || command == 12 then STRENGTH_X
             else if command == 20 || command == 22 then -STRENGTH_X
             else 0;
    var y := if body.touchingDown && (command == 2 || command == 12 || command == 22) then -STRENGTH_Y else 0;
    body.accelerationX := x;
    body.accelerationY := y;
  }

  /** The info object of a game state: one score per peer and the number of bombs spawned. */
  class GameInfo {
    const scores: array<int>
    var bombCount: nat

    constructor (scores: seq<int>, bombCount: nat)
      ensures fresh(this.scores) && this.scores[..] == scores && this.bombCount == bombCount
    {
      this.scores := new int[|scores|](i requires 0 <= i < |scores| => scores[i]);
      this.bombCount := bombCount;
    }
  }

  /** `cloneGameStateInfo`: a new info object over a new scores array with the same contents. */
  method CloneGameStateInfo(info: GameInfo) returns (r: GameInfo)
    ensures fresh(r) && fresh(r.scores) && r.scores != info.scores
    ensures r.scores[..] == info.scores[..] && r.bombCount == info.bombCount
  {
    r := new GameInfo(info.scores[..], info.bombCount);
  }

  /** The scores after `delta` is added to the score of `player`. */
  function Scored(scores: seq<int>, player: nat, delta: int): (r: seq<int>)
    requires player < |scores|
    ensures |r| == |scores| && r[player] == scores[player] + delta
    ensures forall i | 0 <= i < |scores| && i != player :: r[i] == scores[i]
  {
    scores[player := scores[player] + delta]
  }

  /** The decimal digits of `n`, most significant first, as a template literal prints them. */
  function Decimal(n: nat): (s: string)
    ensures |s| > 0 && forall k | 0 <= k < |s| :: '0' <= s[k] <= '9'
    decreases n
  {
    if n < 10 then [Digit(n)] else Decimal(n / 10) + [Digit(n % 10)]
  }

  function Digit(d: nat): (c: char)
    requires d < 10
    ensures '0' <= c <= '9' && (c as int) - ('0' as int) == d
  {
    (('0' as int) + d) as char
  }

  /** Reading a string of decimal digits back as a number. */
  function ParseDecimal(s: string): nat
    requires forall k | 0 <= k < |s| :: '0' <= s[k] <= '9'
    decreases |s|
  {
    if s == [] then 0
    else ParseDecimal(s[..|s| - 1]) * 10 + ((s[|s| - 1] as int) - ('0' as int))
  }

  /** Printing a count in decimal loses nothing: parsing gives the count back. */
  lemma {:induction false} DecimalRoundTrip(n: nat)
    ensures ParseDecimal(Decimal(n)) == n
    decreases n
  {
    if n >= 10 {
      DecimalRoundTrip(n / 10);
      var s := Decimal(n);
      assert s[..|s| - 1] == Decimal(n / 10);
    }
  }

  /** The name of the bomb spawned when the count reaches `count`. */
  function BombName(count: nat): string {
    "bomb" + Decimal(count)
  }

  /** Different counts give different bomb names, so each spawned bomb has a name of its own. */
  lemma BombNamesDiffer(a: nat, b: nat)
    requires a != b
    ensures BombName(a) != BombName(b)
  {
    if BombName(a) == BombName(b) {
      assert Decimal(a) == BombName(a)[4..];
      assert Decimal(b) == BombName(b)[4..];
      DecimalRoundTrip(a);
      DecimalRoundTrip(b);
    }
  }

  /** `Array.prototype.find` over the names in the bombs group: the first position the callback accepts. */
  function FindFirst(bombNames: seq<string>, accepts: string -> bool): (r: Option<nat>)
    ensures r.Some? ==> r.value < |bombNames| && accepts(bombNames[r.value])
                        && forall k | 0 <= k < r.value :: !accepts(bombNames[k])
    ensures r.None? ==> forall k | 0 <= k < |bombNames| :: !accepts(bombNames[k])
    decreases |bombNames|
  {
    if bombNames == [] then None
    else if accepts(bombNames[0]) then Some(0)
    else match FindFirst(bombNames[1..], accepts)
      case Some(i) => Some(i + 1)
      case None => None
  }

  /**
   * The callback as written: its block body compares the names and discards
   * the result, so the callback yields `undefined`, which is falsy.
   */
  predicate CallbackAsWritten(bombName: string, goName: string) {
    false
  }

  /** The bomb lookup as written: nothing is ever found. */
  function FindBombAsWritten(bombNames: seq<string>, name: string): Option<nat> {
    FindFirst(bombNames, goName => CallbackAsWritten(name, goName))
  }

  /** The lookup as intended: the first bomb whose name is `name`. */
  function FindBomb(bombNames: seq<string>, name: string): (r: Option<nat>)
    ensures r.Some? ==> r.value < |bombNames| && bombNames[r.value] == name
                        && forall k | 0 <= k < r.value :: bombNames[k] != name
    ensures r.None? ==> name !in bombNames
  {
    FindFirst(bombNames, goName => goName == name)
  }

  /** As written, no lookup ever succeeds. */
  lemma FindBombAsWrittenNeverFinds(bombNames: seq<string>, name: string)
    ensures FindBombAsWritten(bombNames, name) == None
  {
  }

  /** When a bomb of that name already exists the two lookups disagree: the reuse branch is dead as written. */
  lemma ExistingBombIsMissedAsWritten(bombNames: seq<string>, name: string)
    requires name in bombNames
    ensures FindBombAsWritten(bombNames, name) == None && FindBomb(bombNames, name).Some?
  {
    FindBombAsWrittenNeverFinds(bombNames, name);
  }

  /**
   * The bomb a collected star sets off: its name, the existing bomb it reuses
   * (by position in the bombs group) or none for a new one created at
   * (400, 16), and the random pointer its horizontal velocity is drawn at.
   */
  datatype BombSpawn = BombSpawn(name: string, reuse: Option<nat>, drawPointer: int)

  /** The spawn as written: the lookup never succeeds, so a new bomb is always created. */
  function SpawnAsWritten(bombNames: seq<string>, count: nat, drawPointer: int): (s: BombSpawn)
    ensures s.name == BombName(count) && s.drawPointer == drawPointer
    ensures s.reuse == None
  {
    FindBombAsWrittenNeverFinds(bombNames, BombName(count));
    BombSpawn(BombName(count), FindBombAsWritten(bombNames, BombName(count)), drawPointer)
  }

  /** The spawn as intended: the bomb already named after the count is reused, if there is one. */
  function IntendedSpawn(bombNames: seq<string>, count: nat, drawPointer: int): (s: BombSpawn)
    ensures s.name == BombName(count) && s.drawPointer == drawPointer
    ensures s.reuse.Some? <==> BombName(count) in bombNames
    ensures s.reuse.Some? ==> s.reuse.value < |bombNames| && bombNames[s.reuse.value] == BombName(count)
  {
    BombSpawn(BombName(count), FindBomb(bombNames, BombName(count)), drawPointer)
  }

  /** The names in the bombs group after a spawn: a created bomb is added at the end. */
  function BombsAfter(bombNames: seq<string>, s: BombSpawn): (r: seq<string>)
    ensures s.reuse.None? ==> |r| == |bombNames| + 1 && r[..|bombNames|] == bombNames && r[|bombNames|] == s.name
    ensures s.reuse.Some? ==> r == bombNames
  {
    if s.reuse.None? then bombNames + [s.name] else bombNames
  }

  /**
   * Replaying the slice that spawned a bomb, once that bomb exists (after a
   * rollback): as written a second bomb of the same name is created, while
   * the intended lookup reuses the existing one and the group is unchanged.
   */
  lemma ReplayedSpawnDuplicatesAsWritten(bombNames: seq<string>, count: nat, drawPointer: int)
    requires BombName(count) in bombNames
    ensures var after := BombsAfter(bombNames, SpawnAsWritten(bombNames, count, drawPointer));
            multiset(after)[BombName(count)] == multiset(bombNames)[BombName(count)] + 1
            && multiset(after)[BombName(count)] >= 2
    ensures BombsAfter(bombNames, IntendedSpawn(bombNames, count, drawPointer)) == bombNames
  {
    var name := BombName(count);
    var after := BombsAfter(bombNames, SpawnAsWritten(bombNames, count, drawPointer));
    assert after == bombNames + [name];
    assert multiset(after) == multiset(bombNames) + multiset{name};
  }

  /**
   * `collectStar` (score and bomb bookkeeping): the player gains 10; when no
   * star is left active, the bomb count goes up, the bomb named after the new
   * count is looked up (as written the lookup never succeeds, so a new bomb is
   * created), and its velocity draw consumes the state's random pointer.
   * `activeStars` is the number of active stars after this one is disabled;
   * `bombNames` are the names in the bombs group.
   */
  method CollectStar(info: GameInfo, player: nat, activeStars: nat, bombNames: seq<string>, randomPointer: int)
    returns (spawn: Option<BombSpawn>, randomPointer': int)
    requires player < info.scores.Length
    modifies info.scores, info`bombCount
    ensures info.scores[..] == Scored(old(info.scores[..]), player, 10)
    ensures info.bombCount == if activeStars == 0 then old(info.bombCount) + 1 else old(info.bombCount)
    ensures activeStars != 0 ==> spawn.None? && randomPointer' == randomPointer
    ensures activeStars == 0 ==>
              && spawn == Some(SpawnAsWritten(bombNames, info.bombCount, randomPointer))
              && spawn.value.reuse.None?
              && randomPointer' == randomPointer + 1
  {
    info.scores[player] := info.scores[player] + 10;
    spawn, randomPointer' := None, randomPointer;
    if activeStars == 0 {
      info.bombCount := info.bombCount + 1;
      var bombName := BombName(info.bombCount);
      var bomb := FindBombAsWritten(bombNames, bombName);
      spawn := Some(BombSpawn(bombName, bomb, randomPointer'));
      randomPointer' := randomPointer' + 1;
    }
  }

  /** `hitBomb` (score only): the player loses 10, with no lower bound. */
  method HitBomb(info: GameInfo, player: nat)
    requires player < info.scores.Length
    modifies info.scores
    ensures info.scores[..] == Scored(old(info.scores[..]), player, -10)
  {
    info.scores[player] := info.scores[player] - 10;
  }

  /** Scores have no floor: a hit takes any score below 10 below zero. */
  lemma ScoreHasNoFloor(scores: seq<int>, player: nat)
    requires player < |scores| && scores[player] < 10
    ensures Scored(scores, player, -10)[player] < 0
  {
  }
}
