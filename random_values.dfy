/**
 * The memoised random sequence behind `nextRandom`: `randomValues[k]` is
 * drawn once, by the k-th draw of the scene's seeded generator, and never
 * changes after.
 */
module RandomValues {

  /**
   * The seeded generator as an integer stream: `draw(k, min, max)` is what
   * `between(min, max)` returns on the generator's k-th use.
   */
  type Stream = (nat, int, int) -> int

  /**
   * The loop of `nextRandom(pointer, min, max)`: push `min + between(min, max)`
   * until index `pointer + 1` exists.
   */
  function Grown(values: seq<int>, pointer: int, min: int, max: int, draw: Stream): (r: seq<int>)
    requires pointer >= -1
    decreases pointer + 2 - |values|
  {
    if |values| <= pointer + 1 then Grown(values + [min + draw(|values|, min, max)], pointer, min, max, draw)
    else values
  }

  /** The value `nextRandom(pointer, min, max)` returns. */
  function NextRandomValue(values: seq<int>, pointer: int, min: int, max: int, draw: Stream): int
    requires pointer >= -1
  {
    GrownShape(values, pointer, min, max, draw);
    Grown(values, pointer, min, max, draw)[pointer + 1]
  }

  /**
   * Growing keeps every existing value, reaches length `max(|values|, pointer + 2)`,
   * and each new entry k is `min + draw(k, min, max)`.
   */
  lemma {:induction false} GrownShape(values: seq<int>, pointer: int, min: int, max: int, draw: Stream)
    requires pointer >= -1
    ensures var r := Grown(values, pointer, min, max, draw);
      && |r| == (if |values| > pointer + 2 then |values| else pointer + 2)
      && r[..|values|] == values
      && forall k | |values| <= k < |r| :: r[k] == min + draw(k, min, max)
    decreases pointer + 2 - |values|
  {
    if |values| <= pointer + 1 {
      var v' := values + [min + draw(|values|, min, max)];
      GrownShape(v', pointer, min, max, draw);
      var r := Grown(values, pointer, min, max, draw);
      assert r[..|v'|][..|values|] == r[..|values|];
    }
  }

  /**
   * Memoisation: after any other draw (any pointer, any bounds), asking again
   * for `pointer` returns the value it returned the first time, whatever
   * bounds the second call passes.
   */
  lemma RepeatedDrawIsStable(values: seq<int>, pointer: int, min: int, max: int,
                             other: int, omin: int, omax: int,
                             min2: int, max2: int, draw: Stream)
    requires pointer >= -1 && other >= -1
    ensures var first := Grown(values, pointer, min, max, draw);
            var later := Grown(first, other, omin, omax, draw);
            NextRandomValue(later, pointer, min2, max2, draw) == NextRandomValue(values, pointer, min, max, draw)
  {
    var first := Grown(values, pointer, min, max, draw);
    GrownShape(values, pointer, min, max, draw);
    var later := Grown(first, other, omin, omax, draw);
    GrownShape(first, other, omin, omax, draw);
    GrownShape(later, pointer, min2, max2, draw);
    var again := Grown(later, pointer, min2, max2, draw);
    assert again[..|later|] == later;
    assert later[..|first|] == first;
    assert again[pointer + 1] == later[pointer + 1] == first[pointer + 1];
  }
}
