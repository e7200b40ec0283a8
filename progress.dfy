/**
 * Cycle configuration and the conversion of elapsed milliseconds into the
 * round label and the segmented progress bar.
 */
module Progress {

  /** A tracker's cycle length (ms) and the number of rounds it is shown in. */
  datatype Config = Config(duration: int, rounds: int)

  /** The short activation cycle: 10 minutes in 5 rounds. */
  const BodyConfig: Config := Config(10 * 60 * 1000, 5)

  /** The long work cycle: 3 hours, a single round. */
  const WorkConfig: Config := Config(3 * 60 * 60 * 1000, 1)

  /** The duration splits into whole-millisecond rounds. */
  predicate ValidConfig(c: Config)
  {
    c.rounds >= 1 && c.duration > 0 && c.duration % c.rounds == 0
  }

  lemma ConfigsValid()
    ensures ValidConfig(BodyConfig) && SegmentLength(BodyConfig) == 120_000
    ensures ValidConfig(WorkConfig) && SegmentLength(WorkConfig) == WorkConfig.duration
  {
  }

  /** `duration / rounds`: the length of one round in ms. */
  function SegmentLength(c: Config): (r: int)
    requires ValidConfig(c)
    ensures r > 0 && r * c.rounds == c.duration
  {
    c.duration / c.rounds
  }

  /** A cycle is over once the elapsed time reaches its duration. */
  predicate Complete(c: Config, elapsed: int)
  {
    elapsed >= c.duration
  }

  /** `Math.floor(elapsed / segmentDuration)`: the index of the round under way. */
  function CurrentSegment(c: Config, elapsed: int): int
    requires ValidConfig(c)
  {
    elapsed / SegmentLength(c)
  }

  /** `Math.min(Math.floor(elapsed / (duration / rounds)) + 1, rounds)`. */
  function RoundNumber(c: Config, elapsed: int): (r: int)
    requires ValidConfig(c)
    ensures r <= c.rounds
  {
    var round := CurrentSegment(c, elapsed) + 1;
    if round < c.rounds then round else c.rounds
  }

  /** JavaScript's `%`, whose result takes the sign of the dividend. */
  function JsRemainder(a: int, b: int): int
    requires b > 0
  {
    if a >= 0 then a % b else -((-a) % b)
  }

  // ---------------------------------------------------------------------
  // Round label

  /** Floor division by a positive number is monotone. */
  lemma DivMonotone(a: int, b: int, s: int)
    requires s > 0 && a <= b
    ensures a / s <= b / s
  {
    var qa, qb := a / s, b / s;
    assert qa * s <= a && b < qb * s + s;
    assert (qa - qb) * s < s;
    MulBelow(qa - qb, s);
  }

  lemma MulBelow(d: int, s: int)
    requires s > 0 && d * s < s
    ensures d < 1
  {
  }

  lemma DivExact(k: int, s: int)
    requires s > 0
    ensures (k * s) / s == k
  {
    var q := (k * s) / s;
    assert (k - q) * s == k * s - q * s;
    assert 0 <= (k - q) * s < s;
    MulBelow(k - q, s);
    MulBelow(q - k, s);
  }

  /** Once the clock has not gone backwards, the label is between 1 and the round count. */
  lemma RoundBounds(c: Config, elapsed: int)
    requires ValidConfig(c)
    requires elapsed >= 0
    ensures 1 <= RoundNumber(c, elapsed) <= c.rounds
  {
    DivMonotone(0, elapsed, SegmentLength(c));
  }

  /** The round label never goes down while time goes forward. */
  lemma RoundMonotone(c: Config, e1: int, e2: int)
    requires ValidConfig(c)
    requires e1 <= e2
    ensures RoundNumber(c, e1) <= RoundNumber(c, e2)
  {
    DivMonotone(e1, e2, SegmentLength(c));
  }

  /** The label reads 1 at the start and the last round at the end of the cycle. */
  lemma RoundAtStartAndEnd(c: Config, elapsed: int)
    requires ValidConfig(c)
    ensures RoundNumber(c, 0) == 1
    ensures Complete(c, elapsed) ==> RoundNumber(c, elapsed) == c.rounds
  {
    var s := SegmentLength(c);
    if Complete(c, elapsed) {
      DivMonotone(c.duration, elapsed, s);
      DivExact(c.rounds, s);
      assert c.duration == c.rounds * s;
    }
  }

  /** While the cycle runs, the segment index names one of the rounds and the label is its number. */
  lemma RunningSegment(c: Config, elapsed: int)
    requires ValidConfig(c)
    requires 0 <= elapsed < c.duration
    ensures 0 <= CurrentSegment(c, elapsed) < c.rounds
    ensures RoundNumber(c, elapsed) == CurrentSegment(c, elapsed) + 1
  {
    DivMonotone(0, elapsed, SegmentLength(c));
  }

  // ---------------------------------------------------------------------
  // Segmented bar

  /** How one segment of the bar is drawn: full, `done` of `length` ms, or empty. */
  datatype Fill = Full | Partial(done: int, length: int) | Empty

  /** The time a row of segments shows as elapsed. */
  function FilledTime(fills: seq<Fill>, length: int): int
  {
    if fills == [] then 0
    else
      FilledTime(fills[..|fills| - 1], length) + FillTime(fills[|fills| - 1], length)
  }

  /** The time one segment shows. */
  function FillTime(f: Fill, length: int): int
  {
    match f
    case Full => length
    case Partial(done, _) => done
    case Empty => 0
  }

  lemma FilledTimeAppend(fills: seq<Fill>, f: Fill, length: int)
    ensures FilledTime(fills + [f], length) == FilledTime(fills, length) + FillTime(f, length)
  {
    assert (fills + [f])[..|fills|] == fills;
  }

  /** For a non-negative dividend the JavaScript remainder is what floor division leaves over. */
  lemma RemainderSplit(a: int, s: int)
    requires a >= 0 && s > 0
    ensures 0 <= JsRemainder(a, s) < s
    ensures a == (a / s) * s + JsRemainder(a, s)
  {
  }

  lemma MulSucc(i: int, s: int)
    ensures (i + 1) * s == i * s + s
  {
  }

  /** A row of segments full up to `current`, partly filled there by `rem`, empty after. */
  ghost predicate SegmentShape(fills: seq<Fill>, current: int, length: int, rem: int)
  {
    && 0 <= current < |fills|
    && (forall j :: 0 <= j < |fills| ==> (fills[j] == Full <==> j < current))
    && fills[current] == Partial(rem, length)
    && (forall j :: current < j < |fills| ==> fills[j] == Empty)
  }

  /** The time shown by the first k segments of such a row. */
  lemma {:induction false} FilledPrefix(fills: seq<Fill>, current: int, length: int, rem: int, k: int)
    requires SegmentShape(fills, current, length, rem)
    requires 0 <= k <= |fills|
    ensures FilledTime(fills[..k], length) == if k <= current then k * length else current * length + rem
  {
    if k > 0 {
      FilledPrefix(fills, current, length, rem, k - 1);
      assert fills[..k] == fills[..k - 1] + [fills[k - 1]];
      FilledTimeAppend(fills[..k - 1], fills[k - 1], length);
      if k <= current {
        MulSucc(k - 1, length);
      }
    }
  }

  /**
   * The segment loop of the progress update: segments before the current
   * one are full, the current one is filled by the remainder, later ones
   * are empty. While the cycle runs the bar shows exactly the elapsed time.
   */
  method SegmentFills(c: Config, elapsed: int) returns (fills: seq<Fill>)
    requires ValidConfig(c)
    ensures |fills| == c.rounds
    ensures forall i :: 0 <= i < |fills| ==> (fills[i] == Full <==> i < CurrentSegment(c, elapsed))
    ensures forall i :: 0 <= i < |fills| ==> (fills[i].Partial? <==> i == CurrentSegment(c, elapsed))
    ensures forall i :: 0 <= i < |fills| && fills[i].Partial? ==>
              0 <= fills[i].done < fills[i].length == SegmentLength(c)
    ensures 0 <= elapsed < c.duration ==> FilledTime(fills, SegmentLength(c)) == elapsed
  {
    var segmentDuration := SegmentLength(c);
    var currentSegment := elapsed / segmentDuration;
    var segmentProgress := JsRemainder(elapsed, segmentDuration);
    fills := [];
    for i := 0 to c.rounds
      invariant |fills| == i
      invariant forall j :: 0 <= j < i ==> (fills[j] == Full <==> j < currentSegment)
      invariant forall j :: 0 <= j < i ==> (fills[j] == Partial(segmentProgress, segmentDuration) <==> j == currentSegment)
      invariant forall j :: 0 <= j < i ==> (fills[j] == Empty <==> j > currentSegment)
    {
      if i < currentSegment {
        fills := fills + [Full];
      } else if i == currentSegment {
        fills := fills + [Partial(segmentProgress, segmentDuration)];
      } else {
        fills := fills + [Empty];
      }
    }
    if 0 <= elapsed {
      RemainderSplit(elapsed, segmentDuration);
      if elapsed < c.duration {
        RunningSegment(c, elapsed);
        FilledPrefix(fills, currentSegment, segmentDuration, segmentProgress, |fills|);
        assert fills[..|fills|] == fills;
      }
    }
  }
}
