/**
  The chart generator's lane assignment: given the onset times (ms) of a song in
  ascending order and the minimum gap MIN_GAP, each onset becomes a note on a lane
  that differs from the previously used lane and has been free for at least
  MIN_GAP; an onset with no such lane is skipped.

  The random lane choice is an arbitrary draw: at onset `i` the generator takes
  candidate number `draw(i) % |candidates|`, which covers every choice
  `random.choice` can make (lemma PickCovers).
*/
module ChartGen {
  import opened Chart

  /** Duration given to the last onset's note. */
  const LAST_DURATION: int := 500

  /** The loop state: the chart so far, the last lane used (-1 before any) and
      the time each lane becomes free. */
  datatype Generator = Generator(chart: seq<Note>, lastLane: int, laneEnd: seq<int>)

  /** The state before the first onset. */
  const START: Generator := Generator([], -1, [0, 0, 0, 0])

  /** The duration of onset `i`'s note: the gap to the next onset, 500 for the last. */
  function Duration(onsets: seq<int>, i: nat): int
    requires i < |onsets|
  {
    if i < |onsets| - 1 then onsets[i + 1] - onsets[i] else LAST_DURATION
  }

  /** Lane `x` may take a note at time `t`: it is not the last lane used and
      has been free for at least `minGap`. */
  predicate Free(laneEnd: seq<int>, lastLane: int, t: int, minGap: int, x: int)
    requires |laneEnd| == LANE_COUNT && 0 <= x < LANE_COUNT
  {
    x != lastLane && t >= laneEnd[x] + minGap
  }

  /** The free lanes from `l` upward, in ascending order. */
  function CandidatesFrom(laneEnd: seq<int>, lastLane: int, t: int, minGap: int, l: nat): (c: seq<int>)
    requires |laneEnd| == LANE_COUNT && l <= LANE_COUNT
    ensures forall x :: x in c <==> l <= x < LANE_COUNT && Free(laneEnd, lastLane, t, minGap, x)
    decreases LANE_COUNT - l
  {
    if l == LANE_COUNT then []
    else if Free(laneEnd, lastLane, t, minGap, l) then [l] + CandidatesFrom(laneEnd, lastLane, t, minGap, l + 1)
    else CandidatesFrom(laneEnd, lastLane, t, minGap, l + 1)
  }

  /** Strictly increasing, hence without repetition. */
  ghost predicate Ascending(c: seq<int>)
  {
    forall a, b :: 0 <= a < b < |c| ==> c[a] < c[b]
  }

  /** The candidate lanes at time `t`: exactly the free lanes. */
  function Candidates(laneEnd: seq<int>, lastLane: int, t: int, minGap: int): (c: seq<int>)
    requires |laneEnd| == LANE_COUNT
    ensures forall x :: x in c <==> 0 <= x < LANE_COUNT && Free(laneEnd, lastLane, t, minGap, x)
  {
    CandidatesFrom(laneEnd, lastLane, t, minGap, 0)
  }

  /** The candidates are listed in ascending lane order, each once. */
  lemma {:induction false} CandidatesAscending(laneEnd: seq<int>, lastLane: int, t: int, minGap: int, l: nat)
    requires |laneEnd| == LANE_COUNT && l <= LANE_COUNT
    ensures Ascending(CandidatesFrom(laneEnd, lastLane, t, minGap, l))
    decreases LANE_COUNT - l
  {
    if l < LANE_COUNT {
      CandidatesAscending(laneEnd, lastLane, t, minGap, l + 1);
      var rest := CandidatesFrom(laneEnd, lastLane, t, minGap, l + 1);
      if Free(laneEnd, lastLane, t, minGap, l) {
        var c := [l] + rest;
        forall a, b | 0 <= a < b < |c| ensures c[a] < c[b] {
          assert rest[b - 1] in rest;
          if 0 < a {
            assert rest[a - 1] < rest[b - 1];
          }
        }
      }
    }
  }

  /** `random.choice`: the candidate at the drawn index, reduced modulo the count. */
  function Pick(c: seq<int>, r: nat): (x: int)
    requires c != []
    ensures x in c
  {
    c[r % |c|]
  }

  /** Every candidate is the outcome of some draw, so the draws cover all the
      runs `random.choice` can produce. */
  lemma PickCovers(c: seq<int>, x: int) returns (r: nat)
    requires x in c
    ensures Pick(c, r) == x
  {
    var j :| 0 <= j < |c| && c[j] == x;
    r := j;
  }

  /** Handling of onset `i`: skip it, or emit one note and update the lane state. */
  function Step(g: Generator, onsets: seq<int>, i: nat, minGap: int, draw: nat -> nat): (g': Generator)
    requires i < |onsets| && |g.laneEnd| == LANE_COUNT
    ensures |g'.laneEnd| == LANE_COUNT
  {
    var t := onsets[i];
    var d := Duration(onsets, i);
    var c := Candidates(g.laneEnd, g.lastLane, t, minGap);
    if |c| == 0 then g
    else
      var lane := Pick(c, draw(i));
      Generator(g.chart + [Note(t, lane, d)], lane, g.laneEnd[lane := t + d])
  }

  /** Onset `i` is skipped: no lane is free at its time. */
  predicate Skipped(g: Generator, onsets: seq<int>, i: nat, minGap: int)
    requires i < |onsets| && |g.laneEnd| == LANE_COUNT
  {
    |Candidates(g.laneEnd, g.lastLane, onsets[i], minGap)| == 0
  }

  /** What one onset does: with no free lane nothing changes; otherwise exactly
      one note is appended, on a free lane other than the last one, with the onset's
      time and duration, and only that lane's end time moves, to the note's end. */
  lemma StepEffect(g: Generator, onsets: seq<int>, i: nat, minGap: int, draw: nat -> nat)
    requires i < |onsets| && |g.laneEnd| == LANE_COUNT
    ensures Skipped(g, onsets, i, minGap) <==>
      forall x :: 0 <= x < LANE_COUNT ==> !Free(g.laneEnd, g.lastLane, onsets[i], minGap, x)
    ensures Skipped(g, onsets, i, minGap) ==> Step(g, onsets, i, minGap, draw) == g
    ensures !Skipped(g, onsets, i, minGap) ==>
      var g' := Step(g, onsets, i, minGap, draw);
      && |g'.chart| == |g.chart| + 1
      && var n := g'.chart[|g.chart|];
      && n.time == onsets[i] && n.duration == Duration(onsets, i)
      && 0 <= n.lane < LANE_COUNT && n.lane != g.lastLane
      && n.time >= g.laneEnd[n.lane] + minGap
      && g' == Generator(g.chart + [n], n.lane, g.laneEnd[n.lane := n.time + n.duration])
  {
    var c := Candidates(g.laneEnd, g.lastLane, onsets[i], minGap);
    if |c| != 0 {
      assert c[0] in c;
    }
  }

  /** The generator state after the first `n` onsets. */
  function Prefix(onsets: seq<int>, minGap: int, draw: nat -> nat, n: nat): (g: Generator)
    requires n <= |onsets|
    ensures |g.laneEnd| == LANE_COUNT
  {
    if n == 0 then START
    else Step(Prefix(onsets, minGap, draw, n - 1), onsets, n - 1, minGap, draw)
  }

  /** The generator's final state for the whole onset list. */
  function Generate(onsets: seq<int>, minGap: int, draw: nat -> nat): Generator
  {
    Prefix(onsets, minGap, draw, |onsets|)
  }

  /** Induction over the onsets: a property of the start state that every step
      preserves holds after any number of steps. */
  lemma {:induction false} PrefixInduction(onsets: seq<int>, minGap: int, draw: nat -> nat,
                                           inv: (Generator, nat) -> bool, n: nat)
    requires n <= |onsets| && inv(START, 0)
    requires forall g: Generator, i: nat {:trigger Step(g, onsets, i, minGap, draw)} ::
               i < |onsets| && |g.laneEnd| == LANE_COUNT && inv(g, i) ==>
               inv(Step(g, onsets, i, minGap, draw), i + 1)
    ensures inv(Prefix(onsets, minGap, draw, n), n)
  {
    if n > 0 {
      PrefixInduction(onsets, minGap, draw, inv, n - 1);
      var g := Prefix(onsets, minGap, draw, n - 1);
      assert inv(Step(g, onsets, n - 1, minGap, draw), n);
    }
  }

  /** The loop body for onset `i`: filter the candidate lanes, skip the onset
      when there is none, otherwise draw a lane, record it as the last lane, move
      its end time to the note's end and append the note. */
  method HandleOnset(onsets: seq<int>, i: nat, minGap: int, draw: nat -> nat,
                     chart: seq<Note>, lastLane: int, laneEndTimes: seq<int>)
    returns (chart': seq<Note>, lastLane': int, laneEndTimes': seq<int>)
    requires i < |onsets| && |laneEndTimes| == LANE_COUNT
    ensures Generator(chart', lastLane', laneEndTimes') ==
            Step(Generator(chart, lastLane, laneEndTimes), onsets, i, minGap, draw)
  {
    chart', lastLane', laneEndTimes' := chart, lastLane, laneEndTimes;
    var time := onsets[i];
    var duration := Duration(onsets, i);
    var possibleLanes := Candidates(laneEndTimes, lastLane, time, minGap);
    if |possibleLanes| == 0 {
      return;
    }
    var lane := Pick(possibleLanes, draw(i));
    lastLane' := lane;
    laneEndTimes' := laneEndTimes[lane := time + duration];
    chart' := chart + [Note(time, lane, duration)];
  }

  /** The generator loop: one pass over the onsets, appending notes. */
  method GenerateChart(onsets: seq<int>, minGap: int, draw: nat -> nat) returns (chart: seq<Note>)
    ensures chart == Generate(onsets, minGap, draw).chart
  {
    chart := [];
    var lastLane := -1;
    var laneEndTimes := [0, 0, 0, 0];
    for i := 0 to |onsets|
      invariant Generator(chart, lastLane, laneEndTimes) == Prefix(onsets, minGap, draw, i)
    {
      chart, lastLane, laneEndTimes := HandleOnset(onsets, i, minGap, draw, chart, lastLane, laneEndTimes);
    }
  }

  // ---------------------------------------------------------------------------
  // Properties of the generated chart

  ghost predicate Sorted(onsets: seq<int>)
  {
    forall i, j :: 0 <= i < j < |onsets| ==> onsets[i] <= onsets[j]
  }

  /** Lanes are in range, no two consecutive notes share a lane, and `lastLane`
      is the lane of the last note (-1 while there is none). */
  ghost predicate Alternating(g: Generator)
  {
    && (forall k :: 0 <= k < |g.chart| ==> 0 <= g.chart[k].lane < LANE_COUNT)
    && (forall j, k :: 0 <= j && k == j + 1 && k < |g.chart| ==> g.chart[j].lane != g.chart[k].lane)
    && (if |g.chart| == 0 then g.lastLane == -1 else g.lastLane == g.chart[|g.chart| - 1].lane)
  }

  lemma StepAlternating(g: Generator, onsets: seq<int>, i: nat, minGap: int, draw: nat -> nat)
    requires i < |onsets| && |g.laneEnd| == LANE_COUNT && Alternating(g)
    ensures Alternating(Step(g, onsets, i, minGap, draw))
  {
    StepEffect(g, onsets, i, minGap, draw);
  }

  lemma {:induction false} PrefixAlternating(onsets: seq<int>, minGap: int, draw: nat -> nat, n: nat)
    requires n <= |onsets|
    ensures Alternating(Prefix(onsets, minGap, draw, n))
  {
    var inv := (g: Generator, m: nat) => Alternating(g);
    forall g: Generator, i: nat | i < |onsets| && |g.laneEnd| == LANE_COUNT && inv(g, i)
      ensures inv(Step(g, onsets, i, minGap, draw), i + 1)
    {
      StepAlternating(g, onsets, i, minGap, draw);
    }
    PrefixInduction(onsets, minGap, draw, inv, n);
  }

  /** Every note is on a lane in [0, LANE_COUNT) and differs from the note before it. */
  lemma GenerateAlternates(onsets: seq<int>, minGap: int, draw: nat -> nat)
    ensures var chart := Generate(onsets, minGap, draw).chart;
      && (forall k :: 0 <= k < |chart| ==> 0 <= chart[k].lane < LANE_COUNT)
      && (forall j, k :: 0 <= j && k == j + 1 && k < |chart| ==> chart[j].lane != chart[k].lane)
  {
    PrefixAlternating(onsets, minGap, draw, |onsets|);
  }

  /** The notes are taken from onsets with increasing indices `idx`, each below
      `bound`, each note with that onset's time and duration. */
  ghost predicate FromOnsets(chart: seq<Note>, onsets: seq<int>, idx: seq<nat>, bound: nat)
  {
    && |idx| == |chart| && |idx| <= bound
    && (forall k :: 0 <= k < |idx| ==>
          idx[k] < bound && idx[k] < |onsets| &&
          chart[k].time == onsets[idx[k]] && chart[k].duration == Duration(onsets, idx[k]))
    && (forall j, k :: 0 <= j < k < |idx| ==> idx[j] < idx[k])
  }

  /** Appending the note of onset `i` after notes from earlier onsets. */
  lemma AppendOrigin(chart: seq<Note>, onsets: seq<int>, idx: seq<nat>, i: nat, n: Note)
    requires FromOnsets(chart, onsets, idx, i)
    requires i < |onsets| && n.time == onsets[i] && n.duration == Duration(onsets, i)
    ensures FromOnsets(chart + [n], onsets, idx + [i], i + 1)
  {
  }

  lemma StepFromOnsets(g: Generator, onsets: seq<int>, i: nat, minGap: int, draw: nat -> nat, idx: seq<nat>)
    returns (idx': seq<nat>)
    requires i < |onsets| && |g.laneEnd| == LANE_COUNT && FromOnsets(g.chart, onsets, idx, i)
    ensures FromOnsets(Step(g, onsets, i, minGap, draw).chart, onsets, idx', i + 1)
  {
    StepEffect(g, onsets, i, minGap, draw);
    if Skipped(g, onsets, i, minGap) {
      idx' := idx;
    } else {
      var g' := Step(g, onsets, i, minGap, draw);
      AppendOrigin(g.chart, onsets, idx, i, g'.chart[|g.chart|]);
      idx' := idx + [i];
    }
  }

  lemma {:induction false} PrefixFromOnsets(onsets: seq<int>, minGap: int, draw: nat -> nat, n: nat)
    requires n <= |onsets|
    ensures exists idx :: FromOnsets(Prefix(onsets, minGap, draw, n).chart, onsets, idx, n)
  {
    var inv := (g: Generator, m: nat) => exists idx :: FromOnsets(g.chart, onsets, idx, m);
    assert FromOnsets(START.chart, onsets, [], 0);
    forall g: Generator, i: nat | i < |onsets| && |g.laneEnd| == LANE_COUNT && inv(g, i)
      ensures inv(Step(g, onsets, i, minGap, draw), i + 1)
    {
      var idx :| FromOnsets(g.chart, onsets, idx, i);
      var idx' := StepFromOnsets(g, onsets, i, minGap, draw, idx);
    }
    PrefixInduction(onsets, minGap, draw, inv, n);
  }

  /** Each note comes from its own onset, in onset order, with the gap to the
      next onset (skipped or not) as its duration; so there are at most as many
      notes as onsets. */
  lemma GenerateFollowsOnsets(onsets: seq<int>, minGap: int, draw: nat -> nat)
    ensures exists idx :: FromOnsets(Generate(onsets, minGap, draw).chart, onsets, idx, |onsets|)
    ensures |Generate(onsets, minGap, draw).chart| <= |onsets|
  {
    PrefixFromOnsets(onsets, minGap, draw, |onsets|);
    var idx :| FromOnsets(Prefix(onsets, minGap, draw, |onsets|).chart, onsets, idx, |onsets|);
    assert FromOnsets(Generate(onsets, minGap, draw).chart, onsets, idx, |onsets|);
  }

  /** On sorted onsets the note times never decrease. */
  lemma GenerateOrdered(onsets: seq<int>, minGap: int, draw: nat -> nat)
    requires Sorted(onsets)
    ensures var chart := Generate(onsets, minGap, draw).chart;
      forall k, m :: 0 <= k < m < |chart| ==> chart[k].time <= chart[m].time
  {
    GenerateFollowsOnsets(onsets, minGap, draw);
    var chart := Generate(onsets, minGap, draw).chart;
    var idx :| FromOnsets(chart, onsets, idx, |onsets|);
    forall k, m | 0 <= k < m < |chart| ensures chart[k].time <= chart[m].time {
      assert idx[k] < idx[m];
    }
  }

  /** Every note ends by its lane's end time, no lane ends before 0, and two notes
      on the same lane are at least `minGap` apart (end of one to start of the next). */
  ghost predicate Spaced(g: Generator, minGap: int)
    requires |g.laneEnd| == LANE_COUNT
  {
    && (forall k :: 0 <= k < |g.chart| ==> 0 <= g.chart[k].lane < LANE_COUNT)
    && (forall l :: 0 <= l < LANE_COUNT ==> 0 <= g.laneEnd[l])
    && (forall k :: 0 <= k < |g.chart| ==> g.chart[k].time + g.chart[k].duration <= g.laneEnd[g.chart[k].lane])
    && (forall k :: 0 <= k < |g.chart| ==> minGap <= g.chart[k].time)
    && (forall k, m :: 0 <= k < m < |g.chart| && g.chart[k].lane == g.chart[m].lane ==>
          g.chart[k].time + g.chart[k].duration + minGap <= g.chart[m].time)
  }

  /** On sorted onsets every note's duration is non-negative. */
  lemma DurationsNonNegative(onsets: seq<int>)
    requires Sorted(onsets)
    ensures forall i :: 0 <= i < |onsets| ==> 0 <= Duration(onsets, i)
  {
  }

  /** Appending a note that starts MIN_GAP after its lane's end time keeps the spacing. */
  lemma AppendSpaced(g: Generator, n: Note, minGap: int)
    requires |g.laneEnd| == LANE_COUNT && Spaced(g, minGap) && 0 <= minGap
    requires 0 <= n.lane < LANE_COUNT && 0 <= n.duration && n.time >= g.laneEnd[n.lane] + minGap
    ensures Spaced(Generator(g.chart + [n], n.lane, g.laneEnd[n.lane := n.time + n.duration]), minGap)
  {
    var g' := Generator(g.chart + [n], n.lane, g.laneEnd[n.lane := n.time + n.duration]);
    forall k | 0 <= k < |g'.chart|
      ensures g'.chart[k].time + g'.chart[k].duration <= g'.laneEnd[g'.chart[k].lane]
    {
      if k < |g.chart| && g.chart[k].lane == n.lane {
        assert g.chart[k].time + g.chart[k].duration <= g.laneEnd[n.lane];
      }
    }
  }

  lemma StepSpaced(g: Generator, onsets: seq<int>, i: nat, minGap: int, draw: nat -> nat)
    requires i < |onsets| && 0 <= Duration(onsets, i) && 0 <= minGap
    requires |g.laneEnd| == LANE_COUNT && Spaced(g, minGap)
    ensures Spaced(Step(g, onsets, i, minGap, draw), minGap)
  {
    StepEffect(g, onsets, i, minGap, draw);
    if !Skipped(g, onsets, i, minGap) {
      AppendSpaced(g, Step(g, onsets, i, minGap, draw).chart[|g.chart|], minGap);
    }
  }

  lemma {:induction false} PrefixSpaced(onsets: seq<int>, minGap: int, draw: nat -> nat, n: nat)
    requires (forall j :: 0 <= j < |onsets| ==> 0 <= Duration(onsets, j)) && 0 <= minGap
    requires n <= |onsets|
    ensures Spaced(Prefix(onsets, minGap, draw, n), minGap)
  {
    var inv := (g: Generator, m: nat) => |g.laneEnd| == LANE_COUNT && Spaced(g, minGap);
    forall g: Generator, i: nat | i < |onsets| && |g.laneEnd| == LANE_COUNT && inv(g, i)
      ensures inv(Step(g, onsets, i, minGap, draw), i + 1)
    {
      StepSpaced(g, onsets, i, minGap, draw);
    }
    PrefixInduction(onsets, minGap, draw, inv, n);
  }

  /** On sorted onsets with a non-negative MIN_GAP, a note starts at least MIN_GAP
      after every earlier note on its lane has ended, and no note starts before
      MIN_GAP (the end time of every lane starts at 0). */
  lemma GenerateSpaced(onsets: seq<int>, minGap: int, draw: nat -> nat)
    requires Sorted(onsets) && 0 <= minGap
    ensures var chart := Generate(onsets, minGap, draw).chart;
      && (forall k :: 0 <= k < |chart| ==> minGap <= chart[k].time)
      && (forall k, m :: 0 <= k < m < |chart| && chart[k].lane == chart[m].lane ==>
            chart[k].time + chart[k].duration + minGap <= chart[m].time)
  {
    DurationsNonNegative(onsets);
    PrefixSpaced(onsets, minGap, draw, |onsets|);
  }
}
