/**
  The judgment and scheduling logic of the "don't touch the white block" rhythm game:
  loading a chart into tiles, judging a lane key press against the active tiles,
  moving chart tiles into the active set as playback advances, recomputing tile
  positions and sweeping tiles that have fallen past the bottom of the screen.

  Times are whole milliseconds. A tile's vertical position is kept as `yMilli`,
  the position in thousandths of a pixel, so that `elapsed / 1000 * SPEED` is the
  exact integer `elapsed * SPEED`.
*/
module WhiteBlock {
  import opened Chart

  /** Screen height in pixels; a tile whose y exceeds it has been missed. */
  const HEIGHT: int := 700
  /** Scroll speed in pixels per second. */
  const SPEED: int := 300
  /** How far ahead of the playback time (ms) chart tiles are activated. */
  const LOOKAHEAD: int := 1500
  /** HEIGHT / SPEED * 1000 = 2333.33... ms, which on whole-ms differences is 2333. */
  const SOURCE_TOLERANCE: int := 2333

  datatype Option<T> = None | Some(value: T)

  /** A runtime tile: a chart note plus its position and judgment flags. */
  datatype Tile = Tile(lane: int, time: int, duration: int, yMilli: int, active: bool, triggered: bool)

  /** The chart file as the loader sees it: it could not be opened, or it held these notes. */
  datatype ChartFile = Unreadable | Parsed(notes: seq<Note>)

  /** The keys the game listens to; every other key is `OtherKey`. */
  datatype Key = KeyA | KeyF | KeyH | KeyL | OtherKey

  function Abs(x: int): int { if x < 0 then -x else x }

  /** The two flags always disagree: a tile is either live or done. */
  predicate Consistent(t: Tile) { t.active == !t.triggered }

  /** Every tile's flags are consistent. */
  predicate AllConsistent(ts: seq<Tile>) { forall i :: 0 <= i < |ts| ==> Consistent(ts[i]) }

  /** Same chart note: lane, time and duration agree. */
  predicate SameNote(t: Tile, u: Tile) { t.lane == u.lane && t.time == u.time && t.duration == u.duration }

  /** Marks a tile as judged (hit or missed). */
  function Consume(t: Tile): Tile { t.(active := false, triggered := true) }

  // ---------------------------------------------------------------------------
  // Chart loading

  /** The tile the loader makes from one note. */
  function NewTile(n: Note): Tile
  {
    Tile(n.lane, n.time, n.duration, -n.duration * SPEED, true, false)
  }

  /** Builds one fresh tile per note, in note order; an unreadable file gives no tiles. */
  method LoadChart(file: ChartFile) returns (tiles: seq<Tile>)
    ensures file.Unreadable? ==> tiles == []
    ensures file.Parsed? ==> |tiles| == |file.notes|
    ensures file.Parsed? ==> forall i :: 0 <= i < |tiles| ==>
      tiles[i].time == file.notes[i].time && tiles[i].lane == file.notes[i].lane &&
      tiles[i].duration == file.notes[i].duration && tiles[i].yMilli == -file.notes[i].duration * SPEED
    ensures forall i :: 0 <= i < |tiles| ==> tiles[i].active && !tiles[i].triggered
    ensures file.Parsed? ==> forall i :: 0 <= i < |tiles| ==> tiles[i] == NewTile(file.notes[i])
  {
    tiles := [];
    if file.Unreadable? {
      return;
    }
    var notes := file.notes;
    for i := 0 to |notes|
      invariant |tiles| == i
      invariant forall k :: 0 <= k < i ==> tiles[k] == NewTile(notes[k])
    {
      tiles := tiles + [NewTile(notes[i])];
    }
  }

  // ---------------------------------------------------------------------------
  // Key-press judgment

  /** A tile the press on `lane` may act on. */
  predicate Eligible(t: Tile, lane: int) { t.active && !t.triggered && t.lane == lane }

  /** The press is within the tolerance window of the tile. */
  predicate InWindow(diff: int, tol: int) { Abs(diff) <= tol }

  /** The press comes too late for the tile. */
  predicate TooLate(diff: int, tol: int) { !InWindow(diff, tol) && diff > tol }

  /** The press comes too early for the tile: it is passed over. */
  predicate TooEarly(diff: int, tol: int) { !InWindow(diff, tol) && !(diff > tol) }

  /** An eligible tile on which the press is decided (hit or late), not passed over. */
  predicate Decisive(t: Tile, lane: int, now: int, tol: int)
  {
    Eligible(t, lane) && !TooEarly(now - t.time, tol)
  }

  /** The first decisive tile at or after `from`, or `|tiles|` when there is none. */
  function FirstDecisive(tiles: seq<Tile>, lane: int, now: int, tol: int, from: nat): (k: nat)
    requires from <= |tiles|
    ensures from <= k <= |tiles|
    ensures forall j :: from <= j < k ==> !Decisive(tiles[j], lane, now, tol)
    ensures k < |tiles| ==> Decisive(tiles[k], lane, now, tol)
    decreases |tiles| - from
  {
    if from == |tiles| then from
    else if Decisive(tiles[from], lane, now, tol) then from
    else FirstDecisive(tiles, lane, now, tol, from + 1)
  }

  /** What a key press leaves behind: the tiles, the score, and the returned flag. */
  datatype Judgment = Judgment(tiles: seq<Tile>, score: int, success: bool)

  /** The effect of pressing `lane` at time `now` on `tiles` with the given score. */
  function Judge(tiles: seq<Tile>, lane: int, now: int, tol: int, score: int): (r: Judgment)
    ensures |r.tiles| == |tiles|
    ensures score <= r.score <= score + 1
    ensures r.score == score + 1 ==> r.success
    ensures r.tiles == tiles <==> (r.success && r.score == score)
    ensures forall i :: 0 <= i < |tiles| ==> SameNote(r.tiles[i], tiles[i])
    ensures forall i :: 0 <= i < |tiles| && r.tiles[i] != tiles[i] ==>
      Eligible(tiles[i], lane) && r.tiles[i] == Consume(tiles[i])
    ensures forall i, j :: 0 <= i < |tiles| && 0 <= j < |tiles| && r.tiles[i] != tiles[i] && r.tiles[j] != tiles[j] ==> i == j
  {
    var k := FirstDecisive(tiles, lane, now, tol, 0);
    if k == |tiles| then
      Judgment(tiles, score, true)
    else
      var consumed := tiles[k := Consume(tiles[k])];
      assert consumed[k] != tiles[k];
      if InWindow(now - tiles[k].time, tol) then
        Judgment(consumed, score + 1, true)
      else
        Judgment(consumed, score, false)
  }

  /** If `k` is decisive and nothing in `[from, k)` is, the scan stops at `k`. */
  lemma {:induction false} FirstDecisiveAt(tiles: seq<Tile>, lane: int, now: int, tol: int, from: nat, k: nat)
    requires from <= k < |tiles|
    requires Decisive(tiles[k], lane, now, tol)
    requires forall j :: from <= j < k ==> !Decisive(tiles[j], lane, now, tol)
    ensures FirstDecisive(tiles, lane, now, tol, from) == k
    decreases k - from
  {
    if from < k {
      FirstDecisiveAt(tiles, lane, now, tol, from + 1, k);
    }
  }

  /** The first eligible tile that is not too early, when in the window, is hit. */
  lemma JudgeHit(tiles: seq<Tile>, lane: int, now: int, tol: int, score: int, k: nat)
    requires k < |tiles| && Eligible(tiles[k], lane) && InWindow(now - tiles[k].time, tol)
    requires forall j :: 0 <= j < k && Eligible(tiles[j], lane) ==> TooEarly(now - tiles[j].time, tol)
    ensures Judge(tiles, lane, now, tol, score) == Judgment(tiles[k := Consume(tiles[k])], score + 1, true)
  {
    FirstDecisiveAt(tiles, lane, now, tol, 0, k);
  }

  /** The first eligible tile that is not too early, when late, is consumed without score. */
  lemma JudgeLate(tiles: seq<Tile>, lane: int, now: int, tol: int, score: int, k: nat)
    requires k < |tiles| && Eligible(tiles[k], lane) && TooLate(now - tiles[k].time, tol)
    requires forall j :: 0 <= j < k && Eligible(tiles[j], lane) ==> TooEarly(now - tiles[j].time, tol)
    ensures Judge(tiles, lane, now, tol, score) == Judgment(tiles[k := Consume(tiles[k])], score, false)
  {
    FirstDecisiveAt(tiles, lane, now, tol, 0, k);
  }

  /** When every eligible tile is too early (or there is none) the press changes nothing. */
  lemma JudgeAllEarly(tiles: seq<Tile>, lane: int, now: int, tol: int, score: int)
    requires forall j :: 0 <= j < |tiles| && Eligible(tiles[j], lane) ==> TooEarly(now - tiles[j].time, tol)
    ensures Judge(tiles, lane, now, tol, score) == Judgment(tiles, score, true)
  {
  }

  /** The flag is false exactly when a late tile was consumed. */
  lemma JudgeFailsOnlyLate(tiles: seq<Tile>, lane: int, now: int, tol: int, score: int)
    ensures var r := Judge(tiles, lane, now, tol, score);
      !r.success <==> exists k :: 0 <= k < |tiles| && r.tiles[k] != tiles[k] && TooLate(now - tiles[k].time, tol)
  {
    var k := FirstDecisive(tiles, lane, now, tol, 0);
    var r := Judge(tiles, lane, now, tol, score);
    if k < |tiles| {
      assert r.tiles[k] != tiles[k];
    }
  }

  /** Judging keeps every tile's flags consistent. */
  lemma JudgeKeepsConsistent(tiles: seq<Tile>, lane: int, now: int, tol: int, score: int)
    requires forall i :: 0 <= i < |tiles| ==> Consistent(tiles[i])
    ensures var r := Judge(tiles, lane, now, tol, score);
      forall i :: 0 <= i < |r.tiles| ==> Consistent(r.tiles[i])
  {
  }

  /** The tolerance of the source, a float, decides exactly like the integer SOURCE_TOLERANCE. */
  lemma SourceToleranceExact(diff: int)
    ensures (Abs(diff) as real <= HEIGHT as real / SPEED as real * 1000.0) <==> InWindow(diff, SOURCE_TOLERANCE)
    ensures (diff as real > HEIGHT as real / SPEED as real * 1000.0) <==> diff > SOURCE_TOLERANCE
  {
  }

  // ---------------------------------------------------------------------------
  // Key dispatch

  /** A, F, H and L select lanes 0 to 3; other keys select nothing. */
  function KeyLane(key: Key): (lane: Option<int>)
    ensures lane.Some? ==> 0 <= lane.value < LANE_COUNT
    ensures lane.None? <==> key == OtherKey
  {
    match key
    case KeyA => Some(0)
    case KeyF => Some(1)
    case KeyH => Some(2)
    case KeyL => Some(3)
    case OtherKey => None
  }

  /** Every lane has exactly one key. */
  lemma KeyLaneOneToOne(k1: Key, k2: Key)
    ensures KeyLane(k1).Some? && KeyLane(k1) == KeyLane(k2) ==> k1 == k2
    ensures forall lane :: 0 <= lane < LANE_COUNT ==>
      KeyLane(KeyA) == Some(lane) || KeyLane(KeyF) == Some(lane) || KeyLane(KeyH) == Some(lane) || KeyLane(KeyL) == Some(lane)
  {
  }

  /** The tiles and score after the frame's key events, in order: a lane key
      judges its lane, any other key does nothing. */
  function AfterKeys(tiles: seq<Tile>, score: int, keys: seq<Key>, now: int, tol: int): (r: (seq<Tile>, int))
    ensures |r.0| == |tiles|
    ensures score <= r.1 <= score + |keys|
    ensures forall i :: 0 <= i < |tiles| ==> SameNote(r.0[i], tiles[i])
    decreases |keys|
  {
    if |keys| == 0 then (tiles, score)
    else
      var before := AfterKeys(tiles, score, keys[..|keys| - 1], now, tol);
      match KeyLane(keys[|keys| - 1])
      case None => before
      case Some(lane) =>
        var j := Judge(before.0, lane, now, tol, before.1);
        (j.tiles, j.score)
  }

  /** Key events that select no lane leave the tiles and score as they were. */
  lemma {:induction false} AfterOtherKeys(tiles: seq<Tile>, score: int, keys: seq<Key>, now: int, tol: int)
    requires forall n :: 0 <= n < |keys| ==> keys[n] == OtherKey
    ensures AfterKeys(tiles, score, keys, now, tol) == (tiles, score)
    decreases |keys|
  {
    if |keys| > 0 {
      AfterOtherKeys(tiles, score, keys[..|keys| - 1], now, tol);
    }
  }

  /** Judging keeps every tile's flags consistent across all the frame's keys. */
  lemma {:induction false} AfterKeysConsistent(tiles: seq<Tile>, score: int, keys: seq<Key>, now: int, tol: int)
    requires AllConsistent(tiles)
    ensures AllConsistent(AfterKeys(tiles, score, keys, now, tol).0)
    decreases |keys|
  {
    if |keys| > 0 {
      AfterKeysConsistent(tiles, score, keys[..|keys| - 1], now, tol);
      var before := AfterKeys(tiles, score, keys[..|keys| - 1], now, tol);
      if KeyLane(keys[|keys| - 1]).Some? {
        JudgeKeepsConsistent(before.0, KeyLane(keys[|keys| - 1]).value, now, tol, before.1);
      }
    }
  }

  // ---------------------------------------------------------------------------
  // Activation cursor

  /** Where the activation cursor stops: the first index at or after `from` whose
      time lies beyond `now + LOOKAHEAD`, or the end of the chart. */
  function Horizon(chart: seq<Tile>, from: nat, now: int): (k: nat)
    requires from <= |chart|
    ensures from <= k <= |chart|
    ensures forall j :: from <= j < k ==> chart[j].time <= now + LOOKAHEAD
    ensures k == |chart| || chart[k].time > now + LOOKAHEAD
    decreases |chart| - from
  {
    if from == |chart| || chart[from].time > now + LOOKAHEAD then from
    else Horizon(chart, from + 1, now)
  }

  /** A later playback time never stops the cursor earlier. */
  lemma {:induction false} HorizonMonotone(chart: seq<Tile>, from: nat, now: int, later: int)
    requires from <= |chart| && now <= later
    ensures Horizon(chart, from, now) <= Horizon(chart, from, later)
    decreases |chart| - from
  {
    if from < |chart| && chart[from].time <= now + LOOKAHEAD {
      HorizonMonotone(chart, from + 1, now, later);
    }
  }

  /** On a chart sorted by time, nothing past the cursor is due yet. */
  lemma HorizonComplete(chart: seq<Tile>, from: nat, now: int)
    requires from <= |chart|
    requires forall i, j :: 0 <= i < j < |chart| ==> chart[i].time <= chart[j].time
    ensures forall j :: Horizon(chart, from, now) <= j < |chart| ==> chart[j].time > now + LOOKAHEAD
  {
  }

  // ---------------------------------------------------------------------------
  // Positions and the miss sweep

  /** y (in thousandths of a pixel) of a tile `now`: elapsed ms times pixels per second. */
  function YAt(t: Tile, now: int): int { (now - t.time) * SPEED }

  /** Every tile's y recomputed from the playback time alone. */
  function Repositioned(ts: seq<Tile>, now: int): (r: seq<Tile>)
    ensures |r| == |ts|
    ensures forall i :: 0 <= i < |ts| ==>
      r[i].yMilli == YAt(ts[i], now) && r[i] == ts[i].(yMilli := r[i].yMilli)
  {
    seq(|ts|, i requires 0 <= i < |ts| => ts[i].(yMilli := YAt(ts[i], now)))
  }

  /** Whatever y the tiles held before (for instance the drawing offset), the
      recomputed positions are the same. */
  lemma RepositionedForgetsY(ts: seq<Tile>, us: seq<Tile>, now: int)
    requires |ts| == |us|
    requires forall i :: 0 <= i < |ts| ==> ts[i] == us[i].(yMilli := ts[i].yMilli)
    ensures Repositioned(ts, now) == Repositioned(us, now)
  {
    var a, b := Repositioned(ts, now), Repositioned(us, now);
    forall i | 0 <= i < |ts| ensures a[i] == b[i] {
    }
  }

  /** Below the bottom edge of the screen. */
  predicate PastBottom(t: Tile) { t.yMilli > HEIGHT * 1000 }

  /** Every active tile past the bottom edge marked as missed. */
  function Swept(ts: seq<Tile>): (r: seq<Tile>)
    ensures |r| == |ts|
    ensures forall i :: 0 <= i < |ts| ==> SameNote(r[i], ts[i]) && r[i].yMilli == ts[i].yMilli
    ensures forall i :: 0 <= i < |ts| ==> (r[i] != ts[i] <==> ts[i].active && PastBottom(ts[i]))
    ensures forall i :: 0 <= i < |ts| && r[i] != ts[i] ==> r[i] == Consume(ts[i])
  {
    seq(|ts|, i requires 0 <= i < |ts| => if PastBottom(ts[i]) && ts[i].active then Consume(ts[i]) else ts[i])
  }

  /** A second sweep with the same positions changes nothing. */
  lemma SweptIdempotent(ts: seq<Tile>)
    ensures Swept(Swept(ts)) == Swept(ts)
  {
    var once := Swept(ts);
    var twice := Swept(once);
    forall i | 0 <= i < |ts| ensures twice[i] == once[i] {
    }
  }

  /** After a sweep no active tile is past the bottom edge. */
  lemma SweptLeavesNoneBelow(ts: seq<Tile>)
    ensures forall i :: 0 <= i < |ts| && Swept(ts)[i].active ==> !PastBottom(Swept(ts)[i])
  {
  }

  /** A tile is past the bottom edge exactly when it is later than SOURCE_TOLERANCE:
      the sweep and a late press use the same boundary. */
  lemma PastBottomIsTooLate(t: Tile, now: int)
    ensures PastBottom(t.(yMilli := YAt(t, now))) <==> TooLate(now - t.time, SOURCE_TOLERANCE)
  {
  }

  // ---------------------------------------------------------------------------
  // The game loop

  /** The state the game loop keeps between frames. */
  class Game {
    const tolerance: int
    const chart: seq<Tile>
    var activeTiles: seq<Tile>
    var chartIndex: nat
    var score: int
    var gameOver: bool

    /** The loaded chart is fresh, the active tiles are the chart's first
        `chartIndex` tiles (with their own flags and positions), flags agree. */
    ghost predicate Valid()
      reads this
    {
      && chartIndex <= |chart|
      && |activeTiles| == chartIndex
      && (forall i :: 0 <= i < |chart| ==> chart[i].active && !chart[i].triggered)
      && (forall i :: 0 <= i < |activeTiles| ==> SameNote(activeTiles[i], chart[i]))
      && AllConsistent(activeTiles)
      && 0 <= score
    }

    constructor (file: ChartFile, tolerance: int)
      ensures Valid() && this.tolerance == tolerance
      ensures |chart| == if file.Parsed? then |file.notes| else 0
      ensures file.Parsed? ==> forall i :: 0 <= i < |chart| ==> chart[i] == NewTile(file.notes[i])
      ensures activeTiles == [] && chartIndex == 0 && score == 0 && !gameOver
    {
      var tiles := LoadChart(file);
      this.tolerance := tolerance;
      chart := tiles;
      activeTiles := [];
      chartIndex := 0;
      score := 0;
      gameOver := false;
    }

    /** Judges a press on `lanePressed` against the active tiles, in list order. */
    method HandleKeyPress(lanePressed: int, currentTime: int) returns (success: bool)
      requires Valid()
      modifies this
      ensures Valid()
      ensures chartIndex == old(chartIndex) && gameOver == old(gameOver)
      ensures var j := Judge(old(activeTiles), lanePressed, currentTime, tolerance, old(score));
        activeTiles == j.tiles && score == j.score && success == j.success
    {
      var i := 0;
      while i < |activeTiles|
        invariant 0 <= i <= |activeTiles|
        invariant activeTiles == old(activeTiles) && score == old(score)
        invariant chartIndex == old(chartIndex) && gameOver == old(gameOver)
        invariant FirstDecisive(activeTiles, lanePressed, currentTime, tolerance, i)
               == FirstDecisive(activeTiles, lanePressed, currentTime, tolerance, 0)
      {
        var tile := activeTiles[i];
        if !tile.active || tile.triggered || tile.lane != lanePressed {
          i := i + 1;
          continue;
        }
        var diff := currentTime - tile.time;
        if Abs(diff) <= tolerance {
          activeTiles := activeTiles[i := tile.(active := false, triggered := true)];
          score := score + 1;
          return true;
        } else if diff > tolerance {
          activeTiles := activeTiles[i := tile.(active := false, triggered := true)];
          return false;
        } else {
          i := i + 1;
        }
      }
      return true;
    }

    /** A key event: A/F/H/L press their lane while the game is not over; the
        judgment's flag is not used. */
    method KeyPressed(key: Key, currentTime: int)
      requires Valid()
      modifies this
      ensures Valid()
      ensures chartIndex == old(chartIndex) && gameOver == old(gameOver)
      ensures old(gameOver) || KeyLane(key).None? ==> activeTiles == old(activeTiles) && score == old(score)
      ensures !old(gameOver) && KeyLane(key).Some? ==>
        var j := Judge(old(activeTiles), KeyLane(key).value, currentTime, tolerance, old(score));
        activeTiles == j.tiles && score == j.score
    {
      if !gameOver {
        var success := true;
        if key == KeyA { success := HandleKeyPress(0, currentTime); }
        if key == KeyF { success := HandleKeyPress(1, currentTime); }
        if key == KeyH { success := HandleKeyPress(2, currentTime); }
        if key == KeyL { success := HandleKeyPress(3, currentTime); }
      }
    }

    /** Moves every chart tile due within the lookahead into the active tiles. */
    method Advance(currentTime: int)
      requires Valid()
      modifies this
      ensures Valid()
      ensures old(chartIndex) <= chartIndex == Horizon(chart, old(chartIndex), currentTime)
      ensures activeTiles == old(activeTiles) + chart[old(chartIndex)..chartIndex]
      ensures score == old(score) && gameOver == old(gameOver)
    {
      while chartIndex < |chart| && chart[chartIndex].time <= currentTime + LOOKAHEAD
        invariant Valid()
        invariant old(chartIndex) <= chartIndex
        invariant Horizon(chart, chartIndex, currentTime) == Horizon(chart, old(chartIndex), currentTime)
        invariant activeTiles == old(activeTiles) + chart[old(chartIndex)..chartIndex]
        invariant score == old(score) && gameOver == old(gameOver)
        decreases |chart| - chartIndex
      {
        activeTiles := activeTiles + [chart[chartIndex]];
        chartIndex := chartIndex + 1;
      }
    }

    /** Recomputes every active tile's y from the playback time. */
    method UpdatePositions(currentTime: int)
      requires Valid()
      modifies this
      ensures Valid()
      ensures activeTiles == Repositioned(old(activeTiles), currentTime)
      ensures chartIndex == old(chartIndex) && score == old(score) && gameOver == old(gameOver)
    {
      for i := 0 to |activeTiles|
        invariant |activeTiles| == |old(activeTiles)|
        invariant forall k :: 0 <= k < i ==> activeTiles[k] == old(activeTiles)[k].(yMilli := YAt(old(activeTiles)[k], currentTime))
        invariant forall k :: i <= k < |activeTiles| ==> activeTiles[k] == old(activeTiles)[k]
        invariant chartIndex == old(chartIndex) && score == old(score) && gameOver == old(gameOver)
      {
        var tile := activeTiles[i];
        var elapsed := currentTime - tile.time;
        activeTiles := activeTiles[i := tile.(yMilli := elapsed * SPEED)];
      }
    }

    /** Marks every active tile below the screen as missed. */
    method SweepMisses()
      requires Valid()
      modifies this
      ensures Valid()
      ensures activeTiles == Swept(old(activeTiles))
      ensures chartIndex == old(chartIndex) && score == old(score) && gameOver == old(gameOver)
    {
      for i := 0 to |activeTiles|
        invariant |activeTiles| == |old(activeTiles)|
        invariant forall k :: 0 <= k < i ==> activeTiles[k] == Swept(old(activeTiles))[k]
        invariant forall k :: i <= k < |activeTiles| ==> activeTiles[k] == old(activeTiles)[k]
        invariant chartIndex == old(chartIndex) && score == old(score) && gameOver == old(gameOver)
      {
        var tile := activeTiles[i];
        if tile.yMilli > HEIGHT * 1000 && tile.active {
          activeTiles := activeTiles[i := tile.(active := false, triggered := true)];
        }
      }
    }

    /** One frame of the main loop at playback time `currentTime`: the frame's key
        events in order, then activation, positions and the miss sweep. */
    method Frame(keys: seq<Key>, currentTime: int)
      requires Valid()
      modifies this
      ensures Valid()
      ensures gameOver == old(gameOver)
      ensures old(score) <= score <= old(score) + |keys|
      ensures old(chartIndex) <= chartIndex == Horizon(chart, old(chartIndex), currentTime)
      ensures forall i :: 0 <= i < |activeTiles| ==> activeTiles[i].yMilli == YAt(activeTiles[i], currentTime)
      ensures forall i :: 0 <= i < |activeTiles| && activeTiles[i].active ==> !PastBottom(activeTiles[i])
      ensures var k := if old(gameOver) then (old(activeTiles), old(score))
                       else AfterKeys(old(activeTiles), old(score), keys, currentTime, tolerance);
        && activeTiles == Swept(Repositioned(k.0 + chart[old(chartIndex)..chartIndex], currentTime))
        && score == k.1
    {
      for n := 0 to |keys|
        invariant Valid()
        invariant old(score) <= score <= old(score) + n
        invariant chartIndex == old(chartIndex) && gameOver == old(gameOver)
        invariant old(gameOver) ==> activeTiles == old(activeTiles) && score == old(score)
        invariant !old(gameOver) ==>
          (activeTiles, score) == AfterKeys(old(activeTiles), old(score), keys[..n], currentTime, tolerance)
      {
        assert keys[..n + 1][..n] == keys[..n];
        KeyPressed(keys[n], currentTime);
      }
      assert keys[..|keys|] == keys;
      Advance(currentTime);
      UpdatePositions(currentTime);
      SweepMisses();
    }
  }
}
