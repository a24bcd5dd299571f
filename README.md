# Don't touch the white block: judgment, scheduling and chart generation

This project models the game logic of a four-lane rhythm game and the lane
assignment of its chart generator, and proves properties of both.

**The game (`white_block.dfy`, module `WhiteBlock`).**
- Loading: a chart file is a list of notes `{time, lane, duration}`. Loading turns each note into a tile, in order, with `active = true` and `triggered = false`. An unreadable file gives no tiles.
- Per-frame state: the game keeps a cursor into the chart, the list of active tiles, the score and a game-over flag. These are the fields of class `Game`.
- Order of work in each frame:
  1. Key events are judged. Keys A, F, H and L press lanes 0 to 3.
  2. Chart tiles due within 1500 ms of the playback time join the active tiles.
  3. Every active tile's position is recomputed from the elapsed time.
  4. Active tiles that have fallen below the screen are marked as missed.
- Judging a press: the game scans the active tiles in list order. It skips tiles that are done or on other lanes, and tiles for which the press is too early. It acts on the first remaining tile:
  - within the tolerance the tile is consumed, the score rises by one, and the result is `true`;
  - later than the tolerance the tile is consumed without score, and the result is `false`;
  - if no tile remains, nothing changes and the result is `true`.
- Time units: times are whole milliseconds. Positions are kept in thousandths of a pixel (`yMilli`), so the source's `elapsed / 1000 * SPEED` is the exact integer `elapsed * SPEED`.
- Tolerance: it is a constructor parameter. The source's value, `HEIGHT / SPEED * 1000` = 2333.3…, decides exactly like the integer 2333 on whole-millisecond differences (`SourceToleranceExact`).

**The chart generator (`chart_gen.dfy`, module `ChartGen`).**
- Each onset (in ms) becomes a note whose duration is the gap to the next onset, or 500 ms for the last onset.
- The lane is drawn from the candidates. A candidate is a lane that is not the last lane used and whose previous note ended at least `MIN_GAP` earlier.
- With no candidate the onset is skipped.
- `random.choice` is an arbitrary draw function `draw`. At onset `i` the candidate at index `draw(i) mod |candidates|` is taken. Every candidate can be drawn (`PickCovers`).
- The loop is `GenerateChart`, and its body is `HandleOnset`. Both are proved against the pure step function `Step` and its left fold `Prefix`/`Generate`. The properties of the chart are proved about `Generate`.

`chart.dfy` (module `Chart`) holds the note record shared by both parts.

## Model

| member | source | states |
|---|---|---|
| WhiteBlock.LoadChart | dont_touch_white_block.cpp:29-51 | one tile per note in note order, each the tile NewTile makes from its note: time, lane and duration copied, y = -duration·SPEED/1000, active and not triggered; an unopenable file yields no tiles |
| WhiteBlock.FirstDecisive | dont_touch_white_block.cpp:54-75 | the index of the first tile from `from` that is eligible (active, untriggered, on the lane) and not too early, or the end; every tile before it is not decisive |
| WhiteBlock.Judge | dont_touch_white_block.cpp:53-80 | a press keeps the tile count; score rises by 0 or 1, and only with a true result; tiles and score are unchanged exactly when the result is true without scoring; only the note fields are kept; at most one tile changes, and it was eligible and is now consumed |
| WhiteBlock.JudgeHit | dont_touch_white_block.cpp:58-66 | when the first eligible tile not too early is within ±tolerance, it alone is consumed, score + 1, result true |
| WhiteBlock.JudgeLate | dont_touch_white_block.cpp:67-71 | when that tile is later than the tolerance, it alone is consumed, score unchanged, result false |
| WhiteBlock.JudgeAllEarly | dont_touch_white_block.cpp:72-79 | when every eligible tile is too early (or none exists) nothing changes and the result is true |
| WhiteBlock.JudgeFailsOnlyLate | dont_touch_white_block.cpp:61-79 | the result is false exactly when a late tile was consumed |
| WhiteBlock.JudgeKeepsConsistent | dont_touch_white_block.cpp:62-63 | a press keeps `active == !triggered` on every tile |
| WhiteBlock.SourceToleranceExact | dont_touch_white_block.cpp:18 | the float tolerance 700/300·1000 and the integer 2333 give the same window and late decisions for whole-ms differences |
| WhiteBlock.KeyLane | dont_touch_white_block.cpp:129-134 | A, F, H, L select a lane in [0, 4); exactly the other keys select none |
| WhiteBlock.KeyLaneOneToOne | dont_touch_white_block.cpp:131-134 | distinct keys select distinct lanes and every lane has a key |
| WhiteBlock.Horizon | dont_touch_white_block.cpp:145-148 | the cursor's stop: every skipped-over tile is due within now + 1500, and the stop is the end or a tile beyond it |
| WhiteBlock.HorizonMonotone | dont_touch_white_block.cpp:145-148 | a later playback time never stops the cursor earlier |
| WhiteBlock.HorizonComplete | dont_touch_white_block.cpp:145-148 | on a time-sorted chart no tile past the cursor is due |
| WhiteBlock.Repositioned | dont_touch_white_block.cpp:151-154 | every tile's y becomes elapsed·SPEED/1000 and nothing else changes |
| WhiteBlock.RepositionedForgetsY | dont_touch_white_block.cpp:151-154 | the recomputed positions do not depend on the y held before |
| WhiteBlock.Swept | dont_touch_white_block.cpp:157-163 | exactly the active tiles with y > HEIGHT change, and they become consumed; notes and y are kept |
| WhiteBlock.SweptIdempotent | dont_touch_white_block.cpp:157-163 | a second sweep with the same positions changes nothing |
| WhiteBlock.SweptLeavesNoneBelow | dont_touch_white_block.cpp:157-163 | after a sweep no active tile is below the screen |
| WhiteBlock.PastBottomIsTooLate | dont_touch_white_block.cpp:153-158 | with y recomputed, a tile is below the screen exactly when a press on it would be late under the source tolerance |
| WhiteBlock.Game.constructor | dont_touch_white_block.cpp:107-113 | the chart is the loaded file: tile i is the tile made from note i (none for an unreadable file); no tile is active, cursor and score are 0, the game is not over |
| WhiteBlock.Game.HandleKeyPress | dont_touch_white_block.cpp:53-80 | the in-place scan leaves the tiles, score and result given by Judge, and keeps the game invariant |
| WhiteBlock.Game.KeyPressed | dont_touch_white_block.cpp:129-141 | while the game is not over a lane key applies Judge to its lane; other keys, or a finished game, change nothing; the flag is unused and gameOver never changes |
| WhiteBlock.Game.Advance | dont_touch_white_block.cpp:145-148 | the cursor moves forward to Horizon and exactly the tiles passed over are appended to the active tiles |
| WhiteBlock.Game.UpdatePositions | dont_touch_white_block.cpp:151-154 | the active tiles become Repositioned |
| WhiteBlock.Game.SweepMisses | dont_touch_white_block.cpp:157-163 | the active tiles become Swept; score and cursor unchanged |
| WhiteBlock.AfterKeys | dont_touch_white_block.cpp:124-142 | the tiles and score after a frame's key events in order; tile count and notes kept, score rises by at most one per key |
| WhiteBlock.AfterOtherKeys | dont_touch_white_block.cpp:129-134 | keys that select no lane change neither tiles nor score |
| WhiteBlock.AfterKeysConsistent | dont_touch_white_block.cpp:62-63 | any sequence of presses keeps `active == !triggered` on every tile |
| WhiteBlock.Game.Frame | dont_touch_white_block.cpp:117-163 | one loop iteration: the new active tiles are the key-judged tiles (AfterKeys, or unchanged once the game is over) plus the newly activated chart tiles, repositioned and swept; the score is AfterKeys' score; the cursor ends at Horizon, every y is current and no active tile is below the screen |
| ChartGen.CandidatesFrom | processMP3file.py:39 | a lane from `l` upward is listed exactly when it is not the last lane and free for MIN_GAP |
| ChartGen.Candidates | processMP3file.py:39 | a lane is a candidate exactly when it is in range, not the last lane and free for MIN_GAP |
| ChartGen.CandidatesAscending | processMP3file.py:39 | the candidates are listed in ascending lane order without repetition |
| ChartGen.Pick | processMP3file.py:45 | the drawn lane is one of the candidates |
| ChartGen.PickCovers | processMP3file.py:45 | every candidate is the outcome of some draw |
| ChartGen.StepEffect | processMP3file.py:30-54 | an onset is skipped, leaving the state unchanged, exactly when no lane is free; otherwise one note is appended with the onset's time and duration, on a free lane other than the last, which becomes the last lane, and only that lane's end time moves, to the note's end |
| ChartGen.HandleOnset | processMP3file.py:30-54 | the loop body leaves the state Step describes |
| ChartGen.GenerateChart | processMP3file.py:23-54 | the loop's chart is Generate's chart |
| ChartGen.StepAlternating | processMP3file.py:39-46 | one onset keeps lanes in range, consecutive notes on different lanes and `last_lane` equal to the last note's lane |
| ChartGen.PrefixAlternating | processMP3file.py:29-54 | the same after any number of onsets |
| ChartGen.GenerateAlternates | processMP3file.py:39-46 | every note's lane is in [0, 4) and differs from the previous note's lane |
| ChartGen.StepFromOnsets | processMP3file.py:30-54 | one onset appends at most the note of that onset, with its time and duration |
| ChartGen.PrefixFromOnsets | processMP3file.py:29-54 | after n onsets the notes come from strictly increasing onset indices below n |
| ChartGen.GenerateFollowsOnsets | processMP3file.py:29-54 | each note carries its own onset's time and the gap to the next onset (skipped or not) as duration, in onset order; there are at most as many notes as onsets |
| ChartGen.GenerateOrdered | processMP3file.py:29-54 | on sorted onsets note times never decrease |
| ChartGen.DurationsNonNegative | processMP3file.py:33-36 | on sorted onsets every duration is non-negative |
| ChartGen.AppendSpaced | processMP3file.py:39-48 | a note starting MIN_GAP after its lane's end, recorded as the lane's new end, keeps the spacing invariant |
| ChartGen.StepSpaced | processMP3file.py:39-48 | one onset keeps the spacing invariant |
| ChartGen.PrefixSpaced | processMP3file.py:29-54 | the spacing invariant holds after any number of onsets |
| ChartGen.GenerateSpaced | processMP3file.py:39-48 | on sorted onsets with a non-negative MIN_GAP no note starts before MIN_GAP, and a note starts at least MIN_GAP after every earlier note on its lane has ended |

## Left out

- Window, event polling, fonts, music, drawing and the score text (dont_touch_white_block.cpp:84-104, 117-126, 165-196) are I/O. The playback time of a frame and its key events become parameters of `Game.Frame`.
- The render-time `y -= height` write at dont_touch_white_block.cpp:184 is drawing only. Line 153 overwrites it before the next sweep, and `RepositionedForgetsY` states why it cannot matter.
- Opening the chart file and JSON parsing (dont_touch_white_block.cpp:31-38) are abstracted. `loadChart` receives either an unreadable file or its parsed notes.
- Floating point is left out: times are whole milliseconds and positions are scaled integers. The source's float comparisons agree with the integer ones for the values it uses (`SourceToleranceExact`).
- The debug output (`cout`, `printf`) and the commented-out game-over branch (dont_touch_white_block.cpp:121-123, 136-140) are left out. The branch is not live code, so `gameOver` is never set.
- Several behaviours described for the game are not in the code: long-note splitting, scroll calibration, a freeze after a mistake, key debouncing and a strict mode that ends the game on an early or late press. The model follows the code. Early presses are ignored and late presses only consume the tile.
- The song-selection menu (select_song.cpp) is left out. It is UI code over float screen coordinates.
- Loading audio, beat tracking, onset detection and the float derivation of `MIN_GAP` (processMP3file.py:5-21) use a foreign library. The onset list in ms and `MIN_GAP` are inputs, and the output file (processMP3file.py:56-60) is left out.
- ChartGen.Duration: onsets enter as whole ms, so a duration is `onsets[i+1] - onsets[i]`. The source computes `int((t[i+1] - t[i]) * 1000)` from seconds, which can differ from the gap of the truncated ms values by one.
- ChartGen.Pick: `random.choice` is an arbitrary draw per onset, not a particular random generator.
- ChartGen.Step: its own contract only keeps four lane end times. What one onset does is stated by `StepEffect`.
