# Surface-code decoding contest: scoring model

This project models, in Dafny, the scoring core of the visualiser and
scorer for a surface-code decoding contest (`wasm/src/util.rs`).

An input holds `t` independent instances. Each instance lists the X, Z and
measurement errors of every round on a `d`×`d` lattice (`d = 21`,
`c = 100` rounds). The lattice is a chequerboard:
- cells with `i + j` even are data cells;
- the other cells are measurement cells;
- a measurement cell in an odd column checks the X parity grid, one in an
  even column checks the Z grid.

A contestant's output lists, per instance and per round, the X and Z
corrections. Scoring an instance works like this:
1. XOR every error and every correction into two parity grids. Within each
   round, the Z list is applied before the X list.
2. Count the measurement cells whose in-bounds neighbours hold an odd
   number of 1s.
3. Award `round(5000 * (220 - f) / 220)` for `f` such cells.
4. When `f = 0`, run the "hakidashi" sweep. It moves X errors towards
   row 0 and Z errors towards column 0 without changing the syndrome. With
   a clean syndrome, every data-cell error left behind lies in that row or
   column and copies the corner cell (0, 0), so the corner decides. Award
   5000 when both corner cells are clean and 2000 when exactly one is.

The visualiser first validates every correction: it must lie inside the
lattice and on a data cell. It then scores the output and computes the
grids that animation step `turn` shows. The generator and the text formats
are modelled too.

Modules:
- `Lattice` — coordinates, parity grids, cell classes.
- `Accumulator` — XOR accumulation of coordinate lists.
- `Syndrome` — faulty measurement cells and the count of measurement cells.
- `Sweep` — the hakidashi sweep.
- `Instances` — the input and output records.
- `Score` — `calculate_score`.
- `Corner` — why the sweep keeps the syndrome and why, with a clean syndrome, the corner cells decide the bonus.
- `Validation` — the correction check at the start of `vis`.
- `Visualiser` — `vis`: validation, score and per-step frame.
- `Generator` — `gen`, over an abstract stream of random draws.
- `Serialisation` — `Display for Input`, `parse_input` and `parse_output`, at the token level.
- `Wrappers` — `Option`.

## Model

| member | source | states |
|---|---|---|
| Lattice.ZeroGrid | wasm/src/util.rs:335-340 | The starting grids are `d`×`d` and all zero. |
| Lattice.Toggle | wasm/src/util.rs:343-350 | `^= 1` flips exactly the named cell and keeps every other cell and the shape. |
| Lattice.ToggleTwice | wasm/src/util.rs:343-350 | Flipping the same cell twice restores the grid. |
| Accumulator.ToggleList | wasm/src/util.rs:343-346 | After one list is applied, each cell is flipped exactly when its coordinate occurs an odd number of times in the list. |
| Accumulator.ApplyRounds | wasm/src/util.rs:342-351 | Applying rounds `0 .. n-1` of one channel keeps the grid `d`×`d`. |
| Accumulator.ApplyRoundsParity | wasm/src/util.rs:342-362 | After rounds `0 .. n-1`, each cell is flipped exactly when its coordinate occurs an odd number of times over those rounds. The order of the lists does not matter. |
| Accumulator.ApplyRoundsBoth | wasm/src/util.rs:342-351 | The interleaved round loop (Z list, then X list) keeps both grids `d`×`d`. |
| Accumulator.ChannelsIndependent | wasm/src/util.rs:342-362 | The interleaved loop equals two separate per-channel loops: the X grid never depends on Z data. |
| Accumulator.ToggleListTwice | wasm/src/util.rs:343-350 | Applying one list twice restores the grid. |
| Accumulator.ApplyRoundsTwice | wasm/src/util.rs:342-362 | Applying the same rounds twice restores the grid, so a correction equal to the error cancels it. |
| Accumulator.OddIsRemainder | wasm/src/util.rs:388 | The parity predicate is the `% 2` test. |
| Accumulator.OddAdd | wasm/src/util.rs:342-362 | The parity of a sum is the XOR of the parities. |
| Accumulator.ApplyRoundsAt | wasm/src/util.rs:342-362 | The per-cell form of `ApplyRoundsParity`. |
| Accumulator.ResidualAt | wasm/src/util.rs:335-362 | From a zero cell, errors then corrections leave the parity of the combined occurrence count. |
| Accumulator.ResidualParity | wasm/src/util.rs:335-362 | From a zero grid, errors then corrections leave every cell at the parity of how often its coordinate was listed in total. |
| Accumulator.ApplyEmptyRounds | wasm/src/util.rs:353-362 | Empty lists leave the grid unchanged. |
| Syndrome.RowFaults | wasm/src/util.rs:366-389 | Faulty cells in part of a row never outnumber the measurement cells there. |
| Syndrome.GridFaults | wasm/src/util.rs:365-390 | Faulty cells in the first rows never outnumber the measurement cells there. |
| Syndrome.RowFaultsZero | wasm/src/util.rs:366-389 | A row contributes 0 exactly when none of its cells is faulty. |
| Syndrome.GridFaultsZero | wasm/src/util.rs:365-390 | The count over the first rows is 0 exactly when none of their cells is faulty. |
| Syndrome.FaultyCount | wasm/src/util.rs:364-390 | `faulty_syndrome_count` is at most the number of measurement cells, and is 0 exactly when no measurement cell is faulty. |
| Syndrome.ZeroGridsHaveCleanSyndrome | wasm/src/util.rs:364-390 | Two all-zero grids give a count of 0. |
| Syndrome.RowMeasurementsFormula | wasm/src/util.rs:367-369 | Closed form for the measurement cells of a row prefix. |
| Syndrome.GridMeasurementsFormula | wasm/src/util.rs:365-369 | Closed form for the measurement cells of the first rows. |
| Syndrome.HalfSquare | wasm/src/util.rs:365-369 | A `d`×`d` lattice has `d*d/2` measurement cells. |
| Syndrome.MeasurementCountFormula | wasm/src/util.rs:391 | That count is `d*d/2`, which is 220 for `d = 21`: the hard-wired 220 is the 21×21 measurement-cell count. |
| Syndrome.NeighbourCount | wasm/src/util.rs:370-387 | The four-direction loop, with its bounds test, counts the 1s among the in-bounds neighbours in the grid the cell checks (X for odd columns, Z for even). |
| Syndrome.CountFaulty | wasm/src/util.rs:364-390 | The double loop adds `correction % 2` over measurement cells and returns `FaultyCount`, bounded by the measurement-cell count. |
| Sweep.MoveX | wasm/src/util.rs:295-303 | One X-pass move flips exactly (i+1, j), (i, j±1) where in range, and (i-1, j). |
| Sweep.MoveZ | wasm/src/util.rs:316-324 | One Z-pass move flips exactly (i, j+1), (i±1, j) where in range, and (i, j-1). |
| Sweep.MoveXTwice | wasm/src/util.rs:295-303 | A move is its own inverse. |
| Sweep.StepX | wasm/src/util.rs:295-304 | One step clears (i+1, j) and never touches a measurement cell, a row outside i-1 .. i+1, or another cell of row i+1. It is the identity when (i+1, j) is already clear. |
| Sweep.RowX | wasm/src/util.rs:291-305 | The column loop clears every even cell of row i+1 from column j on. It leaves earlier columns, rows outside i-1 .. i+1 and measurement cells alone. |
| Sweep.PassX | wasm/src/util.rs:287-306 | The bottom-up row loop clears every even data row from 2 to n and leaves rows below n and all measurement cells alone. |
| Sweep.SweepX | wasm/src/util.rs:287-306 | After the X pass, every even row from 2 on is clear at its even columns. Measurement cells are unchanged, and a zero grid stays zero. Row 0 and the odd rows are constrained only through the syndrome, in `Corner.CleanXResidue`. |
| Sweep.RowXCleared | wasm/src/util.rs:291-305 | The column loop on an already cleared row changes nothing. |
| Sweep.PassXCleared | wasm/src/util.rs:287-306 | The X pass on already cleared rows changes nothing. |
| Sweep.ZeroPassX | wasm/src/util.rs:287-306 | The X pass leaves a zero grid zero. |
| Sweep.SweepXIdempotent | wasm/src/util.rs:287-306 | Sweeping twice is sweeping once. |
| Sweep.StepZ | wasm/src/util.rs:316-325 | One Z step keeps the grid `d`×`d`. Its effect is stated through `StepTranspose`. |
| Sweep.ColZ | wasm/src/util.rs:312-326 | The row loop of the Z pass keeps the grid `d`×`d`. |
| Sweep.PassZ | wasm/src/util.rs:308-327 | The right-to-left column loop keeps the grid `d`×`d`. |
| Sweep.StepTranspose | wasm/src/util.rs:295-325 | A Z step is an X step on the transposed grid. |
| Sweep.ColTranspose | wasm/src/util.rs:291-326 | The Z row loop is the X column loop on the transposed grid. |
| Sweep.PassTranspose | wasm/src/util.rs:287-327 | The Z pass is the X pass on the transposed grid. |
| Sweep.PassZProperties | wasm/src/util.rs:308-327 | The Z pass clears every even data column from 2 on and leaves measurement cells alone. |
| Sweep.PassZCleared | wasm/src/util.rs:308-327 | The Z pass on already cleared columns changes nothing. |
| Sweep.SweepZ | wasm/src/util.rs:308-327 | After the Z pass, every even column from 2 on is clear at its even rows. Measurement cells are unchanged, and a zero grid stays zero. Column 0 and the odd columns are constrained only through the syndrome, in `Corner.CleanZResidue`. |
| Sweep.ZeroPassZ | wasm/src/util.rs:308-327 | The Z pass leaves a zero grid zero. |
| Sweep.SweepZIdempotent | wasm/src/util.rs:308-327 | Sweeping twice is sweeping once. |
| Sweep.Hakidashi | wasm/src/util.rs:278-330 | The swept X grid is clear on every even row from 2 on, and the swept Z grid on every even column from 2 on, at their data cells. Measurement cells are unchanged, and zero grids are returned unchanged. |
| Corner.MoveXCheck | wasm/src/util.rs:295-303 | One move of the X pass keeps the parity that every X check reads. |
| Corner.SweepXKeepsSyndrome | wasm/src/util.rs:287-306 | Every X check reads the same parity before and after the X pass. |
| Corner.SweepZKeepsSyndrome | wasm/src/util.rs:308-327 | Every Z check reads the same parity before and after the Z pass. |
| Corner.HakidashiKeepsSyndrome | wasm/src/util.rs:278-330 | Each measurement cell is faulty after the sweep exactly when it was before, so `faulty_syndrome_count` is unchanged. |
| Corner.OddRowClear | wasm/src/util.rs:364-390 | With a clean X syndrome and the even rows from 2 on clear, every odd row is clear at its odd columns. |
| Corner.RowZeroConstant | wasm/src/util.rs:364-390 | Under the same conditions, every even cell of row 0 equals the corner. |
| Corner.CleanXResidue | wasm/src/util.rs:287-306 | A grid the X pass leaves behind with a clean X syndrome holds data-cell errors only in row 0, and each equals the corner. |
| Corner.CleanZResidue | wasm/src/util.rs:308-327 | With a clean Z syndrome, the Z pass leaves data-cell errors only in column 0, and each equals the corner. |
| Corner.CleanSyndromeSweepsToCorner | wasm/src/util.rs:278-330 | When no measurement cell is faulty, the swept X grid is clear outside row 0 and the swept Z grid outside column 0. Each of those lines is a copy of its corner cell. |
| Corner.FullScoreClearsData | wasm/src/util.rs:364-404 | An instance scores 10000 exactly when its syndrome is clean and both swept grids have no data-cell error at all. Testing the two corners tests the whole lattice. |
| Score.BaseScore | wasm/src/util.rs:391 | The result is the integer nearest to `5000 * (220 - f) / 220`. It is 5000 exactly when `f = 0`, below 5000 otherwise, and within 0 .. 5000 for `f <= 220`. |
| Score.Bonus | wasm/src/util.rs:393-404 | 5000 when both corner cells are clear, 2000 when exactly one is, 0 when both are set. |
| Score.InstanceScore | wasm/src/util.rs:364-404 | With `f` faulty cells, `f > 0` scores the integer nearest `5000 * (220 - f) / 220`, which is below 5000. A clean syndrome scores 10000, 7000 or 5000 when none, one or both swept corner cells hold an error. The three clean-syndrome values are each stated as an if-and-only-if. The score is in 0 .. 10000 when `f <= 220`. |
| Score.ChannelResidual | wasm/src/util.rs:335-362 | The residual grid of one channel holds, per cell, the parity of how often errors and corrections listed it. |
| Score.Accumulate | wasm/src/util.rs:335-362 | The two interleaved round loops of `calculate_score` keep both grids `d`×`d`. |
| Score.AccumulatePerChannel | wasm/src/util.rs:335-362 | Each grid of the interleaved accumulation is the residual of its own channel. |
| Score.AccumulateCells | wasm/src/util.rs:335-362 | Each accumulated cell is the parity of errors plus corrections at that coordinate. |
| Score.Residual | wasm/src/util.rs:334-362 | The residual of instance `k` over all `c` rounds, per cell the parity of listed errors plus corrections. |
| Score.SumBounds | wasm/src/util.rs:333 | A total of values in 0 .. hi lies in 0 .. hi times their number. |
| Score.SumConstant | wasm/src/util.rs:333 | A total of equal values is that value times their number. |
| Score.CaseScores | wasm/src/util.rs:334-405 | One score per instance, in case order. Instance `k` with `f > 0` faulty cells in its residual scores the integer nearest `5000 * (220 - f) / 220`. With a clean residual syndrome it scores 10000, 7000 or 5000 when none, one or both swept corner cells hold an error. |
| Score.CaseScoresBounded | wasm/src/util.rs:334-405 | On the 21×21 lattice every instance scores 0 .. 10000. |
| Score.TotalScore | wasm/src/util.rs:332-408 | On the 21×21 lattice the total over `n` instances is in 0 .. 10000·n. |
| Score.CalculateScore | wasm/src/util.rs:332-408 | On the 21×21 lattice the total is in 0 .. 10000·t. |
| Score.QuietResidualIsZero | wasm/src/util.rs:335-362 | With no errors and no corrections, both residual grids are zero. |
| Score.QuietRoundsNeverList | wasm/src/util.rs:342-351 | Empty rounds list no coordinate. |
| Score.QuietInstanceFull | wasm/src/util.rs:364-404 | With no errors and no corrections, an instance earns the full 10000. |
| Score.QuietScoresFull | wasm/src/util.rs:332-408 | With no errors and no corrections, the total is 10000 per instance. |
| Validation.CheckCoord | wasm/src/util.rs:416-429 | A coordinate passes exactly when it is in range and on a data cell. The range test is made first, so an out-of-range coordinate is always reported as out of range. |
| Validation.ListOffender | wasm/src/util.rs:414-430 | Finds the first failing coordinate of a list, or reports none exactly when all pass. |
| Validation.RoundsOffender | wasm/src/util.rs:413-431 | Finds the first failing coordinate over every round present (round order, then list order), or reports none exactly when all pass. |
| Validation.CaseViolation | wasm/src/util.rs:412-450 | For one case, reports none exactly when the case is clean. Otherwise it reports the first X violation, or the first Z violation when all X rounds are clean. |
| Validation.FirstViolation | wasm/src/util.rs:412-451 | Over cases `k .. t-1`, reports none exactly when all are clean. Otherwise it reports the first violation of the first unclean case. |
| Validation.Validate | wasm/src/util.rs:410-451 | Reports none exactly when every case is clean, and otherwise the first violation in scan order. |
| Validation.FirstInRoundsUnique | wasm/src/util.rs:413-431 | The first failing position of a channel is unique. |
| Validation.FirstViolationUnique | wasm/src/util.rs:412-451 | The first violation of an output is unique. |
| Validation.ScanChannel | wasm/src/util.rs:413-431 | The nested loops with early return find the first failing position, or none exactly when the channel is clean. |
| Validation.ScanCorrections | wasm/src/util.rs:411-451 | The full scan returns exactly what `Validate` specifies. |
| Visualiser.ShownRounds | wasm/src/util.rs:499-519 | At step `turn`, `min(turn/2+1, c)` error rounds and `min((turn+1)/2, c)` correction rounds are shown. Corrections never lead errors and lag by one round on even steps. All `c` correction rounds are shown exactly from step `2c-1` on, and both counts grow with `turn`. |
| Visualiser.CleanOutputFits | wasm/src/util.rs:410-453 | An output that passes validation can be scored without an out-of-range access. |
| Visualiser.FrameGrids | wasm/src/util.rs:489-519 | The frame grids of instance 0 hold, per cell, the parity of the shown errors plus the shown corrections. |
| Visualiser.Overlay | wasm/src/util.rs:521-526 | Before step `2c`, each cell of the measurement grid holds the parity of how often round `turn/2`'s measurement-error list names it. From then on the grid is empty. |
| Visualiser.Frame | wasm/src/util.rs:528-530 | The frame is swept exactly when the score is at least 5000 and `turn = 2c+1`. It then holds the swept grids, and otherwise the unswept ones. |
| Visualiser.Vis | wasm/src/util.rs:410-530 | An error is reported exactly when some case has an invalid correction. It is then the first in scan order, with score 0 and no frame. Otherwise the score is `calculate_score`, the frame is the one `Frame` gives for that score, and it is swept exactly as `Frame` says. |
| Visualiser.LateFrameIsResidual | wasm/src/util.rs:499-519 | From step `2c-1` on, the frame grids are the residual that scoring uses. |
| Visualiser.SingleCaseSweepCondition | wasm/src/util.rs:391-404 | With one instance, the score reaches 5000 exactly when its syndrome is clean. |
| Visualiser.FinalFrameIsSwept | wasm/src/util.rs:528-530 | With one instance and a clean syndrome, the last frame shows the swept residual. |
| Generator.CaseCount | wasm/src/util.rs:112-116 | 100 instances exactly when the seed exceeds 100000, else 1. |
| Generator.Tier | wasm/src/util.rs:118-133 | The severity tier `((seed / 200) as usize) % 5` is below 5. |
| Generator.TierOfSmallSeed | wasm/src/util.rs:118 | Below 200·2^32 the cast changes nothing. |
| Generator.TierOfLargeSeed | wasm/src/util.rs:118 | At 200·2^32 the 32-bit cast gives tier 0 where the untruncated value gives 1. |
| Generator.RowCells | wasm/src/util.rs:146-147 | The cells of one row with a given parity, left to right. |
| Generator.RowCellsComplete | wasm/src/util.rs:146-147 | No column of the row whose cell has the parity is skipped. |
| Generator.LatticeCells | wasm/src/util.rs:145-147 | The cells of the first rows with a given parity, in bounds and in row-major order. |
| Generator.LatticeCellsComplete | wasm/src/util.rs:145-147 | No cell of the first rows with the parity is skipped. |
| Generator.LatticeCell | wasm/src/util.rs:145-147 | Every visited cell lies inside the lattice, in the rows visited so far, with the parity asked for. |
| Generator.DataRound | wasm/src/util.rs:145-162 | A data cell enters the X list exactly when its draw is an X or Y hit, and the Z list exactly when it is a Z or Y hit. Both lists keep visiting order. |
| Generator.MeasureRound | wasm/src/util.rs:164-173 | A measurement cell is recorded exactly when its draw hits and the tier's rate is not 0. Nothing is recorded at the silent tier. |
| Generator.Extend | wasm/src/util.rs:149-158 | Pushing the visited cell when its draw hits keeps the list in visiting order, leaves every earlier cell's membership as it was, and records the new cell exactly when it hits. |
| Generator.GenData | wasm/src/util.rs:144-163 | Data-cell errors are drawn only while `turn < c - 5`, on in-bounds data cells, in visiting order. |
| Generator.GenMeasure | wasm/src/util.rs:164-173 | Measurement errors lie on in-bounds measurement cells, in visiting order, with none at tier 2. |
| Generator.GenRound | wasm/src/util.rs:141-177 | A generated round is well formed. Its membership follows the draws, and it consumes one draw per visited cell. |
| Generator.GenRounds | wasm/src/util.rs:141-177 | `c` well-formed rounds per channel. |
| Generator.GenCases | wasm/src/util.rs:137-183 | `t` instances, each well formed. |
| Generator.WellFormedFits | wasm/src/util.rs:137-183 | Generated instances can be scored without an out-of-range access. |
| Generator.Gen | wasm/src/util.rs:105-192 | `d = 21` and `c = 100`; `t` and the tier are derived from the seed; exactly `t` instances of exactly `c` rounds, all well formed and in range. |
| Generator.BothListsIffY | wasm/src/util.rs:149-158 | A data cell is in both lists of a round exactly when its draw was a Y error. |
| Serialisation.Blank | wasm/src/util.rs:210-217 | `t` cases of `c` empty rounds. |
| Serialisation.SelectAll | wasm/src/util.rs:37-56 | Picking case `k`, round `n` out of all written records gives back that list. |
| Serialisation.SelectUnwritten | wasm/src/util.rs:37-56 | Picking a case or round that was not written gives nothing. |
| Serialisation.AllRecordsInRange | wasm/src/util.rs:37-56 | Every written record names a case below `t` and a round below `c`. |
| Serialisation.Place | wasm/src/util.rs:219-222 | One `push` succeeds exactly when the named case and round exist. |
| Serialisation.PlaceAllSelects | wasm/src/util.rs:219-230 | Reading a section succeeds exactly when every record names an existing case and round. It then appends, to each list, the records naming it, in order. |
| Serialisation.ListsRoundTrip | wasm/src/util.rs:37-56 | Writing a `t`×`c` channel and reading it back gives the channel back. |
| Serialisation.ReadRecords | wasm/src/util.rs:203-208 | Reading `n` records consumes `4n` tokens and fails exactly when the tokens run out. |
| Serialisation.ReadEncoded | wasm/src/util.rs:203-208 | Written records read back wherever they sit. |
| Serialisation.ReadSectionWritten | wasm/src/util.rs:203-208 | A written count-prefixed section reads back. |
| Serialisation.ReadChannel | wasm/src/util.rs:203-230 | A channel that reads back has exactly `t` cases of `c` rounds. |
| Serialisation.ReadChannelPlaces | wasm/src/util.rs:203-230 | Reading a channel succeeds exactly when its section reads and every record names an existing case and round. It then ends where the section ends, and each list holds, in order, the records naming it. |
| Serialisation.ReadChannelWritten | wasm/src/util.rs:203-230 | A written channel reads back as the same lists. |
| Serialisation.DisplayInput | wasm/src/util.rs:27-103 | For an input with exactly `t` cases of exactly `c` rounds, `parse_input` of the written tokens gives the input back. |
| Serialisation.WrittenInputParses | wasm/src/util.rs:27-240 | The header and the three written sections read back as the input's own channels. |
| Serialisation.DisplayInputLayout | wasm/src/util.rs:27-103 | The header `d c e t` comes first, followed by the X, Z and measurement sections. |
| Serialisation.ParseInput | wasm/src/util.rs:194-240 | A parsed input has exactly `t` cases of exactly `c` rounds per channel. |
| Serialisation.ParseOutput | wasm/src/util.rs:246-276 | Empty text gives `t` cases of `c` empty rounds. A parsed output always has exactly that shape. |
| Serialisation.OutputRoundTrip | wasm/src/util.rs:254-271 | Written corrections parse back. |
| Serialisation.EmptyOutputIsNoCorrections | wasm/src/util.rs:246-252 | Empty text parses as two empty sections would. |

## Left out

- Drawing: the SVG of `vis` (`wasm/src/util.rs:454-498`, `532-755`) and the web front end are not modelled. A frame is the grids it would draw.
- Randomness: the ChaCha generator, `gen_bool` and `gen_range` become a stream of draw outcomes, one per visited cell. Probabilities are not modelled.
- Error rates: the rates `e_d` and `e_m` are floating point and appear only as the tier index, in `severity`. The only rate property kept is that tier 2 has measurement rate 0.
- Generator.Gen: states the shape and membership of generated errors, not their distribution.
- Score.BaseScore: `f64` division and rounding become exact integer arithmetic. This agrees with `round()` because the quotient is never a half.
- Text: characters, whitespace and proconio's tokenizer are not modelled. Text is a sequence of integer tokens.
- Serialisation.DisplayInput: writes the two rates as one `severity` token.
- Serialisation.ParseOutput: an empty token sequence stands for the empty string. Text of only whitespace, which `util.rs` fails on, is not distinguished.
- Panics: a panic while parsing (missing tokens, a record naming an absent case or round) becomes `None`.
- Messages: the Japanese message strings of `vis` become a `Violation` record naming the case, channel, round, index, coordinate and fault.
- Even lattice sides: the sweep indexes row `d` when `d` is even and `util.rs` panics. `Hakidashi`, `InstanceScore`, `CalculateScore` and `Vis` require an odd side.
- Score.CalculateScore: the 0 .. 10000·t bound is stated for `d = 21` only. For larger sides the hard-wired 220 lets the base score go negative.
- Visualiser.Vis: requires the shapes it reads (errors in range, case 0 present, the measured round in range) even on the validation-error path, where `vis` returns before reading them.
- Integer widths: `usize`, `i32` and `i64` are unbounded here. The one cast that matters, `(seed / 200) as usize` on the 32-bit WebAssembly target, is modelled in `Tier`.
- Validation: the Rust `x < 0 || y < 0` tests on unsigned values are always false and are dropped.
