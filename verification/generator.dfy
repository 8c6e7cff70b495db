/** `gen`: the structure of a generated input. The random generator is
    replaced by a stream of draw outcomes, one per visited cell: a data cell
    draws whether it is hit and, if so, which error it gets; a measurement
    cell draws whether it is hit. Probabilities are not modelled, except
    that the severity tier whose measurement rate is 0 never records a
    measurement error. */
module Generator {
  import opened Lattice
  import opened Accumulator
  import opened Instances

  /** The three kinds of data error: X, Z, or both (a Y error). */
  datatype Pick = PickX | PickZ | PickBoth

  /** The outcome of the draws at one visited cell. */
  datatype Draw = Miss | Hit(pick: Pick)

  /** The fixed lattice side and round count of every generated input. */
  const SIDE: nat := 21
  const ROUNDS: nat := 100

  /** `usize` is 32 bits wide on the WebAssembly target. */
  const WORD: nat := 0x1_0000_0000

  /** Severity tier 2 has measurement error rate 0, so its measurement
      draws never hit. */
  const SILENT_TIER: nat := 2

  /** Number of instances: 100 for seeds above 100000, else 1. */
  function CaseCount(seed: nat): (r: nat)
    ensures r == 100 <==> seed > 100000
    ensures r == 1 <==> seed <= 100000
  {
    if seed > 100000 then 100 else 1
  }

  /** The severity tier `((seed / 200) as usize) % 5`, the cast keeping the
      low 32 bits. */
  function Tier(seed: nat): (r: nat)
    ensures r < 5
  {
    ((seed / 200) % WORD) % 5
  }

  /** Below 200 * 2^32 the cast changes nothing and the tier is
      `(seed / 200) % 5`. */
  lemma TierOfSmallSeed(seed: nat)
    requires seed / 200 < WORD
    ensures Tier(seed) == (seed / 200) % 5
  {
  }

  /** At 200 * 2^32 the cast drops the high bits: the tier is 0 where
      `(seed / 200) % 5` is 1. */
  lemma TierOfLargeSeed()
    ensures Tier(200 * WORD) == 0
    ensures (200 * WORD / 200) % 5 == 1
  {
    assert 200 * WORD / 200 == WORD;
  }

  /** `p` comes before `q` in the generator's loop order: by row, then by column. */
  predicate RowMajorBefore(p: Coord, q: Coord) {
    p.row < q.row || (p.row == q.row && p.col < q.col)
  }

  predicate Sorted(s: seq<Coord>) {
    forall a, b :: 0 <= a < b < |s| ==> RowMajorBefore(s[a], s[b])
  }

  /** Columns `0 .. n-1` of row `i` whose cell has parity `parity`, left to
      right. */
  function RowCells(i: nat, n: nat, parity: nat): (r: seq<Coord>)
    ensures forall k :: 0 <= k < |r| ==> r[k].row == i && r[k].col < n && (i + r[k].col) % 2 == parity
    ensures forall a, b :: 0 <= a < b < |r| ==> r[a].col < r[b].col
  {
    if n == 0 then []
    else RowCells(i, n - 1, parity) + (if (i + n - 1) % 2 == parity then [Coord(i, n - 1)] else [])
  }

  /** No cell of the row with the parity asked for is skipped. */
  lemma {:induction false} RowCellsComplete(i: nat, n: nat, parity: nat, j: nat)
    requires j < n && (i + j) % 2 == parity
    ensures Coord(i, j) in RowCells(i, n, parity)
  {
    if j < n - 1 {
      RowCellsComplete(i, n - 1, parity, j);
    }
  }

  /** The cells of rows `0 .. m-1` of the d×d lattice with parity `parity`,
      in the order the generator's two nested loops visit them. Parity 0
      gives the data cells, parity 1 the measurement cells. */
  function LatticeCells(d: nat, m: nat, parity: nat): (r: seq<Coord>)
    requires m <= d
    ensures forall k :: 0 <= k < |r| ==> InBounds(r[k], d) && r[k].row < m && (r[k].row + r[k].col) % 2 == parity
    ensures Sorted(r)
  {
    if m == 0 then []
    else
      var prev, row := LatticeCells(d, m - 1, parity), RowCells(m - 1, d, parity);
      AppendRow(prev, row, m - 1, d, parity);
      prev + row
  }

  /** No cell of the first `m` rows with the parity asked for is skipped. */
  lemma {:induction false} LatticeCellsComplete(d: nat, m: nat, parity: nat, i: nat, j: nat)
    requires m <= d && i < m && j < d && (i + j) % 2 == parity
    ensures Coord(i, j) in LatticeCells(d, m, parity)
  {
    if i < m - 1 {
      LatticeCellsComplete(d, m - 1, parity, i, j);
    } else {
      RowCellsComplete(i, d, parity, j);
    }
  }

  /** Cells of rows `0 .. i-1` followed by the cells of row `i` are the
      cells of rows `0 .. i`, still in visiting order. */
  lemma AppendRow(prev: seq<Coord>, row: seq<Coord>, i: nat, d: nat, parity: nat)
    requires i < d
    requires Sorted(prev)
    requires forall k :: 0 <= k < |prev| ==> InBounds(prev[k], d) && prev[k].row < i && (prev[k].row + prev[k].col) % 2 == parity
    requires forall a, b :: 0 <= a < b < |row| ==> row[a].col < row[b].col
    requires forall k :: 0 <= k < |row| ==> row[k].row == i && row[k].col < d && (i + row[k].col) % 2 == parity
    ensures Sorted(prev + row)
    ensures forall k :: 0 <= k < |prev + row| ==>
      InBounds((prev + row)[k], d) && (prev + row)[k].row < i + 1 && ((prev + row)[k].row + (prev + row)[k].col) % 2 == parity
  {
    var s := prev + row;
    forall a, b | 0 <= a < b < |s|
      ensures RowMajorBefore(s[a], s[b])
    {
      if b < |prev| {
      } else if a < |prev| {
        assert s[a] == prev[a] && s[b] == row[b - |prev|];
      } else {
        assert s[a] == row[a - |prev|] && s[b] == row[b - |prev|];
      }
    }
    forall k | 0 <= k < |s|
      ensures InBounds(s[k], d) && s[k].row < i + 1 && (s[k].row + s[k].col) % 2 == parity
    {
      if k >= |prev| {
        assert s[k] == row[k - |prev|];
      }
    }
  }

  /** The draw gives the cell an X error (alone or as part of a Y error). */
  predicate XHit(dr: Draw) {
    dr.Hit? && dr.pick != PickZ
  }

  /** The draw gives the cell a Z error (alone or as part of a Y error). */
  predicate ZHit(dr: Draw) {
    dr.Hit? && dr.pick != PickX
  }

  /** The data-cell loop of one round over the first `m` visited cells, the
      visit `a` reading draw `start + a`. A cell enters the X list exactly
      when its draw is an X hit and the Z list exactly when it is a Z hit;
      both lists keep the visiting order. */
  function DataRound(cells: seq<Coord>, draws: nat -> Draw, start: nat, m: nat): (r: (seq<Coord>, seq<Coord>))
    requires m <= |cells| && Sorted(cells)
    ensures forall p :: p in r.0 ==> p in cells[..m]
    ensures forall p :: p in r.1 ==> p in cells[..m]
    ensures forall a :: 0 <= a < m ==> (cells[a] in r.0 <==> XHit(draws(start + a)))
    ensures forall a :: 0 <= a < m ==> (cells[a] in r.1 <==> ZHit(draws(start + a)))
    ensures Sorted(r.0) && Sorted(r.1)
  {
    if m == 0 then ([], [])
    else
      var prev := DataRound(cells, draws, start, m - 1);
      var p := cells[m - 1];
      var dr := draws(start + m - 1);
      var x := if XHit(dr) then prev.0 + [p] else prev.0;
      var z := if ZHit(dr) then prev.1 + [p] else prev.1;
      Extend(cells, m, prev.0, XHit(dr), x);
      Extend(cells, m, prev.1, ZHit(dr), z);
      (x, z)
  }

  /** One step of a visiting loop: the cell visited `m`-th is appended
      exactly when `hit`, which keeps the list in visiting order, leaves
      the earlier cells' membership alone, and records the new cell
      exactly when `hit`. */
  lemma Extend(cells: seq<Coord>, m: nat, prev: seq<Coord>, hit: bool, r: seq<Coord>)
    requires 0 < m <= |cells| && Sorted(cells) && Sorted(prev)
    requires forall q :: q in prev ==> q in cells[..m - 1]
    requires hit ==> r == prev + [cells[m - 1]]
    requires !hit ==> r == prev
    ensures Sorted(r)
    ensures forall q :: q in r ==> q in cells[..m]
    ensures forall a :: 0 <= a < m - 1 ==> (cells[a] in r <==> cells[a] in prev)
    ensures cells[m - 1] in r <==> hit
  {
    var p := cells[m - 1];
    assert forall q :: q in cells[..m - 1] ==> RowMajorBefore(q, p);
    assert cells[..m] == cells[..m - 1] + [p];
    if hit {
      forall a, b | 0 <= a < b < |r|
        ensures RowMajorBefore(r[a], r[b])
      {
        assert r[a] == prev[a] && prev[a] in prev;
        if b < |prev| {
          assert r[b] == prev[b];
        }
      }
    }
  }

  /** The measurement-cell loop of one round over the first `m` visited
      cells. A cell is recorded exactly when its draw hits and the tier's
      measurement rate is not 0. */
  function MeasureRound(cells: seq<Coord>, draws: nat -> Draw, start: nat, m: nat, tier: nat): (r: seq<Coord>)
    requires m <= |cells| && Sorted(cells)
    ensures forall p :: p in r ==> p in cells[..m]
    ensures forall a :: 0 <= a < m ==> (cells[a] in r <==> tier != SILENT_TIER && draws(start + a).Hit?)
    ensures tier == SILENT_TIER ==> r == []
    ensures Sorted(r)
  {
    if m == 0 then []
    else
      var prev := MeasureRound(cells, draws, start, m - 1, tier);
      var hit := tier != SILENT_TIER && draws(start + m - 1).Hit?;
      var r := if hit then prev + [cells[m - 1]] else prev;
      Extend(cells, m, prev, hit, r);
      r
  }

  /** The data cells of the d×d lattice in visiting order. */
  function DataCells(d: nat): seq<Coord> {
    LatticeCells(d, d, 0)
  }

  /** The measurement cells of the d×d lattice in visiting order. */
  function MeasureCells(d: nat): seq<Coord> {
    LatticeCells(d, d, 1)
  }

  /** Every member of a list drawn from the lattice cells of one parity
      lies inside the lattice and has that parity. */
  lemma DrawnFromLattice(s: seq<Coord>, d: nat, parity: nat)
    requires forall p :: p in s ==> p in LatticeCells(d, d, parity)
    ensures forall k :: 0 <= k < |s| ==> InBounds(s[k], d)
    ensures parity == 0 ==> forall k :: 0 <= k < |s| ==> IsDataCell(s[k].row, s[k].col)
    ensures parity == 1 ==> forall k :: 0 <= k < |s| ==> IsMeasurementCell(s[k].row, s[k].col)
  {
    forall k | 0 <= k < |s|
      ensures InBounds(s[k], d) && (s[k].row + s[k].col) % 2 == parity
    {
      assert s[k] in s;
      LatticeCell(s[k], d, d, parity);
    }
  }

  /** A cell of the visiting order lies in the lattice with the parity
      asked for. */
  lemma {:induction false} LatticeCell(p: Coord, d: nat, m: nat, parity: nat)
    requires m <= d && p in LatticeCells(d, m, parity)
    ensures InBounds(p, d) && p.row < m && (p.row + p.col) % 2 == parity
  {
    if p in LatticeCells(d, m - 1, parity) {
      LatticeCell(p, d, m - 1, parity);
    } else {
      RowCell(p, m - 1, d, parity);
    }
  }

  /** A cell of a row lies in that row with the parity asked for. */
  lemma {:induction false} RowCell(p: Coord, i: nat, n: nat, parity: nat)
    requires p in RowCells(i, n, parity)
    ensures p.row == i && p.col < n && (i + p.col) % 2 == parity
  {
    if p in RowCells(i, n - 1, parity) {
      RowCell(p, i, n - 1, parity);
    }
  }

  /** One generated round and the position of the next unread draw. */
  datatype RoundDraws = RoundDraws(x: seq<Coord>, z: seq<Coord>, measured: seq<Coord>, next: nat)

  /** The shape every generated round has: each list in visiting order, X
      and Z errors only on data cells, measurement errors only on
      measurement cells, no X or Z errors in the last five rounds, and no
      measurement errors at the silent tier. */
  predicate WellFormedRound(x: seq<Coord>, z: seq<Coord>, m: seq<Coord>, turn: nat, c: nat, d: nat, tier: nat) {
    && Sorted(x) && Sorted(z) && Sorted(m)
    && (forall k :: 0 <= k < |x| ==> InBounds(x[k], d) && IsDataCell(x[k].row, x[k].col))
    && (forall k :: 0 <= k < |z| ==> InBounds(z[k], d) && IsDataCell(z[k].row, z[k].col))
    && (forall k :: 0 <= k < |m| ==> InBounds(m[k], d) && IsMeasurementCell(m[k].row, m[k].col))
    && (turn + 5 >= c ==> x == [] && z == [])
    && (tier == SILENT_TIER ==> m == [])
  }

  /** Where the measurement draws of a round start: after one draw per data
      cell in rounds that visit data cells, right away in the last five. */
  function MeasureStart(pos: nat, turn: nat, c: nat, d: nat): nat {
    if turn + 5 < c then pos + |DataCells(d)| else pos
  }

  /** The data-cell loop of round `turn`, reading draws from `pos`; the
      last five rounds skip it. */
  function GenData(draws: nat -> Draw, pos: nat, turn: nat, c: nat, d: nat): (r: (seq<Coord>, seq<Coord>))
    ensures Sorted(r.0) && Sorted(r.1)
    ensures forall k :: 0 <= k < |r.0| ==> InBounds(r.0[k], d) && IsDataCell(r.0[k].row, r.0[k].col)
    ensures forall k :: 0 <= k < |r.1| ==> InBounds(r.1[k], d) && IsDataCell(r.1[k].row, r.1[k].col)
    ensures turn + 5 >= c ==> r == ([], [])
    ensures turn + 5 < c ==> forall a :: 0 <= a < |DataCells(d)| ==>
      && (DataCells(d)[a] in r.0 <==> XHit(draws(pos + a)))
      && (DataCells(d)[a] in r.1 <==> ZHit(draws(pos + a)))
  {
    if turn + 5 < c then
      var data := DataCells(d);
      var lists := DataRound(data, draws, pos, |data|);
      assert data[..|data|] == data;
      DrawnFromLattice(lists.0, d, 0);
      DrawnFromLattice(lists.1, d, 0);
      lists
    else ([], [])
  }

  /** The measurement-cell loop of a round, reading draws from `start`. */
  function GenMeasure(draws: nat -> Draw, start: nat, d: nat, tier: nat): (r: seq<Coord>)
    ensures Sorted(r)
    ensures forall k :: 0 <= k < |r| ==> InBounds(r[k], d) && IsMeasurementCell(r[k].row, r[k].col)
    ensures tier == SILENT_TIER ==> r == []
    ensures forall a :: 0 <= a < |MeasureCells(d)| ==>
      (MeasureCells(d)[a] in r <==> tier != SILENT_TIER && draws(start + a).Hit?)
  {
    var meas := MeasureCells(d);
    var m := MeasureRound(meas, draws, start, |meas|, tier);
    assert meas[..|meas|] == meas;
    DrawnFromLattice(m, d, 1);
    m
  }

  /** Round `turn` of one instance, reading the draw stream from `pos`: the
      data-cell loop (skipped in the last five rounds), then the
      measurement-cell loop. */
  function GenRound(draws: nat -> Draw, pos: nat, turn: nat, c: nat, d: nat, tier: nat): (r: RoundDraws)
    ensures WellFormedRound(r.x, r.z, r.measured, turn, c, d, tier)
    ensures turn + 5 < c ==> forall a :: 0 <= a < |DataCells(d)| ==>
      && (DataCells(d)[a] in r.x <==> XHit(draws(pos + a)))
      && (DataCells(d)[a] in r.z <==> ZHit(draws(pos + a)))
    ensures forall a :: 0 <= a < |MeasureCells(d)| ==>
      (MeasureCells(d)[a] in r.measured <==> tier != SILENT_TIER && draws(MeasureStart(pos, turn, c, d) + a).Hit?)
    ensures r.next == MeasureStart(pos, turn, c, d) + |MeasureCells(d)|
  {
    var lists := GenData(draws, pos, turn, c, d);
    var start := MeasureStart(pos, turn, c, d);
    RoundDraws(lists.0, lists.1, GenMeasure(draws, start, d, tier), start + |MeasureCells(d)|)
  }

  /** Rounds `0 .. n-1` of one instance and the position of the next unread
      draw. */
  datatype InstanceDraws = InstanceDraws(x: seq<seq<Coord>>, z: seq<seq<Coord>>, measured: seq<seq<Coord>>, next: nat)

  function GenRounds(draws: nat -> Draw, pos: nat, n: nat, c: nat, d: nat, tier: nat): (r: InstanceDraws)
    ensures |r.x| == n && |r.z| == n && |r.measured| == n
    ensures forall a :: 0 <= a < n ==> WellFormedRound(r.x[a], r.z[a], r.measured[a], a, c, d, tier)
    ensures r.next >= pos
  {
    if n == 0 then InstanceDraws([], [], [], pos)
    else
      var prev := GenRounds(draws, pos, n - 1, c, d, tier);
      var round := GenRound(draws, prev.next, n - 1, c, d, tier);
      InstanceDraws(prev.x + [round.x], prev.z + [round.z], prev.measured + [round.measured], round.next)
  }

  /** The shape of every generated instance: exactly `c` rounds in each
      channel, each round well formed. */
  predicate WellFormedInstance(inst: Instance, c: nat, d: nat, tier: nat) {
    && |inst.xErrors| == c && |inst.zErrors| == c && |inst.measureErrors| == c
    && forall a :: 0 <= a < c ==>
      WellFormedRound(inst.xErrors[a], inst.zErrors[a], inst.measureErrors[a], a, c, d, tier)
  }

  /** Instances `0 .. n-1` and the position of the next unread draw. */
  function GenCases(draws: nat -> Draw, pos: nat, n: nat, c: nat, d: nat, tier: nat): (r: (seq<Instance>, nat))
    ensures |r.0| == n
    ensures forall k :: 0 <= k < n ==> WellFormedInstance(r.0[k], c, d, tier)
    ensures r.1 >= pos
  {
    if n == 0 then ([], pos)
    else
      var prev := GenCases(draws, pos, n - 1, c, d, tier);
      var rounds := GenRounds(draws, prev.1, c, c, d, tier);
      (prev.0 + [Instance(rounds.x, rounds.z, rounds.measured)], rounds.next)
  }

  /** A generated instance can be scored: its error lists lie inside the
      lattice. */
  lemma WellFormedFits(inp: Input)
    requires |inp.testcase| >= inp.t
    requires forall k :: 0 <= k < inp.t ==> WellFormedInstance(inp.testcase[k], inp.c, inp.d, inp.severity)
    ensures ErrorsFit(inp)
  {
    forall k | 0 <= k < inp.t
      ensures RoundsInBounds(inp.testcase[k].xErrors, inp.c, inp.d) && RoundsInBounds(inp.testcase[k].zErrors, inp.c, inp.d)
    {
      assert WellFormedInstance(inp.testcase[k], inp.c, inp.d, inp.severity);
    }
  }

  /** `gen`: the 21×21 lattice, 100 rounds, the tier and instance count
      derived from the seed, and the instances read off the draw stream. */
  function Gen(seed: nat, draws: nat -> Draw): (r: Input)
    ensures r.d == SIDE && r.c == ROUNDS
    ensures r.t == CaseCount(seed) && r.severity == Tier(seed)
    ensures |r.testcase| == r.t
    ensures forall k :: 0 <= k < r.t ==> WellFormedInstance(r.testcase[k], r.c, r.d, r.severity)
    ensures ErrorsFit(r)
  {
    var t, tier := CaseCount(seed), Tier(seed);
    var cases := GenCases(draws, 0, t, ROUNDS, SIDE, tier);
    var r := Input(SIDE, ROUNDS, tier, t, cases.0);
    WellFormedFits(r);
    r
  }

  /** A data cell is in both lists of a round exactly when its draw was a Y
      error. */
  lemma BothListsIffY(draws: nat -> Draw, pos: nat, turn: nat, c: nat, d: nat, tier: nat, a: nat)
    requires turn + 5 < c && a < |DataCells(d)|
    ensures var r := GenRound(draws, pos, turn, c, d, tier);
      DataCells(d)[a] in r.x && DataCells(d)[a] in r.z <==> draws(pos + a) == Hit(PickBoth)
  {
  }
}
