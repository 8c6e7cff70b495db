/** The correction check at the start of `vis`: before anything is scored,
    every correction of every case must name a data cell inside the lattice.
    The scan goes case by case; within a case it reads every X round (in
    round order, each list front to back) and only then every Z round. The
    first coordinate that fails stops the scan and is reported; for it the
    range test comes before the data-cell test. */
module Validation {
  import opened Wrappers
  import opened Lattice
  import opened Instances

  datatype Channel = XChannel | ZChannel

  /** Why a correction is rejected: outside the lattice, or inside it but
      not on a data cell. */
  datatype Fault = OutOfRange | NotDataCell

  /** A rejected correction: case, channel, round, position within that
      round's list, the coordinate and the fault. The Rust message names
      all of these except the position. */
  datatype Violation = Violation(instance: nat, channel: Channel, round: nat, index: nat, at: Coord, fault: Fault)

  /** A round and a position within that round's list. */
  datatype Position = Position(round: nat, index: nat)

  /** A correction `vis` accepts: inside the lattice and on a data cell. */
  predicate Acceptable(p: Coord, d: nat) {
    InBounds(p, d) && IsDataCell(p.row, p.col)
  }

  /** The two tests on one coordinate, the range test first: a coordinate
      outside the lattice is reported as out of range whatever its parity. */
  function CheckCoord(p: Coord, d: nat): (r: Option<Fault>)
    ensures r == None <==> Acceptable(p, d)
    ensures !InBounds(p, d) ==> r == Some(OutOfRange)
    ensures InBounds(p, d) && !IsDataCell(p.row, p.col) ==> r == Some(NotDataCell)
  {
    if p.row >= d || p.col >= d then Some(OutOfRange)
    else if (p.row + p.col) % 2 != 0 then Some(NotDataCell)
    else None
  }

  /** Every correction in every round of `rounds` is acceptable. */
  predicate RoundsClean(rounds: seq<seq<Coord>>, d: nat) {
    forall a, m :: 0 <= a < |rounds| && 0 <= m < |rounds[a]| ==> Acceptable(rounds[a][m], d)
  }

  /** The scan needs both channels of every case `0 .. t-1`; `vis` in `util.rs`
      indexes them without a check. */
  predicate CasesPresent(out: Output, t: nat) {
    |out.xCorrections| >= t && |out.zCorrections| >= t
  }

  function ChannelRounds(out: Output, ch: Channel, k: nat): seq<seq<Coord>>
    requires k < |out.xCorrections| && k < |out.zCorrections|
  {
    if ch == XChannel then out.xCorrections[k] else out.zCorrections[k]
  }

  predicate CaseClean(out: Output, d: nat, k: nat)
    requires k < |out.xCorrections| && k < |out.zCorrections|
  {
    RoundsClean(out.xCorrections[k], d) && RoundsClean(out.zCorrections[k], d)
  }

  /** `pos` is the first unacceptable correction of `rounds` at or after
      round `i`: everything before it in scan order is acceptable. */
  predicate FirstInRounds(rounds: seq<seq<Coord>>, d: nat, i: nat, pos: Position) {
    && i <= pos.round < |rounds|
    && pos.index < |rounds[pos.round]|
    && !Acceptable(rounds[pos.round][pos.index], d)
    && (forall a, m :: i <= a < pos.round && 0 <= m < |rounds[a]| ==> Acceptable(rounds[a][m], d))
    && (forall m :: 0 <= m < pos.index ==> Acceptable(rounds[pos.round][m], d))
  }

  /** The inner loop over one list, from position `m` on: the first
      unacceptable position, if any. */
  function ListOffender(ps: seq<Coord>, d: nat, m: nat): (r: Option<nat>)
    requires m <= |ps|
    ensures r.None? <==> forall n :: m <= n < |ps| ==> Acceptable(ps[n], d)
    ensures r.Some? ==> m <= r.value < |ps| && !Acceptable(ps[r.value], d)
    ensures r.Some? ==> forall n :: m <= n < r.value ==> Acceptable(ps[n], d)
    decreases |ps| - m
  {
    if m == |ps| then None
    else if CheckCoord(ps[m], d).Some? then Some(m)
    else ListOffender(ps, d, m + 1)
  }

  /** The loop over the rounds of one channel, from round `i` on. */
  function RoundsOffender(rounds: seq<seq<Coord>>, d: nat, i: nat): (r: Option<Position>)
    requires i <= |rounds|
    ensures r.None? <==> forall a, m :: i <= a < |rounds| && 0 <= m < |rounds[a]| ==> Acceptable(rounds[a][m], d)
    ensures r.Some? ==> FirstInRounds(rounds, d, i, r.value)
    decreases |rounds| - i
  {
    if i == |rounds| then None
    else match ListOffender(rounds[i], d, 0)
      case Some(m) => Some(Position(i, m))
      case None => RoundsOffender(rounds, d, i + 1)
  }

  /** `v` is the first rejected correction of its case: it is a real
      offender, and when it is in the Z channel the whole X channel of the
      case is clean. */
  predicate FirstInCase(out: Output, d: nat, v: Violation) {
    && v.instance < |out.xCorrections| && v.instance < |out.zCorrections|
    && FirstInRounds(ChannelRounds(out, v.channel, v.instance), d, 0, Position(v.round, v.index))
    && ChannelRounds(out, v.channel, v.instance)[v.round][v.index] == v.at
    && CheckCoord(v.at, d) == Some(v.fault)
    && (v.channel == ZChannel ==> RoundsClean(out.xCorrections[v.instance], d))
  }

  /** The scan of one case: X channel, then Z channel. */
  function CaseViolation(out: Output, d: nat, k: nat): (r: Option<Violation>)
    requires k < |out.xCorrections| && k < |out.zCorrections|
    ensures r.None? <==> CaseClean(out, d, k)
    ensures r.Some? ==> r.value.instance == k && FirstInCase(out, d, r.value)
  {
    var xs, zs := out.xCorrections[k], out.zCorrections[k];
    match RoundsOffender(xs, d, 0)
    case Some(pos) =>
      var p := xs[pos.round][pos.index];
      Some(Violation(k, XChannel, pos.round, pos.index, p, CheckCoord(p, d).value))
    case None =>
      match RoundsOffender(zs, d, 0)
      case Some(pos) =>
        var p := zs[pos.round][pos.index];
        Some(Violation(k, ZChannel, pos.round, pos.index, p, CheckCoord(p, d).value))
      case None => None
  }

  /** `v` is what the whole scan reports: the first rejected correction of
      the first case `< t` that has one. */
  predicate IsFirstViolation(out: Output, d: nat, t: nat, v: Violation)
    requires CasesPresent(out, t)
  {
    v.instance < t && (forall q :: 0 <= q < v.instance ==> CaseClean(out, d, q)) && FirstInCase(out, d, v)
  }

  /** The scan over cases `k .. t-1`. */
  function FirstViolation(out: Output, d: nat, t: nat, k: nat): (r: Option<Violation>)
    requires CasesPresent(out, t) && k <= t
    ensures r.None? <==> forall q :: k <= q < t ==> CaseClean(out, d, q)
    ensures r.Some? ==> k <= r.value.instance < t && FirstInCase(out, d, r.value)
    ensures r.Some? ==> forall q :: k <= q < r.value.instance ==> CaseClean(out, d, q)
    decreases t - k
  {
    if k == t then None
    else match CaseViolation(out, d, k)
      case Some(v) => Some(v)
      case None => FirstViolation(out, d, t, k + 1)
  }

  /** The validation of `vis`: nothing to report exactly when every
      correction of every case is acceptable; otherwise the report is the
      first offender in scan order. */
  function Validate(out: Output, d: nat, t: nat): (r: Option<Violation>)
    requires CasesPresent(out, t)
    ensures r.None? <==> forall q :: 0 <= q < t ==> CaseClean(out, d, q)
    ensures r.Some? ==> IsFirstViolation(out, d, t, r.value)
  {
    FirstViolation(out, d, t, 0)
  }

  /** The first offender of a channel is unique: two positions that both
      satisfy `FirstInRounds` from round 0 are the same position. */
  lemma FirstInRoundsUnique(rounds: seq<seq<Coord>>, d: nat, p: Position, q: Position)
    requires FirstInRounds(rounds, d, 0, p) && FirstInRounds(rounds, d, 0, q)
    ensures p == q
  {
    assert p.round == q.round by {
      assert !Acceptable(rounds[p.round][p.index], d);
      assert !Acceptable(rounds[q.round][q.index], d);
    }
    assert p.index == q.index by {
      assert !Acceptable(rounds[p.round][p.index], d);
      assert !Acceptable(rounds[q.round][q.index], d);
    }
  }

  /** What the scan reports is determined by the corrections alone: two
      violations that both meet `IsFirstViolation` are equal. */
  lemma FirstViolationUnique(out: Output, d: nat, t: nat, v: Violation, w: Violation)
    requires CasesPresent(out, t)
    requires IsFirstViolation(out, d, t, v) && IsFirstViolation(out, d, t, w)
    ensures v == w
  {
    var vr := ChannelRounds(out, v.channel, v.instance);
    var wr := ChannelRounds(out, w.channel, w.instance);
    assert !Acceptable(vr[v.round][v.index], d);
    assert !Acceptable(wr[w.round][w.index], d);
    assert !CaseClean(out, d, v.instance) && !CaseClean(out, d, w.instance);
    assert v.instance == w.instance;
    assert !RoundsClean(vr, d) && !RoundsClean(wr, d);
    assert v.channel == w.channel;
    FirstInRoundsUnique(vr, d, Position(v.round, v.index), Position(w.round, w.index));
  }

  /** The loops over one channel's rounds and their lists, returning at the
      first unacceptable coordinate. */
  method ScanChannel(rounds: seq<seq<Coord>>, d: nat) returns (r: Option<Position>)
    ensures r.None? <==> RoundsClean(rounds, d)
    ensures r.Some? ==> FirstInRounds(rounds, d, 0, r.value)
  {
    var i := 0;
    while i < |rounds|
      invariant 0 <= i <= |rounds|
      invariant forall a, m :: 0 <= a < i && 0 <= m < |rounds[a]| ==> Acceptable(rounds[a][m], d)
    {
      var j := 0;
      while j < |rounds[i]|
        invariant 0 <= j <= |rounds[i]|
        invariant forall m :: 0 <= m < j ==> Acceptable(rounds[i][m], d)
      {
        var p := rounds[i][j];
        if p.row >= d || p.col >= d {
          return Some(Position(i, j));
        }
        if (p.row + p.col) % 2 != 0 {
          return Some(Position(i, j));
        }
        j := j + 1;
      }
      i := i + 1;
    }
    return None;
  }

  /** The validation loop of `vis` as written: per case, the X channel and
      then the Z channel, returning at the first rejected coordinate. It
      reports exactly what `Validate` does. */
  method ScanCorrections(out: Output, d: nat, t: nat) returns (r: Option<Violation>)
    requires CasesPresent(out, t)
    ensures r == Validate(out, d, t)
  {
    var k := 0;
    while k < t
      invariant 0 <= k <= t
      invariant forall q :: 0 <= q < k ==> CaseClean(out, d, q)
    {
      var xs, zs := out.xCorrections[k], out.zCorrections[k];
      var found := ScanChannel(xs, d);
      if found.Some? {
        var pos := found.value;
        var p := xs[pos.round][pos.index];
        r := Some(Violation(k, XChannel, pos.round, pos.index, p, CheckCoord(p, d).value));
        assert !CaseClean(out, d, k);
        FirstViolationUnique(out, d, t, r.value, Validate(out, d, t).value);
        return;
      }
      found := ScanChannel(zs, d);
      if found.Some? {
        var pos := found.value;
        var p := zs[pos.round][pos.index];
        r := Some(Violation(k, ZChannel, pos.round, pos.index, p, CheckCoord(p, d).value));
        assert !CaseClean(out, d, k);
        FirstViolationUnique(out, d, t, r.value, Validate(out, d, t).value);
        return;
      }
      k := k + 1;
    }
    r := None;
  }
}
