/** The records the scorer works on: the generated input with its
    instances, and the decoder's output. */
module Instances {
  import opened Lattice
  import opened Accumulator

  /** One independent trial: per round, the coordinates hit by X errors, by
      Z errors and by measurement errors. */
  datatype Instance = Instance(xErrors: seq<seq<Coord>>, zErrors: seq<seq<Coord>>, measureErrors: seq<seq<Coord>>)

  /** The problem input: lattice side `d`, round count `c`, `t` instances.
      `severity` stands for the two floats (e_d, e_m); the generator stores
      its tier index 0..4 there and nothing in the scorer reads it. */
  datatype Input = Input(d: nat, c: nat, severity: nat, t: nat, testcase: seq<Instance>)

  /** The decoder's corrections, indexed `[case][round]`. */
  datatype Output = Output(xCorrections: seq<seq<seq<Coord>>>, zCorrections: seq<seq<seq<Coord>>>)

  /** What scoring reads of the input without going out of range: `t`
      instances, each with at least `c` rounds of in-bounds X and Z errors. */
  predicate ErrorsFit(inp: Input) {
    && |inp.testcase| >= inp.t
    && forall k :: 0 <= k < inp.t ==>
      RoundsInBounds(inp.testcase[k].xErrors, inp.c, inp.d) && RoundsInBounds(inp.testcase[k].zErrors, inp.c, inp.d)
  }

  /** At least `t` cases with at least `c` rounds each, in both channels. */
  predicate OutputShaped(out: Output, t: nat, c: nat) {
    && |out.xCorrections| >= t && |out.zCorrections| >= t
    && forall k :: 0 <= k < t ==> |out.xCorrections[k]| >= c && |out.zCorrections[k]| >= c
  }

  /** The corrections scoring applies all lie inside the lattice. */
  predicate CorrectionsFit(out: Output, t: nat, c: nat, d: nat) {
    && |out.xCorrections| >= t && |out.zCorrections| >= t
    && forall k :: 0 <= k < t ==>
      RoundsInBounds(out.xCorrections[k], c, d) && RoundsInBounds(out.zCorrections[k], c, d)
  }
}
