/** The text formats of the input and of the decoder's output, at the level
    of whitespace-separated integer tokens. Each channel is written as a
    count followed by that many records `case turn row col`, in case, then
    round, then list order; reading puts every record at the end of the
    list it names. */
module Serialisation {
  import opened Wrappers
  import opened Lattice
  import opened Instances

  /** One line `case turn row col` of a section. */
  datatype Record = Record(instance: nat, turn: nat, at: Coord)

  /** The lists of one channel, indexed `[case][round]`. */
  type Lists = seq<seq<seq<Coord>>>

  /** At least `t` cases of at least `c` rounds: what writing reads. */
  predicate AtLeast(lists: Lists, t: nat, c: nat) {
    |lists| >= t && forall k :: 0 <= k < t ==> |lists[k]| >= c
  }

  /** Exactly `t` cases of exactly `c` rounds: what reading builds. */
  predicate Exactly(lists: Lists, t: nat, c: nat) {
    |lists| == t && forall k :: 0 <= k < t ==> |lists[k]| == c
  }

  /** `t` cases of `c` empty rounds, the `vec![vec![vec![]; c]; t]` reading
      starts from. */
  function Blank(t: nat, c: nat): (r: Lists)
    ensures Exactly(r, t, c)
    ensures forall k, n :: 0 <= k < t && 0 <= n < c ==> r[k][n] == []
  {
    seq(t, k => seq(c, n => []))
  }

  /** The records of one list, in list order. */
  function RoundRecords(k: nat, n: nat, ps: seq<Coord>): (r: seq<Record>)
    ensures |r| == |ps|
  {
    if |ps| == 0 then [] else RoundRecords(k, n, ps[..|ps| - 1]) + [Record(k, n, ps[|ps| - 1])]
  }

  /** The records of rounds `0 .. m-1` of case `k`. */
  function CaseRecords(rounds: seq<seq<Coord>>, k: nat, m: nat): seq<Record>
    requires m <= |rounds|
  {
    if m == 0 then [] else CaseRecords(rounds, k, m - 1) + RoundRecords(k, m - 1, rounds[m - 1])
  }

  /** The records of rounds `0 .. c-1` of cases `0 .. t-1`: the body of one
      section as the writer emits it. */
  function AllRecords(lists: Lists, t: nat, c: nat): seq<Record>
    requires AtLeast(lists, t, c)
  {
    if t == 0 then [] else AllRecords(lists, t - 1, c) + CaseRecords(lists[t - 1], t - 1, c)
  }

  /** The coordinates of the records naming case `k`, round `n`, in order:
      the independent description of where reading puts each record. */
  function Select(recs: seq<Record>, k: nat, n: nat): seq<Coord> {
    if |recs| == 0 then []
    else
      var last := recs[|recs| - 1];
      Select(recs[..|recs| - 1], k, n) + (if last.instance == k && last.turn == n then [last.at] else [])
  }

  lemma {:induction false} SelectAppend(a: seq<Record>, b: seq<Record>, k: nat, n: nat)
    ensures Select(a + b, k, n) == Select(a, k, n) + Select(b, k, n)
    decreases |b|
  {
    if |b| > 0 {
      var b' := b[..|b| - 1];
      assert (a + b)[..|a + b| - 1] == a + b';
      assert (a + b)[|a + b| - 1] == b[|b| - 1];
      SelectAppend(a, b', k, n);
    } else {
      assert a + b == a;
    }
  }

  /** A lone record selects its own coordinate for its own case and round. */
  lemma SelectOwnRecord(rec: Record)
    ensures Select([rec], rec.instance, rec.turn) == [rec.at]
  {
    assert [rec][..0] == [];
  }

  /** A lone record selects nothing for another case or round. */
  lemma SelectOtherRecord(rec: Record, k: nat, n: nat)
    requires !(rec.instance == k && rec.turn == n)
    ensures Select([rec], k, n) == []
  {
    assert [rec][..0] == [];
  }

  /** The records of one list select that list for its own case and round. */
  lemma {:induction false} RoundSelectsOwn(k: nat, n: nat, ps: seq<Coord>)
    ensures Select(RoundRecords(k, n, ps), k, n) == ps
    decreases |ps|
  {
    if |ps| > 0 {
      var ps', rec := ps[..|ps| - 1], Record(k, n, ps[|ps| - 1]);
      RoundSelectsOwn(k, n, ps');
      SelectAppend(RoundRecords(k, n, ps'), [rec], k, n);
      SelectOwnRecord(rec);
      assert ps == ps' + [ps[|ps| - 1]];
    }
  }

  /** The records of one list select nothing for another case or round. */
  lemma {:induction false} RoundSelectsNothing(k': nat, n': nat, ps: seq<Coord>, k: nat, n: nat)
    requires !(k' == k && n' == n)
    ensures Select(RoundRecords(k', n', ps), k, n) == []
    decreases |ps|
  {
    if |ps| > 0 {
      var ps', rec := ps[..|ps| - 1], Record(k', n', ps[|ps| - 1]);
      RoundSelectsNothing(k', n', ps', k, n);
      SelectOtherRecord(rec, k, n);
      SelectAppendNone(RoundRecords(k', n', ps'), [rec], k, n);
    }
  }

  /** Case `k'` selects nothing for another case or an unwritten round. */
  lemma {:induction false} CaseSelectsNothing(rounds: seq<seq<Coord>>, k': nat, m: nat, k: nat, n: nat)
    requires m <= |rounds| && !(k' == k && n < m)
    ensures Select(CaseRecords(rounds, k', m), k, n) == []
    decreases m
  {
    if m > 0 {
      CaseSelectsNothing(rounds, k', m - 1, k, n);
      RoundSelectsNothing(k', m - 1, rounds[m - 1], k, n);
      SelectAppendNone(CaseRecords(rounds, k', m - 1), RoundRecords(k', m - 1, rounds[m - 1]), k, n);
    }
  }

  /** Case `k` selects its round `n` for itself. */
  lemma {:induction false} CaseSelectsRound(rounds: seq<seq<Coord>>, k: nat, m: nat, n: nat)
    requires n < m <= |rounds|
    ensures Select(CaseRecords(rounds, k, m), k, n) == rounds[n]
    decreases m
  {
    var prev, last := CaseRecords(rounds, k, m - 1), RoundRecords(k, m - 1, rounds[m - 1]);
    if n < m - 1 {
      CaseSelectsRound(rounds, k, m - 1, n);
      RoundSelectsNothing(k, m - 1, rounds[m - 1], k, n);
      SelectAppendNone(prev, last, k, n);
    } else {
      CaseSelectsNothing(rounds, k, m - 1, k, n);
      RoundSelectsOwn(k, n, rounds[n]);
      SelectNoneAppend(prev, last, k, n);
    }
  }

  /** Records that select nothing may be dropped from the end. */
  lemma SelectAppendNone(a: seq<Record>, b: seq<Record>, k: nat, n: nat)
    requires Select(b, k, n) == []
    ensures Select(a + b, k, n) == Select(a, k, n)
  {
    SelectAppend(a, b, k, n);
    assert Select(a, k, n) + [] == Select(a, k, n);
  }

  /** Records that select nothing may be dropped from the front. */
  lemma SelectNoneAppend(a: seq<Record>, b: seq<Record>, k: nat, n: nat)
    requires Select(a, k, n) == []
    ensures Select(a + b, k, n) == Select(b, k, n)
  {
    SelectAppend(a, b, k, n);
    assert [] + Select(b, k, n) == Select(b, k, n);
  }

  /** The coordinates that reading puts at case `k`, round `n` after
      everything of the first `t` cases was written. */
  function Picked(lists: Lists, t: nat, c: nat, k: nat, n: nat): seq<Coord>
    requires AtLeast(lists, t, c)
  {
    Select(AllRecords(lists, t, c), k, n)
  }

  /** Selecting case `k`, round `n` from everything written gives back that
      list. */
  lemma {:induction false} SelectAll(lists: Lists, t: nat, c: nat, k: nat, n: nat)
    requires AtLeast(lists, t, c) && k < t && n < c
    ensures Picked(lists, t, c, k, n) == lists[k][n]
    decreases t
  {
    if k < t - 1 {
      SelectAll(lists, t - 1, c, k, n);
      SelectEarlierCase(lists, t, c, k, n);
    } else {
      SelectUnwritten(lists, t - 1, c, k, n);
      SelectLastCase(lists, t, c, n);
    }
  }

  /** The last case written adds nothing to an earlier one. */
  lemma SelectEarlierCase(lists: Lists, t: nat, c: nat, k: nat, n: nat)
    requires AtLeast(lists, t, c) && k < t - 1 && n < c
    requires Picked(lists, t - 1, c, k, n) == lists[k][n]
    ensures Picked(lists, t, c, k, n) == lists[k][n]
  {
    var prev, last := AllRecords(lists, t - 1, c), CaseRecords(lists[t - 1], t - 1, c);
    assert AllRecords(lists, t, c) == prev + last;
    CaseSelectsNothing(lists[t - 1], t - 1, c, k, n);
    SelectAppendNone(prev, last, k, n);
  }

  /** The last case written is all there is of it. */
  lemma SelectLastCase(lists: Lists, t: nat, c: nat, n: nat)
    requires AtLeast(lists, t, c) && 0 < t && n < c
    requires Picked(lists, t - 1, c, t - 1, n) == []
    ensures Picked(lists, t, c, t - 1, n) == lists[t - 1][n]
  {
    var prev, last := AllRecords(lists, t - 1, c), CaseRecords(lists[t - 1], t - 1, c);
    assert AllRecords(lists, t, c) == prev + last;
    CaseSelectsRound(lists[t - 1], t - 1, c, n);
    SelectNoneAppend(prev, last, t - 1, n);
  }

  /** Selecting a case or round that was not written gives nothing. */
  lemma {:induction false} SelectUnwritten(lists: Lists, t: nat, c: nat, k: nat, n: nat)
    requires AtLeast(lists, t, c) && !(k < t && n < c)
    ensures Picked(lists, t, c, k, n) == []
    decreases t
  {
    if t > 0 {
      SelectUnwritten(lists, t - 1, c, k, n);
      SelectUnwrittenStep(lists, t, c, k, n);
    }
  }

  /** The last case written adds nothing to a case or round not written. */
  lemma SelectUnwrittenStep(lists: Lists, t: nat, c: nat, k: nat, n: nat)
    requires AtLeast(lists, t, c) && 0 < t && !(k < t && n < c)
    requires Picked(lists, t - 1, c, k, n) == []
    ensures Picked(lists, t, c, k, n) == []
  {
    var prev, last := AllRecords(lists, t - 1, c), CaseRecords(lists[t - 1], t - 1, c);
    assert AllRecords(lists, t, c) == prev + last;
    CaseSelectsNothing(lists[t - 1], t - 1, c, k, n);
    SelectAppendNone(prev, last, k, n);
  }

  /** Every record written names a case below `t` and a round below `c`. */
  lemma {:induction false} AllRecordsInRange(lists: Lists, t: nat, c: nat)
    requires AtLeast(lists, t, c)
    ensures InRange(AllRecords(lists, t, c), t, c)
  {
    if t > 0 {
      AllRecordsInRange(lists, t - 1, c);
      CaseRecordsInRange(lists[t - 1], t - 1, c, t, c);
      InRangeAppend(AllRecords(lists, t - 1, c), CaseRecords(lists[t - 1], t - 1, c), t, c);
    }
  }

  lemma {:induction false} CaseRecordsInRange(rounds: seq<seq<Coord>>, k: nat, m: nat, t: nat, c: nat)
    requires m <= |rounds| && m <= c && k < t
    ensures InRange(CaseRecords(rounds, k, m), t, c)
  {
    if m > 0 {
      CaseRecordsInRange(rounds, k, m - 1, t, c);
      RoundRecordsInRange(k, m - 1, rounds[m - 1]);
      InRangeAppend(CaseRecords(rounds, k, m - 1), RoundRecords(k, m - 1, rounds[m - 1]), t, c);
    }
  }

  lemma {:induction false} RoundRecordsInRange(k: nat, n: nat, ps: seq<Coord>)
    ensures forall i :: 0 <= i < |RoundRecords(k, n, ps)| ==>
      RoundRecords(k, n, ps)[i].instance == k && RoundRecords(k, n, ps)[i].turn == n
    decreases |ps|
  {
    if |ps| > 0 {
      RoundRecordsInRange(k, n, ps[..|ps| - 1]);
    }
  }

  lemma InRangeAppend(a: seq<Record>, b: seq<Record>, t: nat, c: nat)
    requires InRange(a, t, c) && InRange(b, t, c)
    ensures InRange(a + b, t, c)
  {
    forall i | 0 <= i < |a + b|
      ensures (a + b)[i].instance < t && (a + b)[i].turn < c
    {
      if i >= |a| {
        assert (a + b)[i] == b[i - |a|];
      }
    }
  }

  /** Every record names an existing case and round. */
  predicate InRange(recs: seq<Record>, t: nat, c: nat) {
    forall i :: 0 <= i < |recs| ==> recs[i].instance < t && recs[i].turn < c
  }

  /** One `push`: the record's coordinate goes to the end of the list it
      names; naming a case or round that does not exist is an error (an
      index panic in the reader). */
  function Place(lists: Lists, rec: Record): (r: Option<Lists>)
    ensures r.Some? <==> rec.instance < |lists| && rec.turn < |lists[rec.instance]|
  {
    if rec.instance < |lists| && rec.turn < |lists[rec.instance]| then
      var rounds := lists[rec.instance];
      Some(lists[rec.instance := rounds[rec.turn := rounds[rec.turn] + [rec.at]]])
    else None
  }

  /** The reader's loop over the records of one section, in order. */
  function PlaceAll(lists: Lists, recs: seq<Record>): Option<Lists> {
    if |recs| == 0 then Some(lists)
    else
      match PlaceAll(lists, recs[..|recs| - 1])
      case None => None
      case Some(prev) => Place(prev, recs[|recs| - 1])
  }

  /** Reading into a t×c shape succeeds exactly when every record names an
      existing case and round, and then appends to each list the selected
      records in order. */
  lemma {:induction false} PlaceAllSelects(lists: Lists, recs: seq<Record>, t: nat, c: nat)
    requires Exactly(lists, t, c)
    ensures PlaceAll(lists, recs).Some? <==> InRange(recs, t, c)
    ensures PlaceAll(lists, recs).Some? ==>
      && Exactly(PlaceAll(lists, recs).value, t, c)
      && forall k, n :: 0 <= k < t && 0 <= n < c ==>
        PlaceAll(lists, recs).value[k][n] == lists[k][n] + Select(recs, k, n)
  {
    if |recs| > 0 {
      var init, last := recs[..|recs| - 1], recs[|recs| - 1];
      PlaceAllSelects(lists, init, t, c);
      assert InRange(recs, t, c) ==> InRange(init, t, c);
      if PlaceAll(lists, init).Some? {
        var prev := PlaceAll(lists, init).value;
        if last.instance < t && last.turn < c {
          var next := Place(prev, last).value;
          forall k, n | 0 <= k < t && 0 <= n < c
            ensures next[k][n] == lists[k][n] + Select(recs, k, n)
          {
            assert recs[..|recs| - 1] == init;
          }
        } else {
          assert !InRange(recs, t, c) by {
            assert recs[|recs| - 1] == last;
          }
        }
      }
    }
  }

  /** Writing a t×c shape and reading it back into a blank t×c shape gives
      the lists back. */
  lemma ListsRoundTrip(lists: Lists, t: nat, c: nat)
    requires Exactly(lists, t, c)
    ensures PlaceAll(Blank(t, c), AllRecords(lists, t, c)) == Some(lists)
  {
    var recs := AllRecords(lists, t, c);
    AllRecordsInRange(lists, t, c);
    PlaceAllSelects(Blank(t, c), recs, t, c);
    var back := PlaceAll(Blank(t, c), recs).value;
    forall k | 0 <= k < t
      ensures back[k] == lists[k]
    {
      forall n | 0 <= n < c
        ensures back[k][n] == lists[k][n]
      {
        SelectAll(lists, t, c, k, n);
      }
      assert |back[k]| == |lists[k]| == c;
    }
    assert |back| == |lists| == t;
    assert back == lists;
  }

  /** The four tokens of one record. */
  function RecordTokens(rec: Record): seq<nat> {
    [rec.instance, rec.turn, rec.at.row, rec.at.col]
  }

  function Encode(recs: seq<Record>): (r: seq<nat>)
    ensures |r| == 4 * |recs|
  {
    if |recs| == 0 then [] else RecordTokens(recs[0]) + Encode(recs[1..])
  }

  /** A section: the record count, then the records. */
  function Section(recs: seq<Record>): seq<nat> {
    [|recs|] + Encode(recs)
  }

  /** Reads `n` records from position `pos`; running out of tokens is an
      error. Returns the records and the position after them. */
  function ReadRecords(tokens: seq<nat>, pos: nat, n: nat): (r: Option<(seq<Record>, nat)>)
    ensures r.Some? ==> |r.value.0| == n && r.value.1 == pos + 4 * n
    ensures r.Some? <==> n == 0 || pos + 4 * n <= |tokens|
    decreases n
  {
    if n == 0 then Some(([], pos))
    else if pos + 4 > |tokens| then None
    else
      var rec := Record(tokens[pos], tokens[pos + 1], Coord(tokens[pos + 2], tokens[pos + 3]));
      match ReadRecords(tokens, pos + 4, n - 1)
      case None => None
      case Some(rest) => Some(([rec] + rest.0, rest.1))
  }

  /** Reads a count and then that many records. */
  function ReadSection(tokens: seq<nat>, pos: nat): Option<(seq<Record>, nat)> {
    if pos >= |tokens| then None else ReadRecords(tokens, pos + 1, tokens[pos])
  }

  lemma {:induction false} ReadEncoded(pre: seq<nat>, recs: seq<Record>, post: seq<nat>)
    ensures ReadRecords(pre + Encode(recs) + post, |pre|, |recs|) == Some((recs, |pre| + 4 * |recs|))
    decreases |recs|
  {
    if |recs| > 0 {
      var pre' := pre + RecordTokens(recs[0]);
      ReadEncoded(pre', recs[1..], post);
      assert pre + Encode(recs) + post == pre' + Encode(recs[1..]) + post;
      assert [recs[0]] + recs[1..] == recs;
    }
  }

  /** A written section reads back as the records written, wherever it
      sits in the token stream. */
  lemma ReadSectionWritten(pre: seq<nat>, recs: seq<Record>, post: seq<nat>)
    ensures ReadSection(pre + Section(recs) + post, |pre|) == Some((recs, |pre| + 1 + 4 * |recs|))
  {
    var tokens := pre + Section(recs) + post;
    ReadEncoded(pre + [|recs|], recs, post);
    assert tokens == (pre + [|recs|]) + Encode(recs) + post;
    assert tokens[|pre|] == |recs|;
  }

  /** Reads one section and places its records into `t` blank cases of
      `c` rounds; returns the lists and the position after the section. */
  function ReadChannel(tokens: seq<nat>, pos: nat, t: nat, c: nat): (r: Option<(Lists, nat)>)
    ensures r.Some? ==> Exactly(r.value.0, t, c)
  {
    match ReadSection(tokens, pos)
    case None => None
    case Some(section) =>
      PlaceAllSelects(Blank(t, c), section.0, t, c);
      match PlaceAll(Blank(t, c), section.0)
      case None => None
      case Some(lists) => Some((lists, section.1))
  }

  /** Reading a channel fails exactly when its section runs out of tokens
      or names a case or round that does not exist. Otherwise each list
      holds, in order, the coordinates of the records naming it, and
      reading resumes right after the section. */
  lemma ReadChannelPlaces(tokens: seq<nat>, pos: nat, t: nat, c: nat)
    ensures var r := ReadChannel(tokens, pos, t, c);
      r.Some? <==> ReadSection(tokens, pos).Some? && InRange(ReadSection(tokens, pos).value.0, t, c)
    ensures var r := ReadChannel(tokens, pos, t, c);
      r.Some? ==>
        && r.value.1 == ReadSection(tokens, pos).value.1
        && forall k, n :: 0 <= k < t && 0 <= n < c ==> r.value.0[k][n] == Select(ReadSection(tokens, pos).value.0, k, n)
  {
    if ReadSection(tokens, pos).Some? {
      PlaceAllSelects(Blank(t, c), ReadSection(tokens, pos).value.0, t, c);
    }
  }

  /** A written channel reads back as the lists written, wherever its
      section sits in the token stream. */
  lemma ReadChannelWritten(tokens: seq<nat>, pos: nat, end: nat, lists: Lists, t: nat, c: nat)
    requires Exactly(lists, t, c)
    requires end == pos + |Section(AllRecords(lists, t, c))| <= |tokens|
    requires tokens[pos..end] == Section(AllRecords(lists, t, c))
    ensures ReadChannel(tokens, pos, t, c) == Some((lists, end))
  {
    var recs := AllRecords(lists, t, c);
    SliceAround(tokens, pos, end, Section(recs));
    ReadSectionWritten(tokens[..pos], recs, tokens[end..]);
    assert ReadSection(tokens, pos) == Some((recs, end));
    ListsRoundTrip(lists, t, c);
  }

  /** A stream is what comes before a slice, the slice, and what follows. */
  lemma SliceAround<T>(s: seq<T>, i: nat, j: nat, mid: seq<T>)
    requires i <= j <= |s| && s[i..j] == mid
    ensures s == s[..i] + mid + s[j..]
  {
  }

  /** The lists of one channel of the input's cases. */
  function XLists(cases: seq<Instance>): (r: Lists)
    ensures |r| == |cases| && forall k :: 0 <= k < |cases| ==> r[k] == cases[k].xErrors
  {
    seq(|cases|, k requires 0 <= k < |cases| => cases[k].xErrors)
  }

  function ZLists(cases: seq<Instance>): (r: Lists)
    ensures |r| == |cases| && forall k :: 0 <= k < |cases| ==> r[k] == cases[k].zErrors
  {
    seq(|cases|, k requires 0 <= k < |cases| => cases[k].zErrors)
  }

  function MLists(cases: seq<Instance>): (r: Lists)
    ensures |r| == |cases| && forall k :: 0 <= k < |cases| ==> r[k] == cases[k].measureErrors
  {
    seq(|cases|, k requires 0 <= k < |cases| => cases[k].measureErrors)
  }

  /** What the writer reads of an input without going out of range. */
  predicate Writable(inp: Input) {
    && AtLeast(XLists(inp.testcase), inp.t, inp.c)
    && AtLeast(ZLists(inp.testcase), inp.t, inp.c)
    && AtLeast(MLists(inp.testcase), inp.t, inp.c)
  }

  /** The shape the reader builds: `t` cases of exactly `c` rounds per
      channel. */
  predicate ExactShape(inp: Input) {
    && Exactly(XLists(inp.testcase), inp.t, inp.c)
    && Exactly(ZLists(inp.testcase), inp.t, inp.c)
    && Exactly(MLists(inp.testcase), inp.t, inp.c)
  }

  /** The header `d c e_d e_m t`, with the severity standing for the two
      rates, then the X, Z and measurement sections. */
  function DisplayInput(inp: Input): (r: seq<nat>)
    requires Writable(inp)
    ensures |r| >= 7
    ensures |inp.testcase| == inp.t && ExactShape(inp) ==> ParseInput(r) == Some(inp)
  {
    var xs := Section(AllRecords(XLists(inp.testcase), inp.t, inp.c));
    var zs := Section(AllRecords(ZLists(inp.testcase), inp.t, inp.c));
    var ms := Section(AllRecords(MLists(inp.testcase), inp.t, inp.c));
    var tokens := [inp.d, inp.c, inp.severity, inp.t] + xs + zs + ms;
    if |inp.testcase| == inp.t && ExactShape(inp) then
      WrittenInputParses(inp, xs, zs, ms, tokens);
      tokens
    else tokens
  }

  /** Zips the three channels back into cases. */
  function Assemble(x: Lists, z: Lists, m: Lists, t: nat, c: nat): (r: seq<Instance>)
    requires Exactly(x, t, c) && Exactly(z, t, c) && Exactly(m, t, c)
    ensures XLists(r) == x && ZLists(r) == z && MLists(r) == m
  {
    seq(t, k requires 0 <= k < t => Instance(x[k], z[k], m[k]))
  }

  /** `parse_input`: the header, then the X, Z and measurement sections,
      every record placed into `t` blank cases of `c` rounds. Missing
      tokens and records naming a case or round that does not exist are
      errors. */
  function ParseInput(tokens: seq<nat>): (r: Option<Input>)
    ensures r.Some? ==> |r.value.testcase| == r.value.t && ExactShape(r.value)
  {
    if |tokens| < 4 then None
    else
      var d, c, severity, t := tokens[0], tokens[1], tokens[2], tokens[3];
      match ReadChannel(tokens, 4, t, c)
      case None => None
      case Some(x) =>
        match ReadChannel(tokens, x.1, t, c)
        case None => None
        case Some(z) =>
          match ReadChannel(tokens, z.1, t, c)
          case None => None
          case Some(m) => Some(Input(d, c, severity, t, Assemble(x.0, z.0, m.0, t, c)))
  }

  /** The written header and sections parse back as the input they were
      written from. */
  lemma WrittenInputParses(inp: Input, xs: seq<nat>, zs: seq<nat>, ms: seq<nat>, tokens: seq<nat>)
    requires |inp.testcase| == inp.t && ExactShape(inp)
    requires xs == Section(AllRecords(XLists(inp.testcase), inp.t, inp.c))
    requires zs == Section(AllRecords(ZLists(inp.testcase), inp.t, inp.c))
    requires ms == Section(AllRecords(MLists(inp.testcase), inp.t, inp.c))
    requires tokens == [inp.d, inp.c, inp.severity, inp.t] + xs + zs + ms
    ensures ParseInput(tokens) == Some(inp)
  {
    var t, c := inp.t, inp.c;
    var x, z, m := XLists(inp.testcase), ZLists(inp.testcase), MLists(inp.testcase);
    var p1, p2, p3 := 4 + |xs|, 4 + |xs| + |zs|, 4 + |xs| + |zs| + |ms|;
    SectionsAt([inp.d, inp.c, inp.severity, inp.t], xs, zs, ms, tokens);
    ReadChannelWritten(tokens, 4, p1, x, t, c);
    ReadChannelWritten(tokens, p1, p2, z, t, c);
    ReadChannelWritten(tokens, p2, p3, m, t, c);
    ParseInputReads(tokens, inp, x, z, m, p1, p2, p3);
  }

  /** Where a four-token header and three sections sit in their
      concatenation. */
  lemma SectionsAt(h: seq<nat>, xs: seq<nat>, zs: seq<nat>, ms: seq<nat>, tokens: seq<nat>)
    requires |h| == 4 && tokens == h + xs + zs + ms
    ensures |tokens| == 4 + |xs| + |zs| + |ms|
    ensures tokens[0] == h[0] && tokens[1] == h[1] && tokens[2] == h[2] && tokens[3] == h[3]
    ensures tokens[4..4 + |xs|] == xs
    ensures tokens[4 + |xs|..4 + |xs| + |zs|] == zs
    ensures tokens[4 + |xs| + |zs|..4 + |xs| + |zs| + |ms|] == ms
  {
  }

  /** Where the header and the three sections sit in the written input. */
  lemma DisplayInputLayout(inp: Input)
    requires Writable(inp)
    ensures var tokens := DisplayInput(inp);
      var xs := Section(AllRecords(XLists(inp.testcase), inp.t, inp.c));
      var zs := Section(AllRecords(ZLists(inp.testcase), inp.t, inp.c));
      var ms := Section(AllRecords(MLists(inp.testcase), inp.t, inp.c));
      && |tokens| == 4 + |xs| + |zs| + |ms|
      && tokens[0] == inp.d && tokens[1] == inp.c && tokens[2] == inp.severity && tokens[3] == inp.t
      && tokens[4..4 + |xs|] == xs
      && tokens[4 + |xs|..4 + |xs| + |zs|] == zs
      && tokens[4 + |xs| + |zs|..4 + |xs| + |zs| + |ms|] == ms
  {
    var xs := Section(AllRecords(XLists(inp.testcase), inp.t, inp.c));
    var zs := Section(AllRecords(ZLists(inp.testcase), inp.t, inp.c));
    var ms := Section(AllRecords(MLists(inp.testcase), inp.t, inp.c));
    SectionsAt([inp.d, inp.c, inp.severity, inp.t], xs, zs, ms, DisplayInput(inp));
  }

  /** `ParseInput` on a stream whose header and three channels read as
      given. */
  lemma ParseInputReads(tokens: seq<nat>, inp: Input, x: Lists, z: Lists, m: Lists, p1: nat, p2: nat, p3: nat)
    requires |tokens| >= 4
    requires tokens[0] == inp.d && tokens[1] == inp.c && tokens[2] == inp.severity && tokens[3] == inp.t
    requires Exactly(x, inp.t, inp.c) && Exactly(z, inp.t, inp.c) && Exactly(m, inp.t, inp.c)
    requires ReadChannel(tokens, 4, inp.t, inp.c) == Some((x, p1))
    requires ReadChannel(tokens, p1, inp.t, inp.c) == Some((z, p2))
    requires ReadChannel(tokens, p2, inp.t, inp.c) == Some((m, p3))
    requires x == XLists(inp.testcase) && z == ZLists(inp.testcase) && m == MLists(inp.testcase)
    requires |inp.testcase| == inp.t
    ensures ParseInput(tokens) == Some(inp)
  {
    assert Assemble(x, z, m, inp.t, inp.c) == inp.testcase;
  }

  /** The decoder's output in the same format: an X and a Z section. */
  function DisplayOutput(out: Output, t: nat, c: nat): seq<nat>
    requires AtLeast(out.xCorrections, t, c) && AtLeast(out.zCorrections, t, c)
  {
    Section(AllRecords(out.xCorrections, t, c)) + Section(AllRecords(out.zCorrections, t, c))
  }

  /** `parse_output`: empty text means no corrections at all; otherwise two
      sections placed into `t` blank cases of `c` rounds. */
  function ParseOutput(tokens: seq<nat>, c: nat, t: nat): (r: Option<Output>)
    ensures tokens == [] ==> r == Some(Output(Blank(t, c), Blank(t, c)))
    ensures r.Some? ==> Exactly(r.value.xCorrections, t, c) && Exactly(r.value.zCorrections, t, c)
  {
    if tokens == [] then Some(Output(Blank(t, c), Blank(t, c)))
    else
      match ReadChannel(tokens, 0, t, c)
      case None => None
      case Some(x) =>
        match ReadChannel(tokens, x.1, t, c)
        case None => None
        case Some(z) => Some(Output(x.0, z.0))
  }

  /** Reading written corrections gives them back. */
  lemma OutputRoundTrip(out: Output, t: nat, c: nat)
    requires Exactly(out.xCorrections, t, c) && Exactly(out.zCorrections, t, c)
    ensures ParseOutput(DisplayOutput(out, t, c), c, t) == Some(out)
  {
    var xs, zs := Section(AllRecords(out.xCorrections, t, c)), Section(AllRecords(out.zCorrections, t, c));
    var tokens := DisplayOutput(out, t, c);
    assert tokens[0..|xs|] == xs && tokens[|xs|..|xs| + |zs|] == zs;
    ReadChannelWritten(tokens, 0, |xs|, out.xCorrections, t, c);
    ReadChannelWritten(tokens, |xs|, |xs| + |zs|, out.zCorrections, t, c);
  }

  /** Empty text reads as the two empty sections `0 0` would. */
  lemma EmptyOutputIsNoCorrections(t: nat, c: nat)
    ensures ParseOutput([], c, t) == ParseOutput([0, 0], c, t)
  {
    assert ReadSection([0, 0], 0) == Some(([], 1));
    assert ReadSection([0, 0], 1) == Some(([], 2));
  }
}
