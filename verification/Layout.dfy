/** The flat balance query: one NO token per leg, then its YES token when known, job after job. */
module Layout {
  import opened Base
  import opened Ledger

  datatype ReadError = FewerBalances | MoreBalances

  type Pairs = seq<(nat, nat)>

  function LegsOf(rows: seq<Row>): (legs: seq<ConvertLeg>)
    ensures |legs| == |rows| && forall i :: 0 <= i < |rows| ==> legs[i] == rows[i].leg
  {
    if rows == [] then [] else [rows[0].leg] + LegsOf(rows[1..])
  }

  function PairsOf(rows: seq<Row>): (pairs: Pairs)
    ensures |pairs| == |rows| && forall i :: 0 <= i < |rows| ==> pairs[i] == (rows[i].no, rows[i].yes)
  {
    if rows == [] then [] else [(rows[0].no, rows[0].yes)] + PairsOf(rows[1..])
  }

  function LegTokens(leg: ConvertLeg): seq<int> {
    [leg.noTokenId] + if leg.yesTokenId.Some? then [leg.yesTokenId.value] else []
  }

  predicate HasToken(leg: ConvertLeg, id: int) {
    leg.noTokenId == id || leg.yesTokenId == Some(id)
  }

  function TokenIds(legs: seq<ConvertLeg>): seq<int> {
    if legs == [] then [] else LegTokens(legs[0]) + TokenIds(legs[1..])
  }

  function AllTokenIds(jobs: seq<seq<ConvertLeg>>): seq<int> {
    if jobs == [] then [] else TokenIds(jobs[0]) + AllTokenIds(jobs[1..])
  }

  function TokenCount(legs: seq<ConvertLeg>): nat {
    if legs == [] then 0 else (if legs[0].yesTokenId.Some? then 2 else 1) + TokenCount(legs[1..])
  }

  function TotalCount(jobs: seq<seq<ConvertLeg>>): nat {
    if jobs == [] then 0 else TokenCount(jobs[0]) + TotalCount(jobs[1..])
  }

  lemma {:induction false} TokenCountIsLength(legs: seq<ConvertLeg>)
    ensures |TokenIds(legs)| == TokenCount(legs)
  {
    if legs != [] {
      TokenCountIsLength(legs[1..]);
    }
  }

  method BatchTokenIds(legs: seq<ConvertLeg>) returns (ids: seq<int>)
    ensures ids == TokenIds(legs)
    ensures |ids| == TokenCount(legs)
  {
    ids := [];
    for i := 0 to |legs|
      invariant ids + TokenIds(legs[i..]) == TokenIds(legs)
    {
      ghost var before := ids;
      ids := ids + [legs[i].noTokenId];
      if legs[i].yesTokenId.Some? {
        ids := ids + [legs[i].yesTokenId.value];
      }
      assert legs[i..][0] == legs[i] && legs[i..][1..] == legs[i + 1..];
      assert ids == before + LegTokens(legs[i]);
      AppendAssoc(before, LegTokens(legs[i]), TokenIds(legs[i + 1..]));
    }
    assert ids + [] == ids;
    TokenCountIsLength(legs);
  }

  // ----- packing -----

  /** The balances of one leg in query order. */
  function PackLeg(leg: ConvertLeg, pair: (nat, nat)): seq<nat> {
    [pair.0] + if leg.yesTokenId.Some? then [pair.1] else []
  }

  function Pack(legs: seq<ConvertLeg>, pairs: Pairs): seq<nat>
    requires |pairs| == |legs|
  {
    if legs == [] then [] else PackLeg(legs[0], pairs[0]) + Pack(legs[1..], pairs[1..])
  }

  function PackAll(jobs: seq<seq<ConvertLeg>>, pairs: seq<Pairs>): seq<nat>
    requires |pairs| == |jobs| && forall i :: 0 <= i < |jobs| ==> |pairs[i]| == |jobs[i]|
  {
    if jobs == [] then [] else Pack(jobs[0], pairs[0]) + PackAll(jobs[1..], pairs[1..])
  }

  /** What a reader sees of a pair: no YES where the leg has no YES token id. */
  function Seen(leg: ConvertLeg, pair: (nat, nat)): (nat, nat) {
    if leg.yesTokenId.Some? then pair else (pair.0, 0)
  }

  /** The pairs of one job, each as the reader sees it. */
  predicate SeenAll(legs: seq<ConvertLeg>, pairs: Pairs, out: Pairs) {
    && |pairs| == |legs| && |out| == |legs|
    && forall i :: 0 <= i < |legs| ==> out[i] == Seen(legs[i], pairs[i])
  }

  lemma {:induction false} PackLength(legs: seq<ConvertLeg>, pairs: Pairs)
    requires |pairs| == |legs|
    ensures |Pack(legs, pairs)| == TokenCount(legs)
  {
    if legs != [] {
      PackLength(legs[1..], pairs[1..]);
    }
  }

  /** Two lists of visible pairs that pack alike are alike. */
  lemma {:induction false} PackInjective(legs: seq<ConvertLeg>, p: Pairs, q: Pairs)
    requires |p| == |legs| && |q| == |legs|
    requires Pack(legs, p) == Pack(legs, q)
    ensures forall i :: 0 <= i < |legs| ==> Seen(legs[i], p[i]) == Seen(legs[i], q[i])
  {
    if legs != [] {
      var x, y := PackLeg(legs[0], p[0]), PackLeg(legs[0], q[0]);
      var s, t := Pack(legs[1..], p[1..]), Pack(legs[1..], q[1..]);
      assert x == (x + s)[..|x|] == (y + t)[..|y|] == y;
      assert s == (x + s)[|x|..] == (y + t)[|y|..] == t;
      assert x[0] == p[0].0 && y[0] == q[0].0;
      if legs[0].yesTokenId.Some? {
        assert x[1] == p[0].1 && y[1] == q[0].1;
      }
      PackInjective(legs[1..], p[1..], q[1..]);
      forall i | 0 <= i < |legs| ensures Seen(legs[i], p[i]) == Seen(legs[i], q[i]) {
        if i > 0 {
          assert legs[i] == legs[1..][i - 1] && p[i] == p[1..][i - 1] && q[i] == q[1..][i - 1];
        }
      }
    }
  }

  // ----- unpacking -----

  lemma {:induction false} PackAppend(legs: seq<ConvertLeg>, pairs: Pairs, leg: ConvertLeg, pair: (nat, nat))
    requires |pairs| == |legs|
    ensures Pack(legs + [leg], pairs + [pair]) == Pack(legs, pairs) + PackLeg(leg, pair)
  {
    if legs == [] {
      assert [leg][1..] == [] && [pair][1..] == [];
      assert Pack([leg], [pair]) == PackLeg(leg, pair) + [];
    } else {
      PackAppend(legs[1..], pairs[1..], leg, pair);
      assert (legs + [leg])[1..] == legs[1..] + [leg] && (pairs + [pair])[1..] == pairs[1..] + [pair];
      AppendAssoc(PackLeg(legs[0], pairs[0]), Pack(legs[1..], pairs[1..]), PackLeg(leg, pair));
    }
  }

  lemma {:induction false} CountPrefix(legs: seq<ConvertLeg>, i: nat)
    requires i < |legs|
    ensures TokenCount(legs[..i + 1]) == TokenCount(legs[..i]) + (if legs[i].yesTokenId.Some? then 2 else 1)
    ensures TokenCount(legs[..i + 1]) <= TokenCount(legs)
  {
    if i == 0 {
      assert legs[..1][1..] == [] && legs[..0] == [];
    } else {
      CountPrefix(legs[1..], i - 1);
      assert legs[..i + 1][1..] == legs[1..][..i] && legs[..i][1..] == legs[1..][..i - 1];
    }
  }

  /** The pairs, as a reader sees them, that pack to the flat list. */
  ghost predicate Unpacked(legs: seq<ConvertLeg>, pairs: Pairs, flat: seq<nat>) {
    SeenAll(legs, pairs, pairs) && Pack(legs, pairs) == flat
  }

  lemma UnpackedStep(legs: seq<ConvertLeg>, i: nat, pairs: Pairs, flat: seq<nat>, pair: (nat, nat))
    requires i < |legs| && Unpacked(legs[..i], pairs, flat) && Seen(legs[i], pair) == pair
    ensures Unpacked(legs[..i + 1], pairs + [pair], flat + PackLeg(legs[i], pair))
  {
    PackAppend(legs[..i], pairs, legs[i], pair);
    assert legs[..i + 1] == legs[..i] + [legs[i]];
  }

  /**
   * Walks the flat list back into per-leg pairs. It succeeds exactly on a list of the queried
   * length, and then the pairs are the only ones that pack back to the list.
   */
  method UnpackBalances(legs: seq<ConvertLeg>, balances: seq<nat>) returns (r: Result<Pairs, ReadError>)
    ensures |balances| < TokenCount(legs) ==> r == Err(FewerBalances)
    ensures |balances| > TokenCount(legs) ==> r == Err(MoreBalances)
    ensures |balances| == TokenCount(legs) ==> r.Ok? && Unpacked(legs, r.value, balances)
  {
    var cursor := 0;
    var pairs: Pairs := [];
    assert legs[..|legs|] == legs;
    for i := 0 to |legs|
      invariant cursor == TokenCount(legs[..i]) <= |balances|
      invariant cursor <= TokenCount(legs)
      invariant Unpacked(legs[..i], pairs, balances[..cursor])
    {
      CountPrefix(legs, i);
      if cursor >= |balances| {
        return Err(FewerBalances);
      }
      ghost var flat := balances[..cursor];
      var noBal := balances[cursor];
      cursor := cursor + 1;
      var yesBal := 0;
      if legs[i].yesTokenId.Some? {
        if cursor >= |balances| {
          return Err(FewerBalances);
        }
        yesBal := balances[cursor];
        cursor := cursor + 1;
      }
      UnpackedStep(legs, i, pairs, flat, (noBal, yesBal));
      assert balances[..cursor] == flat + PackLeg(legs[i], (noBal, yesBal));
      pairs := pairs + [(noBal, yesBal)];
    }
    if cursor < |balances| {
      return Err(MoreBalances);
    }
    assert balances[..cursor] == balances;
    return Ok(pairs);
  }

  ghost predicate Shaped(jobs: seq<seq<ConvertLeg>>, pairs: seq<Pairs>) {
    |pairs| == |jobs| && forall i :: 0 <= i < |jobs| ==> |pairs[i]| == |jobs[i]|
  }

  lemma {:induction false} PackAllAppend(jobs: seq<seq<ConvertLeg>>, out: seq<Pairs>, legs: seq<ConvertLeg>, p: Pairs)
    requires Shaped(jobs, out) && |p| == |legs|
    ensures Shaped(jobs + [legs], out + [p])
    ensures PackAll(jobs + [legs], out + [p]) == PackAll(jobs, out) + Pack(legs, p)
  {
    if jobs == [] {
      assert [legs][1..] == [] && [p][1..] == [];
      assert PackAll([legs], [p]) == Pack(legs, p) + [];
    } else {
      PackAllAppend(jobs[1..], out[1..], legs, p);
      assert (jobs + [legs])[1..] == jobs[1..] + [legs] && (out + [p])[1..] == out[1..] + [p];
      AppendAssoc(Pack(jobs[0], out[0]), PackAll(jobs[1..], out[1..]), Pack(legs, p));
    }
  }

  lemma {:induction false} TotalPrefix(jobs: seq<seq<ConvertLeg>>, i: nat)
    requires i < |jobs|
    ensures TotalCount(jobs[..i + 1]) == TotalCount(jobs[..i]) + TokenCount(jobs[i])
    ensures TotalCount(jobs[..i + 1]) <= TotalCount(jobs)
  {
    if i == 0 {
      assert jobs[..1][1..] == [] && jobs[..0] == [];
    } else {
      TotalPrefix(jobs[1..], i - 1);
      assert jobs[..i + 1][1..] == jobs[1..][..i] && jobs[..i][1..] == jobs[1..][..i - 1];
    }
  }

  ghost predicate UnpackedAll(jobs: seq<seq<ConvertLeg>>, out: seq<Pairs>, flat: seq<nat>) {
    && Shaped(jobs, out)
    && PackAll(jobs, out) == flat
    && forall k :: 0 <= k < |jobs| ==> SeenAll(jobs[k], out[k], out[k])
  }

  lemma UnpackedAllStep(jobs: seq<seq<ConvertLeg>>, i: nat, out: seq<Pairs>, flat: seq<nat>, p: Pairs, chunk: seq<nat>)
    requires i < |jobs| && UnpackedAll(jobs[..i], out, flat) && Unpacked(jobs[i], p, chunk)
    ensures UnpackedAll(jobs[..i + 1], out + [p], flat + chunk)
  {
    PackAllAppend(jobs[..i], out, jobs[i], p);
    assert jobs[..i + 1] == jobs[..i] + [jobs[i]];
  }

  /** Splits one combined read back into per-job pairs; the same exact-length rule for the whole. */
  method UnpackMulti(jobs: seq<seq<ConvertLeg>>, balances: seq<nat>) returns (r: Result<seq<Pairs>, ReadError>)
    ensures |balances| < TotalCount(jobs) ==> r == Err(FewerBalances)
    ensures |balances| > TotalCount(jobs) ==> r == Err(MoreBalances)
    ensures |balances| == TotalCount(jobs) ==> r.Ok? && UnpackedAll(jobs, r.value, balances)
  {
    var out: seq<Pairs> := [];
    var offset := 0;
    assert jobs[..|jobs|] == jobs;
    for i := 0 to |jobs|
      invariant offset == TotalCount(jobs[..i]) <= |balances|
      invariant offset <= TotalCount(jobs)
      invariant UnpackedAll(jobs[..i], out, balances[..offset])
    {
      TotalPrefix(jobs, i);
      var n := TokenCount(jobs[i]);
      var chunk := balances[offset..Min(offset + n, |balances|)];
      if |chunk| < n {
        return Err(FewerBalances);
      }
      var pairs := UnpackBalances(jobs[i], chunk);
      UnpackedAllStep(jobs, i, out, balances[..offset], pairs.value, chunk);
      assert balances[..offset + n] == balances[..offset] + chunk;
      out := out + [pairs.value];
      offset := offset + n;
    }
    if offset != |balances| {
      return Err(MoreBalances);
    }
    assert balances[..offset] == balances;
    return Ok(out);
  }

  // ----- the round trip -----

  lemma {:induction false} PackAllInjective(jobs: seq<seq<ConvertLeg>>, p: seq<Pairs>, q: seq<Pairs>)
    requires Shaped(jobs, p) && Shaped(jobs, q) && PackAll(jobs, p) == PackAll(jobs, q)
    ensures forall j, i :: 0 <= j < |jobs| && 0 <= i < |jobs[j]| ==>
      Seen(jobs[j][i], p[j][i]) == Seen(jobs[j][i], q[j][i])
  {
    if jobs != [] {
      var x, y := Pack(jobs[0], p[0]), Pack(jobs[0], q[0]);
      var s, t := PackAll(jobs[1..], p[1..]), PackAll(jobs[1..], q[1..]);
      PackLength(jobs[0], p[0]);
      PackLength(jobs[0], q[0]);
      assert x == (x + s)[..|x|] == (y + t)[..|y|] == y;
      assert s == (x + s)[|x|..] == (y + t)[|y|..] == t;
      PackInjective(jobs[0], p[0], q[0]);
      PackAllInjective(jobs[1..], p[1..], q[1..]);
      forall j, i | 0 <= j < |jobs| && 0 <= i < |jobs[j]|
        ensures Seen(jobs[j][i], p[j][i]) == Seen(jobs[j][i], q[j][i])
      {
        if j > 0 {
          assert jobs[j] == jobs[1..][j - 1] && p[j] == p[1..][j - 1] && q[j] == q[1..][j - 1];
        }
      }
    }
  }

  lemma {:induction false} PackAllLength(jobs: seq<seq<ConvertLeg>>, pairs: seq<Pairs>)
    requires Shaped(jobs, pairs)
    ensures |PackAll(jobs, pairs)| == TotalCount(jobs)
  {
    if jobs != [] {
      PackLength(jobs[0], pairs[0]);
      PackAllLength(jobs[1..], pairs[1..]);
    }
  }

  /** Reading back what was packed gives each pair as seen: YES is 0 where its token id is unknown. */
  lemma ReadBack(jobs: seq<seq<ConvertLeg>>, held: seq<Pairs>, read: seq<Pairs>)
    requires Shaped(jobs, held) && UnpackedAll(jobs, read, PackAll(jobs, held))
    ensures forall j :: 0 <= j < |jobs| ==> SeenAll(jobs[j], held[j], read[j])
  {
    PackAllInjective(jobs, held, read);
    forall j, i | 0 <= j < |jobs| && 0 <= i < |jobs[j]| ensures read[j][i] == Seen(jobs[j][i], held[j][i]) {
      assert SeenAll(jobs[j], read[j], read[j]);
      assert Seen(jobs[j][i], read[j][i]) == Seen(jobs[j][i], held[j][i]);
    }
  }
}
