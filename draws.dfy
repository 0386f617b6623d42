/**
  numpy's `Generator`, seen from the generator's side: a stream of doubles
  drawn uniformly from [0, 1) and a position in it. Every sampling call takes
  the next draw and turns it into its answer; a seeded generator is a fixed
  stream, so everything computed from it is a function of the stream.
 */
module Draws {
  import opened Wrappers

  /** A double in [0, 1), as `Generator.random()` returns. */
  type Unit = r: real | 0.0 <= r < 1.0

  /** The draws the generator will produce, and how many it has produced so far. */
  datatype Rng = Rng(source: nat -> Unit, pos: nat)

  /** The generator after it has produced `n` more draws. */
  function Skip(rng: Rng, n: nat): Rng {
    Rng(rng.source, rng.pos + n)
  }

  /** `rng.random()`: the next draw itself. */
  function Random(rng: Rng): (r: (Unit, Rng))
    ensures r.0 == rng.source(rng.pos) && r.1 == Skip(rng, 1)
  {
    (rng.source(rng.pos), Skip(rng, 1))
  }

  /** The cell of [0, k) that `u * k` falls in. */
  function Index(u: Unit, k: nat): (i: nat)
    requires k > 0
    ensures i < k
    ensures i as real <= u * k as real < i as real + 1.0
  {
    ProductBelow(u, k as real);
    (u * k as real).Floor
  }

  lemma ProductBelow(u: Unit, x: real)
    requires x > 0.0
    ensures 0.0 <= u * x < x
  {
  }

  /**
    `rng.integers(0, high)`: a draw turned into an integer in [0, high); None
    where numpy raises because the range is empty (`high <= 0`).
   */
  function Integers(rng: Rng, high: int): (r: Option<(nat, Rng)>)
    ensures r.None? <==> high <= 0
    ensures r.Some? ==> r.value.0 < high && r.value.1 == Skip(rng, 1)
    ensures r.Some? ==> r.value.0 == Index(rng.source(rng.pos), high)
  {
    if high <= 0 then None else Some((Index(rng.source(rng.pos), high), Skip(rng, 1)))
  }

  /** The total of the weights. */
  function Sum(ws: seq<real>): real {
    if |ws| == 0 then 0.0 else Sum(ws[..|ws| - 1]) + ws[|ws| - 1]
  }

  /** All weights are positive, as `choice` requires of its probabilities once clipped. */
  predicate Positive(ws: seq<real>) {
    forall j | 0 <= j < |ws| :: ws[j] > 0.0
  }

  /** The prefix totals of positive weights grow strictly. */
  lemma {:induction false} SumGrows(ws: seq<real>, i: nat, j: nat)
    requires i < j <= |ws| && Positive(ws)
    ensures Sum(ws[..i]) < Sum(ws[..j])
  {
    var p := ws[..j];
    assert p[..j - 1] == ws[..j - 1];
    assert Sum(p) == Sum(ws[..j - 1]) + ws[j - 1];
    if i < j - 1 {
      SumGrows(ws, i, j - 1);
    }
  }

  /**
    The search behind `choice(k, p=...)`: the first index from `i` on whose
    cumulative weight exceeds `t`, or the last index if none does.
   */
  function PickFrom(ws: seq<real>, t: real, i: nat): (r: nat)
    requires i < |ws| && Sum(ws[..i]) <= t
    ensures i <= r < |ws|
    ensures Sum(ws[..r]) <= t
    ensures t < Sum(ws) ==> t < Sum(ws[..r + 1])
    decreases |ws| - i
  {
    if i == |ws| - 1 then
      assert ws[..i + 1] == ws;
      i
    else if t < Sum(ws[..i + 1]) then i
    else PickFrom(ws, t, i + 1)
  }

  /**
    The cell of the cumulative probabilities `p` over [0, 1) that the draw `u`
    falls in.
   */
  function Pick(p: seq<real>, u: Unit): (i: nat)
    requires |p| > 0 && Positive(p) && Sum(p) == 1.0
    ensures i < |p|
    ensures Sum(p[..i]) <= u < Sum(p[..i + 1])
  {
    assert p[..0] == [];
    PickFrom(p, u, 0)
  }

  /** `rng.choice(len(p), p=p)` for probabilities that sum to 1: the cell of the next draw. */
  function Choice(rng: Rng, p: seq<real>): (r: (nat, Rng))
    requires |p| > 0 && Positive(p) && Sum(p) == 1.0
    ensures r.0 < |p| && r.1 == Skip(rng, 1)
    ensures Sum(p[..r.0]) <= rng.source(rng.pos) < Sum(p[..r.0 + 1])
  {
    (Pick(p, rng.source(rng.pos)), Skip(rng, 1))
  }

  /** `ws / ws.sum()`: each weight divided by the total. */
  function Normalized(ws: seq<real>): (p: seq<real>)
    requires |ws| > 0 && Positive(ws)
    ensures |p| == |ws| && Positive(p) && Sum(p) == 1.0
    ensures forall j | 0 <= j < |ws| :: p[j] * Sum(ws) == ws[j]
  {
    var total := Sum(ws);
    SumGrows(ws, 0, |ws|);
    assert ws[..0] == [] && ws[..|ws|] == ws;
    var p := seq(|ws|, j requires 0 <= j < |ws| => ws[j] / total);
    NormalizedPrefix(ws, total, p, |ws|);
    assert p[..|p|] == p;
    assert Sum(p) == total / total == 1.0;
    p
  }

  /** The prefixes of the divided weights add up to the prefixes of the weights divided. */
  lemma {:induction false} NormalizedPrefix(ws: seq<real>, total: real, p: seq<real>, k: nat)
    requires total > 0.0 && |p| == |ws| && k <= |ws|
    requires forall j | 0 <= j < |ws| :: p[j] == ws[j] / total
    ensures Sum(p[..k]) == Sum(ws[..k]) / total
  {
    if k > 0 {
      NormalizedPrefix(ws, total, p, k - 1);
      assert p[..k][..k - 1] == p[..k - 1];
      assert ws[..k][..k - 1] == ws[..k - 1];
      DivideSum(Sum(ws[..k - 1]), ws[k - 1], total);
    }
  }

  lemma DivideSum(a: real, b: real, total: real)
    requires total > 0.0
    ensures a / total + b / total == (a + b) / total
  {
  }

  /** The cell a draw falls in is the only one whose range holds it: the pick is determined. */
  lemma ChoiceUnique(ws: seq<real>, t: real, i: nat, j: nat)
    requires Positive(ws) && i < |ws| && j < |ws|
    requires Sum(ws[..i]) <= t < Sum(ws[..i + 1])
    requires Sum(ws[..j]) <= t < Sum(ws[..j + 1])
    ensures i == j
  {
    if i < j {
      if i + 1 < j {
        SumGrows(ws, i + 1, j);
      }
    } else if j < i {
      if j + 1 < i {
        SumGrows(ws, j + 1, i);
      }
    }
  }
}
