/**
  Generic facts about sequences: the concatenation of a sequence of sequences,
  which the validator's list-level report is, and the collection of a sequence
  of results, which a loop that stops at its first exception returns.
 */
module Sequences {
  import opened Wrappers

  /** The concatenation of `ss`, in order. */
  function Flatten<T>(ss: seq<seq<T>>): seq<T> {
    if |ss| == 0 then [] else Flatten(ss[..|ss| - 1]) + ss[|ss| - 1]
  }

  /** Appending one more part appends its elements. */
  lemma FlattenSnoc<T>(ss: seq<seq<T>>, s: seq<T>)
    ensures Flatten(ss + [s]) == Flatten(ss) + s
  {
    assert (ss + [s])[..|ss|] == ss;
  }

  /** The concatenation is empty exactly when every part is. */
  lemma {:induction false} FlattenEmpty<T>(ss: seq<seq<T>>)
    ensures Flatten(ss) == [] <==> forall j | 0 <= j < |ss| :: ss[j] == []
  {
    if |ss| > 0 {
      var init := ss[..|ss| - 1];
      FlattenEmpty(init);
      assert forall j | 0 <= j < |init| :: init[j] == ss[j];
    }
  }

  /** The concatenation of a prefix of the parts is a prefix of the whole concatenation. */
  lemma {:induction false} FlattenPrefix<T>(ss: seq<seq<T>>, k: nat)
    requires k <= |ss|
    ensures Flatten(ss[..k]) <= Flatten(ss)
  {
    if k < |ss| {
      var init := ss[..|ss| - 1];
      assert init[..k] == ss[..k];
      FlattenPrefix(init, k);
      PrefixExtended(Flatten(ss[..k]), Flatten(init), ss[|ss| - 1]);
    } else {
      assert ss[..k] == ss;
      var a := Flatten(ss);
      assert a[..|a|] == a;
    }
  }

  lemma PrefixExtended<T>(a: seq<T>, b: seq<T>, e: seq<T>)
    requires a <= b
    ensures a <= b + e
  {
    assert (b + e)[..|a|] == b[..|a|];
  }

  /** `[f(0), ..., f(k - 1)]`. */
  function Tabulate<T>(f: nat -> T, k: nat): (r: seq<T>)
    ensures |r| == k && forall j | 0 <= j < k :: r[j] == f(j)
  {
    seq(k, j requires 0 <= j < k => f(j))
  }

  /** Tabulating one more element appends it. */
  lemma TabulateSnoc<T>(f: nat -> T, k: nat)
    ensures Tabulate(f, k + 1) == Tabulate(f, k) + [f(k)]
  {
  }

  /** Functions that agree below `k` tabulate alike. */
  lemma TabulateEqual<T>(f: nat -> T, g: nat -> T, k: nat)
    requires forall j: nat | j < k :: f(j) == g(j)
    ensures Tabulate(f, k) == Tabulate(g, k)
  {
  }

  /**
    The values of `rs` in order when every one is `Ok`, else the first error:
    what a loop returns that raises at its first failing step.
   */
  function Collect<T, E>(rs: seq<Result<T, E>>): (r: Result<seq<T>, E>)
    ensures r.Ok? <==> forall j | 0 <= j < |rs| :: rs[j].Ok?
    ensures r.Ok? ==> |r.value| == |rs| && forall j | 0 <= j < |rs| :: rs[j] == Ok(r.value[j])
  {
    if |rs| == 0 then Ok([])
    else match Collect(rs[..|rs| - 1])
      case Err(e) => Err(e)
      case Ok(xs) =>
        match rs[|rs| - 1]
        case Err(e) => Err(e)
        case Ok(x) => Ok(xs + [x])
  }

  /** One more `Ok` step extends the collected values. */
  lemma CollectSnoc<T, E>(rs: seq<Result<T, E>>, xs: seq<T>, x: T)
    requires Collect(rs) == Ok(xs)
    ensures Collect(rs + [Ok(x)]) == Ok(xs + [x])
  {
    assert (rs + [Ok(x)])[..|rs|] == rs;
  }

  /** The first `Err` decides the collection, whatever follows it. */
  lemma {:induction false} CollectFirstErr<T, E>(rs: seq<Result<T, E>>, i: nat)
    requires i < |rs| && rs[i].Err? && forall l | 0 <= l < i :: rs[l].Ok?
    ensures Collect(rs) == Err(rs[i].error)
  {
    var init := rs[..|rs| - 1];
    if i < |rs| - 1 {
      CollectFirstErr(init, i);
    } else {
      assert forall l | 0 <= l < |init| :: init[l].Ok?;
    }
  }
}
