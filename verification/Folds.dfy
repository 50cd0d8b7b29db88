// Applying a list of changes one after the other, stopping at the first failure.
module Folds {
  import opened Options

  function Fold<S, C, E>(step: (S, C) -> Result<S, E>, s: S, cs: seq<C>): Result<S, E> {
    if cs == [] then Ok(s)
    else
      match Fold(step, s, cs[..|cs| - 1])
      case Ok(x) => step(x, cs[|cs| - 1])
      case Err(e) => Err(e)
  }

  lemma FoldTwo<S, C, E>(step: (S, C) -> Result<S, E>, s: S, c: C, d: C)
    requires step(s, c).Ok?
    ensures Fold(step, s, [c, d]) == step(step(s, c).value, d)
  {
    assert [c, d][..1] == [c] && [c][..0] == [];
    assert Fold(step, s, [c]) == step(s, c);
  }

  /** What one step keeps, a fold keeps. */
  lemma {:induction false} Invariant<S(!new), C(!new), E>(step: (S, C) -> Result<S, E>, s: S, cs: seq<C>,
                                                          keeps: S -> bool)
    requires Fold(step, s, cs).Ok? && keeps(s)
    requires forall x, c :: c in cs && keeps(x) && step(x, c).Ok? ==> keeps(step(x, c).value)
    ensures keeps(Fold(step, s, cs).value)
    decreases |cs|
  {
    if cs != [] {
      var n := |cs| - 1;
      assert forall c :: c in cs[..n] ==> c in cs;
      Invariant(step, s, cs[..n], keeps);
      assert cs[n] in cs;
    }
  }

  /** If every change settles itself and unsettles no other, all are settled in the end. */
  lemma {:induction false} Persists<S(!new), C(!new), E>(step: (S, C) -> Result<S, E>, s: S, cs: seq<C>,
                                                         settled: (S, C) -> bool, i: nat)
    requires Fold(step, s, cs).Ok? && i < |cs|
    requires forall x, c :: c in cs && step(x, c).Ok? ==> settled(step(x, c).value, c)
    requires forall x, c, d :: c in cs && d in cs && settled(x, d) && step(x, c).Ok? ==> settled(step(x, c).value, d)
    ensures settled(Fold(step, s, cs).value, cs[i])
    decreases |cs|
  {
    var n := |cs| - 1;
    assert forall c :: c in cs[..n] ==> c in cs;
    assert cs[n] in cs && cs[i] in cs;
    if i < n {
      Persists(step, s, cs[..n], settled, i);
      assert settled(Fold(step, s, cs[..n]).value, cs[i]);
    }
  }

  /** If every change is possible and keeps `same`, the whole list is possible and keeps it. */
  lemma {:induction false} Succeeds<S(!new), C(!new), E>(step: (S, C) -> Result<S, E>, s: S, cs: seq<C>,
                                                         same: S -> bool)
    requires same(s)
    requires forall x, c :: c in cs && same(x) ==> step(x, c).Ok? && same(step(x, c).value)
    ensures Fold(step, s, cs).Ok? && same(Fold(step, s, cs).value)
    decreases |cs|
  {
    if cs != [] {
      var n := |cs| - 1;
      assert forall c :: c in cs[..n] ==> c in cs;
      Succeeds(step, s, cs[..n], same);
      assert cs[n] in cs;
    }
  }

  lemma {:induction false} FoldAppend<S, C, E>(step: (S, C) -> Result<S, E>, s: S, a: seq<C>, b: seq<C>)
    requires Fold(step, s, a).Ok?
    ensures Fold(step, s, a + b) == Fold(step, Fold(step, s, a).value, b)
    decreases |b|
  {
    if b == [] {
      assert a + b == a;
    } else {
      var n := |b| - 1;
      assert (a + b)[..|a + b| - 1] == a + b[..n];
      FoldAppend(step, s, a, b[..n]);
    }
  }

  /** A success shows that every change was acceptable where it was applied. */
  lemma {:induction false} Demands<S(!new), C(!new), E>(step: (S, C) -> Result<S, E>, s: S, cs: seq<C>,
                                                       keeps: S -> bool, good: C -> bool, i: nat)
    requires Fold(step, s, cs).Ok? && keeps(s) && i < |cs|
    requires forall x, c :: c in cs && keeps(x) && step(x, c).Ok? ==> keeps(step(x, c).value) && good(c)
    ensures good(cs[i])
    decreases |cs|
  {
    var n := |cs| - 1;
    assert forall c :: c in cs[..n] ==> c in cs;
    assert cs[n] in cs;
    if i < n {
      Demands(step, s, cs[..n], keeps, good, i);
      assert cs[..n][i] == cs[i];
    } else {
      Invariant(step, s, cs[..n], keeps);
    }
  }

  lemma {:induction false} FoldPrefix<S, C, E>(step: (S, C) -> Result<S, E>, s: S, a: seq<C>, b: seq<C>)
    requires Fold(step, s, a + b).Ok?
    ensures Fold(step, s, a).Ok?
    decreases |b|
  {
    if b == [] {
      assert a + b == a;
    } else {
      var n := |b| - 1;
      assert (a + b)[..|a + b| - 1] == a + b[..n];
      FoldPrefix(step, s, a, b[..n]);
    }
  }
}
