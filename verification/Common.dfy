/** Vocabulary shared by the models: optional values, results and instants. */
module Common {

  datatype Option<+T> = None | Some(value: T)

  datatype Result<+T, +E> = Ok(value: T) | Err(error: E)

  /** An instant, counted in whole units since some epoch. Each module says which unit. */
  type Time = int

  /** Ids, secrets and digests are random in the program. Here they are naturals, so
      "freshly drawn" means "not yet in use" and a fresh one can always be found. */
  lemma FreshExists(used: set<nat>) returns (n: nat)
    ensures n !in used
  {
    n := 0;
    var rest := used;
    while rest != {}
      invariant rest <= used
      invariant forall x :: x in used && x !in rest ==> x < n
      decreases |rest|
    {
      var x :| x in rest;
      rest := rest - {x};
      if n <= x {
        n := x + 1;
      }
    }
  }

  lemma CountRemoved<T>(before: map<nat, T>, after: map<nat, T>, gone: set<nat>)
    requires before.Keys == after.Keys + gone && after.Keys !! gone
    ensures |gone| == |before| - |after|
  {
    assert |before.Keys| == |after.Keys| + |gone|;
    assert |before| == |before.Keys| && |after| == |after.Keys|;
  }

  // ----- instants at a coarser grain

  type Grain = g: int | g > 0 witness 1

  /** The instant cut down to a whole number of grains. */
  function Cut(t: Time, g: Grain): Time { t / g * g }

  lemma ScaleUp(x: int, y: int, unit: int)
    requires x <= y && unit >= 0
    ensures x * unit <= y * unit
  {
  }

  lemma Distribute(k: int, unit: int)
    ensures (k + 1) * unit == k * unit + unit
  {
  }

  lemma CutBounds(t: Time, g: Grain)
    ensures t - g < Cut(t, g) <= t
  {
    assert t == t / g * g + t % g;
  }

  /** An instant in whole grains is at or before t exactly when it is at or before t cut down. */
  lemma WholeBeforeCut(k: int, t: Time, g: Grain)
    ensures k * g <= t <==> k * g <= Cut(t, g)
    ensures k * g <= t <==> k <= t / g
  {
    CutBounds(t, g);
    if k <= t / g {
      ScaleUp(k, t / g, g);
    } else {
      ScaleUp(t / g + 1, k, g);
      Distribute(t / g, g);
    }
  }

  lemma CutKeepsOrder(x: Time, y: Time, g: Grain)
    requires x <= y
    ensures Cut(x, g) <= Cut(y, g)
  {
    CutBounds(x, g);
    WholeBeforeCut(x / g, y, g);
  }

  lemma CutOfWhole(k: int, g: Grain)
    ensures Cut(k * g, g) == k * g
  {
    WholeBeforeCut(k, k * g, g);
    CutBounds(k * g, g);
  }
}
