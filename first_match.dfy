/** The search shared by the three loops of the scraper: walk a list in order and stop
    at the first element that yields a result. */
module FirstMatch {

  datatype Option<T> = None | Some(value: T)

  /** The result of the first element of `xs` for which `f` yields one. */
  function FirstSome<T, R>(xs: seq<T>, f: T -> Option<R>): Option<R>
    decreases |xs|
  {
    if xs == [] then None
    else if f(xs[0]).Some? then f(xs[0])
    else FirstSome(xs[1..], f)
  }

  /** The search finds nothing exactly when no element yields a result. */
  lemma {:induction false} FirstSomeNone<T, R>(xs: seq<T>, f: T -> Option<R>)
    ensures FirstSome(xs, f) == None <==> forall k | 0 <= k < |xs| :: f(xs[k]) == None
    decreases |xs|
  {
    if xs != [] {
      FirstSomeNone(xs[1..], f);
      assert forall k | 1 <= k < |xs| :: xs[k] == xs[1..][k - 1];
    }
  }

  /** The search returns the result of the earliest element that yields one. */
  lemma {:induction false} FirstSomeAt<T, R>(xs: seq<T>, f: T -> Option<R>, k: nat)
    requires k < |xs| && f(xs[k]).Some?
    requires forall j | 0 <= j < k :: f(xs[j]) == None
    ensures FirstSome(xs, f) == f(xs[k])
    decreases k
  {
    if k > 0 {
      assert forall j | 0 <= j < k - 1 :: xs[1..][j] == xs[j + 1];
      FirstSomeAt(xs[1..], f, k - 1);
    }
  }

  /** Whatever the search returns is the result of one of the elements. */
  lemma {:induction false} FirstSomeFrom<T, R>(xs: seq<T>, f: T -> Option<R>)
    ensures FirstSome(xs, f).Some? ==>
      exists k | 0 <= k < |xs| :: f(xs[k]) == FirstSome(xs, f)
    decreases |xs|
  {
    if xs != [] && f(xs[0]).None? {
      var rest := xs[1..];
      FirstSomeFrom(rest, f);
      assert forall k | 0 <= k < |rest| :: rest[k] == xs[k + 1];
    }
  }

  /** Elements after the first one that yields a result are never consulted: two
      functions that agree up to it give the same search result. */
  lemma {:induction false} FirstSomeIgnoresLater<T, R>(xs: seq<T>, f: T -> Option<R>, g: T -> Option<R>, k: nat)
    requires k < |xs| && f(xs[k]).Some?
    requires forall j | 0 <= j <= k :: f(xs[j]) == g(xs[j])
    ensures FirstSome(xs, f) == FirstSome(xs, g)
    decreases k
  {
    if f(xs[0]).None? {
      assert k > 0;
      var rest := xs[1..];
      assert forall j | 0 <= j <= k - 1 :: rest[j] == xs[j + 1];
      FirstSomeIgnoresLater(rest, f, g, k - 1);
    }
  }
}
