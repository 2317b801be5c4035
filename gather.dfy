/**
 * Collecting the optional results of a run of steps into a list, where the first step that
 * fails ends the run with its error: the shape of a loop that appends what it keeps and lets an
 * exception escape.
 */
module Gather {
  import opened Wrappers
  import opened Batching

  /** What one step does to the list so far: fail, keep nothing, or append one element. */
  function Add<P, Err>(ps: seq<P>, outcome: Result<Option<P>, Err>): Result<seq<P>, Err> {
    match outcome
    case Failure(err) => Failure(err)
    case Success(None) => Success(ps)
    case Success(Some(p)) => Success(ps + [p])
  }

  /** The elements kept by the steps over `xs`, in order, or the first failure. */
  function Collect<E, P, Err>(xs: seq<E>, f: E -> Result<Option<P>, Err>): Result<seq<P>, Err> {
    if xs == [] then Success([])
    else match Collect(xs[..|xs| - 1], f)
      case Failure(err) => Failure(err)
      case Success(ps) => Add(ps, f(xs[|xs| - 1]))
  }

  lemma CollectStep<E, P, Err>(seen: seq<E>, x: E, f: E -> Result<Option<P>, Err>)
    requires Collect(seen, f).Success?
    ensures Collect(seen + [x], f) == Add(Collect(seen, f).value, f(x))
  {
    DropLastAppend(seen, [x]);
  }

  /** Once a prefix fails, every extension of it fails the same way. */
  lemma {:induction false} CollectFailurePrefix<E, P, Err>(prefix: seq<E>, rest: seq<E>, f: E -> Result<Option<P>, Err>)
    requires Collect(prefix, f).Failure?
    ensures Collect(prefix + rest, f) == Collect(prefix, f)
    decreases |rest|
  {
    if rest == [] {
      assert prefix + rest == prefix;
    } else {
      CollectFailurePrefix(prefix, rest[..|rest| - 1], f);
      DropLastAppend(prefix, rest);
    }
  }

  /** On success, an element is kept exactly when some step produced it. */
  lemma {:induction false} CollectMembers<E, P, Err>(xs: seq<E>, f: E -> Result<Option<P>, Err>, ps: seq<P>, p: P)
    requires Collect(xs, f) == Success(ps)
    ensures p in ps <==> exists k :: 0 <= k < |xs| && f(xs[k]) == Success(Some(p))
    decreases |xs|
  {
    if xs != [] {
      var init, last := xs[..|xs| - 1], xs[|xs| - 1];
      var before := Collect(init, f).value;
      CollectMembers(init, f, before, p);
      assert ps == before + (if f(last).value.Some? then [f(last).value.value] else []);
      if exists k :: 0 <= k < |xs| && f(xs[k]) == Success(Some(p)) {
        var k :| 0 <= k < |xs| && f(xs[k]) == Success(Some(p));
        if k < |init| {
          assert init[k] == xs[k];
        }
      }
      if p in before {
        var k :| 0 <= k < |init| && f(init[k]) == Success(Some(p));
        assert xs[k] == init[k];
      }
    }
  }

  /** The run fails exactly when one of its steps fails. */
  lemma {:induction false} CollectFails<E, P, Err>(xs: seq<E>, f: E -> Result<Option<P>, Err>)
    ensures Collect(xs, f).Failure? <==> exists k :: 0 <= k < |xs| && f(xs[k]).Failure?
    decreases |xs|
  {
    if xs != [] {
      var init, last := xs[..|xs| - 1], xs[|xs| - 1];
      CollectFails(init, f);
      if Collect(init, f).Failure? {
        var k :| 0 <= k < |init| && f(init[k]).Failure?;
        assert xs[k] == init[k];
      }
      if exists k :: 0 <= k < |xs| && f(xs[k]).Failure? {
        var k :| 0 <= k < |xs| && f(xs[k]).Failure?;
        if k < |init| {
          assert init[k] == xs[k];
        }
      }
    }
  }

  /** The lists `f` gives for each element of `xs`, one after another. */
  function FlatMap<A, B>(xs: seq<A>, f: A -> seq<B>): seq<B> {
    if xs == [] then [] else FlatMap(xs[..|xs| - 1], f) + f(xs[|xs| - 1])
  }

  lemma FlatMapStep<A, B>(xs: seq<A>, i: nat, f: A -> seq<B>)
    requires i < |xs|
    ensures FlatMap(xs[..i + 1], f) == FlatMap(xs[..i], f) + f(xs[i])
  {
    assert xs[..i + 1][..i] == xs[..i];
  }

  /** What the first `n` elements give is a prefix of what all of them give. */
  lemma {:induction false} FlatMapPrefix<A, B>(xs: seq<A>, n: nat, f: A -> seq<B>)
    requires n <= |xs|
    ensures |FlatMap(xs[..n], f)| <= |FlatMap(xs, f)|
    ensures FlatMap(xs, f)[..|FlatMap(xs[..n], f)|] == FlatMap(xs[..n], f)
    decreases |xs| - n
  {
    if n < |xs| {
      FlatMapPrefix(xs, n + 1, f);
      FlatMapStep(xs, n, f);
    } else {
      assert xs[..n] == xs;
    }
  }

  /**
   * A run that fails part-way through what element `i` gives fails the same way over
   * everything: the steps after the failure are never taken.
   */
  lemma CollectFailureWithin<A, E, P, Err>(xs: seq<A>, i: nat, head: seq<E>, f: A -> seq<E>,
                                            g: E -> Result<Option<P>, Err>)
    requires i < |xs| && |head| <= |f(xs[i])| && f(xs[i])[..|head|] == head
    requires Collect(FlatMap(xs[..i], f) + head, g).Failure?
    ensures Collect(FlatMap(xs, f), g) == Collect(FlatMap(xs[..i], f) + head, g)
  {
    var seen := FlatMap(xs[..i], f) + head;
    var upto := FlatMap(xs[..i + 1], f);
    var all := FlatMap(xs, f);
    FlatMapStep(xs, i, f);
    FlatMapPrefix(xs, i + 1, f);
    PrefixAppend(FlatMap(xs[..i], f), f(xs[i]), head);
    PrefixTrans(seen, upto, all);
    CollectFailurePrefix(seen, all[|seen|..], g);
  }

  /** A prefix of `q` after `p` is a prefix of `p + q`. */
  lemma PrefixAppend<T>(p: seq<T>, q: seq<T>, head: seq<T>)
    requires |head| <= |q| && q[..|head|] == head
    ensures |p + head| <= |p + q| && (p + q)[..|p + head|] == p + head
  {
  }

  /** A prefix of a prefix is a prefix, and the whole is that prefix and what follows it. */
  lemma PrefixTrans<T>(a: seq<T>, b: seq<T>, c: seq<T>)
    requires |a| <= |b| <= |c| && c[..|b|] == b && b[..|a|] == a
    ensures c[..|a|] == a && c == a + c[|a|..]
  {
    assert c[..|a|] == c[..|b|][..|a|];
  }
}
