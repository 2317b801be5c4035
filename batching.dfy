/**
 * Cutting a list into consecutive slices of a fixed size, the way the loaders walk
 * `range(0, len(xs), size)` and take `xs[i:i + size]` at each step.
 */
module Batching {
  import opened Wrappers

  function Min(a: int, b: int): int {
    if a <= b then a else b
  }

  /** `[xs[i:i + size] for i in range(start, len(xs), size)]` */
  function BatchesFrom<T>(xs: seq<T>, size: nat, start: nat): (r: seq<seq<T>>)
    requires size > 0
    ensures forall k :: 0 <= k < |r| ==> 0 < |r[k]| <= size
    decreases |xs| - start
  {
    if start >= |xs| then []
    else
      [xs[start..Min(start + size, |xs|)]] + BatchesFrom(xs, size, start + size)
  }

  /** Dropping the last element of a concatenation with a non-empty right side. */
  lemma DropLastAppend<T>(a: seq<T>, b: seq<T>)
    requires b != []
    ensures (a + b)[..|a + b| - 1] == a + b[..|b| - 1]
    ensures (a + b)[|a + b| - 1] == b[|b| - 1]
  {
  }

  /** The first batch from `start` on, and the batches after it. */
  lemma BatchesStep<T>(xs: seq<T>, size: nat, start: nat)
    requires size > 0 && start < |xs|
    ensures BatchesFrom(xs, size, start) ==
            [xs[start..Min(start + size, |xs|)]] + BatchesFrom(xs, size, start + size)
  {
  }

  /** Where `x` follows `done` in `all`, it sits at index `|done|` after exactly `done`. */
  lemma PrefixStep<T>(all: seq<T>, done: seq<T>, x: T, rest: seq<T>)
    requires all == done + ([x] + rest)
    ensures |done| < |all| && all[|done|] == x && all[..|done|] == done
    ensures (done + [x]) + rest == all
  {
    assert all[..|done|] == done;
  }

  lemma AppendAssoc<T>(a: seq<T>, b: seq<T>, c: seq<T>)
    ensures (a + b) + c == a + (b + c)
  {
  }

  /** `ok` accepts every element. */
  predicate AllOk<T>(xs: seq<T>, ok: T -> bool) {
    forall k :: 0 <= k < |xs| ==> ok(xs[k])
  }

  /** Extending a list that `ok` accepts throughout with an accepted element. */
  lemma AllOkAppend<T>(done: seq<T>, x: T, ok: T -> bool)
    requires AllOk(done, ok) && ok(x)
    ensures AllOk(done + [x], ok)
  {
  }

  /** The concatenation of a list of lists. */
  function Flatten<T>(bs: seq<seq<T>>): seq<T> {
    if bs == [] then [] else bs[0] + Flatten(bs[1..])
  }

  lemma {:induction false} FlattenAppend<T>(a: seq<seq<T>>, b: seq<seq<T>>)
    ensures Flatten(a + b) == Flatten(a) + Flatten(b)
    decreases |a|
  {
    if a != [] {
      assert (a + b)[1..] == a[1..] + b;
      FlattenAppend(a[1..], b);
    } else {
      assert a + b == b;
    }
  }

  /** The batches cover the list from `start` on exactly once, in order. */
  lemma {:induction false} BatchesCover<T>(xs: seq<T>, size: nat, start: nat)
    requires size > 0 && start <= |xs|
    ensures Flatten(BatchesFrom(xs, size, start)) == xs[start..]
    decreases |xs| - start
  {
    if start < |xs| {
      var end := Min(start + size, |xs|);
      var rest := BatchesFrom(xs, size, start + size);
      assert BatchesFrom(xs, size, start)[1..] == rest;
      if start + size <= |xs| {
        BatchesCover(xs, size, start + size);
      } else {
        assert rest == [];
      }
      assert xs[start..] == xs[start..end] + xs[end..];
    }
  }

  /** Every batch but the last is full. */
  lemma {:induction false} BatchesFull<T>(xs: seq<T>, size: nat, start: nat)
    requires size > 0
    ensures forall k :: 0 <= k < |BatchesFrom(xs, size, start)| - 1 ==>
              |BatchesFrom(xs, size, start)[k]| == size
    decreases |xs| - start
  {
    if start < |xs| {
      var r := BatchesFrom(xs, size, start);
      var rest := BatchesFrom(xs, size, start + size);
      BatchesFull(xs, size, start + size);
      assert r == [xs[start..Min(start + size, |xs|)]] + rest;
      forall k | 0 <= k < |r| - 1
        ensures |r[k]| == size
      {
        if k == 0 {
          assert rest != [];
          assert start + size < |xs|;
          assert r[0] == xs[start..start + size];
        } else {
          assert r[k] == rest[k - 1];
        }
      }
    }
  }

  /** The batches of the whole list concatenate back to it, and only the last may be short. */
  lemma Partition<T>(xs: seq<T>, size: nat)
    requires size > 0
    ensures Flatten(BatchesFrom(xs, size, 0)) == xs
    ensures var r := BatchesFrom(xs, size, 0);
            forall k :: 0 <= k < |r| - 1 ==> |r[k]| == size
  {
    BatchesCover(xs, size, 0);
    BatchesFull(xs, size, 0);
  }

  /** The index of the first element `ok` rejects. */
  function FirstRejected<T>(xs: seq<T>, ok: T -> bool): (r: Option<nat>)
    ensures r.Some? ==> r.value < |xs| && !ok(xs[r.value])
    ensures r.Some? ==> forall k :: 0 <= k < r.value ==> ok(xs[k])
    ensures r.None? ==> forall k :: 0 <= k < |xs| ==> ok(xs[k])
  {
    if xs == [] then None
    else if !ok(xs[0]) then Some(0)
    else match FirstRejected(xs[1..], ok)
      case None => None
      case Some(i) => Some(i + 1)
  }

  /** The first rejection is the rejected element that follows an accepted prefix. */
  lemma FirstRejectedAt<T>(xs: seq<T>, ok: T -> bool, j: nat)
    requires j < |xs| && !ok(xs[j]) && AllOk(xs[..j], ok)
    ensures FirstRejected(xs, ok) == Some(j)
  {
    assert forall k :: 0 <= k < j ==> xs[k] == xs[..j][k];
  }

  lemma FirstRejectedNone<T>(xs: seq<T>, ok: T -> bool)
    requires AllOk(xs, ok)
    ensures FirstRejected(xs, ok) == None
  {
  }

  /** The elements `ok` accepts, in their order: the batches that a tolerant upload stores. */
  function Kept<T>(xs: seq<T>, ok: T -> bool): (r: seq<T>)
    ensures |r| <= |xs|
  {
    if xs == [] then []
    else Kept(xs[..|xs| - 1], ok) + (if ok(xs[|xs| - 1]) then [xs[|xs| - 1]] else [])
  }

  /** One more element after `prev` and what was kept of `done`: kept when accepted. */
  lemma KeptStep<T>(prev: seq<T>, done: seq<T>, x: T, ok: T -> bool, accepted: bool)
    requires accepted == ok(x)
    ensures accepted ==> prev + Kept(done + [x], ok) == prev + Kept(done, ok) + [x]
    ensures !accepted ==> prev + Kept(done + [x], ok) == prev + Kept(done, ok)
  {
    DropLastAppend(done, [x]);
  }

  /** What is kept is exactly what is accepted, and nothing accepted is dropped. */
  lemma {:induction false} KeptMembers<T>(xs: seq<T>, ok: T -> bool, x: T)
    ensures x in Kept(xs, ok) <==> x in xs && ok(x)
    decreases |xs|
  {
    if xs != [] {
      var init := xs[..|xs| - 1];
      KeptMembers(init, ok, x);
      assert xs == init + [xs[|xs| - 1]];
    }
  }

  /** Every batch is kept when every batch is accepted. */
  lemma {:induction false} KeptAll<T>(xs: seq<T>, ok: T -> bool)
    requires forall k :: 0 <= k < |xs| ==> ok(xs[k])
    ensures Kept(xs, ok) == xs
    decreases |xs|
  {
    if xs != [] {
      KeptAll(xs[..|xs| - 1], ok);
    }
  }

  /** The list holding the value of an `Option`, or nothing. */
  function Present<B>(o: Option<B>): (r: seq<B>)
    ensures |r| <= 1
  {
    if o.Some? then [o.value] else []
  }

  /**
   * What `f` gives for each element of a batch, all at the batch's offset, the elements it
   * gives nothing for being skipped.
   */
  function Tried<A, B>(batch: seq<A>, offset: nat, f: (A, nat) -> Option<B>): (r: seq<B>)
    ensures |r| <= |batch|
  {
    if batch == [] then []
    else Tried(batch[..|batch| - 1], offset, f) + Present(f(batch[|batch| - 1], offset))
  }

  /** The results of the batches starting at `start`, `start + size`, ..., each at its own start. */
  function TriedFrom<A, B>(xs: seq<A>, size: nat, start: nat, f: (A, nat) -> Option<B>): seq<B>
    requires size > 0
    decreases |xs| - start
  {
    if start >= |xs| then []
    else Tried(xs[start..Min(start + size, |xs|)], start, f) + TriedFrom(xs, size, start + size, f)
  }

  lemma TriedStep<A, B>(batch: seq<A>, j: nat, offset: nat, f: (A, nat) -> Option<B>)
    requires j < |batch|
    ensures Tried(batch[..j + 1], offset, f) == Tried(batch[..j], offset, f) + Present(f(batch[j], offset))
  {
    assert batch[..j + 1][..j] == batch[..j];
  }

  lemma TriedFromStep<A, B>(xs: seq<A>, size: nat, start: nat, f: (A, nat) -> Option<B>)
    requires size > 0 && start < |xs|
    ensures TriedFrom(xs, size, start, f) ==
            Tried(xs[start..Min(start + size, |xs|)], start, f) + TriedFrom(xs, size, start + size, f)
  {
  }

  /** `i` is one of the batch starts `0, size, 2 * size, ...`. */
  predicate BatchStart(i: nat, size: nat)
    requires size > 0
    decreases i
  {
    i == 0 || (i >= size && BatchStart(i - size, size))
  }

  /** Every result of a batch is what `f` gave for one of its elements, at the batch's offset. */
  lemma {:induction false} TriedMembers<A, B>(batch: seq<A>, offset: nat, f: (A, nat) -> Option<B>, y: B)
    requires y in Tried(batch, offset, f)
    ensures exists k :: 0 <= k < |batch| && f(batch[k], offset) == Some(y)
    decreases |batch|
  {
    var init := batch[..|batch| - 1];
    if y in Tried(init, offset, f) {
      TriedMembers(init, offset, f, y);
      var k :| 0 <= k < |init| && f(init[k], offset) == Some(y);
      assert batch[k] == init[k];
    } else {
      assert f(batch[|init|], offset) == Some(y);
    }
  }

  /**
   * Every result is what `f` gave for one element `xs[k]`, at the start `i` of the batch that
   * holds it: a batch start with `i <= k < i + size`.
   */
  lemma {:induction false} TriedFromMembers<A, B>(xs: seq<A>, size: nat, start: nat, f: (A, nat) -> Option<B>, y: B)
    requires size > 0 && BatchStart(start, size)
    requires y in TriedFrom(xs, size, start, f)
    ensures exists k, i :: start <= i <= k < |xs| && k < i + size && BatchStart(i, size) &&
                           f(xs[k], i) == Some(y)
    decreases |xs| - start
  {
    var batch := xs[start..Min(start + size, |xs|)];
    if y in Tried(batch, start, f) {
      TriedMembers(batch, start, f, y);
      var k :| 0 <= k < |batch| && f(batch[k], start) == Some(y);
      assert batch[k] == xs[start + k];
    } else {
      assert BatchStart(start + size, size);
      TriedFromMembers(xs, size, start + size, f, y);
    }
  }

  /** `f` gives nothing for any element, whatever the offset. */
  ghost predicate NeverGives<A, B>(xs: seq<A>, f: (A, nat) -> Option<B>) {
    forall k, offset: nat :: 0 <= k < |xs| ==> f(xs[k], offset).None?
  }

  lemma {:induction false} TriedNone<A, B>(batch: seq<A>, offset: nat, f: (A, nat) -> Option<B>)
    requires NeverGives(batch, f)
    ensures Tried(batch, offset, f) == []
    decreases |batch|
  {
    if batch != [] {
      var init := batch[..|batch| - 1];
      assert NeverGives(init, f) by {
        forall k, o: nat | 0 <= k < |init| ensures f(init[k], o).None? {
          assert init[k] == batch[k];
        }
      }
      TriedNone(init, offset, f);
      assert f(batch[|batch| - 1], offset).None?;
    }
  }

  /** Where `f` never gives anything, no batch gives anything. */
  lemma {:induction false} TriedFromNone<A, B>(xs: seq<A>, size: nat, start: nat, f: (A, nat) -> Option<B>)
    requires size > 0 && NeverGives(xs, f)
    ensures TriedFrom(xs, size, start, f) == []
    decreases |xs| - start
  {
    if start < |xs| {
      var batch := xs[start..Min(start + size, |xs|)];
      assert NeverGives(batch, f) by {
        forall k, o: nat | 0 <= k < |batch| ensures f(batch[k], o).None? {
          assert batch[k] == xs[start + k];
        }
      }
      TriedNone(batch, start, f);
      TriedFromNone(xs, size, start + size, f);
    }
  }

  /** The three parts of a concatenation sit where their lengths put them. */
  lemma ConcatParts<T>(a: seq<T>, b: seq<T>, c: seq<T>)
    ensures |a + b + c| == |a| + |b| + |c|
    ensures (a + b + c)[..|a|] == a && (a + b + c)[|a|..|a| + |b|] == b
  {
    assert (a + b + c)[..|a|] == a;
    assert (a + b + c)[|a|..|a| + |b|] == b;
  }
}
