/** Iterating a function and folding over a sequence, for any type of state. */
module Folds {

  function Iter<T>(f: T -> T, x: T, n: nat): T {
    if n == 0 then x else f(Iter(f, x, n - 1))
  }

  function Fold<S, A>(f: (S, A) -> S, s: S, xs: seq<A>): S {
    if xs == [] then s else f(Fold(f, s, xs[..|xs| - 1]), xs[|xs| - 1])
  }

  /** The function distributes over the operation. */
  ghost predicate Linear<T(!new)>(f: T -> T, plus: (T, T) -> T) {
    forall x, y :: f(plus(x, y)) == plus(f(x), f(y))
  }

  ghost predicate StepLinear<S(!new), A(!new)>(f: (S, A) -> S, plus: (S, S) -> S, mix: (A, A) -> A) {
    forall s, t, a, b :: f(plus(s, t), mix(a, b)) == plus(f(s, a), f(t, b))
  }

  function Zip<A>(mix: (A, A) -> A, xs: seq<A>, ys: seq<A>): (zs: seq<A>)
    requires |xs| == |ys|
    ensures |zs| == |xs| && forall i :: 0 <= i < |zs| ==> zs[i] == mix(xs[i], ys[i])
  {
    seq(|xs|, i requires 0 <= i < |xs| && |xs| == |ys| => mix(xs[i], ys[i]))
  }

  lemma {:induction false} IterLinear<T(!new)>(f: T -> T, plus: (T, T) -> T, x: T, y: T, n: nat)
    requires Linear(f, plus)
    ensures Iter(f, plus(x, y), n) == plus(Iter(f, x, n), Iter(f, y, n))
  {
    if n > 0 {
      IterLinear(f, plus, x, y, n - 1);
    }
  }

  lemma IterOfSum<T(!new)>(f: T -> T, plus: (T, T) -> T, sum: T, x: T, y: T, fy: T, n: nat)
    requires Linear(f, plus) && sum == plus(x, y) && Iter(f, y, n) == fy
    ensures Iter(f, sum, n) == plus(Iter(f, x, n), fy)
  {
    IterLinear(f, plus, x, y, n);
  }

  lemma {:induction false} IterFirst<T>(f: T -> T, x: T, n: nat)
    ensures Iter(f, x, n + 1) == Iter(f, f(x), n)
  {
    if n > 0 {
      IterFirst(f, x, n - 1);
    }
  }

  /** If f maps nothing but zero to zero, neither does any number of steps. */
  lemma {:induction false} IterKernel<T(!new)>(f: T -> T, zero: T, x: T, n: nat)
    requires forall y :: f(y) == zero <==> y == zero
    ensures Iter(f, x, n) == zero <==> x == zero
  {
    if n > 0 {
      IterKernel(f, zero, x, n - 1);
    }
  }

  lemma {:induction false} IterAdd<T>(f: T -> T, x: T, m: nat, n: nat)
    ensures Iter(f, x, m + n) == Iter(f, Iter(f, x, m), n)
  {
    if n > 0 {
      IterAdd(f, x, m, n - 1);
    }
  }

  lemma Iter8<T>(f: T -> T, x: T)
    ensures Iter(f, x, 7) == f(f(f(f(f(f(f(x)))))))
    ensures Iter(f, x, 8) == f(f(f(f(f(f(f(f(x))))))))
  {
    assert Iter(f, x, 1) == f(x);
    assert Iter(f, x, 2) == f(Iter(f, x, 1));
    assert Iter(f, x, 3) == f(Iter(f, x, 2));
    assert Iter(f, x, 4) == f(Iter(f, x, 3));
    assert Iter(f, x, 5) == f(Iter(f, x, 4));
    assert Iter(f, x, 6) == f(Iter(f, x, 5));
    assert Iter(f, x, 7) == f(Iter(f, x, 6));
  }

  lemma {:induction false} FoldAppend<S, A>(f: (S, A) -> S, s: S, xs: seq<A>, ys: seq<A>)
    ensures Fold(f, s, xs + ys) == Fold(f, Fold(f, s, xs), ys)
    decreases |ys|
  {
    if ys == [] {
      assert xs + ys == xs;
    } else {
      var n := |ys| - 1;
      assert (xs + ys)[..|xs + ys| - 1] == xs + ys[..n];
      FoldAppend(f, s, xs, ys[..n]);
    }
  }

  lemma FoldFirst<S, A>(f: (S, A) -> S, s: S, x: A, xs: seq<A>)
    ensures Fold(f, s, [x] + xs) == Fold(f, f(s, x), xs)
  {
    FoldAppend(f, s, [x], xs);
    assert [x][..0] == [];
    assert Fold(f, s, [x]) == f(s, x);
  }

  lemma {:induction false} FoldLinear<S(!new), A(!new)>(f: (S, A) -> S, plus: (S, S) -> S, mix: (A, A) -> A, s: S, t: S, xs: seq<A>, ys: seq<A>)
    requires |xs| == |ys| && StepLinear(f, plus, mix)
    ensures Fold(f, plus(s, t), Zip(mix, xs, ys)) == plus(Fold(f, s, xs), Fold(f, t, ys))
    decreases |xs|
  {
    if xs != [] {
      var n := |xs| - 1;
      FoldLinear(f, plus, mix, s, t, xs[..n], ys[..n]);
      assert Zip(mix, xs, ys)[..n] == Zip(mix, xs[..n], ys[..n]);
    }
  }

  /** Folding over elements that act like g is iterating g. */
  lemma {:induction false} FoldIter<S(!new), A>(f: (S, A) -> S, g: S -> S, s: S, xs: seq<A>)
    requires forall t, x :: x in xs ==> f(t, x) == g(t)
    ensures Fold(f, s, xs) == Iter(g, s, |xs|)
    decreases |xs|
  {
    if xs != [] {
      FoldIter(f, g, s, xs[..|xs| - 1]);
    }
  }

  function FoldRight<S, A>(f: (A, S) -> S, xs: seq<A>, s: S): S {
    if xs == [] then s else f(xs[0], FoldRight(f, xs[1..], s))
  }

  /** A relation that one step on both sides keeps. */
  lemma {:induction false} FoldRightRelated<S(!new), A(!new)>(f: (A, S) -> S, g: S -> S, rel: (S, S) -> bool, xs: seq<A>, s: S, t: S)
    requires rel(s, t) && forall x, u, v :: rel(u, v) ==> rel(f(x, u), g(v))
    ensures rel(FoldRight(f, xs, s), Iter(g, t, |xs|))
  {
    if xs != [] {
      FoldRightRelated(f, g, rel, xs[1..], s, t);
    }
  }

  /** If the first step goes up and steps keep the order, later states are above earlier ones. */
  lemma {:induction false} IterGrows<S(!new)>(g: S -> S, rel: (S, S) -> bool, s: S, j: nat, k: nat)
    requires rel(s, g(s)) && (forall u, v :: rel(u, v) ==> rel(g(u), g(v)))
    requires (forall u :: rel(u, u)) && (forall u, v, w :: rel(u, v) && rel(v, w) ==> rel(u, w))
    requires j <= k
    ensures rel(Iter(g, s, j), Iter(g, s, k))
    decreases k
  {
    if j < k {
      IterGrows(g, rel, s, j, k - 1);
      StepUp(g, rel, s, k - 1);
    }
  }

  lemma {:induction false} StepUp<S(!new)>(g: S -> S, rel: (S, S) -> bool, s: S, k: nat)
    requires rel(s, g(s)) && (forall u, v :: rel(u, v) ==> rel(g(u), g(v)))
    ensures rel(Iter(g, s, k), Iter(g, s, k + 1))
  {
    if k > 0 {
      StepUp(g, rel, s, k - 1);
    }
  }

  ghost predicate Group<T(!new)>(plus: (T, T) -> T, zero: T) {
    && (forall x, y, z :: plus(x, plus(y, z)) == plus(plus(x, y), z))
    && (forall x :: plus(x, zero) == x)
  }

  ghost predicate UndoesDouble<T(!new)>(shift: T -> T, double: T -> T, push: (bool, T) -> T, zero: T, limit: nat) {
    forall k: seq<bool> :: |k| < limit ==> shift(double(FoldRight(push, k, zero))) == FoldRight(push, k, zero)
  }

  /** A shift register: feeding a bit adds it and shifts, pushing a bit onto a word doubles the
      word and adds the bit. If shifting undoes doubling on short words, then feeding bits one
      by one is adding their word at once and shifting as many times. */
  lemma {:induction false} FeedIsShift<T(!new)>(shift: T -> T, plus: (T, T) -> T, bit: bool -> T, double: T -> T, zero: T,
      feed: (T, bool) -> T, push: (bool, T) -> T, limit: nat, c: T, m: seq<bool>)
    requires Linear(shift, plus)
    requires Group(plus, zero)
    requires forall x, b :: feed(x, b) == shift(plus(x, bit(b)))
    requires forall b, x :: push(b, x) == plus(bit(b), double(x))
    requires UndoesDouble(shift, double, push, zero, limit)
    requires |m| <= limit
    ensures Fold(feed, c, m) == Iter(shift, plus(c, FoldRight(push, m, zero)), |m|)
    decreases |m|
  {
    if m != [] {
      var w := FoldRight(push, m[1..], zero);
      assert m == [m[0]] + m[1..];
      FoldFirst(feed, c, m[0], m[1..]);
      FeedIsShift(shift, plus, bit, double, zero, feed, push, limit, feed(c, m[0]), m[1..]);
      assert shift(double(w)) == w;
      assert plus(feed(c, m[0]), w) == shift(plus(plus(c, bit(m[0])), double(w)));
      assert plus(c, push(m[0], w)) == plus(plus(c, bit(m[0])), double(w));
      IterFirst(shift, plus(c, FoldRight(push, m, zero)), |m| - 1);
    }
  }

  ghost predicate Medial<T(!new)>(plus: (T, T) -> T) {
    forall s, t, a, b :: plus(plus(s, t), plus(a, b)) == plus(plus(s, a), plus(t, b))
  }

  lemma GroupIsMedial<T(!new)>(plus: (T, T) -> T, zero: T)
    requires Group(plus, zero) && forall x, y :: plus(x, y) == plus(y, x)
    ensures Medial(plus)
  {
    forall s, t, a, b ensures plus(plus(s, t), plus(a, b)) == plus(plus(s, a), plus(t, b)) {
      assert plus(t, plus(a, b)) == plus(plus(t, a), b);
      assert plus(a, plus(t, b)) == plus(plus(a, t), b);
      assert plus(plus(s, t), plus(a, b)) == plus(s, plus(t, plus(a, b)));
      assert plus(plus(s, a), plus(t, b)) == plus(s, plus(a, plus(t, b)));
    }
  }

  /** Adding an input and then applying a linear function is linear in state and input. */
  lemma AddThenShiftLinear<T(!new), A(!new)>(shift: T -> T, plus: (T, T) -> T, word: A -> T, mix: (A, A) -> A, feed: (T, A) -> T)
    requires Linear(shift, plus) && Medial(plus)
    requires forall a, b :: word(mix(a, b)) == plus(word(a), word(b))
    requires forall x, b :: feed(x, b) == shift(plus(x, word(b)))
    ensures StepLinear(feed, plus, mix)
  {
    forall s, t, a, b ensures feed(plus(s, t), mix(a, b)) == plus(feed(s, a), feed(t, b)) {
      assert plus(plus(s, t), plus(word(a), word(b))) == plus(plus(s, word(a)), plus(t, word(b)));
    }
  }
}
