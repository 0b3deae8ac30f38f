/** A loop that skips some elements and appends the image of the others, as a function. */
module Sieve {

  function SieveMap<T, U>(xs: seq<T>, drop: T -> bool, f: T -> U): seq<U> {
    if xs == [] then []
    else
      var last := xs[|xs| - 1];
      SieveMap(xs[..|xs| - 1], drop, f) + if drop(last) then [] else [f(last)]
  }

  lemma {:induction false} Members<T, U>(xs: seq<T>, drop: T -> bool, f: T -> U, y: U)
    ensures y in SieveMap(xs, drop, f) <==> exists x | x in xs :: !drop(x) && y == f(x)
  {
    if xs != [] {
      var init := xs[..|xs| - 1];
      Members(init, drop, f, y);
      assert xs == init + [xs[|xs| - 1]];
    }
  }

  lemma {:induction false} Idempotent<T>(xs: seq<T>, drop: T -> bool, f: T -> T)
    requires forall x | x in xs :: drop(f(x)) == drop(x) && f(f(x)) == f(x)
    ensures SieveMap(SieveMap(xs, drop, f), drop, f) == SieveMap(xs, drop, f)
  {
    if xs != [] {
      var init, last := xs[..|xs| - 1], xs[|xs| - 1];
      Idempotent(init, drop, f);
      var kept := SieveMap(init, drop, f);
      assert last in xs;
      if drop(last) {
        assert SieveMap(xs, drop, f) == kept + [] == kept;
      } else {
        assert SieveMap(xs, drop, f) == kept + [f(last)];
        assert (kept + [f(last)])[..|kept + [f(last)]| - 1] == kept;
      }
    }
  }

  ghost predicate Increasing(at: seq<nat>) {
    forall i, j | 0 <= i < j < |at| :: at[i] < at[j]
  }

  /** Entry k of ys is the image of entry at[k] of xs, and the entries of xs not listed are the dropped
      ones. */
  ghost predicate PlacesOf<T, U>(at: seq<nat>, xs: seq<T>, ys: seq<U>, drop: T -> bool, f: T -> U) {
    && |at| == |ys| && Increasing(at)
    && (forall k | 0 <= k < |at| :: at[k] < |xs| && !drop(xs[at[k]]) && ys[k] == f(xs[at[k]]))
    && (forall i | 0 <= i < |xs| && !drop(xs[i]) :: i in at)
  }

  lemma PlacesAfterDrop<T, U>(at: seq<nat>, xs: seq<T>, ys: seq<U>, x: T, drop: T -> bool, f: T -> U)
    requires PlacesOf(at, xs, ys, drop, f) && drop(x)
    ensures PlacesOf(at, xs + [x], ys, drop, f)
  {
  }

  lemma PlacesAfterKeep<T, U>(at: seq<nat>, xs: seq<T>, ys: seq<U>, x: T, drop: T -> bool, f: T -> U)
    requires PlacesOf(at, xs, ys, drop, f) && !drop(x)
    ensures PlacesOf(at + [|xs|], xs + [x], ys + [f(x)], drop, f)
  {
    var at' := at + [|xs|];
    assert at'[|at|] == |xs|;
    forall i | 0 <= i < |xs| && !drop(xs[i])
      ensures i in at'
    {
      assert i in at;
    }
  }

  /** Order is kept. */
  lemma {:induction false} Positions<T, U>(xs: seq<T>, drop: T -> bool, f: T -> U) returns (at: seq<nat>)
    ensures PlacesOf(at, xs, SieveMap(xs, drop, f), drop, f)
  {
    at := [];
    if xs != [] {
      var init, last := xs[..|xs| - 1], xs[|xs| - 1];
      assert xs == init + [last];
      at := Positions(init, drop, f);
      var kept := SieveMap(init, drop, f);
      if drop(last) {
        PlacesAfterDrop(at, init, kept, last, drop, f);
        assert SieveMap(xs, drop, f) == kept + [] == kept;
      } else {
        PlacesAfterKeep(at, init, kept, last, drop, f);
        at := at + [|init|];
      }
    }
  }

  /** The places listed are exactly those of the entries kept. */
  lemma PlacesAreKept<T, U>(at: seq<nat>, xs: seq<T>, ys: seq<U>, drop: T -> bool, f: T -> U)
    requires PlacesOf(at, xs, ys, drop, f)
    ensures forall i | 0 <= i < |xs| :: i in at <==> !drop(xs[i])
  {
  }
}
