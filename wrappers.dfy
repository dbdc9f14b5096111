/** Optional values, as JavaScript's `undefined` / `null` are used by the scheduler, and
    general facts about sequences. */
module Wrappers {

  datatype Option<+T> = None | Some(value: T)

  // ---------------------------------------------------------------------------
  // Sequence facts.
  // ---------------------------------------------------------------------------

  lemma Associative<T>(a: seq<T>, b: seq<T>, c: seq<T>)
    ensures a + b + c == a + (b + c)
  {
  }

  /** Taking a whole sequence gives it back. */
  lemma TakeAll<T>(s: seq<T>)
    ensures s[..|s|] == s
  {
  }

  /** A sequence that grew twice, seen from the first of its three values. */
  lemma SliceJoin<T>(x: seq<T>, y: seq<T>, z: seq<T>)
    requires |x| <= |y| <= |z| && y[..|x|] == x && z[..|y|] == y
    ensures z[..|x|] == x
    ensures z[|x|..] == y[|x|..] + z[|y|..]
  {
  }

  /** A sequence one longer than `a` that starts with `a` is `a` plus its last element. */
  lemma Snoc<T>(b: seq<T>, a: seq<T>, x: T)
    requires |b| == |a| + 1 && b[..|a|] == a && b[|a|] == x
    ensures b == a + [x]
  {
  }
}
