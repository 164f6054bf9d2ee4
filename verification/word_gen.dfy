/** Random word generation with the randomness made explicit.

    A random source is a stream `rng: nat -> nat` of raw draws: draw 0 picks
    the word length, draw `i + 1` picks the `i`-th character. Only the range of
    each draw matters here, never its distribution. */
module WordGen {

  /** Words have between 1 and this many characters. */
  const MaxWordLength: nat := 5

  /** A uniform integer in `[0, n)`, as `rand.Intn(n)` or
      `Math.floor(Math.random() * n)` gives it, from the raw draw `draw`. */
  function Intn(n: nat, draw: nat): (r: nat)
    requires n > 0
    ensures r < n
    ensures draw < n ==> r == draw
  {
    draw % n
  }

  /** `w` is a word the generator may produce from `pool`: a length within
      bounds and every character taken from the pool. */
  predicate IsWordOver<K(==)>(pool: seq<K>, w: seq<K>) {
    1 <= |w| <= MaxWordLength && forall i :: 0 <= i < |w| ==> w[i] in pool
  }

  /** A fresh quiz word: a length in `[1, 5]`, then that many characters drawn
      from `pool` independently and with replacement. */
  function NewWord<K(==)>(pool: seq<K>, rng: nat -> nat): (w: seq<K>)
    requires |pool| > 0
    ensures IsWordOver(pool, w)
    ensures |w| == Intn(MaxWordLength, rng(0)) + 1
  {
    var n := Intn(MaxWordLength, rng(0)) + 1;
    var w := seq(n, i requires 0 <= i < n => pool[Intn(|pool|, rng(i + 1))]);
    assert forall i :: 0 <= i < n ==> w[i] == pool[Intn(|pool|, rng(i + 1))] && w[i] in pool;
    w
  }

  /** The position of the first occurrence of `x` in `pool`. */
  function IndexOf<K(==)>(pool: seq<K>, x: K): (i: nat)
    requires x in pool
    ensures i < |pool| && pool[i] == x
  {
    if pool[0] == x then 0 else 1 + IndexOf(pool[1..], x)
  }

  /** Conversely, every word within bounds over the pool is produced by some
      random source, so `IsWordOver` describes exactly the possible outputs. */
  lemma NewWordReachesEveryWord<K>(pool: seq<K>, w: seq<K>)
    requires IsWordOver(pool, w)
    ensures |pool| > 0 && exists rng :: NewWord(pool, rng) == w
  {
    assert w[0] in pool;
    var rng := (k: nat) => if k == 0 then |w| - 1 else if k - 1 < |w| then IndexOf(pool, w[k - 1]) else 0;
    var v := NewWord(pool, rng);
    assert |v| == |w|;
    forall i | 0 <= i < |w|
      ensures v[i] == w[i]
    {
      assert rng(i + 1) == IndexOf(pool, w[i]);
      assert v[i] == pool[Intn(|pool|, rng(i + 1))];
    }
    assert v == w;
  }
}
