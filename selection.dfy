/** The two selection mechanisms of the reply generator: first-match-wins over an
    ordered list (the if/elif chains) and random.choice over a literal list, with
    the random source injected. */
module Selection {

  /** The index of the first element of xs that fires, or |xs| when none does:
      what an if/elif chain over xs evaluates to. */
  function FirstMatch<T>(xs: seq<T>, fires: T -> bool): (k: nat)
    ensures k <= |xs|
    ensures k < |xs| ==> fires(xs[k])
    ensures forall j :: 0 <= j < k ==> !fires(xs[j])
  {
    if |xs| == 0 || fires(xs[0]) then 0 else 1 + FirstMatch(xs[1..], fires)
  }

  /** The random source behind random.choice: asked for a number below n, it
      answers one (random._randbelow). */
  type RandBelow = nat -> nat

  ghost predicate ValidSource(randBelow: RandBelow)
  {
    forall n: nat :: 0 < n ==> randBelow(n) < n
  }

  /** random.choice(pool): the element at the index the source draws. */
  function Choose<T>(pool: seq<T>, randBelow: RandBelow): (r: T)
    requires 0 < |pool| && ValidSource(randBelow)
    ensures r in pool
  {
    pool[randBelow(|pool|)]
  }

  /** A deterministic source that draws index i from every pool longer than i. */
  function FixedIndex(i: nat): (randBelow: RandBelow)
    ensures ValidSource(randBelow)
  {
    n => if i < n then i else 0
  }

  /** Injecting index i selects exactly the i-th entry of the pool. */
  lemma ChooseFixedIndex<T>(pool: seq<T>, i: nat)
    requires i < |pool|
    ensures Choose(pool, FixedIndex(i)) == pool[i]
  {
  }

  /** Every entry of a pool is a possible reply: the replies random.choice can
      give are exactly the entries of the pool. */
  lemma ChooseReachesEveryEntry<T>(pool: seq<T>, x: T)
    requires x in pool
    ensures exists randBelow :: ValidSource(randBelow) && Choose(pool, randBelow) == x
  {
    var i :| 0 <= i < |pool| && pool[i] == x;
    ChooseFixedIndex(pool, i);
    assert ValidSource(FixedIndex(i)) && Choose(pool, FixedIndex(i)) == x;
  }
}
