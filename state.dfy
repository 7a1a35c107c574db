/** Leaderboard entries and their ordering (src/state.rs).

    A `User` carries its score wrapped in `Reverse<i32>`, and the `Ord` impl on
    `User` compares the wrapped scores only. The wrapper flips integer order,
    so a Rust max-`BinaryHeap<User>` keeps the LOWEST raw score on top. */
module State {

  import opened Wrappers

  /** Rust's `i32`. */
  newtype i32 = x: int | -0x8000_0000 <= x < 0x8000_0000

  /** Rust's `std::cmp::Ordering`. */
  datatype Ordering = Less | Equal | Greater

  /** `Ord for i32`: plain integer order. */
  function CmpI32(a: i32, b: i32): Ordering {
    if a < b then Less else if a == b then Equal else Greater
  }

  /** `std::cmp::Reverse<i32>`: its `cmp` compares the inner values the other way round. */
  datatype Reverse = Reverse(inner: i32)

  function CmpReverse(a: Reverse, b: Reverse): Ordering {
    CmpI32(b.inner, a.inner)
  }

  /** A leaderboard entry. The derived `Eq` compares all three fields. */
  datatype User = User(name: string, address: string, score: Reverse)

  /** The raw score of an entry, with the `Reverse` wrapper removed. */
  function Raw(u: User): i32 {
    u.score.inner
  }

  /** `impl Ord for User`: the order of the wrapped scores, which is the reverse
      of raw-score order; `name` and `address` play no part. */
  function Cmp(a: User, b: User): (o: Ordering)
    ensures o == Less <==> Raw(a) > Raw(b)
    ensures o == Equal <==> Raw(a) == Raw(b)
    ensures o == Greater <==> Raw(a) < Raw(b)
  {
    CmpReverse(a.score, b.score)
  }

  /** `impl PartialOrd for User`: defined for every pair, and it agrees with `Cmp`. */
  function PartialCmp(a: User, b: User): (r: Option<Ordering>)
    ensures r.Some?
    ensures r.value == Less <==> Raw(a) > Raw(b)
    ensures r.value == Greater <==> Raw(a) < Raw(b)
  {
    Some(Cmp(a, b))
  }

  /** The `>` operator on `User`, i.e. the default `PartialOrd::gt`, which holds
      exactly when `partial_cmp` answers `Some(Greater)`. */
  predicate Gt(a: User, b: User)
  {
    PartialCmp(a, b) == Some(Greater)
  }

  /** The `<` operator on `User`, the default `PartialOrd::lt`. */
  predicate Lt(a: User, b: User)
  {
    PartialCmp(a, b) == Some(Less)
  }

  /** `a > b` on users means `a` has the strictly LOWER raw score. */
  lemma GtIsLowerRawScore(a: User, b: User)
    ensures Gt(a, b) <==> Raw(a) < Raw(b)
  {
  }

  /** `a < b` on users means `a` has the strictly HIGHER raw score. */
  lemma LtIsHigherRawScore(a: User, b: User)
    ensures Lt(a, b) <==> Raw(a) > Raw(b)
  {
  }

  /** The outcome of `Cmp` depends on the scores alone. */
  lemma CmpIgnoresNameAndAddress(a: User, b: User, a': User, b': User)
    requires a.score == a'.score && b.score == b'.score
    ensures Cmp(a, b) == Cmp(a', b')
  {
  }

  /** `Cmp` is a total preorder on users: antisymmetric in its answers,
      transitive, and every pair is comparable. */
  lemma CmpIsTotalPreorder(a: User, b: User, c: User)
    ensures Cmp(a, b) == Less <==> Cmp(b, a) == Greater
    ensures Cmp(a, b) == Equal <==> Cmp(b, a) == Equal
    ensures Cmp(a, a) == Equal
    ensures Cmp(a, b) != Greater && Cmp(b, c) != Greater ==> Cmp(a, c) != Greater
    ensures Cmp(a, b) == Less && Cmp(b, c) == Less ==> Cmp(a, c) == Less
    ensures Cmp(a, b) != Greater || Cmp(b, a) != Greater
  {
  }

  /** Two entries whose scores agree compare `Equal`, yet they are different
      values as soon as their names differ, because `Eq` is derived over every
      field while `Ord` looks at the score only. */
  lemma EqualScoreIsNotEquality(a: User, b: User)
    requires a.score == b.score && a.name != b.name
    ensures Cmp(a, b) == Equal && a != b
  {
  }

  /** `g` is a greatest element of `s` under `Cmp`: one a max-heap of `s` may
      return as its top. */
  predicate IsGreatest(g: User, s: seq<User>)
  {
    g in s && forall i :: 0 <= i < |s| ==> Cmp(s[i], g) != Greater
  }

  /** A max-heap top under `Cmp` is an entry with the minimum raw score, and
      every entry with the minimum raw score is a possible top. */
  lemma GreatestHasMinRawScore(g: User, s: seq<User>)
    ensures IsGreatest(g, s) <==> g in s && forall i :: 0 <= i < |s| ==> Raw(g) <= Raw(s[i])
  {
  }

  /** The lowest-raw-score entry of a non-empty sequence, the first one if
      several share that score. */
  function LowestRaw(s: seq<User>): (g: User)
    requires |s| > 0
    ensures g in s
    ensures forall i :: 0 <= i < |s| ==> Raw(g) <= Raw(s[i])
  {
    if |s| == 1 then s[0]
    else
      var rest := LowestRaw(s[1..]);
      if Raw(s[0]) <= Raw(rest) then s[0] else rest
  }

  /** Every non-empty heap has a top, and it is an entry of minimum raw score. */
  lemma GreatestExists(s: seq<User>)
    requires |s| > 0
    ensures exists g :: IsGreatest(g, s)
  {
    var g := LowestRaw(s);
    GreatestHasMinRawScore(g, s);
    assert IsGreatest(g, s);
  }
}
