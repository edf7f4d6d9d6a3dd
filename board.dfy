/** The scoreboard seen as values: the lock state of each of its 16 entries,
    in the order `Scoreboard.__init__` appends them. The entry at `BonusIndex`
    is the `Bonus`, which has no lock; its slot in the view is ignored. */
module Board {
  import opened Wrappers
  import opened Combinations

  const Size := 16
  const BonusIndex := 6

  /** `locked_score` of every entry, in scoreboard order. */
  type View = seq<Option<int>>

  /** The `score()` of the first six entries (Ettor .. Sexor), which the
      bonus sums. */
  function Upper(view: View): seq<int>
    requires |view| == Size
  {
    [Points(view[0]), Points(view[1]), Points(view[2]),
     Points(view[3]), Points(view[4]), Points(view[5])]
  }

  /** `score()` of entry `i`. */
  function EntryScore(view: View, i: int): (p: int)
    requires |view| == Size && 0 <= i < Size
    ensures i != BonusIndex ==> p == Points(view[i])
    ensures i == BonusIndex ==> (p == 50 <==> SumOf(Upper(view)) >= 63) && (p == 0 <==> SumOf(Upper(view)) < 63)
  {
    if i == BonusIndex then BonusScore(Upper(view)) else Points(view[i])
  }

  /** `score_or_none()` of entry `i`. */
  function EntryScoreOrNone(view: View, i: int): (r: Option<int>)
    requires |view| == Size && 0 <= i < Size
    ensures r.None? <==> i != BonusIndex && view[i].None?
    ensures r.Some? ==> r.value == EntryScore(view, i)
  {
    if i == BonusIndex then BonusScoreOrNone(Upper(view)) else view[i]
  }

  /** The sum of `score()` over the first `n` entries. */
  function ScoreUpTo(view: View, n: int): int
    requires |view| == Size && 0 <= n <= Size
  {
    if n == 0 then 0 else ScoreUpTo(view, n - 1) + EntryScore(view, n - 1)
  }

  /** `Scoreboard.score`: the sum of `score()` over all entries, the bonus
      included. */
  function TotalScore(view: View): (total: int)
    requires |view| == Size
    ensures total == LockedUpTo(view, Size) + BonusScore(Upper(view))
  {
    ScoreUpToSplit(view, Size);
    ScoreUpTo(view, Size)
  }

  /** The positions among the first `n` entries whose `score_or_none()` is None. */
  function UnscoredUpTo(view: View, n: int): (r: seq<int>)
    requires |view| == Size && 0 <= n <= Size
    ensures forall k :: 0 <= k < |r| ==> 0 <= r[k] < n
  {
    if n == 0 then []
    else UnscoredUpTo(view, n - 1) + (if EntryScoreOrNone(view, n - 1).None? then [n - 1] else [])
  }

  /** `Scoreboard.unscored`, as positions in scoreboard order. */
  function Unscored(view: View): (r: seq<int>)
    requires |view| == Size
    ensures forall k :: 0 <= k < |r| ==> 0 <= r[k] < Size
    ensures forall i :: i in r <==> 0 <= i < Size && i != BonusIndex && view[i] == None
    ensures forall j, k :: 0 <= j < k < |r| ==> r[j] < r[k]
  {
    UnscoredUpToExactly(view, Size);
    UnscoredUpTo(view, Size)
  }

  /** The sum of the locked scores of the first `n` entries other than the bonus. */
  function LockedUpTo(view: View, n: int): int
    requires |view| == Size && 0 <= n <= Size
  {
    if n == 0 then 0
    else LockedUpTo(view, n - 1) + (if n - 1 == BonusIndex then 0 else Points(view[n - 1]))
  }

  lemma {:induction false} UnscoredUpToExactly(view: View, n: int)
    requires |view| == Size && 0 <= n <= Size
    ensures forall i :: i in UnscoredUpTo(view, n) <==> 0 <= i < n && i != BonusIndex && view[i] == None
    ensures forall j, k :: 0 <= j < k < |UnscoredUpTo(view, n)| ==>
      UnscoredUpTo(view, n)[j] < UnscoredUpTo(view, n)[k]
  {
    if n > 0 {
      UnscoredUpToExactly(view, n - 1);
      var prev := UnscoredUpTo(view, n - 1);
      var last := if n - 1 != BonusIndex && view[n - 1].None? then [n - 1] else [];
      assert UnscoredUpTo(view, n) == prev + last;
      assert forall j :: 0 <= j < |prev| ==> prev[j] in prev && prev[j] < n - 1;
    }
  }

  /** The game is over for a scoreboard exactly when every entry but the bonus
      is locked. */
  lemma AllScoredIffNoneUnscored(view: View)
    requires |view| == Size
    ensures Unscored(view) == [] <==> forall i :: 0 <= i < Size && i != BonusIndex ==> view[i].Some?
  {
    if Unscored(view) != [] {
      assert Unscored(view)[0] in Unscored(view);
    }
  }

  lemma {:induction false} LockShrinksUnscoredUpTo(view: View, i: int, v: int, n: int)
    requires |view| == Size && 0 <= i < Size && i != BonusIndex && view[i] == None
    requires 0 <= n <= Size
    ensures n <= i ==> UnscoredUpTo(view[i := Some(v)], n) == UnscoredUpTo(view, n)
    ensures i < n ==> exists t ::
      UnscoredUpTo(view, n) == UnscoredUpTo(view, i) + [i] + t &&
      UnscoredUpTo(view[i := Some(v)], n) == UnscoredUpTo(view, i) + t
  {
    var view' := view[i := Some(v)];
    if n > 0 {
      LockShrinksUnscoredUpTo(view, i, v, n - 1);
      var last := n - 1;
      assert EntryScoreOrNone(view', last).None? <==> EntryScoreOrNone(view, last).None? && last != i;
      if n - 1 == i {
        assert UnscoredUpTo(view, n) == UnscoredUpTo(view, i) + [i] + [];
      } else if i < n - 1 {
        var t :| UnscoredUpTo(view, n - 1) == UnscoredUpTo(view, i) + [i] + t &&
                 UnscoredUpTo(view', n - 1) == UnscoredUpTo(view, i) + t;
        var extra := if EntryScoreOrNone(view, last).None? then [last] else [];
        assert UnscoredUpTo(view, n) == UnscoredUpTo(view, i) + [i] + (t + extra);
      }
    }
  }

  /** A successful `set_score` on an unscored entry removes exactly that entry
      from `unscored()` and keeps the others in order. */
  lemma LockShrinksUnscored(view: View, i: int, v: int)
    requires |view| == Size && 0 <= i < Size && i in Unscored(view)
    ensures exists before, after ::
      Unscored(view) == before + [i] + after &&
      Unscored(view[i := Some(v)]) == before + after
    ensures |Unscored(view[i := Some(v)])| == |Unscored(view)| - 1
  {
    LockShrinksUnscoredUpTo(view, i, v, Size);
  }

  lemma {:induction false} ScoreUpToSplit(view: View, n: int)
    requires |view| == Size && 0 <= n <= Size
    ensures ScoreUpTo(view, n) == LockedUpTo(view, n) + (if n > BonusIndex then BonusScore(Upper(view)) else 0)
  {
    if n > 0 {
      ScoreUpToSplit(view, n - 1);
    }
  }

  lemma SumOfSix(xs: seq<int>)
    requires |xs| == 6
    ensures SumOf(xs) == xs[0] + xs[1] + xs[2] + xs[3] + xs[4] + xs[5]
  {
    assert SumOf(xs[5..]) == xs[5] + SumOf(xs[6..]);
    assert SumOf(xs[4..]) == xs[4] + SumOf(xs[5..]);
    assert SumOf(xs[3..]) == xs[3] + SumOf(xs[4..]);
    assert SumOf(xs[2..]) == xs[2] + SumOf(xs[3..]);
    assert SumOf(xs[1..]) == xs[1] + SumOf(xs[2..]);
  }

  /** Locking any entry with a score that is not negative never takes the
      bonus away: the bonus can appear, but not disappear. */
  lemma BonusNeverLost(view: View, i: int, v: int)
    requires |view| == Size && 0 <= i < Size && view[i] == None && v >= 0
    ensures EntryScore(view, BonusIndex) <= EntryScore(view[i := Some(v)], BonusIndex)
  {
    SumOfSix(Upper(view));
    SumOfSix(Upper(view[i := Some(v)]));
  }

  /** Three of each face in Ettor .. Sexor sums to exactly 63 and earns the
      bonus; scoring only two sixes instead takes it away. */
  lemma ThreeOfEachEarnsBonus(view: View)
    requires |view| == Size
    requires forall i :: 0 <= i < 6 ==> view[i] == Some(3 * (i + 1))
    ensures EntryScore(view, BonusIndex) == 50
    ensures EntryScore(view[5 := Some(12)], BonusIndex) == 0
  {
    SumOfSix(Upper(view));
    SumOfSix(Upper(view[5 := Some(12)]));
  }

  /** A new scoreboard scores 0 and has all 15 entries but the bonus unscored. */
  lemma FreshBoard(view: View)
    requires |view| == Size && forall i :: 0 <= i < Size ==> view[i] == None
    ensures TotalScore(view) == 0
    ensures |Unscored(view)| == 15
  {
    FreshUpTo(view, Size);
    SumOfSix(Upper(view));
  }

  lemma {:induction false} FreshUpTo(view: View, n: int)
    requires |view| == Size && forall i :: 0 <= i < Size ==> view[i] == None
    requires 0 <= n <= Size
    ensures ScoreUpTo(view, n) == 0
    ensures |UnscoredUpTo(view, n)| == if n > BonusIndex then n - 1 else n
  {
    SumOfSix(Upper(view));
    if n > 0 {
      FreshUpTo(view, n - 1);
    }
  }
}
