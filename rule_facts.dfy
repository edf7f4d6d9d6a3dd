/** What the scoring rules of yatzy.py guarantee for a hand of five dice:
    ranges, exactly when each rule scores, and what it then scores. Where the
    code departs from the usual Yatzy rules (Yatzy scores five times the face,
    Stor stege takes any five distinct faces topped by a 6) the lemmas state
    the code's behaviour. */
module RuleFacts {
  import opened Rules

  /** The faces a die can show. */
  const AllFaces: set<Die> := {1, 2, 3, 4, 5, 6}

  // ---------------------------------------------------------------------------
  // Counting facts

  lemma {:induction false} CountAtMost(d: seq<Die>, f: Die)
    ensures Count(d, f) <= |d|
  {
    if d != [] {
      assert d == [d[0]] + d[1..];
      CountAtMost(d[1..], f);
    }
  }

  /** Two different faces share the dice between them. */
  lemma {:induction false} CountTwoAtMost(d: seq<Die>, f: Die, g: Die)
    requires f != g
    ensures Count(d, f) + Count(d, g) <= |d|
  {
    if d != [] {
      assert d == [d[0]] + d[1..];
      CountTwoAtMost(d[1..], f, g);
    }
  }

  /** When every die shows `a` or `b`, their counts make up the whole hand. */
  lemma {:induction false} CountTwoFill(d: seq<Die>, a: Die, b: Die)
    requires a != b
    requires forall x :: x in d ==> x == a || x == b
    ensures Count(d, a) + Count(d, b) == |d|
  {
    if d != [] {
      var t := d[1..];
      assert d == [d[0]] + t;
      assert multiset(d) == multiset{d[0]} + multiset(t);
      forall x | x in t ensures x == a || x == b {
        assert x in d;
      }
      assert d[0] == a || d[0] == b by { assert d[0] in d; }
      CountTwoFill(t, a, b);
    }
  }

  /** A third face showing leaves fewer dice for `a` and `b`. */
  lemma {:induction false} CountOther(d: seq<Die>, a: Die, b: Die, x: Die)
    requires a != b && x != a && x != b && x in d
    ensures Count(d, a) + Count(d, b) < |d|
  {
    assert d == [d[0]] + d[1..];
    if d[0] == x {
      CountTwoAtMost(d[1..], a, b);
    } else {
      CountOther(d[1..], a, b, x);
    }
  }

  /** A face counted at least once is one of the counter's keys. */
  lemma CountedIsKey(d: seq<Die>, f: Die, k: int)
    requires k >= 1 && Count(d, f) >= k
    ensures Qualifies(d, f, k)
  {
    assert f in multiset(d);
  }

  /** A face that does not qualify occurs fewer than `k` times. */
  lemma NotQualifying(d: seq<Die>, f: Die, k: int)
    requires k >= 1 && !Qualifies(d, f, k)
    ensures Count(d, f) < k
  {
    if Count(d, f) >= k {
      CountedIsKey(d, f, k);
    }
  }

  /** A hand has at most as many distinct faces as dice, and exactly as many
      only when no face repeats. */
  lemma {:induction false} DistinctFaces(d: seq<Die>)
    ensures |Faces(d)| <= |d|
    ensures |Faces(d)| == |d| ==> forall x: Die :: Count(d, x) <= 1
  {
    if d == [] {
      assert Faces(d) == {};
    } else {
      var t := d[1..];
      assert d == [d[0]] + t;
      assert Faces(d) == {d[0]} + Faces(t);
      DistinctFaces(t);
      if d[0] in t {
        assert Faces(d) == Faces(t);
      } else {
        assert |Faces(d)| == |Faces(t)| + 1;
        if |Faces(d)| == |d| {
          assert multiset(d) == multiset{d[0]} + multiset(t);
          assert d[0] !in multiset(t);
          forall x: Die ensures Count(d, x) <= 1 {
            assert Count(t, x) <= 1;
          }
        }
      }
    }
  }

  lemma SubsetSameSize(a: set<Die>, b: set<Die>)
    requires a <= b && |a| == |b|
    ensures a == b
  {
    assert b == a + (b - a);
    assert a * (b - a) == {};
  }

  // ---------------------------------------------------------------------------
  // Sums

  /** Counting a face in a hand is counting it in the first die and the rest. */
  lemma CountStep(d: seq<Die>, f: Die)
    requires d != []
    ensures Count(d, f) == Count(d[1..], f) + (if d[0] == f then 1 else 0)
  {
    assert multiset(d) == multiset{d[0]} + multiset(d[1..]) by {
      assert d == [d[0]] + d[1..];
    }
  }

  /** The sum of a hand is fixed by how many dice show each face. */
  lemma {:induction false} SumByFaces(d: seq<Die>)
    ensures Sum(d) == Count(d, 1) + 2 * Count(d, 2) + 3 * Count(d, 3)
                      + 4 * Count(d, 4) + 5 * Count(d, 5) + 6 * Count(d, 6)
  {
    if d != [] {
      var t := d[1..];
      SumByFaces(t);
      CountStep(d, 1);
      CountStep(d, 2);
      CountStep(d, 3);
      CountStep(d, 4);
      CountStep(d, 5);
      CountStep(d, 6);
    }
  }

  /** One more die of face x adds x. */
  lemma OneMore(x: int, n: int)
    ensures x * (n + 1) == x * n + x
  {
  }

  /** A hand of two faces sums to each face times its count. */
  lemma {:induction false} SumOfTwoFaces(d: seq<Die>, a: Die, b: Die)
    requires a != b
    requires forall x :: x in d ==> x == a || x == b
    ensures Sum(d) == a * Count(d, a) + b * Count(d, b)
  {
    if d != [] {
      var t := d[1..];
      assert multiset(d) == multiset{d[0]} + multiset(t) by {
        assert d == [d[0]] + t;
      }
      assert Sum(t) == a * Count(t, a) + b * Count(t, b) by {
        forall x | x in t ensures x == a || x == b {
          assert x in d;
        }
        SumOfTwoFaces(t, a, b);
      }
      var ca, cb := Count(t, a), Count(t, b);
      if d[0] == a {
        assert Count(d, a) == ca + 1 && Count(d, b) == cb;
        OneMore(a, ca);
        assert Sum(d) == a * Count(d, a) + b * Count(d, b);
      } else {
        assert d[0] == b by { assert d[0] in d; }
        assert Count(d, b) == cb + 1 && Count(d, a) == ca;
        OneMore(b, cb);
        assert Sum(d) == a * Count(d, a) + b * Count(d, b);
      }
    }
  }

  // ---------------------------------------------------------------------------
  // Ettor .. Sexor

  /** `calculate_n(n)` counts the dice showing n: between 0 and 5n, a multiple of n. */
  lemma NumberRange(n: Die, d: seq<Die>)
    requires |d| == 5
    ensures 0 <= Score(Number(n), d) <= 5 * n
    ensures exists q: nat :: q <= 5 && Score(Number(n), d) == q * n
  {
    CountAtMost(d, n);
    assert Score(Number(n), d) == Count(d, n) * n;
  }

  // ---------------------------------------------------------------------------
  // Par, Triss, Fyrtal, Yatzy

  /** `calculate_n_of_a_kind(k)` scores k times the highest face occurring at
      least k times, and 0 when no face does. */
  lemma OfAKindExactly(k: int, d: seq<Die>)
    requires k >= 1
    ensures Score(OfAKind(k), d) == 0 <==> forall f: Die :: Count(d, f) < k
    ensures Score(OfAKind(k), d) != 0 ==>
      exists f: Die :: Score(OfAKind(k), d) == f * k && Count(d, f) >= k &&
        forall g: Die :: f < g ==> Count(d, g) < k
    ensures 0 <= Score(OfAKind(k), d) <= 6 * k
    ensures exists q: nat :: q <= 6 && Score(OfAKind(k), d) == q * k
  {
    var h := Highest(d, k, 6);
    assert Score(OfAKind(k), d) == h * k;
    forall g: Die | h < g ensures Count(d, g) < k {
      NotQualifying(d, g, k);
    }
    if h == 0 {
      assert forall f: Die :: Count(d, f) < k;
    } else {
      var f: Die := h;
      assert Count(d, f) >= k;
      assert Score(OfAKind(k), d) != 0;
    }
  }

  /** Five equal dice score k times their face under every n-of-a-kind rule
      with 1 <= k <= 5. With k = 5 this is Yatzy, which therefore scores five
      times the face, not a fixed 50. */
  lemma FiveEqualOfAKind(f: Die, k: int)
    requires 1 <= k <= 5
    ensures Score(OfAKind(k), [f, f, f, f, f]) == f * k
  {
    var d := [f, f, f, f, f];
    assert Count(d, f) == 5;
    forall g: Die | g != f ensures Count(d, g) == 0 {
      assert g !in d;
    }
    OfAKindExactly(k, d);
  }

  // ---------------------------------------------------------------------------
  // Två par

  /** `hi` and `lo` are the two highest faces occurring at least twice. */
  ghost predicate TopTwoPairs(d: seq<Die>, hi: Die, lo: Die) {
    lo < hi && Count(d, hi) >= 2 && Count(d, lo) >= 2 &&
    (forall g: Die :: hi < g ==> Count(d, g) < 2) &&
    (forall g: Die :: lo < g < hi ==> Count(d, g) < 2)
  }

  /** A scoring two pair is made of the highest face occurring at least twice
      and the highest such face below it. */
  lemma TwoPairWhenScoring(d: seq<Die>)
    requires Score(TwoPair, d) != 0
    ensures exists hi: Die, lo: Die :: TopTwoPairs(d, hi, lo) && Score(TwoPair, d) == 2 * hi + 2 * lo
  {
    var hi: Die := Highest(d, 2, 6);
    var lo: Die := Highest(d, 2, hi - 1);
    forall g: Die | hi < g ensures Count(d, g) < 2 {
      NotQualifying(d, g, 2);
    }
    forall g: Die | lo < g < hi ensures Count(d, g) < 2 {
      NotQualifying(d, g, 2);
    }
    assert TopTwoPairs(d, hi, lo);
  }

  /** `calculate_two_pair` scores only when two different faces each occur at
      least twice, and then scores twice the highest such face plus twice the
      next highest. */
  lemma TwoPairExactly(d: seq<Die>)
    ensures Score(TwoPair, d) != 0 <==>
      exists f: Die, g: Die :: f != g && Count(d, f) >= 2 && Count(d, g) >= 2
    ensures Score(TwoPair, d) != 0 ==>
      exists hi: Die, lo: Die :: TopTwoPairs(d, hi, lo) && Score(TwoPair, d) == 2 * hi + 2 * lo
  {
    if Score(TwoPair, d) != 0 {
      TwoPairWhenScoring(d);
      var hi: Die, lo: Die :| TopTwoPairs(d, hi, lo) && Score(TwoPair, d) == 2 * hi + 2 * lo;
      assert hi != lo && Count(d, hi) >= 2 && Count(d, lo) >= 2;
    }
  }

  /** Four of a kind and an odd die is not two pairs. */
  lemma FourOfAKindIsNoTwoPair(d: seq<Die>, a: Die)
    requires |d| == 5 && Count(d, a) >= 4
    ensures Score(TwoPair, d) == 0
  {
    forall f: Die | f != a ensures Count(d, f) < 2 {
      CountTwoAtMost(d, a, f);
    }
    TwoPairExactly(d);
  }

  // ---------------------------------------------------------------------------
  // Kåk

  /** Two dice of `a` and three of `b` make a full house worth 2a + 3b. */
  lemma FullHouseShape(d: seq<Die>, a: Die, b: Die)
    requires |d| == 5 && a != b && Count(d, a) == 2 && Count(d, b) == 3
    ensures Faces(d) == {a, b}
    ensures Score(FullHouse, d) == 2 * a + 3 * b
  {
    forall x | x in d ensures x == a || x == b {
      if x != a && x != b {
        CountOther(d, a, b, x);
      }
    }
    assert a in d && b in d by {
      assert a in multiset(d) && b in multiset(d);
    }
    assert Faces(d) == {a, b};
    SumOfTwoFaces(d, a, b);
  }

  /** `calculate_full_house` scores exactly when one face occurs twice and
      another three times, and then scores the sum of the dice. */
  lemma FullHouseExactly(d: seq<Die>)
    requires |d| == 5
    ensures Score(FullHouse, d) != 0 <==>
      exists a: Die, b: Die :: a != b && Count(d, a) == 2 && Count(d, b) == 3
    ensures forall a: Die, b: Die :: a != b && Count(d, a) == 2 && Count(d, b) == 3 ==>
      Score(FullHouse, d) == 2 * a + 3 * b
  {
    forall a: Die, b: Die | a != b && Count(d, a) == 2 && Count(d, b) == 3
      ensures Score(FullHouse, d) == 2 * a + 3 * b
    {
      FullHouseShape(d, a, b);
    }
    if Score(FullHouse, d) != 0 {
      var a: Die :| a in Faces(d) && Count(d, a) == 2;
      assert |Faces(d) - {a}| == 1;
      var b: Die :| b in Faces(d) - {a};
      SubsetSameSize({a, b}, Faces(d));
      forall x | x in d ensures x == a || x == b {
        assert x in Faces(d);
      }
      CountTwoFill(d, a, b);
      assert Count(d, b) == 3;
    }
  }

  /** Five equal dice are not a full house. */
  lemma FiveOfAKindIsNoFullHouse(d: seq<Die>, f: Die)
    requires |d| == 5 && Count(d, f) == 5
    ensures Score(FullHouse, d) == 0
  {
    forall g: Die | g != f ensures Count(d, g) == 0 {
      CountTwoAtMost(d, f, g);
    }
    FullHouseExactly(d);
  }

  // ---------------------------------------------------------------------------
  // Liten stege, Stor stege

  lemma EachFaceOnce(x: Die)
    ensures multiset{1, 2, 3, 4, 5, 6}[x] == 1
  {
    if x == 1 {} else if x == 2 {} else if x == 3 {} else if x == 4 {} else if x == 5 {}
  }

  /** The hand shows every face except `m`, each once. */
  ghost predicate MissingOnly(d: seq<Die>, m: Die) {
    multiset(d) + multiset{m} == multiset{1, 2, 3, 4, 5, 6}
  }

  /** A straight up to `top` missing face `m`: five distinct faces, none above `top`. */
  ghost predicate StraightOf(d: seq<Die>, top: Die, m: Die) {
    m != top && (forall x :: x in d ==> x <= top) && MissingOnly(d, m)
  }

  lemma StraightCounts(d: seq<Die>, m: Die)
    requires MissingOnly(d, m)
    ensures |d| == 5
    ensures forall x: Die :: Count(d, x) == if x == m then 0 else 1
  {
    assert |multiset(d) + multiset{m}| == |multiset(d)| + 1;
    forall x: Die ensures Count(d, x) == if x == m then 0 else 1 {
      assert (multiset(d) + multiset{m})[x] == multiset{1, 2, 3, 4, 5, 6}[x];
    }
  }

  lemma StraightShape(d: seq<Die>, m: Die)
    requires MissingOnly(d, m)
    ensures |d| == 5
    ensures forall x: Die :: Count(d, x) == if x == m then 0 else 1
    ensures Faces(d) == AllFaces - {m} && |Faces(d)| == 5
    ensures Sum(d) == 21 - m
  {
    StraightCounts(d, m);
    StraightFaces(d, m);
    SumByFaces(d);
  }

  lemma StraightFaces(d: seq<Die>, m: Die)
    requires forall x: Die :: Count(d, x) == if x == m then 0 else 1
    ensures Faces(d) == AllFaces - {m} && |Faces(d)| == 5
  {
    forall x: Die ensures x in Faces(d) <==> x in AllFaces - {m} {
      assert Count(d, x) == if x == m then 0 else 1;
      assert x in d <==> x in multiset(d);
      assert x in AllFaces by {
        if x == 1 {} else if x == 2 {} else if x == 3 {} else if x == 4 {} else if x == 5 {}
      }
    }
    assert AllFaces == (AllFaces - {m}) + {m};
  }

  /** Five different faces none above `top`, with `top` among them, score
      their sum. */
  lemma StraightWhenShaped(top: Die, d: seq<Die>, m: Die)
    requires StraightOf(d, top, m)
    ensures Score(StraightTo(top), d) == 21 - m
  {
    StraightShape(d, m);
    assert top in d by {
      assert Count(d, top) == 1;
      assert top in multiset(d);
    }
    var highest := MaxFace(d);
    assert highest == top;
  }

  /** Five dice showing the five faces other than `m` show each once. */
  lemma FiveDistinct(d: seq<Die>, m: Die)
    requires |d| == 5 && Faces(d) == AllFaces - {m}
    ensures MissingOnly(d, m)
  {
    DistinctFaces(d);
    forall x: Die ensures (multiset(d) + multiset{m})[x] == multiset{1, 2, 3, 4, 5, 6}[x] {
      EachFaceOnce(x);
      if x != m {
        assert multiset(d)[x] == 1 by {
          assert x in AllFaces;
          assert x in Faces(d);
          assert x in multiset(d);
          assert Count(d, x) <= 1;
        }
      } else {
        assert x !in multiset(d) by {
          assert x !in Faces(d);
        }
      }
    }
  }

  /** Five dice showing five different faces leave exactly one face out. */
  lemma OneFaceMissing(d: seq<Die>)
    requires |d| == 5 && |Faces(d)| == 5
    ensures exists m: Die :: m !in Faces(d) && MissingOnly(d, m)
  {
    var missing := AllFaces - Faces(d);
    assert AllFaces == Faces(d) + missing && Faces(d) * missing == {};
    var m :| m in missing;
    assert AllFaces == (AllFaces - {m}) + {m};
    SubsetSameSize(Faces(d), AllFaces - {m});
    FiveDistinct(d, m);
  }

  /** A scoring straight is five different faces, none above `top`. */
  lemma StraightWhenScoring(top: Die, d: seq<Die>)
    requires |d| == 5 && Score(StraightTo(top), d) != 0
    ensures exists m: Die :: StraightOf(d, top, m)
  {
    assert |Faces(d)| == 5 && MaxFace(d) == top;
    OneFaceMissing(d);
    var m: Die :| m !in Faces(d) && MissingOnly(d, m);
    assert StraightOf(d, top, m);
  }

  /** `calculate_straight_to_n(top)` scores exactly when the dice are five
      different faces none above `top` (so one face m != top of 1..6 is
      missing), and then scores their sum, 21 - m. */
  lemma StraightExactly(top: Die, d: seq<Die>)
    requires |d| == 5
    ensures Score(StraightTo(top), d) != 0 <==> exists m: Die :: StraightOf(d, top, m)
    ensures forall m: Die :: StraightOf(d, top, m) ==> Score(StraightTo(top), d) == 21 - m
  {
    forall m: Die | StraightOf(d, top, m) ensures Score(StraightTo(top), d) == 21 - m {
      StraightWhenShaped(top, d, m);
    }
    if Score(StraightTo(top), d) != 0 {
      StraightWhenScoring(top, d);
    }
  }

  /** Liten stege scores exactly for the faces 1..5 in any order, and then 15. */
  lemma SmallStraightExactly(d: seq<Die>)
    requires |d| == 5
    ensures Score(StraightTo(5), d) != 0 <==> multiset(d) == multiset{1, 2, 3, 4, 5}
    ensures multiset(d) == multiset{1, 2, 3, 4, 5} ==> Score(StraightTo(5), d) == 15
  {
    StraightExactly(5, d);
    if Score(StraightTo(5), d) != 0 {
      var m: Die :| StraightOf(d, 5, m);
      StraightShape(d, m);
      assert m == 6;
      forall x: Die ensures multiset(d)[x] == multiset{1, 2, 3, 4, 5}[x] {
        assert (multiset(d) + multiset{6})[x] == multiset{1, 2, 3, 4, 5, 6}[x];
      }
    }
    if multiset(d) == multiset{1, 2, 3, 4, 5} {
      forall x | x in d ensures x <= 5 {
        assert x in multiset(d);
      }
      assert StraightOf(d, 5, 6);
    }
  }

  /** Stor stege, as written, scores for any five different faces that include
      a 6, not only for 2..6: with m the missing face of 1..5 it scores 21 - m. */
  lemma LargeStraightExactly(d: seq<Die>)
    requires |d| == 5
    ensures Score(StraightTo(6), d) != 0 <==> exists m: Die :: m != 6 && MissingOnly(d, m)
    ensures forall m: Die :: m != 6 && MissingOnly(d, m) ==> Score(StraightTo(6), d) == 21 - m
  {
    StraightExactly(6, d);
    assert forall m: Die :: StraightOf(d, 6, m) <==> m != 6 && MissingOnly(d, m);
  }

  /** [1, 2, 3, 5, 6] is a Stor stege as written, worth 17. */
  lemma LargeStraightWithGap()
    ensures Score(StraightTo(6), [1, 2, 3, 5, 6]) == 17
  {
    var gap: seq<Die> := [1, 2, 3, 5, 6];
    assert MissingOnly(gap, 4);
    LargeStraightExactly(gap);
  }

  /** [2, 3, 4, 5, 6] is a Stor stege worth 20. */
  lemma LargeStraightTwoToSix()
    ensures Score(StraightTo(6), [2, 3, 4, 5, 6]) == 20
  {
    var run: seq<Die> := [2, 3, 4, 5, 6];
    assert MissingOnly(run, 1);
    LargeStraightExactly(run);
  }

  // ---------------------------------------------------------------------------
  // All rules

  /** Every rule of the scoreboard scores a five-die hand between 0 and 30. */
  lemma ScoreRange(rule: Rule, d: seq<Die>)
    requires |d| == 5
    requires rule.OfAKind? ==> rule.k >= 1
    ensures 0 <= Score(rule, d) <= 30
  {
    match rule
    case Number(n) => NumberRange(n, d);
    case OfAKind(k) =>
      OfAKindExactly(k, d);
      if Score(rule, d) != 0 {
        var f: Die :| Score(rule, d) == f * k && Count(d, f) >= k;
        CountAtMost(d, f);
      }
    case TwoPair =>
    case StraightTo(top) =>
    case FullHouse =>
    case Chance =>
  }

  /** Five ones: Ettor 5, Par 2, Triss 3, Fyrtal 4, Yatzy 5, Chans 5, and no
      two pair, straight or full house. */
  lemma FiveOnes()
    ensures Score(Number(1), [1, 1, 1, 1, 1]) == 5
    ensures Score(OfAKind(2), [1, 1, 1, 1, 1]) == 2
    ensures Score(OfAKind(3), [1, 1, 1, 1, 1]) == 3
    ensures Score(OfAKind(4), [1, 1, 1, 1, 1]) == 4
    ensures Score(OfAKind(5), [1, 1, 1, 1, 1]) == 5
    ensures Score(Chance, [1, 1, 1, 1, 1]) == 5
    ensures Score(TwoPair, [1, 1, 1, 1, 1]) == 0
    ensures Score(StraightTo(5), [1, 1, 1, 1, 1]) == 0
    ensures Score(FullHouse, [1, 1, 1, 1, 1]) == 0
  {
    var d: seq<Die> := [1, 1, 1, 1, 1];
    assert Count(d, 1) == 5;
    FiveEqualOfAKind(1, 2);
    FiveEqualOfAKind(1, 3);
    FiveEqualOfAKind(1, 4);
    FiveEqualOfAKind(1, 5);
    FourOfAKindIsNoTwoPair(d, 1);
    FiveOfAKindIsNoFullHouse(d, 1);
    SmallStraightExactly(d);
    assert multiset(d) != multiset{1, 2, 3, 4, 5};
  }

  /** [1, 2, 3, 4, 5]: Liten stege 15, Stor stege 0, Chans 15, Par 0. */
  lemma OneToFive()
    ensures Score(StraightTo(5), [1, 2, 3, 4, 5]) == 15
    ensures Score(StraightTo(6), [1, 2, 3, 4, 5]) == 0
    ensures Score(Chance, [1, 2, 3, 4, 5]) == 15
    ensures Score(OfAKind(2), [1, 2, 3, 4, 5]) == 0
  {
    var d: seq<Die> := [1, 2, 3, 4, 5];
    SmallStraightExactly(d);
    assert multiset(d) == multiset{1, 2, 3, 4, 5};
    OfAKindExactly(2, d);
    forall f: Die ensures Count(d, f) < 2 {
      assert multiset(d)[f] == multiset{1, 2, 3, 4, 5}[f];
    }
  }
}
