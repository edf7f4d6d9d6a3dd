/** The scoring rules of yatzy.py: pure functions from a hand of dice to points.
    Each rule builder of the source (`calculate_n`, `calculate_n_of_a_kind`,
    `calculate_straight_to_n`, `calculate_two_pair`, `calculate_full_house`, and
    the built-in `sum` used for Chans) is one constructor of `Rule`, evaluated by
    `Score`. */
module Rules {

  /** A die face: the values a roll produces. */
  type Die = x: int | 1 <= x <= 6 witness 1

  /** How many dice show face `f` (`Counter(dice)[f]`). */
  function Count(d: seq<Die>, f: Die): nat {
    multiset(d)[f]
  }

  /** The distinct faces of a hand (`Counter(dice).keys()`). */
  function Faces(d: seq<Die>): set<Die> {
    set x | x in d
  }

  /** The sum of the dice (Python's `sum`). */
  function Sum(d: seq<Die>): (s: int)
    ensures |d| <= s <= 6 * |d|
  {
    if d == [] then 0 else d[0] + Sum(d[1..])
  }

  /** `f` is a key of the counter and occurs at least `k` times. */
  predicate Qualifies(d: seq<Die>, f: Die, k: int) {
    f in d && Count(d, f) >= k
  }

  /** The highest face not above `top` that occurs at least `k` times, or 0 when
      there is none: the descending search over the counter's keys. */
  function Highest(d: seq<Die>, k: int, top: int): (h: int)
    requires 0 <= top <= 6
    ensures 0 <= h <= top
    ensures h != 0 ==> Qualifies(d, h, k)
    ensures forall g: Die :: h < g <= top ==> !Qualifies(d, g, k)
    decreases top
  {
    if top == 0 then 0
    else if Qualifies(d, top, k) then top
    else Highest(d, k, top - 1)
  }

  /** `max(counts.keys())` */
  function MaxFace(d: seq<Die>): (m: Die)
    requires d != []
    ensures m in d
    ensures forall x :: x in d ==> x <= m
  {
    assert Qualifies(d, d[0], 1);
    Highest(d, 1, 6)
  }

  /** `calculate_n(n)`: Ettor .. Sexor. */
  function NumberScore(n: Die, d: seq<Die>): (r: int)
    ensures r >= 0
    ensures r == 0 <==> n !in d
  {
    Count(d, n) * n
  }

  /** `calculate_n_of_a_kind(k)`: Par, Triss, Fyrtal and Yatzy. */
  function OfAKindScore(k: int, d: seq<Die>): (r: int)
    ensures k >= 1 ==> (r != 0 <==> exists f: Die :: Count(d, f) >= k)
    ensures k >= 1 ==> forall f: Die :: Count(d, f) >= k ==> f * k <= r
  {
    Highest(d, k, 6) * k
  }

  /** `calculate_straight_to_n(top)`: Liten stege and Stor stege. */
  function StraightScore(top: Die, d: seq<Die>): (r: int)
    ensures r != 0 <==> |Faces(d)| == 5 && top in d && forall x :: x in d ==> x <= top
    ensures r != 0 ==> r == Sum(d)
  {
    if |Faces(d)| != 5 then 0
    else
      assert d != [] by { var x :| x in Faces(d); }
      if MaxFace(d) != top then 0 else Sum(d)
  }

  /** `calculate_two_pair`, stated as what its loop finds: the highest face
      occurring at least twice and the highest such face below it. The loop
      itself is `CalculateTwoPair`. */
  function TwoPairScore(d: seq<Die>): (r: int)
    ensures r != 0 ==> exists hi: Die, lo: Die ::
      lo < hi && Count(d, hi) >= 2 && Count(d, lo) >= 2 && r == 2 * hi + 2 * lo
    ensures (exists f: Die, g: Die :: f != g && Count(d, f) >= 2 && Count(d, g) >= 2) ==> r != 0
    ensures r >= 0
  {
    var high := Highest(d, 2, 6);
    if high == 0 then 0
    else
      var low := Highest(d, 2, high - 1);
      if low == 0 then 0 else 2 * high + 2 * low
  }

  /** `calculate_full_house`: two keys, and 2 among the counts. */
  function FullHouseScore(d: seq<Die>): (r: int)
    ensures r != 0 <==> |Faces(d)| == 2 && (exists f :: f in Faces(d) && Count(d, f) == 2)
    ensures r != 0 ==> r == Sum(d)
  {
    if |Faces(d)| != 2 || !(exists f :: f in Faces(d) && Count(d, f) == 2) then 0
    else Sum(d)
  }

  /** The rule builders of yatzy.py. */
  datatype Rule =
    | Number(face: Die)     // calculate_n(face)
    | OfAKind(k: int)       // calculate_n_of_a_kind(k)
    | TwoPair               // calculate_two_pair
    | StraightTo(top: Die)  // calculate_straight_to_n(top)
    | FullHouse             // calculate_full_house
    | Chance                // sum

  /** The points `rule` gives the hand `d`. */
  function Score(rule: Rule, d: seq<Die>): (r: int)
    ensures (rule.OfAKind? ==> rule.k >= 0) ==> r >= 0
    ensures rule.Chance? ==> |d| <= r <= 6 * |d|
  {
    match rule
    case Number(n) => NumberScore(n, d)
    case OfAKind(k) => OfAKindScore(k, d)
    case TwoPair => TwoPairScore(d)
    case StraightTo(top) => StraightScore(top, d)
    case FullHouse => FullHouseScore(d)
    case Chance => Sum(d)
  }

  /** `calculate_two_pair` as written: one pass over the counter's keys,
      highest first, remembering the first face seen at least twice and
      returning on the second. The keys are visited by walking the faces from
      6 down and skipping those absent from the hand. */
  method CalculateTwoPair(d: seq<Die>) returns (points: int)
    ensures points == TwoPairScore(d)
  {
    ghost var high := Highest(d, 2, 6);
    var score: int := 0;
    var face := 6;
    while face >= 1
      invariant 0 <= face <= 6
      invariant score == 0 ==> high == Highest(d, 2, face)
      invariant score != 0 ==> face < high && score == 2 * high && Highest(d, 2, high - 1) == Highest(d, 2, face)
    {
      var die: Die := face;
      if die in d {
        if Count(d, die) >= 2 {
          if score > 0 {
            return score + 2 * face;
          } else {
            score := 2 * face;
          }
        }
      }
      face := face - 1;
    }
    return 0;
  }
}
