/** `Scoreboard`: the sixteen entries of one player, in the order its
    constructor appends them, with the total and the entries still open. */
module Scoreboards {
  import opened Wrappers
  import opened Rules
  import opened Combinations
  import opened Board

  /** What a position of a scoreboard holds: a named rule, or the bonus. */
  datatype Slot = Ruled(name: string, rule: Rule) | BonusSlot(name: string)

  /** The sixteen entries, in the order `Scoreboard.__init__` appends them. */
  const Layout: seq<Slot> := [
    Ruled("Ettor", Number(1)),
    Ruled("Tvåor", Number(2)),
    Ruled("Treor", Number(3)),
    Ruled("Fyror", Number(4)),
    Ruled("Femmor", Number(5)),
    Ruled("Sexor", Number(6)),
    BonusSlot("Bonus"),
    Ruled("Par", OfAKind(2)),
    Ruled("Två par", TwoPair),
    Ruled("Triss", OfAKind(3)),
    Ruled("Liten stege", StraightTo(5)),
    Ruled("Stor stege", StraightTo(6)),
    Ruled("Kåk", FullHouse),
    Ruled("Fyrtal", OfAKind(4)),
    Ruled("Chans", Chance),
    Ruled("Yatzy", OfAKind(5))
  ]

  /** The slots of `Layout` one by one. */
  lemma LayoutSlots()
    ensures |Layout| == Size
    ensures Layout[0] == Ruled("Ettor", Number(1)) && Layout[1] == Ruled("Tvåor", Number(2))
    ensures Layout[2] == Ruled("Treor", Number(3)) && Layout[3] == Ruled("Fyror", Number(4))
    ensures Layout[4] == Ruled("Femmor", Number(5)) && Layout[5] == Ruled("Sexor", Number(6))
    ensures Layout[6] == BonusSlot("Bonus") && Layout[7] == Ruled("Par", OfAKind(2))
    ensures Layout[8] == Ruled("Två par", TwoPair) && Layout[9] == Ruled("Triss", OfAKind(3))
    ensures Layout[10] == Ruled("Liten stege", StraightTo(5)) && Layout[11] == Ruled("Stor stege", StraightTo(6))
    ensures Layout[12] == Ruled("Kåk", FullHouse) && Layout[13] == Ruled("Fyrtal", OfAKind(4))
    ensures Layout[14] == Ruled("Chans", Chance) && Layout[15] == Ruled("Yatzy", OfAKind(5))
  {
  }

  /** The name and rule an entry was created with. */
  function SlotOf(e: Entry): Slot {
    match e
    case Plain(c) => Ruled(c.name, c.rule)
    case Bonus(name) => BonusSlot(name)
  }

  /** The name and rule of every entry. */
  function Shapes(es: seq<Entry>): (r: seq<Slot>)
    ensures |r| == |es|
    ensures forall i :: 0 <= i < |es| ==> r[i] == SlotOf(es[i])
  {
    if es == [] then [] else Shapes(es[..|es| - 1]) + [SlotOf(es[|es| - 1])]
  }

  /** No `Combination` object appears at two positions. */
  ghost predicate Distinct(es: seq<Entry>) {
    forall i, j :: 0 <= i < j < |es| && es[i].Plain? && es[j].Plain? ==> es[i].c != es[j].c
  }

  /** The lock state of every entry; the bonus has none. */
  function Locks(es: seq<Entry>): (v: View)
    reads set e | e in es && e.Plain? :: e.c
    ensures |v| == |es|
    ensures forall i :: 0 <= i < |es| ==> v[i] == if es[i].Plain? then es[i].c.locked else None
  {
    if es == [] then []
    else
      var last := es[|es| - 1];
      Locks(es[..|es| - 1]) + [if last.Plain? then last.c.locked else None]
  }

  /** The entries at positions `ps`, in that order. */
  function Pick(es: seq<Entry>, ps: seq<int>): (r: seq<Entry>)
    requires forall k :: 0 <= k < |ps| ==> 0 <= ps[k] < |es|
    ensures |r| == |ps|
    ensures forall k :: 0 <= k < |ps| ==> r[k] == es[ps[k]]
  {
    if ps == [] then [] else [es[ps[0]]] + Pick(es, ps[1..])
  }

  /** Picking from a concatenation of positions concatenates the picks. */
  lemma {:induction false} PickAppend(es: seq<Entry>, ps: seq<int>, qs: seq<int>)
    requires forall k :: 0 <= k < |ps| ==> 0 <= ps[k] < |es|
    requires forall k :: 0 <= k < |qs| ==> 0 <= qs[k] < |es|
    ensures Pick(es, ps + qs) == Pick(es, ps) + Pick(es, qs)
  {
    if ps == [] {
      assert ps + qs == qs;
    } else {
      assert (ps + qs)[1..] == ps[1..] + qs;
      PickAppend(es, ps[1..], qs);
    }
  }

  /** Removing one position from a list of positions removes its entry from
      the picked entries and keeps the rest in order. */
  lemma PickWithout(es: seq<Entry>, before: seq<int>, i: int, after: seq<int>)
    requires forall k :: 0 <= k < |before + [i] + after| ==> 0 <= (before + [i] + after)[k] < |es|
    ensures 0 <= i < |es|
    ensures forall k :: 0 <= k < |before| ==> 0 <= before[k] < |es|
    ensures forall k :: 0 <= k < |after| ==> 0 <= after[k] < |es|
    ensures forall k :: 0 <= k < |before + after| ==> 0 <= (before + after)[k] < |es|
    ensures Pick(es, before + [i] + after) == Pick(es, before) + [es[i]] + Pick(es, after)
    ensures Pick(es, before + after) == Pick(es, before) + Pick(es, after)
  {
    var ps := before + [i] + after;
    assert forall k :: 0 <= k < |before| ==> before[k] == ps[k];
    assert forall k :: 0 <= k < |after| ==> after[k] == ps[|before| + 1 + k];
    assert ps[|before|] == i;
    PickAppend(es, before, [i]);
    PickAppend(es, before + [i], after);
    PickAppend(es, before, after);
    assert Pick(es, [i]) == [es[i]];
  }

  /** Locking the unscored entry at position `i` of the board `es` takes it
      out of the unscored entries and keeps the others in order. */
  lemma UnscoredAfterLock(es: seq<Entry>, view: View, i: int, v: int) returns (before: seq<Entry>, after: seq<Entry>)
    requires |es| == Size == |view| && 0 <= i < Size && i in Board.Unscored(view)
    ensures Pick(es, Board.Unscored(view)) == before + [es[i]] + after
    ensures Pick(es, Board.Unscored(view[i := Some(v)])) == before + after
  {
    LockShrinksUnscored(view, i, v);
    var ps := Board.Unscored(view);
    var pb, pa :| ps == pb + [i] + pa &&
                  Board.Unscored(view[i := Some(v)]) == pb + pa;
    assert forall k :: 0 <= k < |ps| ==> 0 <= ps[k] < |es|;
    PickWithout(es, pb, i, pa);
    before, after := Pick(es, pb), Pick(es, pa);
  }

  class Scoreboard {
    var combinations: seq<Entry>

    /** The `Combination` objects on the board. */
    ghost function Objects(): set<Combination>
      reads this
    {
      set e | e in combinations && e.Plain? :: e.c
    }

    /** The first `n` entries are laid out as `Layout` says, each
        `Combination` its own object. */
    ghost predicate Built(n: int)
      reads this
    {
      && n == |combinations| <= Size
      && Shapes(combinations) == Layout[..n]
      && Distinct(combinations)
    }

    /** All sixteen entries are in place: a `Combination` everywhere but at
        the bonus's position. */
    ghost predicate Valid()
      reads this
    {
      && Built(Size)
      && (forall i :: 0 <= i < Size ==> (combinations[i].Plain? <==> i != BonusIndex))
    }

    /** The lock state of the board. */
    function View(): (v: View)
      reads this, Objects()
      requires Valid()
      ensures |v| == Size
      ensures forall i :: 0 <= i < Size && i != BonusIndex ==> v[i] == combinations[i].c.locked
      ensures v[BonusIndex] == None
    {
      Locks(combinations)
    }

    /** `__init__`: sixteen entries appended one by one; each `Combination`
        is a new object, and none is locked. */
    constructor ()
      ensures Valid()
      ensures forall i :: 0 <= i < Size && i != BonusIndex ==> fresh(combinations[i].c)
      ensures forall i :: 0 <= i < Size ==> View()[i] == None
      ensures Score() == 0 && |Unscored()| == 15
    {
      combinations := [];
      new;
      AppendOnesToFours();
      ghost var s1 := combinations;
      AppendFivesToBonus();
      ghost var s2 := combinations;
      AppendPairToSmallStraight();
      ghost var s3 := combinations;
      AppendLargeStraightToYatzy();
      forall i | 0 <= i < Size && i != BonusIndex
        ensures combinations[i].Plain? && fresh(combinations[i].c)
      {
        if i < 11 {
          assert combinations[i] == s3[i];
          if i < 7 {
            assert s3[i] == s2[i];
            if i < 4 {
              assert s2[i] == s1[i];
            }
          }
        }
      }
      PlainExceptBonus();
      NewBoardIsOpen();
    }

    /** The appends of Ettor .. Fyror. */
    method AppendOnesToFours()
      requires combinations == []
      modifies this
      ensures Built(4)
      ensures forall i :: 0 <= i < |combinations| && combinations[i].Plain? ==> combinations[i].c.locked == None
      ensures forall i :: 0 <= i < 4 && combinations[i].Plain? ==> fresh(combinations[i].c)
    {
      LayoutSlots();
      var c0 := AppendCombination(0, "Ettor", Number(1));
      var c1 := AppendCombination(1, "Tvåor", Number(2));
      var c2 := AppendCombination(2, "Treor", Number(3));
      var c3 := AppendCombination(3, "Fyror", Number(4));
    }

    /** The appends of Femmor, Sexor and the bonus. */
    method AppendFivesToBonus()
      requires Built(4)
      requires forall i :: 0 <= i < |combinations| && combinations[i].Plain? ==> combinations[i].c.locked == None
      modifies this
      ensures Built(7)
      ensures forall i :: 0 <= i < |combinations| && combinations[i].Plain? ==> combinations[i].c.locked == None
      ensures combinations[..4] == old(combinations)
      ensures forall i :: 4 <= i < 7 && combinations[i].Plain? ==> fresh(combinations[i].c)
    {
      LayoutSlots();
      var c4 := AppendCombination(4, "Femmor", Number(5));
      var c5 := AppendCombination(5, "Sexor", Number(6));
      AppendBonus(6, "Bonus");
    }

    /** The appends of Par .. Liten stege. */
    method AppendPairToSmallStraight()
      requires Built(7)
      requires forall i :: 0 <= i < |combinations| && combinations[i].Plain? ==> combinations[i].c.locked == None
      modifies this
      ensures Built(11)
      ensures forall i :: 0 <= i < |combinations| && combinations[i].Plain? ==> combinations[i].c.locked == None
      ensures combinations[..7] == old(combinations)
      ensures forall i :: 7 <= i < 11 && combinations[i].Plain? ==> fresh(combinations[i].c)
    {
      LayoutSlots();
      var c7 := AppendCombination(7, "Par", OfAKind(2));
      var c8 := AppendCombination(8, "Två par", TwoPair);
      var c9 := AppendCombination(9, "Triss", OfAKind(3));
      var c10 := AppendCombination(10, "Liten stege", StraightTo(5));
    }

    /** The appends of Stor stege .. Yatzy. */
    method AppendLargeStraightToYatzy()
      requires Built(11)
      requires forall i :: 0 <= i < |combinations| && combinations[i].Plain? ==> combinations[i].c.locked == None
      modifies this
      ensures Built(16)
      ensures forall i :: 0 <= i < |combinations| && combinations[i].Plain? ==> combinations[i].c.locked == None
      ensures combinations[..11] == old(combinations)
      ensures forall i :: 11 <= i < 16 && combinations[i].Plain? ==> fresh(combinations[i].c)
    {
      LayoutSlots();
      var c11 := AppendCombination(11, "Stor stege", StraightTo(6));
      var c12 := AppendCombination(12, "Kåk", FullHouse);
      var c13 := AppendCombination(13, "Fyrtal", OfAKind(4));
      var c14 := AppendCombination(14, "Chans", Chance);
      var c15 := AppendCombination(15, "Yatzy", OfAKind(5));
    }

    /** Once all sixteen entries are in place, every position but the
        bonus's holds a `Combination`. */
    lemma PlainExceptBonus()
      requires Built(Size)
      ensures forall i :: 0 <= i < Size ==> (combinations[i].Plain? <==> i != BonusIndex)
    {
      assert forall i :: 0 <= i < Size ==> SlotOf(combinations[i]) == Layout[i];
    }

    /** A complete board on which no `Combination` is locked scores 0 and has
        every entry but the bonus unscored. */
    lemma NewBoardIsOpen()
      requires Valid()
      requires forall i :: 0 <= i < |combinations| && combinations[i].Plain? ==> combinations[i].c.locked == None
      ensures forall i :: 0 <= i < Size ==> View()[i] == None
      ensures Score() == 0 && |Unscored()| == 15
    {
      FreshBoard(View());
    }

    /** `self.combinations.append(Combination(name, rule))` at the position
        where `Layout` expects that entry: a new, unlocked object. */
    method AppendCombination(ghost n: int, name: string, rule: Rule) returns (c: Combination)
      requires Built(n) && n < Size && Layout[n] == Ruled(name, rule)
      requires forall i :: 0 <= i < |combinations| && combinations[i].Plain? ==> combinations[i].c.locked == None
      modifies this
      ensures Built(n + 1)
      ensures forall i :: 0 <= i < |combinations| && combinations[i].Plain? ==> combinations[i].c.locked == None
      ensures combinations == old(combinations) + [Plain(c)] && fresh(c)
    {
      c := new Combination(name, rule);
      combinations := combinations + [Plain(c)];
      assert combinations[..n] == old(combinations);
      assert Layout[..n + 1] == Layout[..n] + [Layout[n]];
    }

    /** `self.combinations.append(Bonus(name, self))` at the position where
        `Layout` expects the bonus. */
    method AppendBonus(ghost n: int, name: string)
      requires Built(n) && n < Size && Layout[n] == BonusSlot(name)
      requires forall i :: 0 <= i < |combinations| && combinations[i].Plain? ==> combinations[i].c.locked == None
      modifies this
      ensures Built(n + 1)
      ensures forall i :: 0 <= i < |combinations| && combinations[i].Plain? ==> combinations[i].c.locked == None
      ensures combinations == old(combinations) + [Bonus(name)]
    {
      combinations := combinations + [Bonus(name)];
      assert combinations[..n] == old(combinations);
      assert Layout[..n + 1] == Layout[..n] + [Layout[n]];
    }

    /** `score_or_none()` of the entry at position `i`. */
    function EntryScoreOrNone(i: int): (r: Option<int>)
      reads this, Objects()
      requires Valid() && 0 <= i < Size
      ensures r == Board.EntryScoreOrNone(View(), i)
    {
      match combinations[i]
      case Plain(c) => c.ScoreOrNone()
      case Bonus(_) => BonusScoreOrNone(Upper(View()))
    }

    /** `score()` of the entry at position `i`. */
    function EntryScore(i: int): (p: int)
      reads this, Objects()
      requires Valid() && 0 <= i < Size
      ensures p == Board.EntryScore(View(), i)
    {
      match combinations[i]
      case Plain(c) => c.Score()
      case Bonus(_) => BonusScore(Upper(View()))
    }

    /** The sum of `score()` over the first `n` entries. */
    function ScoreUpTo(n: int): (total: int)
      reads this, Objects()
      requires Valid() && 0 <= n <= Size
      ensures total == Board.ScoreUpTo(View(), n)
    {
      if n == 0 then 0 else ScoreUpTo(n - 1) + EntryScore(n - 1)
    }

    /** `score`: the sum of `score()` over every entry. It is the sum of the
        locked scores plus 50 exactly when Ettor .. Sexor reach 63. */
    function Score(): (total: int)
      reads this, Objects()
      requires Valid()
      ensures total == Board.TotalScore(View())
      ensures total == LockedUpTo(View(), Size) + (if SumOf(Upper(View())) >= 63 then 50 else 0)
    {
      ScoreUpTo(Size)
    }

    /** The entries among the first `n` whose `score_or_none()` is None. */
    function UnscoredUpTo(n: int): (r: seq<Entry>)
      reads this, Objects()
      requires Valid() && 0 <= n <= Size
      ensures r == Pick(combinations, Board.UnscoredUpTo(View(), n))
    {
      if n == 0 then []
      else
        var open := EntryScoreOrNone(n - 1).None?;
        var last := if open then [n - 1] else [];
        assert Board.UnscoredUpTo(View(), n) == Board.UnscoredUpTo(View(), n - 1) + last;
        assert Pick(combinations, last) == if open then [combinations[n - 1]] else [];
        PickAppend(combinations, Board.UnscoredUpTo(View(), n - 1), last);
        UnscoredUpTo(n - 1) + (if open then [combinations[n - 1]] else [])
    }

    /** The lock state after entry `i` of the lock state `view` is locked
        at `v` and no other entry changes. */
    lemma ViewAfterLock(view: View, i: int, v: int)
      requires Valid() && |view| == Size && 0 <= i < Size && i != BonusIndex
      requires combinations[i].c.locked == Some(v)
      requires forall j :: 0 <= j < Size && j != i && j != BonusIndex ==> combinations[j].c.locked == view[j]
      requires view[BonusIndex] == None
      ensures View() == view[i := Some(v)]
    {
    }

    /** Two positions holding the same entry are the same position. */
    lemma EntriesDiffer(i: int, j: int)
      requires Valid() && 0 <= i < Size && 0 <= j < Size && combinations[i] == combinations[j]
      ensures i == j
    {
    }

    /** Two positions other than the bonus's hold two different objects. */
    lemma DistinctObjects(i: int, j: int)
      requires Valid() && 0 <= i < Size && 0 <= j < Size && i != j
      requires i != BonusIndex && j != BonusIndex
      ensures combinations[i].c != combinations[j].c
    {
      if j < i {
        assert combinations[j].c != combinations[i].c;
      }
    }


    /** `unscored`: the entries without a locked score, in board order. The
        bonus is never one of them. */
    function Unscored(): (r: seq<Entry>)
      reads this, Objects()
      requires Valid()
      ensures r == Pick(combinations, Board.Unscored(View()))
      ensures forall i :: 0 <= i < Size ==>
        (combinations[i] in r <==> i != BonusIndex && combinations[i].c.locked == None)
    {
      UnscoredMembers();
      UnscoredUpTo(Size)
    }

    lemma UnscoredMembers()
      requires Valid()
      ensures forall i :: 0 <= i < Size ==>
        (combinations[i] in Pick(combinations, Board.Unscored(View())) <==>
          i != BonusIndex && combinations[i].c.locked == None)
    {
      var ps := Board.Unscored(View());
      var r := Pick(combinations, ps);
      forall i | 0 <= i < Size
        ensures combinations[i] in r <==> i != BonusIndex && combinations[i].c.locked == None
      {
        if combinations[i] in r {
          var k :| 0 <= k < |r| && r[k] == combinations[i];
          EntriesDiffer(ps[k], i);
        }
        if i in ps {
          var k :| 0 <= k < |ps| && ps[k] == i;
          assert r[k] == combinations[i];
        }
      }
    }
  }

  /** A caller takes an entry that `unscored()` lists and calls its
      `set_score`: the call succeeds, only that entry's lock changes, and the
      entry leaves `unscored()` while the others keep their order. */
  method ScoreUnscoredEntry(board: Scoreboard, i: int, dice: seq<Die>) returns (outcome: Outcome)
    requires board.Valid() && 0 <= i < Size && board.combinations[i] in board.Unscored()
    modifies board.combinations[i].c
    ensures outcome == Done && board.Valid()
    ensures board.View() == old(board.View())[i := Some(Rules.Score(board.combinations[i].c.rule, dice))]
    ensures exists before, after ::
      old(board.Unscored()) == before + [board.combinations[i]] + after &&
      board.Unscored() == before + after
  {
    ghost var view := board.View();
    ghost var cs := board.combinations;
    ghost var open := board.Unscored();
    assert i != BonusIndex;
    var c := board.combinations[i].c;
    forall j | 0 <= j < Size && j != i && j != BonusIndex
      ensures board.combinations[j].c != c
    {
      board.DistinctObjects(i, j);
    }
    outcome := c.SetScore(dice);
    assert unchanged(board);
    ghost var v := Rules.Score(c.rule, dice);
    board.ViewAfterLock(view, i, v);
    ghost var before, after := UnscoredAfterLock(cs, view, i, v);
    assert open == before + [cs[i]] + after;
    assert board.Unscored() == before + after;
  }
}
