/** The hand evaluator of src/cards.rs:74-103: base values, the ace count,
    the downgrading of aces from 11 to 1, and the properties of the total. */
module Hands {
  import opened Cards

  /** Base point value of a rank (src/cards.rs:79-90): the ace counts 11. */
  function BaseValue(r: Rank): (v: int)
    ensures 2 <= v <= 11
    ensures v == 11 <==> r == Ace
  {
    match r
    case Two => 2  case Three => 3  case Four => 4  case Five => 5
    case Six => 6  case Seven => 7  case Eight => 8  case Nine => 9
    case Ten | Jack | Queen | King => 10
    case Ace => 11
  }

  function Pips(c: Card): int { BaseValue(c.rank) }

  function AceMark(c: Card): int { if c.rank == Ace then 1 else 0 }

  /** The value of a card with every ace counted as 1. */
  function HardPips(c: Card): int { if c.rank == Ace then 1 else BaseValue(c.rank) }

  /** Sum of `f` over a hand, accumulated from the front as the `for` loop does. */
  function Sum(hand: seq<Card>, f: Card -> int): int {
    if hand == [] then 0 else Sum(hand[..|hand| - 1], f) + f(hand[|hand| - 1])
  }

  /** The total with every ace counted as 11. */
  function RawSum(hand: seq<Card>): int { Sum(hand, Pips) }

  /** The number of aces in the hand. */
  function AceCount(hand: seq<Card>): int { Sum(hand, AceMark) }

  /** The total with every ace counted as 1: the least total the hand can have. */
  function HardSum(hand: seq<Card>): int { Sum(hand, HardPips) }

  /** The `while` loop of src/cards.rs:97-100: take 10 off while the total
      exceeds 21 and some ace still counts 11. */
  function Reduce(value: int, aces: int): int
    decreases aces
  {
    if value > 21 && aces > 0 then Reduce(value - 10, aces - 1) else value
  }

  /** calculate_hand_value. */
  function HandValue(hand: seq<Card>): int {
    Reduce(RawSum(hand), AceCount(hand))
  }

  lemma {:induction false} SumConcat(a: seq<Card>, b: seq<Card>, f: Card -> int)
    ensures Sum(a + b, f) == Sum(a, f) + Sum(b, f)
  {
    if b != [] {
      assert (a + b)[..|a + b| - 1] == a + b[..|b| - 1];
      SumConcat(a, b[..|b| - 1], f);
    } else {
      assert a + b == a;
    }
  }

  /** A sum over a hand depends only on the multiset of its cards. */
  lemma {:induction false} SumPermutation(a: seq<Card>, b: seq<Card>, f: Card -> int)
    requires multiset(a) == multiset(b)
    ensures Sum(a, f) == Sum(b, f)
    decreases |a|
  {
    if a == [] {
      assert |b| == |multiset(b)| == 0;
    } else {
      var x := a[|a| - 1];
      var init := a[..|a| - 1];
      assert a == init + [x];
      assert x in multiset(b);
      var i :| 0 <= i < |b| && b[i] == x;
      assert multiset(init) == multiset(a) - multiset{x};
      RemoveAt(b, i);
      SumPermutation(init, b[..i] + b[i + 1..], f);
      SumRemoveAt(b, i, f);
    }
  }

  /** Removing the card at `i` removes one occurrence of it. */
  lemma RemoveAt(b: seq<Card>, i: int)
    requires 0 <= i < |b|
    ensures multiset(b[..i] + b[i + 1..]) == multiset(b) - multiset{b[i]}
  {
    assert b == b[..i] + [b[i]] + b[i + 1..];
    assert multiset(b) == multiset(b[..i]) + multiset{b[i]} + multiset(b[i + 1..]);
  }

  /** Removing the card at `i` takes its term out of the sum. */
  lemma SumRemoveAt(b: seq<Card>, i: int, f: Card -> int)
    requires 0 <= i < |b|
    ensures Sum(b, f) == Sum(b[..i] + b[i + 1..], f) + f(b[i])
  {
    var x := b[i];
    assert b == b[..i] + [x] + b[i + 1..];
    SumConcat(b[..i], [x], f);
    SumConcat(b[..i] + [x], b[i + 1..], f);
    SumConcat(b[..i], b[i + 1..], f);
    assert Sum([x], f) == f(x) by {
      assert [x][..0] == [];
    }
  }

  lemma {:induction false} HardSumSplit(hand: seq<Card>)
    ensures HardSum(hand) == RawSum(hand) - 10 * AceCount(hand)
    ensures 0 <= AceCount(hand) <= |hand| <= HardSum(hand)
  {
    if hand != [] {
      HardSumSplit(hand[..|hand| - 1]);
    }
  }

  /** Each card adds at most 10 to the hard total. */
  lemma HardSumAppend(hand: seq<Card>, c: Card)
    ensures HardSum(hand + [c]) <= HardSum(hand) + 10
  {
    assert (hand + [c])[..|hand|] == hand;
  }

  lemma {:induction false} ReduceSteps(value: int, aces: int) returns (k: nat)
    requires aces >= 0
    ensures k <= aces && Reduce(value, aces) == value - 10 * k
    ensures k < aces ==> Reduce(value, aces) <= 21
    ensures k > 0 ==> Reduce(value, aces) + 10 > 21
    decreases aces
  {
    if value > 21 && aces > 0 {
      var k' := ReduceSteps(value - 10, aces - 1);
      k := k' + 1;
    } else {
      k := 0;
    }
  }

  /** The loop stops at the first total that is at most 21, or once every ace
      counts 1. */
  lemma HandValueDowngrades(hand: seq<Card>) returns (k: nat)
    ensures k <= AceCount(hand) && HandValue(hand) == RawSum(hand) - 10 * k
    ensures k < AceCount(hand) ==> HandValue(hand) <= 21
    ensures k > 0 ==> HandValue(hand) + 10 > 21
  {
    HardSumSplit(hand);
    k := ReduceSteps(RawSum(hand), AceCount(hand));
  }

  /** The value is the best total: no way of counting some aces as 1 gives a
      total that is at most 21 and higher than the value. */
  lemma HandValueIsBest(hand: seq<Card>, j: int)
    requires 0 <= j <= AceCount(hand)
    requires RawSum(hand) - 10 * j <= 21
    ensures RawSum(hand) - 10 * j <= HandValue(hand) <= 21
  {
    var k := HandValueDowngrades(hand);
  }

  /** A total over 21 means every ace already counts 1, and a hand is bust
      exactly when its hard total is. */
  lemma HandValueBust(hand: seq<Card>)
    ensures HardSum(hand) <= HandValue(hand) <= RawSum(hand)
    ensures HandValue(hand) > 21 ==> HandValue(hand) == HardSum(hand)
    ensures HandValue(hand) > 21 <==> HardSum(hand) > 21
  {
    var k := HandValueDowngrades(hand);
    HardSumSplit(hand);
  }

  /** Without aces the value is the plain sum of base values (0 for an empty hand). */
  lemma HandValueNoAces(hand: seq<Card>)
    requires forall i :: 0 <= i < |hand| ==> hand[i].rank != Ace
    ensures HandValue(hand) == RawSum(hand)
    ensures hand == [] ==> HandValue(hand) == 0
  {
    NoAcesCount(hand);
  }

  lemma {:induction false} NoAcesCount(hand: seq<Card>)
    requires forall i :: 0 <= i < |hand| ==> hand[i].rank != Ace
    ensures AceCount(hand) == 0
  {
    if hand != [] {
      NoAcesCount(hand[..|hand| - 1]);
    }
  }

  /** The value does not depend on the order of the cards. */
  lemma HandValuePermutation(a: seq<Card>, b: seq<Card>)
    requires multiset(a) == multiset(b)
    ensures HandValue(a) == HandValue(b)
  {
    SumPermutation(a, b, Pips);
    SumPermutation(a, b, AceMark);
  }

  /** Two aces are worth 12: one is downgraded. Ace, Ace and Nine are worth
      21: again one ace is downgraded. */
  lemma AceExamples()
    ensures HandValue([Card(Ace, Hearts), Card(Ace, Spades)]) == 12
    ensures HandValue([Card(Ace, Hearts), Card(Ace, Spades), Card(Nine, Clubs)]) == 21
  {
    var two := [Card(Ace, Hearts), Card(Ace, Spades)];
    var three := two + [Card(Nine, Clubs)];
    assert three[..2] == two;
    assert two[..1] == [Card(Ace, Hearts)] && [Card(Ace, Hearts)][..0] == [];
    assert RawSum(two) == 22 && AceCount(two) == 2;
    assert RawSum(three) == 31 && AceCount(three) == 2;
    assert Reduce(31, 2) == Reduce(21, 1) == 21;
    assert three == [Card(Ace, Hearts), Card(Ace, Spades), Card(Nine, Clubs)];
  }

  /** calculate_hand_value as written: a `for` loop summing base values and
      counting aces, then a `while` loop downgrading aces. */
  method CalculateHandValue(hand: seq<Card>) returns (value: int)
    ensures value == HandValue(hand)
  {
    value := 0;
    var aces := 0;
    for i := 0 to |hand|
      invariant value == RawSum(hand[..i])
      invariant aces == AceCount(hand[..i])
    {
      assert hand[..i + 1][..i] == hand[..i];
      value := value + BaseValue(hand[i].rank);
      if hand[i].rank == Ace {
        aces := aces + 1;
      }
    }
    assert hand[..|hand|] == hand;
    while value > 21 && aces > 0
      invariant Reduce(value, aces) == HandValue(hand)
      decreases aces
    {
      value := value - 10;
      aces := aces - 1;
    }
  }
}
