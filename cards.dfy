/** The card model of src/cards.rs: suits, ranks, cards, the 52-card
    domain and the deck that is built from it and drawn from. */
module Cards {

  datatype Option<T> = None | Some(value: T)

  datatype Suit = Hearts | Diamonds | Clubs | Spades

  datatype Rank = Two | Three | Four | Five | Six | Seven | Eight | Nine | Ten
                | Jack | Queen | King | Ace

  datatype Card = Card(rank: Rank, suit: Suit)

  /** The suits in the order the deck constructor visits them (outer loop). */
  const Suits: seq<Suit> := [Hearts, Diamonds, Clubs, Spades]

  /** The ranks in the order the deck constructor visits them (inner loop). */
  const Ranks: seq<Rank> := [Two, Three, Four, Five, Six, Seven, Eight, Nine, Ten,
                             Jack, Queen, King, Ace]

  /** Position of a rank in `Ranks`. */
  function RankIndex(r: Rank): (i: nat)
    ensures i < |Ranks| && Ranks[i] == r
  {
    match r
    case Two => 0  case Three => 1  case Four => 2  case Five => 3
    case Six => 4  case Seven => 5  case Eight => 6  case Nine => 7
    case Ten => 8  case Jack => 9  case Queen => 10  case King => 11
    case Ace => 12
  }

  /** Position of a suit in `Suits`. */
  function SuitIndex(s: Suit): (i: nat)
    ensures i < |Suits| && Suits[i] == s
  {
    match s
    case Hearts => 0  case Diamonds => 1  case Clubs => 2  case Spades => 3
  }

  /** The row of thirteen cards the inner loop pushes for one suit. */
  function Row(s: Suit): (row: seq<Card>)
    ensures |row| == |Ranks|
  {
    seq(|Ranks|, k requires 0 <= k < |Ranks| => Card(Ranks[k], s))
  }

  /** The rows of the first `n` suits, in the order the nested loops push them. */
  function Rows(n: nat): (cards: seq<Card>)
    requires n <= |Suits|
    ensures |cards| == n * |Ranks|
  {
    if n == 0 then [] else Rows(n - 1) + Row(Suits[n - 1])
  }

  /** The unshuffled deck: every suit's row of ranks, suit by suit. */
  function FreshOrder(): seq<Card> {
    Rows(|Suits|)
  }

  /** Every card of the 52-card domain occurs exactly once in `cards`. */
  ghost predicate IsFullDeck(cards: seq<Card>) {
    forall c: Card :: multiset(cards)[c] == 1
  }

  /** No rank occurs twice in `Ranks`. */
  lemma RankIndexOfRanks(k: nat)
    requires k < |Ranks|
    ensures RankIndex(Ranks[k]) == k
  {
  }

  /** No suit occurs twice in `Suits`. */
  lemma SuitIndexOfSuits(k: nat)
    requires k < |Suits|
    ensures SuitIndex(Suits[k]) == k
  {
  }

  /** In a sequence without repetitions every element occurs once. */
  lemma {:induction false} DistinctCount<T>(xs: seq<T>, x: T)
    requires forall i, j :: 0 <= i < j < |xs| ==> xs[i] != xs[j]
    ensures multiset(xs)[x] == if x in xs then 1 else 0
  {
    if xs != [] {
      var init := xs[..|xs| - 1];
      assert xs == init + [xs[|xs| - 1]];
      DistinctCount(init, x);
      assert xs[|xs| - 1] !in init;
    }
  }

  lemma RowCount(s: Suit, c: Card)
    ensures multiset(Row(s))[c] == if c.suit == s then 1 else 0
  {
    var row := Row(s);
    forall i, j | 0 <= i < j < |row| ensures row[i] != row[j] {
      RankIndexOfRanks(i);
      RankIndexOfRanks(j);
    }
    DistinctCount(row, c);
    if c.suit == s {
      assert row[RankIndex(c.rank)] == c;
    }
  }

  lemma {:induction false} RowsCount(n: nat, c: Card)
    requires n <= |Suits|
    ensures multiset(Rows(n))[c] == if SuitIndex(c.suit) < n then 1 else 0
  {
    if n > 0 {
      var s := Suits[n - 1];
      RowsCount(n - 1, c);
      RowCount(s, c);
      assert Rows(n) == Rows(n - 1) + Row(s);
      assert multiset(Rows(n))[c] == multiset(Rows(n - 1))[c] + multiset(Row(s))[c];
      SuitIndexOfSuits(n - 1);
    }
  }

  /** The nested loops visit every (rank, suit) pair exactly once. */
  lemma FreshOrderIsFull()
    ensures |FreshOrder()| == 52
    ensures IsFullDeck(FreshOrder())
  {
    forall c: Card ensures multiset(FreshOrder())[c] == 1 {
      RowsCount(|Suits|, c);
    }
  }

  /** A full deck is a permutation of the fresh order, so it has 52 cards. */
  lemma FullDeckFacts(cards: seq<Card>)
    requires IsFullDeck(cards)
    ensures multiset(cards) == multiset(FreshOrder())
    ensures |cards| == 52
  {
    FreshOrderIsFull();
    assert multiset(cards) == multiset(FreshOrder());
    assert |cards| == |multiset(cards)|;
  }

  /** Being the full deck depends only on the multiset of cards. */
  lemma FullDeckPermutation(a: seq<Card>, b: seq<Card>)
    requires IsFullDeck(a) && multiset(a) == multiset(b)
    ensures IsFullDeck(b)
  {
  }

  /** The shuffle of src/cards.rs:63-64: a Fisher-Yates pass that swaps
      position `i` with an arbitrary position `j <= i`, from the end down.
      The random generator is abstracted into the nondeterministic choice
      of `j`, so the result is some permutation of the input. */
  method Shuffle(cards: seq<Card>) returns (shuffled: seq<Card>)
    ensures |shuffled| == |cards|
    ensures multiset(shuffled) == multiset(cards)
  {
    shuffled := cards;
    var i := |shuffled|;
    while i > 1
      invariant 0 <= i <= |shuffled| == |cards|
      invariant multiset(shuffled) == multiset(cards)
    {
      i := i - 1;
      var j :| 0 <= j <= i;
      shuffled := shuffled[i := shuffled[j]][j := shuffled[i]];
    }
  }

  /** The deck of src/cards.rs:35: a vector of cards whose "top" is its end. */
  class Deck {
    var cards: seq<Card>

    /** Deck::new: push the 13 ranks of each of the 4 suits, then shuffle. */
    constructor ()
      ensures IsFullDeck(cards) && |cards| == 52
    {
      var built: seq<Card> := [];
      for i := 0 to |Suits|
        invariant built == Rows(i)
      {
        for j := 0 to |Ranks|
          invariant built == Rows(i) + Row(Suits[i])[..j]
        {
          built := built + [Card(Ranks[j], Suits[i])];
        }
      }
      var shuffled := Shuffle(built);
      FreshOrderIsFull();
      cards := shuffled;
    }

    /** Deck::draw: pop the last card, or report that there is none. */
    method Draw() returns (top: Option<Card>)
      modifies this
      ensures old(cards) == [] ==> top == None && cards == []
      ensures old(cards) != [] ==>
        top == Some(old(cards)[|old(cards)| - 1]) && cards == old(cards)[..|old(cards)| - 1]
    {
      if cards == [] {
        top := None;
      } else {
        top := Some(cards[|cards| - 1]);
        cards := cards[..|cards| - 1];
      }
    }
  }
}
