/** The rules of the game as values: a snapshot of the `Game` aggregate of
    src/game.rs and the per-frame transition that the `match` in
    src/main.rs performs on it, together with the invariant it keeps. */
module Rules {
  import opened Cards
  import opened Hands

  /** The phase of src/game.rs:3-11. */
  datatype GameState = Menu | PlayerTurn | DealerTurn | PlayerWon | DealerWon | Tie

  /** The key a frame reacts to; `NoKey` when none of the polled keys is pressed. */
  datatype Key = NoKey | Enter | Space | R

  predicate IsOver(s: GameState) {
    s == PlayerWon || s == DealerWon || s == Tie
  }

  /** The fields of a `Game`, with the two hand wrappers unwrapped. */
  datatype Table = Table(state: GameState, deck: seq<Card>, player: seq<Card>, dealer: seq<Card>)

  /** Every card the table holds, in the deck or in a hand. */
  function AllCards(t: Table): seq<Card> {
    t.deck + t.player + t.dealer
  }

  /** player_hit: move the deck's last card to the end of the player hand. */
  function HitPlayer(t: Table): (u: Table)
    ensures u.state == t.state && u.dealer == t.dealer
    ensures |u.player| == |t.player| + (if t.deck == [] then 0 else 1)
  {
    if t.deck == [] then t
    else t.(deck := t.deck[..|t.deck| - 1], player := t.player + [t.deck[|t.deck| - 1]])
  }

  /** dealer_hit: move the deck's last card to the end of the dealer hand. */
  function HitDealer(t: Table): (u: Table)
    ensures u.state == t.state && u.player == t.player
    ensures |u.dealer| == |t.dealer| + (if t.deck == [] then 0 else 1)
  {
    if t.deck == [] then t
    else t.(deck := t.deck[..|t.deck| - 1], dealer := t.dealer + [t.deck[|t.deck| - 1]])
  }

  /** A hit moves a card and neither loses nor gains one. */
  lemma HitsKeepCards(t: Table)
    ensures multiset(AllCards(HitPlayer(t))) == multiset(AllCards(t))
    ensures multiset(AllCards(HitDealer(t))) == multiset(AllCards(t))
  {
    if t.deck != [] {
      var n := |t.deck|;
      assert t.deck == t.deck[..n - 1] + [t.deck[n - 1]];
    }
  }

  /** One round of the opening deal: a player hit, then a dealer hit. */
  function DealRound(t: Table): Table {
    HitDealer(HitPlayer(t))
  }

  /** `n` rounds of the opening deal. */
  function Deal(t: Table, n: nat): Table {
    if n == 0 then t else DealRound(Deal(t, n - 1))
  }

  /** reset: a fresh deck and empty hands; the phase is left as it was. */
  function Reset(t: Table, shuffled: seq<Card>): Table {
    t.(deck := shuffled, player := [], dealer := [])
  }

  /** The comparison that ends the dealer's turn (src/main.rs:117-123). */
  function Outcome(player: int, dealer: int): (g: GameState)
    ensures IsOver(g)
    ensures g == PlayerWon <==> dealer > 21 || player > dealer
    ensures g == DealerWon <==> dealer <= 21 && dealer > player
    ensures g == Tie <==> dealer <= 21 && dealer == player
  {
    if dealer > 21 || player > dealer then PlayerWon
    else if dealer > player then DealerWon
    else Tie
  }

  function Reversed(s: seq<Card>): (r: seq<Card>)
    ensures |r| == |s|
  {
    if s == [] then [] else [s[|s| - 1]] + Reversed(s[..|s| - 1])
  }

  /** The cards in deck and dealer hand reach 17 even with every ace counted
      as 1. This is a sufficient bound for the dealer's drawing loop to stop
      before the deck runs out, not the exact condition under which it stops:
      `HardTotalIsOnlySufficient` shows a table outside it on which the loop
      stops at once. */
  ghost predicate HardTotalReaches17(deck: seq<Card>, dealer: seq<Card>) {
    HardSum(deck) + HardSum(dealer) >= 17
  }

  lemma HardSumPop(s: seq<Card>)
    requires s != []
    ensures HardSum(s) == HardSum(s[..|s| - 1]) + HardPips(s[|s| - 1])
  {
  }

  /** The loop of src/main.rs:110-112: the dealer draws from the end of the
      deck while the dealer value is below 17. Returns the new deck and hand;
      whenever the drawing stops, the dealer value is at least 17. */
  function DealerDraw(deck: seq<Card>, dealer: seq<Card>): (r: (seq<Card>, seq<Card>))
    requires HardTotalReaches17(deck, dealer)
    ensures HandValue(r.1) >= 17
    decreases |deck|
  {
    if HandValue(dealer) >= 17 then (deck, dealer)
    else
      DealerDrawStep(deck, dealer);
      DealerDraw(deck[..|deck| - 1], dealer + [deck[|deck| - 1]])
  }

  /** Below 17 there is a card left to draw, and drawing it keeps the
      cards' hard total. */
  lemma DealerDrawStep(deck: seq<Card>, dealer: seq<Card>)
    requires HardTotalReaches17(deck, dealer) && HandValue(dealer) < 17
    ensures deck != []
    ensures HardTotalReaches17(deck[..|deck| - 1], dealer + [deck[|deck| - 1]])
  {
    HandValueBust(dealer);
    var top := deck[|deck| - 1];
    HardSumPop(deck);
    assert (dealer + [top])[..|dealer|] == dealer;
    HardSumPop(dealer + [top]);
  }

  /** The drawn cards come off the end of the deck, last card first. */
  lemma {:induction false} DealerDrawTakesFromTop(deck: seq<Card>, dealer: seq<Card>)
    requires HardTotalReaches17(deck, dealer)
    ensures var r := DealerDraw(deck, dealer);
      && |r.0| <= |deck| && r.0 == deck[..|r.0|]
      && r.1 == dealer + Reversed(deck[|r.0|..])
    decreases |deck|
  {
    if HandValue(dealer) >= 17 {
      assert deck[|deck|..] == [];
    } else {
      DealerDrawStep(deck, dealer);
      var rest, top := deck[..|deck| - 1], deck[|deck| - 1];
      DealerDrawTakesFromTop(rest, dealer + [top]);
      var r := DealerDraw(rest, dealer + [top]);
      assert DealerDraw(deck, dealer) == r;
      DrawnFromTop(deck, dealer, r.0, r.1);
    }
  }

  /** If what stays of the deck without its last card is a prefix, and the
      hand that took that card got the rest reversed, then the hand before
      that card got the deck's corresponding suffix reversed. */
  lemma DrawnFromTop(deck: seq<Card>, dealer: seq<Card>, kept: seq<Card>, hand: seq<Card>)
    requires deck != []
    requires |kept| <= |deck| - 1 && kept == deck[..|deck| - 1][..|kept|]
    requires hand == dealer + [deck[|deck| - 1]] + Reversed(deck[..|deck| - 1][|kept|..])
    ensures kept == deck[..|kept|]
    ensures hand == dealer + Reversed(deck[|kept|..])
  {
    var rest, top, k := deck[..|deck| - 1], deck[|deck| - 1], |kept|;
    assert deck[k..] == rest[k..] + [top];
    ReversedSnoc(rest[k..], top);
  }

  lemma ReversedSnoc(s: seq<Card>, x: Card)
    ensures Reversed(s + [x]) == [x] + Reversed(s)
  {
    assert (s + [x])[..|s|] == s;
  }

  /** Drawing neither loses nor gains a card. */
  lemma {:induction false} DealerDrawKeepsCards(deck: seq<Card>, dealer: seq<Card>)
    requires HardTotalReaches17(deck, dealer)
    ensures var r := DealerDraw(deck, dealer);
      multiset(r.0) + multiset(r.1) == multiset(deck) + multiset(dealer)
    decreases |deck|
  {
    if HandValue(dealer) < 17 {
      DealerDrawStep(deck, dealer);
      var rest, top := deck[..|deck| - 1], deck[|deck| - 1];
      DealerDrawKeepsCards(rest, dealer + [top]);
      assert DealerDraw(deck, dealer) == DealerDraw(rest, dealer + [top]);
      MoveTopKeeps(deck, dealer);
    }
  }

  /** Moving the deck's last card to a hand keeps the multiset of both. */
  lemma MoveTopKeeps(deck: seq<Card>, hand: seq<Card>)
    requires deck != []
    ensures multiset(deck[..|deck| - 1]) + multiset(hand + [deck[|deck| - 1]])
            == multiset(deck) + multiset(hand)
  {
    assert deck == deck[..|deck| - 1] + [deck[|deck| - 1]];
  }

  /** The dealer draws only while the dealer value is below 17: every hand
      the dealer held before the last draw was below 17. */
  lemma {:induction false} DealerDrawOnlyBelow17(deck: seq<Card>, dealer: seq<Card>)
    requires HardTotalReaches17(deck, dealer)
    ensures var r := DealerDraw(deck, dealer);
      && |dealer| <= |r.1| && r.1[..|dealer|] == dealer
      && forall k :: |dealer| <= k < |r.1| ==> HandValue(r.1[..k]) < 17
    decreases |deck|
  {
    var r := DealerDraw(deck, dealer);
    if HandValue(dealer) < 17 {
      DealerDrawStep(deck, dealer);
      var next := dealer + [deck[|deck| - 1]];
      DealerDrawOnlyBelow17(deck[..|deck| - 1], next);
      assert r.1[..|next|] == next;
      assert r.1[..|dealer|] == next[..|dealer|] == dealer;
      forall k | |dealer| <= k < |r.1| ensures HandValue(r.1[..k]) < 17 {
        if k == |dealer| {
          assert r.1[..k] == dealer;
        }
      }
    }
  }

  /** One pass of the `match game.game_state` in src/main.rs's frame loop.
      `shuffled` is the deck Deck::new produces if this frame resets. */
  function Frame(t: Table, key: Key, shuffled: seq<Card>): Table
    requires t.state == DealerTurn ==> HardTotalReaches17(t.deck, t.dealer)
  {
    match t.state
    case Menu =>
      if key == Enter then Deal(t, 2).(state := PlayerTurn) else t
    case PlayerTurn =>
      // The bust check uses the value computed before this frame's hit.
      var checked := if HandValue(t.player) > 21 then t.(state := DealerWon) else t;
      if key == Space then HitPlayer(checked)
      else if key == Enter then checked.(state := DealerTurn)
      else checked
    case DealerTurn =>
      var (deck, dealer) := DealerDraw(t.deck, t.dealer);
      Table(Outcome(HandValue(t.player), HandValue(dealer)), deck, t.player, dealer)
    case _ =>
      if key == R then Reset(t, shuffled).(state := Menu) else t
  }

  /** What every reachable table satisfies: the 52 cards are conserved, the
      menu has empty hands, the dealer holds two cards while the player plays,
      and the player's hard total is at most 21 plus one card. */
  ghost predicate Inv(t: Table) {
    && IsFullDeck(AllCards(t))
    && (t.state == Menu ==> t.player == [] && t.dealer == [])
    && (t.state == PlayerTurn ==> |t.dealer| == 2)
    && (t.state == PlayerTurn || t.state == DealerTurn ==> HardSum(t.player) <= 31)
  }

  lemma AllCardsHardSum(t: Table)
    ensures HardSum(AllCards(t)) == HardSum(t.deck) + HardSum(t.player) + HardSum(t.dealer)
  {
    SumConcat(t.deck, t.player, HardPips);
    SumConcat(t.deck + t.player, t.dealer, HardPips);
  }

  /** Card conservation makes the dealer's loop terminate. */
  lemma InvHardTotalReaches17(t: Table)
    requires Inv(t) && t.state == DealerTurn
    ensures HardTotalReaches17(t.deck, t.dealer)
  {
    FullDeckFacts(AllCards(t));
    HardSumSplit(AllCards(t));
    AllCardsHardSum(t);
  }

  /** In the menu the deck is full; while the player plays it has at least 19 cards. */
  lemma InvDeckSize(t: Table)
    requires Inv(t)
    ensures t.state == Menu ==> |t.deck| == 52
    ensures t.state == PlayerTurn ==> |t.deck| >= 19
  {
    FullDeckFacts(AllCards(t));
    HardSumSplit(t.player);
  }

  /** Menu + Enter deals player, dealer, player, dealer from the end of the
      deck; any other key leaves the table as it is. */
  lemma MenuFrame(t: Table, key: Key, shuffled: seq<Card>)
    requires t.state == Menu
    ensures key != Enter ==> Frame(t, key, shuffled) == t
    ensures key == Enter && |t.deck| >= 4 ==>
      var d, n := t.deck, |t.deck|;
      Frame(t, key, shuffled) ==
        Table(PlayerTurn, d[..n - 4], t.player + [d[n - 1], d[n - 3]], t.dealer + [d[n - 2], d[n - 4]])
  {
    if key == Enter && |t.deck| >= 4 {
      var d, n := t.deck, |t.deck|;
      assert Deal(t, 1) == t.(deck := d[..n - 2], player := t.player + [d[n - 1]],
                              dealer := t.dealer + [d[n - 2]]);
      assert d[..n - 2][..n - 3] == d[..n - 3];
      assert d[..n - 3][..n - 4] == d[..n - 4];
      assert (t.player + [d[n - 1]]) + [d[n - 3]] == t.player + [d[n - 1], d[n - 3]];
      assert (t.dealer + [d[n - 2]]) + [d[n - 4]] == t.dealer + [d[n - 2], d[n - 4]];
    }
  }

  /** The player's turn as written: the bust check looks at the value from
      before this frame's hit, Space hits even after a bust was flagged, and
      Enter replaces a flagged DealerWon by DealerTurn. */
  lemma PlayerTurnFrame(t: Table, key: Key, shuffled: seq<Card>)
    requires t.state == PlayerTurn
    ensures var u := Frame(t, key, shuffled);
      && u.state == (if key == Enter then DealerTurn
                     else if HandValue(t.player) > 21 then DealerWon
                     else PlayerTurn)
      && u.dealer == t.dealer
      && (key == Space && t.deck != [] ==>
            u.deck == t.deck[..|t.deck| - 1] && u.player == t.player + [t.deck[|t.deck| - 1]])
      && (key != Space ==> u.deck == t.deck && u.player == t.player)
  {
  }

  /** On a reachable table, Space during the player's turn always adds
      exactly one card to the player hand. */
  lemma PlayerHitDraws(t: Table, shuffled: seq<Card>)
    requires Inv(t) && t.state == PlayerTurn
    ensures |Frame(t, Space, shuffled).player| == |t.player| + 1
    ensures |Frame(t, Space, shuffled).deck| == |t.deck| - 1
  {
    InvDeckSize(t);
  }

  /** The dealer's turn: the dealer draws only while below 17, stops at 17 or
      more, the player hand is untouched, and the phase becomes the outcome. */
  lemma DealerTurnFrame(t: Table, key: Key, shuffled: seq<Card>)
    requires Inv(t) && t.state == DealerTurn
    ensures HardTotalReaches17(t.deck, t.dealer)
    ensures var u := Frame(t, key, shuffled);
      && u.player == t.player
      && HandValue(u.dealer) >= 17
      && |u.deck| <= |t.deck| && u.deck == t.deck[..|u.deck|]
      && u.dealer == t.dealer + Reversed(t.deck[|u.deck|..])
      && (forall k :: |t.dealer| <= k < |u.dealer| ==> HandValue(u.dealer[..k]) < 17)
      && u.state == Outcome(HandValue(u.player), HandValue(u.dealer))
  {
    InvHardTotalReaches17(t);
    DealerDrawTakesFromTop(t.deck, t.dealer);
    DealerDrawOnlyBelow17(t.deck, t.dealer);
  }

  /** After the round, R resets the table to the menu with a fresh deck and
      empty hands; any other key leaves it as it is. */
  lemma OverFrame(t: Table, key: Key, shuffled: seq<Card>)
    requires IsOver(t.state)
    ensures key == R ==> Frame(t, key, shuffled) == Table(Menu, shuffled, [], [])
    ensures key != R ==> Frame(t, key, shuffled) == t
  {
  }

  lemma RoundKeepsCards(t: Table)
    ensures multiset(AllCards(DealRound(t))) == multiset(AllCards(t))
  {
    HitsKeepCards(t);
    HitsKeepCards(HitPlayer(t));
  }

  lemma OpeningDealKeepsCards(t: Table)
    ensures multiset(AllCards(Deal(t, 2))) == multiset(AllCards(t))
  {
    assert Deal(t, 1) == DealRound(t);
    RoundKeepsCards(t);
    RoundKeepsCards(DealRound(t));
  }

  lemma MenuKeepsInv(t: Table, key: Key, shuffled: seq<Card>)
    requires Inv(t) && t.state == Menu
    ensures Inv(Frame(t, key, shuffled))
  {
    if key == Enter {
      InvDeckSize(t);
      MenuFrame(t, key, shuffled);
      var d := t.deck;
      var n := |d|;
      var u := Frame(t, key, shuffled);
      assert u.player == [d[n - 1]] + [d[n - 3]];
      HardSumAppend([], d[n - 1]);
      assert [] + [d[n - 1]] == [d[n - 1]];
      HardSumAppend([d[n - 1]], d[n - 3]);
      OpeningDealKeepsCards(t);
      assert AllCards(u) == AllCards(Deal(t, 2));
      FullDeckPermutation(AllCards(t), AllCards(u));
    }
  }

  lemma PlayerTurnKeepsInv(t: Table, key: Key, shuffled: seq<Card>)
    requires Inv(t) && t.state == PlayerTurn
    ensures Inv(Frame(t, key, shuffled))
  {
    var checked := if HandValue(t.player) > 21 then t.(state := DealerWon) else t;
    if key == Space {
      HitsKeepCards(checked);
      FullDeckPermutation(AllCards(t), AllCards(HitPlayer(checked)));
      if HandValue(t.player) <= 21 && t.deck != [] {
        HandValueBust(t.player);
        HardSumAppend(t.player, t.deck[|t.deck| - 1]);
      }
    }
  }

  lemma DealerTurnKeepsInv(t: Table, key: Key, shuffled: seq<Card>)
    requires Inv(t) && t.state == DealerTurn
    ensures HardTotalReaches17(t.deck, t.dealer)
    ensures Inv(Frame(t, key, shuffled))
  {
    InvHardTotalReaches17(t);
    var r := DealerDraw(t.deck, t.dealer);
    DealerDrawKeepsCards(t.deck, t.dealer);
    var u := Frame(t, key, shuffled);
    assert u.deck == r.0 && u.dealer == r.1 && u.player == t.player;
    forall c: Card ensures multiset(AllCards(u))[c] == 1 {
      assert multiset(AllCards(u))[c] == multiset(r.0)[c] + multiset(t.player)[c] + multiset(r.1)[c];
      assert (multiset(r.0) + multiset(r.1))[c] == (multiset(t.deck) + multiset(t.dealer))[c];
      assert multiset(AllCards(t))[c] == multiset(t.deck)[c] + multiset(t.player)[c] + multiset(t.dealer)[c];
    }
  }

  /** Every frame keeps the invariant, so a frame can always be taken again. */
  lemma FramePreservesInv(t: Table, key: Key, shuffled: seq<Card>)
    requires Inv(t)
    requires IsOver(t.state) && key == R ==> IsFullDeck(shuffled)
    ensures t.state == DealerTurn ==> HardTotalReaches17(t.deck, t.dealer)
    ensures Inv(Frame(t, key, shuffled))
  {
    match t.state
    case Menu => MenuKeepsInv(t, key, shuffled);
    case PlayerTurn => PlayerTurnKeepsInv(t, key, shuffled);
    case DealerTurn => DealerTurnKeepsInv(t, key, shuffled);
    case _ =>
      if key == R {
        assert AllCards(Frame(t, key, shuffled)) == shuffled;
      }
  }

  /** Because of the late bust check, a player whose hand is over 21 can
      still be declared the winner: Enter during the player's turn sends a
      busted hand to the dealer's turn, and the comparison there does not
      look at whether the player is bust. */
  lemma BustedPlayerCanWin(t: Table, shuffled: seq<Card>)
    requires Inv(t) && t.state == PlayerTurn
    requires HandValue(t.player) > 21
    requires 17 <= HandValue(t.dealer) < HandValue(t.player)
    ensures var u := Frame(t, Enter, shuffled);
      && u.state == DealerTurn
      && HardTotalReaches17(u.deck, u.dealer)
      && Frame(u, NoKey, shuffled).state == PlayerWon
      && HandValue(Frame(u, NoKey, shuffled).player) > 21
  {
    var u := Frame(t, Enter, shuffled);
    FramePreservesInv(t, Enter, shuffled);
    InvHardTotalReaches17(u);
    assert u.dealer == t.dealer;
    assert DealerDraw(u.deck, u.dealer) == (u.deck, u.dealer) by {
      assert u.deck[|u.deck|..] == [];
    }
  }

  /** A dealer on 16 draws a Five to reach 21 against the player's Ace and
      King: the round is a tie. */
  lemma TieScenario(shuffled: seq<Card>)
    ensures var t := Table(DealerTurn, [Card(Five, Clubs)],
                           [Card(Ace, Hearts), Card(King, Hearts)],
                           [Card(Nine, Spades), Card(Seven, Spades)]);
      && HardTotalReaches17(t.deck, t.dealer)
      && Frame(t, NoKey, shuffled) ==
           Table(Tie, [], t.player, [Card(Nine, Spades), Card(Seven, Spades), Card(Five, Clubs)])
  {
    var dealer := [Card(Nine, Spades), Card(Seven, Spades)];
    var drawn := dealer + [Card(Five, Clubs)];
    assert [Card(Ace, Hearts), Card(King, Hearts)][..1] == [Card(Ace, Hearts)];
    assert [Card(Ace, Hearts)][..0] == [];
    assert HandValue([Card(Ace, Hearts), Card(King, Hearts)]) == 21;
    assert drawn[..2] == dealer && dealer[..1] == [Card(Nine, Spades)];
    assert [Card(Nine, Spades)][..0] == [];
    assert HandValue(dealer) == 16;
    assert HandValue(drawn) == 21;
    assert [Card(Five, Clubs)][..0] == [];
  }

  /** A player on 19 who hits a King is still in the player's turn after
      that frame; the bust is noticed only on the next frame. */
  lemma LateBustScenario(dealer: seq<Card>, shuffled: seq<Card>)
    ensures var t := Table(PlayerTurn, [Card(King, Clubs)],
                           [Card(Ten, Hearts), Card(Nine, Hearts)], dealer);
      var u := Frame(t, Space, shuffled);
      && u == Table(PlayerTurn, [], [Card(Ten, Hearts), Card(Nine, Hearts), Card(King, Clubs)], dealer)
      && HandValue(u.player) == 29
      && Frame(u, NoKey, shuffled).state == DealerWon
  {
    var hand := [Card(Ten, Hearts), Card(Nine, Hearts), Card(King, Clubs)];
    assert hand[..2] == [Card(Ten, Hearts), Card(Nine, Hearts)];
    assert hand[..2][..1] == [Card(Ten, Hearts)] && [Card(Ten, Hearts)][..0] == [];
    assert HandValue([Card(Ten, Hearts), Card(Nine, Hearts)]) == 19;
    assert HandValue([Card(Ten, Hearts), Card(Nine, Hearts), Card(King, Clubs)]) == 29;
  }

  /** A dealer on Ace and Six holds 17, so the dealer's loop does not run even
      with an empty deck, yet the hard total is only 7: the bound that `Frame`
      requires excludes some tables on which the loop would also stop. */
  lemma HardTotalIsOnlySufficient()
    ensures HandValue([Card(Ace, Hearts), Card(Six, Hearts)]) == 17
    ensures !HardTotalReaches17([], [Card(Ace, Hearts), Card(Six, Hearts)])
  {
    var hand := [Card(Ace, Hearts), Card(Six, Hearts)];
    assert hand[..1] == [Card(Ace, Hearts)] && [Card(Ace, Hearts)][..0] == [];
  }

  /** A player standing on Ten and Nine wins against a dealer on 16 who draws
      a King and busts. */
  lemma PlayerWonScenario(shuffled: seq<Card>)
    ensures var t := Table(DealerTurn, [Card(King, Clubs)],
                           [Card(Ten, Hearts), Card(Nine, Hearts)],
                           [Card(Ten, Spades), Card(Six, Spades)]);
      && HardTotalReaches17(t.deck, t.dealer)
      && Frame(t, NoKey, shuffled) ==
           Table(PlayerWon, [], t.player, [Card(Ten, Spades), Card(Six, Spades), Card(King, Clubs)])
  {
    var player := [Card(Ten, Hearts), Card(Nine, Hearts)];
    var dealer := [Card(Ten, Spades), Card(Six, Spades)];
    var drawn := dealer + [Card(King, Clubs)];
    assert player[..1] == [Card(Ten, Hearts)] && [Card(Ten, Hearts)][..0] == [];
    assert HandValue(player) == 19;
    assert drawn[..2] == dealer && dealer[..1] == [Card(Ten, Spades)];
    assert [Card(Ten, Spades)][..0] == [];
    assert HandValue(dealer) == 16;
    assert HandValue(drawn) == 26;
    assert [Card(King, Clubs)][..0] == [];
  }
}
