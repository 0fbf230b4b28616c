/** The `Game` aggregate of src/game.rs as an object whose methods update
    its fields in place, and the per-frame step that the `match` in
    src/main.rs performs on it (rendering and key polling stripped). */
module Blackjack {
  import opened Cards
  import opened Hands
  import opened Rules

  class Game {
    var state: GameState
    var deck: Deck
    var playerHand: seq<Card>
    var dealerHand: seq<Card>

    /** The game's fields as a value. */
    ghost function Snapshot(): Table
      reads this, deck
    {
      Table(state, deck.cards, playerHand, dealerHand)
    }

    ghost predicate Valid()
      reads this, deck
    {
      Inv(Snapshot())
    }

    /** Game::new: the menu, a fresh shuffled deck and two empty hands. */
    constructor ()
      ensures Valid() && fresh(deck)
      ensures state == Menu && playerHand == [] && dealerHand == []
      ensures IsFullDeck(deck.cards) && |deck.cards| == 52
    {
      state := Menu;
      deck := new Deck();
      playerHand := [];
      dealerHand := [];
      new;
      assert AllCards(Snapshot()) == deck.cards;
    }

    /** player_hit: draw from the deck into the player hand, if a card is left. */
    method PlayerHit()
      modifies this`playerHand, deck
      ensures Snapshot() == HitPlayer(old(Snapshot()))
    {
      var card := deck.Draw();
      if card.Some? {
        playerHand := playerHand + [card.value];
      }
    }

    /** dealer_hit: draw from the deck into the dealer hand, if a card is left. */
    method DealerHit()
      modifies this`dealerHand, deck
      ensures Snapshot() == HitDealer(old(Snapshot()))
    {
      var card := deck.Draw();
      if card.Some? {
        dealerHand := dealerHand + [card.value];
      }
    }

    /** calculate_player_value. */
    method CalculatePlayerValue() returns (value: int)
      ensures value == HandValue(playerHand)
    {
      value := CalculateHandValue(playerHand);
    }

    /** calculate_dealer_value. */
    method CalculateDealerValue() returns (value: int)
      ensures value == HandValue(dealerHand)
    {
      value := CalculateHandValue(dealerHand);
    }

    /** reset: a new shuffled deck and cleared hands; the phase is kept, the
        caller sets it to Menu. */
    method Reset()
      modifies this
      ensures fresh(deck) && IsFullDeck(deck.cards) && |deck.cards| == 52
      ensures playerHand == [] && dealerHand == []
      ensures state == old(state)
    {
      deck := new Deck();
      playerHand := [];
      dealerHand := [];
    }

    /** The opening deal of src/main.rs:42-45: player, dealer, player, dealer. */
    method OpeningDeal()
      modifies this`playerHand, this`dealerHand, deck
      ensures Snapshot() == Deal(old(Snapshot()), 2)
    {
      ghost var before := Snapshot();
      for i := 0 to 2
        invariant deck == old(deck)
        invariant Snapshot() == Deal(before, i)
      {
        PlayerHit();
        DealerHit();
      }
    }

    /** The dealer's turn of src/main.rs:110-123: the dealer draws while below
        17, then the two values decide the phase. */
    method DealerPlays()
      requires Valid() && state == DealerTurn
      modifies this`dealerHand, this`state, deck
      ensures HardTotalReaches17(old(deck.cards), old(dealerHand))
      ensures (deck.cards, dealerHand) == DealerDraw(old(deck.cards), old(dealerHand))
      ensures state == Outcome(HandValue(playerHand), HandValue(dealerHand))
    {
      InvHardTotalReaches17(Snapshot());
      ghost var start := (deck.cards, dealerHand);
      var dealerValue := CalculateDealerValue();
      while dealerValue < 17
        invariant HardTotalReaches17(deck.cards, dealerHand)
        invariant DealerDraw(deck.cards, dealerHand) == DealerDraw(start.0, start.1)
        invariant dealerValue == HandValue(dealerHand)
        decreases |deck.cards|
      {
        DealerDrawStep(deck.cards, dealerHand);
        DealerHit();
        dealerValue := CalculateDealerValue();
      }
      var playerValue := CalculatePlayerValue();
      dealerValue := CalculateDealerValue();
      if dealerValue > 21 || playerValue > dealerValue {
        state := PlayerWon;
      } else if dealerValue > playerValue {
        state := DealerWon;
      } else {
        state := Tie;
      }
    }

    /** One frame of src/main.rs's loop, reacting to `key`. On a valid game
        it does what `Frame` says, where the deck after a reset is whatever
        Deck::new shuffled, and it keeps the game valid. */
    method Step(key: Key)
      requires Valid()
      modifies this, deck
      ensures old(state) == DealerTurn ==> HardTotalReaches17(old(deck.cards), old(dealerHand))
      ensures Snapshot() == Frame(old(Snapshot()), key, deck.cards)
      ensures Valid()
    {
      ghost var before := Snapshot();
      match state {
        case Menu =>
          if key == Enter {
            OpeningDeal();
            state := PlayerTurn;
          }
        case PlayerTurn =>
          var playerValue := CalculatePlayerValue();
          if playerValue > 21 {
            state := DealerWon;
          }
          if key == Space {
            PlayerHit();
          } else if key == Enter {
            state := DealerTurn;
          }
        case DealerTurn =>
          DealerPlays();
        case _ =>
          if key == R {
            Reset();
            state := Menu;
          }
      }
      FramePreservesInv(before, key, deck.cards);
    }
  }
}
