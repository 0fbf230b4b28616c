# Blackjack rules in Dafny

A model of the rules layer of a small Rust Blackjack game: the card and deck
model and the hand evaluator of `src/cards.rs`, the `Game` aggregate of
`src/game.rs`, and the phase transitions that the frame loop of `src/main.rs`
performs once per frame inside its `match game.game_state`.

Files and modules:

- `cards.dfy` (module `Cards`): suits, ranks, cards, the 52-card domain in the
  order the nested loops of `Deck::new` push it, a Fisher-Yates shuffle whose
  random index is a nondeterministic choice, and the `Deck` class with its
  constructor and `Draw`.
- `hands.dfy` (module `Hands`): `calculate_hand_value` as a specification
  function `HandValue` (raw total with aces at 11, then the ace downgrades)
  and as the loop-based method `CalculateHandValue` proved equal to it, with
  lemmas on the least number of downgrades, bust, ace-free hands and order
  independence.
- `card_images.dfy` (module `CardImages`): `card_image_filename` and a parser
  that inverts it, which shows that distinct cards get distinct files.
- `rules.dfy` (module `Rules`): the game's fields as a value (`Table`), the
  hits, the opening deal, the dealer's drawing loop (`DealerDraw`), the
  outcome comparison, and `Frame`, the whole per-frame transition for one
  input key. `Inv` is the invariant every reachable table satisfies: the
  deck and both hands together hold each of the 52 cards exactly once, the
  menu has empty hands, the dealer holds two cards during the player's turn,
  and the player's hard total (aces as 1) is at most 31 while the round runs.
  `FramePreservesInv` proves every frame keeps it.
- `game.dfy` (module `Blackjack`): the `Game` class with the fields of
  `src/game.rs` and its methods, and `Step`, the arm-by-arm `match` of the
  frame loop written imperatively, proved to do what `Frame` says and to
  keep `Inv`. The opening deal's `for` loop (`OpeningDeal`) and the dealer's
  `while` loop with the outcome (`DealerPlays`) are methods of their own.

Behaviour modelled as the code has it:

- The player's bust check (src/main.rs:83-85) uses the value computed at the
  start of the frame (src/main.rs:66), before that frame's hit. A bust from
  Space is therefore noticed one frame later, and Space still hits after the
  bust was flagged. Enter in the same frame replaces the flagged `DealerWon`
  with `DealerTurn` (src/main.rs:89-90). `Rules.LateBustScenario` shows a hit
  to 29 that leaves the phase at `PlayerTurn` for one frame, and
  `Rules.BustedPlayerCanWin` shows that a player whose hand is over 21 can
  still end the round as `PlayerWon`: the outcome comparison treats a higher
  player total as a win even when it is over 21.
- The dealer's loop (src/main.rs:110-112) would never end if the deck ran out
  while the dealer is below 17. `Frame` requires, for the dealer's turn, that
  the deck and the dealer hand together reach 17 with every ace counted as 1
  (`Rules.HardTotalReaches17`). That bound is sufficient for the loop to stop,
  not the exact stopping condition: a dealer on Ace and Six with an empty deck
  stops at once but is outside it (`Rules.HardTotalIsOnlySufficient`).
  `Rules.InvHardTotalReaches17` proves every reachable table meets the bound,
  and `Blackjack.Game.Step` discharges it from `Valid()`.
- The image filename is `assets/images/` followed by the rank token (`2`…`10`,
  `jack`, `queen`, `king`, `ace`), the suit token and `.png`, as
  src/cards.rs:129 builds it; the expectation `Ace_of_Hearts.png` in
  src/tests.rs:25 disagrees with the code and is not followed.

Integer width: `calculate_hand_value` returns an `i32`; no reachable total
comes near its bounds (all 52 cards add up to 380 with aces at 11), so the
model uses unbounded `int`.

## Model

| member | source | states |
|---|---|---|
| Cards.RankIndex | src/cards.rs:43-57 | every rank has a position in the inner loop's rank list |
| Cards.SuitIndex | src/cards.rs:42 | every suit has a position in the outer loop's suit list |
| Cards.Rows | src/cards.rs:42-60 | after the first n suits the loops have pushed 13·n cards |
| Cards.FreshOrderIsFull | src/cards.rs:40-60 | the nested loops produce 52 cards with each (rank, suit) pair exactly once |
| Cards.FullDeckFacts | src/cards.rs:40-66 | any deck holding each card exactly once is a permutation of the fresh order and has 52 cards |
| Cards.Shuffle | src/cards.rs:62-64 | the shuffle keeps the length and the multiset of cards: it only permutes |
| Cards.Deck.constructor | src/cards.rs:40-66 | a new deck holds each of the 52 cards exactly once, in some shuffled order |
| Cards.Deck.Draw | src/cards.rs:69-71 | an empty deck gives None and stays empty; otherwise the last card is returned and the rest of the deck is unchanged, one shorter |
| Hands.BaseValue | src/cards.rs:79-90 | base values lie in 2..11 and only the ace is worth 11 |
| Hands.CalculateHandValue | src/cards.rs:74-103 | the two loops compute `HandValue` of the hand |
| Hands.HandValueDowngrades | src/cards.rs:97-100 | the value is the raw total minus 10·k for k at most the ace count, where k is the least number of downgrades: stopping earlier leaves the total over 21, and stopping before all aces means the value is at most 21 |
| Hands.HandValueIsBest | src/cards.rs:74-103 | no choice of aces counted as 1 gives a total at most 21 that beats the value |
| Hands.HandValueBust | src/cards.rs:97-100 | the value lies between the hard and the raw total, a value over 21 means every ace counts 1, and the hand is bust exactly when its hard total is over 21 |
| Hands.HandValueNoAces | src/cards.rs:78-90 | without aces the value is the plain sum of base values, and an empty hand is worth 0 |
| Hands.HandValuePermutation | src/cards.rs:78-100 | reordering a hand does not change its value |
| Hands.SumPermutation | src/cards.rs:78-95 | the per-card sums of the `for` loop depend only on the multiset of cards |
| Hands.HardSumSplit | src/cards.rs:78-95 | the hard total is the raw total minus 10 per ace, and it is at least the number of cards |
| Hands.AceExamples | src/cards.rs:74-103 | two aces are worth 12, and Ace, Ace, Nine is worth 21 |
| CardImages.RankToken | src/cards.rs:106-120 | every rank token is non-empty |
| CardImages.ImageFilenameRoundTrip | src/cards.rs:105-130 | the card can be recovered from its image filename |
| CardImages.ImageFilenameInjective | src/cards.rs:105-130 | distinct cards have distinct image filenames |
| Rules.HitPlayer | src/game.rs:30-34 | a player hit leaves the phase and the dealer hand alone and adds one card to the player hand exactly when the deck is non-empty |
| Rules.HitDealer | src/game.rs:36-40 | a dealer hit leaves the phase and the player hand alone and adds one card to the dealer hand exactly when the deck is non-empty |
| Rules.HitsKeepCards | src/game.rs:30-40 | both hits keep the multiset of deck, player hand and dealer hand |
| Rules.OpeningDealKeepsCards | src/main.rs:41-47 | the opening deal keeps the multiset of all cards |
| Rules.Outcome | src/main.rs:117-123 | the round ends in exactly one result: PlayerWon iff the dealer is over 21 or below the player, DealerWon iff the dealer is at most 21 and above the player, Tie iff the dealer is at most 21 and equal to the player |
| Rules.DealerDraw | src/main.rs:110-112 | when the dealer's loop stops, the dealer value is at least 17 |
| Rules.DealerDrawStep | src/main.rs:110-112 | below 17 the deck is not empty, so the loop's hit really draws |
| Rules.DealerDrawTakesFromTop | src/main.rs:110-112 | the dealer's new cards are the end of the deck taken last card first, and what stays is the deck's prefix |
| Rules.DealerDrawKeepsCards | src/main.rs:110-112 | the dealer's loop keeps the multiset of deck and dealer hand |
| Rules.DealerDrawOnlyBelow17 | src/main.rs:110-112 | every card the dealer drew was drawn while the dealer value was below 17 |
| Rules.InvHardTotalReaches17 | src/main.rs:110-112 | on a reachable table deck and dealer hand reach 17 with aces as 1, so the dealer's loop cannot run out of cards |
| Rules.HardTotalIsOnlySufficient | src/main.rs:110-112 | a dealer on Ace and Six is worth 17, so the loop does not run, yet the hand is outside the bound: the bound is sufficient, not exact |
| Rules.InvDeckSize | src/main.rs:41-47 | a reachable menu has a 52-card deck, and during the player's turn at least 19 cards remain |
| Rules.MenuFrame | src/main.rs:41-47 | Enter deals player, dealer, player, dealer from the end of the deck and starts the player's turn; any other input changes nothing |
| Rules.MenuKeepsInv | src/main.rs:41-47 | the menu frame keeps the invariant |
| Rules.PlayerTurnFrame | src/main.rs:83-91 | with the frame-start value over 21 the phase becomes DealerWon unless Enter makes it DealerTurn; Space hits regardless; the dealer hand is untouched |
| Rules.PlayerHitDraws | src/main.rs:87-88 | on a reachable table Space adds exactly one card to the player hand and takes one from the deck |
| Rules.PlayerTurnKeepsInv | src/main.rs:83-91 | the player's frame keeps the invariant |
| Rules.DealerTurnFrame | src/main.rs:110-123 | the dealer draws from the end of the deck only while below 17, ends at 17 or more, the player hand is unchanged, and the phase is the outcome of the two values |
| Rules.DealerTurnKeepsInv | src/main.rs:110-123 | the dealer's frame keeps the invariant |
| Rules.OverFrame | src/main.rs:156-231 | in each finished phase (the arms at lines 156-158, 192-194 and 228-230), R gives the menu with the new deck and empty hands; any other input changes nothing |
| Rules.FramePreservesInv | src/main.rs:24-233 | every frame of a reachable table, with a full deck for a reset, gives a reachable table |
| Rules.BustedPlayerCanWin | src/main.rs:83-91 | a busted player who presses Enter moves to the dealer's turn, and then wins against a dealer standing below the player's total |
| Rules.TieScenario | src/main.rs:110-123 | Ace and King against a dealer on 16 who draws a Five ends in a tie |
| Rules.LateBustScenario | src/main.rs:83-88 | a hit from 19 to 29 stays in the player's turn for that frame and gives DealerWon on the next |
| Rules.PlayerWonScenario | src/main.rs:110-118 | Ten and Nine against a dealer on 16 who draws a King and busts ends in PlayerWon |
| Blackjack.Game.constructor | src/game.rs:21-28 | a new game is in the menu with empty hands and a full 52-card deck |
| Blackjack.Game.PlayerHit | src/game.rs:30-34 | the game afterwards is `HitPlayer` of the game before |
| Blackjack.Game.DealerHit | src/game.rs:36-40 | the game afterwards is `HitDealer` of the game before |
| Blackjack.Game.CalculatePlayerValue | src/game.rs:42-44 | the result is the value of the player hand |
| Blackjack.Game.CalculateDealerValue | src/game.rs:46-48 | the result is the value of the dealer hand |
| Blackjack.Game.Reset | src/game.rs:50-54 | a full 52-card deck, empty hands, and the phase left as it was |
| Blackjack.Game.OpeningDeal | src/main.rs:42-45 | the game afterwards is two rounds of a player hit then a dealer hit, applied to the game before |
| Blackjack.Game.DealerPlays | src/main.rs:110-123 | the deck and dealer hand end as `DealerDraw` of the old ones (so the dealer ends at 17 or more, drawing only below 17), and the phase is the outcome of the two hand values |
| Blackjack.Game.Step | src/main.rs:24-233 | one frame does what `Frame` says for the input key, and a valid game stays valid |

## Left out

- Rendering, fonts, textures and the card layout of src/ui.rs and the drawing calls of src/main.rs: presentation over a foreign graphics library.
- `next_frame`, `async`/`await` and key polling: each frame's input is the abstract `Key` value `NoKey`, `Enter`, `Space` or `R`; several keys pressed in one frame are not modelled.
- Randomness: `thread_rng` and `SliceRandom::shuffle` become a nondeterministic swap index, so a new deck is some permutation of the 52 cards; the uniformity of the shuffle is not modelled.
- src/tests.rs: not compiled into the program, and it tests texture loading and drawing.
- The `Debug`, `Clone`, `PartialEq` and `Hash` derives: library conveniences with no rules of their own.
- Rules.Frame: on a dealer's-turn table it requires that deck and dealer hand reach 17 with aces counted as 1. This is a sufficient bound for the dealer's loop to stop, and it excludes some unreachable tables on which the source also stops (a dealer on Ace and Six with an empty deck, `Rules.HardTotalIsOnlySufficient`); `Rules.InvHardTotalReaches17` shows every reachable table meets it.
- Cards.Shuffle: states only that the result is a permutation, not which one, because the random generator is not modelled.
