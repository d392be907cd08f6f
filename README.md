# Go Fish, modelled in Dafny

A model of the Go Fish card game engine: cards, hands and the deck, the players, a
turn (asking, fishing, banking pairs), and the game session that deals, runs turns until
the deck is empty and ranks the players. The modules follow the source files as this
table shows:

| module | source | form |
|---|---|---|
| `Recipes` (recipes.dfy) | recipes.py | functions and lemmas on finite sequences |
| `Sorting` (sorting.dfy) | Python's stable `sorted` with a key | insertion sort as a function, with its lemmas |
| `Cards` (cards.dfy) | card.py, value part | `Card` datatype, the standard deck, the sequence operations behind the deques |
| `Pairing` (pairing.dfy) | card.py, `extract_pairs` | the specification of pair extraction, with its lemmas |
| `Hands` (hand.dfy) | card.py, `Hand` and `Deck` | classes whose `stack` field the methods update in place |
| `Players` (players.dfy) | player.py | `Player` class (`HumanPlayer` and `AiPlayer` are its two constructors), `opp_choices` as an insertion-ordered association list |
| `Turns` (turns.dfy) | turn.py, value part | `TurnOutcomes`, `extra_turns`, the choice order of `ai_choose_card` |
| `GameLogic` (game.dfy) | game_logic.py and the `Turn` classes of turn.py | `GoFish` and `Turn` classes |

The property the model is built around is **card conservation**. During a game the
cards in the deck, plus the cards in all hands, plus twice the number of banked pairs,
stay constant (`GoFish.CardTotal`). More than the count is kept: the multiset of cards in
the deck, the hands and the banked pairs (`GoFish.AllCards`) is the same after every turn
(`Turn.Execute`) and after the whole loop of turns (`GoFish.PlayTurns`), so no card is
lost, copied or replaced. From a
non-empty deck, a turn lowers `2·|deck| + Σ|hand|` (`GoFish.Progress`): it either draws
a card or banks a pair. So the loop of `play()` ends (`GoFish.PlayTurns`, whose
`decreases` clause is that measure). A game that is dealt from a fresh deck totals 52
cards, plus the two cards of each pair the user banked in earlier games (`GoFish.NewGame`).

Randomness and user input are parameters:
- the deck order is any permutation `sample` of the standard deck;
- `random.shuffle` draws are a function `draws`;
- each card or opponent choice, whether a random choice or a prompt answer, is an index
  taken modulo the range it picks from.

`Hand.count()`, `len(hand)`, `Deck.__len__`, `num_cards` and `num_pairs` are the
functions `Hand.Count`, `Deck.Len`, `Player.NumCards` and `Player.NumPairs`.

The ghost field `Hand.seat`, the position of the owning player, is proof bookkeeping
only. The source has no such field.

## Model

| member | source | states |
|---|---|---|
| `Recipes.FlattenAppend` | recipes.py:21-23 | flattening a concatenation is the concatenation of the flattenings |
| `Recipes.FlattenLength` | recipes.py:21-23 | flattening keeps every element: the length is the sum of the sub-lengths |
| `Recipes.Grouper` | recipes.py:26-31 | `grouper(xs, n)` yields `len(xs) // n` chunks, each of exactly n elements (an incomplete tail is dropped) |
| `Recipes.GrouperFlatten` | recipes.py:26-31 | the chunks concatenate to the longest prefix whose length is a multiple of n (`ABCDEFG`, 3 gives `ABC DEF`) |
| `Recipes.GrouperChunk` | recipes.py:26-31 | chunk i is the slice `xs[n*i : n*i + n]` |
| `Recipes.Pairwise` | recipes.py:15-18 | one pair fewer than elements (none for an empty input), pair i is `(xs[i], xs[i+1])` |
| `Recipes.RepeatFunc` | recipes.py:5-12 | with a finite `times`, exactly `times` results, each `func(*args)` |
| `Sorting.SortByIsSorted` | card.py:114-116 | the sort orders by key and keeps the length |
| `Sorting.SortByPermutes` | card.py:114-116 | the sort is a permutation |
| `Sorting.SortByStable` | game_logic.py:92 | the sort is stable: elements with one key keep their relative order |
| `Sorting.SortBySortedIdentity` | card.py:114-116 | an already sorted sequence is left unchanged |
| `Cards.CardOrder` | card.py:68-78 | `>` and `>=` are `<` and `<=` with the cards swapped, `a <= b` exactly when not `b < a`, and any two cards are `<=` one way or the other (ranks only, suits ignored) |
| `Cards.SortedByRank` | card.py:77-78 | a hand sorted by rank (as `sort` does, card.py:113-116) is sorted by the card comparisons: each card `<=` every later one, or equally no later card `<` an earlier one |
| `Cards.SameRankOrder` | card.py:86-90 | `same_rank` with None is false (the AttributeError is caught); with a card it holds exactly when neither card is `<` or `>` the other, and it is symmetric |
| `Cards.StandardDeck` | card.py:202-204 | `get_standard_deck` has 52 cards |
| `Cards.StandardDeckFacts` | card.py:202-204 | the standard deck has no card twice and holds exactly the cards of ranks 1..13 |
| `Cards.StandardDeckCounts` | card.py:202-204 | every card of rank 1..13 occurs once, any other card never |
| `Cards.FullDeckIff` | card.py:207-211 | a deck is a shuffle of the standard deck exactly when it holds each card of ranks 1..13 once |
| `Cards.FirstMatch` | card.py:147-153 | the index found has the asked rank and no earlier card has it; None exactly when no card has it |
| `Cards.IndexOfFirst` | card.py:159 | `deque.index` returns the first occurrence |
| `Cards.RemoveFirstMultiset` | card.py:159 | popping at `index(c)` removes exactly one c |
| `Cards.RemovableIff` | card.py:155-162 | `take_from_hand` can take its cards exactly when the hand holds each as often as it is named |
| `Cards.RemoveEachMultiset` | card.py:155-162 | `take_from_hand` removes exactly the named cards, counted with repetition |
| `Cards.StepsIsMod` | card.py:135-137 | `deque.rotate` reduces its step count modulo the length, as Python's `%` |
| `Cards.RotatePermutes` | card.py:207-211 | rotating only reorders |
| `Cards.RotateZeroAndMinusOne` | game_logic.py:124-126 | `rotate(0)` changes nothing; `rotate(-1)` moves the head to the back |
| `Cards.PopRotations` | card.py:133-138 | `rotate(-n)`, `popleft`, `rotate(n)` returns the card at index n and keeps the rest in order |
| `Cards.PopPermutes` | card.py:133-138 | for any n, the two rotations and the pop lose and add no card |
| `Cards.DealtCount` | card.py:233-235 | round-robin dealing gives hand j of n `ceil((m - j) / n)` of m cards |
| `Cards.DealtSevenEach` | card.py:224-235 | with 7 cards per hand available, every hand receives exactly 7 |
| `Pairing.GroupByRankFacts` | card.py:120 | `groupby` runs cover the sorted hand in order, each is non-empty with one rank, and neighbouring runs differ in rank |
| `Pairing.ExtractConserves` | card.py:118-126 | extraction moves cards from the hand into pairs, none lost or copied |
| `Pairing.RemainingIsPairFree` | card.py:118-126 | the remaining hand is sorted and holds no two cards of one rank |
| `Pairing.ExtractRankCounts` | card.py:118-126 | for a rank with k cards, k // 2 pairs of that rank come out and k % 2 cards stay |
| `Pairing.ExtractedPairsShape` | card.py:118-126 | every pair has two cards of one rank, and pairs come in ascending rank order |
| `Pairing.SharedRankGivesPair` | card.py:118-126 | two cards of one rank anywhere in the hand mean at least one pair is extracted |
| `Pairing.PairFreeExtractsNothing` | card.py:118-126 | a hand with no repeated rank gives no pairs and is only sorted |
| `Pairing.ExtractPairsExample` | card.py:118-126 | from 2♠ 2♥ 2♦ 5♣ 5♦ 9♠ the pairs (2♠, 2♥) and (5♣, 5♦) come out and 2♦ 9♠ remain |
| `Hands.Hand.constructor` | card.py:100-103 | the new hand holds the given cards |
| `Hands.Hand.Sort` | card.py:114-116 | the hand becomes its stable rank-sorted permutation |
| `Hands.Hand.PopCard` | card.py:133-138 | the two rotations and the pop, for any n; for a valid index, the card at n comes out and the rest keep their order |
| `Hands.Hand.AddToHand` | card.py:140-145 | a non-card argument leaves the hand unchanged (TypeError); otherwise the cards go to the right end in order |
| `Hands.Hand.HasMatch` | card.py:147-153 | the index of the first card of the asked rank, None exactly when there is none |
| `Hands.Hand.TakeFromHand` | card.py:155-162 | returns the named cards; the hand loses exactly those, first occurrences first |
| `Hands.Hand.TakeCard` | card.py:159 | `pop_card(stack.index(c))` takes out the first card equal to c |
| `Hands.Hand.ClearHand` | card.py:164-165 | the hand is empty |
| `Hands.Hand.ExtractPairs` | card.py:118-126 | returns the pairs of the specification and leaves the specified remaining hand |
| `Hands.Hand.TakeRuns` | card.py:120-126 | the loop over runs takes each run's pairs and leaves each run's odd card |
| `Hands.Hand.TakeRunPairs` | card.py:123-125 | the loop over `grouper(run, 2)` takes consecutive pairs out of the hand |
| `Hands.Hand.Count` | card.py:167-169 | `count()` is the number of cards in the hand, counted with repetition, and zero exactly for an empty hand |
| `Hands.Deck.Len` | card.py:194-195 | `len(deck)` is the number of cards left, counted with repetition, and zero exactly for an empty deck |
| `Hands.Deck.constructor` | card.py:176-178 | a new deck is a shuffled standard deck, rotated by the default cut of 26 |
| `Hands.Deck.ShuffleDeck` | card.py:207-211 | the deck becomes the sampled order rotated `cut` to the left, a permutation of what it was |
| `Hands.Deck.TakeTop` | card.py:213-219 | the left end comes out; an empty deck gives None and stays empty |
| `Hands.Deck.DealHands` | card.py:221-235 | RuntimeError without hands; otherwise the top `min(7·hands, len)` cards go round-robin to all hands |
| `Hands.Deck.DealCycle` | card.py:233-235 | the dealing loop: the deck loses its first m cards and hand j gains those at positions j mod n |
| `Hands.Give` | card.py:235 | the dealt card goes to the end of one hand and no other |
| `Hands.DealtPartition` | card.py:233-235 | every dealt card goes to exactly one hand: the hands together receive exactly the dealt cards (as a multiset), and as many cards as were dealt |
| `Players.DigitsRoundTrip` | player.py:63 | the decimal digits in `COMPUTER_{idnum}` read back as idnum |
| `Players.LookupAssign` | player.py:65 | after a dict assignment the key reads the new set, every other key as before |
| `Players.KeysAssign` | player.py:65 | an assignment keeps the keys in order and adds a new key last |
| `Players.RememberLookup` | player.py:67-68 | `remember` adds the card to that player's set and to no other |
| `Players.RememberIdempotent` | player.py:67-68 | remembering the same request twice equals remembering it once |
| `Players.ForgetLookup` | player.py:70-71 | `forget` removes the card from that player's set and touches no other |
| `Players.ForgetUndoesRemember` | player.py:67-71 | forgetting a card not remembered before undoes remembering it |
| `Players.UpdateKeys` | player.py:65-71 | both updates keep the existing keys in order; the defaultdict adds an absent player last, even on `forget` |
| `Players.Player.Human` | player.py:50-55 | the user: human, sort order 0, empty hand, no pairs |
| `Players.Player.NumCards` | player.py:24-26 | `num_cards` is the number of cards in the player's hand, zero exactly when it is empty |
| `Players.Player.NumPairs` | player.py:28-30 | `num_pairs` counts the banked pairs, whose cards number twice as many |
| `Players.Player.Ai` | player.py:61-65 | named `COMPUTER_<id>`, sort order id, empty hand, no pairs, empty memory |
| `Players.Player.CollectPairs` | player.py:21-22 | pairs are appended, the hand keeps the remainder and has no pair left, no card is lost, and pairs are banked exactly when the hand had a repeated rank |
| `Players.Player.Remember` | player.py:67-68 | the memory becomes the remembered update |
| `Players.Player.Forget` | player.py:70-71 | the memory becomes the forgotten update |
| `Turns.ExtraTurns` | turn.py:21-23 | the rotation is 0 or -1, and it is 0 exactly after ASKED_MATCH or FISH_MATCH |
| `Turns.NextOrder` | game_logic.py:124-126 | after ASKED_MATCH or FISH_MATCH the same player goes again; otherwise it goes to the back; the order is a permutation either way |
| `Turns.MatchIndicesNonEmpty` | turn.py:56-58 | the list of matches is non-empty exactly when the hand holds a remembered rank |
| `Turns.FirstAnswerable` | turn.py:52-62 | the entry chosen is the first in sorted order with a match, and None exactly when no entry has one |
| `Turns.FirstAnswerableLowest` | turn.py:52-62 | the player asked from memory has the lowest sort order among those whose requests the hand can answer |
| `GameLogic.OrderWithoutActive` | turn.py:81 | while a turn runs, the turn order holds every player but the active one |
| `GameLogic.RememberKeysWithin` | turn.py:141-142 | a computer player remembers only other players of the game |
| `GameLogic.RankingFacts` | game_logic.py:92 | the ranking lists the same entries by non-increasing pair count |
| `GameLogic.TopOfRanking` | game_logic.py:92-93 | the user, listed first, tops the ranking exactly when nobody has more pairs (ties go to the user) |
| `GameLogic.RankedPlayers` | game_logic.py:92 | the ranking holds each player once, by non-increasing number of pairs |
| `GameLogic.SumDealt` | game_logic.py:77 | the hands together gain exactly the number of cards dealt |
| `GameLogic.PoolCounts` | game_logic.py:77-79 | the cards in all hands and pairs number the sum of the players' holdings |
| `GameLogic.ExchangeInPool` | turn.py:109-113 | when only two players' cards change, and those with the deck keep their multiset, all the players' cards with the deck keep it |
| `GameLogic.FiltFalseMembers` | game_logic.py:50-51 | `filtfalse_players` keeps exactly the players the predicate rejects |
| `GameLogic.FiltFalseAppend` | game_logic.py:50-51 | filtering a concatenation is the concatenation of the filtered parts |
| `GameLogic.FiltFalseCounts` | game_logic.py:50-51 | a rejected player keeps its multiplicity, an accepted one occurs no more |
| `GameLogic.CreateAiPlayers` | game_logic.py:20-21 | `num_ai` new computer players numbered 1..num_ai |
| `GameLogic.BuildPlayers` | game_logic.py:37-47 | the user first, then the new computer players, each at the seat its sort order names |
| `GameLogic.RandomizeTurns` | game_logic.py:31-34 | the turn order is a permutation of the players |
| `GameLogic.Reseat` | game_logic.py:74-76 | a new full deck, the user followed by new computer players, and a turn order that permutes them |
| `GameLogic.SetUp` | game_logic.py:61-66 | the same, around a new user |
| `GameLogic.Bank` | game_logic.py:78-79 | one player's `collect_pairs`: its pairs gain the extracted pairs and its hand keeps the remainder, pair-free; every other hand and pair list, every holding and every memory as it was |
| `GameLogic.BankAll` | game_logic.py:78-79 | the loop over players: each has collected its pairs, keeps its holding, and has no pair left in its hand |
| `GameLogic.PopAt` | turn.py:145 | the card at the index comes out and the rest keep their order |
| `GameLogic.GoFish.constructor` | game_logic.py:61-66 | a full 52-card deck, no cards held yet, and a turn order that permutes the players |
| `GameLogic.GoFish.GameOver` | game_logic.py:81-87 | the game is over exactly when the deck is empty |
| `GameLogic.GoFish.Deal` | game_logic.py:77 | the deck loses its top `min(7·players, len)` cards and hand i gains, in order, the dealt cards at positions congruent to i; the card total is kept |
| `GameLogic.GoFish.BankPairs` | game_logic.py:78-79 | every player has collected its pairs: pairs appended, the hand the specified remainder, holdings unchanged, no hand holds a pair |
| `GameLogic.GoFish.DealAndBank` | game_logic.py:77-79 | the deck loses the dealt cards, each player holds its round-robin share with pairs banked; card total kept, every hand pair-free |
| `GameLogic.GoFish.Restart` | game_logic.py:71-76 | user's hand cleared and pairs kept, new players with empty hands and no pairs, the new deck is the sample cut at 26 and holds the 52 cards; the total is 52 plus twice the user's pairs |
| `GameLogic.GoFish.DealFresh` | game_logic.py:77-79 | dealing onto empty hands: each player holds its round-robin share with pairs banked after its earlier pairs, every hand pair-free, card total kept |
| `GameLogic.GoFish.Redeal` | game_logic.py:71-79 | `new_game(False)`: from the cut sample, each player holds its dealt share minus its pairs, which follow the user's earlier pairs; every hand pair-free, total 52 plus twice the earlier pairs |
| `GameLogic.GoFish.NewGame` | game_logic.py:68-79 | the first game keeps players, order and deck and deals from it; a later one rebuilds them and deals the cut sample; every hand pair-free, and the card total follows |
| `GameLogic.GoFish.NextTurn` | game_logic.py:115-127 | the new turn's player is the head of the order rotated by `extra_turns`, and the rest is the new order; cards, card total and progress unchanged |
| `GameLogic.GoFish.Requeue` | game_logic.py:124-126 | `appendleft` then `rotate`: the order is that rotation and holds every player again; no card moves |
| `GameLogic.GoFish.StartTurn` | game_logic.py:123 | the head of the order becomes the active player of a fresh turn and the rest stays queued; no card moves |
| `GameLogic.GoFish.ScoreGame` | game_logic.py:89-95 | players by descending pairs, ties in seating order; the user wins exactly when nobody has more pairs; win or loss counted |
| `GameLogic.GoFish.Play` | game_logic.py:129-136 | a finished game ends with an empty deck and counts one game and one win or loss; its card total is the old one for the first game, and 52 plus twice the user's earlier pairs for a later one |
| `GameLogic.GoFish.PlayOut` | game_logic.py:131-136 | the turns, then the score: finished with the deck empty, one game and one win or loss counted and the user first exactly when nobody has more pairs; nothing counted when stuck |
| `GameLogic.GoFish.EndGame` | game_logic.py:135-136 | counts the game, then scores it |
| `GameLogic.GoFish.PlayTurns` | game_logic.py:131-134 | the loop ends, with the deck empty; every card count of the deck, hands and banked pairs together is what it was |
| `GameLogic.GoFish.Round` | game_logic.py:133-134 | execute and next turn: the turn ends with an outcome, the next player and order are the old order with the active player rotated back in by `extra_turns`, the multiset of all cards is kept and the progress measure goes down |
| `GameLogic.Turn.constructor` | turn.py:79-88 | the head of the turn order is popped as the active player; no choice made yet |
| `GameLogic.Turn.UserChooseCard` | turn.py:31-34 | the wanted card is a card of the user's hand |
| `GameLogic.Turn.UserChooseOpp` | turn.py:37-39 | the opponent is one of `players[1:]` |
| `GameLogic.Turn.MatchesOf` | turn.py:56-57 | the `has_match` results of the remembered cards, None left out |
| `GameLogic.Turn.AiChooseCard` | turn.py:42-65 | the first answerable remembered player is asked for a card of a remembered rank it holds; otherwise a random card, unless one is already wanted |
| `GameLogic.Turn.AiChooseOpp` | turn.py:68-70 | unless memory chose one, the opponent is a player of the turn order |
| `GameLogic.Turn.AiChoose` | turn.py:101 | for a computer player, `card_strat().opp_strat()` picks an opponent in the game other than itself and a card of its own hand |
| `GameLogic.Turn.Enter` | turn.py:97-103 | outcome reset; an opponent other than the active player and a wanted card of the active hand are chosen |
| `GameLogic.Turn.DoAsk` | turn.py:115-125 | when the opponent holds the rank, its first such card moves to the end of the active hand (ASKED_MATCH), which then holds a pair; otherwise nothing changes |
| `GameLogic.Turn.AiDoAsk` | turn.py:158-168 | the same, with the outcome reset first |
| `GameLogic.Turn.MissWanted` | turn.py:140-150 | a computer opponent remembers the request; the first card of the drawn rank leaves the hand (FISH_OTHER), or FISH_NONE |
| `GameLogic.Turn.DoGoFish` | turn.py:127-151 | draws the top card; the wanted rank gives FISH_MATCH; a miss is remembered by a computer opponent and gives FISH_OTHER with the first card of the drawn rank, or FISH_NONE; the drawn and taken cards, those that exist, go to the end of the hand |
| `GameLogic.Turn.Exit` | turn.py:105-107 | the active player banks: no card lost, no pair left in its hand |
| `GameLogic.FishedKeepsCards` | turn.py:127-151 | the hand after fishing holds the cards it had plus the drawn card, if any |
| `GameLogic.AskConserves` | turn.py:115-125 | a card moving from the opponent to the end of the active hand keeps the multiset and the count |
| `GameLogic.FishConserves` | turn.py:127-151 | drawing the top card into the hand keeps the multiset and the count of deck and hands |
| `GameLogic.ExchangeThenBank` | turn.py:105-107 | banking after the exchange: remaining hand plus the cards of the new pairs are the cards held before |
| `GameLogic.BankedInPlace` | turn.py:105-113 | the same in terms of each player's hand and pairs |
| `GameLogic.Turn.Ask` | turn.py:110 | the opponent's first card of the wanted rank moves to the end of the active hand (ASKED_MATCH), which then holds a pair; otherwise nothing changes |
| `GameLogic.Turn.AskThenFish` | turn.py:110-112 | ask, and fish if the ask failed, with the exact new hands and deck in each case; the cards of the deck and the two hands are the same multiset |
| `GameLogic.Turn.Act` | turn.py:110-113 | ask, fish and exit on the two players: the active player's new pairs plus the deck and two hands are the cards they had, the active hand is pair-free, and `2·deck + hands` shrinks from a non-empty deck |
| `GameLogic.Turn.Trade` | turn.py:109-113 | the same, with every other seated player's hand and pairs unchanged and all holdings and hand sizes tracked |
| `GameLogic.Turn.Exchange` | turn.py:109-113 | the turn's ask, fish and exit among the seated players keep every card count of the game's deck, hands and pairs; every other player unchanged |
| `GameLogic.Turn.Resolve` | turn.py:110-113 | after `enter()`: the multiset of all the game's cards is kept, players other than the two keep hand, pairs and memory, and the progress measure falls from a non-empty deck |
| `GameLogic.Turn.Execute` | turn.py:109-113 | a turn ends with an outcome and a pair-free active hand, keeps the multiset of all the game's cards, and from a non-empty deck draws a card or banks a pair |

## Where the code and its documentation differ

The model follows the code:

- `game_over` (game_logic.py:81-87) is documented to end the game when the deck or any
  hand is empty. It compares the bound method `p.hand.count` with 0, which is never
  equal, so only the deck decides (`GoFish.GameOver`).
- `deal_hands` (card.py:221-235) computes a reduced `num_hands` when the deck is too
  small and announces that hands are removed. The value is never used. Every hand takes
  part, and dealing stops when the deck runs out (`Deck.DealHands`).
- `take_from_hand` (card.py:155-162) catches `IndexError`, but a missing card makes
  `deque.index` raise `ValueError`, which is not caught. The model states, as a
  precondition, that each card is present in turn (`Removable`).
- `new_game(False)` clears the user's hand but not the user's banked pairs, so they carry
  into the next game. The card total of a later game is 52 plus twice the user's earlier
  pairs (`GoFish.NewGame`).
- Only an empty deck ends the game, so an active player can start a turn with an empty
  hand. A computer player's `random.choice` then raises IndexError. The user's card prompt
  accepts no card, and an empty answer makes `int('')` raise ValueError, which is not
  caught (interaction.py:140-151). In that case `GoFish.PlayTurns` stops and `GoFish.Play`
  reports the game unfinished.
- When a computer player asks the user, `have_card` passes the `HAVE_CARD` template and
  the turn, as a positional argument, to `format_game_string` (interaction.py:104-113).
  The template's fields are `turn.opponent` and `turn.wanted_card`, but the loop over the
  parsed fields returns only for a field named exactly `turn` (interaction.py:60-67). It
  therefore falls through to `self.format()` with no format string (interaction.py:68),
  which raises TypeError. The model continues the turn as if the prompt had returned:
  `Turn.AiDoAsk` then moves the card as `do_ask` would.
- `Turn.print_stats` (turn.py:90-95) formats `'{0.name:>10}(Cards: …)'` with `p.name`,
  which is a string (player.py:33-34), so the lookup of `.name` on it raises
  AttributeError. `enter` calls `print_stats` (turn.py:100) before either strategy runs
  (turn.py:102), so as written every turn stops there. The model continues `Turn.Enter`
  as if `print_stats` had returned, and the turn then proceeds as the strategies say.

## Left out

- Randomness: `random.sample`, `random.shuffle` and `random.choice` become parameters. Any permutation of the standard deck stands for a sample, `draws(i)` for a shuffle draw, and an index modulo the range for a choice.
- User input: the prompts of interaction.py become the same index parameters. The name prompt's upper-casing is not modelled; the name is taken as given. interaction.py and `__main__.py` are not part of this model.
- Output: `print`, `clear_screen`, the message queue, `print_scores`, `view_hand`, `title` and the `__str__`/`__repr__` methods display only and are left out. `print_stats` would display only too, but it raises an error as written (see above).
- `AiTurn.do_ask`'s `have_card` prompt to the user is left out: when it does not crash (see above), it only displays and reads an answer that changes no state.
- `Card.__hash__` is left out. Equality through the hash of `(rank, suit)` is modelled as equality of rank and suit.
- `same_suit` and the `name` setter are left out: the game logic does not use them. `is_human` is the field `Player.isHuman`, used to pick the turn kind and to skip memory for the user.
- `new_deck` and `Deck.reset` are modelled by building a new deck from a sample. The extra temporary deck that `reset` shuffles is not modelled.
- `repeatfunc` with `times=None` produces an infinite iterator, and only the finite case is modelled.
- `winloss` and `games_played` are class attributes of `GoFish`. They are modelled as fields of the one game object, so sharing between instances is not modelled.
- `_sort_order` is a float in the source and an integer here: it only ever holds whole numbers.
- `GameLogic.Turn.AiChooseCard`: a remembered card is picked with `matches.pop()`, and the order of `matches` comes from iterating a set. The contract says only that some matching card is asked for.
- `GameLogic.Turn.Enter`: its contract keeps only what the rest of the turn needs: an opponent in the game other than the active player, and a wanted card from the active hand. The strategy methods it calls state the exact choice.
- `GameLogic.Turn.Execute`: it states that the multiset of all cards is kept and that progress is made, not the exact new hands, nor that players other than the two keep their cards (`Turn.Resolve` states that). `AskThenFish`, `DoAsk` and `DoGoFish` state the exact effects.
- `GameLogic.GoFish.PlayTurns`: a turn whose active player holds no card is not executed. The source would raise or wait forever at that point, so the model returns `stuck` instead.
