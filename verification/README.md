# Verified model of the card-game server

The server plays three card games — Marriage, Call Break and Flush — on
I/O-free state machines, stores a running game as a journal of events, keeps a
ledger of who owes whom, and replaces players who leave a finished table. This
project models those parts in Dafny and proves what they are for.

| files | part |
|---|---|
| `Prelude`, `Cards`, `Dealing` | sequences, standard cards, dealing round a table |
| `Marriage*` | `marriage/`: the finish solver, the round engine, its audit, scoring |
| `CallBreak*` | `callbreak/`: the reducer, the audit that replays a match, the saved replay |
| `Flush*` | `flush/`: betting rounds, shows, side-shows, settlement, the audit |
| `Durable*` | `app/durable_games/`: journal, receipts, leases and fencing |
| `Ledger*` | `app/ledger/`: settlement plans, batches and transfers |
| `Table*` | `app/multiplayer/table*.py`: replacing seats between matches |

Each engine is modelled twice where the source changes state in place. A
function gives the outcome of every command on a state value (`MarriageSteps`,
`FlushSteps`, `DurableGame`, `LedgerStore`, `TableRotation`); a class with the
source's fields and methods (`MarriageGame`, `FlushGame`, `DurableService`,
`LedgerService`, `TableService`) is proved to compute exactly that function.
Call Break is a pure reducer in the source and has no class; its audit and its
replay are loops and are methods here. The theorems about all runs are lemmas
about the functions.

What single operations do is stated a second time without the functions that
compute it, in suits, ranks, seats, fields and clocks: who wins a trick and which
cards are legal (`CallBreakMeaning`), which hand wins (`FlushRanking`), which melds
are valid (`MarriageMelds`), whose turn it is (`FlushTurns`), what every command is
accepted for and changes (`MarriageEffects`, `CallBreakEffects`, `FlushEffects`,
`FlushRounds`, `DurableEffects`, `LedgerEffects`, `TableEffects`), what an audited
deal has gone through (`CallBreakHistory`), what reachable rounds look like (`MarriageRecords`,
`FlushRecords`), and who is served first (`TableFairness`).

The audits were written separately from the engines, in the source as here. That
an audit never fires takes an invariant stronger than the audit itself:
`MarriageInvariant.Inv`, `CallBreakInvariant.Inv`, `FlushInvariant.Inv`.

Conventions. A shuffle is an arbitrary function whose result is a permutation of
its argument, or an arbitrary full deck. Clocks are arbitrary integers unless
stated; a method that reads the clock twice has two parameters. A generated id
is a value that is not in use yet. A token hash is an injective function. A
physical Marriage card is its own id, because its id is a function of its face
and pack; an id naming no card is a non-canonical value. An exception the source
would raise on a broken assumption is an outcome of its own: `Crashed` and
`Failed` are proved not to occur, `Raised` in the ledger to occur. Python's bit masks are finite sets.

## Model

| member | source | states |
|---|---|---|
| `MarriageCards.PositionIsIndex` | marriage/rank_policy.py:5-25 | in both rank orders a rank's position is the index at which the thirteen-rank tuple holds it, and looking that position up gives the rank back |
| `MarriageCards.NeighboursInTuple` | marriage/rank_policy.py:15-20 | for every place of the thirteen-rank tuple, the rank above the one there is the one at the next place, and the rank below that is the first again, the last place going on to the first |
| `MarriageCards.WildMeans` | marriage/completion.py:40-42 | a card is wild exactly when it is a Man, has the indicator's rank, or has its suit and a rank next to its rank in the tuple, King and Ace being neighbours |
| `MarriageCards.MaalMeans` | marriage/maal.py:18-20 | the three Maal faces are the indicator's and its two tuple neighbours in its suit |
| `MarriageCards.OrdersAre` | marriage/rank_policy.py:23-25 | a run may be read from A to K under every policy, and from 2 to A exactly when the ace may be high |
| `MarriageCards.SortedById` | marriage/completion.py:65-66 | cards sorted by id string are a permutation in ascending id order |
| `MarriageState.DeckIsCanonical` | marriage/deck.py:9-23 | the created deck is 159 different cards, and it is exactly the canonical ones |
| `MarriageState.ConservedIsPermutation` | marriage/invariants.py:12-18 | the conservation check (159 cards, 159 different ids, the deck's ids) accepts hands, piles and indicator exactly when together they are a permutation of the deck |
| `MarriageState.CheckDeclaration` | marriage/melds.py:45-63 | the pass with a set of used ids accepts exactly the declarations of the required number of valid, permitted, pairwise disjoint melds (leaving a card to discard on the Normal route) |
| `MarriageMelds.RunIsSlice` | marriage/melds.py:27-35 | faces are a run exactly when they share one suit and their ranks are a slice of the rank tuple as long as they are many |
| `MarriageMelds.SequenceMeans` | marriage/melds.py:27-35 | the test for pure sequences accepts exactly three or more natural cards of one suit whose ranks are a slice of A 2 .. K, or of 2 .. K A when the ace may be high |
| `MarriageMelds.ValidMeldMeans` | marriage/melds.py:14-42 | a meld is valid exactly when it lists different held natural cards, uncommitted unless allowed, that are three copies, two copies or such a slice |
| `MarriageMelds.DeclarationMeans` | marriage/melds.py:45-63 | a declaration is valid exactly when it has the route's number of melds, each valid and of the route's kinds, no card twice, and the rules' share of pure sequences, and leaves a card to discard |
| `MarriageCompletion.PureRunDecided` | marriage/melds.py:27-35 | the sorted-equals-range test on positions accepts exactly the groups whose own faces fill a window of consecutive ranks |
| `MarriageCompletion.RunDecided` | marriage/completion.py:34-43 | one suit among the fixed cards, distinct positions and max minus min less than the size, for some Ace order, hold exactly when some assignment of faces to the wild cards makes the group a single-suit consecutive run inside thirteen ranks |
| `MarriageCompletion.SetDecided` | marriage/completion.py:44-51 | the size, rank and suit tests hold exactly when some assignment of faces to the wild cards makes the group a set of one rank and different suits |
| `MarriageCompletion.Classification` | marriage/completion.py:21-51 | for every list of cards, indicator and Ace policy, the branching code returns the meaning of the set of cards: triple, pure sequence, assigned sequence or assigned set, in that priority, and nothing for lists with repetition |
| `MarriageSolver.CombinationsAre` | marriage/completion.py:68-69 | the generated index lists are exactly the strictly increasing ones of the given size |
| `MarriageSolver.CoverSound` | marriage/completion.py:78-88 | whatever the lowest-bit search returns is a partition of the masked cards into groups that classify as the melds named |
| `MarriageSolver.CoverComplete` | marriage/completion.py:78-88 | when any partition of the masked cards into such groups exists, the search finds one |
| `MarriageSolver.FinishSound` | marriage/completion.py:54-134 | a witness the solver returns passes the independent check on client selections |
| `MarriageSolver.FinishComplete` | marriage/completion.py:54-134 | whenever any selection at all would pass that check, the solver returns a witness |
| `MarriageSolver.FinishIsPartition` | marriage/completion.py:54-134 | the check accepts a selection exactly when its first three melds are the shown ones, its discard lies outside the initial Tunnelas, and the rest partition the other uncommitted cards into completion melds |
| `MarriageFinder.FillCandidates` | marriage/completion.py:67-76 | the nested loops that append to per-card lists produce, for every card, the accepted groups containing it in generation order |
| `MarriageFinder.CoverTable.FirstCandidate` | marriage/completion.py:82-88 | trying the candidates of one card in order, each remainder through the table, finds what the plain recursion finds |
| `MarriageFinder.CoverTable.Cover` | marriage/completion.py:78-88 | the memoised search, which stores every answer in a table, returns what the plain recursion returns and keeps the table true |
| `MarriageFinder.NormalFinishOf` | marriage/completion.py:54-96 | the imperative solver returns a selection that passes the check, or none exactly when no selection passes |
| `MarriageFinder.EighthPairExact` | marriage/completion.py:99-108 | the pair the double loop finds is valid, and it finds one whenever a valid pair exists |
| `MarriageFinder.WinningDiscardFinishes` | marriage/completion.py:111-116 | after drawing a card for which the discard test holds, an eighth pair is available, so the forced finish can be made |
| `MarriageAudit.CheckHistory` | marriage/invariants.py:145-170 | the pass carrying the previous revision and whether drawing has begun accepts exactly the histories numbered from one, with revisions repeating or rising by one, declarations before draws and at most one indicator, equal to the state's |
| `MarriageAudit.ValidateGameState` | marriage/invariants.py:58-170 | the audit as a sequence of early returns accepts exactly the conjunction of its blocks |
| `MarriageInvariant.ConservedApart` | marriage/invariants.py:12-18 | under conservation a hand holds no card twice and none that lies in a pile or is the indicator |
| `MarriageInvariant.StartKeeps` | marriage/engine.py:47-71 | an accepted start yields an audited state satisfying the invariant |
| `MarriageEffects.StartDeals` | marriage/engine.py:47-71 | cards go out one at a time from the end of the shuffled deck, 21 to each player in seat order; the next card opens the discard pile and the configured player draws first |
| `MarriageEffects.NextIsActive` | marriage/engine.py:152-169 | the next seat is the first one going on round the table that has not folded |
| `MarriageEffects.TurnMeans` | marriage/engine.py:77-89 | a move is open exactly to the unfolded player in the current seat, in its phase, after all declarations, and during a forced finish only for finishing |
| `MarriageEffects.TurnRefused` | marriage/engine.py:77-89 | a player of the round whose move it is not gets the turn error, and everybody else the action error |
| `MarriageInvariant.DeclareKeeps` | marriage/engine.py:102-118 | an accepted declaration commits a state satisfying the invariant |
| `MarriageEffects.DeclareMeans` | marriage/engine.py:102-118 | declaring is open once to each active player while declarations are pending, for valid disjoint Tunnelas, which it records and nothing else |
| `MarriageInvariant.DrawKeeps` | marriage/engine.py:120-150 | an accepted draw, with or without recycling, commits a state satisfying the invariant |
| `MarriageEffects.DrawMeans` | marriage/engine.py:120-150 | drawing is accepted exactly on turn: from the stock while a card is there or two discards are, from the discards unless a Dublee player may not take that card |
| `MarriageEffects.DrawTakes` | marriage/engine.py:120-150 | the card drawn is the top of the pile; an empty stock is first refilled with all discards but the top one; taking a discard under the Dublee limit forces the finish |
| `MarriageInvariant.DiscardKeeps` | marriage/engine.py:152-169 | an accepted discard commits a state satisfying the invariant |
| `MarriageEffects.DiscardMeans` | marriage/engine.py:152-169 | only a held card outside committed melds and declared Tunnelas may be discarded; it goes on top, and the turn to the next unfolded player |
| `MarriageInvariant.SelectionConserves` | marriage/maal.py:23-36 | choosing the indicator, with or without refilling the stock, takes one standard card and keeps all the others |
| `MarriageEffects.SelectFromStock` | marriage/maal.py:23-36 | while the stock has a natural card the indicator is its topmost one, and the rest stays in place |
| `MarriageEffects.SelectFromDiscards` | marriage/maal.py:23-36 | otherwise all discards but the top one go shuffled under the stock's Man cards and the indicator is the topmost natural card of them, and there is one exactly when they hold one |
| `MarriageInvariant.ShowKeeps` | marriage/engine.py:197-224 | an accepted qualification, including revealing the indicator, commits a state satisfying the invariant |
| `MarriageEffects.ShowMeans` | marriage/engine.py:197-224 | qualifying is accepted exactly from an unqualified player on turn with a valid declaration, when an indicator is there or can be turned up; it commits the melds, and an indicator already chosen stays |
| `MarriageInvariant.FoldKeeps` | marriage/engine.py:237-259 | an accepted fold, including the one that ends the round, commits a state satisfying the invariant |
| `MarriageEffects.FoldMeans` | marriage/engine.py:237-259 | any active player may fold at any time; the last one left wins at once, and otherwise the turn passes on only when it was the folder's |
| `MarriageInvariant.FinishKeeps` | marriage/engine.py:261-291 | an accepted finish by partition, by search or by pair commits a state satisfying the invariant |
| `MarriageEffects.FinishMeans` | marriage/engine.py:261-291 | a finish makes the player on turn the winner, with a selection that passes the check, its discard going on the pile, or with seven Dublees and a valid eighth pair |
| `MarriageEngine.CandidateAudited` | marriage/engine.py:91-100 | from any state satisfying the invariant, whatever the command, the candidate passes the audit and satisfies the invariant |
| `MarriageEngine.RunAudited` | marriage/engine.py:91-291 | over every run from a fresh engine: the audit accepts the state and the next candidate, the 159 cards are conserved, and every declaration precedes every draw |
| `MarriageEngine.CandidateGrows` | marriage/engine.py:102-291 | one command only appends to the history, keeps the indicator once chosen, and keeps every seat's committed and declared cards in its hand |
| `MarriageEngine.RunGrows` | marriage/engine.py:102-291 | the same from any point of a run to any later one |
| `MarriageRecords.RosterMeans` | marriage/models.py:27-36 | a roster is admitted exactly with two to five players, no name twice, and one of them to begin |
| `MarriageRecords.RoundGoesOn` | marriage/invariants.py:75-80 | in every reachable round in progress at least two players have not folded, one of them is to move, and nobody has finished or won |
| `MarriageRecords.HandsAreWhole` | marriage/invariants.py:117-122 | in every reachable round a player has 21 different cards, and 22 exactly between drawing and discarding, unless a fold has left it at that |
| `MarriageRecords.QualifiedHaveSeen` | marriage/invariants.py:136-153 | in every reachable round exactly the qualified have seen the indicator and have laid down valid melds, of cards still held, and there is an indicator exactly when somebody has |
| `MarriageRecords.TunnelasAreHeld` | marriage/invariants.py:123-131 | in every reachable round declared Tunnelas are valid melds of cards still held, and no card is declared twice |
| `MarriageRecords.WinnerIsOne` | marriage/invariants.py:81-112 | every finished round has exactly one winner, not folded: the last one left, or with the finish that is recorded |
| `MarriageRecords.HistoryIsOrdered` | marriage/invariants.py:154-170 | in every reachable round events are numbered from one, revisions rise by at most one up to the state's, declarations come before the first draw, and at most one indicator is revealed, the one that counts |
| `MarriageGame.DealCards` | marriage/deck.py:26-34 | popping from the end of the deck, one card per hand and round, deals the hands and stock of the specification |
| `MarriageGame.MarriageGameEngine.CommitTurn` | marriage/engine.py:91-100 | the state is replaced exactly when the audit accepts the candidate, and is untouched otherwise |
| `MarriageGame.MarriageGameEngine.StartGame` | marriage/engine.py:47-71 | succeeds exactly on a waiting game, with revision one and an audited opening state |
| `MarriageGame.MarriageGameEngine.DeclareTunnelas` | marriage/engine.py:102-118 | the new state and answer are those of the step function, and the invariant holds afterwards |
| `MarriageGame.MarriageGameEngine.DrawCard` | marriage/engine.py:120-150 | likewise, for drawing |
| `MarriageGame.MarriageGameEngine.DiscardCard` | marriage/engine.py:152-169 | likewise, for discarding |
| `MarriageGame.MarriageGameEngine.Show` | marriage/engine.py:197-224 | likewise, for qualifying |
| `MarriageGame.MarriageGameEngine.Fold` | marriage/engine.py:237-259 | likewise, for folding |
| `MarriageGame.MarriageGameEngine.Finish` | marriage/engine.py:261-291 | likewise, for finishing, with the imperative solver run when no partition is supplied |
| `MarriageGame.DrawAdvertised` | marriage/queries.py:32-65 | in every reachable state a draw source is advertised to a seat exactly when drawing from it is accepted |
| `MarriageGame.DiscardAdvertised` | marriage/queries.py:32-65 | a card is listed as discardable exactly when discarding it is accepted |
| `MarriageGame.FinishAdvertised` | marriage/queries.py:32-65 | finishing is advertised exactly when a finish without arguments is accepted |
| `MarriageGame.FoldAdvertised` | marriage/queries.py:32-65 | folding is accepted from every active player in every state in progress; it is advertised exactly when, besides, no declaration is outstanding |
| `MarriageDiscards.DiscardRemains` | marriage/turns.py:53-57 | after a Normal qualification a card is left to discard exactly when some hand card is in none of the melds and in no initial Tunnela |
| `MarriageDiscards.DiscardWithoutTunnelas` | marriage/melds.py:61-62 | for a player without initial Tunnelas the declaration check does leave a card to discard |
| `MarriageDiscards.NothingLeft` | marriage/melds.py:61-62 | for a player with seven initial Tunnelas it may not: a declaration of nine of 22 cards that passes every check and leaves every card locked |
| `MarriageScoring.CopiesAre` | marriage/scoring.py:42-54 | a hand's cards of one face are listed once each and are at most three, so no table lookup is out of range |
| `MarriageScoring.FillByFace` | marriage/scoring.py:52-54 | filling the dictionary card by card gives each face its cards in id order |
| `MarriageScoring.BestCount` | marriage/scoring.py:49-50 | the number of Marriages chosen is the smallest one of greatest total |
| `MarriageScoring.GroupingIsBest` | marriage/scoring.py:47-63 | however disjoint Marriages are put together from a hand, the rest scoring singly, the total is at most that of the items awarded |
| `MarriageScoring.CardsScoreOnce` | marriage/scoring.py:51-70 | over the Marriage, Tiplu, Jhiplu, Poplu, Man and Alter items no physical card is listed twice, and every listed card is held |
| `MarriageScoring.ItemsPay` | marriage/scoring.py:51-70 | every item lists as many held cards of its own face as it counts, and pays what its own table lists for that many |
| `MarriageScoring.NothingUnscored` | marriage/scoring.py:51-63 | every held Man and every held card of the three Maal faces is in some item |
| `MarriageScoring.AlterIsSameColour` | marriage/scoring.py:65-67 | the Alter is the indicator's rank in the other suit of its colour |
| `MarriageScoring.BonusMeans` | marriage/scoring.py:71-81 | the bonus counts the declared Tunnelas when they are declared, else the shown ones or the faces held three times, as the scope says, each worth the same |
| `MarriageScoring.ScoreItems` | marriage/scoring.py:39-82 | the item list built by appending is the specified one |
| `MarriageScoring.MaalIsPairwise` | marriage/scoring.py:85-106 | a player's Maal result is the sum of the point differences with every player |
| `MarriageScoring.PaymentsBalance` | marriage/scoring.py:99-102 | nobody but the winner receives, and the winner receives exactly what the others pay |
| `MarriageScoring.LosersPayRates` | marriage/scoring.py:99-102 | a loser pays the seen rate when the Maal was seen and the unseen rate otherwise, and the bonus on top exactly when the winner finished with Dublees and not by fold |
| `MarriageScoring.ScoresZeroSum` | marriage/scoring.py:85-106 | Maal results, payments and net points each sum to zero over the players, for any rules and holdings |
| `MarriageScoring.FinishedScorable` | marriage/scoring.py:85-106 | in every reachable finished round the scores exist: the winner is a player and every table has an entry for what is held |
| `CallBreakRules.WinnerIsUnique` | callbreak/rules.py:22-32 | the play chosen as winner strictly beats every other play of the trick and is the only unbeaten one, so neither the order of plays nor the suits of discards matter |
| `CallBreakMeaning.WinnerMeans` | callbreak/rules.py:22-32 | a play wins exactly when it has the suit that decides, spades if one was played and else the led suit, and every other card of that suit is lower |
| `CallBreakMeaning.TakesMeans` | callbreak/rules.py:22-32 | a card takes the lead exactly when it is a spade or of the suit that decides, and above all cards of its suit |
| `CallBreakRules.AllOrNothing` | callbreak/rules.py:57-80 | if some legal card takes the lead every legal card does; one does exactly when some held card that follows suit where possible would win |
| `CallBreakMeaning.LegalMeans` | callbreak/rules.py:57-80 | a card is legal exactly when it is held and follows the led suit where possible, above all of that suit where possible unless a spade has taken another lead; without that suit, when it is a spade above the spades played where one is held, or anything |
| `CallBreakRules.LegalCards` | callbreak/rules.py:57-80 | the listed cards are exactly those of the priority rule on the hand as a set |
| `CallBreakRules.ValidateIsAllowed` | callbreak/rules.py:83-100 | validation accepts a play exactly when it is that player's turn, the card is held and it is legal, whatever the order of the hand |
| `CallBreakDeals.RebuildHands` | callbreak/audit.py:41-47 | appending every played card to its player's remaining hand gives the initial hands |
| `CallBreakDeals.ReplayOnLists` | callbreak/audit.py:52-60 | replaying a trick on lists with `validate_play` and `remove` succeeds exactly when the replay on sets does, and leaves the same cards |
| `CallBreakDeals.CheckBids` | callbreak/audit.py:28-37 | the pass over bids from the dealer's left accepts exactly bids in range, in order, and complete once a card was played |
| `CallBreakDeals.AuditDeal` | callbreak/audit.py:13-63 | the imperative audit of a deal accepts exactly the deals satisfying its specification |
| `CallBreakHistory.EveryPlayWasLegal` | callbreak/audit.py:51-60 | in an audited deal every card was played in turn and was one the rules allowed with the cards the player held then |
| `CallBreakHistory.EveryLeaderWasRight` | callbreak/audit.py:51-63 | the player on the dealer's left led the first trick, and the winner of each trick the next |
| `CallBreakHistory.EveryCardOnce` | callbreak/audit.py:41-50 | every card of the deck is not dealt, held or played, exactly once, and all hands dealt were of the same size |
| `CallBreakHistory.EveryBidInTurn` | callbreak/audit.py:28-37 | bids lie between one and the number of tricks, were placed from the dealer's left, and were all in before the first card |
| `CallBreakMatch.CheckMatch` | callbreak/audit.py:66-134 | the imperative audit of a match accepts exactly the matches satisfying its specification |
| `Dealing.DealtDeck` | callbreak/engine.py:95-103 | dealing a full deck round the table and keeping the rest accounts for every card once |
| `CallBreakInvariant.FreshInv` | callbreak/engine.py:24-30 | a new match satisfies the invariant |
| `CallBreakMeaning.TableMeans` | callbreak/config.py:14-30 | a match is admitted exactly with four or five players and a threshold of Jack or Queen, and equal hands with fewer cards left over than players make the deck |
| `CallBreakMeaning.GoesLeft` | callbreak/config.py:33-34 | going on by steps starts at the player and moves one seat to the left each, also for the turns of a trick |
| `CallBreakMeaning.CutMeans` | card_utils/operations.py:40-44 | after a cut the card at the position comes first, and what lay above it goes underneath in order |
| `CallBreakMeaning.DealtInTurn` | callbreak/engine.py:94-105 | cards go out one at a time from the dealer's left: the i-th of a round is the next card of the player i + 1 seats on, and the rest is not dealt |
| `CallBreakMeaning.RedealMeans` | callbreak/house_rules.py:25-33 | a redeal may be claimed exactly when weak hands count and no card is above the threshold, or missing spades count and no card is a spade |
| `CallBreakEffects.PrepareMeans` | callbreak/engine.py:53-65 | the next deal has the next number and the dealer that many seats on from the first one; a claimed redeal is the same deal one attempt later, and the hands given back are kept |
| `CallBreakEffects.ShuffleMeans` | callbreak/engine.py:164-173 | only the dealer asks for the shuffle, which does nothing but wait for a deck |
| `CallBreakEffects.DeckMeans` | callbreak/engine.py:66-74 | a full deck is accepted exactly while it is awaited, and is the one kept |
| `CallBreakEffects.CutterMeans` | callbreak/engine.py:164-181 | only the player on the dealer's left cuts or leaves the deck, at a position from 1 to 51, and the deck so cut is the one to be dealt |
| `CallBreakEffects.DistributionMeans` | callbreak/engine.py:156-163 | only the dealer distributes, and the deck handed in and cut is the one dealt |
| `CallBreakEffects.StartMeans` | callbreak/engine.py:77-91 | a deck handed in directly opens the next deal with the same rotation of dealers |
| `CallBreakEffects.RedealDealt` | callbreak/engine.py:77-91 | a redeal deals the claimed deal again, by the same dealer and one attempt later |
| `CallBreakEffects.AcceptMeans` | callbreak/engine.py:191-207 | each player accepts a hand once, and bidding opens exactly when everybody has |
| `CallBreakEffects.ClaimMeans` | callbreak/engine.py:191-200 | a redeal is granted exactly to a player who has not accepted and whose hand qualifies |
| `CallBreakEffects.BidMeans` | callbreak/engine.py:209-227 | a bid is accepted exactly from the first player from the dealer's left who has none, within the number of tricks; it is recorded, and the last one opens the first trick for the dealer's left |
| `CallBreakEffects.PlayAccepted` | callbreak/engine.py:228-234 | a card is accepted exactly from the player whose turn it is and when the rules allow it |
| `CallBreakEffects.PlayMeans` | callbreak/engine.py:228-259 | the card moves from the hand to the trick and nothing else of hands and bids changes; a complete trick is archived and its winner leads, and after the last one the deal is archived, the match ending with the fifth |
| `CallBreakEffects.RefusalsMean` | callbreak/engine.py:148-234 | every refusal of a player's action says why: a stranger, a finished match, a wrong phase, a wrong turn, or what the action itself lacks, in that order |
| `CallBreakInvariant.DistributeShape` | callbreak/engine.py:94-113 | distributing a full deck is never refused: the audit of the new deal accepts it |
| `CallBreakInvariant.DistributeKeeps` | callbreak/engine.py:94-113 | distribution keeps the invariant, for first attempts and redeals |
| `CallBreakInvariant.ControlKeeps` | callbreak/engine.py:50-91 | every controller command keeps the invariant or is rejected without a crash |
| `CallBreakInvariant.PreparationKeeps` | callbreak/engine.py:148-180 | shuffling, cutting and skipping the cut keep the invariant |
| `CallBreakInvariant.ReviewKeeps` | callbreak/engine.py:181-208 | accepting a hand and claiming a redeal keep the invariant |
| `CallBreakInvariant.BidOrder` | callbreak/audit.py:31-37 | when bids are in order, the players who have bid are exactly the first ones after the dealer |
| `CallBreakInvariant.BidKeeps` | callbreak/engine.py:209-227 | bidding keeps the invariant, including the bid that opens play |
| `CallBreakPlay.HandsRunOut` | callbreak/audit.py:99-100 | when all tricks of a deal are complete no hand has a card left |
| `CallBreakPlay.WonTotal` | callbreak/deals.py:36-39 | the tricks won by the players add up to the number of completed tricks |
| `CallBreakPlay.ScoresExist` | callbreak/scoring.py:4-12 | on a completed deal scoring never raises |
| `CallBreakMeaning.ScoreMeans` | callbreak/scoring.py:4-12 | a bid that is met earns ten for every trick bid and one for every trick beyond; a bid that is missed costs what it would have earned |
| `CallBreakMeaning.DealScored` | callbreak/engine.py:249-255 | in every reachable match each archived deal records the bids placed, the number of tricks each player won, and their points |
| `CallBreakMeaning.WinnersMean` | callbreak/game.py:69-79 | a finished match is won by exactly those whose points over all deals nobody exceeds, and there is one; an unfinished match by nobody |
| `CallBreakPlay.TrickEnds` | callbreak/engine.py:238-259 | the play that completes a trick leads to a state satisfying the invariant, whether the winner leads again or the deal is scored |
| `CallBreakPlay.PlayKeeps` | callbreak/engine.py:228-259 | every play keeps the invariant or is rejected without a crash |
| `CallBreakRuns.StepKeeps` | callbreak/engine.py:50-259 | every command of controller or player keeps the invariant, or is rejected |
| `CallBreakRuns.Restore` | callbreak/replay.py:36-43 | the loop through the reducer computes the recursive run; it never crashes or loses the deck, and its result passes the audit |
| `CallBreakRuns.RunAudited` | callbreak/audit.py:13-134 | every record that restores, restores to a match in which the backward reconstruction finds nothing, with one revision per command |
| `CallBreakProgress.AvailableAccepted` | callbreak/engine.py:138-145 | a card is listed as available exactly when playing it is accepted |
| `CallBreakProgress.SomeoneCanPlay` | callbreak/engine.py:138-145 | in the playing phase somebody has the turn and a card that will be accepted |
| `CallBreakProgress.SomeoneCanAct` | callbreak/engine.py:50-259 | before its end a match always has a command that will be accepted, in every phase |
| `CallBreakProgress.StepApproaches` | callbreak/engine.py:50-259 | a natural-number distance to the end of the match falls with every accepted command except those of the awaiting-redeal phase |
| `CallBreakProgress.RunLength` | callbreak/engine.py:50-259 | a run that deals directly, without redeals, has a length that can be read off its state |
| `CallBreakProgress.MatchLength` | callbreak/engine.py:209-259 | such a match is complete exactly at revision 285 with four players, 280 with five, and never goes beyond |
| `CallBreakReplay.ParseCardIs` | card_utils/cards.py:44-55 | a text parses to a card exactly when it is that card's text |
| `CallBreakReplay.EntryIs` | callbreak/replay.py:45-117 | a row decodes to an entry exactly when it is that entry's encoding |
| `CallBreakReplay.ConfigIs` | callbreak/replay.py:45-117 | the configuration object decodes to a configuration exactly when it is its encoding |
| `CallBreakReplay.LoadIs` | callbreak/replay.py:45-117 | loading yields a replay exactly on the dump of that replay, for every replay that restores: both round trips, and nothing else is accepted |
| `CallBreakReplay.LoadedIsAudited` | callbreak/replay.py:70-117 | whatever loads describes a run the reducer accepts, ending in an audited match |
| `CallBreakReplay.Dumps` | callbreak/replay.py:45-69 | the loop that builds rows produces the dump |
| `CallBreakReplay.Loads` | callbreak/replay.py:70-117 | the loop that parses rows computes the load, hence accepts exactly dumps of replays that restore |
| `FlushEvaluator.ClassMeans` | flush/evaluator.py:26-51 | each hand class is characterised by the set of ranks and the equality of suits alone |
| `FlushEvaluator.SequenceMeans` | flush/evaluator.py:26-51 | a sequence is recognised exactly when the ranks are three in a row, or Ace, two, three |
| `FlushEvaluator.AceLow` | flush/evaluator.py:26-51 | Ace-two-three stands where each of the three policies puts it among all sequences |
| `FlushEvaluator.RunsInOrder` | flush/evaluator.py:26-51 | among the other sequences the higher one wins, under every policy |
| `FlushRanking.StrongerClassWins` | flush/evaluator.py:26-55 | a hand of a stronger class beats every hand of a weaker one: trail, pure sequence, sequence, colour, pair, high card |
| `FlushRanking.TrailsMean` | flush/evaluator.py:30-33 | of two trails the one of higher cards wins |
| `FlushRanking.HighCardsMean` | flush/evaluator.py:45-51 | colours and high cards go by the highest rank that only one of the two hands holds |
| `FlushRanking.PairsMean` | flush/evaluator.py:47-50 | pairs go by the rank held twice, and equal pairs by the third card |
| `FlushRanking.SequencesMean` | flush/evaluator.py:35-44 | sequences go by their ranks, with ace, two and three below ace, king and queen only, above all, or below all, as the policy says |
| `FlushEvaluator.SuitBlind` | flush/evaluator.py:26-51 | renaming suits and permuting the cards leaves the grade unchanged |
| `FlushEvaluator.CompareOrders` | flush/evaluator.py:53-55 | comparison is a total preorder under every Ace policy, and ties are equal grades |
| `FlushEvaluator.BestIsUnbeaten` | flush/settlement.py:9-33 | the best grade is one nobody beats, and a grade is best exactly when nobody beats it |
| `FlushAudit.Tally` | flush/invariants.py:28-34 | the accumulation over the history fails exactly on an unknown payer or a negative amount, and otherwise gives each player the sum of that player's payments of the round |
| `FlushAudit.ValidateGameState` | flush/invariants.py:7-135 | the audit as a sequence of early returns accepts exactly its specification |
| `FlushInvariant.MoneyGrows` | flush/invariants.py:27-36 | one payment recorded in the history keeps pot, contributions and history in agreement |
| `FlushInvariant.InRoundKeeps` | flush/engine.py:63-73 | a commit inside a round that pays at most once and respects the table rules keeps the invariant |
| `FlushBetting.BetRaises` | flush/engine.py:147-161 | a legal bet never lowers the seen or the blind minimum |
| `FlushEffects.BetMeans` | flush/engine.py:147-161 | a bet is accepted exactly on turn with the minimum of the bettor's visibility; it is paid and counted, the turn goes to the next active player, and the bet is the next minimum for the same visibility, its multiple for a seen player after a blind bet, the least amount whose multiple covers it for a blind one after a seen bet |
| `FlushEffects.NobodyBetsLess` | flush/engine.py:147-161 | after an accepted bet the next player may bet less only with another visibility |
| `FlushBetting.BetKeeps` | flush/engine.py:147-161 | a bet is accepted exactly on one's turn with at least the required amount, and keeps the invariant |
| `FlushBetting.SeeKeeps` | flush/engine.py:163-167 | seeing one's cards is accepted exactly when eligible, and keeps the invariant |
| `FlushTurns.OnTurnMeans` | flush/turns.py:25-37 | a move is open exactly to the player in the current seat of a round in progress without pending shows; any other active player gets the turn error, anybody else the action error |
| `FlushTurns.NextSeatMeans` | flush/turns.py:17-22 | the next seat is the first active one going on round the table |
| `FlushTurns.PreviousMeans` | flush/side_show.py:39-46 | the player asked is the nearest earlier one who is active and has seen the cards, and there is one exactly when anybody else has |
| `FlushTurns.ShowAllowed` | flush/turns.py:65-83 | a show is allowed exactly on turn against one opponent: to a seen player when the rules allow it, to a blind one also only after enough blind bets |
| `FlushTurns.SideShowMeans` | flush/side_show.py:49-64 | a side-show is allowed exactly on turn to a seen player with enough bets, with three players or more of whom another has seen |
| `FlushEffects.SeeMeans` | flush/engine.py:163-167 | seeing is accepted exactly from a blind player on turn, and changes only the visibility |
| `FlushSettlement.SharesSplitPot` | flush/settlement.py:9-33 | payouts add up to the pot, differ by at most one, and give the odd points to the first winners in order |
| `FlushSettlement.OddPointsClockwise` | flush/settlement.py:9-33 | in every settlement the winners are listed as one meets them going clockwise from the dealer's left, and of two winners the one met first receives no less and at most one point more |
| `FlushSettlement.ClockwiseIs` | flush/settlement.py:9-33 | that order is clockwise from the dealer's left, every seat once |
| `FlushSettlement.NetIsZero` | flush/engine.py:169-177 | the net changes of a finished round sum to zero |
| `FlushSettlement.FinishKeeps` | flush/engine.py:169-177 | closing a round keeps the invariant |
| `FlushShows.FoldKeeps` | flush/engine.py:179-188 | folding keeps the invariant, also when it ends the round or answers a show |
| `FlushEffects.FoldMeans` | flush/engine.py:179-188 | a fold passes the turn to the next active player, and the fold that leaves one player gives that one the whole pot |
| `FlushShows.LeaveKeeps` | flush/engine.py:190-208 | leaving keeps the invariant in every situation, including pending shows and side-shows that have to be unwound |
| `FlushEffects.LeaveMeans` | flush/engine.py:190-208 | an active player may leave at any time; a side-show that cannot take place ends, the turn moves only when it was the leaver's or past the requester of that side-show, and the last player left takes the pot, also out of a pending show |
| `FlushShows.ShowKeeps` | flush/engine.py:210-223 | asking for a show is accepted exactly when eligible, and keeps the invariant |
| `FlushEffects.ShowMeans` | flush/engine.py:210-223 | the requester pays the minimum so many times and lays the hand open, and the only opponent has to answer |
| `FlushShows.RespondKeeps` | flush/engine.py:225-240 | a show is answered exactly by its target, and the answer keeps the invariant |
| `FlushEffects.ShowFolded` | flush/engine.py:228-240 | answering a show by folding is open to its target only and leaves the pot to the requester |
| `FlushSideShow.RequestKeeps` | flush/engine.py:245-257 | asking for a side-show is accepted exactly when eligible, and keeps the invariant |
| `FlushEffects.SideShowAsked` | flush/engine.py:245-257 | the requester pays the seen minimum and asks the nearest seen player before, who has to answer |
| `FlushSideShow.RespondSideKeeps` | flush/engine.py:259-286 | a side-show is answered exactly by its target, and the answer keeps the invariant |
| `FlushEffects.SideShowDeclines` | flush/engine.py:265-286 | declining is open to the target only, and gives the turn to the next active player after the requester |
| `FlushGame.SideShowVerdict` | flush/engine.py:265-286 | an accepted side-show folds exactly one of the two: the target when the requester's hand is strictly better, the requester otherwise, ties included |
| `FlushRecords.RulesMean` | flush/rules.py:32-53 | rules are admitted exactly with no negative count or price, positive stakes, two to ten players, and blind shows only where two may show blind |
| `FlushRecords.ConfigMeans` | flush/models.py:17-30 | a roster is admitted exactly with as many players as the rules allow, each with a name of more than white space, no name twice, and one of them the dealer |
| `FlushRecords.WaitingIsEmpty` | flush/invariants.py:73-79 | the audit lets a table wait for its first round only with nothing dealt, paid, recorded or pending |
| `FlushRecords.PreparedIsEmpty` | flush/invariants.py:80-94 | the audit lets a table wait for its deal only with nothing dealt, paid or pending, no deck before the shuffle and a full one after it, and its last event of the current revision |
| `FlushPreparation.StartKeeps` | flush/engine.py:75-82 | starting is accepted exactly on a waiting game, and keeps the invariant |
| `FlushRounds.StartMeans` | flush/engine.py:75-82 | starting gives the turn to the dealer and does nothing else |
| `FlushPreparation.NextRoundKeeps` | flush/engine.py:84-98 | a next round is accepted exactly on a finished one, from a winner or with a well-formed new roster, and keeps the invariant |
| `FlushRounds.NextRoundMeans` | flush/engine.py:87-98 | a next round keeps only rules, record and history: the roster starts afresh, its opener deals, and the round number is one higher |
| `FlushPreparation.DealKeeps` | flush/engine.py:100-109 | dealing is accepted exactly from the dealer, and keeps the invariant |
| `FlushRounds.ShuffleMeans` | flush/engine.py:100-109 | only the dealer shuffles, and the player on the dealer's left is to cut that deck |
| `FlushPreparation.CompleteDealKeeps` | flush/engine.py:111-141 | cutting or skipping is accepted exactly from the player entitled to, and keeps the invariant |
| `FlushRounds.CutMeans` | flush/engine.py:111-141 | only the player on the dealer's left cuts or leaves the deck; cards go out one at a time from there, three to each, everybody pays the boot, and the first minimums are the rules' |
| `FlushPreparation.DealtCards` | flush/engine.py:119-141 | the dealt hands have three different cards each and with the stock make the deck |
| `FlushEngine.DecideKeeps` | flush/engine.py:63-297 | every command keeps the invariant or is refused |
| `FlushEngine.RunAudited` | flush/engine.py:63-297 | over every run of any number of rounds, departures and rosters the audit accepts the state reached and whatever is committed next; refusals are only the engine's own |
| `FlushEngine.PotIsHistory` | flush/invariants.py:27-36 | the pot equals the sum of contributions and the total of the round's payments in the history |
| `FlushRecords.RoundsBalance` | flush/invariants.py:19-26 | at every reachable table each finished round is recorded once under its number, with winners among its players and net changes that sum to zero |
| `FlushRecords.PotIsPaid` | flush/invariants.py:111-116 | every finished round has paid exactly its pot to different players who were still in it, and each net change is what was received less what was paid |
| `FlushRecords.EndingIsTrue` | flush/invariants.py:117-131 | the recorded reason fits: one player left and nothing shown, one left and one hand shown, or two left and shown with the cards they hold |
| `FlushRecords.FoldedShowIsTrue` | flush/invariants.py:120-126 | a show that was folded on was the last one asked for in the round, shows its requester's hand, and left one of the two it names as the only player |
| `FlushRecords.PendingShowIsTrue` | flush/invariants.py:42-54 | a pending show is between the only two players left, waits for the one to move, and shows the other's hand and no other |
| `FlushRecords.SideShowsAreTrue` | flush/invariants.py:65-72 | every recorded side-show was between two players with the cards they hold, of whom one won and the other has folded |
| `FlushEngine.MinimumsRise` | flush/engine.py:147-161 | within a round neither minimum ever falls, the pot never falls, and the blind minimum is the seen one divided by the multiplier, rounded up |
| `FlushEngine.KindsExact` | flush/queries.py:78-106 | an action is accepted exactly when its kind is advertised and its amount or cut is legal |
| `FlushEngine.SomeoneCanAct` | flush/queries.py:78-106 | in every reachable started state some player has an advertised action |
| `FlushGame.HandOut` | flush/engine.py:119-141 | the loop from the dealer's left gives each seat its hand and collects each boot |
| `FlushGame.BestIdsUnbeaten` | flush/settlement.py:9-33 | the best ids are exactly those of players nobody beats, whatever the order of seats |
| `FlushGame.ShowVerdict` | flush/settlement.py:9-33 | after a reveal the winners, in clockwise order from the dealer's left, are the unbeaten players, less the requester when both tie and the rules say so |
| `FlushGame.FlushGameEngine.CommitCandidate` | flush/engine.py:63-73 | the state is replaced exactly when the audit accepts the numbered candidate, and is untouched otherwise |
| `FlushGame.FlushGameEngine.StartGame` | flush/engine.py:75-82 | the new state and answer are those of the step function; accepted exactly on a waiting game |
| `FlushGame.FlushGameEngine.PrepareNextRound` | flush/engine.py:87-98 | the new state and answer are those of the step function |
| `FlushGame.FlushGameEngine.CompleteDeal` | flush/engine.py:119-141 | likewise, with the loop over the hands |
| `FlushGame.FlushGameEngine.FoldForLeave` | flush/engine.py:190-208 | likewise; an accepted departure leaves exactly one active player fewer |
| `FlushGame.FlushGameEngine.ApplyAction` | flush/engine.py:288-297 | likewise for every action; accepted exactly when advertised with a legal amount or cut |
| `DurableModels.Replay` | app/durable_games/replay.py:15-26 | the loop counting expected sequences computes the recursive replay, with its errors |
| `DurableModels.ReplayAppends` | app/durable_games/replay.py:15-26 | replaying a journal with consecutive new entries is applying these to the replayed state |
| `DurableGame.SettledIs` | app/durable_games/store.py:365-392 | a decision that settles has consecutively numbered events, a receipt naming their range, and a state that replay of the extended journal reaches |
| `DurableEffects.StaleRejected` | app/durable_games/store.py:366-369 | a command that does not expect the current revision is rejected as stale: the rejection is stored, and neither events nor revision change |
| `DurableEffects.RulesDecide` | app/durable_games/store.py:365-392 | a command on the current revision is rejected with the rules' code when they refuse it or one of its events, and otherwise commits exactly the events they propose; rules that raise, change the state while deciding or do not move the revision with their events commit nothing |
| `DurableEffects.ExecuteRefused` | app/durable_games/store.py:266-284 | a call with another key, on incompatible rules, on an inactive game, or by a stale owner is refused with the error of its kind and changes nothing |
| `DurableEffects.LoadMeans` | app/durable_games/store.py:249-264 | a stored game is opened exactly by its own type, versions and rules, while replay succeeds and the number of entries and the revision agree with it |
| `DurableEffects.RequestMeans` | app/durable_games/store.py:55-60 | two requests have one fingerprint exactly when expected revision, command and payload are equal, and one key exactly when actor and command id are |
| `DurableGame.ExecuteKeeps` | app/durable_games/store.py:266-295 | whoever calls and however it ends, execution keeps the record sound, appends only, and touches no stored receipt |
| `DurableGame.ReceiptsPartition` | app/durable_games/store.py:266-295 | the ranges of event-bearing receipts are disjoint, cover the journal, and each entry names the command that covers it |
| `DurableGame.RetryReturnsReceipt` | app/durable_games/store.py:278-284 | a command executed again, later and by any valid owner, gives its first receipt and appends nothing; another request under its id is refused |
| `DurableGame.LoadSucceeds` | app/durable_games/store.py:249-264 | a sound record loads exactly when the definition accepts its rules, and then to the replayed state |
| `DurableGame.AcquireWhenFree` | app/durable_games/store.py:297-313 | a lease is granted exactly when nobody holds one, raises the epoch by one, and from then on only its taker's token is valid |
| `DurableGame.RenewKeeps` | app/durable_games/store.py:315-326 | renewal is granted exactly to a valid owner and keeps epoch and token |
| `DurableEffects.LeaseLength` | app/durable_games/store.py:297-326 | an acquired or renewed ownership holds exactly until the clock of the grant plus the lease, and a lease that is not positive is refused |
| `DurableGame.OldOwnerFenced` | app/durable_games/store.py:353-362 | an ownership of an earlier epoch neither executes nor renews |
| `DurableStore.StepKeeps` | app/durable_games/store.py:140-362 | every operation of the store keeps all its games sound and loses nothing |
| `DurableStore.RunOk` | app/durable_games/store.py:249-295 | in every store a run reaches, journals are numbered from one without gaps, replay gives the current revision, and receipts cover the journal |
| `DurableStore.RunGrows` | app/durable_games/store.py:140-362 | from any point of a run to any later one journals only grow, receipts stay and epochs do not fall |
| `DurableStore.EpochsRise` | app/durable_games/store.py:297-313 | the epochs of committed commands of a game never decrease along a run |
| `DurableEffects.RevisionUsedOnce` | app/durable_games/store.py:266-295 | over every run, of two accepted commands of one game that wrote events the later one expected a later revision, so no revision is built upon twice |
| `DurableStore.FencedForever` | app/durable_games/store.py:353-362 | once a new epoch is granted, every older ownership is refused for the rest of the run and changes nothing |
| `DurableStore.RetrySame` | app/durable_games/store.py:278-284 | a retried command that is answered returns its original receipt, however many operations came between |
| `DurableStore.StartRetried` | app/durable_games/store.py:199-223 | a repeated start opens the same game, grants no second lease and changes nothing |
| `DurableEffects.StartMeans` | app/durable_games/store.py:199-240 | a new game is started exactly when the lease is positive and the roster names different free users on different positive seats; its record is fresh and its first owner is the caller |
| `DurableEffects.RestartMeans` | app/durable_games/store.py:199-223 | starting a game that exists changes nothing, and opens it exactly for the same rules, room, first state, start command and roster |
| `DurableEffects.CreateMeans` | app/durable_games/store.py:176-197 | creating makes a fresh record without owner or players, and creating again opens the record exactly when it is the same game |
| `DurableEffects.ReleaseMeans` | app/durable_games/store.py:348-351 | releasing a game frees its players and nobody else |
| `DurableStore.StartReserves` | app/durable_games/store.py:224-240 | a created game reserves exactly its roster, none of whom was reserved before, and disturbs nobody else |
| `DurableService.InMemoryGameStore.LoadLocked` | app/durable_games/store.py:249-264 | loading with the replay loop gives the specified result |
| `DurableService.InMemoryGameStore.ExecuteLocked` | app/durable_games/store.py:266-295 | the field-by-field update gives the specified record and answer |
| `DurableService.InMemoryGameStore.Execute` | app/durable_games/store.py:266-295 | the store steps as specified, touching at most the one game |
| `DurableService.InMemoryGameStore.Acquire` | app/durable_games/store.py:297-313 | likewise |
| `DurableService.InMemoryGameStore.Renew` | app/durable_games/store.py:315-326 | likewise |
| `DurableService.InMemoryGameStore.Start` | app/durable_games/store.py:199-240 | the store steps as specified and keeps every game it had |
| `DurableService.InMemoryGameStore.ReservePlayers` | app/durable_games/store.py:345-346 | the loop over a roster writes exactly its reservations |
| `LedgerPlan.PlanShape` | app/ledger/service.py:9-21 | every transfer is positive and goes from a debtor to a creditor |
| `LedgerPlan.PlanSettles` | app/ledger/service.py:9-21 | for debts and dues of equal total everyone pays and receives exactly what is theirs, in at most one transfer fewer than there are people |
| `LedgerEffects.PlanInTurn` | app/ledger/service.py:9-22 | debtors pay in the order of their names and creditors are paid in theirs: no transfer is between people ahead of those of an earlier one |
| `LedgerPlan.TransferPlan` | app/ledger/service.py:9-21 | the loop with two moving indices and balances reduced in place computes the recursive plan |
| `LedgerPlan.PlanSettlesBalances` | app/ledger/service.py:9-21 | for any zero-sum balances the plan brings every balance to zero, nobody both pays and receives, and there are at most the nonzero balances less one |
| `LedgerBalances.ListingsOrdered` | app/ledger/service.py:4-6 | the two listings are in order by player and by size |
| `LedgerEffects.BalancesListed` | app/ledger/service.py:4-6 | balances are listed without the zero ones, largest first and by name where they are equal |
| `LedgerEffects.StringLessMeans` | app/ledger/service.py:4-11 | one name comes before another exactly when it is a proper beginning of it or smaller at the first place where they differ |
| `LedgerBalances.Balances` | app/ledger/service.py:86-90 | adding up games gives each player the sum over the games, and zero in all |
| `LedgerService.AddUp` | app/ledger/service.py:86-90 | the accumulating loop computes that sum |
| `LedgerStore.RecordKeeps` | app/ledger/store.py:40-45 | recording is refused exactly on a different result under a known id, and keeps the ledger sound |
| `LedgerStore.NewBatchOk` | app/ledger/service.py:77-100 | the batch a settlement writes is sound: its transfers square the balances of all unclaimed games of its scope |
| `LedgerEffects.UnclaimedMeans` | app/ledger/service.py:84-88 | a settlement takes up exactly the recorded games of the room and table, or the one game asked for, that no settlement of the room lists |
| `LedgerEffects.CreateMeans` | app/ledger/service.py:77-100 | whatever is added is one open settlement of exactly those games with open transfers in turn, for a member with a balance in them; a stranger and a member without one are refused |
| `LedgerStore.RaisedExactly` | app/ledger/store.py:53-72 | the in-memory creation raises exactly when a member asks with a new key for unclaimed games in which the member has a balance, and some settlement exists already, of any room; the store is unchanged then |
| `LedgerStore.GivenExactly` | app/ledger/store.py:53-72 | such a request is given a settlement exactly when the store holds none; as intended, always |
| `LedgerStore.SecondRaises` | app/ledger/store.py:57-59 | two players, two games and a settlement asked for after each: the second raises as written, and is given as intended |
| `LedgerStore.AtMostOneBatch` | app/ledger/store.py:53-72 | no run of the in-memory store as written ever holds two settlements |
| `LedgerStore.CreateKeeps` | app/ledger/service.py:77-100 | in both readings creation keeps the ledger sound; as intended, the games it takes are in no other batch |
| `LedgerStore.GivenInRoom` | app/ledger/store.py:53-56 | a creation is answered with a batch of its own room exactly when its key is new to its user or was used in that room |
| `LedgerStore.RunOk` | app/ledger/store.py:33-105 | in every ledger a run reaches, in both readings, every batch squares its games, its status is that of its transfers, and no game is in two batches (which has content in the intended reading only, since the other never holds two) |
| `LedgerStore.RunGrows` | app/ledger/store.py:77-105 | from any point of a run to any later one transfers only go from open to marked to resolved, and no batch or game is lost or rewritten |
| `LedgerStore.ActKeeps` | app/ledger/store.py:77-105 | acting on a transfer keeps the ledger sound |
| `LedgerStore.ActMoves` | app/ledger/store.py:77-105 | an answered call moves its transfer exactly when its key is new for the action; a move is one step forward, by the payer or then the payee, and changes nothing else |
| `LedgerEffects.ActMeans` | app/ledger/store.py:77-105 | the payer marks an open transfer paid and the payee confirms a marked one, at the time of the call; anybody else is forbidden to, out of turn it is invalid, and only that transfer and the batch's status change |
| `LedgerEffects.ActRefused` | app/ledger/store.py:77-83 | a stranger is forbidden to act, and a batch or transfer the room does not have is missing |
| `LedgerEffects.StatusMeans` | app/ledger/store.py:101-103 | a batch is resolved exactly when all its transfers are, and open exactly when none is |
| `LedgerService.InMemoryLedgerStore.RecordGame` | app/ledger/store.py:40-45 | the store steps as specified |
| `LedgerService.InMemoryLedgerStore.ClaimsRaise` | app/ledger/store.py:57-59 | reading the claimed games raises exactly when some batch lists a game |
| `LedgerService.InMemoryLedgerStore.CreateSettlement` | app/ledger/service.py:77-100 | the store steps as specified for the code as written, with the imperative sum and plan |
| `LedgerService.InMemoryLedgerStore.Act` | app/ledger/store.py:77-105 | the store steps as specified |
| `TableRotation.CandidateIsFirst` | app/multiplayer/table.py:112 | the person offered a seat is the first in the queue without a pending offer |
| `TableFairness.JoinsBehind` | app/multiplayer/table_lifecycle.py:132-140 | whoever joins the queue waits behind everybody who is waiting, and the others keep their places |
| `TableFairness.FirstComeFirstServed` | app/multiplayer/table.py:90-115 | over every run, of two people who wait without interruption the one ahead stays ahead, and the other never has an offer while the first has none |
| `TableEffects.HostMeans` | app/multiplayer/table_lifecycle.py:131-131 | the host is whoever sits in the first occupied seat |
| `TableRotation.ClosedKeeps` | app/multiplayer/table.py:93-102 | closing offers keeps the table sound, changes only pending ones, and leaves none that has run out or whose recipient has left |
| `TableRotation.ServedKeeps` | app/multiplayer/table.py:106-115 | serving the queue keeps the table sound, and no released seat is left without an offer while somebody waits without one |
| `TableRotation.AdvanceKeeps` | app/multiplayer/table.py:90-115 | advancing the clock keeps the table sound, moves nobody between seats, and leaves only offers that are still open |
| `TableEffects.AdvanceMeans` | app/multiplayer/table.py:90-115 | a pending offer is called off exactly when the match is not over any more or its recipient has left, and else runs out exactly at its time; those whose offer closed, who sit, or who left stop waiting; new offers name released seats and people waiting |
| `TableRotation.DoKeeps` | app/multiplayer/table_lifecycle.py:62-239 | every command keeps the table sound |
| `TableRotation.RunKeeps` | app/multiplayer/table_lifecycle.py:113-244 | a command between two advances leaves the table sound and served |
| `TableRotation.RunOk` | app/multiplayer/table_lifecycle.py:62-239 | over every interleaving from a duplicate-free roster: nobody holds two seats, a released seat has at most one pending offer, pending recipients are distinct and unseated, and every pending offer names a released empty seat |
| `TableRotation.AcceptedInTime` | app/multiplayer/table_lifecycle.py:177-196 | an accepted offer had not run out, its seat was released and empty, and exactly that seat goes to its recipient |
| `TableEffects.AcceptMeans` | app/multiplayer/table_lifecycle.py:177-196 | accepting is open exactly to the recipient of a standing offer who is free to play; it fills that seat, ends its release and takes the recipient out of the queue |
| `TableEffects.DeclineMeans` | app/multiplayer/table_lifecycle.py:177-196 | declining is open exactly to the recipient of a standing offer, and takes the recipient out of the queue |
| `TableEffects.InviteMeans` | app/multiplayer/table_lifecycle.py:163-176 | while nobody waits the host may invite to any released seat and a leaver to the own one, exactly an unseated member without an offer |
| `TableEffects.LeaveSeatMeans` | app/multiplayer/table_lifecycle.py:62-92 | leaving frees the seat and, after the match, releases it in the leaver's name; nothing else changes |
| `TableEffects.LeaveQueueMeans` | app/multiplayer/table_lifecycle.py:105-111 | leaving the queue calls off the leaver's offers and nobody else's |
| `TableRotation.NextMatchReady` | app/multiplayer/table_lifecycle.py:218-239 | a next match starts only with no offer pending, every seat filled, and different members of the room |
| `TableEffects.NextMatchMeans` | app/multiplayer/table_lifecycle.py:218-239 | a next match is called exactly by the host of a full table of members without releases, and its roster is the occupants seat by seat |
| `TableEffects.EndMeans` | app/multiplayer/table.py:90-107 | ending a table only marks it, and the time that follows calls off every pending offer |
| `TableService.TableState.CloseOffers` | app/multiplayer/table.py:93-102 | the loop over offers computes the specified table |
| `TableService.TableState.NextCandidate` | app/multiplayer/table.py:112 | the scan with a set of reserved people finds the specified candidate |
| `TableService.TableState.ServeQueue` | app/multiplayer/table.py:106-115 | the loop over released seats, with its growing set of reserved people, computes the specified table |
| `TableService.TableState.AdvanceTo` | app/multiplayer/table.py:90-115 | the in-place advance computes the specified table |
| `TableService.TableState.AnswerOffer` | app/multiplayer/table_lifecycle.py:177-196 | accepting and declining change the table as specified, or refuse and change nothing |
| `TableService.TableState.TableCommand` | app/multiplayer/table_lifecycle.py:113-217 | the command loop computes the specified run and refuses exactly when specified |
| `TableService.TableState.StartNextMatch` | app/multiplayer/table_lifecycle.py:218-239 | the next match's roster is the specified one, or none |

## Findings

Each is a lemma of the table above.

| finding | source | lemma |
|---|---|---|
| The in-memory ledger cannot hold a second settlement: `create_batch` asks every game of every batch for its id, but a batch lists its games by id, so the comprehension raises. | app/ledger/store.py:57-59 | `LedgerStore.RaisedExactly`, `LedgerStore.GivenExactly`, `LedgerStore.SecondRaises` |
| A settlement key its user has already used in another room is answered with that other room's batch. | app/ledger/store.py:54-56 | `LedgerStore.GivenInRoom` |
| A transfer request whose key was already used for the same action, on any transfer, is answered with the batch and changes nothing. | app/ledger/store.py:84-86 | `LedgerStore.ActMoves` |
| Folding in Marriage is accepted while Tunnela declarations are outstanding, although it is not advertised then. | marriage/queries.py:32-65 | `MarriageGame.FoldAdvertised` |
| A Normal qualification is refused unless it "must leave a card available to discard", but the check counts meld cards only, and cards of initial Tunnelas are locked too: seven Tunnelas and one drawn card can be declared so that nothing is left, and only folding remains. | marriage/melds.py:61-62 | `MarriageDiscards.NothingLeft`, `MarriageDiscards.DiscardRemains` |
| A Call Break match that deals directly and cannot redeal takes exactly 285 accepted commands with four players and 280 with five. | callbreak/engine.py:50-259 | `CallBreakProgress.MatchLength` |

## Left out

- LedgerStore.RunOk: for the in-memory store as written it says little about distinct batches, because `LedgerStore.AtMostOneBatch` holds; the reading with the ids taken as they are stored is the one its separation of batches is about.
- CallBreakProgress.StepApproaches: excludes the phase that waits for a redeal, because a redeal restarts the deal; nothing bounds the number of redeals.
- DurableStore.RetrySame: assumes that the retry is answered at all; a caller whose lease has run out is refused, as in the code.
- DurableStore.RunOk: assumes that decoding an encoded state gives the state back and that a key names one definition.
- LedgerStore.GivenExactly: leaves the guards before the store (membership, a known key, no games, no balance) to `LedgerStore.RaisedExactly` and the function itself.
- TableRotation.RunOk: covers completed tables whose seats must be replaced; forming, locking, starting and abandoning a match, and tables without replacement, are not modelled.
- TableService.TableState.TableCommand: the match and member checks before a command, table events and the next match's own table are not modelled; availability elsewhere is a parameter.
- The PostgreSQL stores, schema and migrations: SQL semantics are outside the code.
- HTTP and WebSocket transport, authentication, chat, profiles, the room catalogue, the client and the adapters: I/O and field copying.
- The command runtime, the Echo game and the hosted definition: weaker versions of the durable journal.
- Event visibility and views, apart from allowed actions and available cards: field copying.
- Call Break events and the match setup: the reducer's state, its audit and its saved replay are modelled, the event list is not.
- Marriage's read-only queries (`can_see_maal`, `get_maal`, `read_last_card`) and the `OUT` player status of Flush, which no command sets.
- The ledger snapshot: it only displays what the store holds.
- Table reservations, departed players and `reserve_players` outside a start in the durable store, and the digest of the rules, which only guards against corrupted storage.
- Event identities: they are parameters of a durable command, not proved distinct.
- Upper limits on text lengths and on scoring values, which no theorem depends on.
- The syntax of JSON text: a replay is read from and written to a tree value.
- Locks: every operation of a store or a table is one step.
