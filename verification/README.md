# A verified model of the blackjack server

The server runs on one thread. It keeps a database of users, players, a shoe and a dealer's hand,
and handles one event at a time: a client joins, leaves, says it is ready, bets, hits or stands.
Handlers cascade: a bet may deal the cards, a hit or a stand may cash every hand and end the game, a
departure may do any of these. This project states what each event does, proves that one invariant
survives every run, and proves what the runs then guarantee: no lookup fails, no card is lost, no
money appears from nowhere, every game ends, and the shoe never runs out with up to 54 players, which
is the exact limit.

## How it is built

- `GameTable.dfy` is the database as a value (`Table`) and the effect of each event on it (`Step`).
  What the code leaves open, the shuffle and the order in which an unordered map is walked, is a
  parameter (`Chance`) over which every theorem quantifies. Exceptions that nothing catches, and
  dereferences of null pointers, are outcomes (`Thrown`), so that their absence is a theorem.
- `DataLayer.dfy`, `PlayerLogic.dfy`, `DealerLogic.dfy`, `UserManager.dfy` and `Controllers.dfy` are
  the server's own objects and handlers. Users, hands and the session are mutable objects; a player
  points at its user. Every handler is proved to do to the objects what `Step` does to the table, and
  `Server.dfy` carries that along whole histories.
- `Cards.dfy`, `PointsTools.dfy`, `Rules.dfy` and `Dealer.dfy` are decks and shoes, the scoring of a
  hand, betting and cashing, and the dealer's draw.
- `Answers.dfy` says on the values themselves what every event is answered and what it leaves behind:
  whose record changes and by how much, which cards go where, and that nothing else changes.
- `Invariant.dfy`, `Conservation.dfy`, `Exhaustion.dfy`, `Ledger.dfy`, `Rounds.dfy`,
  `Termination.dfy`, `Lobby.dfy` and `LongestDraw.dfy` hold the theorems over runs. `Reaching.dfy`
  builds runs up to the last bet, for the theorems that exhibit one; `Sums.dfy` adds up maps.
- `Framing.dfy` is the length, header and payload format and its two reused buffers.

`dafny verify dfyconfig.toml` checks everything.

## Facts about the code worth knowing

- A player who leaves during the hit/stand phase while others remain makes the server deal again:
  new shoe, new dealer's hand, two more cards for every remaining hand, even one that already stands.
  Old cards and bets stay. The departure code looks at the bets and not at the phase
  (`src/BlackjackServer/Controllers/GameSessionController.cpp:101`). `Invariant.DepartureDealsAgain`.
- The shoe can run out, and nothing catches the exception. No limit on the number of players is
  enforced. `Exhaustion.FiftyFourIsExact`: with n players in the game this never happens, in any run,
  if and only if n <= 54.
- The repository's README says a game starts once everyone has typed *ready*. The code waits for the
  solvent users only, and checks only when somebody gets ready: if the last user waited for leaves
  instead, everybody left is ready and no game ever starts unless somebody joins; a further
  departure does not help. `Lobby.DepartureCanStrandTheLobby` says exactly when this happens,
  `Lobby.StrandedUntilSomebodyJoins` that it lasts.
- A bet may exceed the player's money by the machine epsilon, so balances are bounded by -epsilon.
- The blackjack test made after a hit can never hold, since a hit hand has three cards or more.

## Model

| member | source | states |
|---|---|---|
| Cards.FreshDeck | src/PlayingCards/Deck.cpp:61-92 | A fresh deck has 52 cards, each exactly once: diamonds, spades, clubs, hearts, and two to ace within each |
| Cards.Deck.Shuffle | src/PlayingCards/Deck.cpp:32-45 | Whatever positions are swapped, it is still one whole deck, dealt from the start again |
| Cards.Deck.DealCard | src/PlayingCards/Deck.cpp:47-55 | Cards come in order; it refuses exactly when all 52 have been dealt, each once |
| Cards.Shoe.constructor | src/PlayingCards/Shoe.cpp:7-20 | A shoe of n decks holds each card exactly n times |
| Cards.Shoe.Shuffle | src/PlayingCards/Shoe.cpp:22-28 | A shuffle permutes the cards |
| Cards.Shoe.DealCard | src/PlayingCards/Shoe.cpp:30-38 | Cards come off the back; cards left plus cards dealt stay n whole decks, so at the exception each card has been dealt exactly n times |
| PointsTools.GetHandPoints | src/BlackjackLogic/PointsTools.cpp:30-57 | The two greedy loops compute the closed form: total with aces as 1, plus 10 for an ace if that stays within 21; not smart, every ace is 11 |
| PointsTools.CardValues | src/BlackjackLogic/PointsTools.cpp:6-23 | Number cards count their number, court cards ten, an ace one or eleven |
| PointsTools.SmartScoringIsOptimal | src/BlackjackLogic/PointsTools.cpp:30-57 | Over all ways to count each ace as 1 or 11, the score is one of the totals, the largest not above 21 if there is one and otherwise the smallest |
| PointsTools.BustedMeansEveryChoiceBusts | src/BlackjackLogic/PointsTools.cpp:59-67 | A hand is busted iff every way of counting its aces exceeds 21, iff its total with aces as 1 does |
| PointsTools.PointsIgnoreOrder | src/BlackjackLogic/PointsTools.cpp:30-57 | The score depends only on the multiset of cards, although the second loop is order-sensitive |
| PointsTools.BustedForGood | src/BlackjackLogic/PointsTools.cpp:59-67 | No further cards can un-bust a busted hand |
| PointsTools.SmartTotalCanFall | src/BlackjackLogic/PointsTools.cpp:44-54 | A further card can lower the score of a hand that is not busted |
| PointsTools.WeightOfDecks | src/BlackjackLogic/PointsTools.cpp:6-28 | However shuffled, n decks weigh 340 n with every ace as 1 |
| Rules.CashBounds | src/BlackjackLogic/PlayerLogic.cpp:105-154 | The income lies between minus the bet and one and a half bets, and the money handed back is never negative |
| Rules.CashFollowsThePayTable | src/BlackjackLogic/PlayerLogic.cpp:105-154 | The pay table over the totals a hand can count as, with its amounts: a two-card 21 pays 3:2; any other hand wins its bet iff some total within 21 meets a busted dealer or beats him, has it back iff its best total within 21 is the dealer's, and otherwise loses it |
| Rules.BetErrorsByValue | src/BlackjackLogic/PlayerLogic.cpp:46-69 | For each exception the condition on hand index, state, amount, money and earlier bet under which it is the one thrown, and when none is |
| Rules.LostMeansBeaten | src/BlackjackLogic/PlayerLogic.cpp:114-154 | A bet is lost iff every count of the aces that stays within 21 is beaten by a dealer who is not busted, and the hand is no two-card 21 |
| Rules.BetterHandsNeverReceiveLess | src/BlackjackLogic/PlayerLogic.cpp:114-154 | With the same bet against the same dealer, a hand within 21 that scores at least as much never receives less, provided it is a two-card 21 if the other one is |
| Dealer.DealerStops | src/BlackjackLogic/DealerLogic.cpp:38-44 | From two cards the dealer stops with 17 to 26 points and at most 12 cards, having been under 17 before each card drawn; the cards drawn are those the shoe lost, in that order |
| LongestDraw.TwelveCardsAreReached | src/BlackjackLogic/DealerLogic.cpp:38-44 | A run of the server, dealt from five ordinary decks, whose cashing leaves the dealer with twelve cards: the bound is tight |
| Invariant.DealGivesTwo | src/BlackjackLogic/DealerLogic.cpp:46-57 | Whatever the order of the walk, each player gets exactly two cards more and nothing else changes; it fails exactly when the shoe has too few |
| Answers.PlayersInOrder | src/BlackjackLogic/DealerLogic.cpp:46-57 | Which cards each player gets: the j-th in the walk the next two from the back of the shoe after those of the players before |
| Answers.JoinLeavesBehind | src/BlackjackServer/Controllers/LobbyController.cpp:28-46 | A newcomer has 1000 and is not ready; every other user, players, phase, shoe and dealer are the same; a socket that has a user keeps it |
| Answers.DepartureLeavesBehind | src/BlackjackServer/Controllers/LobbyController.cpp:48-77 | A departure between games, or of somebody who does not play, removes exactly the sender |
| Answers.ReadyIsAnswered | src/BlackjackServer/Controllers/LobbyController.cpp:119-168 | A request to be ready is accepted iff it comes between games from a user not yet ready with more than 1/2^52. It makes only that user ready; when all others with more than that are ready a game starts with exactly those users, with empty hands and no bets |
| Answers.OutsidersDoNotTouchTheGame | src/BlackjackServer/Controllers/GameSessionController.cpp:263-294 | During a game nothing done by users who do not play changes players, phase, shoe, dealer or other users |
| Answers.BetIsAnswered | src/BlackjackServer/Controllers/GameSessionController.cpp:111-139 | A bet is accepted iff it comes in the betting phase from a player without a bet, on hand 0, with 1/2^52 < amount <= money + 1/2^52; otherwise it is answered -1 and nothing changes |
| Answers.BetLeavesBehind | src/BlackjackServer/Controllers/GameSessionController.cpp:111-139 | An accepted bet moves its amount from money to hand. While another player has no bet that is all; with the last one the cards are dealt in order from the new shoe and everybody still decides |
| Answers.ActionIsAnswered | src/BlackjackServer/Controllers/GameSessionController.cpp:141-203 | A hit or stand is accepted iff it comes in the hit/stand phase from a player whose hand sits; otherwise it is answered -1 and nothing changes |
| Answers.ActionLeavesBehind | src/BlackjackServer/Controllers/GameSessionController.cpp:141-203 | A stand makes the sender's hand stand, a hit adds the last card of the shoe and makes it stand iff every count of its aces exceeds 21. The game is over iff nobody sits then, otherwise nothing else changes |
| Answers.PlayerLeavesBehind | src/BlackjackServer/Controllers/GameSessionController.cpp:88-105 | What a player's departure leaves of the game in each case: nobody left, a bet missing, all hands left standing, or a new deal in order over the old hands; users and cards included |
| Answers.EndLeavesBehind | src/BlackjackServer/Controllers/GameSessionController.cpp:61-86 | Only a departure, hit or stand ends a game. It leaves no players; whoever is cashed gets the money of the result and is unready, all other users are as before |
| Invariant.DepartedUserIsNotLookedAt | src/BlackjackServer/Controllers/LobbyController.cpp:61-75 | Erasing the user before or after the game resolves the departure gives the same result: the half-erased user is never read |
| Invariant.AcceptedBetMovesMoney | src/BlackjackLogic/PlayerLogic.cpp:46-69 | An accepted bet keeps every balance at or above -epsilon and everybody's readiness, and leaves either the betting invariant or a table fit for dealing |
| Invariant.ReadyKeepsInv | src/BlackjackServer/Controllers/LobbyController.cpp:119-168 | Getting ready keeps the invariant; a game it starts has exactly the solvent users as players, each with a fresh hand |
| Invariant.StepKeepsInv | src/BlackjackServer/Controllers/GameSessionController.cpp:35-203 | Every event from a connected user keeps the invariant of phases, players, bets, hands, balances and readiness; the only thing that can bring the server down is an empty shoe; a game that ends leaves nobody ready |
| Invariant.RunsKeepInv | src/BlackjackServer/Controllers/GameSessionController.cpp:35-203 | The invariant holds after every run |
| Invariant.DepartureDealsAgain | src/BlackjackServer/Controllers/GameSessionController.cpp:88-105 | In reachable tables a departure never takes the cashing branch: the last player to leave ends the game, otherwise the game goes on while a bet is missing and deals again if none is, as always during hit/stand |
| Invariant.HitStandsOnlyWhenBusted | src/BlackjackLogic/PlayerLogic.cpp:83-87 | In reachable tables a hit makes a hand stand iff its total with aces as 1 exceeds 21: the blackjack test never fires |
| Conservation.DealConserves | src/BlackjackLogic/DealerLogic.cpp:46-57 | Dealing moves cards from the shoe to the hands and loses none, on every scale: copies of a card, weight, number |
| Conservation.HitStaysWithinLimit | src/BlackjackLogic/PlayerLogic.cpp:71-89 | Since the shoe was made a sitting hand has received a weight of at most 21 and a standing one at most 31, also when it already held older cards |
| Conservation.StepConserves | src/BlackjackServer/Controllers/GameSessionController.cpp:46-59 | Every event keeps shoe, dealer and the cards received since the shoe was made equal to five whole decks |
| Conservation.RunsConserve | src/BlackjackServer/Controllers/GameSessionController.cpp:46-59 | So in every reachable table all cards are accounted for: shoe, dealer and what each hand got beyond the length it had when the latest shoe of the run was made |
| Conservation.CardsAreConserved | src/BlackjackServer/Controllers/GameSessionController.cpp:46-59 | As long as no player has left since the game began, each of the 52 cards is found exactly five times in shoe, dealer's hand and whole hands |
| Conservation.StepIsSafe | src/BlackjackLogic/DealerLogic.cpp:13-57 | With at most 54 players every card an event asks for is there |
| Conservation.ShoeNeverRunsOut | src/BlackjackLogic/DealerLogic.cpp:13-57 | In every run, whatever a connected user does next and however the cards fall, the event is handled, re-deals after departures included |
| Exhaustion.PlanExhausts | src/PlayingCards/Shoe.cpp:30-38 | Any distribution of five decks into hands that hits can build, one of them still sitting, is reached by a run, after which a hit finds the shoe empty |
| Exhaustion.FiftyFivePlan | src/PlayingCards/Shoe.cpp:30-38 | Such a distribution exists for 55 players |
| Exhaustion.FiftyFourIsExact | src/BlackjackLogic/DealerLogic.cpp:13-57 | For every n: all runs with n players are safe from the empty shoe iff n <= 54 |
| Ledger.StepSettles | src/BlackjackServer/Controllers/GameSessionController.cpp:238-261 | Every event changes money plus bet of each user by exactly the income in the cash result returned for that user, zero without one; a result is for the bet on the table; the money of everybody who does not play stays. Which hands are cashed, and with what result, is stated by `Rounds.GameEndsWithTheCashing` |
| Ledger.MoneyMatchesTheBook | src/BlackjackServer/Controllers/GameSessionController.cpp:238-261 | Over every run each user's money plus bet is the balance of a bank book that sees only joins, departures and cash results; after n rounds cashed, balance + epsilon <= 2.5^n (1000 + epsilon) |
| Ledger.HouseBalances | src/BlackjackServer/Controllers/GameSessionController.cpp:238-261 | Over every run all money plus outstanding bets is 1000 for each newcomer, less what the departed took along, plus all cash incomes |
| Rounds.GameEndsWithTheCashing | src/BlackjackServer/Controllers/GameSessionController.cpp:61-105 | An event that ends a game is the last player's departure, and then nothing is cashed, or it cashes exactly the players it leaves in the game: each with the own final hand (the sender's after the hit or stand, the others' unchanged; two more cards for all after a departure), by the rules of cashing, against a dealer who drew from his two cards while under 17. Until then nothing is cashed |
| Rounds.CashedMeansOver | src/BlackjackServer/Controllers/GameSessionController.cpp:61-74 | Hands are cashed only by an event that ends a game |
| Rounds.RunsCashTheFinalHands | src/BlackjackServer/Controllers/GameSessionController.cpp:61-74 | Over every run, whenever anything is cashed it is the final hands of exactly the players left, against the hand the dealer stopped with, and each is paid by the pay table |
| Rounds.RoundAccounting | src/BlackjackLogic/PlayerLogic.cpp:46-69 | Over one whole game, for every player who stays: until it is over money plus bet is the opening balance; once it is over the money is the opening balance plus the income that the rules give the own final hand against the dealer's |
| Rounds.OthersKeepTheirMoney | src/BlackjackServer/Controllers/GameSessionController.cpp:238-261 | Whoever does not play and stays connected has the same money throughout the game and after it |
| Termination.RefusalChangesNothing | src/BlackjackServer/Controllers/GameSessionController.cpp:263-294 | A request answered with -1 leaves the whole table as it was |
| Termination.MovesLowerRank | src/BlackjackServer/Controllers/GameSessionController.cpp:88-203 | During a game every accepted bet, hit or stand and every player's departure lowers the rank; anything else leaves players, hands and phase alone |
| Termination.MovesAreBoundedByRank | src/BlackjackServer/Controllers/GameSessionController.cpp:88-203 | Over any part of a game the moves made are paid for by the rank lost |
| Termination.EveryGameEnds | src/BlackjackServer/Controllers/GameSessionController.cpp:88-203 | A game begun by n players has at most 22 n moves, and at most 21 n if nobody leaves |
| Termination.PlayersCanFinish | src/BlackjackServer/Controllers/GameSessionController.cpp:111-203 | The players have a strategy of bets and stands, each accepted, that ends the game within its rank, against every shuffle and every order |
| Termination.ReachableGamesCanFinish | src/BlackjackServer/Controllers/GameSessionController.cpp:111-203 | So from every reachable table with at most 54 players the game can be ended in at most 22 accepted moves a player |
| Lobby.LastReadyStartsTheGame | src/BlackjackServer/Controllers/LobbyController.cpp:119-168 | A request to be ready is accepted iff its sender is waited for, and starts the game iff nobody else is; the players are then exactly the solvent users |
| Lobby.LobbyWaitsForSomebody | src/BlackjackServer/Controllers/LobbyController.cpp:119-168 | Apart from departures between games, no event leaves the lobby all ready without a game |
| Lobby.OnlyStrandingLeavesItReady | src/BlackjackServer/Controllers/LobbyController.cpp:48-168 | From any other state, an event leaves the lobby all ready with no game on iff it is the departure, between games, of the only user waited for while other solvent users stay |
| Lobby.GameStartsAtTheLastReady | src/Services/UserManager.cpp:22-36 | Over every run: at some point the lobby rests all ready with no game started iff some such departure happened. Without one, whenever a user is solvent between games some solvent user is still waited for |
| Lobby.DepartureCanStrandTheLobby | src/BlackjackServer/Controllers/LobbyController.cpp:48-77 | A departure between games leaves the lobby all ready with no game on iff nobody but the one who leaves was waited for and other solvent users stay |
| Lobby.StrandedLobbyRefusesEverything | src/BlackjackServer/Controllers/LobbyController.cpp:123-147 | Between games with nobody waited for, every request is refused, and a departure leaves nobody waited for either |
| Lobby.StrandedUntilSomebodyJoins | src/BlackjackServer/Controllers/LobbyController.cpp:119-168 | From a stranded lobby no run without a join ever starts a game, whoever leaves |
| Lobby.StrandedRun | src/BlackjackServer/Controllers/LobbyController.cpp:48-77 | A run that strands the lobby |
| PlayerLogic.HasPlacedHisBets | src/BlackjackLogic/PlayerLogic.cpp:25-33 | True iff every hand has a bet above epsilon |
| PlayerLogic.AllHandsAreStanding | src/BlackjackLogic/PlayerLogic.cpp:35-44 | True iff every hand stands |
| PlayerLogic.ExecuteBet | src/BlackjackLogic/PlayerLogic.cpp:46-69 | Accepted iff the bet is on hand 0, which sits and has no bet above 1/2^52, and 1/2^52 < amount <= money + 1/2^52; then the amount moves from money to bet, otherwise the exception is the code's and nothing changes |
| PlayerLogic.ExecuteHit | src/BlackjackLogic/PlayerLogic.cpp:71-89 | Refused iff the hand does not sit, fails iff the shoe is empty, otherwise takes the last card of the shoe |
| PlayerLogic.ExecuteStand | src/BlackjackLogic/PlayerLogic.cpp:91-103 | Refused iff the hand does not sit, otherwise only its state changes |
| PlayerLogic.Cash | src/BlackjackLogic/PlayerLogic.cpp:105-154 | The result is the one the pay table demands: state, received money, income and multiplier |
| PlayerLogic.AllPlayersHavePlacedTheirBets | src/BlackjackLogic/GameStatusLogic.cpp:15-24 | True iff every player of the table has bet, in whatever order the map is walked |
| PlayerLogic.AllPlayersAreStanding | src/BlackjackLogic/GameStatusLogic.cpp:26-36 | True iff every hand of the table stands |
| DealerLogic.Init | src/BlackjackLogic/DealerLogic.cpp:13-17 | New objects: five whole decks and an empty dealer's hand; nothing else changes |
| DealerLogic.DealFirstDealersCards | src/BlackjackLogic/DealerLogic.cpp:28-36 | Two cards move from the back of the shoe to the dealer |
| DealerLogic.DealPlayersCards | src/BlackjackLogic/DealerLogic.cpp:46-57 | Deals in the order of the walk, as the table does |
| DealerLogic.DealFinalDealersCards | src/BlackjackLogic/DealerLogic.cpp:38-44 | Draws as the table's dealer does; the loop ends because the total with aces as 1 rises |
| UserManager.GetJoinables | src/Services/UserManager.cpp:77-90 | Lists exactly the users with more than 1/2^52 |
| UserManager.GetUsersToWait | src/Services/UserManager.cpp:92-104 | Lists exactly the solvent users who are not ready |
| UserManager.GameIsReady | src/Services/UserManager.cpp:22-36 | True iff no game is on, some user is solvent and all the solvent are ready |
| UserManager.UserIsAPlayer | src/Services/UserManager.cpp:38-49 | The scan finds the user iff its id is a key of the players |
| UserManager.UnreadyAllPlayers | src/Services/UserManager.cpp:51-57 | Exactly the players' users become unready |
| Controllers.CashPlayers | src/BlackjackServer/Controllers/GameSessionController.cpp:238-261 | Every player's hand is cashed once and its user paid, whatever the order of the walk; nothing else changes |
| Controllers.CreateThePlayers | src/BlackjackServer/Controllers/GameSessionController.cpp:209-223 | Each joined user gets a player with a fresh hand of its own, unless one exists |
| Controllers.StartCashing | src/BlackjackServer/Controllers/GameSessionController.cpp:61-74 | Objects follow the table: dealer draws, hands are cashed, players unreadied, the game ended |
| Controllers.StartHitStandPhase | src/BlackjackServer/Controllers/GameSessionController.cpp:46-59 | Objects follow the table, the cascade into cashing included |
| Controllers.LeaveGame | src/BlackjackServer/Controllers/GameSessionController.cpp:88-105 | Objects follow the table through all four ways a departure can go |
| Controllers.BasicRequestValidation | src/BlackjackServer/Controllers/GameSessionController.cpp:263-294 | Refuses, throws or lets through exactly as the table does, in the code's order of checks |
| Controllers.BetRequest | src/BlackjackServer/Controllers/GameSessionController.cpp:111-139 | Objects follow the table: refusals, the bet, and the deal the last bet starts |
| Controllers.HitRequest | src/BlackjackServer/Controllers/GameSessionController.cpp:141-163 | Objects follow the table: refusals, the card, the cashing the last hit starts, the empty shoe |
| Controllers.StandRequest | src/BlackjackServer/Controllers/GameSessionController.cpp:165-203 | Objects follow the table: refusals, the stand, the cashing the last stand starts |
| Controllers.ClientJoin | src/BlackjackServer/Controllers/LobbyController.cpp:28-46 | A new user object with 1000.0 and not ready, all other user objects and the players as before; if the socket has a user already, that one stays |
| Controllers.ClientLeave | src/BlackjackServer/Controllers/LobbyController.cpp:48-77 | Objects follow the table, the game's cascade before the user is erased |
| Controllers.SetReady | src/BlackjackServer/Controllers/LobbyController.cpp:119-168 | Objects follow the table, the start of the game included |
| Controllers.Handle | src/BlackjackServer/main.cpp:37-80 | One event does to the objects exactly a step of the table, exceptions included |
| Server.Process | src/BlackjackServer/main.cpp:101-118 | Along every history the objects are the table the history leads to: the invariant holds, balances match the bank book, and with at most 54 players the server does not go down |
| Framing.Writer.Write | src/SocketIO/Writer.cpp:37-70 | Exactly one frame goes out, whatever the buffer held |
| Framing.Writer.Broadcast | src/SocketIO/Writer.cpp:72-89 | Every socket gets exactly one frame for each time it is listed |
| Framing.Reader.Read | src/SocketIO/Reader.cpp:47-86 | Header, length and as much of the payload as has come, with nothing read beyond the frame; the data ends in a NUL whatever the buffer held; 0 for a closed connection, a frame cut short before its payload and an empty payload alike |
| Framing.Exchange | src/SocketIO/Reader.cpp:47-86 | Any requests with a payload, written one after the other through the writer's reused buffer, come out of the reader and its reused buffer all and in order, headers and payloads |
| Framing.ExchangeTexts | src/Requests/Request.cpp:28-38 | String requests sent over a connection come back with their own headers and bytes, and str gives the string back iff it has no NUL in it |
| Framing.StreamRoundTrip | src/SocketIO/Reader.cpp:47-86 | The format itself: frames in a row are read back in order, and the bytes that follow are left alone |
| Framing.WireDeterminesMessages | src/SocketIO/Writer.cpp:37-70 | Equal bytes on the wire mean equal messages |
| Framing.FrameLayout | src/SocketIO/Writer.cpp:37-70 | A frame is the length and the header, four bytes each with the lowest first, and then the payload |
| Framing.StringRoundTrip | src/Requests/Request.cpp:28-38 | A string sent through the string constructor keeps header and bytes on the wire; str recovers it iff it has no NUL in it, whatever stale bytes follow |

## Left out

- Sockets, select, accept and close (`src/SocketConnection`, `src/NetworkTools`): events arrive in some order. `Server::parseActivity` erases from the vector it walks and has no clean semantics to prove.
- Views, logging, broadcasts and whispers: they do not touch the state.
- The client, chat and name changes: easy facts only; names are not part of a user here.
- Floating-point rounding and NaN: money is a real number; epsilon is the machine epsilon of a double.
- The quality of the shuffle: any permutation may come out.
- Events other than joins from sockets without a user: each handler models them, as the exception it throws, but the runs the theorems range over do not contain them.
- Controllers.StartCashing: the fields of a player (its user and its list of one hand) are constants of the object, set by the constructor, since nothing changes them later; hands beyond the first do not occur.
- Hand objects owned by a player that has been erased are simply no longer reached; freeing memory is not modelled.
- Framing.Reader.Read: a read gets all it asks for that is in the stream, so a read that returns early although more is to come is not modelled, nor are system errors and lengths of 2^31 and more, which the code turns into negative numbers. The data of a request is the buffer at that time rather than a pointer into it.
- Framing.Writer.Write: writes are complete, so the number of bytes written is not returned.
- The overloads of read and write without a header: they are not used by the server.
