# Verification of the game server

This project models the parts of the game server whose logic is hardest to follow and proves what they
promise, for all inputs and over all runs. `dafny verify dfyconfig.toml` checks it.

- **Dou Dizhu hands** (`PokerInfo`, `Patterns`, `BeatsOrder`, `Cards`, `PokerParser`, `PokerArchive`,
  `PokerFinder`, `KickerFinder`, `ChainSearch`, `ChainFinder`, `ThreeChainFinder`, `BigFinder`). `Patterns` says
  what the 14 hand types mean as a property of a multiset of card values. The classifier with its run-counting
  loops is proved to find just these patterns, the searches are proved to find an answer whenever the hand has
  one, and the relation between hands is a strict order. The search never calls the classifier; the patterns are
  what joins them.
- **The handshake's accept key** (`Sha1`, `Base64`, `AcceptKey`, `AcceptKeySample`). The textbook definitions of the
  RFCs stand beside the unrolled code, which is proved equal to them for every key. The sample key of RFC 6455 is
  worked through, so that the definitions are those of the RFCs.
- **The Dou Dizhu desk** (`Deck`, `Auction`, `DdzTable`, `DdzRound`, `DdzRuns`, `DdzFailures`, `DdzSeating`,
  `DdzDesk`, `DdzBidding`, `DdzPlugin`). `DdzTable.Step` says what each command, queued call, arrival and
  departure does to a desk; the classes `Desk` and `DdzPlugin` hold the fields and handlers of the source, and each
  handler is proved to take such a step at one desk and to leave the other desks alone. `DdzRound` adds the story of
  a round (what was dealt, shown, answered, played, as the events say it) and the invariants; `DdzRuns` states what
  follows for every run, and `DdzFailures` shows runs on which it fails. The plugin keeps a run that leads to the
  state of each desk, so all of that holds of it.
- **The outgoing queue of a connection** (`SendQueue`, `WsClient`). The pool of growing buffers with its two
  positions is proved to be a first-in-first-out queue with one write under way, on every run.
- **The request parser** (`RequestGrammar`, `RequestParser`, `RequestRoundTrip`, `RequestLanguage`). The machine
  is proved to accept exactly the texts that write a request, however they are cut into reads.
- **The rooms of the question game** (`AskTable`, `AskRooms`). `AskTable` is one room as a state machine, with the
  course of a game over every run; `AskRooms` has the rooms and the handlers, each proved to be a step of a room.
- **The limit on posts** (`RateLimit`, `PostMonitor`).

How the source is represented:

- A `char` is its code, a signed one in the request parser. A card is its two characters; the card sets are
  sequences in the order of the set. Integers are unbounded except in the hash, which works on `bv32` and `bv8`.
- A `game_client*` is a number, `NULL` is -1. What a plugin keeps about a client is a map from that number.
- A handler is one step, as it runs under the lock of its desk, room or connection. `on_game_bid` compares the code
  just before it locks (src/ddz/ddz_plugin.cpp:425-428); that is one step too.
- The calls queued for a desk or a room are kept with it, and any of them may be called at any time and in any order,
  so nothing depends on the delays. Random numbers, clock times, the completions of writes, whether the
  plugin is online and whether the zone has questions are parameters. There is a zone to queue calls in.
- `vx` of `is_three_chain` has a seventh slot: the write at src/ddz/poker_parser.cpp:186 may follow the one at
  :169 without another look at the bound of :94. `PokerParser.CountRuns` says when; no classification depends on it.
- No code in an array of the classifier is zero, as in any string of the source, where zero means that no run of
  three or four was found yet (src/ddz/poker_parser.cpp:270).
- `std::sort` is an insertion sort. The bytes that `generate` lays over the words of the hash
  (src/util/ws_util.h:123-132) are an array of their own.
- The leader and the code of a question room, which the constructor does not set (src/ask/ask_room.h:49-56), start
  at -1 and 0.

Where a promise does not hold of the code, the exact condition is proved:

- `find_four_and_two_single` misses an answer exactly if the hand holds a higher four, two or more cards of one
  further value, and nothing else (`KickerFinder.FourTwoSingleMisses`).
- The two jokers are overlooked as an answer exactly if four or more cards are held, none of them a bomb, and no
  higher hand of the type is there (`BigFinder.FindBigPokers`); `BigFinder.JokersMissed` is such a hand.
- The hand recorded consists of the cards that leave the hand exactly if the command names none twice
  (`Deck.DroppedIsNamed`, `DdzRuns.NamedTwice`).
- From the giving of the bottom cards to the end of the round the one to move may pass exactly if there is a hand
  to beat, if and only if, when they are given, `curr_poker_` is empty exactly if `curr_shower_` is nobody or the
  landlord (`DdzRuns.LeadExactly`). Card commands in the half second before can break that, in two ways
  (`DdzFailures.LandlordFacesItself`, `DdzFailures.LandlordPassesOnNothing`).
- An auction is as promised if and only if `multiple` is -1 when it opens and no pass is given while a new deal is
  queued (`DdzRuns.AuctionExactly`, `DdzRuns.AuctionStep`). Until the next opening the desk still takes answers,
  which can break both (`DdzFailures.BidBeforeOpening`, `DdzFailures.LatePassAgain`).
- What a robot or an overdue client is made to do is taken, but for a pass when it is its own hand that lies on the
  table (`DdzRuns.RobotMoves`, `DdzPlugin.OverdueMoves`), which does come about (`DdzFailures.RobotStandsStill`).
- The limit on posts is kept in the interval that begins at some time if and only if the window is over by then, has
  been used up, or begins later than a millisecond before (`RateLimit.LimitKeptExactly`); twice the limit always is a
  bound, and it is reached (`RateLimit.RateBound`, `RateLimit.BoundIsReached`).
- A game asks twenty questions if and only if it is the first that its room was given questions for, as
  `fill_questions` appends to those of the games before (`AskTable.QuestionsKept`, `AskTable.SecondGame`).
- A game goes on to its last question in team mode (`AskTable.GoesOn`), which all rooms have; without teams it may
  come to a question that nobody can answer (`AskTable.AloneStalls`).
- A frame is sent as its bytes if and only if its payload is short, or both bytes of its length are equal and byte 1
  of the buffer happens to be 126, as no frame writes it (`WsClient.FrameExactly`, `WsClient.WsClient.WriteFrame`).
  In a new buffer no longer frame is (`WsClient.NewBufferFails`).

## Model

| member | source | states |
|---|---|---|
| Cards.IsPokerMeansCard | src/ddz/poker_parser.cpp:9-25 | a parameter passes exactly if it is the text of one of the cards |
| PokerParser.SortCards | src/ddz/poker_parser.cpp:399-413 | the first `size` cards end up sorted, are the same cards, and the rest of the array is untouched |
| PokerParser.IsSingleChain | src/ddz/poker_parser.cpp:27-45 | true exactly if the cards form a single chain, and then reports its value and length |
| PokerParser.IsDoubleChain | src/ddz/poker_parser.cpp:47-72 | true exactly if the cards form a chain of pairs, and then reports its value and length |
| PokerParser.CountRuns | src/ddz/poker_parser.cpp:74-190 | the run-counting loop either files every run as a triple or as a kicker of one size, or no chain of triples is there; a kicker more than the source has slots for is filed exactly for triples and seven single cards of which two are the highest |
| PokerParser.TenCardsOverfull | src/ddz/poker_parser.cpp:76-186 | three threes and one each of seven other values are such cards |
| PokerParser.IsThreeChain | src/ddz/poker_parser.cpp:74-227 | true exactly if the cards form a chain of triples, with single, double or no kickers, and then reports which |
| PokerParser.CountMainRuns | src/ddz/poker_parser.cpp:229-330 | the run-counting loop finds the one run of three or four and the kickers beside it, or there is no such hand |
| PokerParser.IsThreeOrFour | src/ddz/poker_parser.cpp:229-397 | true exactly if the cards form three or four of a value with kickers, and then reports which |
| PokerParser.ClassifySorted | src/ddz/poker_parser.cpp:450-566 | on sorted cards the tests, in their order, find the hand there is, or an error if there is none |
| PokerParser.Parse | src/ddz/poker_parser.cpp:440-566 | for any array the hand reported is the one whose pattern the multiset of values has, and ERR is reported exactly if it has none; the cards are only reordered |
| PokerParser.ClassifiesOnce | src/ddz/poker_parser.cpp:440-566 | two results for the same multiset of values are equal, so the result does not depend on the order of the cards |
| Patterns.PatternsExclusive | src/ddz/poker_parser.cpp:440-566 | no multiset of values matches two hand types, values or lengths, so the order of the tests does not matter |
| BeatsOrder.BeatsIsStronger | src/ddz/poker_parser.cpp:415-438 | a hand beats another exactly if it is stronger and they may meet: bombs and jokers meet all, others only their type and length |
| BeatsOrder.BeatsStrictOrder | src/ddz/poker_parser.cpp:415-438 | irreflexive, asymmetric and transitive on all hands that can lie on the table |
| BeatsOrder.JokersAndBombs | src/ddz/poker_parser.cpp:415-438 | the two jokers beat every other hand and nothing beats them; of two bombs that of the higher value wins |
| BeatsOrder.AscentBounded | src/ddz/poker_parser.cpp:415-438 | a list in which each hand beats the one before it has at most 32 hands |
| PokerArchive.ArchivePokerList | src/ddz/poker_finder.cpp:15-75 | list n holds, in ascending order of value, the cards of each value that occurs n+1 times |
| PokerArchive.FindTypeValue | src/ddz/poker_finder.cpp:77-104 | the group of the lowest value above the given one, or nothing if there is none |
| PokerFinder.FindSingle | src/ddz/poker_finder.cpp:106-144 | a card of the lowest higher value of the smallest group, or none if no card is higher |
| PokerFinder.FindDouble | src/ddz/poker_finder.cpp:146-179 | a pair, from the smallest groups that have a higher value, or none if there is none |
| PokerFinder.FindThree | src/ddz/poker_finder.cpp:181-207 | three cards of a higher value, or none if there are none |
| PokerFinder.FindFour | src/ddz/poker_finder.cpp:292-311 | four cards of a higher value, or none if there are none |
| PokerFinder.OfferAnswers | src/ddz/poker_finder.cpp:106-207 | what these searches offer is a hand of the type with a higher value, and they offer nothing only if the hand has none |
| KickerFinder.FindThreeAndSingle | src/ddz/poker_finder.cpp:209-254 | a three with a single of a higher value if the hand has one, else nothing |
| KickerFinder.FindThreeAndDouble | src/ddz/poker_finder.cpp:256-290 | a three with a pair of a higher value if the hand has one, else nothing |
| KickerFinder.FindFourAndTwoSingle | src/ddz/poker_finder.cpp:313-368 | a four with two others exactly if there are a higher four and two further values |
| KickerFinder.FourTwoSingleMisses | src/ddz/poker_finder.cpp:313-368 | that search finds nothing though an answer exists exactly if the hand holds a higher four, two or more cards of one further value, and nothing else |
| KickerFinder.FourTwoSingleMissed | src/ddz/poker_finder.cpp:313-368 | a hand of six cards for which the search finds nothing though the hand itself is an answer |
| KickerFinder.FindFourAndTwoDouble | src/ddz/poker_finder.cpp:370-431 | a four with two pairs of a higher value if the hand has one, else nothing |
| ChainSearch.FindSingleChainInner | src/ddz/poker_finder.cpp:433-496 | in any list of different cards: the cards of a chain that starts above the value, or no such chain exists |
| ChainSearch.FindDoubleChainInner | src/ddz/poker_finder.cpp:544-623 | in any list of different cards: the pairs of a chain that starts above the value, or no such chain exists |
| ChainFinder.FindSingleChain | src/ddz/poker_finder.cpp:498-542 | a higher single chain of the length if the hand has one, else nothing |
| ChainFinder.FindDoubleChain | src/ddz/poker_finder.cpp:625-667 | a higher chain of pairs of the length if the hand has one, else nothing |
| ThreeChainFinder.FindTriples | src/ddz/poker_finder.cpp:669-759 | k triples of rising values above the given one, or the hand has no such triples |
| ThreeChainFinder.FindThreeChain | src/ddz/poker_finder.cpp:669-759 | a higher chain of triples of the length if the hand has one, else nothing |
| ThreeChainFinder.NotEnoughKickers | src/ddz/poker_finder.cpp:761-916 | if the kickers left beside one chain of triples do not suffice, they do not suffice beside any other |
| ThreeChainFinder.FindThreeChainAndSingle | src/ddz/poker_finder.cpp:761-836 | a higher chain of triples with single kickers if the hand has one, else nothing |
| ThreeChainFinder.FindThreeChainAndDouble | src/ddz/poker_finder.cpp:838-916 | a higher chain of triples with paired kickers if the hand has one, else nothing |
| BigFinder.FindDoubleJoker | src/ddz/poker_finder.cpp:918-931 | the two jokers exactly if the hand holds both |
| BigFinder.FindBombOrDoubleJoker | src/ddz/poker_finder.cpp:933-945 | with four cards or more a bomb if there is one, with fewer the two jokers if they are there |
| BigFinder.FindSameKind | src/ddz/poker_finder.cpp:955-1078 | an answer of the type and length on the table if there is one, four-with-two-singles aside |
| BigFinder.FindBigPokers | src/ddz/poker_finder.cpp:947-1081 | what is found are different cards of the hand that beat the table; nothing is found exactly if nothing beats it, or if the jokers do, no bomb is there and four or more cards are held |
| BigFinder.JokersMissed | src/ddz/poker_finder.cpp:933-945 | with two low cards and both jokers nothing is found against a pair of twos, though the jokers beat it |
| Sha1.RolBits | src/util/ws_util.h:32-35 | each bit of the value comes to stand as many places to the left as it is rotated by, and those that leave come in on the right |
| Sha1.RolNumbers | src/util/ws_util.h:32-35 | modulo 2^32 the rotated value is the value times 2^n plus what it is divided by 2^(32-n), for the three amounts used |
| Sha1.SteppedRefines | src/util/ws_util.h:41-74 | the in-place update of two of five slots, with slots taken modulo 5, is the step of the five registers of section 6.1 of RFC 3174 |
| Sha1.RegistersMove | src/util/ws_util.h:41-74 | after the step every register is found one slot on |
| Sha1.NextWord | src/util/ws_util.h:36-39 | what is written into a slot of the circular schedule is the word of section 6.1 of RFC 3174 |
| Sha1.ScheduleMoves | src/util/ws_util.h:36-70 | the sixteen slots hold the last sixteen words, before and after a step |
| Sha1.Choose | src/util/ws_util.h:47-52 | the rewritten choice function is that of section 5 of RFC 3174 |
| Sha1.Majority | src/util/ws_util.h:62 | the rewritten majority function is that of section 5 of RFC 3174 |
| Sha1.F1 | src/util/ws_util.h:46-49 | a step of the first sixteen |
| Sha1.F2 | src/util/ws_util.h:50-54 | a step of the next four |
| Sha1.F3 | src/util/ws_util.h:55-59 | a step of the next twenty |
| Sha1.F4 | src/util/ws_util.h:60-64 | a step of the next twenty |
| Sha1.F5 | src/util/ws_util.h:65-69 | a step of the last twenty |
| Sha1.EightyRounds | src/util/ws_util.h:78-83 | after the unrolled steps the slots hold the registers after 80 rounds |
| Sha1.AddRegisters | src/util/ws_util.h:70-72 | the slots are added to the hash in the order of the registers |
| Sha1.CompressBlock | src/util/ws_util.h:76-85 | for every hash and block the new hash is that of sections 5 and 6.1 of RFC 3174 |
| Base64.EncodeTwenty | src/util/ws_util.h:87-101 | for every 20 bytes the 28 characters are their encoding in the sense of section 4 of RFC 4648 |
| Base64.DecodeEncode | src/util/ws_util.h:87-101 | decoding an encoding gives the bytes back, for any number of bytes |
| AcceptKey.TwoBlocks | src/util/ws_util.h:106-122 | for every 24-byte key the two blocks with their constants are the padded message of section 4 of RFC 3174 |
| AcceptKey.FillKey | src/util/ws_util.h:116-119 | the key becomes the first six words, most significant byte first |
| AcceptKey.WriteBytes | src/util/ws_util.h:123-131 | the hash becomes 20 bytes, most significant byte of each word first |
| AcceptKey.Generate | src/util/ws_util.h:104-133 | for every 24-byte key the output is the accept value of section 4.2.2 of RFC 6455: Base64 of SHA-1 of the key and the GUID |
| AcceptKey.AcceptDecodes | src/util/ws_util.h:104-133 | the accept value has 28 characters and decodes to the digest |
| AcceptKeySample.SampleComesOut | src/util/ws_util.h:76-133 | the key of section 1.3 of RFC 6455 comes to the accept key printed there |
| Deck.ShuffleKeeps | src/ddz/ddz_desk.cpp:194-206 | whatever the random numbers, the shuffled deck holds the same cards |
| Deck.SpotDrawn | src/ddz/ddz_desk.cpp:202 | each place up to the top is drawn by every (top + 1)-th random number |
| Deck.EveryOrder | src/ddz/ddz_desk.cpp:194-206 | the shuffle comes to every order of the cards with some random numbers, and to nothing else |
| Deck.DeckComplete | src/ddz/ddz_desk.cpp:9-12 | the deck is made of all the cards there are |
| Deck.DealtInTurn | src/ddz/ddz_desk.cpp:208-211 | of the first 51 cards each seat gets each third |
| Deck.DealtCards | src/ddz/ddz_desk.cpp:208-211 | at each point of the deal every card dealt is in one hand, and the hands are ordered sets |
| Deck.DealtSeventeen | src/ddz/ddz_desk.cpp:208-211 | a deal gives 17 cards to each seat, and with the bottom cards the 54 of the deck |
| Deck.DroppedIsNamed | src/ddz/ddz_plugin.cpp:550-555 | the cards that leave a hand are those a command names exactly if it names none twice |
| DdzDesk.Desk.constructor | src/ddz/ddz_desk.cpp:14-39 | a desk starts empty, with the 54 cards in their order |
| DdzDesk.Desk.Reset | src/ddz/ddz_desk.cpp:41-59 | the round is forgotten; deck, code, seats, queued calls and the seat that bid first stay |
| DdzDesk.Desk.ClearPosPokers | src/ddz/ddz_desk.cpp:61-68 | no cards in the hands, no answers |
| DdzDesk.Desk.AnyNull | src/ddz/ddz_desk.cpp:160-169 | the first free seat, or -1 exactly if there is none |
| DdzDesk.Desk.PosIndexOf | src/ddz/ddz_desk.cpp:171-182 | the seat of a client, or -1 exactly if it has none |
| DdzDesk.Desk.QueueTask | src/ddz/ddz_plugin.cpp:340-342 | a delayed call is queued under the next code |
| DdzDesk.Desk.AllocatePokers | src/ddz/ddz_desk.cpp:194-212 | the deck is shuffled in place by the random numbers, and 51 cards are dealt in turn |
| Auction.AnswerLeadsOn | src/ddz/ddz_plugin.cpp:997-1125 | an answer that is taken leads to a seat that has neither passed nor bid last, to a landlord, or to a new deal, and to just one of them; while the new deal is due, to the landlord by a bid and to the same by a pass |
| Auction.AuctionRun | src/ddz/ddz_plugin.cpp:970-1125 | on every run from the opening the multiple is the number of bids less one, and the landlord is the last bidder, or the first declarer if all passed; it takes more than four answers only by a bid while a new deal is due |
| Auction.AuctionEnds | src/ddz/ddz_plugin.cpp:970-1125 | three answers are asked for, and a fourth exactly if there was more than one bid; it never stalls, and a new deal is due exactly if there are three answers or more, no bid and no declarer |
| Auction.AnsweredRun | src/ddz/ddz_plugin.cpp:970-1125 | as long as there was no landlord, all the answers count |
| Auction.IndexAgrees | src/ddz/ddz_plugin.cpp:1005-1034 | the index that the first loop does not move gives the same result as one that moves, unless the next seat has passed and the one after it has not |
| DdzBidding.SeekFirst | src/ddz/ddz_plugin.cpp:1005-1034 | the first loop is the one of the auction |
| DdzBidding.SeekNext | src/ddz/ddz_plugin.cpp:1077-1123 | the second loop is the one of the auction |
| DdzBidding.PassBeforeBid | src/ddz/ddz_plugin.cpp:1036-1067 | a pass before any bid goes to the next seat, to the first declarer, or to a new deal |
| DdzBidding.OnClientBid | src/ddz/ddz_plugin.cpp:970-1125 | an answer of the one in turn is a step of the auction, one of anyone else changes nothing |
| DdzPlugin.LookUp | src/ddz/ddz_plugin.cpp:1237-1264 | the cards are found exactly if each parameter names a card of the hand, and their values are noted; more than the 21 slots of the source are written exactly if the first 22 parameters all name cards |
| DdzPlugin.CheckCards | src/ddz/ddz_plugin.cpp:1237-1279 | a command is taken exactly if it names cards of the hand that form a hand beating the table |
| DdzPlugin.FlagsOfDesk | src/ddz/ddz_plugin.cpp:595-606 | the flags taken back at the end of a round or with a new deal are those of the clients that have the desk, and no others |
| DdzPlugin.DdzPlugin.OnGameStop | src/ddz/ddz_plugin.cpp:584-604 | the desk is reset, and after a normal end nobody is ready |
| DdzPlugin.DdzPlugin.OnClientShowPoker | src/ddz/ddz_plugin.cpp:534-568 | the cards leave the hand, and the turn passes on or the round is over |
| DdzPlugin.DdzPlugin.OnClientPass | src/ddz/ddz_plugin.cpp:1216-1234 | a pass is taken exactly if someone else showed cards last |
| DdzPlugin.DdzPlugin.OnClientCards | src/ddz/ddz_plugin.cpp:1235-1295 | cards are taken exactly if they may be, and then are the hand to beat |
| DdzPlugin.DdzPlugin.OnClientCard | src/ddz/ddz_plugin.cpp:1164-1296 | the whole card command is a step of the desk |
| DdzPlugin.DdzPlugin.OnClientDeclare | src/ddz/ddz_plugin.cpp:348-395 | showing the cards is a step of the desk, once for each client and deal |
| DdzPlugin.DdzPlugin.OnClientReady | src/ddz/ddz_plugin.cpp:910-966 | the round begins exactly if all three are ready |
| DdzPlugin.DdzPlugin.OnClientLeaveDesk | src/ddz/ddz_plugin.cpp:227-277 | the seat is free, and a running round is over |
| DdzPlugin.DdzPlugin.OnGameStart | src/ddz/ddz_plugin.cpp:281-344 | a deal, if the code is current, the round runs and the seats are taken; else nothing |
| DdzPlugin.DdzPlugin.OnGameBid | src/ddz/ddz_plugin.cpp:414-467 | the auction opens under the same conditions; else nothing |
| DdzPlugin.DdzPlugin.OnGameLandlord | src/ddz/ddz_plugin.cpp:471-511 | the landlord gets the bottom cards and the turn, if it is still the landlord; else nothing |
| DdzPlugin.DdzPlugin.RunTask | src/ddz/ddz_plugin.cpp:281-511 | calling any queued task is a step of the desk |
| DdzPlugin.DdzPlugin.BidCommand | src/ddz/ddz_plugin.cpp:1143-1160 | a step of the desk of the client, and all other desks stay |
| DdzPlugin.DdzPlugin.CardCommand | src/ddz/ddz_plugin.cpp:1164-1296 | a step of the desk of the client, and all other desks stay; if it ends the round nobody at the desk is ready any more, and no other flag changes |
| DdzPlugin.DdzPlugin.DeclareCommand | src/ddz/ddz_plugin.cpp:348-395 | a step of the desk of the client, and all other desks stay |
| DdzPlugin.DdzPlugin.ReadyCommand | src/ddz/ddz_plugin.cpp:892-967 | the round begins at the desk of the client if all three are ready, or nothing changes at any desk; at most that client becomes ready |
| DdzPlugin.DdzPlugin.CallTask | src/ddz/ddz_plugin.cpp:281-511 | a step of one desk, and all other desks stay; a deal takes back both flags of everyone at the desk, and no other call changes any |
| DdzPlugin.DdzPlugin.LeaveCommand | src/ddz/ddz_plugin.cpp:1488-1500 | the client leaves its desk, and everyone else stays seated |
| DdzPlugin.DdzPlugin.ClientComes | src/ddz/ddz_plugin.cpp:146-154 | a client of the game starts without a desk |
| DdzPlugin.DdzPlugin.ClientGoes | src/ddz/ddz_plugin.cpp:164-183 | a client that goes leaves its desk first, and everyone else stays seated |
| DdzPlugin.DdzPlugin.CountFree | src/ddz/ddz_plugin.cpp:858-876 | the count with its early exit tells whether there are just so many free seats, and the first of them |
| DdzPlugin.DdzPlugin.FindDesk | src/ddz/ddz_plugin.cpp:837-885 | the desk found is the preferred one; none is found exactly if there is no candidate |
| DdzPlugin.DdzPlugin.JoinCommand | src/ddz/ddz_plugin.cpp:822-888 | the client leaves its desk and sits down in the first free seat of the preferred desk; it gets none exactly if no other waiting desk has a free seat |
| DdzPlugin.DdzPlugin.RobotTurn | src/ddz/ddz_plugin.cpp:1330-1387 | a client that still is a robot, with the code that is current, and is to move with cards in its hand, plays what the search finds, and passes if it finds nothing; with a landlord chosen the play is always taken, and the pass exactly if the hand on the table is not its own |
| DdzPlugin.DdzPlugin.MoveOverdue | src/ddz/ddz_plugin.cpp:81-123 | an overdue client passes in the auction, and in play shows its first card or passes |
| DdzPlugin.DdzPlugin.OnUpdate | src/ddz/ddz_plugin.cpp:67-133 | if the plugin is online, that is done at just the desks where the time since the last move is over the limit |
| DdzPlugin.OverdueMoves | src/ddz/ddz_plugin.cpp:86-121 | on every run that move is taken: the answer and the card always, the pass exactly if the hand on the table is not its own; the answer leaves the multiple and the last bidder as they are, and the card is the lowest of the hand |
| DdzSeating.OneSeat | src/ddz/ddz_plugin.cpp:187-190 | a client has a desk exactly if it sits there, in one seat and at no other desk |
| DdzSeating.Leaving | src/ddz/ddz_plugin.cpp:245-264 | leaving keeps that so |
| DdzSeating.Sitting | src/ddz/ddz_plugin.cpp:878-882 | sitting down keeps that so |
| DdzSeating.PreferredOnce | src/ddz/ddz_plugin.cpp:837-885 | there is at most one preferred desk |
| DdzRound.StepKeeps | src/ddz/ddz_plugin.cpp:227-1296 | every command, queued call, arrival and departure keeps all the invariants of a desk |
| DdzRuns.EveryRun | src/ddz/ddz_plugin.cpp:227-1296 | the invariants hold after any events from a new desk |
| DdzRuns.OneTaskAlive | src/ddz/ddz_plugin.cpp:340-1108 | the codes of the queued calls differ and at most one is current |
| DdzRuns.DecidedStays | src/ddz/ddz_plugin.cpp:281-511 | with a landlord chosen no queued deal or opening has an effect; with the bottom cards out no queued call has |
| DdzRuns.AbandonedTask | src/ddz/ddz_plugin.cpp:297-311 | a call queued before a round began has no effect at any time after |
| DdzRuns.CardsConserved | src/ddz/ddz_plugin.cpp:308-555 | the deck is always an order of the 54 cards, and in a dealt round each card is in exactly one hand, played, or among the bottom cards; until a card is played each hand holds 17, and the landlord 20 with the bottom cards |
| DdzRuns.BottomToLandlord | src/ddz/ddz_plugin.cpp:504-511 | on every run the bottom cards are added to the hand of the landlord, who gets the turn, and the two other hands stay as they are |
| DdzRuns.LeadExactly | src/ddz/ddz_plugin.cpp:504-511 | until the end of the round the one to move may pass exactly if there is a hand to beat, if and only if at the giving of the bottom cards there is none exactly if nobody or the landlord showed cards last |
| DdzRuns.AlwaysAMove | src/ddz/ddz_plugin.cpp:1216-1292 | with a landlord chosen the one to move may show any single card with no hand to beat, and else may pass exactly if that is not its own; so as long as the lead is right there is a move |
| DdzRuns.CardsPlayed | src/ddz/ddz_plugin.cpp:516-581 | on every run, what a taken hand does: the cards named form it and beat the table, they leave the hand of the one to move and no other, the next seat has the turn, a bomb is counted, and the round goes on exactly if a card is left |
| DdzRuns.PassGiven | src/ddz/ddz_plugin.cpp:1205-1225 | on every run, what a taken pass does: the next seat has the turn, and there is no hand to beat any more if that is the last to have shown one |
| DdzRuns.EndsExactly | src/ddz/ddz_plugin.cpp:227-581 | on every run a round ends exactly when someone leaves the desk or the one to move shows all its cards |
| DdzRuns.TrickBounded | src/ddz/ddz_plugin.cpp:1275-1292 | the hands shown until the lead changes each beat the one before, and there are at most 32 |
| DdzRuns.PlayDecreases | src/ddz/ddz_plugin.cpp:534-581 | every card command taken lowers three times the cards held plus the passes left, or ends the round |
| DdzRuns.RoundEnds | src/ddz/ddz_plugin.cpp:281-581 | from any time in a round to its end at most 164 card commands are taken |
| DdzRuns.AuctionExactly | src/ddz/ddz_plugin.cpp:970-1125 | on every run: three answers, and a fourth exactly if there was more than one bid; the multiple is the number of bids less one; the landlord is the last client to have bid, or the first to have shown its cards; a new deal comes after three passes; who is asked has neither passed nor bid last; and before a bid the seats are asked in turn, if and only if the auction opened with no bid made and no pass was given while a new deal was queued |
| DdzRuns.AuctionStep | src/ddz/ddz_plugin.cpp:970-1125 | the same for one step, as a condition on the desk before it: the opening keeps that promise exactly if the multiple is -1, and of what follows only a pass while a new deal is queued breaks it |
| DdzRuns.OpeningSeat | src/ddz/ddz_plugin.cpp:436-441 | on every run the auction opens with the client whose command to show its cards was the first taken in the round, or else with the seat after the one that last opened or showed its cards first |
| DdzRuns.FirstStays | src/ddz/ddz_plugin.cpp:391-394 | whoever was the first to show its cards in a round stays that to its end |
| DdzRuns.ShowsExactly | src/ddz/ddz_plugin.cpp:366-392 | on every run anyone at the desk may show its cards until an auction has opened in the round, and then only a landlord that has bid and has the turn and twenty cards |
| DdzRuns.AskedNext | src/ddz/ddz_plugin.cpp:970-1125 | on every run an answer is noted for the seat in turn, and while the auction goes on the next seat that has not passed is asked |
| DdzRuns.NeverStalls | src/ddz/ddz_plugin.cpp:970-1125 | on every run an answer leads to a seat to be asked, a new deal or a landlord, whatever came before; an auction that opens with a bid made takes at most three answers and ends with a landlord |
| DdzRuns.LaggingIndexAgrees | src/ddz/ddz_plugin.cpp:1005-1034 | in every reachable state the index that the loop does not move finds what a moving one would |
| DdzRuns.RobotMoves | src/ddz/ddz_plugin.cpp:1367-1385 | on every run with a landlord chosen, what the search finds is taken; if it finds nothing there is a hand to beat, and the pass is taken exactly if it is not its own |
| DdzRuns.NamedTwice | src/ddz/ddz_plugin.cpp:1240-1258 | a card named twice is taken as a pair, and not two cards leave the hand |
| DdzFailures.InPlayAfterOneBid | src/ddz/ddz_plugin.cpp:970-1125 | a run, event by event, that comes into play with the auction and the lead as promised |
| DdzFailures.EarlyPlayBreaksLead | src/ddz/ddz_plugin.cpp:504-511 | on every run, if the landlord leads a card before it has the bottom cards, it comes to face its own hand and may not pass, nor is it passed for when overdue |
| DdzFailures.LandlordFacesItself | src/ddz/ddz_plugin.cpp:504-511 | a run, event by event, on which that happens |
| DdzFailures.RobotStandsStill | src/ddz/ddz_plugin.cpp:1367-1385 | a run, with the cards dealt, on which a robot leads the big joker so, finds nothing to beat it, and its pass is refused |
| DdzFailures.LandlordPassesOnNothing | src/ddz/ddz_plugin.cpp:504-511 | a run on which another client leads before the bottom cards, the others pass, and the landlord may pass with nothing on the table |
| DdzFailures.LatePassAgain | src/ddz/ddz_plugin.cpp:1036-1058 | a run on which the last client passes any number of times more while a new deal is queued, and each pass is taken |
| DdzFailures.BidBeforeOpening | src/ddz/ddz_plugin.cpp:970-1034 | a run on which a bid between the new deal and the opening is taken, so that the auction opens with a bid made |
| SendQueue.FifoRun | src/net/ws_client.cpp:294-396 | over every run what was delivered, with what waits, is what was taken since the last error, in order, and at most 32 wait |
| SendQueue.TakenSinceEmpty | src/net/ws_client.cpp:234-269 | the number taken, which 32 limits, is counted from the last time that nothing waited |
| SendQueue.FramesRead | src/net/ws_client.h:109-143 | frames of any length that a frame can have, written one after another, can be read back one after another, as in section 5.2 of RFC 6455 |
| WsClient.WsClient.Fifo | src/net/ws_client.cpp:294-396 | on every run of a connection what was delivered, with what waits, is what was taken since the last error, in order |
| WsClient.BufferStream.Write | src/net/ws_client.h:92-107 | 0 exactly if the text is empty or does not fit with its terminator, else the buffer holds the text |
| WsClient.BufferStream.WriteFrame | src/net/ws_client.h:109-143 | 0 exactly if the payload and its terminator do not fit, an error exactly if it is too long; a short payload has its length before it, a longer one the two bytes of its length, and with these exchanged as size; byte 1 stays as it was |
| WsClient.WsClient.AllocAvailableBuffer | src/net/ws_client.cpp:234-269 | refused exactly if 32 buffers are taken, else the next of the pool or a new one |
| WsClient.WsClient.FillText | src/net/ws_client.cpp:294-309 | the doubling loop ends and the buffer holds the text |
| WsClient.WsClient.FillFrame | src/net/ws_client.cpp:331-354 | the doubling loop ends; what the buffer hands over is the frame exactly if it is short, or both bytes of its length are equal and byte 1 was 126 before; one too long is given up |
| WsClient.WsClient.Write | src/net/ws_client.cpp:283-317 | a text is put at the end of the queue, or dropped if 32 buffers are taken; no buffer in use changes |
| WsClient.WsClient.WriteFrame | src/net/ws_client.cpp:320-364 | the frame is put at the end of the queue as its bytes exactly under that condition, or dropped if 32 buffers are taken; one too long leaves a buffer taken |
| WsClient.FrameExactly | src/net/ws_client.h:123-138 | of all that is written for a frame, the bytes handed over are the frame of section 5.2 of RFC 6455 exactly under that condition |
| WsClient.NewBufferFails | src/net/ws_client.h:123-138 | a payload of 257 bytes in a new buffer: the size is right and the frame is not, as byte 1 is 0 |
| WsClient.WsClient.SendHandle | src/net/ws_client.cpp:371-396 | what was sent is the first message; the next is started, or after an error all are dropped |
| WsClient.WsClient.OneWrite | src/net/ws_client.cpp:309-396 | at most one write is under way, exactly while the read position is not -1, and it reads the first pending buffer |
| RequestGrammar.TokenChars | src/net/ws_request_parser.cpp:284-325 | the three tests leave just the token characters of section 3.2.6 of RFC 7230 |
| RequestParser.WsRequestParser.Consume | src/net/ws_request_parser.cpp:18-282 | the machine of 20 states; every state that adds to the last header has one |
| RequestParser.WsRequestParser.Parse | src/net/ws_request_parser.h:51-63 | the loop feeds bytes until one decides, and tells how many it took |
| RequestParser.FeedJoined | src/net/ws_request_parser.h:51-63 | feeding two strings one after the other is feeding them joined |
| RequestParser.ChunksDoNotMatter | src/net/ws_request_parser.h:51-63 | for every split into reads the verdict, the request and the number of bytes taken are the same |
| RequestRoundTrip.SpellingRead | src/net/ws_request_parser.cpp:18-282 | any way of writing a request, with leading zeros and folded headers, is accepted with its last byte and read as what it means |
| RequestRoundTrip.RoundTrip | src/net/ws_request_parser.cpp:18-282 | a well-formed request that is written and parsed is accepted with its last byte and is the same again |
| RequestRoundTrip.ParseRenderParse | src/net/ws_request_parser.cpp:18-282 | whatever is accepted is well formed, and writing and parsing it gives it again |
| RequestLanguage.AcceptsExactly | src/net/ws_request_parser.cpp:18-282 | a text is accepted with its last byte, as a request, exactly if it is a way of writing that request |
| AskTable.FindsAnother | src/ask/ask_plugin.cpp:300-310 | the loop over seven seats overlooks nobody but the one before its start |
| AskTable.FindsFirst | src/ask/ask_plugin.cpp:300-310 | the loop finds the first seat from its start on that is taken |
| AskTable.BeginsOnBothSides | src/ask/ask_plugin.cpp:350-376 | equal sides with a leader mean a player on either side |
| AskTable.StepKeeps | src/ask/ask_plugin.cpp:207-575 | joins, leaves, starts, answers and stops keep a room led |
| AskTable.EveryRun | src/ask/ask_plugin.cpp:207-575 | on every run a running team room has players on both sides, a waiting room with players a leader in its seat, an empty room no leader |
| AskTable.CourseKeeps | src/ask/ask_plugin.cpp:316-552 | joins, leaves, starts, queued calls and answers keep the course of a game: nothing is answered before the first question, and then as many questions as the number of the one asked |
| AskTable.AnswerLeadsOn | src/ask/ask_plugin.cpp:472-552 | on every run an answer that is taken is to the question after the last one answered, in team mode by the sides in turn; it ends the game exactly if the question is the last, and else the next one is asked of the other side |
| AskTable.EndsExactly | src/ask/ask_plugin.cpp:245-552 | a running game ends exactly with the answer to the last question, or when a player leaves and its side is empty (without teams: fewer than two are left) |
| AskTable.WholeGame | src/ask/ask_plugin.cpp:316-552 | a game in team mode that does not end because a player leaves takes as many answers as there are questions, by the sides in turn, and never more |
| AskTable.GoesOn | src/ask/ask_plugin.cpp:404-552 | at any time in a game in team mode the queued call takes effect, or someone can answer |
| AskTable.QuestionsKept | src/ask/ask_plugin.cpp:385-391 | on every run a room has twenty questions for each game it was given some for, so a game asks twenty exactly if that is the first such |
| AskTable.SecondGame | src/ask/ask_plugin.cpp:385-391 | a run on which a second game begins with forty questions |
| AskTable.AloneStalls | src/ask/ask_room.h:83-104 | without teams and with the first three seats taken nobody can answer the third question |
| AskRooms.AskRoom.IndexOfClient | src/ask/ask_room.h:186-197 | the first seat of a client, or -1 exactly if it has none |
| AskRooms.AskRoom.MoveNext | src/ask/ask_room.h:83-104 | the other side, or the next seat if it is taken |
| AskRooms.OnRoomGameStop | src/ask/ask_plugin.cpp:555-575 | the game is over, and a leader that has gone is replaced |
| AskRooms.OnClientLeaveRoom | src/ask/ask_plugin.cpp:245-312 | leaving a waiting or a running room, in either mode |
| AskRooms.OnClientJoinRoom | src/ask/ask_plugin.cpp:207-217 | the seat is taken, by the leader if there was none |
| AskRooms.AskPlugin.ClientComes | src/ask/ask_plugin.cpp:58-66 | a client of the game starts without a room |
| AskRooms.AskPlugin.SearchRoom | src/ask/ask_plugin.cpp:121-170 | the search with its one restart ends; it finds a room exactly if one can be joined, and which |
| AskRooms.AskPlugin.JoinCommand | src/ask/ask_plugin.cpp:98-202 | the client gives up its room and gets the one that is found, or the numbered one if it can be joined |
| AskRooms.AskPlugin.CountReady | src/ask/ask_plugin.cpp:350-369 | all but the leader are ready, and the numbers of both sides |
| AskRooms.AskPlugin.ReadyCommand | src/ask/ask_plugin.cpp:316-401 | a game begins only for the leader, with all others ready, equal sides and enough questions, and never for a client that has begun one before, as a client that is ready stays so |
| AskRooms.AskPlugin.OnRoomGameStart | src/ask/ask_plugin.cpp:404-438 | the first question is queued, if the code is current and the game runs |
| AskRooms.AskPlugin.OnRoomGameQuestion | src/ask/ask_plugin.cpp:441-470 | the first question is asked of the first side, if the code is current and the game runs |
| AskRooms.AskPlugin.CallTask | src/ask/ask_plugin.cpp:404-470 | a step of one room, and all other rooms stay |
| AskRooms.AskPlugin.AnswerCommand | src/ask/ask_plugin.cpp:472-552 | a step of the room of the client, and all other rooms stay |
| AskRooms.StepInOrder | src/ask/ask_plugin.cpp:98-575 | a step of one room keeps all rooms led and reached by events, every client that has a room seated in it, and whoever sits in a room in one seat of the room it has |
| AskRooms.OneSeat | src/ask/ask_plugin.cpp:98-202 | a client has a room exactly if it sits there, in one seat and in no other room |
| RateLimit.RateBound | src/service/post_monitor.h:39-57 | in every interval of the length of the window at most twice the limit is allowed |
| RateLimit.BoundIsReached | src/service/post_monitor.h:39-57 | twice the limit can be reached, whatever the limit and the window |
| RateLimit.LimitKeptExactly | src/service/post_monitor.h:39-57 | no calls whatever in the interval from `a` on are allowed more often than the limit, if and only if the window is over by then, or used up, or begins later than a millisecond before |
| RateLimit.RefusalLasts | src/service/post_monitor.h:47-54 | after a refusal the next call is allowed exactly if punishment and window have passed since the last refused one |
| PostMonitor.PostMonitor.CanActive | src/service/post_monitor.h:39-57 | the verdict and the new state of the monitor |

## Left out

- Sockets, TLS, timers, threads, locks, the HTTP client, the database, logging and memory pools: foreign calls.
- The messages to the clients: what is written to whom, and in which format.
- `on_data_received` and the reassembly of incoming frames: the parser of frame data is not part of this model.
- `WsClient.WsClient.Write`: not for an empty text, with which the doubling loop of src/net/ws_client.cpp:294-309 goes on until there is no memory left, since 0 means that a text does not fit. Rendering a format succeeds.
- `WsClient.WsClient.FillText`: not for an empty text either.
- `WsClient.WsClient.WriteFrame`: after a frame that is not sent right the queue is not followed any further, and what the socket reads beyond a buffer is not said.
- The flag `is_data_sending_`, which nothing reads.
- The settlement of money in `on_game_stop` (src/ddz/ddz_plugin.cpp:631-811), and the number of double jokers, which nothing counts up.
- `PokerParser.IsThreeOrFour`: not for three cards, for which it is never called (src/ddz/poker_parser.cpp:450-566).
- `PokerParser.Parse`: not for arrays with a zero code in them, which no string has.
- `PokerParser.ClassifySorted`: not for a zero code either.
- `PokerParser.CountMainRuns`: not for a zero code either.
- `DdzPlugin.DdzPlugin.RobotTurn`: whether the client is a robot and its code are parameters, and the delay is left out. Commands that the server simulates for a client are ordinary commands.
- `SendQueue.FifoRun`: an error drops what waits, and the count starts anew; that nothing more is delivered afterwards is up to the caller.
- `RateLimit.RateBound`: the counter does not wrap around.
- `ask_plugin::on_client_leave`, which ends by calling itself (src/ask/ask_plugin.cpp:88).
- The storage and choice of questions. A zone has none or at least twenty: with fewer, `get` of src/ask/questions.h:72-96 never returns.
- `async_task`, `game_service` and the lifetime of clients; the command tokenizer; plain getters.
- The copies of the parser and the finder elsewhere in the repository.
