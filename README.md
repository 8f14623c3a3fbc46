# Clue server and the `randy` bot, modelled in Dafny

The system is a Clue-style game. A server reads a settings file listing a port and categories of
card names. It admits players through a lobby handshake and numbers them 0, 1, 2, … in joining
order. It deals the cards and then runs turns. On its turn a player either attempts to solve or
makes a suggestion. A suggestion goes round the table until a player who holds one of the
suggested cards shows one. Client and server exchange packed binary frames: an 8-byte header (a
1-byte type, 3 reserved bytes, a 32-bit `data_length`) followed by a payload laid out as the
frame's struct. `randy` is a bot that plays at random.

The model has one module per part of the program:

- `Wire`: the byte-level integer codecs and the frame header. It also has `Writer`, a write
  cursor over a preallocated region.
- `Frames`: the frame catalogue with its type tags, payload layouts and `data_length`. It models
  receives as `Recv` values and sends as `Message` values.
- `Sorting`: `qsort` with the `int16_t` comparator.
- `Catalog`: card ids assigned densely in category-major order.
- `Settings`: `read_settings_file` over the lines of the file.
- `Rules`: the Rules frame encoder and the bot's decoder for it.
- `Lobby`: the `get_players` handshake and roster.
- `Dealer`: `start_game`, covering the solution, deck, `shuffle`, deal, sorted hands and the
  Start frames.
- `Start`: the Start frame encoder and the bot's decoder for it.
- `Engine`: `run_game` with `player_has_card`. It holds a `Game` class with the eliminated flags
  and the turn index.
- `Randy`: the bot's `handle_frame`, with a `Bot` class holding the `knowledge` record.

The model takes the source's own form:

- **Loops and in-place updates.** Loops become methods with loop invariants. In-place work stays
  in place: `Shuffle` permutes an `array`, `Game` and `Bot` update their fields, and the encoders
  write through `Writer` cursors.
- **The reference functions.** Each method is proved equal to a function that says what the
  loop computes. Lemmas then prove what the source promises about that function.
- **Randomness.** The values of `rand()` are parameters (sequences of naturals), so each property
  holds for every random stream.
- **Receives.** A receive is a parameter: it times out, fails, or brings some bytes.

## Model

| member | source | states |
|---|---|---|
| Wire.Int8RoundTrip | server/src/frames.h:9 | an `int8_t` field stored as a byte reads back as the same value, for every value in range |
| Wire.Int16RoundTrip | server/src/frames.h:45 | an `int16_t` field is two bytes that read back as the stored value, for every value in range |
| Wire.Int32RoundTrip | server/src/frames.h:11 | an `int32_t` field is four bytes that read back as the stored value, for every value in range |
| Wire.Int16sRoundTrip | server/src/frames.h:46-48 | a packed `int16_t` array reads back element for element, whatever bytes follow it |
| Wire.Int16sAt | server/src/frames.h:46-48 | element k of a packed `int16_t` array sits at byte offset 2k |
| Wire.LE16sAppend | server/src/server.c:492 | packing two runs one after the other is the packing of the joined run |
| Wire.HeaderRoundTrip | server/src/frames.h:8-13 | the header is exactly 8 bytes, and its type and `data_length` read back from it whatever follows |
| Wire.Writer.constructor | server/src/server.c:88-91 | a region starts empty, with the capacity it was allocated with |
| Wire.Writer.Put | server/src/server.c:103-106 | a write within the region appends exactly the bytes written at the cursor |
| Frames.Payload | server/src/frames.h:18-121 | every payload is exactly the `data_length` its sender puts in the header |
| Frames.Encode | server/src/frames.h:8-13 | a frame on the stream is the 8-byte header plus `data_length` bytes |
| Frames.EncodeFraming | server/src/frames.h:8-13 | the receiver reads the tag and declared length back from the header, and the payload is exactly what follows it |
| Frames.ReasonBody | server/src/server.c:298-309 | an error or abort body is a 32-bit length followed by exactly that many text bytes, and the two bodies are laid out alike |
| Frames.CardsRoundTrip | server/src/frames.h:79-83 | the server reads a suggestion or a solve attempt back as the cards the client packed |
| Frames.NotShort | server/src/server.c:562 | a receive that passes the signed size check delivered at least the bytes asked for |
| Frames.ShortAsWrittenMissesFailure | server/src/server.c:709 | comparing with a `size_t` lets a failed receive through that the signed comparison catches; on bytes that arrived the two agree |
| Frames.Broadcast | server/src/server.c:553-557 | a broadcast sends the frame to every seat, in seat order |
| Sorting.Compare | server/src/server.c:814-819 | the comparator's sign is the order of its operands, in both directions |
| Sorting.Insert | server/src/server.c:468 | inserting adds exactly the one card, and the head is the smaller of the card and the old head |
| Sorting.InsertSorted | server/src/server.c:468 | inserting into a sorted run keeps it sorted |
| Sorting.Sort | server/src/server.c:468 | the result is sorted and a permutation of the input |
| Sorting.SortedUnique | server/src/server.c:655 | two sorted sequences with the same elements are equal |
| Sorting.SortOfSorted | server/src/server.c:655 | sorting a sorted sequence changes nothing |
| Sorting.SortPermutation | server/src/server.c:655 | the sorted result depends only on the multiset of the input |
| Catalog.Total | server/src/server.c:72-82 | with no empty category there are at least as many cards as categories |
| Catalog.BaseMonotone | server/src/server.c:444 | base ids never decrease from one category to the next |
| Catalog.OnePerCategorySorted | server/src/server.c:659-673 | one card per category, in category order, is strictly increasing, so its cards are distinct |
| Catalog.CategoryUnique | server/src/server.c:667-668 | a card id belongs to at most one category |
| Catalog.FlattenLength | server/src/server.c:72-82 | the catalog has `total_cards` ids |
| Catalog.FlattenAt | server/src/server.c:95-101 | card id base(i)+j names entry j of category i |
| Catalog.Span | server/src/server.c:437-442 | the span from lo holds lo+i at position i |
| Settings.StrLen | server/src/server.c:200 | `strlen` stops at the first NUL, or at the end of the line |
| Settings.Port | server/src/server.c:165 | the stored port is the `atoi` value modulo 2^16 |
| Settings.AtoiDecimal | server/src/server.c:165 | `atoi` reads back any number written in decimal before a non-digit |
| Settings.NameOf | server/src/server.c:226-228 | a stored name is its line minus the last character |
| Settings.RunKeeps | server/src/server.c:194-233 | the loop never closes an empty category, and the closed categories followed by the open one are the names read so far |
| Settings.CategoriesAreNames | server/src/server.c:194-246 | no recorded category is empty, and the categories hold exactly the name lines, in file order |
| Settings.NamesBounded | server/src/server.c:217-228 | each stored name is 1 to 126 bytes and holds no NUL |
| Settings.BlankSeparates | server/src/server.c:201-216 | a blank line splits the file into the categories before and after it, so runs of blank lines add nothing |
| Settings.LongLineSkipped | server/src/server.c:217-219 | a line over 127 bytes is skipped, not fatal: the file parses as if it were absent |
| Settings.ParseSettingsWellFormed | server/src/server.c:148-260 | an accepted file has a nonzero port and a blank second line, at most 127 non-empty categories and 32767 cards, and the names of its name lines in order |
| Settings.ParseSettingsAccepts | server/src/server.c:158-258 | a file is accepted exactly when its first line gives a nonzero port, its second line is blank, and its name lines number at most 32767 in at most 127 categories; the accepted categories hold the name lines in file order |
| Settings.NoCategoryNotDealable | server/src/server.c:416-418 | a file with a port and a blank line but no name is accepted, and has no category for the first assert of `start_game` |
| Settings.OneCardNotDealable | server/src/server.c:416-419 | a file whose only category has one card is accepted, and leaves no deck card for the second assert of `start_game` |
| Settings.ReadSettingsFile | server/src/server.c:148-260 | the loop that grows the category lists computes exactly the parse |
| Settings.ManyCategoriesWrap | server/src/server.c:255 | as written, 128 to 255 categories are accepted and `num_categories` wraps negative; the corrected parser refuses the file |
| Settings.ManyCardsWrap | server/src/server.c:250-253 | as written, 32768 to 65535 cards are accepted with only a warning and the count wraps negative; the corrected parser refuses the file |
| Rules.NameEntries | server/src/server.c:102-106 | the names region is one length byte plus the name bytes per card |
| Rules.NameEntriesAppend | server/src/server.c:102-106 | the names region of two name lists is their regions one after the other |
| Rules.RulesLayout | server/src/server.c:87-108 | the Rules payload is 4 + 2C + 2N + N + the sum of the name lengths bytes, laid out as fixed fields, counts, ids, then names |
| Rules.RulesIdAt | server/src/server.c:99 | the id array holds card id k at position k |
| Rules.CountCards | server/src/server.c:72-82 | the first pass counts the cards and adds up their name lengths |
| Rules.WriteCategory | server/src/server.c:98-107 | one category appends its consecutive ids and its length-prefixed names |
| Rules.WriteCatalog | server/src/server.c:96-108 | the encoder's loops fill the counts, ids and names regions of the payload |
| Rules.BuildRules | server/src/server.c:86-108 | the encoder builds the Rules payload for player id 0, with `rules_len` bytes |
| Rules.ReadNamesEntries | clients/randy/src/randy.c:156-165 | the bot's cursor reads back the length-prefixed names the server wrote, whatever surrounds them |
| Rules.DecodeFields | clients/randy/src/randy.c:147-165 | the bot's decoder yields the fixed fields, C counts, and the N names found 2C + 2N bytes past the fixed part |
| Rules.RulesRoundTrip | clients/randy/src/randy.c:145-166 | decoding the server's Rules payload gives back the player id, the card and category numbers, the counts and the names in category-major order |
| Lobby.LobbyTimeoutMissed | server/src/server.c:331-369 | as written, no connection is ever answered "Timed out", and a failed Connect or name receive goes on to read a buffer it never wrote; the signed checks refuse each timed-out receive with "Timed out" |
| Lobby.CheckConnectAgrees | server/src/server.c:331-369 | when all three receives delivered bytes, the handshake as written and the corrected one end the same way |
| Lobby.ConnectAccepted | server/src/server.c:331-377 | a well-formed Connect frame is admitted under the name it carries |
| Lobby.JoinedNames | server/src/server.c:353-377 | an admitted name has the declared length and no zero byte; a negative length and a zero byte before the declared length are refused |
| Lobby.WithPlayerId | server/src/server.c:384 | setting `player_id` changes only the first byte |
| Lobby.WithPlayerIdPayload | server/src/server.c:384 | the patched payload is the Rules payload for that player |
| Lobby.LobbyRoster | server/src/server.c:317-405 | at most 128 players, with ids 0, 1, 2, … in joining order and valid names; player k was sent the Rules frame carrying id k |
| Lobby.LobbyFull | server/src/server.c:317 | once 128 players joined, later connections change nothing |
| Lobby.GetPlayers | server/src/server.c:311-409 | the accept loop builds exactly the lobby above, with its roster guarantees |
| Dealer.SolutionOnePerCategory | server/src/server.c:427-429 | whatever the draws, `solution[i]` is in category i's id range, so the solution ascends |
| Dealer.CategoryRestParts | server/src/server.c:437-442 | a category's cards other than the solution card and that card hold the category's ids |
| Dealer.DeckPartition | server/src/server.c:427-445 | after i categories the deck and the solution hold every id below base(i) once, and the deck has base(i) − i cards |
| Dealer.DeckExactlyOnce | server/src/server.c:446 | the deck holds every non-solution card exactly once and nothing else, with total − C cards |
| Dealer.BuildDeck | server/src/server.c:423-446 | the first loop computes the solution and the deck |
| Dealer.Swap | server/src/server.c:516-518 | the exchange through `tmp` swaps two positions and leaves the rest |
| Dealer.SwapPermutation | server/src/server.c:516-518 | an exchange only rearranges |
| Dealer.ShuffledPermutation | server/src/server.c:511-520 | whatever the random values, `shuffle` only permutes its array |
| Dealer.ShuffledPrefixOnly | server/src/server.c:514-519 | the first k rounds touch only the first k positions |
| Dealer.Shuffle | server/src/server.c:511-520 | the in-place shuffle leaves the array as the reference shuffle, a permutation of the old contents |
| Dealer.HandSize | server/src/server.c:458-463 | player p gets k/n cards, one more when p < k mod n |
| Dealer.HandsBalanced | server/src/server.c:453 | hand sizes differ by at most one and none exceeds the `deck_len / num_players + 1` slots allocated |
| Dealer.HandAt | server/src/server.c:458-463 | card j of player p's hand is deck card j·n + p, so deck position k goes to player k mod n |
| Dealer.DealtPooled | server/src/server.c:458-463 | between them the hands hold the dealt cards, as often as in the deck, and their sizes add up to the number dealt |
| Dealer.Deal | server/src/server.c:458-463 | the deal loop with the cycling `deal_idx` computes the round-robin hands |
| Dealer.SortAll | server/src/server.c:468 | each hand is replaced by its sorted version |
| Dealer.TotalNameLength | server/src/server.c:452-455 | the loop adds up the players' name lengths |
| Dealer.DealTable | server/src/server.c:417-463 | the first half of `start_game` yields the solution, the shuffled seats, the dealt hands and the name total |
| Dealer.ShuffleDeck | server/src/server.c:450 | the deck is shuffled with the draws after the solution's |
| Dealer.ShuffleSeats | server/src/server.c:451-455 | the roster is shuffled into seats with the next draws, and the names are added up |
| Dealer.SortHands | server/src/server.c:466-468 | the hands are sorted one after the other |
| Dealer.SendingAbort | server/src/server.c:502-504 | the first send that fails makes everyone get the "Player disconnected" abort |
| Dealer.SendingNext | server/src/server.c:475-502 | a connected player is sent the Start frame with its own hand and the shared order, sizes and names |
| Dealer.SendStarts | server/src/server.c:466-506 | the Start loop sends in seat order, and the game starts exactly when every send succeeded |
| Dealer.StartGame | server/src/server.c:416-509 | it crashes, sending nothing, exactly when there is no category or no card beyond the solution; otherwise the game starts exactly when every Start frame went out, with the solution, the shuffled seats and the sorted hands |
| Dealer.PooledSortAll | server/src/server.c:468 | sorting keeps the cards each hand holds |
| Dealer.ShuffledDeckPermutation | server/src/server.c:450 | shuffling keeps the deck's cards |
| Dealer.HandsPool | server/src/server.c:458-468 | dealing and sorting keep the cards |
| Dealer.DeckAndSolution | server/src/server.c:427-446 | the deck and the solution split the card ids between them |
| Dealer.DealCovers | server/src/server.c:427-468 | every card id is in the solution or in one player's hand, exactly once |
| Dealer.DealBalanced | server/src/server.c:458-468 | every hand is sorted, and hand sizes differ by at most one |
| Dealer.SeatsPermutation | server/src/server.c:451 | the seating order is a rearrangement of the roster |
| Start.StartLayout | server/src/server.c:475-499 | the Start payload is `data_length` bytes, laid out as fixed fields, own hand, player order, hand sizes and names at the struct's offsets |
| Start.WriteSeats | server/src/server.c:493-499 | the per-seat loop fills the order, hand-size and name regions |
| Start.BuildStart | server/src/server.c:475-499 | the encoder builds the Start payload of the computed length |
| Start.StartRoundTrip | clients/randy/src/randy.c:167-178 | the bot reads back the hand the server put in its Start frame |
| Engine.HasCard | server/src/server.c:821-836 | on a sorted hand the binary search answers yes exactly when the card is in the hand |
| Engine.Adjudicate | server/src/server.c:595-614 | the attempt is correct exactly when every solution card occurs somewhere in the guess |
| Engine.CorrectIffRearrangement | server/src/server.c:595-614 | with distinct solution cards and a guess of length C, correct means the guess is a rearrangement of the solution |
| Engine.CheckSuggestion | server/src/server.c:659-673 | the check passes exactly when the sorted suggestion has one card per category |
| Engine.LegalIffRearrangement | server/src/server.c:655-673 | a suggestion that has a one-per-category rearrangement is accepted, and an accepted one is such a rearrangement |
| Engine.LegalOrderFree | server/src/server.c:655 | suggestions with the same cards are both legal or both illegal |
| Engine.SameCategoryIllegal | server/src/server.c:655-673 | two cards of one category, or one card twice, are never accepted |
| Engine.CyclicStep | server/src/server.c:681 | stepping d seats forward lands d seats away |
| Engine.SeatOffset | server/src/server.c:681 | every seat is some number of steps from any other |
| Engine.SeatNext | server/src/server.c:542-543 | one more `(idx + 1) % n` step is one more seat forward |
| Engine.ActiveCountZero | server/src/server.c:530-536 | the count of players still in is zero exactly when everyone is eliminated |
| Engine.CountActive | server/src/server.c:530-535 | the counting loop computes that count |
| Engine.SkipEliminated | server/src/server.c:541-544 | the skip loop stops at the first seat, cyclically from the start, whose player is still in |
| Engine.HonestHeader | server/src/server.c:561 | a client's whole frame reads back with its tag and length |
| Engine.HasAny | server/src/server.c:694-700 | `has_one` is set exactly when the player holds one of the suggested cards |
| Engine.FirstHolder | server/src/server.c:681-700 | the rotation stops at the first player after the suggester who holds a suggested card; everyone before passed |
| Engine.ShowFanOut | server/src/server.c:754-765 | the shower receives nothing, and everyone else one announcement |
| Engine.ShowRecipients | server/src/server.c:754-765 | the suggester is told the card, every other non-shower 0, and the shower nothing |
| Engine.Announce | server/src/server.c:754-765 | the announcement loop sends exactly that fan-out |
| Engine.TimeoutAsWritten | server/src/server.c:708-722 | as written, a timed-out response reaches the `assert` and the server dies; with the signed check it aborts the game with the reason |
| Engine.ShowAsWrittenAgrees | server/src/server.c:709 | the two checks agree on headers whose bytes arrived |
| Engine.ShowAccepted | server/src/server.c:738-765 | a holder who shows a card it holds is accepted; only the suggester learns the card, and the others are told 0 |
| Engine.Show | server/src/server.c:706-765 | one response step, with its receives, cheat check and announcements |
| Engine.QueriedNotSuggester | server/src/server.c:681 | the suggester is never queried |
| Engine.PassesHeard | server/src/server.c:682-691 | everyone hears every query and every −1 pass announcement |
| Engine.QueryRound | server/src/server.c:681-781 | the rotation loop computes the rotation outcome |
| Engine.Solve | server/src/server.c:576-634 | the solve branch computes the solve outcome |
| Engine.Suggest | server/src/server.c:636-679 | the suggestion branch computes the suggestion outcome |
| Engine.HonestCarries | server/src/server.c:561 | a client that sends a frame whole delivers its tag, its length and its payload |
| Engine.CardsRead | server/src/server.c:579 | the server reads back the cards a client packed |
| Engine.SuggestDispatch | server/src/server.c:636 | a TurnResponse header selects the suggestion branch |
| Engine.SolveAttempt | server/src/server.c:576-634 | a whole attempt wins exactly when the guess is the solution in some order, and eliminates the mover otherwise; everyone learns the verdict |
| Engine.Suggestion | server/src/server.c:636-679 | a one-per-category suggestion in any order goes round the table sorted; any other is refused and the turn passes |
| Engine.OtherFrameRefused | server/src/server.c:783-793 | any other frame type is refused with an error to the mover alone, and the turn passes |
| Engine.Game.constructor | server/src/server.c:522-523 | the game starts with nobody eliminated and no turn taken |
| Engine.Game.BeginTurn | server/src/server.c:525-557 | the turn goes to the first player still in after the previous mover, and everyone is told whose turn it is |
| Engine.Game.Respond | server/src/server.c:559-793 | the mover's reply is acted on; only a wrong solve attempt changes the state, by eliminating the mover |
| Engine.OnlySolveEliminates | server/src/server.c:636-679 | a suggestion never eliminates anyone and never wins |
| Engine.QueryNeverEnds | server/src/server.c:681-781 | the rotation goes on to the next turn or aborts; it never ends the game |
| Randy.HelloAccepted | clients/randy/src/randy.c:52-59 | the Connect frame has `data_length` 1 + the name length, and the server admits it under the name "Randy" |
| Randy.ReceiveMissesFailure | clients/randy/src/randy.c:117-133 | as written, a failed receive goes on with the zeroed buffer; the signed check exits with 1; on bytes that arrived the two agree |
| Randy.PhantomTurn | clients/randy/src/randy.c:117-186 | as written, bot 0 takes a turn nobody gave it after a failed receive; the corrected bot exits |
| Randy.ReadNamesLength | clients/randy/src/randy.c:157-165 | a successful names read yields `num_cards` names |
| Randy.StepConsistent | clients/randy/src/randy.c:145-178 | handling any frame keeps one count per category, one name per card, and no hand before the names |
| Randy.StepFrame | clients/randy/src/randy.c:145-271 | `turns_played` goes up by one only on a Turn frame naming the bot; only Rules changes the game facts and only Start the hand |
| Randy.TurnChoice | clients/randy/src/randy.c:181-219 | on its turn the bot suggests for its first five turns and attempts a solve from the sixth, in 2C payload bytes |
| Randy.PicksLegal | clients/randy/src/randy.c:192-215 | the picked cards are one per category and ascending, so the server's check accepts them |
| Randy.PicksInCategories | clients/randy/src/randy.c:192-198 | each picked card lies in its own category's id range |
| Randy.SuggestionAccepted | clients/randy/src/randy.c:203-219 | the bot's suggestion, received whole, goes round the table as sent |
| Randy.SolveJudged | clients/randy/src/randy.c:186-202 | the bot's solve attempt wins exactly when it names the solution, and eliminates the bot otherwise |
| Randy.GuessJudged | server/src/server.c:595-633 | a one-per-category guess wins exactly when it equals the solution |
| Randy.SameCards | server/src/server.c:595-614 | two one-per-category choices hold the same cards exactly when they are equal |
| Randy.HeldSound | clients/randy/src/randy.c:235-244 | the candidates are exactly the hand cards in the suggestion, and there are none exactly when none of the suggested cards is held |
| Randy.QueryRead | clients/randy/src/randy.c:222-239 | the bot reads back the queried id and the suggestion of the server's Query frame |
| Randy.Answer | clients/randy/src/randy.c:222-258 | queried, the bot shows a held suggested card when it has one and sends nothing otherwise; its knowledge does not change |
| Randy.ShowAcceptedFromBot | clients/randy/src/randy.c:245-257 | the card the bot shows is accepted by the server's cheat check, and only the suggester learns it |
| Randy.LearnsRules | clients/randy/src/randy.c:145-166 | the lobby's Rules frame teaches the bot its id, the counts and the card names |
| Randy.LearnsHand | clients/randy/src/randy.c:167-178 | once the names are known, the Start frame teaches the bot the hand it was dealt |
| Randy.ReadInt16s | clients/randy/src/randy.c:153-155 | the copy loop reads the k packed `int16_t` values |
| Randy.ReadNames | clients/randy/src/randy.c:156-165 | the cursor loop reads the names the decoder specifies |
| Randy.Pick | clients/randy/src/randy.c:192-198 | the pick loop yields the picked cards, and fails exactly when a category is empty |
| Randy.CollectHeld | clients/randy/src/randy.c:235-244 | the nested loops build `cards_held` |
| Randy.Bot.constructor | clients/randy/src/randy.c:31-38 | the bot starts from the zeroed record |
| Randy.Bot.OnRules | clients/randy/src/randy.c:145-166 | the Rules branch updates the record as the decoder says |
| Randy.Bot.OnStart | clients/randy/src/randy.c:167-178 | the Start branch changes only the hand |
| Randy.Bot.OnTurn | clients/randy/src/randy.c:179-221 | the Turn branch changes only `turns_played` and sends the turn's frame |
| Randy.Bot.OnQuery | clients/randy/src/randy.c:222-258 | the Query branch changes nothing and sends at most the chosen card |
| Randy.Bot.HandleFrame | clients/randy/src/randy.c:115-271 | `handle_frame` keeps the record consistent and reacts as the reference function says |

## Left out

- Sockets are not modelled: `open_socket`, `accept` and its errors and `exit`, `connect_to_server`,
  and the bots' main receive loop (`clients/randy/src/randy.c:61-74`). Receives are parameters.
  Sends always succeed, except for the two the source checks: the Rules payload in the lobby and
  the Start payload.
- Time is not modelled: the lobby window, the receive timeouts as durations, `srand`, and
  `handle_sigint`. `rand()` values are sequence parameters. The draws for the solution, the deck
  shuffle and the player shuffle are consecutive slices of one stream.
- File reading is not modelled: `fopen`, and `fgets`' 256-byte line splitting. The settings file
  is given as its lines with their newlines.
- Output is not modelled: `printf`, `perror` and the bot's debug-file writes. That includes the
  `card_names[...]` reads in diagnostics with out-of-range ids.
- Memory is not modelled: allocation, `free`, and the final clean-up in `main`.
- "No players connected" (`server/src/server.c:115-118`): the Dealer takes a non-empty roster.
- `Settings.Atoi` computes the exact value of the digits. The library result for a value that
  does not fit an `int` is undefined.
- Rules.BuildRules: the single malloc'd buffer with one pointer per region is modelled as one
  `Writer` per region, joined at the end. Start.BuildStart is modelled the same way.
- Engine.Solve: `server/src/server.c:625` sends the address of the pointer
  `solve_broadcast_frame`. The model sends the Solve result frame that was evidently meant.
- Engine.Show: `server/src/server.c:723` receives 8 bytes into the 2-byte query response. The
  model reads the card from the first two bytes that arrived.
- Dealer.Deal: `hand_size` is never initialised before the deal (`server/src/server.c:399-404`).
  It is taken as 0.
- Dealer.StartGame: each hand is sorted inside the send loop (`server/src/server.c:468`). The
  model sorts all hands before sending. The frames sent are the same. Only how many hands got
  sorted before an abort differs, and nothing observes that.
- The header sends before the Rules payload (`server/src/server.c:383`) and before the Start
  payload (`server/src/server.c:501`) are not checked by the source and are modelled as always
  succeeding. So when a payload send fails, the model does not record that the player has
  already received a header without its payload.
- Engine.OtherFrameRefused does not model the receive into `garbage` at
  `server/src/server.c:787-788`.
- With 128 players, the Start frame's `int8_t` `num_players` holds the byte 128, which reads as
  -128. The model writes the same byte. No reader of it is modelled, because the bot skips the
  field.
- A win sends "Game ended" to everyone and is terminal (the `Win` status). The exit code of
  `abort_game` is left out.
- Engine.Game.Respond: the outer `while (1)` of `run_game` is modelled as two steps, `BeginTurn`
  and `Respond`, which a caller alternates.
- Randy.Bot.HandleFrame: reads the source leaves undefined become the `Fault` reaction. These are
  a payload shorter than its fields, a negative name length, a division by an empty category,
  and the failed `assert`s. The C program's behaviour in those cases is not modelled.
- Randy.Bot.OnTurn does not model the 32-bit wrap of `turns_played`.
- Randy.Bot.OnRules: after any Rules frame, the model counts `card_names` as set. The source's
  `malloc` of `total_cards` pointers may return NULL when that count is 0 or negative. The
  Start branch's `assert` would then fail on a later non-empty hand.
- Randy.CollectHeld has one slot per category for `cards_held`. A hand that repeats a suggested
  card could overflow those slots. Dealt hands have distinct cards, and the model keeps every
  match.
- Randy.Bot.OnRules does not model the `num_categories` message size for a negative C. The
  counts loop does not run then, and the model keeps no counts.
- The bot's reactions to Query returns and Solve results are only `printf`, so they are modelled
  as no change.

## Findings

| source | as written | input that shows it | evidently intended | confidence | as-written member | corrected member |
|---|---|---|---|---|---|---|
| server/src/server.c:709 | `received_size` (an `int`) is compared with `sizeof`, so -1 becomes SIZE_MAX and a failed receive passes; the zeroed header then fails the `assert` at line 722 | the obligated player's response header times out | report "Timed out" to the player and abort the game for everyone | not executed | Engine.TimeoutAsWritten | Engine.ShowOutcome |
| server/src/server.c:332-360 | `data_len` is a `size_t` in the three size checks of the handshake (lines 333, 344 and 360), so a failed receive (-1) is never short and none of the "Timed out" branches can run; after a failed Connect or name receive the lobby reads `connect_frame.name_length` or the name bytes that were never received (`strnlen` at line 370) | a lobby connection whose header, Connect or name receive times out | refuse the connection with "Timed out" | not executed | Lobby.LobbyTimeoutMissed | Lobby.CheckConnect |
| server/src/server.c:250-253 | more than 32767 cards only prints a warning; the `int16_t` count wraps | a file with port 1, a blank line, then 32768 name lines | refuse the settings | not executed | Settings.ManyCardsWrap | Settings.ParseSettings |
| server/src/server.c:255 | `num_categories` is an `int8_t`; 128 categories or more wrap to a negative count | a file with port 1, a blank line, then 128 one-name categories | refuse the settings | not executed | Settings.ManyCategoriesWrap | Settings.ParseSettings |
| clients/randy/src/randy.c:117-125 | `data_length` is a `size_t`, so a failed payload receive (-1) is not short and the bot acts on the zeroed buffer | bot 0 receives a Turn header of length 1, then the payload receive fails | exit with status 1 after `perror` | not executed | Randy.PhantomTurn | Randy.Receive |
