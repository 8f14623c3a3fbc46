/** The bot `randy`. It connects under the name "Randy", keeps what the Rules and Start frames
    tell it in its knowledge record, and plays at random. On its turn it names one random card of
    each category: as a suggestion for its first five turns, as a solve attempt from the sixth on.
    When it is queried it shows a random card of its hand among those suggested. The values
    `rand()` returns are parameters. */
module Randy {
  import opened Wire
  import opened Frames
  import opened Sorting
  import opened Catalog
  import opened Rules
  import opened Start
  import Lobby
  import opened Engine

  /** `NAME`, the name the bot connects under ("Randy"). */
  const Name: seq<byte> := [82, 97, 110, 100, 121]

  /** The Connect frame the bot opens with: `name_length` is `strlen(NAME)`. */
  const Hello: Frame := ConnectFrame(Name)

  /** Its `data_length` is `sizeof(ConnectFrame_t) + strlen(NAME)`, and the server's handshake
      accepts it under the bot's name. */
  lemma {:induction false} HelloAccepted()
    ensures DataLength(Hello) == 6 && Payload(Hello) == [5] + Name
    ensures Lobby.CheckConnect(Lobby.Arrives(Encode(Hello))) == Lobby.Joined(Name)
  {
    Lobby.ConnectAccepted(Name);
  }

  // ---------------------------------------------------------------------------------------
  // What handling a frame leads to.

  /** The bot goes on reading frames after sending `sent`, exits with a status, or stops
      abnormally: a failed `assert`, a division by zero, or a read past the payload, whose
      behaviour the source leaves undefined. */
  datatype Reaction = Stay(sent: seq<Frame>) | Exit(code: int) | Fault

  /** `Knowledge_t`. `counts` holds the values the copy loop reads, none when `num_categories` is
      negative; `hasNames` says whether `card_names` was set. */
  datatype Knowledge = Knowledge(playerId: int, numCards: int, numCategories: int, counts: seq<int>,
                                 names: seq<seq<byte>>, hasNames: bool, hand: seq<int>, turnsPlayed: int)

  /** The zero-initialised global the bot starts from. */
  const Blank: Knowledge := Knowledge(0, 0, 0, [], [], false, [], 0)

  /** A reaction and the knowledge after it. */
  datatype Step = Step(reaction: Reaction, after: Knowledge)

  function Clamp(x: int): nat
  {
    if x < 0 then 0 else x
  }

  /** What the knowledge record always satisfies: one count per category, one name per card, and
      a non-empty hand only once the card names are known (the `assert` of the Start branch). */
  predicate Consistent(k: Knowledge)
  {
    |k.counts| == Clamp(k.numCategories) && |k.names| == Clamp(k.numCards) && (k.hand != [] ==> k.hasNames)
  }

  /** The Rules branch: the player id, the numbers of cards and categories, the counts and the
      names. */
  function RulesHandled(k: Knowledge, p: seq<byte>): Step
  {
    match DecodeRules(p)
    case None => Step(Fault, k)
    case Some(i) =>
      Step(Stay([]), k.(playerId := i.playerId, numCards := i.numCards, numCategories := i.numCategories,
                        counts := i.counts, names := i.names, hasNames := true))
  }

  /** The Start branch: the hand. Copying a card before the names are known fails the
      `assert`. */
  function StartHandled(k: Knowledge, p: seq<byte>): Step
  {
    match DecodeStart(p)
    case None => Step(Fault, k)
    case Some(hand) => if hand != [] && !k.hasNames then Step(Fault, k) else Step(Stay([]), k.(hand := hand))
  }

  /** C's `%` on a non-negative dividend: the remainder by the divisor's magnitude. */
  function Rem(a: nat, b: int): (r: nat)
    requires b != 0
    ensures r < b || r < -b
  {
    a % (if b < 0 then -b else b)
  }

  predicate NoEmptyCategory(counts: seq<int>)
  {
    forall i :: 0 <= i < |counts| ==> counts[i] != 0
  }

  /** The cards the bot names on its turn: `rand() % num_cards_in_category[i] + base_idx` for
      category i, where `base_idx` is the number of cards of the categories before it. */
  function Picks(counts: seq<int>, draws: seq<nat>): (cards: seq<int>)
    requires NoEmptyCategory(counts) && |draws| >= |counts|
    ensures |cards| == |counts|
  {
    seq(|counts|, i requires 0 <= i < |counts| => Rem(draws[i], counts[i]) + Base(counts, i))
  }

  /** The Turn branch: only a Turn frame naming the bot is its turn, and it counts the turn. The
      sixth and every later turn is a solve attempt; the ones before are suggestions. */
  function TurnHandled(k: Knowledge, p: seq<byte>, draws: seq<nat>): Step
    requires |draws| >= |k.counts|
  {
    if |p| < SizeofTurnFrame then Step(Fault, k)
    else if AsInt8(p[0]) != k.playerId then Step(Stay([]), k)
    else
      var k' := k.(turnsPlayed := k.turnsPlayed + 1);
      if !NoEmptyCategory(k.counts) then Step(Fault, k')
      else
        var cards := Picks(k.counts, draws);
        var f := if k'.turnsPlayed > 5 then SolveAttemptFrame(cards) else TurnResponseFrame(cards);
        Step(Stay([f]), k')
  }

  /** The cards of `hand` that are among `suggestion`, in hand order (`cards_held`). */
  function Held(hand: seq<int>, suggestion: seq<int>): seq<int>
  {
    if hand == [] then []
    else
      var last := hand[|hand| - 1];
      Held(hand[..|hand| - 1], suggestion) + if last in suggestion then [last] else []
  }

  /** The Query branch: a query naming the bot is answered with a random held card, or not at all
      when it holds none (the server then passes on its behalf). */
  function QueryHandled(k: Knowledge, p: seq<byte>, draw: nat): Step
  {
    if |p| < 1 then Step(Fault, k)
    else if AsInt8(p[0]) != k.playerId then Step(Stay([]), k)
    else if |p| < SizeofQueryFrame + 2 * |k.counts| || k.counts == [] then Step(Fault, k)
    else
      var held := Held(k.hand, AsInt16s(p[SizeofQueryFrame..], |k.counts|));
      if held == [] then Step(Stay([]), k)
      else Step(Stay([QueryResponseFrame(held[draw % |held|])]), k)
  }

  /** The branches of `handle_frame` on a payload that arrived: an error frame exits with 1, an
      abort with 0, and the frames the bot does not react to (query returns, solve results, unknown
      types) change nothing. `draws` are the values of `rand()`. */
  function FrameHandled(k: Knowledge, tag: int, p: seq<byte>, draws: seq<nat>): Step
    requires |draws| >= |k.counts| && |draws| >= 1
  {
    if tag == TypeError then Step(Exit(1), k)
    else if tag == TypeAbort then Step(Exit(0), k)
    else if tag == TypeRules then RulesHandled(k, p)
    else if tag == TypeStart then StartHandled(k, p)
    else if tag == TypeTurn then TurnHandled(k, p, draws)
    else if tag == TypeQuery then QueryHandled(k, p, draws[0])
    else Step(Stay([]), k)
  }

  // ---------------------------------------------------------------------------------------
  // Receiving the payload.

  /** The payload receive's result: the bytes to work on, or the exit status. */
  datatype Received = Arrived(bytes: seq<byte>) | Quit(code: int)

  function Zeros(n: nat): (z: seq<byte>)
    ensures |z| == n && forall i :: 0 <= i < n ==> z[i] == 0
  {
    seq(n, i => 0)
  }

  /** The receive of `length` payload bytes: a failed receive exits with 1 after `perror`, one that
      brought too few bytes exits with 0. A receive never brings more than it asks for. */
  function Receive(length: nat, r: Recv): Received
    requires r.Got? ==> |r.data| <= length
  {
    match r
    case Got(data) => if |data| < length then Quit(0) else Arrived(data)
    case _ => Quit(1)
  }

  /** The receive as written: the count is kept in a `size_t`, so the -1 of a failed receive is
      SIZE_MAX, is not less than `length`, and the bot goes on with the zero-filled buffer `calloc`
      gave it. */
  function ReceiveAsWritten(length: nat, r: Recv): Received
    requires r.Got? ==> |r.data| <= length
  {
    if ShortAsWritten(r, length) then (if RecvSize(r) == -1 then Quit(1) else Quit(0))
    else if r.Got? then Arrived(r.data)
    else Arrived(Zeros(length))
  }

  /** The two agree on bytes that arrived; a failed receive reaches the frame handling as written,
      and exits once the check is signed. */
  lemma {:induction false} ReceiveMissesFailure(length: nat, r: Recv)
    requires IsInt32(length) && (r.Got? ==> |r.data| <= length)
    ensures r.Got? ==> ReceiveAsWritten(length, r) == Receive(length, r)
    ensures !r.Got? ==> ReceiveAsWritten(length, r) == Arrived(Zeros(length)) && Receive(length, r) == Quit(1)
  {
    ShortAsWrittenMissesFailure(r, length);
  }

  /** A received payload or exit, then the frame handling. */
  function Proceed(k: Knowledge, tag: int, got: Received, draws: seq<nat>): Step
    requires |draws| >= |k.counts| && |draws| >= 1
  {
    match got
    case Quit(code) => Step(Exit(code), k)
    case Arrived(p) => FrameHandled(k, tag, p, draws)
  }

  /** `handle_frame` on a header already received. A negative `data_length` makes `calloc` fail,
      and the receive and the reads that follow go through a null buffer. */
  function Handle(k: Knowledge, header: HeaderFields, body: Recv, draws: seq<nat>): Step
    requires |draws| >= |k.counts| && |draws| >= 1
    requires header.length >= 0 && body.Got? ==> |body.data| <= header.length
  {
    if header.length < 0 then Step(Fault, k) else Proceed(k, header.tag, Receive(header.length, body), draws)
  }

  function HandleAsWritten(k: Knowledge, header: HeaderFields, body: Recv, draws: seq<nat>): Step
    requires |draws| >= |k.counts| && |draws| >= 1
    requires header.length >= 0 && body.Got? ==> |body.data| <= header.length
  {
    if header.length < 0 then Step(Fault, k) else Proceed(k, header.tag, ReceiveAsWritten(header.length, body), draws)
  }

  /** As written, a bot with id 0 whose receive of a Turn frame's payload fails takes a turn it
      was not given: the zero-filled buffer names player 0. With the signed check it exits. */
  lemma {:induction false} PhantomTurn(k: Knowledge, body: Recv, draws: seq<nat>)
    requires !body.Got? && k.playerId == 0 && NoEmptyCategory(k.counts) && |draws| >= |k.counts| && |draws| >= 1
    ensures var st := HandleAsWritten(k, HeaderFields(TypeTurn, 1), body, draws);
      st.reaction.Stay? && |st.reaction.sent| == 1 && st.after.turnsPlayed == k.turnsPlayed + 1
    ensures Handle(k, HeaderFields(TypeTurn, 1), body, draws) == Step(Exit(1), k)
  {
    ReceiveMissesFailure(1, body);
    assert AsInt8(Zeros(1)[0]) == 0;
  }

  // ---------------------------------------------------------------------------------------
  // Properties of the steps.

  lemma {:induction false} ReadNamesLength(p: seq<byte>, o: nat, n: nat)
    ensures ReadNamesAt(p, o, n).Some? ==> |ReadNamesAt(p, o, n).value| == n
    decreases n
  {
    if n > 0 && o < |p| {
      var len := AsInt8(p[o]);
      if len >= 0 && o + 1 + len <= |p| {
        ReadNamesLength(p, o + 1 + len, n - 1);
      }
    }
  }

  /** Handling a frame keeps the knowledge record consistent. */
  lemma {:induction false} StepConsistent(k: Knowledge, tag: int, p: seq<byte>, draws: seq<nat>)
    requires Consistent(k) && |draws| >= |k.counts| && |draws| >= 1
    ensures Consistent(FrameHandled(k, tag, p, draws).after)
  {
    if tag == TypeRules && DecodeRules(p).Some? {
      var c, n := AsInt8(p[1]), AsInt16(p[2..4]);
      if n > 0 {
        ReadNamesLength(p, SizeofRulesFrame + 2 * c + 2 * n, n);
      }
    }
  }

  /** Only a Turn frame naming the bot counts a turn, only a Rules frame changes what the bot
      knows of the game, and only a Start frame changes its hand. */
  lemma {:induction false} StepFrame(k: Knowledge, tag: int, p: seq<byte>, draws: seq<nat>)
    requires |draws| >= |k.counts| && |draws| >= 1
    ensures var st := FrameHandled(k, tag, p, draws);
      st.after.turnsPlayed == k.turnsPlayed + (if tag == TypeTurn && |p| >= 1 && AsInt8(p[0]) == k.playerId then 1 else 0)
      && (tag != TypeRules ==> st.after.playerId == k.playerId && st.after.counts == k.counts
                               && st.after.names == k.names && st.after.hasNames == k.hasNames)
      && (tag != TypeStart ==> st.after.hand == k.hand)
  {
  }

  /** On a Turn frame naming it, the bot suggests on its first five turns and attempts a solve
      from the sixth on, naming the picked cards in a payload of exactly 2C bytes, the length the
      server demands. */
  lemma {:induction false} TurnChoice(k: Knowledge, draws: seq<nat>)
    requires IsInt8(k.playerId) && NoEmptyCategory(k.counts) && |draws| >= |k.counts|
    ensures var st := TurnHandled(k, Payload(TurnFrame(k.playerId)), draws);
      var cards := Picks(k.counts, draws);
      st.after == k.(turnsPlayed := k.turnsPlayed + 1)
      && (k.turnsPlayed < 5 ==> st.reaction == Stay([TurnResponseFrame(cards)]))
      && (k.turnsPlayed >= 5 ==> st.reaction == Stay([SolveAttemptFrame(cards)]))
      && DataLength(st.reaction.sent[0]) == 2 * |k.counts|
  {
    Int8RoundTrip(k.playerId);
  }

  /** With no empty category the bot names one card per category, each inside its category, as
      the server's check demands; the cards ascend, so sorting leaves them as they are. */
  lemma {:induction false} PicksLegal(counts: seq<int>, draws: seq<nat>)
    requires Positive(counts) && |draws| >= |counts|
    ensures var s := Picks(counts, draws);
      OnePerCategory(counts, s) && StrictlySorted(s) && Sort(s) == s && Legal(counts, s)
    ensures Total(counts) <= 0x7FFF ==> AllInt16(Picks(counts, draws))
  {
    var s := Picks(counts, draws);
    PicksInCategories(counts, draws);
    OnePerCategorySorted(counts, s);
    SortOfSorted(s);
    if Total(counts) <= 0x7FFF {
      PicksInt16(counts, draws);
    }
  }

  lemma {:induction false} PicksInCategories(counts: seq<int>, draws: seq<nat>)
    requires Positive(counts) && |draws| >= |counts|
    ensures OnePerCategory(counts, Picks(counts, draws))
  {
    var s := Picks(counts, draws);
    forall i | 0 <= i < |s|
      ensures InCategory(counts, i, s[i])
    {
      assert 0 <= Rem(draws[i], counts[i]) < counts[i];
    }
  }

  lemma {:induction false} PicksInt16(counts: seq<int>, draws: seq<nat>)
    requires Positive(counts) && |draws| >= |counts| && Total(counts) <= 0x7FFF
    ensures AllInt16(Picks(counts, draws))
  {
    var s := Picks(counts, draws);
    PicksInCategories(counts, draws);
    forall i | 0 <= i < |s|
      ensures IsInt16(s[i])
    {
      BaseMonotone(counts, i + 1, |counts|);
    }
  }

  /** The bot's suggestion, received whole (`HonestCarries` gives this for the frame as the bot
      sends it), goes round the table as it is. */
  lemma {:induction false} SuggestionAccepted(counts: seq<int>, solution: seq<int>, ids: seq<int>, hands: seq<seq<int>>, t: nat,
                           draws: seq<nat>, reply: Reply, shows: seq<Reply>)
    requires |ids| == |hands| == |shows| > 0 && |solution| == |counts| && t < |ids|
    requires Positive(counts) && Total(counts) <= 0x7FFF && |draws| >= |counts|
    requires Carries(reply, TypeTurnResponse, LE16s(Picks(counts, draws)))
    ensures TurnOutcome(counts, solution, ids, hands, t, reply, shows) == QueryOutcome(ids, hands, t, Picks(counts, draws), shows)
  {
    var s := Picks(counts, draws);
    PicksLegal(counts, draws);
    Suggestion(counts, solution, ids, hands, t, reply, s, shows);
  }

  /** The bot's solve attempt, received whole, wins exactly when it names the solution, and
      eliminates the bot otherwise. */
  lemma {:induction false} SolveJudged(counts: seq<int>, solution: seq<int>, ids: seq<int>, hands: seq<seq<int>>, t: nat,
                    draws: seq<nat>, reply: Reply, shows: seq<Reply>)
    requires |ids| == |hands| == |shows| > 0 && t < |ids|
    requires Positive(counts) && Total(counts) <= 0x7FFF && |draws| >= |counts| && OnePerCategory(counts, solution)
    requires Carries(reply, TypeSolveAttempt, LE16s(Picks(counts, draws)))
    ensures var s := Picks(counts, draws);
      var result := Broadcast(|ids|, SolveResultFrame(ids[t], s == solution, s));
      TurnOutcome(counts, solution, ids, hands, t, reply, shows)
      == if s == solution then Outcome(result + AbortAll(|ids|, GameEnded), Win) else Outcome(result, Eliminated)
  {
    PicksLegal(counts, draws);
    GuessJudged(counts, solution, ids, hands, t, Picks(counts, draws), reply, shows);
  }

  /** A guess of one card per category in category order wins exactly when it is the solution. */
  lemma {:induction false} GuessJudged(counts: seq<int>, solution: seq<int>, ids: seq<int>, hands: seq<seq<int>>, t: nat,
                    s: seq<int>, reply: Reply, shows: seq<Reply>)
    requires |ids| == |hands| == |shows| > 0 && t < |ids|
    requires Positive(counts) && OnePerCategory(counts, solution) && OnePerCategory(counts, s) && AllInt16(s)
    requires Carries(reply, TypeSolveAttempt, LE16s(s))
    ensures var result := Broadcast(|ids|, SolveResultFrame(ids[t], s == solution, s));
      TurnOutcome(counts, solution, ids, hands, t, reply, shows)
      == if s == solution then Outcome(result + AbortAll(|ids|, GameEnded), Win) else Outcome(result, Eliminated)
  {
    SameCards(counts, solution, s);
    SolveAttempt(counts, solution, ids, hands, t, reply, s, shows);
  }

  /** Two choices of one card per category hold the same cards exactly when they are equal. */
  lemma {:induction false} SameCards(counts: seq<int>, a: seq<int>, b: seq<int>)
    requires NonNegative(counts) && OnePerCategory(counts, a) && OnePerCategory(counts, b)
    ensures (multiset(a) == multiset(b)) == (a == b)
  {
    OnePerCategorySorted(counts, a);
    OnePerCategorySorted(counts, b);
    if multiset(a) == multiset(b) {
      SortedUnique(a, b);
    }
  }

  /** The held cards are exactly the cards both in the hand and in the suggestion; there are none
      exactly when the hand holds no suggested card. */
  lemma {:induction false} HeldSound(hand: seq<int>, suggestion: seq<int>)
    ensures forall c :: c in Held(hand, suggestion) <==> c in hand && c in suggestion
    ensures Held(hand, suggestion) == [] <==> !Holds(hand, suggestion)
  {
    if hand != [] {
      var pre := hand[..|hand| - 1];
      HeldSound(pre, suggestion);
      assert hand == pre + [hand[|hand| - 1]];
    }
    var held := Held(hand, suggestion);
    if held != [] {
      assert held[0] in held;
      var j :| 0 <= j < |suggestion| && suggestion[j] == held[0];
    }
  }

  /** The bot reads back the player id and the suggestion of the server's Query frame. */
  lemma {:induction false} QueryRead(id: int, s: seq<int>)
    requires IsInt8(id) && AllInt16(s)
    ensures var p := Payload(QueryFrame(id, s));
      |p| == SizeofQueryFrame + 2 * |s| && AsInt8(p[0]) == id && AsInt16s(p[SizeofQueryFrame..], |s|) == s
  {
    var p := Payload(QueryFrame(id, s));
    assert p[SizeofQueryFrame..] == LE16s(s);
    Int8RoundTrip(id);
    CardsRead(s);
  }

  /** Queried by the server, the bot shows a card it holds among those suggested when it holds
      one, and sends nothing otherwise; its knowledge does not change. */
  lemma {:induction false} Answer(k: Knowledge, s: seq<int>, draw: nat)
    requires |s| == |k.counts| > 0 && AllInt16(s) && IsInt8(k.playerId)
    ensures var st := QueryHandled(k, Payload(QueryFrame(k.playerId, s)), draw);
      st.after == k
      && (!Holds(k.hand, s) ==> st.reaction == Stay([]))
      && (Holds(k.hand, s) ==>
            exists c :: c in k.hand && c in s && st.reaction == Stay([QueryResponseFrame(c)]))
  {
    QueryRead(k.playerId, s);
    HeldSound(k.hand, s);
    var held := Held(k.hand, s);
    if held != [] {
      var c := held[draw % |held|];
      assert c in held;
    }
  }

  /** The bot answers the query with card c, and the server accepts it: the game goes on and only
      the suggester learns which card was shown. */
  predicate ShownByBot(k: Knowledge, ids: seq<int>, hands: seq<seq<int>>, t: nat, q: nat, s: seq<int>, draw: nat, c: int)
    requires |ids| == |hands| && q < |ids|
  {
    QueryHandled(k, Payload(QueryFrame(ids[q], s)), draw) == Step(Stay([QueryResponseFrame(c)]), k)
    && var o := ShowOutcome(ids, hands, t, q, Honest(QueryResponseFrame(c)));
    o.status == Continue && Message(t, AnnouncementFrame(ids[q], c)) in o.sent
    && forall m :: m in o.sent && m.to != t ==> m.frame == AnnouncementFrame(ids[q], HiddenCard)
  }

  /** The bot that sits at seat q, queried there, answers with a card the server accepts: the game
      goes on and only the suggester learns which card was shown. */
  lemma {:induction false} ShowAcceptedFromBot(k: Knowledge, ids: seq<int>, hands: seq<seq<int>>, t: nat, q: nat, s: seq<int>, draw: nat)
    requires |ids| == |hands| && t < |ids| && q < |ids| && t != q
    requires ids[q] == k.playerId && IsInt8(k.playerId) && k.hand == hands[q]
    requires |s| == |k.counts| > 0 && AllInt16(s) && Holds(hands[q], s)
    ensures exists c :: ShownByBot(k, ids, hands, t, q, s, draw, c)
  {
    Answer(k, s, draw);
    var c :| c in k.hand && c in s && QueryHandled(k, Payload(QueryFrame(k.playerId, s)), draw).reaction
      == Stay([QueryResponseFrame(c)]);
    ShowAccepted(ids, hands, t, q, c);
    assert ShownByBot(k, ids, hands, t, q, s, draw, c);
  }

  /** The Rules payload the lobby sends the player it numbered `id` teaches the bot its id, the
      counts and the card names. */
  lemma {:induction false} LearnsRules(k: Knowledge, id: int, cats: seq<seq<seq<byte>>>)
    requires 0 <= id < 128 && |cats| < 128 && |Flatten(cats)| <= 0x7FFF && NamesFit(Flatten(cats))
    ensures RulesHandled(k, Lobby.WithPlayerId(RulesPayload(0, cats), id))
      == Step(Stay([]), k.(playerId := id, numCards := |Flatten(cats)|, numCategories := |cats|,
                           counts := Counts(cats), names := Flatten(cats), hasNames := true))
  {
    Lobby.WithPlayerIdPayload(cats, id);
    RulesRoundTrip(id, cats);
  }

  /** Once the names are known, the Start payload teaches the bot the hand it was dealt. */
  lemma {:induction false} LearnsHand(k: Knowledge, hand: seq<int>, ids: seq<int>, sizes: seq<int>, names: seq<seq<byte>>)
    requires k.hasNames && AllInt16(hand) && |hand| < 0x8000 && |sizes| == |names| == |ids|
    ensures StartHandled(k, StartPayload(hand, ids, sizes, names)) == Step(Stay([]), k.(hand := hand))
  {
    StartRoundTrip(hand, ids, sizes, names);
  }

  // ---------------------------------------------------------------------------------------
  // The loops of `handle_frame`.

  lemma {:induction false} AsInt16sSnoc(s: seq<byte>, i: nat)
    requires |s| >= 2 * i + 2
    ensures AsInt16s(s, i + 1) == AsInt16s(s, i) + [AsInt16(s[2 * i..2 * i + 2])]
  {
    if i == 0 {
      assert s[0..2] == s[..2];
    } else {
      var t := s[2..];
      AsInt16sSnoc(t, i - 1);
      assert t[2 * (i - 1)..2 * (i - 1) + 2] == s[2 * i..2 * i + 2];
      var h, a, x := [AsInt16(s[..2])], AsInt16s(t, i - 1), [AsInt16(s[2 * i..2 * i + 2])];
      calc {
        AsInt16s(s, i + 1);
        h + AsInt16s(t, i);
        h + (a + x);
        (h + a) + x;
        AsInt16s(s, i) + x;
      }
    }
  }

  lemma {:induction false} AsInt16sAt(s: seq<byte>, k: nat, j: nat)
    requires j < k && |s| >= 2 * k
    ensures AsInt16s(s, k)[j] == AsInt16(s[2 * j..2 * j + 2])
  {
    if j == 0 {
      assert s[0..2] == s[..2];
    } else {
      AsInt16sAt(s[2..], k - 1, j - 1);
      assert s[2..][2 * (j - 1)..2 * (j - 1) + 2] == s[2 * j..2 * j + 2];
    }
  }

  /** A copy loop over `k` packed `int16_t` values: the counts of the Rules frame, the hand of the
      Start frame. */
  method ReadInt16s(s: seq<byte>, k: nat) returns (xs: seq<int>)
    requires |s| >= 2 * k
    ensures xs == AsInt16s(s, k)
  {
    xs := [];
    for i := 0 to k
      invariant xs == AsInt16s(s, i)
    {
      AsInt16sSnoc(s, i);
      xs := xs + [AsInt16(s[2 * i..2 * i + 2])];
    }
  }

  /** Names read so far in front of the rest of the read. */
  function Prepend(ns: seq<seq<byte>>, rest: Option<seq<seq<byte>>>): Option<seq<seq<byte>>>
  {
    if rest.Some? then Some(ns + rest.value) else None
  }

  /** One name read at the cursor moves it into the names read so far. */
  lemma {:induction false} ReadOneName(p: seq<byte>, cur: nat, k: nat, ns: seq<seq<byte>>)
    requires k > 0 && cur < |p| && 0 <= AsInt8(p[cur]) && cur + 1 + AsInt8(p[cur]) <= |p|
    ensures var len := AsInt8(p[cur]);
      Prepend(ns, ReadNamesAt(p, cur, k))
      == Prepend(ns + [p[cur + 1..cur + 1 + len]], ReadNamesAt(p, cur + 1 + len, k - 1))
  {
    var len := AsInt8(p[cur]);
    var name := p[cur + 1..cur + 1 + len];
    var rest := ReadNamesAt(p, cur + 1 + len, k - 1);
    assert ReadNamesAt(p, cur, k) == Prepend([name], rest);
    if rest.Some? {
      assert ns + ([name] + rest.value) == ns + [name] + rest.value;
    }
  }

  /** The names loop, with `card_name_data` as a cursor into the payload. */
  method ReadNames(p: seq<byte>, o: nat, n: nat) returns (names: Option<seq<seq<byte>>>)
    ensures names == ReadNamesAt(p, o, n)
  {
    var cur: nat := o;
    var ns: seq<seq<byte>> := [];
    assert ReadNamesAt(p, o, n) == Prepend(ns, ReadNamesAt(p, cur, n)) by {
      var r := ReadNamesAt(p, o, n);
      if r.Some? {
        assert [] + r.value == r.value;
      }
    }
    var i := 0;
    while i < n
      invariant i <= n
      invariant ReadNamesAt(p, o, n) == Prepend(ns, ReadNamesAt(p, cur, n - i))
    {
      if cur >= |p| {
        return None;
      }
      var len := AsInt8(p[cur]);
      if len < 0 || cur + 1 + len > |p| {
        return None;
      }
      var name := p[cur + 1..cur + 1 + len];
      ReadOneName(p, cur, n - i, ns);
      ns := ns + [name];
      cur := cur + 1 + len;
      i := i + 1;
    }
    assert ns + [] == ns;
    names := Some(ns);
  }

  /** The first i cards of a turn are chosen, and no category before them is empty. */
  predicate Picked(counts: seq<int>, draws: seq<nat>, cs: seq<int>, i: nat)
    requires i <= |counts| <= |draws|
  {
    |cs| == i && forall j {:trigger cs[j]} :: 0 <= j < i ==> counts[j] != 0 && cs[j] == Rem(draws[j], counts[j]) + Base(counts, j)
  }

  lemma {:induction false} PickedNext(counts: seq<int>, draws: seq<nat>, cs: seq<int>, i: nat, base: int)
    requires i < |counts| <= |draws| && Picked(counts, draws, cs, i) && counts[i] != 0
    requires base == Base(counts, i)
    ensures Picked(counts, draws, cs + [Rem(draws[i], counts[i]) + base], i + 1)
    ensures base + counts[i] == Base(counts, i + 1)
  {
    var cs' := cs + [Rem(draws[i], counts[i]) + Base(counts, i)];
    forall j | 0 <= j < i + 1
      ensures counts[j] != 0 && cs'[j] == Rem(draws[j], counts[j]) + Base(counts, j)
    {
      if j < i {
        assert cs'[j] == cs[j];
      }
    }
  }

  lemma {:induction false} EmptyCategoryAt(counts: seq<int>, i: nat)
    requires i < |counts| && counts[i] == 0
    ensures !NoEmptyCategory(counts)
  {
  }

  lemma {:induction false} PickedAll(counts: seq<int>, draws: seq<nat>, cs: seq<int>)
    requires |counts| <= |draws| && Picked(counts, draws, cs, |counts|)
    ensures NoEmptyCategory(counts) && cs == Picks(counts, draws)
  {
    forall j | 0 <= j < |counts|
      ensures counts[j] != 0
    {
      var c := cs[j];
    }
    var ps := Picks(counts, draws);
    forall j | 0 <= j < |cs|
      ensures cs[j] == ps[j]
    {
    }
  }

  /** The loop choosing the cards of a turn; a category with no cards divides by zero. */
  method Pick(counts: seq<int>, draws: seq<nat>) returns (cards: Option<seq<int>>)
    requires |draws| >= |counts|
    ensures cards.Some? <==> NoEmptyCategory(counts)
    ensures cards.Some? ==> cards.value == Picks(counts, draws)
  {
    var base := 0;
    var cs: seq<int> := [];
    var i := 0;
    while i < |counts|
      invariant i <= |counts| && base == Base(counts, i)
      invariant Picked(counts, draws, cs, i)
    {
      if counts[i] == 0 {
        EmptyCategoryAt(counts, i);
        return None;
      }
      var card := Rem(draws[i], counts[i]) + base;
      PickedNext(counts, draws, cs, i, base);
      cs := cs + [card];
      base := base + counts[i];
      i := i + 1;
    }
    PickedAll(counts, draws, cs);
    cards := Some(cs);
  }

  /** The nested loops building `cards_held`: each card of the hand that equals one of the `c`
      suggested cards, read in place from the payload, is taken once, in hand order. */
  method CollectHeld(hand: seq<int>, s: seq<byte>, c: nat) returns (held: seq<int>)
    requires |s| >= 2 * c
    ensures held == Held(hand, AsInt16s(s, c))
  {
    ghost var suggestion := AsInt16s(s, c);
    held := [];
    for i := 0 to |hand|
      invariant held == Held(hand[..i], suggestion)
    {
      var j := 0;
      while j < c
        invariant 0 <= j <= c
        invariant forall m :: 0 <= m < j ==> suggestion[m] != hand[i]
      {
        AsInt16sAt(s, c, j);
        if hand[i] == AsInt16(s[2 * j..2 * j + 2]) {
          break;
        }
        j := j + 1;
      }
      assert hand[..i + 1][..i] == hand[..i];
      if j < c {
        held := held + [hand[i]];
      }
    }
    assert hand[..|hand|] == hand;
  }

  // ---------------------------------------------------------------------------------------
  // The bot's state.

  /** The global `knowledge`, updated in place by `handle_frame`. */
  class Bot {
    var playerId: int
    var numCards: int
    var numCategories: int
    var counts: seq<int>
    var names: seq<seq<byte>>
    var hasNames: bool
    var hand: seq<int>
    var turnsPlayed: int

    function Memory(): Knowledge
      reads this
    {
      Knowledge(playerId, numCards, numCategories, counts, names, hasNames, hand, turnsPlayed)
    }

    predicate Valid()
      reads this
    {
      Consistent(Memory())
    }

    constructor ()
      ensures Memory() == Blank && Valid()
    {
      playerId, numCards, numCategories, counts, names, hasNames, hand, turnsPlayed := 0, 0, 0, [], [], false, [], 0;
    }

    method OnRules(p: seq<byte>) returns (r: Reaction)
      modifies this
      ensures Step(r, Memory()) == RulesHandled(old(Memory()), p)
    {
      if |p| < SizeofRulesFrame {
        return Fault;
      }
      var id, c, n := AsInt8(p[0]), AsInt8(p[1]), AsInt16(p[2..4]);
      var cs := Clamp(c);
      if |p| < SizeofRulesFrame + 2 * cs {
        return Fault;
      }
      var cnts := ReadInt16s(p[4..], cs);
      var o := SizeofRulesFrame + 2 * c + 2 * n;
      var read: Option<seq<seq<byte>>> := Some([]);
      if n > 0 {
        if o < 0 {
          return Fault;
        }
        read := ReadNames(p, o, n);
      }
      if read.None? {
        return Fault;
      }
      playerId, numCards, numCategories, counts, names, hasNames := id, n, c, cnts, read.value, true;
      r := Stay([]);
    }

    method OnStart(p: seq<byte>) returns (r: Reaction)
      modifies this`hand
      ensures Step(r, Memory()) == StartHandled(old(Memory()), p)
    {
      if |p| < 2 {
        return Fault;
      }
      var h := AsInt16(p[..2]);
      var mine: seq<int> := [];
      if h > 0 {
        if |p| < SizeofStartFrame + 2 * h {
          return Fault;
        }
        mine := ReadInt16s(p[SizeofStartFrame..], h);
        if !hasNames {
          return Fault;
        }
      }
      hand := mine;
      r := Stay([]);
    }

    method OnTurn(p: seq<byte>, draws: seq<nat>) returns (r: Reaction)
      requires |draws| >= |counts|
      modifies this`turnsPlayed
      ensures Step(r, Memory()) == TurnHandled(old(Memory()), p, draws)
    {
      if |p| < SizeofTurnFrame {
        return Fault;
      }
      if AsInt8(p[0]) != playerId {
        return Stay([]);
      }
      turnsPlayed := turnsPlayed + 1;
      var cards := Pick(counts, draws);
      if cards.None? {
        return Fault;
      }
      if turnsPlayed > 5 {
        r := Stay([SolveAttemptFrame(cards.value)]);
      } else {
        r := Stay([TurnResponseFrame(cards.value)]);
      }
    }

    method OnQuery(p: seq<byte>, draw: nat) returns (r: Reaction)
      ensures Step(r, Memory()) == QueryHandled(Memory(), p, draw)
    {
      if |p| < 1 {
        return Fault;
      }
      if AsInt8(p[0]) != playerId {
        return Stay([]);
      }
      if |p| < SizeofQueryFrame + 2 * |counts| || |counts| == 0 {
        return Fault;
      }
      var held := CollectHeld(hand, p[SizeofQueryFrame..], |counts|);
      if |held| == 0 {
        r := Stay([]);
      } else {
        r := Stay([QueryResponseFrame(held[draw % |held|])]);
      }
    }

    /** `handle_frame`, with the payload receive's failure caught. */
    method HandleFrame(header: HeaderFields, body: Recv, draws: seq<nat>) returns (r: Reaction)
      requires Valid() && |draws| >= |counts| && |draws| >= 1
      requires header.length >= 0 && body.Got? ==> |body.data| <= header.length
      modifies this
      ensures Valid()
      ensures Step(r, Memory()) == Handle(old(Memory()), header, body, draws)
    {
      if header.length < 0 {
        return Fault;
      }
      if !body.Got? {
        return Exit(1);
      }
      if |body.data| < header.length {
        return Exit(0);
      }
      var p, tag := body.data, header.tag;
      ghost var k := Memory();
      StepConsistent(k, tag, p, draws);
      if tag == TypeError {
        r := Exit(1);
      } else if tag == TypeAbort {
        r := Exit(0);
      } else if tag == TypeRules {
        r := OnRules(p);
      } else if tag == TypeStart {
        r := OnStart(p);
      } else if tag == TypeTurn {
        r := OnTurn(p, draws);
      } else if tag == TypeQuery {
        r := OnQuery(p, draws[0]);
      } else {
        r := Stay([]);
      }
    }
  }
}
