/** The turn engine (`run_game`): whose turn it is, the adjudication of solve attempts, the
    validation of suggestions, the query rotation with its announcements and cheat check, and the
    binary search `player_has_card`. Each client reply is an abstract pair of receives. */
module Engine {
  import opened Wire
  import opened Frames
  import opened Sorting
  import opened Catalog
  import opened Lobby
  import opened Dealer

  // ---------------------------------------------------------------------------------------
  // `player_has_card`.

  /** The binary search over a sorted hand: `low_idx`/`high_idx` close in on the card. */
  method HasCard(hand: seq<int>, card: int) returns (b: bool)
    requires Sorted(hand)
    ensures b <==> card in hand
  {
    var low, high := 0, |hand| - 1;
    while low <= high
      invariant 0 <= low <= high + 1 <= |hand|
      invariant forall k :: 0 <= k < low ==> hand[k] < card
      invariant forall k :: high < k < |hand| ==> card < hand[k]
      decreases high - low
    {
      var mid := (high + low) / 2;
      if card < hand[mid] {
        high := mid - 1;
      } else if card > hand[mid] {
        low := mid + 1;
      } else {
        return true;
      }
    }
    return false;
  }

  // ---------------------------------------------------------------------------------------
  // Solve attempts.

  /** The server's notion of a correct attempt: every solution card occurs somewhere in the guess
      (membership, not position). */
  predicate Correct(solution: seq<int>, guess: seq<int>)
  {
    forall i :: 0 <= i < |solution| ==> solution[i] in guess
  }

  /** The adjudication loop: for each solution card, a linear search of the guess. */
  method Adjudicate(solution: seq<int>, guess: seq<int>) returns (correct: bool)
    requires |guess| == |solution|
    ensures correct <==> Correct(solution, guess)
  {
    var wrong := false;
    for i := 0 to |solution|
      invariant !wrong <==> forall k :: 0 <= k < i ==> solution[k] in guess
    {
      var found := 0;
      var j := 0;
      while j < |guess|
        invariant 0 <= j <= |guess| && found == 0
        invariant forall k :: 0 <= k < j ==> guess[k] != solution[i]
      {
        if solution[i] == guess[j] {
          found := found + 1;
          break;
        }
        j := j + 1;
      }
      assert found == 0 <==> solution[i] !in guess;
      if found == 0 {
        wrong := true;
      }
    }
    correct := !wrong;
  }

  /** A multiset inside another of the same size is that multiset. */
  lemma {:induction false} SameSizeSubset(a: multiset<int>, b: multiset<int>)
    requires a <= b && |a| == |b|
    ensures a == b
  {
    var d := b - a;
    assert b == a + d;
    assert |d| == 0;
  }

  /** With distinct solution cards and a guess of one card per category, a correct attempt is
      exactly a rearrangement of the solution. */
  lemma {:induction false} CorrectIffRearrangement(solution: seq<int>, guess: seq<int>)
    requires StrictlySorted(solution) && |guess| == |solution|
    ensures Correct(solution, guess) <==> multiset(guess) == multiset(solution)
  {
    if Correct(solution, guess) {
      forall c | c in multiset(solution)
        ensures multiset(solution)[c] <= multiset(guess)[c]
      {
        DistinctCount(solution, c);
      }
      SameSizeSubset(multiset(solution), multiset(guess));
    }
    if multiset(guess) == multiset(solution) {
      forall i | 0 <= i < |solution|
        ensures solution[i] in guess
      {
        assert solution[i] in multiset(solution);
      }
    }
  }

  // ---------------------------------------------------------------------------------------
  // Suggestions.

  /** The validation loop over the sorted suggestion: card i, less the running `base_idx`, must be
      an offset into category i. */
  method CheckSuggestion(counts: seq<int>, s: seq<int>) returns (legal: bool)
    requires |s| == |counts|
    ensures legal <==> OnePerCategory(counts, s)
  {
    var baseIdx := 0;
    legal := true;
    for i := 0 to |counts|
      invariant baseIdx == Base(counts, i)
      invariant legal <==> forall k :: 0 <= k < i ==> InCategory(counts, k, s[k])
    {
      var offsetInCategory := s[i] - baseIdx;
      if offsetInCategory < 0 || offsetInCategory >= counts[i] {
        legal := false;
      }
      baseIdx := baseIdx + counts[i];
    }
  }

  /** A suggestion is legal when, once sorted, it holds one card per category. */
  predicate Legal(counts: seq<int>, suggestion: seq<int>)
  {
    OnePerCategory(counts, Sort(suggestion))
  }

  /** Sorting first makes the check order-free: a suggestion is accepted exactly when some
      rearrangement of it holds one card per category, in category order. */
  lemma {:induction false} LegalIffRearrangement(counts: seq<int>, suggestion: seq<int>, t: seq<int>)
    requires NonNegative(counts) && multiset(t) == multiset(suggestion)
    ensures OnePerCategory(counts, t) ==> Legal(counts, suggestion)
    ensures Legal(counts, suggestion) ==> multiset(Sort(suggestion)) == multiset(suggestion)
  {
    if OnePerCategory(counts, t) {
      OnePerCategorySorted(counts, t);
      SortedUnique(Sort(suggestion), t);
    }
  }

  /** In particular, two suggestions with the same cards are both legal or both illegal. */
  lemma {:induction false} LegalOrderFree(counts: seq<int>, s: seq<int>, s': seq<int>)
    requires multiset(s) == multiset(s')
    ensures Legal(counts, s) <==> Legal(counts, s')
  {
    SortPermutation(s, s');
  }

  /** Two cards from the same category are never accepted, not even the same card twice. */
  lemma {:induction false} SameCategoryIllegal(counts: seq<int>, s: seq<int>, i: nat, j: nat, k: nat)
    requires NonNegative(counts) && i < |s| && j < |s| && i != j && k < |counts|
    requires InCategory(counts, k, s[i]) && InCategory(counts, k, s[j])
    ensures !Legal(counts, s)
  {
    if Legal(counts, s) {
      var r := Sort(s);
      OnePerCategorySorted(counts, r);
      if s[i] == s[j] {
        TwoCopies(s, i, j);
        DistinctCount(r, s[i]);
      } else {
        assert s[i] in multiset(r) && s[j] in multiset(r);
        var a :| 0 <= a < |r| && r[a] == s[i];
        var b :| 0 <= b < |r| && r[b] == s[j];
        CategoryUnique(counts, a, k, r[a]);
        CategoryUnique(counts, b, k, r[b]);
      }
    }
  }

  lemma {:induction false} TwoCopies(s: seq<int>, i: nat, j: nat)
    requires i < |s| && j < |s| && i != j && s[i] == s[j]
    ensures multiset(s)[s[i]] >= 2
  {
    var (lo, hi) := if i < j then (i, j) else (j, i);
    assert s == s[..hi] + [s[hi]] + s[hi + 1..];
    assert s[..hi][lo] == s[i];
    assert multiset(s[..hi])[s[i]] >= 1;
  }
  // ---------------------------------------------------------------------------------------
  // Turn rotation.

  /** The seat d steps forward from seat t, cyclically, at a table of n. */
  function Seat(t: nat, d: nat, n: nat): (q: nat)
    requires n > 0
    ensures q < n
  {
    (t + d) % n
  }

  /** How many steps forward, cyclically, seat t is from seat s. */
  function Offset(s: nat, t: nat, n: nat): (d: nat)
    requires s < n && t < n
    ensures d < n
  {
    if t >= s then t - s else t - s + n
  }

  /** Stepping d < n seats forward from s lands d steps away. */
  lemma {:induction false} CyclicStep(s: nat, d: nat, n: nat)
    requires s < n && d < n
    ensures Offset(s, Seat(s, d, n), n) == d
  {
    if s + d < n {
      DivMod(s + d, n, 0, s + d);
    } else {
      DivMod(s + d, n, 1, s + d - n);
    }
  }

  /** Seat t is Offset(s, t) steps from s, and s is zero steps from itself. */
  lemma {:induction false} SeatOffset(s: nat, t: nat, n: nat)
    requires s < n && t < n
    ensures Seat(s, Offset(s, t, n), n) == t && Seat(s, 0, n) == s
  {
    if t >= s {
      DivMod(t, n, 0, t);
    } else {
      DivMod(t + n, n, 1, t);
    }
    DivMod(s, n, 0, s);
  }

  /** One step forward from seat d of the rotation is seat d + 1. */
  lemma {:induction false} SeatNext(s: nat, d: nat, n: nat)
    requires n > 0
    ensures (Seat(s, d, n) + 1) % n == Seat(s, d + 1, n)
  {
    ModNext(s + d, n);
  }

  /** The number of players not eliminated among the first i seats. */
  function ActiveCount(eliminated: seq<bool>, i: nat): nat
    requires i <= |eliminated|
  {
    if i == 0 then 0 else ActiveCount(eliminated, i - 1) + (if eliminated[i - 1] then 0 else 1)
  }

  lemma {:induction false} ActiveCountZero(eliminated: seq<bool>, i: nat)
    requires i <= |eliminated|
    ensures ActiveCount(eliminated, i) == 0 <==> forall p :: 0 <= p < i ==> eliminated[p]
  {
    if i > 0 {
      ActiveCountZero(eliminated, i - 1);
    }
  }

  /** The `not_eliminated` count; it is zero exactly when everyone is eliminated. */
  method CountActive(eliminated: seq<bool>) returns (notEliminated: nat)
    ensures notEliminated == ActiveCount(eliminated, |eliminated|)
    ensures notEliminated == 0 <==> forall p :: 0 <= p < |eliminated| ==> eliminated[p]
  {
    notEliminated := 0;
    for i := 0 to |eliminated|
      invariant notEliminated == ActiveCount(eliminated, i)
    {
      if !eliminated[i] {
        notEliminated := notEliminated + 1;
      }
    }
    ActiveCountZero(eliminated, |eliminated|);
  }

  /** The skip loop: from seat s, step forward cyclically past eliminated players. The result is
      the first seat at or after s, cyclically, whose player is still in. */
  method SkipEliminated(eliminated: seq<bool>, s: nat) returns (t: nat)
    requires s < |eliminated| && exists w :: 0 <= w < |eliminated| && !eliminated[w]
    ensures t < |eliminated| && !eliminated[t]
    ensures forall d :: 0 <= d < Offset(s, t, |eliminated|) ==> eliminated[Seat(s, d, |eliminated|)]
  {
    var n := |eliminated|;
    ghost var w :| 0 <= w < n && !eliminated[w];
    ghost var e := Offset(s, w, n);
    SeatOffset(s, w, n);
    t := s;
    ghost var d := 0;
    while eliminated[t]
      invariant d <= e && t == Seat(s, d, n)
      invariant forall d' :: 0 <= d' < d ==> eliminated[Seat(s, d', n)]
      decreases e - d
    {
      SeatNext(s, d, n);
      t := t + 1;
      t := t % n;
      d := d + 1;
    }
    CyclicStep(s, d, n);
  }

  // ---------------------------------------------------------------------------------------
  // The query rotation.

  /** How the game goes on after a step: on to the next turn, on with the mover eliminated, over
      with a winner (the "Game ended" abort sent), aborted for everyone with a reason, or dead on a
      failed `assert`. */
  datatype Status = Continue | Eliminated | Win | Abort(reason: string) | Crash

  /** The frames sent in a step of the game, and how the game goes on. */
  datatype Outcome = Outcome(sent: seq<Message>, status: Status)

  /** A client's reply: the receive of the frame header and the receive of the payload. */
  datatype Reply = Reply(header: Recv, body: Recv)

  const FailedToRespond: string := "Player failed to respond to suggestion"
  const CommunicationError: string := "Communication error"
  const AllEliminated: string := "All players eliminated"
  const GameEnded: string := "Game ended"
  const BadFrame: string := "Expected either FRAME_TYPE_TURN_RESPONSE or FRAME_TYPE_SOLVE_ATTEMPT"
  const NotOnePerCategory: string := "Not one card per category suggested"

  /** What the server receives from a client that sent frame f whole: its header, then its
      payload. */
  function Honest(f: Frame): Reply
  {
    Reply(Got(Header(Tag(f), DataLength(f))), Got(Payload(f)))
  }

  /** An honest reply's header reads back as the frame's tag and length. */
  lemma {:induction false} HonestHeader(f: Frame)
    requires IsInt32(DataLength(f))
    ensures |Honest(f).header.data| == HeaderSize
    ensures ParseHeader(Honest(f).header.data) == HeaderFields(Tag(f), DataLength(f))
  {
    HeaderRoundTrip(Tag(f), DataLength(f), []);
    assert Header(Tag(f), DataLength(f)) + [] == Header(Tag(f), DataLength(f));
  }
  const Cheated: string := "Player responded to a suggestion illegally"

  /** The player holds at least one of the suggested cards (`has_one`). */
  predicate Holds(hand: seq<int>, suggestion: seq<int>)
  {
    exists i :: 0 <= i < |suggestion| && suggestion[i] in hand
  }

  /** The `has_one` loop: `player_has_card` on each suggested card until one is found. */
  method HasAny(hand: seq<int>, suggestion: seq<int>) returns (hasOne: bool)
    requires Sorted(hand)
    ensures hasOne <==> Holds(hand, suggestion)
  {
    hasOne := false;
    var i := 0;
    while i < |suggestion|
      invariant 0 <= i <= |suggestion| && !hasOne
      invariant forall k :: 0 <= k < i ==> suggestion[k] !in hand
    {
      var has := HasCard(hand, suggestion[i]);
      if has {
        hasOne := true;
        break;
      }
      i := i + 1;
    }
  }

  /** The first offset from the suggester t, counting from d, whose player holds a suggested card;
      n (back at the suggester) when nobody does. */
  function FirstHolder(hands: seq<seq<int>>, t: nat, s: seq<int>, d: nat): (k: nat)
    requires |hands| > 0 && 1 <= d <= |hands|
    ensures d <= k <= |hands|
    ensures k < |hands| ==> Holds(hands[Seat(t, k, |hands|)], s)
    ensures forall d' :: d <= d' < k ==> !Holds(hands[Seat(t, d', |hands|)], s)
    decreases |hands| - d
  {
    if d == |hands| then d
    else if Holds(hands[Seat(t, d, |hands|)], s) then d
    else FirstHolder(hands, t, s, d + 1)
  }

  /** A player who passed: the query to everyone, then the "no card" announcement to everyone. */
  function PassSends(n: nat, id: int, s: seq<int>): seq<Message>
  {
    Broadcast(n, QueryFrame(id, s)) + Broadcast(n, AnnouncementFrame(id, NoCard))
  }

  /** The frames for the players at offsets 1 .. k from the suggester t, all of whom passed. */
  function Passes(ids: seq<int>, t: nat, s: seq<int>, k: nat): seq<Message>
    requires |ids| > 0
  {
    if k == 0 then [] else Passes(ids, t, s, k - 1) + PassSends(|ids|, ids[Seat(t, k, |ids|)], s)
  }

  /** The announcements of a shown card over seats 0 .. i-1: the shower q is skipped, the
      suggester t is told the card, everyone else is told 0. */
  function ShowFanOut(t: nat, q: nat, id: int, card: int, i: nat): (out: seq<Message>)
    ensures |out| == if q < i then i - 1 else i
  {
    if i == 0 then []
    else
      var rest := ShowFanOut(t, q, id, card, i - 1);
      if i - 1 == q then rest
      else rest + [Message(i - 1, AnnouncementFrame(id, if i - 1 == t then card else HiddenCard))]
  }

  /** Who hears what when a card is shown: every seat but the shower's gets exactly the one
      announcement meant for it. */
  lemma {:induction false} ShowRecipients(t: nat, q: nat, id: int, card: int, i: nat, m: Message)
    ensures m in ShowFanOut(t, q, id, card, i)
      <==> m.to < i && m.to != q && m.frame == AnnouncementFrame(id, if m.to == t then card else HiddenCard)
  {
    if i > 0 {
      ShowRecipients(t, q, id, card, i - 1, m);
    }
  }

  /** The announcement loop over all seats. */
  method Announce(n: nat, t: nat, q: nat, id: int, card: int) returns (sent: seq<Message>)
    ensures sent == ShowFanOut(t, q, id, card, n)
  {
    sent := [];
    for i := 0 to n
      invariant sent == ShowFanOut(t, q, id, card, i)
    {
      if i == q {
        continue;
      }
      var cardId := if i == t then card else HiddenCard;
      sent := sent + [Message(i, AnnouncementFrame(id, cardId))];
    }
  }
  /** What follows a well-formed response header declaring a two-byte body: the shown card, read
      from the first two bytes that arrived, must be in the shower's hand; then every other player
      is told who showed, and only the suggester which card. */
  function ShowBody(ids: seq<int>, hands: seq<seq<int>>, t: nat, q: nat, body: Recv): Outcome
    requires |ids| == |hands| && q < |hands|
  {
    var n := |ids|;
    if Short(body, SizeofQueryResponseFrame) then
      Outcome(ErrorTo(q, ShortError(body, "Incomplete query response")) + AbortAll(n, FailedToRespond),
              Abort(FailedToRespond))
    else
      var card := AsInt16(body.data[..2]);
      if card !in hands[q] then Outcome(AbortAll(n, Cheated), Abort(Cheated))
      else Outcome(ShowFanOut(t, q, ids[q], card, n), Continue)
  }

  /** The obligated player q's response to a suggestion by t, with the receive size compared as a
      signed value, so that a failed receive is reported and the game aborted. A header whose
      declared length is not two bytes fails the `assert`. */
  function ShowOutcome(ids: seq<int>, hands: seq<seq<int>>, t: nat, q: nat, r: Reply): Outcome
    requires |ids| == |hands| && q < |hands|
  {
    if Short(r.header, HeaderSize) then
      Outcome(ErrorTo(q, ShortError(r.header, "Obligated to respond")) + AbortAll(|ids|, FailedToRespond),
              Abort(FailedToRespond))
    else if ParseHeader(r.header.data).length != SizeofQueryResponseFrame then Outcome([], Crash)
    else ShowBody(ids, hands, t, q, r.body)
  }

  /** The same step as written: the received size is compared with a `size_t`, so a failed receive
      passes the check and the zero-initialised header reaches the `assert`. */
  function ShowOutcomeAsWritten(ids: seq<int>, hands: seq<seq<int>>, t: nat, q: nat, r: Reply): Outcome
    requires |ids| == |hands| && q < |hands|
  {
    if ShortAsWritten(r.header, HeaderSize) then
      Outcome(ErrorTo(q, ShortError(r.header, "Obligated to respond")) + AbortAll(|ids|, FailedToRespond),
              Abort(FailedToRespond))
    else
      var fields := if r.header.Got? && |r.header.data| >= HeaderSize then ParseHeader(r.header.data)
                    else HeaderFields(0, 0);
      if fields.length != SizeofQueryResponseFrame then Outcome([], Crash)
      else ShowBody(ids, hands, t, q, r.body)
  }

  /** A timed-out response: as written the server dies on the `assert`; with the signed comparison
      it reports the timeout to the shower and aborts the game for everyone. */
  lemma {:induction false} TimeoutAsWritten(ids: seq<int>, hands: seq<seq<int>>, t: nat, q: nat, body: Recv)
    requires |ids| == |hands| && q < |hands|
    ensures ShowOutcomeAsWritten(ids, hands, t, q, Reply(TimedOut, body)).status == Crash
    ensures ShowOutcome(ids, hands, t, q, Reply(TimedOut, body))
      == Outcome([Message(q, ErrorFrame("Timed out"))] + AbortAll(|ids|, FailedToRespond), Abort(FailedToRespond))
  {
    ShortAsWrittenMissesFailure(TimedOut, HeaderSize);
  }

  /** On a header whose bytes arrived the two comparisons agree. */
  lemma {:induction false} ShowAsWrittenAgrees(ids: seq<int>, hands: seq<seq<int>>, t: nat, q: nat, r: Reply)
    requires |ids| == |hands| && q < |hands|
    requires r.header.Got? && |r.header.data| <= HeaderSize
    ensures ShowOutcomeAsWritten(ids, hands, t, q, r) == ShowOutcome(ids, hands, t, q, r)
  {
    ShortAsWrittenMissesFailure(r.header, HeaderSize);
  }

  /** A holder who answers with a `QueryResponseFrame` for a card it holds is accepted, and the
      suggester, and nobody else, is told that card. */
  lemma {:induction false} ShowAccepted(ids: seq<int>, hands: seq<seq<int>>, t: nat, q: nat, card: int)
    requires |ids| == |hands| && q < |hands| && t < |hands| && t != q
    requires card in hands[q] && IsInt16(card)
    ensures var o := ShowOutcome(ids, hands, t, q, Honest(QueryResponseFrame(card)));
      o.status == Continue
      && Message(t, AnnouncementFrame(ids[q], card)) in o.sent
      && forall m :: m in o.sent && m.to != t ==> m.frame == AnnouncementFrame(ids[q], HiddenCard)
  {
    HonestHeader(QueryResponseFrame(card));
    Int16RoundTrip(card);
    assert LE16(card)[..2] == LE16(card);
    var o := ShowOutcome(ids, hands, t, q, Honest(QueryResponseFrame(card)));
    assert o.sent == ShowFanOut(t, q, ids[q], card, |ids|);
    ShowRecipients(t, q, ids[q], card, |ids|, Message(t, AnnouncementFrame(ids[q], card)));
    forall m | m in o.sent && m.to != t
      ensures m.frame == AnnouncementFrame(ids[q], HiddenCard)
    {
      ShowRecipients(t, q, ids[q], card, |ids|, m);
    }
  }

  /** The response step of the query loop: the header and body receives, the cheat check by binary
      search, and the announcement loop. */
  method Show(ids: seq<int>, hands: seq<seq<int>>, t: nat, q: nat, r: Reply) returns (o: Outcome)
    requires |ids| == |hands| && q < |hands| && Sorted(hands[q])
    ensures o == ShowOutcome(ids, hands, t, q, r)
  {
    var n := |ids|;
    if Short(r.header, HeaderSize) {
      var abort := AbortAll(n, FailedToRespond);
      return Outcome(ErrorTo(q, ShortError(r.header, "Obligated to respond")) + abort, Abort(FailedToRespond));
    }
    var fields := ParseHeader(r.header.data);
    if fields.length != SizeofQueryResponseFrame {
      return Outcome([], Crash);
    }
    if Short(r.body, fields.length) {
      var abort := AbortAll(n, FailedToRespond);
      return Outcome(ErrorTo(q, ShortError(r.body, "Incomplete query response")) + abort, Abort(FailedToRespond));
    }
    var card := AsInt16(r.body.data[..2]);
    var has := HasCard(hands[q], card);
    if !has {
      return Outcome(AbortAll(n, Cheated), Abort(Cheated));
    }
    var shown := Announce(n, t, q, ids[q], card);
    return Outcome(shown, Continue);
  }
  /** The whole query rotation after a legal suggestion s by t: every player from t + 1 on,
      cyclically, is queried in turn; those holding none of the cards pass, and the first holder
      must show one, which ends the rotation. `shows[q]` is what player q would answer. */
  function QueryOutcome(ids: seq<int>, hands: seq<seq<int>>, t: nat, s: seq<int>, shows: seq<Reply>): Outcome
    requires |ids| == |hands| == |shows| > 0
  {
    var n := |ids|;
    var k := FirstHolder(hands, t, s, 1);
    if k == n then Outcome(Passes(ids, t, s, n - 1), Continue) else QueryShown(ids, hands, t, s, shows, k)
  }

  /** The rotation when the player at offset k is the first holder. */
  function QueryShown(ids: seq<int>, hands: seq<seq<int>>, t: nat, s: seq<int>, shows: seq<Reply>, k: nat): Outcome
    requires |ids| == |hands| == |shows| > 0 && 1 <= k
  {
    var q := Seat(t, k, |ids|);
    var shown := ShowOutcome(ids, hands, t, q, shows[q]);
    Outcome(Passes(ids, t, s, k - 1) + Broadcast(|ids|, QueryFrame(ids[q], s)) + shown.sent, shown.status)
  }

  /** The suggester is never among the players queried. */
  lemma {:induction false} QueriedNotSuggester(t: nat, k: nat, n: nat)
    requires t < n && 1 <= k < n
    ensures Seat(t, k, n) != t
  {
    CyclicStep(t, k, n);
    SeatOffset(t, t, n);
  }

  /** Seat i has received the query and the pass announcement of the player with this id. */
  predicate Heard(ms: seq<Message>, i: nat, id: int, s: seq<int>)
  {
    Message(i, QueryFrame(id, s)) in ms && Message(i, AnnouncementFrame(id, NoCard)) in ms
  }

  /** Everyone hears every query and every pass among the first k queried players. */
  lemma {:induction false} PassesHeard(ids: seq<int>, t: nat, s: seq<int>, k: nat, d: nat, i: nat)
    requires |ids| > 0 && 1 <= d <= k && i < |ids|
    ensures Heard(Passes(ids, t, s, k), i, ids[Seat(t, d, |ids|)], s)
  {
    var n := |ids|;
    var id := ids[Seat(t, d, n)];
    var before, rest := Passes(ids, t, s, k - 1), PassSends(n, ids[Seat(t, k, n)], s);
    assert Passes(ids, t, s, k) == before + rest;
    if d < k {
      PassesHeard(ids, t, s, k - 1, d, i);
      HeardLeft(before, rest, i, id, s);
    } else {
      PassSendsHeard(n, id, s, i);
      HeardRight(before, rest, i, id, s);
    }
  }

  /** One passing player's frames reach every seat. */
  lemma {:induction false} PassSendsHeard(n: nat, id: int, s: seq<int>, i: nat)
    requires i < n
    ensures Heard(PassSends(n, id, s), i, id, s)
  {
    var p := PassSends(n, id, s);
    assert p[i] == Message(i, QueryFrame(id, s));
    assert p[n + i] == Message(i, AnnouncementFrame(id, NoCard));
  }

  lemma {:induction false} HeardLeft(a: seq<Message>, b: seq<Message>, i: nat, id: int, s: seq<int>)
    requires Heard(a, i, id, s)
    ensures Heard(a + b, i, id, s)
  {
    InLeft(Message(i, QueryFrame(id, s)), a, b);
    InLeft(Message(i, AnnouncementFrame(id, NoCard)), a, b);
  }

  lemma {:induction false} HeardRight(a: seq<Message>, b: seq<Message>, i: nat, id: int, s: seq<int>)
    requires Heard(b, i, id, s)
    ensures Heard(a + b, i, id, s)
  {
    InRight(Message(i, QueryFrame(id, s)), a, b);
    InRight(Message(i, AnnouncementFrame(id, NoCard)), a, b);
  }

  lemma {:induction false} InLeft<T>(x: T, a: seq<T>, b: seq<T>)
    requires x in a
    ensures x in a + b
  {
    var j :| 0 <= j < |a| && a[j] == x;
    assert (a + b)[j] == x;
  }

  lemma {:induction false} InRight<T>(x: T, a: seq<T>, b: seq<T>)
    requires x in b
    ensures x in a + b
  {
    var j :| 0 <= j < |b| && b[j] == x;
    assert (a + b)[|a| + j] == x;
  }

  /** The players at offsets 1 .. d-1 from t hold none of the suggested cards. */
  predicate Passed(hands: seq<seq<int>>, t: nat, s: seq<int>, d: nat)
    requires |hands| > 0
  {
    forall d' :: 1 <= d' < d ==> !Holds(hands[Seat(t, d', |hands|)], s)
  }

  lemma {:induction false} PassedNext(hands: seq<seq<int>>, t: nat, s: seq<int>, d: nat)
    requires |hands| > 0 && Passed(hands, t, s, d) && !Holds(hands[Seat(t, d, |hands|)], s)
    ensures Passed(hands, t, s, d + 1)
  {
  }

  /** The invariant of the query loop at offset d: everyone before it passed, with these frames. */
  predicate Querying(ids: seq<int>, hands: seq<seq<int>>, t: nat, s: seq<int>, d: nat, sent: seq<Message>)
    requires |ids| == |hands| > 0
  {
    1 <= d <= |ids| && Passed(hands, t, s, d) && sent == Passes(ids, t, s, d - 1)
  }

  /** A full turn of the table brings the rotation back to the suggester. */
  lemma {:induction false} SeatAround(t: nat, n: nat)
    requires t < n
    ensures Seat(t, n, n) == t
  {
    DivMod(t + n, n, 1, t);
  }

  /** Before coming back to t, the rotation is short of a full turn. */
  lemma {:induction false} NotAround(t: nat, d: nat, n: nat)
    requires t < n && d <= n && Seat(t, d, n) != t
    ensures d < n
  {
    if d == n {
      SeatAround(t, n);
      assert false;
    }
  }

  /** The loop starts at offset 1 with nothing sent. */
  lemma {:induction false} QueryingStart(ids: seq<int>, hands: seq<seq<int>>, t: nat, s: seq<int>)
    requires |ids| == |hands| > 0 && t < |ids|
    ensures Querying(ids, hands, t, s, 1, []) && (t + 1) % |ids| == Seat(t, 1, |ids|)
  {
    SeatNext(t, 0, |ids|);
    SeatOffset(t, t, |ids|);
  }

  /** The first holder is the offset d that holds a card after everyone before it passed. */
  lemma {:induction false} FirstHolderAt(hands: seq<seq<int>>, t: nat, s: seq<int>, d: nat)
    requires |hands| > 0 && t < |hands| && 1 <= d <= |hands| && Seat(t, d, |hands|) != t
    requires Passed(hands, t, s, d)
    requires Holds(hands[Seat(t, d, |hands|)], s)
    ensures d < |hands| && FirstHolder(hands, t, s, 1) == d
  {
    if d == |hands| {
      SeatAround(t, |hands|);
    }
  }

  /** Nobody holds a card: the rotation runs all the way round. */
  lemma {:induction false} FirstHolderNone(hands: seq<seq<int>>, t: nat, s: seq<int>, d: nat)
    requires |hands| > 0 && t < |hands| && 1 <= d <= |hands| && Seat(t, d, |hands|) == t
    requires Passed(hands, t, s, d)
    ensures d == |hands| && FirstHolder(hands, t, s, 1) == |hands|
  {
    if d < |hands| {
      CyclicStep(t, d, |hands|);
      assert false;
    }
  }

  /** Offset d holds a card: the rotation ends with its query and its response. */
  lemma {:induction false} QueryingShow(ids: seq<int>, hands: seq<seq<int>>, t: nat, s: seq<int>, shows: seq<Reply>,
                     d: nat, sent: seq<Message>)
    requires |ids| == |hands| == |shows| > 0 && t < |ids|
    requires Querying(ids, hands, t, s, d, sent) && Seat(t, d, |ids|) != t
    requires Holds(hands[Seat(t, d, |ids|)], s)
    ensures QueryOutcome(ids, hands, t, s, shows) == QueryShown(ids, hands, t, s, shows, d)
  {
    FirstHolderAt(hands, t, s, d);
  }

  /** The frames of the passes so far, followed by one more pass. */
  lemma {:induction false} PassStep(ids: seq<int>, t: nat, s: seq<int>, d: nat, sent: seq<Message>)
    requires |ids| > 0 && d >= 1 && sent == Passes(ids, t, s, d - 1)
    ensures sent + Broadcast(|ids|, QueryFrame(ids[Seat(t, d, |ids|)], s))
                 + Broadcast(|ids|, AnnouncementFrame(ids[Seat(t, d, |ids|)], NoCard))
            == Passes(ids, t, s, d)
  {
    var id := ids[Seat(t, d, |ids|)];
    var query, pass := Broadcast(|ids|, QueryFrame(id, s)), Broadcast(|ids|, AnnouncementFrame(id, NoCard));
    assert sent + query + pass == sent + (query + pass);
  }

  /** Offset d passes: its query and its "no card" announcement go out, and the loop moves on. */
  lemma {:induction false} QueryingNext(ids: seq<int>, hands: seq<seq<int>>, t: nat, s: seq<int>, d: nat, sent: seq<Message>)
    requires |ids| == |hands| > 0 && t < |ids|
    requires Querying(ids, hands, t, s, d, sent) && Seat(t, d, |ids|) != t
    requires !Holds(hands[Seat(t, d, |ids|)], s)
    ensures var q := Seat(t, d, |ids|);
      Querying(ids, hands, t, s, d + 1, sent + Broadcast(|ids|, QueryFrame(ids[q], s))
                                              + Broadcast(|ids|, AnnouncementFrame(ids[q], NoCard)))
  {
    NotAround(t, d, |ids|);
    PassStep(ids, t, s, d, sent);
    PassedNext(hands, t, s, d);
  }

  /** Back at the suggester: everybody passed. */
  lemma {:induction false} QueryingDone(ids: seq<int>, hands: seq<seq<int>>, t: nat, s: seq<int>, shows: seq<Reply>,
                     d: nat, sent: seq<Message>)
    requires |ids| == |hands| == |shows| > 0 && t < |ids|
    requires Querying(ids, hands, t, s, d, sent) && Seat(t, d, |ids|) == t
    ensures QueryOutcome(ids, hands, t, s, shows) == Outcome(sent, Continue)
  {
    FirstHolderNone(hands, t, s, d);
  }

  /** The `suggestion_turn_idx` loop. */
  method QueryRound(ids: seq<int>, hands: seq<seq<int>>, t: nat, s: seq<int>, shows: seq<Reply>)
    returns (o: Outcome)
    requires |ids| == |hands| == |shows| > 0 && t < |ids|
    requires forall p :: 0 <= p < |hands| ==> Sorted(hands[p])
    ensures o == QueryOutcome(ids, hands, t, s, shows)
  {
    var n := |ids|;
    var sent := [];
    QueryingStart(ids, hands, t, s);
    var q := (t + 1) % n;
    ghost var d := 1;
    while q != t
      invariant q == Seat(t, d, n) && Querying(ids, hands, t, s, d, sent)
      decreases n - d
    {
      var query := Broadcast(n, QueryFrame(ids[q], s));
      var hasOne := HasAny(hands[q], s);
      if hasOne {
        QueryingShow(ids, hands, t, s, shows, d, sent);
        var shown := Show(ids, hands, t, q, shows[q]);
        return Outcome(sent + query + shown.sent, shown.status);
      }
      QueryingNext(ids, hands, t, s, d, sent);
      SeatNext(t, d, n);
      sent := sent + query + Broadcast(n, AnnouncementFrame(ids[q], NoCard));
      q := (q + 1) % n;
      d := d + 1;
    }
    QueryingDone(ids, hands, t, s, shows, d, sent);
    return Outcome(sent, Continue);
  }
  // ---------------------------------------------------------------------------------------
  // A turn: the mover's reply.

  /** A solve attempt whose header declared `length` bytes: the guess is checked against the
      solution and the result broadcast; a correct guess ends the game, a wrong one eliminates the
      mover. A short or mis-sized body is reported to the mover only. */
  function SolveOutcome(counts: seq<int>, solution: seq<int>, ids: seq<int>, t: nat, length: int, body: Recv): Outcome
    requires |solution| == |counts| && t < |ids|
  {
    var n := |ids|;
    var want := 2 * |counts|;
    if Short(body, want) || want != length then
      Outcome(ErrorTo(t, ShortError(body, "Incomplete solution attempt")), Continue)
    else
      var guess := AsInt16s(body.data, |counts|);
      var correct := Correct(solution, guess);
      var result := Broadcast(n, SolveResultFrame(ids[t], correct, guess));
      if correct then Outcome(result + AbortAll(n, GameEnded), Win) else Outcome(result, Eliminated)
  }

  /** A suggestion whose header declared `length` bytes: it is sorted and must hold one card per
      category, and then goes round the table. */
  function SuggestOutcome(counts: seq<int>, ids: seq<int>, hands: seq<seq<int>>, t: nat, length: int,
                          body: Recv, shows: seq<Reply>): Outcome
    requires |ids| == |hands| == |shows| > 0
  {
    var want := 2 * |counts|;
    if Short(body, want) || want != length then
      Outcome(ErrorTo(t, ShortError(body, "Incomplete suggestion")), Continue)
    else
      var suggestion := Sort(AsInt16s(body.data, |counts|));
      if !OnePerCategory(counts, suggestion) then Outcome(ErrorTo(t, Some(NotOnePerCategory)), Continue)
      else QueryOutcome(ids, hands, t, suggestion, shows)
  }

  /** The mover t's reply to its turn frame. A short header aborts the game; the tag selects a solve
      attempt or a suggestion; any other frame is refused with an error to the mover. `shows[q]` is
      what player q would answer if asked to show a card. */
  function TurnOutcome(counts: seq<int>, solution: seq<int>, ids: seq<int>, hands: seq<seq<int>>, t: nat,
                       reply: Reply, shows: seq<Reply>): Outcome
    requires |ids| == |hands| == |shows| > 0 && |solution| == |counts| && t < |ids|
  {
    if Short(reply.header, HeaderSize) then
      Outcome(ErrorTo(t, ShortError(reply.header, "Incomplete frame header")) + AbortAll(|ids|, CommunicationError),
              Abort(CommunicationError))
    else
      var fields := ParseHeader(reply.header.data);
      if fields.tag == TypeSolveAttempt then SolveOutcome(counts, solution, ids, t, fields.length, reply.body)
      else if fields.tag == TypeTurnResponse then SuggestOutcome(counts, ids, hands, t, fields.length, reply.body, shows)
      else Outcome(ErrorTo(t, Some(BadFrame)), Continue)
  }

  /** The solve branch of `run_game`. */
  method Solve(counts: seq<int>, solution: seq<int>, ids: seq<int>, t: nat, length: int, body: Recv)
    returns (o: Outcome)
    requires |solution| == |counts| && t < |ids|
    ensures o == SolveOutcome(counts, solution, ids, t, length, body)
  {
    var n := |ids|;
    var want := 2 * |counts|;
    if Short(body, want) || want != length {
      return Outcome(ErrorTo(t, ShortError(body, "Incomplete solution attempt")), Continue);
    }
    var guess := AsInt16s(body.data, |counts|);
    var correct := Adjudicate(solution, guess);
    var result := Broadcast(n, SolveResultFrame(ids[t], correct, guess));
    if correct {
      return Outcome(result + AbortAll(n, GameEnded), Win);
    }
    return Outcome(result, Eliminated);
  }

  /** The suggestion branch of `run_game`. */
  method Suggest(counts: seq<int>, ids: seq<int>, hands: seq<seq<int>>, t: nat, length: int,
                 body: Recv, shows: seq<Reply>) returns (o: Outcome)
    requires |ids| == |hands| == |shows| > 0 && t < |ids|
    requires forall p :: 0 <= p < |hands| ==> Sorted(hands[p])
    ensures o == SuggestOutcome(counts, ids, hands, t, length, body, shows)
  {
    var want := 2 * |counts|;
    if Short(body, want) || want != length {
      return Outcome(ErrorTo(t, ShortError(body, "Incomplete suggestion")), Continue);
    }
    var suggestion := Sort(AsInt16s(body.data, |counts|));
    var legal := CheckSuggestion(counts, suggestion);
    if !legal {
      return Outcome(ErrorTo(t, Some(NotOnePerCategory)), Continue);
    }
    o := QueryRound(ids, hands, t, suggestion, shows);
  }

  /** The reply carries a frame with this tag and payload: the whole header arrived declaring the
      payload's length, and then the payload. */
  predicate Carries(reply: Reply, tag: int, payload: seq<byte>)
  {
    !Short(reply.header, HeaderSize) && ParseHeader(reply.header.data) == HeaderFields(tag, |payload|)
    && reply.body == Got(payload)
  }

  /** A client that sends a frame whole is such a reply. */
  lemma {:induction false} HonestCarries(f: Frame)
    requires IsInt32(DataLength(f))
    ensures Carries(Honest(f), Tag(f), Payload(f))
  {
    HonestHeader(f);
  }

  /** The server reads back the cards a client packed. */
  lemma {:induction false} CardsRead(cards: seq<int>)
    requires AllInt16(cards)
    ensures AsInt16s(LE16s(cards), |cards|) == cards
  {
    CardsRoundTrip(cards);
  }

  /** A suggestion's header selects the suggestion branch. */
  lemma {:induction false} SuggestDispatch(counts: seq<int>, solution: seq<int>, ids: seq<int>, hands: seq<seq<int>>, t: nat,
                        reply: Reply, shows: seq<Reply>)
    requires |ids| == |hands| == |shows| > 0 && |solution| == |counts| && t < |ids|
    requires !Short(reply.header, HeaderSize) && ParseHeader(reply.header.data).tag == TypeTurnResponse
    ensures TurnOutcome(counts, solution, ids, hands, t, reply, shows)
      == SuggestOutcome(counts, ids, hands, t, ParseHeader(reply.header.data).length, reply.body, shows)
  {
  }

  /** A whole solve attempt wins exactly when its guess is the solution in some order, and
      eliminates the mover otherwise; everyone is told the verdict and the guess, and after a win
      everyone is sent the "Game ended" abort. */
  lemma {:induction false} SolveAttempt(counts: seq<int>, solution: seq<int>, ids: seq<int>, hands: seq<seq<int>>, t: nat,
                     reply: Reply, guess: seq<int>, shows: seq<Reply>)
    requires |ids| == |hands| == |shows| > 0 && t < |ids|
    requires NonNegative(counts) && OnePerCategory(counts, solution)
    requires |guess| == |counts| && AllInt16(guess) && Carries(reply, TypeSolveAttempt, LE16s(guess))
    ensures var correct := multiset(guess) == multiset(solution);
      var result := Broadcast(|ids|, SolveResultFrame(ids[t], correct, guess));
      TurnOutcome(counts, solution, ids, hands, t, reply, shows)
      == if correct then Outcome(result + AbortAll(|ids|, GameEnded), Win) else Outcome(result, Eliminated)
  {
    CardsRead(guess);
    OnePerCategorySorted(counts, solution);
    CorrectIffRearrangement(solution, guess);
  }

  /** A whole suggestion with one card per category, in any order, goes round the table sorted;
      any other suggestion is refused, and the turn passes with nothing else sent. */
  lemma {:induction false} Suggestion(counts: seq<int>, solution: seq<int>, ids: seq<int>, hands: seq<seq<int>>, t: nat,
                   reply: Reply, suggestion: seq<int>, shows: seq<Reply>)
    requires |ids| == |hands| == |shows| > 0 && |solution| == |counts| && t < |ids|
    requires |suggestion| == |counts| && AllInt16(suggestion)
    requires Carries(reply, TypeTurnResponse, LE16s(suggestion))
    ensures TurnOutcome(counts, solution, ids, hands, t, reply, shows)
      == if Legal(counts, suggestion) then QueryOutcome(ids, hands, t, Sort(suggestion), shows)
         else Outcome([Message(t, ErrorFrame(NotOnePerCategory))], Continue)
  {
    assert ParseHeader(reply.header.data) == HeaderFields(TypeTurnResponse, 2 * |counts|);
    SuggestDispatch(counts, solution, ids, hands, t, reply, shows);
    SuggestionBody(counts, ids, hands, t, suggestion, shows);
  }

  lemma {:induction false} SuggestionBody(counts: seq<int>, ids: seq<int>, hands: seq<seq<int>>, t: nat,
                       suggestion: seq<int>, shows: seq<Reply>)
    requires |ids| == |hands| == |shows| > 0 && t < |ids|
    requires |suggestion| == |counts| && AllInt16(suggestion)
    ensures SuggestOutcome(counts, ids, hands, t, 2 * |counts|, Got(LE16s(suggestion)), shows)
      == if Legal(counts, suggestion) then QueryOutcome(ids, hands, t, Sort(suggestion), shows)
         else Outcome([Message(t, ErrorFrame(NotOnePerCategory))], Continue)
  {
    CardsRead(suggestion);
  }

  /** A whole frame of any other type is refused with an error to the mover alone, and the turn
      passes. */
  lemma {:induction false} OtherFrameRefused(counts: seq<int>, solution: seq<int>, ids: seq<int>, hands: seq<seq<int>>, t: nat,
                          reply: Reply, tag: int, payload: seq<byte>, shows: seq<Reply>)
    requires |ids| == |hands| == |shows| > 0 && |solution| == |counts| && t < |ids|
    requires Carries(reply, tag, payload) && tag != TypeSolveAttempt && tag != TypeTurnResponse
    ensures TurnOutcome(counts, solution, ids, hands, t, reply, shows)
      == Outcome([Message(t, ErrorFrame(BadFrame))], Continue)
  {
  }

  // ---------------------------------------------------------------------------------------
  // The game loop's state.

  /** The state `run_game` keeps between turns: the rules, the solution, the seats' ids and sorted
      hands (fixed once dealt), who is eliminated, and whose turn it is (-1 before the first). */
  class Game {
    const counts: seq<int>
    const solution: seq<int>
    const ids: seq<int>
    const hands: seq<seq<int>>
    var eliminated: seq<bool>
    var turnIdx: int

    predicate Valid()
      reads this
    {
      |ids| == |hands| == |eliminated| > 0 && -1 <= turnIdx < |ids| && |solution| == |counts|
      && forall p :: 0 <= p < |hands| ==> Sorted(hands[p])
    }

    /** The game as `start_game` hands it over: nobody eliminated, no turn taken yet. */
    constructor (table: Table)
      requires |table.seats| == |table.hands| > 0 && |table.solution| == |table.counts|
      requires forall p :: 0 <= p < |table.hands| ==> Sorted(table.hands[p])
      ensures Valid()
      ensures counts == table.counts && solution == table.solution
      ensures ids == Ids(table.seats) && hands == table.hands
      ensures |eliminated| == |ids| && (forall p :: 0 <= p < |ids| ==> !eliminated[p]) && turnIdx == -1
    {
      counts := table.counts;
      solution := table.solution;
      ids := Ids(table.seats);
      hands := table.hands;
      eliminated := seq(|table.seats|, _ => false);
      turnIdx := -1;
    }

    /** The start of a loop iteration: advance the turn, abort if everyone is eliminated, skip the
        eliminated, and tell everyone whose turn it is. The new mover is the first player still in
        at or after the seat following the previous mover. */
    method BeginTurn() returns (o: Outcome)
      requires Valid()
      modifies this`turnIdx
      ensures Valid()
      ensures var (n, start) := (|ids|, (old(turnIdx) + 1) % |ids|);
        if forall p :: 0 <= p < n ==> eliminated[p] then
          o == Outcome(AbortAll(n, AllEliminated), Abort(AllEliminated)) && turnIdx == start
        else
          0 <= turnIdx && !eliminated[turnIdx]
          && o == Outcome(Broadcast(n, TurnFrame(ids[turnIdx])), Continue)
          && forall d :: 0 <= d < Offset(start, turnIdx, n) ==> eliminated[Seat(start, d, n)]
    {
      var n := |ids|;
      turnIdx := turnIdx + 1;
      turnIdx := turnIdx % n;
      var notEliminated := CountActive(eliminated);
      if notEliminated == 0 {
        return Outcome(AbortAll(n, AllEliminated), Abort(AllEliminated));
      }
      turnIdx := SkipEliminated(eliminated, turnIdx);
      return Outcome(Broadcast(n, TurnFrame(ids[turnIdx])), Continue);
    }

    /** The rest of the iteration: receive the mover's reply and act on it. Only a wrong solve
        attempt changes the state, by eliminating the mover. */
    method Respond(reply: Reply, shows: seq<Reply>) returns (o: Outcome)
      requires Valid() && 0 <= turnIdx && |shows| == |ids|
      modifies this`eliminated
      ensures Valid()
      ensures o == TurnOutcome(counts, solution, ids, hands, turnIdx, reply, shows)
      ensures eliminated == if o.status == Eliminated then old(eliminated)[turnIdx := true] else old(eliminated)
    {
      var n := |ids|;
      if Short(reply.header, HeaderSize) {
        var abort := AbortAll(n, CommunicationError);
        return Outcome(ErrorTo(turnIdx, ShortError(reply.header, "Incomplete frame header")) + abort,
                       Abort(CommunicationError));
      }
      var fields := ParseHeader(reply.header.data);
      if fields.tag == TypeSolveAttempt {
        o := Solve(counts, solution, ids, turnIdx, fields.length, reply.body);
        if o.status == Eliminated {
          eliminated := eliminated[turnIdx := true];
        }
      } else if fields.tag == TypeTurnResponse {
        o := Suggest(counts, ids, hands, turnIdx, fields.length, reply.body, shows);
      } else {
        o := Outcome(ErrorTo(turnIdx, Some(BadFrame)), Continue);
      }
    }
  }

  /** A suggestion never eliminates anyone: only a solve attempt can. */
  lemma {:induction false} OnlySolveEliminates(counts: seq<int>, ids: seq<int>, hands: seq<seq<int>>, t: nat, length: int,
                            body: Recv, shows: seq<Reply>)
    requires |ids| == |hands| == |shows| > 0 && t < |ids|
    ensures SuggestOutcome(counts, ids, hands, t, length, body, shows).status !in {Eliminated, Win}
  {
    if !Short(body, 2 * |counts|) && 2 * |counts| == length {
      var suggestion := Sort(AsInt16s(body.data, |counts|));
      if OnePerCategory(counts, suggestion) {
        QueryNeverEnds(ids, hands, t, suggestion, shows);
      }
    }
  }

  /** The query rotation either goes on to the next turn or aborts; it never ends the game. */
  lemma {:induction false} QueryNeverEnds(ids: seq<int>, hands: seq<seq<int>>, t: nat, s: seq<int>, shows: seq<Reply>)
    requires |ids| == |hands| == |shows| > 0
    ensures QueryOutcome(ids, hands, t, s, shows).status in {Continue, Crash}
      || QueryOutcome(ids, hands, t, s, shows).status.Abort?
  {
  }
}
