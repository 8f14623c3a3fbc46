/** The frame catalogue of the protocol: type tags, the packed payload layouts and the
    `data_length` each sender puts in the header. */
module Frames {
  import opened Wire

  // Type tags. Connect and Abort share tag 2; only the direction tells them apart.
  const TypeError: int := 1
  const TypeAbort: int := 2
  const TypeConnect: int := 2
  const TypeRules: int := 3
  const TypeStart: int := 4
  const TypeTurn: int := 5
  const TypeTurnResponse: int := 6
  const TypeQuery: int := 7
  const TypeQueryResponse: int := 8
  const TypeQueryReturn: int := 9
  const TypeSolveAttempt: int := 10
  const TypeSolveResult: int := 11

  // `sizeof` of the fixed part of each payload struct; a zero-length trailing array adds nothing.
  const SizeofErrorFrame: nat := 4
  const SizeofConnectFrame: nat := 1
  const SizeofStartFrame: nat := 4
  const SizeofTurnFrame: nat := 1
  const SizeofTurnResponseFrame: nat := 0
  const SizeofQueryFrame: nat := 2
  const SizeofQueryResponseFrame: nat := 2
  const SizeofAnnouncementFrame: nat := 4
  const SizeofSolveAttemptFrame: nat := 0
  const SizeofSolveResultFrame: nat := 2

  /** `card_id` in a query announcement when the queried player showed nothing. */
  const NoCard: int := -1
  /** `card_id` an observer other than the suggester sees when a card was shown. */
  const HiddenCard: int := 0

  /** The bytes of an ASCII text constant (the reason strings of error and abort frames). */
  function Text(s: string): (t: seq<byte>)
    ensures |t| == |s|
  {
    if s == [] then [] else [(s[0] as int) % 256] + Text(s[1..])
  }

  datatype Frame =
    | ErrorFrame(reason: string)
    | AbortFrame(reason: string)
    | ConnectFrame(name: seq<byte>)
    | RulesFrame(body: seq<byte>)
    | StartFrame(body: seq<byte>)
    | TurnFrame(player: int)
    | TurnResponseFrame(suggestion: seq<int>)
    | QueryFrame(player: int, suggestion: seq<int>)
    | QueryResponseFrame(card: int)
    | AnnouncementFrame(player: int, card: int)
    | SolveAttemptFrame(cards: seq<int>)
    | SolveResultFrame(player: int, correct: bool, cards: seq<int>)

  function Tag(f: Frame): int
  {
    match f
    case ErrorFrame(_) => TypeError
    case AbortFrame(_) => TypeAbort
    case ConnectFrame(_) => TypeConnect
    case RulesFrame(_) => TypeRules
    case StartFrame(_) => TypeStart
    case TurnFrame(_) => TypeTurn
    case TurnResponseFrame(_) => TypeTurnResponse
    case QueryFrame(_, _) => TypeQuery
    case QueryResponseFrame(_) => TypeQueryResponse
    case AnnouncementFrame(_, _) => TypeQueryReturn
    case SolveAttemptFrame(_) => TypeSolveAttempt
    case SolveResultFrame(_, _, _) => TypeSolveResult
  }

  /** The `data_length` the sender writes into the header, computed the way the sender computes it:
      `sizeof` of the fixed struct plus the variable part. */
  function DataLength(f: Frame): nat
  {
    match f
    case ErrorFrame(r) => SizeofErrorFrame + |r|
    case AbortFrame(r) => SizeofErrorFrame + |r|
    case ConnectFrame(n) => SizeofConnectFrame + |n|
    case RulesFrame(b) => |b|
    case StartFrame(b) => |b|
    case TurnFrame(_) => SizeofTurnFrame
    case TurnResponseFrame(s) => SizeofTurnResponseFrame + 2 * |s|
    case QueryFrame(_, s) => SizeofQueryFrame + 2 * |s|
    case QueryResponseFrame(_) => SizeofQueryResponseFrame
    case AnnouncementFrame(_, _) => SizeofAnnouncementFrame
    case SolveAttemptFrame(c) => SizeofSolveAttemptFrame + 2 * |c|
    case SolveResultFrame(_, _, c) => SizeofSolveResultFrame + 2 * |c|
  }

  /** The payload bytes, field by field in declaration order, with no padding. */
  function Payload(f: Frame): (p: seq<byte>)
    ensures |p| == DataLength(f)
  {
    match f
    case ErrorFrame(r) => LE32(|r|) + Text(r)
    case AbortFrame(r) => LE32(|r|) + Text(r)
    case ConnectFrame(n) => [Byte(|n|)] + n
    case RulesFrame(b) => b
    case StartFrame(b) => b
    case TurnFrame(p) => [Byte(p)]
    case TurnResponseFrame(s) => LE16s(s)
    case QueryFrame(p, s) => [Byte(p), 0] + LE16s(s)
    case QueryResponseFrame(c) => LE16(c)
    case AnnouncementFrame(p, c) => [Byte(p), 0] + LE16(c)
    case SolveAttemptFrame(c) => LE16s(c)
    case SolveResultFrame(p, ok, c) => [Byte(p), if ok then 1 else 0] + LE16s(c)
  }

  /** A frame as it goes out on the stream: header, then exactly `data_length` payload bytes. */
  function Encode(f: Frame): (bytes: seq<byte>)
    ensures |bytes| == HeaderSize + DataLength(f)
  {
    Header(Tag(f), DataLength(f)) + Payload(f)
  }

  /** The receiver reads the tag and declared length back from the header, and the payload is
      exactly the declared number of bytes that follow it. */
  lemma {:induction false} EncodeFraming(f: Frame)
    requires IsInt32(DataLength(f))
    ensures ParseHeader(Encode(f)) == HeaderFields(Tag(f), DataLength(f))
    ensures Encode(f)[HeaderSize..] == Payload(f)
  {
    HeaderRoundTrip(Tag(f), DataLength(f), Payload(f));
  }

  /** An error or abort body is a 32-bit length followed by exactly that many text bytes. */
  lemma {:induction false} ReasonBody(r: string)
    requires IsInt32(|r|)
    ensures AsInt32(Payload(ErrorFrame(r))) == |r| && Payload(ErrorFrame(r))[4..] == Text(r)
    ensures Payload(AbortFrame(r)) == Payload(ErrorFrame(r))
  {
    Int32RoundTrip(|r|);
    assert Payload(ErrorFrame(r))[..4] == LE32(|r|);
  }

  /** The server reads a solve attempt or a suggestion as `num_categories` packed `int16_t` values,
      and gets back what a client encoded. */
  lemma {:induction false} CardsRoundTrip(cards: seq<int>)
    requires AllInt16(cards)
    ensures AsInt16s(Payload(SolveAttemptFrame(cards)), |cards|) == cards
    ensures AsInt16s(Payload(TurnResponseFrame(cards)), |cards|) == cards
  {
    var p := LE16s(cards);
    Int16sRoundTrip(cards, []);
    assert p + [] == p;
    assert AsInt16s(p, |cards|) == cards;
  }

  // ---------------------------------------------------------------------------------------
  // Receives and sends, abstracted from the sockets.

  /** The result of one `recv`: -1 with EAGAIN (the receive timeout), -1 with another errno, or the
      bytes that arrived (possibly fewer than asked for). */
  datatype Recv = TimedOut | Failed | Got(data: seq<byte>)

  /** The value `recv` returns: the number of bytes that arrived, or -1. */
  function RecvSize(r: Recv): int
  {
    if r.Got? then |r.data| else -1
  }

  /** A receive that failed or brought fewer than `want` bytes, comparing as signed integers. */
  predicate Short(r: Recv, want: nat)
  {
    RecvSize(r) < want
  }

  /** A receive that is not short delivered at least the bytes asked for. */
  lemma {:induction false} NotShort(r: Recv, want: nat)
    requires !Short(r, want)
    ensures r.Got? && |r.data| >= want
  {
  }

  /** The error frame `run_game` sends after a short receive: "Timed out" on EAGAIN, nothing (only
      `perror`) on another error, and `incomplete` when too few bytes arrived. */
  function ShortError(r: Recv, incomplete: string): Option<string>
  {
    match r
    case TimedOut => Some("Timed out")
    case Failed => None
    case Got(_) => Some(incomplete)
  }

  /** A value converted to `size_t` (64 bits), as C does when an `int` or `ssize_t` meets a `size_t`
      in a comparison. */
  function SizeT(x: int): int
  {
    x % 0x1_0000_0000_0000_0000
  }

  /** The size check where the received count is compared with a `size_t`: -1 becomes SIZE_MAX. */
  predicate ShortAsWritten(r: Recv, want: nat)
  {
    SizeT(RecvSize(r)) < want
  }

  /** The unsigned comparison misses a failed receive, which the signed one catches; on bytes that
      arrived the two agree. */
  lemma {:induction false} ShortAsWrittenMissesFailure(r: Recv, want: nat)
    requires want < 0x1_0000_0000_0000_0000
    ensures !r.Got? ==> Short(r, want) && !ShortAsWritten(r, want)
    ensures r.Got? && |r.data| < 0x1_0000_0000_0000_0000 ==> (ShortAsWritten(r, want) <==> Short(r, want))
  {
  }

  /** One frame sent to the connection at position `to` of the roster. */
  datatype Message = Message(to: nat, frame: Frame)

  /** Sending a frame to positions 0 .. n-1 in order. */
  function Broadcast(n: nat, f: Frame): (out: seq<Message>)
    ensures |out| == n && forall i :: 0 <= i < n ==> out[i] == Message(i, f)
  {
    if n == 0 then [] else Broadcast(n - 1, f) + [Message(n - 1, f)]
  }

  /** `abort_game`: the abort frame with its reason to everyone. */
  function AbortAll(n: nat, reason: string): seq<Message>
  {
    Broadcast(n, AbortFrame(reason))
  }

  /** A `send_error_frame` to one player, or nothing when the source only calls `perror`. */
  function ErrorTo(to: nat, reason: Option<string>): seq<Message>
  {
    if reason.Some? then [Message(to, ErrorFrame(reason.value))] else []
  }
}
