/** The Start frame: each player's personalised view of the deal. The payload is
    `your_hand_size`, `num_players`, a reserved byte, the player's hand, the player order, every
    player's hand size, then the length-prefixed player names. */
module Start {
  import opened Wire
  import opened Frames
  import opened Rules

  /** A run of `int8_t` values (the player order). */
  function Int8s(xs: seq<int>): (r: seq<byte>)
    ensures |r| == |xs| && forall i :: 0 <= i < |xs| ==> r[i] == Byte(xs[i])
  {
    seq(|xs|, i requires 0 <= i < |xs| => Byte(xs[i]))
  }

  /** The Start payload for a player holding `hand`, when the seats hold the players `ids`, with
      hand sizes `sizes` and names `names`. */
  function StartPayload(hand: seq<int>, ids: seq<int>, sizes: seq<int>, names: seq<seq<byte>>): seq<byte>
  {
    LE16(|hand|) + [Byte(|ids|), 0] + LE16s(hand) + Int8s(ids) + LE16s(sizes) + NameEntries(names)
  }

  /** `data_length` as `start_game` computes it. */
  function StartLength(handSize: nat, numPlayers: nat, totalNameLength: nat): nat
  {
    SizeofStartFrame + 2 * handSize + numPlayers + 2 * numPlayers + numPlayers + totalNameLength
  }

  /** The layout of the payload: `data_length` bytes, with the fixed fields, the hand, the player
      order, the hand sizes and the names at the offsets the struct gives them. */
  lemma {:induction false} StartLayout(hand: seq<int>, ids: seq<int>, sizes: seq<int>, names: seq<seq<byte>>)
    requires |sizes| == |names| == |ids|
    ensures var p := StartPayload(hand, ids, sizes, names);
      var (h, n) := (|hand|, |ids|);
      |p| == StartLength(h, n, NamesLength(names))
      && p[..2] == LE16(h) && p[2] == Byte(n) && p[3] == 0
      && p[4..4 + 2 * h] == LE16s(hand)
      && p[4 + 2 * h..4 + 2 * h + n] == Int8s(ids)
      && p[4 + 2 * h + n..4 + 2 * h + 3 * n] == LE16s(sizes)
      && p[4 + 2 * h + 3 * n..] == NameEntries(names)
  {
    var p := StartPayload(hand, ids, sizes, names);
    var hd := LE16(|hand|) + [Byte(|ids|), 0];
    var a, b, c, d := LE16s(hand), Int8s(ids), LE16s(sizes), NameEntries(names);
    assert p == hd + a + b + c + d;
    Parts5(hd, a, b, c, d);
    assert p[..2] == p[..4][..2];
  }

  /** One player's entry in each of the three per-player regions. */
  lemma {:induction false} StartStep(ids: seq<int>, sizes: seq<int>, names: seq<seq<byte>>, j: nat)
    requires j < |ids| == |sizes| == |names|
    ensures Int8s(ids[..j]) + [Byte(ids[j])] == Int8s(ids[..j + 1])
    ensures LE16s(sizes[..j]) + LE16(sizes[j]) == LE16s(sizes[..j + 1])
    ensures NameEntries(names[..j]) + ([Byte(|names[j]|)] + names[j]) == NameEntries(names[..j + 1])
    ensures |NameEntries(names[..j + 1])| <= |NameEntries(names)|
  {
    LE16sPrefix(sizes, j);
    NameEntriesPrefix(names, j);
    assert ids[..j + 1] == ids[..j] + [ids[j]];
  }

  lemma {:induction false} LE16sPrefix(xs: seq<int>, j: nat)
    requires j < |xs|
    ensures LE16s(xs[..j]) + LE16(xs[j]) == LE16s(xs[..j + 1])
  {
    assert xs[..j + 1] == xs[..j] + [xs[j]];
    LE16sAppend(xs[..j], [xs[j]]);
    assert LE16s([xs[j]]) == LE16(xs[j]) + LE16s([]);
  }

  lemma {:induction false} NameEntriesPrefix(names: seq<seq<byte>>, j: nat)
    requires j < |names|
    ensures NameEntries(names[..j]) + ([Byte(|names[j]|)] + names[j]) == NameEntries(names[..j + 1])
    ensures |NameEntries(names[..j + 1])| <= |NameEntries(names)|
  {
    assert names[..j + 1] == names[..j] + [names[j]];
    NameEntriesSnoc(names[..j], names[j]);
    assert names == names[..j + 1] + names[j + 1..];
    NameEntriesAppend(names[..j + 1], names[j + 1..]);
  }

  /** The encoder's pass over the seats: each player's id, hand size and name, through the three
      pointers into the per-player regions. */
  method WriteSeats(order: Writer, handSizes: Writer, playerNames: Writer,
                    ids: seq<int>, sizes: seq<int>, names: seq<seq<byte>>)
    requires |ids| == |sizes| == |names|
    requires order != handSizes && order != playerNames && handSizes != playerNames
    requires order.written == handSizes.written == playerNames.written == []
    requires order.capacity == |ids| && handSizes.capacity == 2 * |ids|
    requires playerNames.capacity == |NameEntries(names)|
    modifies order`written, handSizes`written, playerNames`written
    ensures order.written == Int8s(ids)
    ensures handSizes.written == LE16s(sizes)
    ensures playerNames.written == NameEntries(names)
  {
    for j := 0 to |ids|
      invariant order.written == Int8s(ids[..j])
      invariant handSizes.written == LE16s(sizes[..j])
      invariant playerNames.written == NameEntries(names[..j])
    {
      StartStep(ids, sizes, names, j);
      order.Put([Byte(ids[j])]);
      handSizes.Put(LE16(sizes[j]));
      playerNames.Put([Byte(|names[j]|)] + names[j]);
    }
    assert ids[..|ids|] == ids && sizes[..|ids|] == sizes && names[..|ids|] == names;
  }

  /** The Start encoder of `start_game`. The buffer of `data_length` bytes is written through one
      pointer per region: the fixed fields, the hand, the player order, the hand sizes and the
      names. */
  method BuildStart(hand: seq<int>, ids: seq<int>, sizes: seq<int>, names: seq<seq<byte>>, totalNameLength: nat)
    returns (payload: seq<byte>)
    requires |ids| == |sizes| == |names| && totalNameLength == NamesLength(names)
    ensures payload == StartPayload(hand, ids, sizes, names)
    ensures |payload| == StartLength(|hand|, |ids|, totalNameLength)
  {
    var n := |ids|;
    var head := new Writer(SizeofStartFrame);
    var yourHand := new Writer(2 * |hand|);
    var order := new Writer(n);
    var handSizes := new Writer(2 * n);
    var playerNames := new Writer(n + totalNameLength);
    head.Put(LE16(|hand|) + [Byte(n), 0]);
    yourHand.Put(LE16s(hand));
    WriteSeats(order, handSizes, playerNames, ids, sizes, names);
    RegionsMakeStart(hand, ids, sizes, names, head.written, yourHand.written, order.written, handSizes.written,
      playerNames.written);
    payload := head.written + yourHand.written + order.written + handSizes.written + playerNames.written;
  }

  lemma {:induction false} RegionsMakeStart(hand: seq<int>, ids: seq<int>, sizes: seq<int>, names: seq<seq<byte>>,
                                            hd: seq<byte>, a: seq<byte>, b: seq<byte>, c: seq<byte>, d: seq<byte>)
    requires |ids| == |sizes| == |names|
    requires hd == LE16(|hand|) + [Byte(|ids|), 0] && a == LE16s(hand) && b == Int8s(ids)
    requires c == LE16s(sizes) && d == NameEntries(names)
    ensures hd + a + b + c + d == StartPayload(hand, ids, sizes, names)
    ensures |hd + a + b + c + d| == StartLength(|hand|, |ids|, NamesLength(names))
  {
  }

  // ---------------------------------------------------------------------------------------
  // The bot's decoder.

  /** The bot keeps only its hand: `your_hand_size` int16 values after the four fixed bytes. It
      reads nothing but the two size bytes first, so a size of zero or less gives an empty hand
      (the copy loop does not run) whatever else the payload holds; a payload too short for the
      size, or a hand running past the payload, makes the read undefined in the source, and here
      it fails. */
  function DecodeStart(p: seq<byte>): Option<seq<int>>
  {
    if |p| < 2 then None
    else
      var h := AsInt16(p[..2]);
      if h <= 0 then Some([])
      else if |p| < SizeofStartFrame + 2 * h then None
      else Some(AsInt16s(p[SizeofStartFrame..], h))
  }

  /** The bot reads back the hand the server put in its Start frame. */
  lemma {:induction false} StartRoundTrip(hand: seq<int>, ids: seq<int>, sizes: seq<int>, names: seq<seq<byte>>)
    requires AllInt16(hand) && |hand| < 0x8000 && |sizes| == |names| == |ids|
    ensures DecodeStart(StartPayload(hand, ids, sizes, names)) == Some(hand)
  {
    var p := StartPayload(hand, ids, sizes, names);
    StartLayout(hand, ids, sizes, names);
    Int16RoundTrip(|hand|);
    var rest := p[4 + 2 * |hand|..];
    assert p[4..] == LE16s(hand) + rest;
    Int16sRoundTrip(hand, rest);
  }
}
