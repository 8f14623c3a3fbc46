/** The lobby (`get_players`): each accepted connection must send a Connect frame; a valid one is
    answered with the Rules frame carrying the player's id and joins the roster, an invalid one is
    answered with an error frame and dropped. Accepting stops at 128 players. */
module Lobby {
  import opened Wire
  import opened Frames
  import opened Catalog
  import opened Rules

  const MaxPlayers: nat := 128

  /** An accepted client: the three receives of its Connect frame (header, `name_length`, name)
      and whether sending it the Rules payload succeeded. */
  datatype Connection = Connection(header: Recv, connect: Recv, name: Recv, rulesSent: bool)

  /** A roster entry: the connection it came from (standing for its socket), its id and its name. */
  datatype Player = Player(conn: nat, id: int, name: seq<byte>)

  /** How the handshake of one connection ends. */
  datatype Handshake = Refused(reason: string) | Joined(name: seq<byte>)

  /** The lobby's reply to a short receive: "Timed out" on EAGAIN, otherwise `incomplete` (a
      receive error that is not EAGAIN is reported as incomplete too). */
  function LobbyShort(r: Recv, incomplete: string): string
  {
    if r.TimedOut? then "Timed out" else incomplete
  }

  /** The handshake's checks, in the order the source makes them. The frame header's contents are
      not looked at. */
  function CheckConnect(c: Connection): Handshake
  {
    if Short(c.header, HeaderSize) then Refused(LobbyShort(c.header, "Incomplete frame header"))
    else if Short(c.connect, SizeofConnectFrame) then Refused(LobbyShort(c.connect, "Incomplete connect frame"))
    else
      var len := AsInt8(c.connect.data[0]);
      if len < 0 then Refused("Negative name length not allowed")
      else if Short(c.name, len) then Refused(LobbyShort(c.name, "Incomplete connect frame name"))
      else
        var name := c.name.data[..len];
        if 0 in name then Refused("Null character not allowed in name") else Joined(name)
  }

  /** How the handshake ends as written. `data_len` is a `size_t` in all three size checks, so the
      -1 of a failed receive becomes SIZE_MAX and passes them; after a failed Connect or name
      receive the source goes on to read the buffer that receive never wrote. */
  datatype HandshakeAsWritten = Ends(handshake: Handshake) | ReadsUnwritten(buffer: string)

  function CheckConnectAsWritten(c: Connection): HandshakeAsWritten
  {
    if ShortAsWritten(c.header, HeaderSize) then Ends(Refused(LobbyShort(c.header, "Incomplete frame header")))
    else if ShortAsWritten(c.connect, SizeofConnectFrame) then Ends(Refused(LobbyShort(c.connect, "Incomplete connect frame")))
    else if !c.connect.Got? then ReadsUnwritten("connect_frame")
    else
      var len := AsInt8(c.connect.data[0]);
      if len < 0 then Ends(Refused("Negative name length not allowed"))
      else if ShortAsWritten(c.name, len) then Ends(Refused(LobbyShort(c.name, "Incomplete connect frame name")))
      else if !c.name.Got? then (if len == 0 then Ends(Joined([])) else ReadsUnwritten("player_name"))
      else
        var name := c.name.data[..len];
        if 0 in name then Ends(Refused("Null character not allowed in name")) else Ends(Joined(name))
  }

  /** As written, no connection is ever answered "Timed out": a failed header receive is let
      through, and a failed Connect or name receive leads to reading unwritten memory. The corrected
      check refuses each of them, with "Timed out" on a timeout. */
  lemma {:induction false} LobbyTimeoutMissed(c: Connection)
    ensures CheckConnectAsWritten(c) != Ends(Refused("Timed out"))
    ensures !c.connect.Got? && !ShortAsWritten(c.header, HeaderSize) ==> CheckConnectAsWritten(c) == ReadsUnwritten("connect_frame")
    ensures (!ShortAsWritten(c.header, HeaderSize) && !ShortAsWritten(c.connect, SizeofConnectFrame) && c.connect.Got?
             && |c.connect.data| >= 1 && AsInt8(c.connect.data[0]) > 0 && !c.name.Got?)
      ==> CheckConnectAsWritten(c) == ReadsUnwritten("player_name")
    ensures c.header.TimedOut? ==> CheckConnect(c) == Refused("Timed out")
    ensures !Short(c.header, HeaderSize) && c.connect.TimedOut? ==> CheckConnect(c) == Refused("Timed out")
    ensures (!Short(c.header, HeaderSize) && !Short(c.connect, SizeofConnectFrame) && AsInt8(c.connect.data[0]) >= 0
             && c.name.TimedOut?)
      ==> CheckConnect(c) == Refused("Timed out")
  {
    ShortAsWrittenMissesFailure(c.header, HeaderSize);
    ShortAsWrittenMissesFailure(c.connect, SizeofConnectFrame);
    if c.connect.Got? && |c.connect.data| >= 1 {
      var len := AsInt8(c.connect.data[0]);
      if len >= 0 {
        ShortAsWrittenMissesFailure(c.name, len);
      }
    }
  }

  /** On receives that delivered bytes, the check as written and the corrected one agree. */
  lemma {:induction false} CheckConnectAgrees(c: Connection)
    requires c.header.Got? && c.connect.Got? && c.name.Got?
    requires |c.header.data| < 0x1_0000_0000_0000_0000 && |c.connect.data| < 0x1_0000_0000_0000_0000
    requires |c.name.data| < 0x1_0000_0000_0000_0000
    ensures CheckConnectAsWritten(c) == Ends(CheckConnect(c))
  {
    ShortAsWrittenMissesFailure(c.header, HeaderSize);
    ShortAsWrittenMissesFailure(c.connect, SizeofConnectFrame);
    if |c.connect.data| >= 1 {
      var len := AsInt8(c.connect.data[0]);
      if len >= 0 {
        ShortAsWrittenMissesFailure(c.name, len);
      }
    }
  }

  /** The receives of a connection whose client sent `bytes` in one piece and whose receives each
      got what they asked for. */
  function Arrives(bytes: seq<byte>): Connection
    requires |bytes| >= HeaderSize + SizeofConnectFrame
  {
    var len := AsInt8(bytes[HeaderSize]);
    var end := if len < 0 then HeaderSize + 1 else HeaderSize + 1 + len;
    var nameBytes := if end <= |bytes| then bytes[HeaderSize + 1..end] else bytes[HeaderSize + 1..];
    Connection(Got(bytes[..HeaderSize]), Got(bytes[HeaderSize..HeaderSize + 1]), Got(nameBytes), true)
  }

  /** A well-formed Connect frame (the bot's) is accepted, with the name recovered. */
  lemma {:induction false} ConnectAccepted(name: seq<byte>)
    requires |name| < 128 && 0 !in name
    ensures CheckConnect(Arrives(Encode(ConnectFrame(name)))) == Joined(name)
  {
    Int8RoundTrip(|name|);
    ArrivesSplit(Header(TypeConnect, 1 + |name|), name);
  }

  lemma {:induction false} ArrivesSplit(h: seq<byte>, name: seq<byte>)
    requires |h| == HeaderSize && |name| < 128
    ensures var c := Arrives(h + ([Byte(|name|)] + name));
      c.header == Got(h) && c.connect == Got([Byte(|name|)]) && c.name == Got(name) && c.rulesSent
  {
    var bytes := h + ([Byte(|name|)] + name);
    assert bytes[HeaderSize] == Byte(|name|);
    assert bytes[HeaderSize + 1..] == name;
  }

  /** A name that fits the Connect frame and holds no zero byte is what an accepted connection
      yields, and only such a name: a negative `name_length` and a zero byte before the declared
      length are refused. */
  lemma {:induction false} JoinedNames(c: Connection)
    ensures CheckConnect(c).Joined? ==>
      var name := CheckConnect(c).name;
      |name| < 128 && 0 !in name && c.connect.Got? && |c.connect.data| >= 1
      && |name| == AsInt8(c.connect.data[0]) && name == c.name.data[..|name|]
    ensures !Short(c.header, HeaderSize) && c.connect.Got? && |c.connect.data| >= 1 && AsInt8(c.connect.data[0]) < 0
      ==> CheckConnect(c) == Refused("Negative name length not allowed")
    ensures !Short(c.header, HeaderSize) && c.connect.Got? && |c.connect.data| >= 1
      && 0 <= AsInt8(c.connect.data[0]) && c.name.Got? && |c.name.data| >= AsInt8(c.connect.data[0])
      && 0 in c.name.data[..AsInt8(c.connect.data[0])]
      ==> CheckConnect(c) == Refused("Null character not allowed in name")
  {
  }

  /** The Rules payload with `player_id` set (`rules->player_id = *num_players`). */
  function WithPlayerId(rules: seq<byte>, id: int): (r: seq<byte>)
    requires |rules| > 0
    ensures |r| == |rules| && r[1..] == rules[1..]
  {
    rules[0 := Byte(id)]
  }

  /** Setting the id byte of the encoder's payload gives the payload for that player. */
  lemma {:induction false} WithPlayerIdPayload(cats: seq<seq<seq<byte>>>, id: int)
    ensures WithPlayerId(RulesPayload(0, cats), id) == RulesPayload(id, cats)
  {
    var r := RulesPayload(0, cats);
    assert r[1..] == RulesPayload(id, cats)[1..];
  }

  /** The roster so far and the frames sent to the connections (addressed by connection number). */
  datatype LobbyState = LobbyState(players: seq<Player>, sent: seq<Message>)

  /** One accepted connection: refused with its error frame, or sent the Rules frame and added to
      the roster with the next id. A failed send of the Rules payload drops the connection. */
  function Admit(l: LobbyState, rules: seq<byte>, i: nat, c: Connection): LobbyState
    requires |rules| > 0
  {
    match CheckConnect(c)
    case Refused(reason) => LobbyState(l.players, l.sent + [Message(i, ErrorFrame(reason))])
    case Joined(name) =>
      var id := |l.players|;
      if c.rulesSent then
        LobbyState(l.players + [Player(i, id, name)], l.sent + [Message(i, RulesFrame(WithPlayerId(rules, id)))])
      else l
  }

  /** The lobby after the first k connections, no more handled once the roster holds 128 players. */
  function LobbyAfter(rules: seq<byte>, conns: seq<Connection>, k: nat): LobbyState
    requires |rules| > 0 && k <= |conns|
  {
    if k == 0 then LobbyState([], [])
    else
      var l := LobbyAfter(rules, conns, k - 1);
      if |l.players| >= MaxPlayers then l else Admit(l, rules, k - 1, conns[k - 1])
  }

  /** What the roster guarantees: at most 128 players, with ids 0, 1, 2, ... in joining order,
      connections in arrival order, valid names, and each player sent the Rules payload carrying
      its own id. */
  predicate Roster(rules: seq<byte>, l: LobbyState, k: nat)
    requires |rules| > 0
  {
    |l.players| <= MaxPlayers
    && (forall j :: 0 <= j < |l.players| ==> l.players[j].id == j && l.players[j].conn < k)
    && (forall j :: 0 <= j < |l.players| ==> |l.players[j].name| < 128 && 0 !in l.players[j].name)
    && (forall i, j :: 0 <= i < j < |l.players| ==> l.players[i].conn < l.players[j].conn)
    && (forall j :: 0 <= j < |l.players| ==>
          Message(l.players[j].conn, RulesFrame(WithPlayerId(rules, j))) in l.sent)
  }

  lemma {:induction false} LobbyRoster(rules: seq<byte>, conns: seq<Connection>, k: nat)
    requires |rules| > 0 && k <= |conns|
    ensures Roster(rules, LobbyAfter(rules, conns, k), k)
  {
    if k > 0 {
      var l := LobbyAfter(rules, conns, k - 1);
      LobbyRoster(rules, conns, k - 1);
      if |l.players| < MaxPlayers {
        AdmitKeepsRoster(rules, l, k, conns[k - 1]);
      } else {
        RosterLater(rules, l, k);
      }
    }
  }

  lemma {:induction false} RosterLater(rules: seq<byte>, l: LobbyState, k: nat)
    requires |rules| > 0 && k > 0 && Roster(rules, l, k - 1)
    ensures Roster(rules, l, k)
  {
  }

  /** Handling connection k - 1 keeps the roster's guarantees, counting that connection. */
  lemma {:induction false} AdmitKeepsRoster(rules: seq<byte>, l: LobbyState, k: nat, c: Connection)
    requires |rules| > 0 && k > 0 && Roster(rules, l, k - 1) && |l.players| < MaxPlayers
    ensures Roster(rules, Admit(l, rules, k - 1, c), k)
  {
    var l' := Admit(l, rules, k - 1, c);
    if CheckConnect(c).Joined? && c.rulesSent {
      JoinedNames(c);
      forall j | 0 <= j < |l'.players|
        ensures Message(l'.players[j].conn, RulesFrame(WithPlayerId(rules, j))) in l'.sent
      {
        if j < |l.players| {
          assert l'.players[j] == l.players[j];
        }
      }
    } else {
      RosterLater(rules, l, k);
    }
  }

  /** Once the roster is full, later connections change nothing. */
  lemma {:induction false} LobbyFull(rules: seq<byte>, conns: seq<Connection>, i: nat, k: nat)
    requires |rules| > 0 && i <= k <= |conns| && |LobbyAfter(rules, conns, i).players| >= MaxPlayers
    ensures LobbyAfter(rules, conns, k) == LobbyAfter(rules, conns, i)
    decreases k
  {
    if i < k {
      LobbyFull(rules, conns, i, k - 1);
    }
  }

  /** `get_players` over the connections accepted during the lobby window, in order. */
  method GetPlayers(rules: seq<byte>, conns: seq<Connection>) returns (players: seq<Player>, sent: seq<Message>)
    requires |rules| >= SizeofRulesFrame
    ensures LobbyState(players, sent) == LobbyAfter(rules, conns, |conns|)
    ensures Roster(rules, LobbyState(players, sent), |conns|)
  {
    players, sent := [], [];
    var i := 0;
    while i < |conns| && |players| < MaxPlayers
      invariant i <= |conns|
      decreases |conns| - i
      invariant LobbyState(players, sent) == LobbyAfter(rules, conns, i)
    {
      var c := conns[i];
      match CheckConnect(c) {
        case Refused(reason) =>
          sent := sent + [Message(i, ErrorFrame(reason))];
        case Joined(name) =>
          if c.rulesSent {
            sent := sent + [Message(i, RulesFrame(WithPlayerId(rules, |players|)))];
            players := players + [Player(i, |players|, name)];
          }
      }
      i := i + 1;
    }
    if i < |conns| {
      LobbyFull(rules, conns, i, |conns|);
    }
    LobbyRoster(rules, conns, |conns|);
  }
}
