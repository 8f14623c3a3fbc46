/** The Rules frame: what the server tells every player about the game when it admits them, and
    how the bot reads it back. The payload is `player_id`, `num_categories`, `num_cards`, the
    per-category card counts, the card ids, then the length-prefixed card names. */
module Rules {
  import opened Wire
  import opened Catalog

  /** `sizeof(RulesFrame_t)`: `player_id`, `num_categories` and `num_cards`. */
  const SizeofRulesFrame: nat := 4

  predicate NamesFit(ns: seq<seq<byte>>)
  {
    forall k :: 0 <= k < |ns| ==> |ns[k]| < 128
  }

  /** The total length of some names. */
  function NamesLength(ns: seq<seq<byte>>): nat
  {
    if ns == [] then 0 else |ns[0]| + NamesLength(ns[1..])
  }

  /** Each name as a length byte followed by exactly that many bytes, in order. */
  function NameEntries(ns: seq<seq<byte>>): (r: seq<byte>)
    ensures |r| == |ns| + NamesLength(ns)
  {
    if ns == [] then [] else [Byte(|ns[0]|)] + ns[0] + NameEntries(ns[1..])
  }

  lemma {:induction false} NameEntriesAppend(xs: seq<seq<byte>>, ys: seq<seq<byte>>)
    ensures NameEntries(xs + ys) == NameEntries(xs) + NameEntries(ys)
    ensures NamesLength(xs + ys) == NamesLength(xs) + NamesLength(ys)
  {
    if xs == [] {
      assert xs + ys == ys;
    } else {
      assert (xs + ys)[1..] == xs[1..] + ys;
      NameEntriesAppend(xs[1..], ys);
    }
  }

  lemma {:induction false} NameEntriesSnoc(xs: seq<seq<byte>>, n: seq<byte>)
    ensures NameEntries(xs + [n]) == NameEntries(xs) + [Byte(|n|)] + n
    ensures NamesLength(xs + [n]) == NamesLength(xs) + |n|
  {
    NameEntriesAppend(xs, [n]);
    assert NameEntries([n]) == [Byte(|n|)] + n + NameEntries([]);
  }

  /** The Rules payload for player `playerId`, with the catalog `cats`. */
  function RulesPayload(playerId: int, cats: seq<seq<seq<byte>>>): seq<byte>
  {
    var flat := Flatten(cats);
    [Byte(playerId), Byte(|cats|)] + LE16(|flat|) + LE16s(Counts(cats)) + LE16s(Span(0, |flat|)) + NameEntries(flat)
  }

  /** `rules_len` as the server computes it. */
  function RulesLength(cats: seq<seq<seq<byte>>>): nat
  {
    var n := |Flatten(cats)|;
    SizeofRulesFrame + 2 * |cats| + 2 * n + n + NamesLength(Flatten(cats))
  }

  /** The layout of the payload: its length is 4 + 2C + 2N + N + the sum of the name lengths; then
      the header fields, the counts, the id array and the names, in that order. */
  lemma {:induction false} RulesLayout(playerId: int, cats: seq<seq<seq<byte>>>)
    ensures var p := RulesPayload(playerId, cats);
      var (c, n) := (|cats|, |Flatten(cats)|);
      |p| == RulesLength(cats)
      && p[0] == Byte(playerId) && p[1] == Byte(c) && p[2..4] == LE16(n)
      && p[4..4 + 2 * c] == LE16s(Counts(cats))
      && p[4 + 2 * c..4 + 2 * c + 2 * n] == LE16s(Span(0, n))
      && p[4 + 2 * c + 2 * n..] == NameEntries(Flatten(cats))
  {
    var p := RulesPayload(playerId, cats);
    var c, n := |cats|, |Flatten(cats)|;
    var hdr := [Byte(playerId), Byte(c)] + LE16(n);
    var cs := LE16s(Counts(cats));
    var ids := LE16s(Span(0, n));
    var nm := NameEntries(Flatten(cats));
    assert p == hdr + cs + ids + nm;
    Parts(hdr, cs, ids, nm);
    assert p[2..4] == p[..4][2..4];
  }

  /** The id array holds card id k at position k. */
  lemma {:induction false} RulesIdAt(playerId: int, cats: seq<seq<seq<byte>>>, k: nat)
    requires k < |Flatten(cats)|
    ensures var (p, c) := (RulesPayload(playerId, cats), |cats|);
      4 + 2 * c + 2 * k + 2 <= |p| && p[4 + 2 * c + 2 * k..4 + 2 * c + 2 * k + 2] == LE16(k)
  {
    var p := RulesPayload(playerId, cats);
    var n := |Flatten(cats)|;
    RulesLayout(playerId, cats);
    Int16Entry(p, 4 + 2 * |cats|, Span(0, n), k);
  }

  /** Entry k of an array of `int16_t` values stored at byte `o`. */
  lemma {:induction false} Int16Entry(p: seq<byte>, o: nat, xs: seq<int>, k: nat)
    requires k < |xs| && o + 2 * |xs| <= |p| && p[o..o + 2 * |xs|] == LE16s(xs)
    ensures p[o + 2 * k..o + 2 * k + 2] == LE16(xs[k])
  {
    Int16sAt(xs, k);
    SliceWithin(p, o, LE16s(xs), 2 * k, 2 * k + 2);
  }

  lemma {:induction false} SliceWithin(p: seq<byte>, o: nat, q: seq<byte>, i: nat, j: nat)
    requires o + |q| <= |p| && p[o..o + |q|] == q && i <= j <= |q|
    ensures p[o + i..o + j] == q[i..j]
  {
    SliceOfSlice(p, o, |q|, i, j);
  }

  /** `main`'s first pass over the catalog: the number of cards and the total length of their names. */
  method CountCards(cats: seq<seq<seq<byte>>>) returns (totalCards: nat, allNamesLen: nat)
    ensures totalCards == |Flatten(cats)| && allNamesLen == NamesLength(Flatten(cats))
  {
    totalCards, allNamesLen := 0, 0;
    for i := 0 to |cats|
      invariant totalCards == |Flatten(cats[..i])| && allNamesLen == NamesLength(Flatten(cats[..i]))
    {
      assert Flatten(cats[..i]) + cats[i][..0] == Flatten(cats[..i]);
      for j := 0 to |cats[i]|
        invariant totalCards == |Flatten(cats[..i]) + cats[i][..j]|
        invariant allNamesLen == NamesLength(Flatten(cats[..i]) + cats[i][..j])
      {
        assert cats[i][..j + 1] == cats[i][..j] + [cats[i][j]];
        assert Flatten(cats[..i]) + cats[i][..j + 1] == (Flatten(cats[..i]) + cats[i][..j]) + [cats[i][j]];
        NameEntriesSnoc(Flatten(cats[..i]) + cats[i][..j], cats[i][j]);
        totalCards := totalCards + 1;
        allNamesLen := allNamesLen + |cats[i][j]|;
      }
      assert cats[i][..|cats[i]|] == cats[i];
      FlattenNext(cats, i);
    }
    assert cats[..|cats|] == cats;
  }

  /** The inner loop of the Rules encoder for one category: each card's id goes into the id array
      and its length byte and name into the names area. */
  method WriteCategory(ids: Writer, names: Writer, cat: seq<seq<byte>>, firstId: int)
    requires ids != names
    requires |ids.written| + 2 * |cat| <= ids.capacity
    requires |names.written| + |NameEntries(cat)| <= names.capacity
    modifies ids`written, names`written
    ensures ids.written == old(ids.written) + LE16s(Span(firstId, |cat|))
    ensures names.written == old(names.written) + NameEntries(cat)
  {
    for j := 0 to |cat|
      invariant |ids.written| == |old(ids.written)| + 2 * j
      invariant |names.written| + |NameEntries(cat[j..])| <= names.capacity
      invariant ids.written == old(ids.written) + LE16s(Span(firstId, j))
      invariant names.written + NameEntries(cat[j..]) == old(names.written) + NameEntries(cat)
    {
      ghost var rest := NameEntries(cat[j + 1..]);
      EntriesFrom(cat, j);
      IdsNext(firstId, j);
      ids.Put(LE16(firstId + j));
      ghost var w := names.written;
      names.Put([Byte(|cat[j]|)] + cat[j]);
      assert names.written + rest == w + ([Byte(|cat[j]|)] + cat[j] + rest);
    }
  }

  lemma {:induction false} EntriesFrom(cat: seq<seq<byte>>, j: nat)
    requires j < |cat|
    ensures NameEntries(cat[j..]) == [Byte(|cat[j]|)] + cat[j] + NameEntries(cat[j + 1..])
  {
    assert cat[j..][1..] == cat[j + 1..];
  }

  lemma {:induction false} IdsNext(first: int, j: nat)
    ensures LE16s(Span(first, j + 1)) == LE16s(Span(first, j)) + LE16(first + j)
  {
    assert Span(first, j + 1) == Span(first, j) + [first + j];
    LE16sAppend(Span(first, j), [first + j]);
    assert LE16s([first + j]) == LE16(first + j) + LE16s([]);
  }

  /** One step of the encoder's outer loop, on what the three variable regions hold before it:
      appending category i's count and names gives the regions for the first i + 1 categories. */
  lemma {:induction false} RulesStep(cats: seq<seq<seq<byte>>>, i: nat, sw: seq<byte>, first: nat, nw: seq<byte>)
    requires i < |cats|
    requires sw == LE16s(Counts(cats[..i])) && first == |Flatten(cats[..i])|
    requires nw == NameEntries(Flatten(cats[..i]))
    ensures sw + LE16(|cats[i]|) == LE16s(Counts(cats[..i + 1]))
    ensures nw + NameEntries(cats[i]) == NameEntries(Flatten(cats[..i + 1]))
    ensures first + |cats[i]| == |Flatten(cats[..i + 1])| <= |Flatten(cats)|
    ensures |nw| + |NameEntries(cats[i])| <= |NameEntries(Flatten(cats))|
  {
    CountsStep(cats, i);
    NamesStep(cats, i);
  }

  lemma {:induction false} CountsStep(cats: seq<seq<seq<byte>>>, i: nat)
    requires i < |cats|
    ensures LE16s(Counts(cats[..i])) + LE16(|cats[i]|) == LE16s(Counts(cats[..i + 1]))
  {
    FlattenNext(cats, i);
    LE16sAppend(Counts(cats[..i]), [|cats[i]|]);
    assert LE16s([|cats[i]|]) == LE16(|cats[i]|) + LE16s([]);
  }

  lemma {:induction false} NamesStep(cats: seq<seq<seq<byte>>>, i: nat)
    requires i < |cats|
    ensures NameEntries(Flatten(cats[..i])) + NameEntries(cats[i]) == NameEntries(Flatten(cats[..i + 1]))
    ensures |Flatten(cats[..i])| + |cats[i]| == |Flatten(cats[..i + 1])| <= |Flatten(cats)|
    ensures |NameEntries(Flatten(cats[..i + 1]))| <= |NameEntries(Flatten(cats))|
  {
    FlattenNext(cats, i);
    CategoryWithin(cats, i);
    NameEntriesAppend(Flatten(cats[..i]), cats[i]);
    assert cats == cats[..i + 1] + cats[i + 1..];
    FlattenAppend(cats[..i + 1], cats[i + 1..]);
    NameEntriesAppend(Flatten(cats[..i + 1]), Flatten(cats[i + 1..]));
  }

  lemma {:induction false} IdsSplit(a: nat, b: nat, iw: seq<byte>)
    requires iw == LE16s(Span(0, a))
    ensures iw + LE16s(Span(a, b)) == LE16s(Span(0, a + b))
  {
    SpanSplit(0, a, b);
    LE16sAppend(Span(0, a), Span(a, b));
  }

  /** The encoder's outer loop: for each category, its count into the counts region, then its
      card ids and names through `WriteCategory`. */
  method WriteCatalog(sizes: Writer, ids: Writer, names: Writer, cats: seq<seq<seq<byte>>>)
    requires sizes != ids && sizes != names && ids != names
    requires sizes.written == ids.written == names.written == []
    requires sizes.capacity == 2 * |cats| && ids.capacity == 2 * |Flatten(cats)|
    requires names.capacity == |NameEntries(Flatten(cats))|
    modifies sizes`written, ids`written, names`written
    ensures sizes.written == LE16s(Counts(cats))
    ensures ids.written == LE16s(Span(0, |Flatten(cats)|))
    ensures names.written == NameEntries(Flatten(cats))
  {
    var cardIdx := 0;
    for i := 0 to |cats|
      invariant Regions(sizes, ids, names, cats, i, cardIdx)
    {
      cardIdx := WriteCatalogEntry(sizes, ids, names, cats, i, cardIdx);
    }
    assert cats[..|cats|] == cats;
  }

  /** What the three variable regions hold once the first i categories are written. */
  ghost predicate Regions(sizes: Writer, ids: Writer, names: Writer, cats: seq<seq<seq<byte>>>, i: nat, cardIdx: nat)
    reads sizes, ids, names
  {
    i <= |cats|
    && sizes.capacity == 2 * |cats| && ids.capacity == 2 * |Flatten(cats)|
    && names.capacity == |NameEntries(Flatten(cats))|
    && sizes.written == LE16s(Counts(cats[..i]))
    && cardIdx == |Flatten(cats[..i])|
    && ids.written == LE16s(Span(0, cardIdx))
    && names.written == NameEntries(Flatten(cats[..i]))
  }

  /** One turn of the outer loop: category i's count, then its ids and names. */
  method WriteCatalogEntry(sizes: Writer, ids: Writer, names: Writer, cats: seq<seq<seq<byte>>>, i: nat, cardIdx: nat)
    returns (next: nat)
    requires sizes != ids && sizes != names && ids != names
    requires i < |cats| && Regions(sizes, ids, names, cats, i, cardIdx)
    modifies sizes`written, ids`written, names`written
    ensures Regions(sizes, ids, names, cats, i + 1, next)
  {
    ghost var sw, iw, nw := sizes.written, ids.written, names.written;
    RulesStep(cats, i, sw, cardIdx, nw);
    IdsSplit(cardIdx, |cats[i]|, iw);
    sizes.Put(LE16(|cats[i]|));
    WriteCategory(ids, names, cats[i], cardIdx);
    assert sizes.written == sw + LE16(|cats[i]|);
    assert ids.written == iw + LE16s(Span(cardIdx, |cats[i]|));
    assert names.written == nw + NameEntries(cats[i]);
    next := cardIdx + |cats[i]|;
  }

  /** The Rules encoder. The payload buffer of `rules_len` bytes is written through four pointers,
      one per region: the fixed fields, the counts, the id array and the names. Player id 0 is a
      placeholder the lobby overwrites. */
  method BuildRules(cats: seq<seq<seq<byte>>>) returns (rules: seq<byte>)
    requires NamesFit(Flatten(cats))
    ensures rules == RulesPayload(0, cats) && |rules| == RulesLength(cats)
  {
    var totalCards, allNamesLen := CountCards(cats);
    var c := |cats|;
    var rulesLen := SizeofRulesFrame + c * 2 + totalCards * 2 + totalCards + allNamesLen;
    var head := new Writer(SizeofRulesFrame);
    var sizes := new Writer(2 * c);
    var ids := new Writer(2 * totalCards);
    var names := new Writer(totalCards + allNamesLen);
    head.Put([0, Byte(c)] + LE16(totalCards));
    WriteCatalog(sizes, ids, names, cats);
    RegionsMakePayload(cats, head.written, sizes.written, ids.written, names.written);
    rules := head.written + sizes.written + ids.written + names.written;
    assert |rules| == rulesLen;
  }

  lemma {:induction false} RegionsMakePayload(cats: seq<seq<seq<byte>>>, h: seq<byte>, s: seq<byte>, i: seq<byte>, n: seq<byte>)
    requires h == [0, Byte(|cats|)] + LE16(|Flatten(cats)|) && s == LE16s(Counts(cats))
    requires i == LE16s(Span(0, |Flatten(cats)|)) && n == NameEntries(Flatten(cats))
    ensures h + s + i + n == RulesPayload(0, cats)
    ensures |h + s + i + n| == RulesLength(cats)
  {
    assert Byte(0) == 0;
  }

  // ---------------------------------------------------------------------------------------
  // The bot's decoder.

  /** What the bot keeps from a Rules frame. */
  datatype RulesInfo = RulesInfo(playerId: int, numCards: int, numCategories: int, counts: seq<int>, names: seq<seq<byte>>)

  /** Reading `k` length-prefixed names starting at byte `o`, the cursor `card_name_data`. A length
      byte is a (signed) `char`. A negative length or a name running past the payload makes the read
      undefined in the source; here it fails. */
  function ReadNamesAt(p: seq<byte>, o: nat, k: nat): Option<seq<seq<byte>>>
    decreases k
  {
    if k == 0 then Some([])
    else if o >= |p| then None
    else
      var len := AsInt8(p[o]);
      if len < 0 || o + 1 + len > |p| then None
      else
        match ReadNamesAt(p, o + 1 + len, k - 1)
        case None => None
        case Some(rest) => Some([p[o + 1..o + 1 + len]] + rest)
  }

  /** The bot's reading of a Rules payload: the fixed fields, then the rest. */
  function DecodeRules(p: seq<byte>): Option<RulesInfo>
  {
    if |p| < SizeofRulesFrame then None
    else DecodeCatalog(p, AsInt8(p[0]), AsInt8(p[1]), AsInt16(p[2..4]))
  }

  /** The rest of a Rules payload once `player_id` (id), `num_categories` (c) and `num_cards` (n) are
      read. The counts loop runs c times (none when it is negative) and the names loop n times; their
      start is found by skipping 2C + 2N bytes past the fixed part, without reading the id array. */
  function DecodeCatalog(p: seq<byte>, id: int, c: int, n: int): Option<RulesInfo>
    requires |p| >= SizeofRulesFrame
  {
    var cs := if c < 0 then 0 else c;
    var o := SizeofRulesFrame + 2 * c + 2 * n;
    if |p| < SizeofRulesFrame + 2 * cs then None
    else if n > 0 && o < 0 then None
    else
      var names := if n <= 0 then Some([]) else ReadNamesAt(p, o, n);
      match names
      case None => None
      case Some(ns) => Some(RulesInfo(id, n, c, AsInt16s(p[4..], cs), ns))
  }

  /** The names decoder reads back what the encoder wrote, whatever precedes or follows it. */
  lemma {:induction false} ReadNamesEntries(p: seq<byte>, o: nat, ns: seq<seq<byte>>)
    requires NamesFit(ns) && o + |NameEntries(ns)| <= |p| && p[o..o + |NameEntries(ns)|] == NameEntries(ns)
    ensures ReadNamesAt(p, o, |ns|) == Some(ns)
    decreases |ns|
  {
    if ns != [] {
      var len := |ns[0]|;
      NamesFitTail(ns);
      EntryAt(p, o, ns[0], NameEntries(ns[1..]));
      ReadNamesEntries(p, o + 1 + len, ns[1..]);
      assert [ns[0]] + ns[1..] == ns;
    }
  }

  /** The first entry of a names region: its length byte, its name, and the entries after it. */
  lemma {:induction false} EntryAt(p: seq<byte>, o: nat, name: seq<byte>, r: seq<byte>)
    requires |name| < 128 && o + 1 + |name| + |r| <= |p|
    requires p[o..o + 1 + |name| + |r|] == [Byte(|name|)] + name + r
    ensures AsInt8(p[o]) == |name| && p[o + 1..o + 1 + |name|] == name
    ensures p[o + 1 + |name|..o + 1 + |name| + |r|] == r
  {
    var e := [Byte(|name|)] + name + r;
    Parts3([Byte(|name|)], name, r);
    SliceOfSlice(p, o, |e|, 1, 1 + |name|);
    SliceOfSlice(p, o, |e|, 1 + |name|, |e|);
    assert p[o] == e[0];
  }

  lemma {:induction false} ReadNamesSuffix(p: seq<byte>, o: nat, ns: seq<seq<byte>>)
    requires NamesFit(ns) && o <= |p| && p[o..] == NameEntries(ns)
    ensures ReadNamesAt(p, o, |ns|) == Some(ns)
  {
    SuffixSlice(p, o, NameEntries(ns));
    ReadNamesEntries(p, o, ns);
  }

  lemma {:induction false} NamesFitTail(ns: seq<seq<byte>>)
    requires ns != [] && NamesFit(ns)
    ensures NamesFit(ns[1..]) && |ns[0]| < 128
  {
    forall k | 0 <= k < |ns[1..]|
      ensures |ns[1..][k]| < 128
    {
      assert ns[1..][k] == ns[k + 1];
    }
  }

  /** The fixed fields of a payload: the player id, the number of categories and the number of cards. */
  lemma {:induction false} HeadFields(id: int, c: int, n: int, rest: seq<byte>)
    requires IsInt8(id) && IsInt8(c) && IsInt16(n)
    ensures var p := [Byte(id), Byte(c)] + LE16(n) + rest;
      AsInt8(p[0]) == id && AsInt8(p[1]) == c && AsInt16(p[2..4]) == n && p[4..] == rest
  {
    var p := [Byte(id), Byte(c)] + LE16(n) + rest;
    assert p[2..4] == LE16(n);
    Int8RoundTrip(id);
    Int8RoundTrip(c);
    Int16RoundTrip(n);
  }

  /** The fields of a payload laid out as the encoder lays it out. */
  lemma {:induction false} LayoutFields(p: seq<byte>, id: int, counts: seq<int>, n: nat, ids: seq<byte>, nm: seq<byte>)
    requires 0 <= id < 128 && |counts| < 128 && AllInt16(counts) && n <= 0x7FFF && |ids| == 2 * n
    requires p == [Byte(id), Byte(|counts|)] + LE16(n) + (LE16s(counts) + (ids + nm))
    ensures |p| >= SizeofRulesFrame + 2 * |counts| && AsInt8(p[0]) == id && AsInt8(p[1]) == |counts|
    ensures AsInt16(p[2..4]) == n && AsInt16s(p[4..], |counts|) == counts
    ensures p[SizeofRulesFrame + 2 * |counts| + 2 * n..] == nm
  {
    HeadFields(id, |counts|, n, LE16s(counts) + (ids + nm));
    Int16sRoundTrip(counts, ids + nm);
    assert p[4..][2 * |counts| + 2 * n..] == nm;
  }

  /** The decoder's result from the values its fields decode to: the fixed fields, C counts, and N
      name entries after the 2N bytes of ids it skips. */
  lemma {:induction false} DecodeFields(p: seq<byte>, id: int, counts: seq<int>, names: seq<seq<byte>>)
    requires var (c, n) := (|counts|, |names|);
      |p| >= SizeofRulesFrame + 2 * c && AsInt8(p[0]) == id && AsInt8(p[1]) == c && AsInt16(p[2..4]) == n
      && AsInt16s(p[4..], c) == counts
      && SizeofRulesFrame + 2 * c + 2 * n <= |p| && p[SizeofRulesFrame + 2 * c + 2 * n..] == NameEntries(names)
    requires NamesFit(names)
    ensures DecodeRules(p) == Some(RulesInfo(id, |names|, |counts|, counts, names))
  {
    var o := SizeofRulesFrame + 2 * |counts| + 2 * |names|;
    ReadNamesSuffix(p, o, names);
    CatalogFields(p, id, counts, names);
  }

  lemma {:induction false} CatalogFields(p: seq<byte>, id: int, counts: seq<int>, names: seq<seq<byte>>)
    requires |p| >= SizeofRulesFrame + 2 * |counts| && AsInt16s(p[4..], |counts|) == counts
    requires ReadNamesAt(p, SizeofRulesFrame + 2 * |counts| + 2 * |names|, |names|) == Some(names)
    ensures DecodeCatalog(p, id, |counts|, |names|) == Some(RulesInfo(id, |names|, |counts|, counts, names))
  {
    if names == [] {
      assert DecodeCatalog(p, id, |counts|, 0) == Some(RulesInfo(id, 0, |counts|, counts, []));
    }
  }

  /** Decoding the server's Rules payload gives back the player id, the numbers of cards and
      categories, the per-category counts and the card names in category-major order. */
  lemma {:induction false} RulesRoundTrip(playerId: int, cats: seq<seq<seq<byte>>>)
    requires 0 <= playerId < 128 && |cats| < 128 && |Flatten(cats)| <= 0x7FFF
    requires NamesFit(Flatten(cats))
    ensures DecodeRules(RulesPayload(playerId, cats))
      == Some(RulesInfo(playerId, |Flatten(cats)|, |cats|, Counts(cats), Flatten(cats)))
  {
    var flat := Flatten(cats);
    assert AllInt16(Counts(cats)) by {
      forall i | 0 <= i < |cats|
        ensures IsInt16(Counts(cats)[i])
      {
        CategoryWithin(cats, i);
      }
    }
    var p := RulesPayload(playerId, cats);
    var (cs, ids, nm) := (LE16s(Counts(cats)), LE16s(Span(0, |flat|)), NameEntries(flat));
    Assoc4([Byte(playerId), Byte(|cats|)] + LE16(|flat|), cs, ids, nm);
    LayoutFields(p, playerId, Counts(cats), |flat|, ids, nm);
    DecodeFields(p, playerId, Counts(cats), flat);
  }
}
