/** `read_settings_file`: the settings file is a port number on the first line, a blank second
    line, then categories of card names, one name per line, separated by runs of blank lines.
    The file is given as the lines `fgets` returns, each with its trailing newline. */
module Settings {
  import opened Wire
  import opened Catalog

  type Line = seq<byte>
  type Name = seq<byte>

  /** A line longer than this (counting its newline) is skipped, since its name length would not
      fit the `int8_t` length byte of the Rules frame. */
  const MaxLineLength: nat := 127
  /** The most cards an `int16_t` card count can hold. */
  const MaxCards: nat := 0x7FFF
  /** The most categories the `int8_t` category count can hold. */
  const MaxCategories: nat := 127

  /** `strlen`: the number of bytes before the first NUL. */
  function StrLen(s: seq<byte>): (n: nat)
    ensures n <= |s| && (n < |s| ==> s[n] == 0)
    ensures forall i :: 0 <= i < n ==> s[i] != 0
  {
    if s == [] || s[0] == 0 then 0 else 1 + StrLen(s[1..])
  }

  // ---------------------------------------------------------------------------------------
  // `atoi` on the first line, then the conversion to the `uint16_t` port field.

  predicate IsSpace(b: byte) { b == 32 || 9 <= b <= 13 }
  predicate IsDigit(b: byte) { 48 <= b <= 57 }

  function SkipSpace(s: seq<byte>): (r: seq<byte>)
    ensures |r| <= |s| && r == s[|s| - |r|..]
    ensures r == [] || !IsSpace(r[0])
  {
    if s != [] && IsSpace(s[0]) then SkipSpace(s[1..]) else s
  }

  /** The number of leading decimal digits. */
  function DigitRun(s: seq<byte>): (n: nat)
    ensures n <= |s| && (n < |s| ==> !IsDigit(s[n]))
    ensures forall i :: 0 <= i < n ==> IsDigit(s[i])
  {
    if s != [] && IsDigit(s[0]) then 1 + DigitRun(s[1..]) else 0
  }

  /** The value of a run of decimal digits, most significant first. */
  function DigitsValue(ds: seq<byte>): nat
  {
    if ds == [] then 0 else 10 * DigitsValue(ds[..|ds| - 1]) + (ds[|ds| - 1] as int - 48) % 10
  }

  function Unsigned(s: seq<byte>): nat
  {
    DigitsValue(s[..DigitRun(s)])
  }

  /** `atoi`: leading white space, an optional sign, then the longest run of digits. The model
      computes the exact value; the library's result for a value outside `int` is undefined. */
  function Atoi(s: seq<byte>): int
  {
    var t := SkipSpace(s);
    if t != [] && t[0] == 45 then -(Unsigned(t[1..]) as int)
    else if t != [] && t[0] == 43 then Unsigned(t[1..])
    else Unsigned(t)
  }

  /** The port, stored into a `uint16_t`: the value modulo 2^16. */
  function Port(line: Line): (p: int)
    ensures 0 <= p < 0x1_0000
  {
    Atoi(line) % 0x1_0000
  }

  /** The decimal rendering of a number, most significant digit first. */
  function Decimal(n: nat): (ds: seq<byte>)
    ensures |ds| > 0 && forall i :: 0 <= i < |ds| ==> IsDigit(ds[i])
  {
    if n < 10 then [48 + n] else Decimal(n / 10) + [48 + n % 10]
  }

  lemma {:induction false} DecimalValue(n: nat)
    ensures DigitsValue(Decimal(n)) == n
  {
    if n >= 10 {
      var ds := Decimal(n);
      assert ds[..|ds| - 1] == Decimal(n / 10);
      DecimalValue(n / 10);
    }
  }

  /** `atoi` reads back a number written in decimal, whatever non-digit (the newline) follows. */
  lemma {:induction false} AtoiDecimal(n: nat, rest: seq<byte>)
    requires rest == [] || !IsDigit(rest[0])
    ensures Atoi(Decimal(n) + rest) == n
  {
    AtoiDigits(Decimal(n), rest);
    DecimalValue(n);
  }

  lemma {:induction false} AtoiDigits(ds: seq<byte>, rest: seq<byte>)
    requires ds != [] && forall i :: 0 <= i < |ds| ==> IsDigit(ds[i])
    requires rest == [] || !IsDigit(rest[0])
    ensures Atoi(ds + rest) == DigitsValue(ds)
  {
    var s := ds + rest;
    assert s[0] == ds[0];
    assert SkipSpace(s) == s;
    DigitRunPrefix(ds, rest);
    assert s[..|ds|] == ds;
  }

  lemma {:induction false} DigitRunPrefix(ds: seq<byte>, rest: seq<byte>)
    requires forall i :: 0 <= i < |ds| ==> IsDigit(ds[i])
    requires rest == [] || !IsDigit(rest[0])
    ensures DigitRun(ds + rest) == |ds|
  {
    if ds != [] {
      assert (ds + rest)[1..] == ds[1..] + rest;
      DigitRunPrefix(ds[1..], rest);
    }
  }

  // ---------------------------------------------------------------------------------------
  // The category lines.

  /** A blank line: `strlen(line) <= 1`, so a lone newline, or a line starting with NUL. */
  predicate IsBlank(line: Line) { StrLen(line) <= 1 }

  predicate IsTooLong(line: Line) { StrLen(line) > MaxLineLength }

  /** A line that contributes a card name. */
  predicate IsName(line: Line) { !IsBlank(line) && !IsTooLong(line) }

  /** The stored name: the line with its last character (the newline) cut off. */
  function NameOf(line: Line): (name: Name)
    requires !IsBlank(line)
    ensures |name| == StrLen(line) - 1 && name == line[..|name|]
  {
    line[..StrLen(line) - 1]
  }

  /** The parser state between lines: the categories already closed (`categories_names`) and the
      names of the category being read (`category_names`). */
  datatype Acc = Acc(done: seq<seq<Name>>, current: seq<Name>)

  /** One iteration of the category loop. */
  function Step(a: Acc, line: Line): Acc
  {
    if IsBlank(line) then
      if a.current == [] then a else Acc(a.done + [a.current], [])
    else if IsTooLong(line) then a
    else Acc(a.done, a.current + [NameOf(line)])
  }

  function RunFrom(a: Acc, ls: seq<Line>): Acc
  {
    if ls == [] then a else Step(RunFrom(a, ls[..|ls| - 1]), ls[|ls| - 1])
  }

  function Run(ls: seq<Line>): Acc
  {
    RunFrom(Acc([], []), ls)
  }

  /** After the last line, a category still being read is closed. */
  function Finish(a: Acc): seq<seq<Name>>
  {
    if a.current == [] then a.done else a.done + [a.current]
  }

  /** The categories of the lines after the blank second line. */
  function Categories(ls: seq<Line>): seq<seq<Name>>
  {
    Finish(Run(ls))
  }

  /** The names of the name lines, in file order: the reference the categories are checked against. */
  function Names(ls: seq<Line>): seq<Name>
  {
    if ls == [] then []
    else
      var last := ls[|ls| - 1];
      Names(ls[..|ls| - 1]) + (if IsName(last) then [NameOf(last)] else [])
  }

  predicate NoEmptyCategory(cats: seq<seq<Name>>)
  {
    forall i :: 0 <= i < |cats| ==> cats[i] != []
  }

  /** What the loop keeps: every closed category is non-empty, and the closed categories followed by
      the open one are exactly the names read so far. */
  lemma {:induction false} RunKeeps(ls: seq<Line>)
    ensures NoEmptyCategory(Run(ls).done)
    ensures Flatten(Run(ls).done) + Run(ls).current == Names(ls)
  {
    if ls != [] {
      var pre := ls[..|ls| - 1];
      var line := ls[|ls| - 1];
      var a := Run(pre);
      RunKeeps(pre);
      if IsBlank(line) && a.current != [] {
        FlattenAppend(a.done, [a.current]);
        assert Flatten([a.current]) == Flatten([a.current][..0]) + a.current;
      }
    }
  }

  /** Every recorded category holds at least one name, and the categories hold exactly the names of
      the name lines, in order: blank lines only separate, and too-long lines are dropped. */
  lemma {:induction false} CategoriesAreNames(ls: seq<Line>)
    ensures NoEmptyCategory(Categories(ls))
    ensures Flatten(Categories(ls)) == Names(ls)
  {
    var a := Run(ls);
    RunKeeps(ls);
    if a.current != [] {
      FlattenAppend(a.done, [a.current]);
      assert Flatten([a.current]) == Flatten([a.current][..0]) + a.current;
    }
  }

  /** Every stored name is 1 to 126 bytes long and contains no NUL byte. */
  lemma {:induction false} NamesBounded(ls: seq<Line>)
    ensures forall k :: 0 <= k < |Names(ls)| ==> 0 < |Names(ls)[k]| < MaxLineLength && 0 !in Names(ls)[k]
  {
    if ls != [] {
      NamesBounded(ls[..|ls| - 1]);
    }
  }

  lemma {:induction false} RunAppend(a: Acc, ls: seq<Line>, ms: seq<Line>)
    ensures RunFrom(a, ls + ms) == RunFrom(RunFrom(a, ls), ms)
    decreases |ms|
  {
    if ms == [] {
      assert ls + ms == ls;
    } else {
      var n := |ms| - 1;
      assert (ls + ms)[..|ls + ms| - 1] == ls + ms[..n];
      assert (ls + ms)[|ls + ms| - 1] == ms[n];
      RunAppend(a, ls, ms[..n]);
    }
  }

  /** Reading lines after some categories were closed only appends to them. */
  lemma {:induction false} RunShift(d: seq<seq<Name>>, ms: seq<Line>)
    ensures RunFrom(Acc(d, []), ms) == Acc(d + Run(ms).done, Run(ms).current)
  {
    if ms == [] {
      assert d + [] == d;
    } else {
      var pre := ms[..|ms| - 1];
      var line := ms[|ms| - 1];
      RunShift(d, pre);
      var x := Run(pre);
      if IsBlank(line) && x.current != [] {
        assert d + x.done + [x.current] == d + (x.done + [x.current]);
      }
    }
  }

  /** A blank line splits the file: the categories of the whole are those before it followed by those
      after it. With nothing before it, this says that blank lines at the start or in a run add nothing. */
  lemma {:induction false} BlankSeparates(ls: seq<Line>, b: Line, ms: seq<Line>)
    requires IsBlank(b)
    ensures Categories(ls + [b] + ms) == Categories(ls) + Categories(ms)
  {
    RunAppend(Acc([], []), ls + [b], ms);
    assert (ls + [b])[..|ls + [b]| - 1] == ls;
    var f := Categories(ls);
    assert Run(ls + [b]) == Acc(f, []);
    RunShift(f, ms);
    var y := Run(ms);
    if y.current != [] {
      assert f + y.done + [y.current] == f + (y.done + [y.current]);
    }
  }

  /** A line longer than 127 bytes is skipped: the file parses as if it were not there. */
  lemma {:induction false} LongLineSkipped(ls: seq<Line>, l: Line, ms: seq<Line>)
    requires IsTooLong(l)
    ensures Categories(ls + [l] + ms) == Categories(ls + ms)
  {
    RunAppend(Acc([], []), ls + [l], ms);
    RunAppend(Acc([], []), ls, ms);
    assert (ls + [l])[..|ls + [l]| - 1] == ls;
  }

  // ---------------------------------------------------------------------------------------
  // The whole file.

  datatype Settings = Settings(port: int, categories: seq<seq<Name>>)

  /** What the parser accepts, with the limits of the frame fields the categories go into. */
  function ParseSettings(lines: seq<Line>): Option<Settings>
  {
    if |lines| < 2 || Port(lines[0]) == 0 || !IsBlank(lines[1]) then None
    else
      var cats := Categories(lines[2..]);
      if |Flatten(cats)| > MaxCards || |cats| > MaxCategories then None
      else Some(Settings(Port(lines[0]), cats))
  }

  /** The settings fit the frames they are sent in: a nonzero port, at most 127 non-empty categories,
      at most 32767 cards, and names of 1 to 126 bytes without NUL, in the order of the file. */
  lemma {:induction false} ParseSettingsWellFormed(lines: seq<Line>)
    requires ParseSettings(lines).Some?
    ensures 0 < ParseSettings(lines).value.port < 0x1_0000
    ensures IsBlank(lines[1])
    ensures var cats := ParseSettings(lines).value.categories;
      NoEmptyCategory(cats) && |cats| <= MaxCategories && Total(Counts(cats)) <= MaxCards
      && Flatten(cats) == Names(lines[2..])
      && forall i, j :: 0 <= i < |cats| && 0 <= j < |cats[i]| ==> 0 < |cats[i][j]| < MaxLineLength
  {
    var cats := ParseSettings(lines).value.categories;
    CategoriesAreNames(lines[2..]);
    NamesBounded(lines[2..]);
    FlattenLength(cats);
    forall i, j | 0 <= i < |cats| && 0 <= j < |cats[i]|
      ensures 0 < |cats[i][j]| < MaxLineLength
    {
      FlattenAt(cats, i, j);
    }
  }

  /** A file is accepted exactly when its first line gives a nonzero port, its second line is blank,
      and its name lines number at most 32767 and form at most 127 categories; the accepted
      settings carry that port and the categories, which hold the name lines in file order. */
  lemma {:induction false} ParseSettingsAccepts(lines: seq<Line>)
    ensures ParseSettings(lines).Some? <==>
      |lines| >= 2 && Atoi(lines[0]) % 0x1_0000 != 0 && StrLen(lines[1]) <= 1
      && |Names(lines[2..])| <= MaxCards && |Categories(lines[2..])| <= MaxCategories
    ensures ParseSettings(lines).Some? ==>
      ParseSettings(lines).value.port == Atoi(lines[0]) % 0x1_0000
      && Flatten(ParseSettings(lines).value.categories) == Names(lines[2..])
  {
    if |lines| >= 2 {
      CategoriesAreNames(lines[2..]);
    }
  }

  lemma {:induction false} RunStep(lines: seq<Line>, i: nat)
    requires 2 <= i < |lines|
    ensures Run(lines[2..i + 1]) == Step(Run(lines[2..i]), lines[i])
  {
    assert lines[2..i + 1][..i - 2] == lines[2..i];
  }

  /** `read_settings_file`, reading the lines one by one and growing the category lists. */
  method ReadSettingsFile(lines: seq<Line>) returns (r: Option<Settings>)
    ensures r == ParseSettings(lines)
  {
    if |lines| == 0 {
      return None;
    }
    var port := Port(lines[0]);
    if port == 0 || |lines| < 2 || StrLen(lines[1]) > 1 {
      return None;
    }
    var categories: seq<seq<Name>> := [];
    var category: seq<Name> := [];
    var totalCards := 0;
    var i := 2;
    while i < |lines|
      invariant 2 <= i <= |lines|
      invariant Acc(categories, category) == Run(lines[2..i])
      invariant totalCards == |Flatten(categories)| + |category|
    {
      RunStep(lines, i);
      var line := lines[i];
      var lineLength := StrLen(line);
      if lineLength <= 1 {
        if category != [] {
          FlattenSnoc(categories, category);
          categories := categories + [category];
          category := [];
        }
      } else if lineLength > MaxLineLength {
      } else {
        category := category + [line[..lineLength - 1]];
        totalCards := totalCards + 1;
      }
      i := i + 1;
    }
    if category != [] {
      categories := categories + [category];
    }
    assert lines[2..i] == lines[2..];
    assert categories == Categories(lines[2..]);
    if totalCards > MaxCards || |categories| > MaxCategories {
      return None;
    }
    return Some(Settings(port, categories));
  }

  // ---------------------------------------------------------------------------------------
  // The parser as written, with the counts stored into the narrow struct fields.

  /** `Settings_t` as the source fills it: `num_categories` is an `int8_t` and each
      `num_cards[i]` an `int16_t`, and the warning about too many cards does not stop the parse. */
  datatype StoredSettings = StoredSettings(port: int, numCategories: int, numCards: seq<int>, cardNames: seq<seq<Name>>)

  function ParseSettingsAsWritten(lines: seq<Line>): Option<StoredSettings>
  {
    if |lines| < 2 || Port(lines[0]) == 0 || !IsBlank(lines[1]) then None
    else
      var cats := Categories(lines[2..]);
      Some(StoredSettings(Port(lines[0]), AsInt8(Byte(|cats|)),
        seq(|cats|, i requires 0 <= i < |cats| => AsInt16(LE16(|cats[i]|))), cats))
  }

  const NameLine: Line := [97, 10]
  const BlankLine: Line := [10]
  const PortOne: Line := [49, 10]

  /** `k` one-card categories, each followed by a blank line. */
  function Blocks(k: nat): seq<Line>
  {
    if k == 0 then [] else [NameLine, BlankLine] + Blocks(k - 1)
  }

  /** `k` names in a single category. */
  function NameRun(k: nat): (ls: seq<Line>)
    ensures |ls| == k
  {
    if k == 0 then [] else NameRun(k - 1) + [NameLine]
  }

  lemma {:induction false} BlocksCategories(k: nat)
    ensures |Categories(Blocks(k))| == k
  {
    if k > 0 {
      BlankSeparates([NameLine], BlankLine, Blocks(k - 1));
      assert [NameLine] + [BlankLine] + Blocks(k - 1) == Blocks(k);
      assert StrLen(NameLine) == 2 by {
        assert NameLine[1..] == BlankLine && BlankLine[1..] == [];
      }
      assert [NameLine][..0] == [];
      assert NameOf(NameLine) == [97];
      assert Step(Acc([], []), NameLine) == Acc([], [[97]]);
      assert RunFrom(Acc([], []), [NameLine]) == Step(RunFrom(Acc([], []), []), NameLine);
      BlocksCategories(k - 1);
    }
  }

  lemma {:induction false} NameRunCategory(k: nat)
    ensures Run(NameRun(k)).done == [] && |Run(NameRun(k)).current| == k
  {
    if k > 0 {
      NameRunCategory(k - 1);
      assert NameRun(k)[..k - 1] == NameRun(k - 1);
      assert StrLen(NameLine) == 2 by {
        assert NameLine[1..] == BlankLine && BlankLine[1..] == [];
      }
    }
  }

  lemma {:induction false} PortOneIsOne()
    ensures Port(PortOne) == 1 && IsBlank(BlankLine)
  {
    assert PortOne[..1] == [49] && [49][..0] == [];
    assert BlankLine[1..] == [];
  }

  /** Both parsers on a file whose port line reads 1 and whose second line is blank. */
  lemma {:induction false} ParsersAfterPortOne(rest: seq<Line>)
    ensures var lines := [PortOne, BlankLine] + rest;
      var cats := Categories(rest);
      ParseSettingsAsWritten(lines) == Some(StoredSettings(1, AsInt8(Byte(|cats|)),
        seq(|cats|, i requires 0 <= i < |cats| => AsInt16(LE16(|cats[i]|))), cats))
      && (ParseSettings(lines) == None <==> |Flatten(cats)| > MaxCards || |cats| > MaxCategories)
  {
    var lines := [PortOne, BlankLine] + rest;
    PortOneIsOne();
    assert lines[2..] == rest;
  }

  /** The parser accepts a file with no category at all, which `start_game` then refuses on its
      first assert. */
  lemma {:induction false} NoCategoryNotDealable()
    ensures var r := ParseSettings([PortOne, BlankLine]);
      r.Some? && r.value.categories == [] && !Dealable(Counts(r.value.categories))
  {
    ParsersAfterPortOne([]);
    assert [PortOne, BlankLine] + [] == [PortOne, BlankLine];
  }

  /** The parser accepts a file whose only category has a single card, which `start_game` then
      refuses on its second assert: no card is left for the deck. */
  lemma {:induction false} OneCardNotDealable()
    ensures var r := ParseSettings([PortOne, BlankLine, NameLine]);
      r.Some? && r.value.categories == [[[97]]] && !Dealable(Counts(r.value.categories))
  {
    ParsersAfterPortOne([NameLine]);
    assert [PortOne, BlankLine] + [NameLine] == [PortOne, BlankLine, NameLine];
    OneNameCategory();
    OneCardTotal();
  }

  lemma {:induction false} OneNameCategory()
    ensures Categories([NameLine]) == [[[97]]]
  {
    assert StrLen([]) == 0;
    assert StrLen([10]) == 1;
    assert StrLen(NameLine) == 2;
    assert NameOf(NameLine) == [97];
    assert [NameLine][..0] == [];
    assert Run([]) == Acc([], []);
    assert Run([NameLine]) == Step(Acc([], []), NameLine);
    assert Step(Acc([], []), NameLine) == Acc([], [[97]]);
  }

  lemma {:induction false} OneCardTotal()
    ensures Counts([[[97 as byte]]]) == [1] && !Dealable([1])
  {
    var one: seq<seq<seq<byte>>> := [[[97]]];
    assert Counts(one)[0] == 1;
    assert Base([1], 1) == Base([1], 0) + 1;
  }

  lemma {:induction false} Int8Wraps(k: int)
    requires 128 <= k < 256
    ensures AsInt8(Byte(k)) == k - 256
  {
  }

  lemma {:induction false} Int16Wraps(k: int)
    requires 0x8000 <= k < 0x1_0000
    ensures AsInt16(LE16(k)) == k - 0x1_0000
  {
    var b := LE16(k);
    assert b[0] as int + 256 * (b[1] as int) == k;
  }

  /** 128 to 255 categories are accepted as written, and `num_categories` wraps to a negative
      count; the corrected parser refuses the file. */
  lemma {:induction false} ManyCategoriesWrap(k: nat)
    requires MaxCategories < k < 256
    ensures var lines := [PortOne, BlankLine] + Blocks(k);
      ParseSettingsAsWritten(lines).Some? && ParseSettingsAsWritten(lines).value.numCategories == k - 256
      && ParseSettings(lines) == None
  {
    ParsersAfterPortOne(Blocks(k));
    BlocksCategories(k);
    Int8Wraps(k);
  }

  /** 32768 to 65535 cards in one category are accepted as written, and the category's `int16_t`
      count wraps to a negative number; the corrected parser refuses the file. */
  lemma {:induction false} ManyCardsWrap(k: nat)
    requires MaxCards < k < 0x1_0000
    ensures var lines := [PortOne, BlankLine] + NameRun(k);
      ParseSettingsAsWritten(lines).Some? && ParseSettingsAsWritten(lines).value.numCards == [k - 0x1_0000]
      && ParseSettings(lines) == None
  {
    ParsersAfterPortOne(NameRun(k));
    NameRunCategory(k);
    var c := Run(NameRun(k)).current;
    assert Categories(NameRun(k)) == [c];
    FlattenSnoc([], c);
    assert [] + [c] == [c];
    Int16Wraps(k);
    OneCount(c);
  }

  lemma {:induction false} OneCount(c: seq<seq<byte>>)
    ensures var cats := [c];
      seq(|cats|, i requires 0 <= i < |cats| => AsInt16(LE16(|cats[i]|))) == [AsInt16(LE16(|c|))]
  {
  }
}
