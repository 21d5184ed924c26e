/** The emoji helpers and the sticker id of src/services/stickers/utils.ts.
    JavaScript strings are sequences of UTF-16 code units, and the emoji
    pattern has no `u` flag, so it matches code units: "©", "®", one unit
    in U+2000..U+3300, or a lead unit D83C, D83D or D83E followed by a unit
    in D000..DFFF. A global match scans left to right and never overlaps. */
module StickerUtils {
  import opened Strings

  type CodeUnit = x: int | 0 <= x < 0x1_0000
  type Byte = x: int | 0 <= x < 256

  const Comma: CodeUnit := 0x2C
  const Space: CodeUnit := 0x20

  /** A unit the pattern matches on its own. */
  predicate Single(c: CodeUnit) {
    c == 0xA9 || c == 0xAE || (0x2000 <= c <= 0x3300)
  }

  /** A unit that opens a two-unit match. */
  predicate Lead(c: CodeUnit) {
    c == 0xD83C || c == 0xD83D || c == 0xD83E
  }

  /** A unit that closes a two-unit match. */
  predicate Trail(c: CodeUnit) {
    0xD000 <= c <= 0xDFFF
  }

  /** A piece of text the pattern matches as a whole. */
  predicate IsEmoji(u: seq<CodeUnit>) {
    (|u| == 1 && Single(u[0])) || (|u| == 2 && Lead(u[0]) && Trail(u[1]))
  }

  /** The text cut into matches and the units between them. */
  datatype Piece = Emoji(units: seq<CodeUnit>) | Other(unit: CodeUnit)

  function Units(p: Piece): seq<CodeUnit> {
    match p
    case Emoji(u) => u
    case Other(c) => [c]
  }

  function Flatten(ps: seq<Piece>): seq<CodeUnit> {
    if |ps| == 0 then [] else Units(ps[0]) + Flatten(ps[1..])
  }

  /** The first unit of a piece (0 for an empty match, which the scan never makes). */
  function Start(p: Piece): CodeUnit {
    match p
    case Emoji(u) => if |u| > 0 then u[0] else 0
    case Other(c) => c
  }

  /** The global scan of the pattern over s: at each position the first
      alternative that matches is taken, otherwise the unit is skipped. */
  function Scan(s: seq<CodeUnit>): (r: seq<Piece>)
    ensures Flatten(r) == s
    ensures forall i :: 0 <= i < |r| && r[i].Emoji? ==> IsEmoji(r[i].units)
    ensures |s| > 0 ==> |r| > 0 && Start(r[0]) == s[0]
    decreases |s|
  {
    if |s| == 0 then []
    else if Single(s[0]) then
      assert s == [s[0]] + s[1..];
      [Emoji([s[0]])] + Scan(s[1..])
    else if |s| >= 2 && Lead(s[0]) && Trail(s[1]) then
      assert s == s[..2] + s[2..];
      [Emoji(s[..2])] + Scan(s[2..])
    else
      assert s == [s[0]] + s[1..];
      [Other(s[0])] + Scan(s[1..])
  }

  /** A skipped unit at position i starts no match: it does not match on
      its own, and if it is a lead unit the next unit is no trail unit. */
  predicate SkipOk(r: seq<Piece>, i: int)
    requires 0 <= i < |r| && r[i].Other?
  {
    !Single(r[i].unit) && (Lead(r[i].unit) && i + 1 < |r| ==> !Trail(Start(r[i + 1])))
  }

  /** Every skipped unit of r starts no match. */
  predicate Leftmost(r: seq<Piece>) {
    forall i :: 0 <= i < |r| && r[i].Other? ==> SkipOk(r, i)
  }

  lemma LeftmostCons(p: Piece, t: seq<Piece>)
    requires Leftmost(t)
    requires p.Other? ==> !Single(p.unit) && (Lead(p.unit) && |t| > 0 ==> !Trail(Start(t[0])))
    ensures Leftmost([p] + t)
  {
    var r := [p] + t;
    forall i | 0 <= i < |r| && r[i].Other? ensures SkipOk(r, i) {
      if i > 0 {
        assert r[i] == t[i - 1];
        assert SkipOk(t, i - 1);
        if i + 1 < |r| { assert r[i + 1] == t[i]; }
      }
    }
  }

  /** The scan never skips a unit that starts a match. */
  lemma {:induction false} SkippedStartNoMatch(s: seq<CodeUnit>)
    ensures Leftmost(Scan(s))
    decreases |s|
  {
    if |s| > 0 {
      var k := if Single(s[0]) then 1 else if |s| >= 2 && Lead(s[0]) && Trail(s[1]) then 2 else 1;
      SkippedStartNoMatch(s[k..]);
      var r := Scan(s);
      var t := Scan(s[k..]);
      assert r == [r[0]] + t;
      if r[0].Other? && Lead(s[0]) && |t| > 0 {
        assert Start(t[0]) == s[1];
      }
      LeftmostCons(r[0], t);
    }
  }

  /** The matched pieces, in order. */
  function Matches(ps: seq<Piece>): seq<seq<CodeUnit>> {
    if |ps| == 0 then []
    else if ps[0].Emoji? then [ps[0].units] + Matches(ps[1..])
    else Matches(ps[1..])
  }

  /** The units between the matches, in order. */
  function Others(ps: seq<Piece>): seq<CodeUnit> {
    if |ps| == 0 then []
    else if ps[0].Other? then [ps[0].unit] + Others(ps[1..])
    else Others(ps[1..])
  }

  lemma MatchesCons(p: Piece, ps: seq<Piece>)
    ensures Matches([p] + ps) == (if p.Emoji? then [p.units] else []) + Matches(ps)
    ensures Others([p] + ps) == (if p.Other? then [p.unit] else []) + Others(ps)
  {
    assert ([p] + ps)[1..] == ps;
  }

  /** `extractEmojisFromText(text)`: the matches, or [] when there are none. */
  function ExtractEmojis(text: seq<CodeUnit>): (r: seq<seq<CodeUnit>>)
    ensures forall i :: 0 <= i < |r| ==> IsEmoji(r[i])
  {
    var ps := Scan(text);
    MatchesAreEmojis(ps);
    Matches(ps)
  }

  lemma {:induction false} MatchesAreEmojis(ps: seq<Piece>)
    requires forall i :: 0 <= i < |ps| && ps[i].Emoji? ==> IsEmoji(ps[i].units)
    ensures forall i :: 0 <= i < |Matches(ps)| ==> IsEmoji(Matches(ps)[i])
    decreases |ps|
  {
    if |ps| > 0 {
      assert forall i :: 1 <= i < |ps| ==> ps[1..][i - 1] == ps[i];
      MatchesAreEmojis(ps[1..]);
    }
  }

  /** `.replace(/[, ]/g, "")`. */
  function DropSeparators(s: seq<CodeUnit>): (r: seq<CodeUnit>)
    ensures forall i :: 0 <= i < |r| ==> r[i] != Comma && r[i] != Space
    ensures |r| == 0 <==> forall i :: 0 <= i < |s| ==> s[i] == Comma || s[i] == Space
  {
    if |s| == 0 then []
    else
      var rest := DropSeparators(s[1..]);
      assert forall i :: 1 <= i < |s| ==> s[i] == s[1..][i - 1];
      if s[0] == Comma || s[0] == Space then rest else [s[0]] + rest
  }

  /** The text left after removing the matches, commas and spaces. */
  function Stripped(text: seq<CodeUnit>): seq<CodeUnit> {
    DropSeparators(Others(Scan(text)))
  }

  /** `validateEmojis(text)`: the matches when nothing but commas and spaces
      lies between them and there are one to three of them, null otherwise. */
  function ValidateEmojis(text: seq<CodeUnit>): (r: Option<seq<seq<CodeUnit>>>)
    ensures r.Some? <==> |Stripped(text)| == 0 && 1 <= |ExtractEmojis(text)| <= 3
    ensures r.Some? ==> r.value == ExtractEmojis(text) && forall i :: 0 <= i < |r.value| ==> IsEmoji(r.value[i])
  {
    var emojis := ExtractEmojis(text);
    if |Stripped(text)| > 0 then None
    else if 0 < |emojis| <= 3 then Some(emojis)
    else None
  }

  /** The emojis joined by a separator made only of commas and spaces. */
  function JoinUnits(es: seq<seq<CodeUnit>>, sep: seq<CodeUnit>): seq<CodeUnit> {
    if |es| == 0 then []
    else if |es| == 1 then es[0]
    else es[0] + sep + JoinUnits(es[1..], sep)
  }

  predicate Separators(sep: seq<CodeUnit>) {
    forall i :: 0 <= i < |sep| ==> sep[i] == Comma || sep[i] == Space
  }

  /** Scanning an emoji followed by more text matches the emoji first. */
  lemma ScanEmojiFirst(e: seq<CodeUnit>, rest: seq<CodeUnit>)
    requires IsEmoji(e)
    ensures Scan(e + rest) == [Emoji(e)] + Scan(rest)
  {
    var s := e + rest;
    if |e| == 1 {
      assert s[1..] == rest;
    } else {
      assert s[..2] == e && s[2..] == rest;
    }
  }

  /** A unit that starts no match is skipped. */
  lemma ScanSkip(c: CodeUnit, rest: seq<CodeUnit>)
    requires !Single(c) && !Lead(c)
    ensures Scan([c] + rest) == [Other(c)] + Scan(rest)
  {
    assert ([c] + rest)[1..] == rest;
  }

  /** Separators after the first one are separators. */
  lemma SeparatorsTail(sep: seq<CodeUnit>)
    requires Separators(sep) && |sep| > 0
    ensures Separators(sep[1..]) && !Single(sep[0]) && !Lead(sep[0])
  {
    forall i | 0 <= i < |sep[1..]| ensures sep[1..][i] == Comma || sep[1..][i] == Space {
      assert sep[1..][i] == sep[i + 1];
    }
  }

  /** Scanning separators matches nothing. */
  lemma {:induction false} ScanSeparatorsMatches(sep: seq<CodeUnit>, rest: seq<CodeUnit>)
    requires Separators(sep)
    ensures Matches(Scan(sep + rest)) == Matches(Scan(rest))
    decreases |sep|
  {
    if |sep| == 0 {
      assert sep + rest == rest;
    } else {
      var tail := sep[1..];
      SeparatorsTail(sep);
      assert sep + rest == [sep[0]] + (tail + rest);
      ScanSkip(sep[0], tail + rest);
      ScanSeparatorsMatches(tail, rest);
      MatchesCons(Other(sep[0]), Scan(tail + rest));
    }
  }

  /** Scanning separators skips each of them. */
  lemma {:induction false} ScanSeparatorsOthers(sep: seq<CodeUnit>, rest: seq<CodeUnit>)
    requires Separators(sep)
    ensures Others(Scan(sep + rest)) == sep + Others(Scan(rest))
    decreases |sep|
  {
    if |sep| == 0 {
      assert sep + rest == rest;
    } else {
      var tail := sep[1..];
      SeparatorsTail(sep);
      assert sep + rest == [sep[0]] + (tail + rest);
      ScanSkip(sep[0], tail + rest);
      ScanSeparatorsOthers(tail, rest);
      MatchesCons(Other(sep[0]), Scan(tail + rest));
      var o := Others(Scan(rest));
      calc {
        Others(Scan(sep + rest));
        Others([Other(sep[0])] + Scan(tail + rest));
        [sep[0]] + Others(Scan(tail + rest));
        [sep[0]] + (tail + o);
        { assert [sep[0]] + (tail + o) == ([sep[0]] + tail) + o; assert [sep[0]] + tail == sep; }
        sep + o;
      }
    }
  }

  /** Scanning separators skips each of them and matches nothing. */
  lemma ScanSeparators(sep: seq<CodeUnit>, rest: seq<CodeUnit>)
    requires Separators(sep)
    ensures Matches(Scan(sep + rest)) == Matches(Scan(rest))
    ensures Others(Scan(sep + rest)) == sep + Others(Scan(rest))
  {
    ScanSeparatorsMatches(sep, rest);
    ScanSeparatorsOthers(sep, rest);
  }

  /** The emojis of a joined text are the joined emojis, and only
      separators lie between them. */
  lemma {:induction false} ScanJoin(es: seq<seq<CodeUnit>>, sep: seq<CodeUnit>)
    requires forall i :: 0 <= i < |es| ==> IsEmoji(es[i])
    requires Separators(sep)
    ensures Matches(Scan(JoinUnits(es, sep))) == es
    ensures Separators(Others(Scan(JoinUnits(es, sep))))
    decreases |es|
  {
    if |es| == 1 {
      ScanEmojiFirst(es[0], []);
      assert es[0] + [] == es[0];
    } else if |es| > 1 {
      var tail := JoinUnits(es[1..], sep);
      ScanJoin(es[1..], sep);
      ScanSeparators(sep, tail);
      assert es[0] + sep + tail == es[0] + (sep + tail);
      ScanEmojiFirst(es[0], sep + tail);
      MatchesCons(Emoji(es[0]), Scan(sep + tail));
      assert es == [es[0]] + es[1..];
    }
  }

  /** One to three emojis joined by commas and spaces validate to themselves. */
  lemma ValidOfJoin(es: seq<seq<CodeUnit>>, sep: seq<CodeUnit>)
    requires 1 <= |es| <= 3 && forall i :: 0 <= i < |es| ==> IsEmoji(es[i])
    requires Separators(sep)
    ensures ValidateEmojis(JoinUnits(es, sep)) == Some(es)
  {
    ScanJoin(es, sep);
  }

  /** Text made only of commas and spaces holds no emoji and is refused. */
  lemma SeparatorsOnlyRefused(text: seq<CodeUnit>)
    requires Separators(text)
    ensures ValidateEmojis(text).None?
  {
    ScanSeparators(text, []);
    assert text + [] == text;
  }

  /** A unit that is neither an emoji unit nor a separator makes the text invalid. */
  lemma {:induction false} StrayUnitRefused(a: seq<CodeUnit>, c: CodeUnit, b: seq<CodeUnit>)
    requires !Single(c) && !Lead(c) && !Trail(c) && c != Comma && c != Space
    ensures ValidateEmojis(a + [c] + b).None?
  {
    StrayUnitSkipped(a, c, b);
    var os := Others(Scan(a + [c] + b));
    var k :| 0 <= k < |os| && os[k] == c;
    assert !Separators(os);
  }

  /** Such a unit is among the skipped units. */
  lemma {:induction false} StrayUnitSkipped(a: seq<CodeUnit>, c: CodeUnit, b: seq<CodeUnit>)
    requires !Single(c) && !Lead(c) && !Trail(c)
    ensures c in Others(Scan(a + [c] + b))
    decreases |a|
  {
    var s := a + [c] + b;
    if |a| == 0 {
      assert s == [c] + b && s[1..] == b;
    } else if Single(a[0]) {
      assert s[1..] == a[1..] + [c] + b;
      StrayUnitSkipped(a[1..], c, b);
    } else if |s| >= 2 && Lead(s[0]) && Trail(s[1]) {
      assert |a| >= 2 && s[1] == a[1];
      assert s[2..] == a[2..] + [c] + b;
      StrayUnitSkipped(a[2..], c, b);
    } else {
      assert s[1..] == a[1..] + [c] + b;
      StrayUnitSkipped(a[1..], c, b);
    }
  }

  /** A digit of the lower-case hexadecimal alphabet. */
  predicate IsHexDigit(c: char) {
    ('0' <= c <= '9') || ('a' <= c <= 'f')
  }

  /** The digit for a value below 16. */
  function HexDigit(n: nat): (c: char)
    requires n < 16
    ensures IsHexDigit(c)
  {
    if n < 10 then ('0' as int + n) as char else ('a' as int + n - 10) as char
  }

  /** The value of a hexadecimal digit. */
  function DigitValue(c: char): (v: nat)
    requires IsHexDigit(c)
    ensures v < 16 && HexDigit(v) == c
  {
    if c <= '9' then c as int - '0' as int else c as int - 'a' as int + 10
  }

  /** `buf.toString("hex")`: two lower-case digits per byte, high nibble first. */
  function Hex(bytes: seq<Byte>): (r: string)
    ensures |r| == 2 * |bytes|
    ensures forall i :: 0 <= i < |r| ==> IsHexDigit(r[i])
  {
    if |bytes| == 0 then ""
    else [HexDigit(bytes[0] / 16), HexDigit(bytes[0] % 16)] + Hex(bytes[1..])
  }

  /** Reading the digits back, two per byte. */
  function Unhex(s: string): seq<Byte>
    requires |s| % 2 == 0 && forall i :: 0 <= i < |s| ==> IsHexDigit(s[i])
  {
    if |s| == 0 then []
    else [DigitValue(s[0]) * 16 + DigitValue(s[1])] + Unhex(s[2..])
  }

  /** Each digit is read back as its own value. */
  lemma DigitRoundTrip(n: nat)
    requires n < 16
    ensures DigitValue(HexDigit(n)) == n
  {
  }

  /** The hex encoding loses nothing. */
  lemma {:induction false} UnhexOfHex(bytes: seq<Byte>)
    ensures Unhex(Hex(bytes)) == bytes
  {
    if |bytes| > 0 {
      var h := Hex(bytes);
      assert h[2..] == Hex(bytes[1..]);
      UnhexOfHex(bytes[1..]);
      DigitRoundTrip(bytes[0] / 16);
      DigitRoundTrip(bytes[0] % 16);
      assert bytes == [bytes[0]] + bytes[1..];
    }
  }

  /** `generateStickerID()` for the 16 bytes `randomBytes(16)` produced:
      32 hexadecimal digits that encode them. */
  function StickerId(random: seq<Byte>): (id: string)
    requires |random| == 16
    ensures |id| == 32 && forall i :: 0 <= i < 32 ==> IsHexDigit(id[i])
    ensures Unhex(id) == random
  {
    UnhexOfHex(random);
    Hex(random)
  }
}
