/** String and optional-value helpers shared by the model: the JavaScript string
    operations the bot relies on (includes, startsWith, endsWith, split on one
    character, join, trim, toLowerCase, replace-all), written over seq<char>. */
module Strings {

  datatype Option<+T> = None | Some(value: T)

  /** JavaScript truthiness of an optional string: present and non-empty. */
  predicate Truthy(o: Option<string>) {
    o.Some? && o.value != ""
  }

  /** `o || d` on an optional string. */
  function OrElse(o: Option<string>, d: string): (r: string)
    ensures r == d || (o.Some? && o.value != "" && r == o.value)
    ensures Truthy(o) ==> r != ""
    ensures r != d ==> Truthy(o)
  {
    if Truthy(o) then o.value else d
  }

  predicate StartsWith(s: string, p: string) {
    |p| <= |s| && s[..|p|] == p
  }

  predicate EndsWith(s: string, p: string) {
    |p| <= |s| && s[|s| - |p|..] == p
  }

  /** `s.includes(p)`: p occurs somewhere in s. */
  predicate Contains(s: string, p: string)
    decreases |s|
  {
    StartsWith(s, p) || (|s| > 0 && Contains(s[1..], p))
  }

  /** Every string contains its prefixes, suffixes and itself. */
  lemma {:induction false} ContainsPiece(a: string, p: string, b: string)
    ensures Contains(a + p + b, p)
    decreases |a|
  {
    if |a| == 0 {
      assert a + p + b == p + b;
      assert (p + b)[..|p|] == p;
    } else {
      assert (a + p + b)[1..] == a[1..] + p + b;
      ContainsPiece(a[1..], p, b);
    }
  }

  /** The part of s before the first c (all of s when c does not occur): `s.split(c)[0]`. */
  function BeforeFirst(s: string, c: char): (r: string)
    ensures |r| <= |s| && r == s[..|r|]
    ensures c !in r
    ensures |r| < |s| ==> s[|r|] == c
  {
    if |s| == 0 || s[0] == c then "" else [s[0]] + BeforeFirst(s[1..], c)
  }

  /** `s.split(c)` for a one-character separator. */
  function Split(s: string, c: char): (r: seq<string>)
    ensures |r| >= 1
    decreases |s|
  {
    if |s| == 0 then [""]
    else if s[0] == c then [""] + Split(s[1..], c)
    else
      var rest := Split(s[1..], c);
      [[s[0]] + rest[0]] + rest[1..]
  }

  /** `parts.join(sep)`. */
  function Join(parts: seq<string>, sep: string): string {
    if |parts| == 0 then ""
    else if |parts| == 1 then parts[0]
    else parts[0] + sep + Join(parts[1..], sep)
  }

  /** Splitting on c yields pieces free of c, and joining them with c restores the string. */
  lemma {:induction false} SplitJoin(s: string, c: char)
    ensures Join(Split(s, c), [c]) == s
    ensures forall k :: 0 <= k < |Split(s, c)| ==> c !in Split(s, c)[k]
    decreases |s|
  {
    if |s| == 0 {
    } else if s[0] == c {
      SplitJoin(s[1..], c);
      var rest := Split(s[1..], c);
      assert Split(s, c) == [""] + rest;
      assert Split(s, c)[1..] == rest;
      assert Join(Split(s, c), [c]) == "" + [c] + Join(rest, [c]);
      assert s == [c] + s[1..];
    } else {
      SplitJoin(s[1..], c);
      var rest := Split(s[1..], c);
      var r := Split(s, c);
      assert r == [[s[0]] + rest[0]] + rest[1..];
      forall k | 0 <= k < |r| ensures c !in r[k] {
        if k > 0 { assert r[k] == rest[k]; }
      }
      if |rest| == 1 {
        assert Join(rest, [c]) == rest[0];
        assert Join(r, [c]) == [s[0]] + rest[0];
      } else {
        assert Join(rest, [c]) == rest[0] + [c] + Join(rest[1..], [c]);
        assert r[1..] == rest[1..];
        assert Join(r, [c]) == [s[0]] + rest[0] + [c] + Join(rest[1..], [c]);
      }
      assert s == [s[0]] + s[1..];
    }
  }

  /** A string free of c is one piece. */
  lemma {:induction false} SplitNone(a: string, c: char)
    requires c !in a
    ensures Split(a, c) == [a]
    decreases |a|
  {
    if |a| > 0 {
      SplitNone(a[1..], c);
      assert a == [a[0]] + a[1..];
    }
  }

  /** The first piece ends at the first separator; the rest is split on. */
  lemma {:induction false} SplitAt(a: string, c: char, b: string)
    requires c !in a
    ensures Split(a + [c] + b, c) == [a] + Split(b, c)
    decreases |a|
  {
    if |a| == 0 {
      assert a + [c] + b == [c] + b;
      assert ([c] + b)[1..] == b;
    } else {
      var s := a + [c] + b;
      assert s[1..] == a[1..] + [c] + b;
      SplitAt(a[1..], c, b);
      assert [a[0]] + a[1..] == a;
    }
  }

  /** Joining pieces free of c with c and splitting on c gives the pieces back. */
  lemma {:induction false} SplitOfJoin(parts: seq<string>, c: char)
    requires |parts| >= 1
    requires forall k :: 0 <= k < |parts| ==> c !in parts[k]
    ensures Split(Join(parts, [c]), c) == parts
    decreases |parts|
  {
    if |parts| == 1 {
      SplitNone(parts[0], c);
    } else {
      SplitOfJoin(parts[1..], c);
      SplitAt(parts[0], c, Join(parts[1..], [c]));
      assert [parts[0]] + parts[1..] == parts;
    }
  }

  /** ECMAScript WhiteSpace and LineTerminator code points: what `trim()` strips
      and what the regular-expression class `\s` matches. */
  predicate IsSpace(c: char) {
    c == '\t' || c == '\n' || c == '\U{000B}' || c == '\U{000C}' || c == '\r' || c == ' '
    || c == '\U{00A0}' || c == '\U{1680}' || ('\U{2000}' <= c <= '\U{200A}')
    || c == '\U{2028}' || c == '\U{2029}' || c == '\U{202F}' || c == '\U{205F}'
    || c == '\U{3000}' || c == '\U{FEFF}'
  }

  function TrimStart(s: string): (r: string)
    ensures |r| <= |s| && r == s[|s| - |r|..]
    ensures r != "" ==> !IsSpace(r[0])
    ensures forall k :: 0 <= k < |s| - |r| ==> IsSpace(s[k])
  {
    if |s| > 0 && IsSpace(s[0]) then TrimStart(s[1..]) else s
  }

  function TrimEnd(s: string): (r: string)
    ensures |r| <= |s| && r == s[..|r|]
    ensures r != "" ==> !IsSpace(r[|r| - 1])
    ensures forall k :: |r| <= k < |s| ==> IsSpace(s[k])
  {
    if |s| > 0 && IsSpace(s[|s| - 1]) then TrimEnd(s[..|s| - 1]) else s
  }

  /** `s.trim()`. */
  function Trim(s: string): (r: string) {
    TrimEnd(TrimStart(s))
  }

  /** toLowerCase for ASCII and the Latin-1 capital letters; other characters unchanged. */
  function LowerChar(c: char): (r: char)
    ensures 'A' <= c <= 'Z' ==> 'a' <= r <= 'z'
    ensures !('A' <= c <= 'Z') && !('\U{00C0}' <= c <= '\U{00DE}') ==> r == c
  {
    if 'A' <= c <= 'Z' || ('\U{00C0}' <= c <= '\U{00DE}' && c != '\U{00D7}')
    then (c as int + 32) as char
    else c
  }

  /** `s.toLowerCase()`. */
  function Lower(s: string): (r: string)
    ensures |r| == |s|
    ensures forall k :: 0 <= k < |s| ==> r[k] == LowerChar(s[k])
  {
    if |s| == 0 then "" else [LowerChar(s[0])] + Lower(s[1..])
  }

  /** `s.replace(/pat/g, v)` for a literal pattern: left to right, non-overlapping. */
  function ReplaceAll(s: string, pat: string, v: string): string
    requires |pat| > 0
    decreases |s|
  {
    if |s| == 0 then ""
    else if StartsWith(s, pat) then v + ReplaceAll(s[|pat|..], pat, v)
    else [s[0]] + ReplaceAll(s[1..], pat, v)
  }

  /** `s.split(sep)` for a literal separator: cut at each occurrence, found
      left to right without overlap. */
  function SplitOn(s: string, sep: string): (r: seq<string>)
    requires |sep| > 0
    ensures |r| > 0
    decreases |s|
  {
    if |s| == 0 then [""]
    else if StartsWith(s, sep) then [""] + SplitOn(s[|sep|..], sep)
    else
      var rest := SplitOn(s[1..], sep);
      [[s[0]] + rest[0]] + rest[1..]
  }

  /** No occurrence of sep starts inside p, whatever follows p. */
  predicate SepFree(p: string, sep: string) {
    forall k :: 0 <= k < |p| ==> !StartsWith(p[k..] + sep, sep)
  }

  /** A part free of the separator is cut off whole at the separator after it. */
  lemma {:induction false} SplitOnPart(p: string, sep: string, x: string)
    requires |sep| > 0 && SepFree(p, sep)
    ensures SplitOn(p + sep + x, sep) == [p] + SplitOn(x, sep)
    decreases |p|
  {
    var s := p + sep + x;
    if |p| == 0 {
      assert s == sep + x;
      assert s[..|sep|] == sep;
      assert s[|sep|..] == x;
    } else {
      assert p[0..] == p;
      assert !StartsWith(p + sep, sep);
      assert s[..|sep|] == (p + sep)[..|sep|];
      assert !StartsWith(s, sep);
      assert SepFree(p[1..], sep) by {
        forall k | 0 <= k < |p[1..]| ensures !StartsWith(p[1..][k..] + sep, sep) {
          assert p[1..][k..] == p[k + 1..];
        }
      }
      assert s[1..] == p[1..] + sep + x;
      SplitOnPart(p[1..], sep, x);
      assert [p[0]] + p[1..] == p;
    }
  }

  /** A string free of the separator is not cut. */
  lemma {:induction false} SplitOnWhole(p: string, sep: string)
    requires |sep| > 0 && SepFree(p, sep)
    ensures SplitOn(p, sep) == [p]
    decreases |p|
  {
    if |p| > 0 {
      assert p[0..] == p;
      assert !StartsWith(p + sep, sep);
      assert |sep| <= |p| ==> (p + sep)[..|sep|] == p[..|sep|];
      assert !StartsWith(p, sep);
      assert SepFree(p[1..], sep) by {
        forall k | 0 <= k < |p[1..]| ensures !StartsWith(p[1..][k..] + sep, sep) {
          assert p[1..][k..] == p[k + 1..];
        }
      }
      SplitOnWhole(p[1..], sep);
      assert [p[0]] + p[1..] == p;
    }
  }

  /** Splitting a join on its separator gives back the parts when no part lets
      an occurrence of the separator start inside it. */
  lemma {:induction false} SplitOnJoin(parts: seq<string>, sep: string)
    requires |sep| > 0 && |parts| > 0
    requires forall i :: 0 <= i < |parts| ==> SepFree(parts[i], sep)
    ensures SplitOn(Join(parts, sep), sep) == parts
    decreases |parts|
  {
    if |parts| == 1 {
      SplitOnWhole(parts[0], sep);
    } else {
      assert SepFree(parts[0], sep);
      SplitOnPart(parts[0], sep, Join(parts[1..], sep));
      SplitOnJoin(parts[1..], sep);
      assert [parts[0]] + parts[1..] == parts;
    }
  }

  /** A string without two c in a row, not ending in c, lets no [c, c] start inside it. */
  lemma PairFree(p: string, c: char)
    requires !Contains(p, [c, c])
    requires |p| > 0 ==> p[|p| - 1] != c
    ensures SepFree(p, [c, c])
  {
    forall k | 0 <= k < |p| ensures !StartsWith(p[k..] + [c, c], [c, c]) {
      if StartsWith(p[k..] + [c, c], [c, c]) {
        assert (p[k..] + [c, c])[0] == p[k] == c;
        if k + 1 < |p| {
          assert (p[k..] + [c, c])[1] == p[k + 1];
          assert p == p[..k] + [c, c] + p[k + 2..];
          ContainsPiece(p[..k], [c, c], p[k + 2..]);
          assert false;
        }
      }
    }
  }

  /** A string with no occurrence of the pattern is left as it is. */
  lemma {:induction false} ReplaceAbsent(s: string, pat: string, v: string)
    requires |pat| > 0 && !Contains(s, pat)
    ensures ReplaceAll(s, pat, v) == s
    decreases |s|
  {
    if |s| > 0 {
      ReplaceAbsent(s[1..], pat, v);
      assert s == [s[0]] + s[1..];
    }
  }

  /** The first occurrence of the pattern is replaced by v and the scan goes
      on after it. */
  lemma {:induction false} ReplaceFirst(a: string, pat: string, b: string, v: string)
    requires |pat| > 0 && SepFree(a, pat)
    ensures ReplaceAll(a + pat + b, pat, v) == a + v + ReplaceAll(b, pat, v)
    decreases |a|
  {
    var s := a + pat + b;
    if |a| == 0 {
      assert s == pat + b;
      assert s[..|pat|] == pat;
      assert s[|pat|..] == b;
    } else {
      assert a[0..] == a;
      assert !StartsWith(a + pat, pat);
      assert s[..|pat|] == (a + pat)[..|pat|];
      assert SepFree(a[1..], pat) by {
        forall k | 0 <= k < |a[1..]| ensures !StartsWith(a[1..][k..] + pat, pat) {
          assert a[1..][k..] == a[k + 1..];
        }
      }
      assert s[1..] == a[1..] + pat + b;
      ReplaceFirst(a[1..], pat, b, v);
      assert [a[0]] + a[1..] == a;
    }
  }

  /** A string without the first character of p does not contain p. */
  lemma {:induction false} ContainsHead(s: string, p: string)
    requires |p| > 0 && p[0] !in s
    ensures !Contains(s, p)
    decreases |s|
  {
    if |s| > 0 {
      assert s[0] != p[0];
      assert p[0] !in s[1..];
      ContainsHead(s[1..], p);
    }
  }

  /** Replacing the pattern by itself changes nothing. */
  lemma {:induction false} ReplaceBySelf(s: string, pat: string)
    requires |pat| > 0
    ensures ReplaceAll(s, pat, pat) == s
    decreases |s|
  {
    if |s| == 0 {
    } else if StartsWith(s, pat) {
      ReplaceBySelf(s[|pat|..], pat);
      assert s == s[..|pat|] + s[|pat|..];
    } else {
      ReplaceBySelf(s[1..], pat);
      assert s == [s[0]] + s[1..];
    }
  }
}
