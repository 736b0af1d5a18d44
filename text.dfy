/** String helpers that stand in for the Python `str` methods the exporter uses:
    `casefold`, `replace`, `upper` on one character, `strip`, `rstrip(chars)`,
    `join` and `str()` of an integer. Case mapping is ASCII only. */
module Text {

  /** ASCII lower-casing of one character (the model of `casefold`). */
  function LowerChar(c: char): char {
    if 'A' <= c <= 'Z' then (c as int + 32) as char else c
  }

  /** ASCII upper-casing of one character (the model of `upper`). */
  function UpperChar(c: char): char {
    if 'a' <= c <= 'z' then (c as int - 32) as char else c
  }

  /** `s.casefold()`, approximated by ASCII lower-casing, character by character. */
  function Lower(s: string): (r: string)
    ensures |r| == |s|
    ensures forall i :: 0 <= i < |s| ==> r[i] == LowerChar(s[i])
  {
    if s == [] then [] else [LowerChar(s[0])] + Lower(s[1..])
  }

  predicate IsPrefix(p: string, s: string) {
    |p| <= |s| && s[..|p|] == p
  }

  /** Python's `s.replace(pat, rep)`: scans left to right and replaces every
      non-overlapping occurrence of `pat`. */
  function ReplaceAll(s: string, pat: string, rep: string): (r: string)
    requires |pat| > 0
    decreases |s|
  {
    if |s| < |pat| then s
    else if s[..|pat|] == pat then rep + ReplaceAll(s[|pat|..], pat, rep)
    else [s[0]] + ReplaceAll(s[1..], pat, rep)
  }

  /** A string in which some character of the pattern never occurs is left as
      it is by `replace`. */
  lemma {:induction false} ReplaceAbsent(s: string, pat: string, rep: string, j: nat)
    requires j < |pat|
    requires forall i :: 0 <= i < |s| ==> s[i] != pat[j]
    ensures ReplaceAll(s, pat, rep) == s
    decreases |s|
  {
    if |s| >= |pat| {
      assert s[..|pat|][j] == s[j] != pat[j];
      ReplaceAbsent(s[1..], pat, rep, j);
    }
  }

  /** `replace` leaves a prefix in which the pattern's first character never
      occurs as it is. */
  lemma {:induction false} ReplacePrefixFree(a: string, c: string, pat: string, rep: string)
    requires |pat| > 0
    requires forall i :: 0 <= i < |a| ==> a[i] != pat[0]
    ensures ReplaceAll(a + c, pat, rep) == a + ReplaceAll(c, pat, rep)
    decreases |a|
  {
    var s := a + c;
    if a == [] {
      assert s == c;
    } else if |s| < |pat| {
      assert ReplaceAll(c, pat, rep) == c;
    } else {
      assert s[..|pat|][0] == a[0] != pat[0];
      assert s[1..] == a[1..] + c;
      ReplacePrefixFree(a[1..], c, pat, rep);
    }
  }

  /** A character followed by something other than the pattern's second
      character does not start a match, so `replace` keeps it. */
  lemma ReplaceKeepsHead(x: char, rest: string, pat: string, rep: string)
    requires |pat| >= 2 && rest != [] && rest[0] != pat[1]
    requires ReplaceAll(rest, pat, rep) == rest
    ensures ReplaceAll([x] + rest, pat, rep) == [x] + rest
  {
    var s := [x] + rest;
    assert s[1..] == rest;
    if |s| >= |pat| {
      assert s[..|pat|][1] == rest[0];
    }
  }

  /** `replace` passes over a prefix in which the character `pat[j]` never
      occurs, provided it does not occur earlier in the pattern either, and then
      replaces the occurrence of the pattern that follows. */
  lemma {:induction false} ReplaceAfter(a: string, pat: string, rep: string, b: string, j: nat)
    requires j < |pat|
    requires forall i :: 0 <= i < |a| ==> a[i] != pat[j]
    requires forall i :: 0 <= i < j ==> pat[i] != pat[j]
    ensures ReplaceAll(a + pat + b, pat, rep) == a + rep + ReplaceAll(b, pat, rep)
    decreases |a|
  {
    var s := a + pat + b;
    if a == [] {
      assert s == pat + b;
      assert s[..|pat|] == pat && s[|pat|..] == b;
    } else {
      assert s[..|pat|] != pat by {
        if j < |a| {
          assert s[..|pat|][j] == a[j];
        } else {
          assert s[..|pat|][j] == pat[j - |a|];
        }
      }
      assert s[1..] == a[1..] + pat + b;
      ReplaceAfter(a[1..], pat, rep, b, j);
      assert ReplaceAll(s, pat, rep) == [a[0]] + ReplaceAll(a[1..] + pat + b, pat, rep);
      assert a + rep + ReplaceAll(b, pat, rep) == [a[0]] + (a[1..] + rep + ReplaceAll(b, pat, rep));
    }
  }

  /** Replacing a single character by a single character keeps the length and
      maps every position independently. */
  lemma {:induction false} ReplaceCharAt(s: string, c: char, d: char)
    ensures |ReplaceAll(s, [c], [d])| == |s|
    ensures forall i :: 0 <= i < |s| ==>
      ReplaceAll(s, [c], [d])[i] == (if s[i] == c then d else s[i])
    decreases |s|
  {
    if |s| >= 1 {
      ReplaceCharAt(s[1..], c, d);
      var rest := ReplaceAll(s[1..], [c], [d]);
      if s[..1] == [c] {
        assert ReplaceAll(s, [c], [d]) == [d] + rest;
      } else {
        assert ReplaceAll(s, [c], [d]) == [s[0]] + rest;
      }
    }
  }

  /** Characters `str.strip()` removes (the ASCII and Latin-1 whitespace set). */
  predicate IsSpace(c: char) {
    c == ' ' || c == '\t' || c == '\n' || c == '\r' || c as int == 11 || c as int == 12
    || (28 <= c as int <= 31) || c as int == 0x85 || c as int == 0xA0
  }

  /** `s.rstrip(c)` for one character `c`: the longest prefix of `s` that does
      not end in `c`. */
  function RStripChar(s: string, c: char): (r: string)
    ensures IsPrefix(r, s)
    ensures r == [] || r[|r| - 1] != c
    ensures forall i :: |r| <= i < |s| ==> s[i] == c
  {
    if s != [] && s[|s| - 1] == c then RStripChar(s[..|s| - 1], c) else s
  }

  /** `s.rstrip()`: drop trailing whitespace. */
  function RStripSpace(s: string): (r: string)
    ensures IsPrefix(r, s)
    ensures r == [] || !IsSpace(r[|r| - 1])
    ensures forall i :: |r| <= i < |s| ==> IsSpace(s[i])
  {
    if s != [] && IsSpace(s[|s| - 1]) then RStripSpace(s[..|s| - 1]) else s
  }

  /** `s.lstrip()`: drop leading whitespace. */
  function LStripSpace(s: string): (r: string)
    ensures |r| <= |s| && r == s[|s| - |r|..]
    ensures r == [] || !IsSpace(r[0])
    ensures forall i :: 0 <= i < |s| - |r| ==> IsSpace(s[i])
  {
    if s != [] && IsSpace(s[0]) then LStripSpace(s[1..]) else s
  }

  /** `s.strip()`: the slice of `s` left after whitespace is removed at both ends. */
  function Strip(s: string): (r: string)
    ensures IsPrefix(r, LStripSpace(s))
    ensures forall i :: |r| <= i < |LStripSpace(s)| ==> IsSpace(LStripSpace(s)[i])
    ensures r == [] || (!IsSpace(r[0]) && !IsSpace(r[|r| - 1]))
  {
    RStripSpace(LStripSpace(s))
  }

  /** `s[:1].upper() + s[1:]`: upper-case the first character only. */
  function CapitalizeFirst(s: string): (r: string)
    ensures |r| == |s|
    ensures s != [] ==> r[0] == UpperChar(s[0]) && r[1..] == s[1..]
  {
    if s == [] then [] else [UpperChar(s[0])] + s[1..]
  }

  /** `sep.join(parts)`. */
  function Join(sep: string, parts: seq<string>): (r: string)
    ensures parts == [] ==> r == []
    ensures |parts| == 1 ==> r == parts[0]
  {
    if parts == [] then []
    else if |parts| == 1 then parts[0]
    else parts[0] + sep + Join(sep, parts[1..])
  }

  function DigitChar(d: nat): char
    requires d < 10
  {
    ('0' as int + d) as char
  }

  /** Decimal rendering of a natural number, as `str()` prints it. */
  function NatToString(n: nat): (r: string)
    ensures |r| > 0
    ensures forall i :: 0 <= i < |r| ==> '0' <= r[i] <= '9'
    decreases n
  {
    if n < 10 then [DigitChar(n)] else NatToString(n / 10) + [DigitChar(n % 10)]
  }

  /** Decimal rendering of an integer, with a leading minus sign when negative. */
  function IntToString(i: int): (r: string)
    ensures |r| > 0
    ensures (r[0] == '-') <==> i < 0
  {
    if i < 0 then "-" + NatToString(-i) else NatToString(i)
  }
}
