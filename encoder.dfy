/** The JSON encoder's value transform (`X2DataTemplateJSONEncoder` in main.py).
    Every string reachable from a template instance is made safe to paste into
    HTML: the game's own line-break marker `<br\>` becomes the two characters
    `\n`, an escaped quote `\"` becomes `"`, the text is HTML-escaped, and every
    `\n` becomes a `<br>` tag. Lists are transformed element by element and
    record fields one by one; other values are left alone. */
module Encoder {
  import opened Text
  import opened Values

  /** The game's line-break marker, the five characters `<br\>`. */
  const LineBreakMarker: string := "<br\\>"
  /** The two characters backslash and `n`. */
  const NewlineMarker: string := "\\n"
  /** The two characters backslash and double quote. */
  const EscapedQuote: string := "\\\""
  const BreakTag: string := "<br>"

  /** `html.escape(c, quote=True)` for one character. */
  function EscapeChar(c: char): string {
    if c == '&' then "&amp;"
    else if c == '<' then "&lt;"
    else if c == '>' then "&gt;"
    else if c == '"' then "&quot;"
    else if c == '\'' then "&#x27;"
    else [c]
  }

  predicate IsHtmlSpecial(c: char) {
    c == '&' || c == '<' || c == '>' || c == '"' || c == '\''
  }

  predicate NoAngles(t: string) {
    forall i :: 0 <= i < |t| ==> t[i] != '<' && t[i] != '>'
  }

  /** `html.escape(s)`: `&` is replaced first, so no entity is escaped twice and
      the result is the character-wise escape. */
  function Escape(s: string): string {
    if s == [] then [] else EscapeChar(s[0]) + Escape(s[1..])
  }

  /** Escaped text contains no angle brackets. */
  lemma {:induction false} EscapeNoAngles(s: string)
    ensures NoAngles(Escape(s))
    decreases |s|
  {
    if s != [] {
      EscapeNoAngles(s[1..]);
      var head := EscapeChar(s[0]);
      var r := Escape(s);
      assert r == head + Escape(s[1..]);
      forall i | 0 <= i < |r| ensures r[i] != '<' && r[i] != '>' {
        if i >= |head| {
          assert r[i] == Escape(s[1..])[i - |head|];
        }
      }
    }
  }

  /** Text without special characters is returned unchanged by escaping. */
  lemma {:induction false} EscapeClean(s: string)
    requires forall i :: 0 <= i < |s| ==> !IsHtmlSpecial(s[i])
    ensures Escape(s) == s
    decreases |s|
  {
    if s != [] {
      EscapeClean(s[1..]);
    }
  }

  /** The string branch of `_transform` (main.py:21-24). */
  function TransformString(s: string): string {
    var unmarked := ReplaceAll(s, LineBreakMarker, NewlineMarker);
    var unquoted := ReplaceAll(unmarked, EscapedQuote, "\"");
    ReplaceAll(Escape(unquoted), NewlineMarker, BreakTag)
  }

  /** No backslash in `t` is followed by `n`. */
  predicate NoNewlineMarker(t: string) {
    forall i :: 0 <= i < |t| - 1 ==> !(t[i] == '\\' && t[i + 1] == 'n')
  }

  /** `t` is a concatenation of `<br>` tags and characters other than `<` and
      `>`: every angle bracket belongs to a `<br>` tag. */
  predicate OnlyBreakTags(t: string)
    decreases |t|
  {
    t == []
    || (IsPrefix(BreakTag, t) && OnlyBreakTags(t[4..]))
    || (t[0] != '<' && t[0] != '>' && OnlyBreakTags(t[1..]))
  }

  predicate HtmlSafe(t: string) {
    NoNewlineMarker(t) && OnlyBreakTags(t)
  }

  /** The first character of a `replace` result is the first character of the
      input or of the replacement. */
  lemma ReplaceFirstChar(t: string, pat: string, rep: string)
    requires |pat| > 0 && |rep| > 0
    requires ReplaceAll(t, pat, rep) != []
    ensures t != []
    ensures ReplaceAll(t, pat, rep)[0] == t[0] || ReplaceAll(t, pat, rep)[0] == rep[0]
  {
  }

  /** Turning every `\n` into `<br>` in a text without angle brackets leaves no
      `\n` behind and introduces angle brackets only as whole `<br>` tags. */
  lemma {:induction false} ReplaceNewlinesSafe(t: string)
    requires NoAngles(t)
    ensures HtmlSafe(ReplaceAll(t, NewlineMarker, BreakTag))
    decreases |t|
  {
    var r := ReplaceAll(t, NewlineMarker, BreakTag);
    if |t| < 2 {
      assert r == t;
      if t != [] {
        assert t[1..] == [];
      }
    } else if t[..2] == NewlineMarker {
      var rest := ReplaceAll(t[2..], NewlineMarker, BreakTag);
      ReplaceNewlinesSafe(t[2..]);
      assert r == BreakTag + rest;
      assert r[4..] == rest;
      forall i | 0 <= i < |r| - 1
        ensures !(r[i] == '\\' && r[i + 1] == 'n')
      {
        if i >= 4 {
          assert r[i] == rest[i - 4] && r[i + 1] == rest[i - 3];
        }
      }
    } else {
      var rest := ReplaceAll(t[1..], NewlineMarker, BreakTag);
      ReplaceNewlinesSafe(t[1..]);
      assert r == [t[0]] + rest;
      assert r[1..] == rest;
      if rest != [] {
        ReplaceFirstChar(t[1..], NewlineMarker, BreakTag);
        assert rest[0] == t[1] || rest[0] == '<';
      }
      forall i | 0 <= i < |r| - 1
        ensures !(r[i] == '\\' && r[i + 1] == 'n')
      {
        if i >= 1 {
          assert r[i] == rest[i - 1] && r[i + 1] == rest[i];
        }
      }
    }
  }

  /** Every transformed string is HTML-safe: no `\n` is left and every `<` or
      `>` in it is part of a `<br>` tag that the transform introduced. */
  lemma TransformStringSafe(s: string)
    ensures HtmlSafe(TransformString(s))
  {
    var unquoted := ReplaceAll(ReplaceAll(s, LineBreakMarker, NewlineMarker), EscapedQuote, "\"");
    EscapeNoAngles(unquoted);
    ReplaceNewlinesSafe(Escape(unquoted));
  }

  /** A string with none of `& < > " ' \` is returned unchanged. */
  lemma CleanStringUnchanged(s: string)
    requires forall i :: 0 <= i < |s| ==> !IsHtmlSpecial(s[i]) && s[i] != '\\'
    ensures TransformString(s) == s
  {
    NoBackslashIsEscape(s);
    EscapeClean(s);
  }

  /** Escaping works character by character, so it distributes over
      concatenation. */
  lemma {:induction false} EscapeAppend(x: string, y: string)
    ensures Escape(x + y) == Escape(x) + Escape(y)
    decreases |x|
  {
    if x != [] {
      assert (x + y)[0] == x[0];
      assert (x + y)[1..] == x[1..] + y;
      EscapeAppend(x[1..], y);
      assert Escape(x + y) == EscapeChar(x[0]) + Escape(x[1..] + y);
    } else {
      assert x + y == y;
    }
  }

  /** The `\n` left by the marker is not an escaped quote, so unquoting keeps
      it, and texts without backslashes around it, as they are. */
  lemma NewlineKeepsQuotes(a: string, b: string)
    requires forall i :: 0 <= i < |a| ==> a[i] != '\\'
    requires forall i :: 0 <= i < |b| ==> b[i] != '\\'
    ensures ReplaceAll(a + NewlineMarker + b, EscapedQuote, "\"") == a + NewlineMarker + b
  {
    var rest := ['n'] + b;
    assert forall i :: 0 <= i < |rest| ==> rest[i] != EscapedQuote[0] by {
      forall i | 0 <= i < |rest| ensures rest[i] != EscapedQuote[0] {
        if i > 0 { assert rest[i] == b[i - 1]; }
      }
    }
    ReplaceAbsent(rest, EscapedQuote, "\"", 0);
    ReplaceKeepsHead('\\', rest, EscapedQuote, "\"");
    assert NewlineMarker + b == ['\\'] + rest;
    var tail := ['\\'] + rest;
    ReplacePrefixFree(a, tail, EscapedQuote, "\"");
    assert a + NewlineMarker + b == a + tail;
  }

  /** The game's line-break marker between two texts without backslashes comes
      out as a `<br>` tag between the two escaped texts. */
  lemma LineBreakBecomesTag(a: string, b: string)
    requires forall i :: 0 <= i < |a| ==> a[i] != '\\'
    requires forall i :: 0 <= i < |b| ==> b[i] != '\\'
    ensures TransformString(a + LineBreakMarker + b) == Escape(a) + BreakTag + Escape(b)
  {
    var unmarked := a + NewlineMarker + b;
    assert ReplaceAll(a + LineBreakMarker + b, LineBreakMarker, NewlineMarker) == unmarked by {
      ReplaceAfter(a, LineBreakMarker, NewlineMarker, b, 3);
      ReplaceAbsent(b, LineBreakMarker, NewlineMarker, 3);
    }
    assert ReplaceAll(unmarked, EscapedQuote, "\"") == unmarked by {
      NewlineKeepsQuotes(a, b);
    }
    assert Escape(unmarked) == Escape(a) + NewlineMarker + Escape(b) by {
      EscapeAppend(a + NewlineMarker, b);
      EscapeAppend(a, NewlineMarker);
      EscapeClean(NewlineMarker);
    }
    assert ReplaceAll(Escape(a) + NewlineMarker + Escape(b), NewlineMarker, BreakTag)
        == Escape(a) + BreakTag + Escape(b) by {
      EscapeNoBackslash(a);
      EscapeNoBackslash(b);
      ReplaceAfter(Escape(a), NewlineMarker, BreakTag, Escape(b), 0);
      ReplaceAbsent(Escape(b), NewlineMarker, BreakTag, 0);
    }
  }

  /** Escaping introduces no backslash. */
  lemma {:induction false} EscapeNoBackslash(s: string)
    requires forall i :: 0 <= i < |s| ==> s[i] != '\\'
    ensures forall i :: 0 <= i < |Escape(s)| ==> Escape(s)[i] != '\\'
    decreases |s|
  {
    if s != [] {
      EscapeNoBackslash(s[1..]);
      assert Escape(s) == EscapeChar(s[0]) + Escape(s[1..]);
    }
  }

  /** On text without backslashes the rewrite is plain HTML escaping. */
  lemma NoBackslashIsEscape(s: string)
    requires forall i :: 0 <= i < |s| ==> s[i] != '\\'
    ensures TransformString(s) == Escape(s)
  {
    assert ReplaceAll(s, LineBreakMarker, NewlineMarker) == s by {
      ReplaceAbsent(s, LineBreakMarker, NewlineMarker, 3);
    }
    assert ReplaceAll(s, EscapedQuote, "\"") == s by {
      ReplaceAbsent(s, EscapedQuote, "\"", 0);
    }
    assert ReplaceAll(Escape(s), NewlineMarker, BreakTag) == Escape(s) by {
      EscapeNoBackslash(s);
      ReplaceAbsent(Escape(s), NewlineMarker, BreakTag, 0);
    }
  }

  /** Escaping never shortens a text; when the text holds a special character
      it grows and the result holds an ampersand. */
  lemma {:induction false} EscapeGrows(t: string)
    ensures |Escape(t)| >= |t|
    ensures (exists i :: 0 <= i < |t| && IsHtmlSpecial(t[i])) ==>
      |Escape(t)| > |t| && exists i :: 0 <= i < |Escape(t)| && Escape(t)[i] == '&'
    decreases |t|
  {
    if t != [] {
      var rest := Escape(t[1..]);
      EscapeGrows(t[1..]);
      assert Escape(t) == EscapeChar(t[0]) + rest;
      if IsHtmlSpecial(t[0]) {
        assert Escape(t)[0] == '&';
      } else if exists i :: 0 <= i < |t| && IsHtmlSpecial(t[i]) {
        var i :| 0 <= i < |t| && IsHtmlSpecial(t[i]);
        assert IsHtmlSpecial(t[1..][i - 1]);
        var k :| 0 <= k < |rest| && rest[k] == '&';
        assert Escape(t)[k + 1] == '&';
      }
    }
  }

  /** The transform is not idempotent: on any text without backslashes that
      holds one of `& < > " '`, a second pass escapes the ampersands the first
      pass introduced (`&` becomes `&amp;`, then `&amp;amp;`). */
  lemma TransformNotIdempotent(s: string)
    requires forall i :: 0 <= i < |s| ==> s[i] != '\\'
    requires exists i :: 0 <= i < |s| && IsHtmlSpecial(s[i])
    ensures TransformString(TransformString(s)) != TransformString(s)
  {
    NoBackslashIsEscape(s);
    EscapeNoBackslash(s);
    NoBackslashIsEscape(Escape(s));
    EscapeGrows(s);
    EscapeGrows(Escape(s));
  }

  /** Every string anywhere inside `v` is HTML-safe. */
  predicate Safe(v: Value)
    decreases v
  {
    match v
    case Str(s) => HtmlSafe(s)
    case List(items) => forall i :: 0 <= i < |items| ==> Safe(items[i])
    case Record(fields) => forall i :: 0 <= i < |fields| ==> Safe(fields[i].value)
    case _ => true
  }

  /** `_transform` on a value (main.py:20-34): strings are rewritten, lists are
      mapped element-wise, record fields are rewritten one by one, and every
      other value is returned as it is. */
  function Transform(v: Value): (r: Value)
    ensures Safe(r)
    ensures v.Str? ==> r.Str?
    ensures v.List? ==> r.List? && |r.items| == |v.items|
    ensures v.Record? ==> r.Record? && |r.fields| == |v.fields|
                          && forall i :: 0 <= i < |v.fields| ==> r.fields[i].name == v.fields[i].name
    ensures !v.Str? && !v.List? && !v.Record? ==> r == v
    decreases v, 1
  {
    match v
    case Str(s) => TransformStringSafe(s); Str(TransformString(s))
    case List(items) => List(TransformItems(items))
    case Record(fields) => Record(TransformFields(fields))
    case _ => v
  }

  /** The list comprehension of `_transform` (main.py:26). */
  function TransformItems(items: seq<Value>): (r: seq<Value>)
    ensures |r| == |items|
    ensures forall i :: 0 <= i < |items| ==> r[i] == Transform(items[i]) && Safe(r[i])
    decreases items, 0
  {
    if items == [] then [] else [Transform(items[0])] + TransformItems(items[1..])
  }

  /** The `setattr` loop of `_transform` and `default`, as a value: each field
      keeps its name and position, and its value is transformed. */
  function TransformFields(fields: seq<Field>): (r: seq<Field>)
    ensures |r| == |fields|
    ensures forall i :: 0 <= i < |fields| ==>
      r[i].name == fields[i].name && r[i].value == Transform(fields[i].value) && Safe(r[i].value)
    decreases fields, 0
  {
    if fields == [] then []
    else [Field(fields[0].name, Transform(fields[0].value))] + TransformFields(fields[1..])
  }

  /** A dataclass instance whose fields `_transform` overwrites with `setattr`. */
  class DataObject {
    var fields: seq<Field>

    constructor (fields: seq<Field>)
      ensures this.fields == fields
    {
      this.fields := fields;
    }

    /** The dataclass branch of `_transform` (main.py:27-34): every field is
        overwritten in place with its transformed value. */
    method TransformInPlace()
      modifies this
      ensures fields == TransformFields(old(fields))
    {
      var i := 0;
      while i < |fields|
        invariant 0 <= i <= |fields| == |old(fields)|
        invariant forall k :: 0 <= k < i ==>
          fields[k] == Field(old(fields)[k].name, Transform(old(fields)[k].value))
        invariant fields[i..] == old(fields)[i..]
      {
        var f := fields[i];
        fields := fields[i := Field(f.name, Transform(f.value))];
        i := i + 1;
      }
    }
  }

  /** `default` (main.py:36-46): the fields of a deep copy are transformed one by
      one and the copy is returned as a dictionary. The original object is not
      in any frame, so it is left as it was. */
  method Default(o: DataObject) returns (d: seq<Field>)
    ensures |d| == |o.fields|
    ensures forall i :: 0 <= i < |d| ==>
      d[i].name == o.fields[i].name && d[i].value == Transform(o.fields[i].value)
    ensures forall i :: 0 <= i < |d| ==> Safe(d[i].value)
  {
    var copy := new DataObject(o.fields);
    copy.TransformInPlace();
    d := copy.fields;
  }
}
