/** The little JSON the chat code handles by hand.

    The model is instructed to answer with `{"description": "..."}`, and the
    chat route reports errors as `{"description": "...", "error": true}`.
    Full `JSON.parse` is not modelled: callers receive its verdict as a
    `Parse` value. What is modelled is the string-literal escaping of that
    one field, the scan that pulls a partial `description` out of a stream
    that has not finished yet, and the unescaping applied to what it finds.
 */
module JsonView {
  import opened Wrappers
  import opened Text

  /** The verdict of `JSON.parse` on a text, reduced to the two properties
      the code reads: whether `description` is a string, and whether
      `error === true`. `NotJson` is a parse that threw. */
  datatype Parse = NotJson | Parsed(description: Option<string>, errorFlag: bool)

  predicate IsPrefix(a: string, b: string) {
    |a| <= |b| && b[..|a|] == a
  }

  /** How a character is written inside a JSON string literal: quote,
      backslash, newline, carriage return and tab get a backslash escape,
      everything else stands for itself. */
  function EscapeChar(c: char): (r: string)
    ensures 1 <= |r| <= 2
    ensures |r| == 1 <==> c != '"' && c != '\\' && c != '\n' && c != '\r' && c != '\t'
    ensures |r| == 1 ==> r == [c]
    ensures |r| == 2 ==> r[0] == '\\'
  {
    match c
    case '"' => "\\\""
    case '\\' => "\\\\"
    case '\n' => "\\n"
    case '\r' => "\\r"
    case '\t' => "\\t"
    case _ => [c]
  }

  /** The body of the JSON string literal for `d`. */
  function Escape(d: string): (r: string)
    ensures |r| >= |d|
  {
    if d == [] then [] else EscapeChar(d[0]) + Escape(d[1..])
  }

  /** What a backslash followed by `c` stands for: the five escapes the
      chat display knows, or the two characters unchanged. */
  function DecodePair(c: char): string {
    match c
    case 'n' => "\n"
    case 't' => "\t"
    case 'r' => "\r"
    case '"' => "\""
    case '\\' => "\\"
    case _ => ['\\', c]
  }

  /** One left-to-right pass over the text: each backslash consumes the
      character after it. A lone trailing backslash is kept. This is the
      corrected form of the display's unescaping (see `UnescapeAsWritten`). */
  function Unescape(s: string): string {
    if s == [] then []
    else if s[0] == '\\' && |s| >= 2 then DecodePair(s[1]) + Unescape(s[2..])
    else [s[0]] + Unescape(s[1..])
  }

  /** `s.replace(/pat/g, rep)`: non-overlapping occurrences, left to right. */
  function ReplaceAll(s: string, pat: string, rep: string): string
    requires pat != []
  {
    if |s| < |pat| then s
    else if s[..|pat|] == pat then rep + ReplaceAll(s[|pat|..], pat, rep)
    else [s[0]] + ReplaceAll(s[1..], pat, rep)
  }

  /** The unescaping as the display code writes it: five global replaces in
      sequence, `\n`, `\t`, `\r`, `\"` and finally `\\`. */
  function UnescapeAsWritten(s: string): string {
    var a := ReplaceAll(s, "\\n", "\n");
    var b := ReplaceAll(a, "\\t", "\t");
    var c := ReplaceAll(b, "\\r", "\r");
    var d := ReplaceAll(c, "\\\"", "\"");
    ReplaceAll(d, "\\\\", "\\")
  }

  /** Decoding one escape unit yields its character and leaves the rest. */
  lemma UnescapeUnit(c: char, x: string)
    ensures Unescape(EscapeChar(c) + x) == [c] + Unescape(x)
  {
    var s := EscapeChar(c) + x;
    if |EscapeChar(c)| == 2 {
      assert s[2..] == x;
    } else {
      assert s[1..] == x;
    }
  }

  /** Round trip: unescaping the escaped text gives the text back. */
  lemma {:induction false} UnescapeEscape(d: string)
    ensures Unescape(Escape(d)) == d
  {
    if d != [] {
      UnescapeUnit(d[0], Escape(d[1..]));
      UnescapeEscape(d[1..]);
    }
  }

  /** A replace whose pattern starts with a backslash leaves text without
      backslashes alone. */
  lemma {:induction false} ReplaceNoBackslash(s: string, pat: string, rep: string)
    requires pat != [] && pat[0] == '\\' && '\\' !in s
    ensures ReplaceAll(s, pat, rep) == s
  {
    if |s| >= |pat| {
      assert s[..|pat|][0] != pat[0];
      ReplaceNoBackslash(s[1..], pat, rep);
    }
  }

  /** Both unescapings leave a text without backslashes unchanged. */
  lemma {:induction false} NoBackslashUnchanged(s: string)
    requires '\\' !in s
    ensures Unescape(s) == s
    ensures UnescapeAsWritten(s) == s
  {
    ReplaceNoBackslash(s, "\\n", "\n");
    ReplaceNoBackslash(s, "\\t", "\t");
    ReplaceNoBackslash(s, "\\r", "\r");
    ReplaceNoBackslash(s, "\\\"", "\"");
    ReplaceNoBackslash(s, "\\\\", "\\");
    if s != [] {
      NoBackslashUnchanged(s[1..]);
    }
  }

  /** The chained replaces do not invert `Escape`: a description holding a
      backslash followed by `n` is escaped to `\\n`, and the first replace
      already turns its second and third characters into a newline. */
  lemma AsWrittenBreaksRoundTrip()
    ensures Escape(['\\', 'n']) == ['\\', '\\', 'n']
    ensures UnescapeAsWritten(Escape(['\\', 'n'])) == ['\\', '\n']
    ensures Unescape(Escape(['\\', 'n'])) == ['\\', 'n']
  {
    var e := ['\\', '\\', 'n'];
    assert Escape(['\\', 'n']) == EscapeChar('\\') + Escape(['n']);
    assert Escape(['n']) == EscapeChar('n') + Escape([]);
    assert ReplaceAll(e, "\\n", "\n") == ['\\'] + ReplaceAll(e[1..], "\\n", "\n");
    assert e[1..][2..] == [];
    assert ReplaceAll(e[1..], "\\n", "\n") == "\n" + ReplaceAll([], "\\n", "\n");
    var a := ['\\', '\n'];
    assert a[..2] == a && a[1..] == ['\n'];
    assert ReplaceAll(a, "\\t", "\t") == a by { assert a[..2] != "\\t"; assert ReplaceAll(a[1..], "\\t", "\t") == a[1..]; }
    assert ReplaceAll(a, "\\r", "\r") == a by { assert a[..2] != "\\r"; assert ReplaceAll(a[1..], "\\r", "\r") == a[1..]; }
    assert ReplaceAll(a, "\\\"", "\"") == a by { assert a[..2] != "\\\""; assert ReplaceAll(a[1..], "\\\"", "\"") == a[1..]; }
    assert ReplaceAll(a, "\\\\", "\\") == a by { assert a[..2] != "\\\\"; assert ReplaceAll(a[1..], "\\\\", "\\") == a[1..]; }
    UnescapeEscape(['\\', 'n']);
  }

  /** The letter written after the backslash for the four characters the
      chained replaces decode before the backslash itself. */
  function EscapeLetter(c: char): char {
    match c
    case '\n' => 'n'
    case '\t' => 't'
    case '\r' => 'r'
    case _ => c
  }

  /** The characters `EscapeChar` escapes, other than the backslash. */
  const Escaped: set<char> := {'\n', '\t', '\r', '"'}

  /** `x` with only the characters of `pending` escaped: what is left of
      `Escape(x)` after the replaces for the other characters have run. */
  function EscapeOnly(x: string, pending: set<char>): string {
    if x == [] then []
    else (if x[0] in pending then ['\\', EscapeLetter(x[0])] else [x[0]]) + EscapeOnly(x[1..], pending)
  }

  /** Without backslashes in `x`, escaping is escaping the four others. */
  lemma {:induction false} EscapeWithoutBackslash(x: string)
    requires '\\' !in x
    ensures Escape(x) == EscapeOnly(x, Escaped)
  {
    if x != [] {
      EscapeWithoutBackslash(x[1..]);
    }
  }

  /** With nothing pending, nothing is escaped. */
  lemma {:induction false} EscapeNothing(x: string)
    ensures EscapeOnly(x, {}) == x
  {
    if x != [] {
      EscapeNothing(x[1..]);
    }
  }

  /** A replace passes over a first character that cannot start the pattern. */
  lemma ReplaceSkip(a: char, t: string, pat: string, rep: string)
    requires pat != [] && a != pat[0]
    ensures ReplaceAll([a] + t, pat, rep) == [a] + ReplaceAll(t, pat, rep)
  {
    var s := [a] + t;
    assert s[1..] == t;
    if |s| >= |pat| {
      assert s[..|pat|][0] != pat[0];
    }
  }

  /** A replace rewrites an occurrence at the front and carries on after it. */
  lemma ReplaceHit(pat: string, t: string, rep: string)
    requires pat != []
    ensures ReplaceAll(pat + t, pat, rep) == rep + ReplaceAll(t, pat, rep)
  {
    assert (pat + t)[..|pat|] == pat;
    assert (pat + t)[|pat|..] == t;
  }

  /** One stage of the chained replaces: on backslash-free text whose
      characters in `pending` are escaped, the replace for `c` decodes
      exactly the escapes of `c`. */
  lemma {:induction false} ReplaceStage(x: string, pending: set<char>, c: char)
    requires '\\' !in x && c in pending && pending <= Escaped
    ensures ReplaceAll(EscapeOnly(x, pending), ['\\', EscapeLetter(c)], [c]) == EscapeOnly(x, pending - {c})
  {
    if x != [] {
      ReplaceStage(x[1..], pending, c);
      StageUnit(x[0], EscapeOnly(x[1..], pending), pending, c);
    }
  }

  /** The replace for `c` on one character's escape: it decodes the
      escape of `c` and passes over any other. */
  lemma StageUnit(a: char, rest: string, pending: set<char>, c: char)
    requires a != '\\' && c in pending && pending <= Escaped
    ensures var pat := ['\\', EscapeLetter(c)];
      var u := if a in pending then ['\\', EscapeLetter(a)] else [a];
      var v := if a in pending - {c} then ['\\', EscapeLetter(a)] else [a];
      ReplaceAll(u + rest, pat, [c]) == v + ReplaceAll(rest, pat, [c])
  {
    var pat := ['\\', EscapeLetter(c)];
    if a == c {
      ReplaceHit(pat, rest, [c]);
    } else if a in pending {
      var u := ['\\', EscapeLetter(a)];
      assert (u + rest)[..2] == u && u != pat;
      assert (u + rest)[1..] == [EscapeLetter(a)] + rest;
      ReplaceSkip(EscapeLetter(a), rest, pat, [c]);
    } else {
      ReplaceSkip(a, rest, pat, [c]);
    }
  }

  /** The chained replaces invert the escaping of any text without a
      backslash: the defect shown by `AsWrittenBreaksRoundTrip` needs a
      backslash in the description. */
  lemma AsWrittenInvertsWithoutBackslash(x: string)
    requires '\\' !in x
    ensures UnescapeAsWritten(Escape(x)) == x
  {
    var a := ReplaceAll(Escape(x), "\\n", "\n");
    var b := ReplaceAll(a, "\\t", "\t");
    var c := ReplaceAll(b, "\\r", "\r");
    var d := ReplaceAll(c, "\\\"", "\"");
    StagesDecode(x, a, b, c, d);
    ReplaceNoBackslash(x, "\\\\", "\\");
  }

  /** The first four replaces, stage by stage, on the escape of `x`. */
  lemma StagesDecode(x: string, a: string, b: string, c: string, d: string)
    requires '\\' !in x
    requires a == ReplaceAll(Escape(x), ['\\', 'n'], ['\n'])
    requires b == ReplaceAll(a, ['\\', 't'], ['\t'])
    requires c == ReplaceAll(b, ['\\', 'r'], ['\r'])
    requires d == ReplaceAll(c, ['\\', '"'], ['"'])
    ensures d == x
  {
    var p1: set<char> := {'\t', '\r', '"'};
    var p2: set<char> := {'\r', '"'};
    var p3: set<char> := {'"'};
    assert a == EscapeOnly(x, p1) by {
      EscapeWithoutBackslash(x);
      ReplaceStage(x, Escaped, '\n');
      assert Escaped - {'\n'} == p1;
    }
    assert b == EscapeOnly(x, p2) by {
      ReplaceStage(x, p1, '\t');
      assert p1 - {'\t'} == p2;
    }
    assert c == EscapeOnly(x, p3) by {
      ReplaceStage(x, p2, '\r');
      assert p2 - {'\r'} == p3;
    }
    assert d == EscapeOnly(x, {}) by {
      ReplaceStage(x, p3, '"');
      assert p3 - {'"'} == {};
    }
    EscapeNothing(x);
  }

  /** The opening of the field the display looks for, quotes included. */
  const DescriptionKey: string := "\"description\""

  /** Text the capture group accepts as a whole: characters other than a
      quote or a backslash, and backslash pairs. */
  predicate CaptureUnits(r: string)
    decreases |r|
  {
    if r == [] then true
    else if r[0] == '"' then false
    else if r[0] == '\\' then |r| >= 2 && CaptureUnits(r[2..])
    else CaptureUnits(r[1..])
  }

  /** The greedy capture `(?:[^"\\]|\\.|\\[^"])*`: plain characters, or a
      backslash together with whatever follows it, up to the first unescaped
      quote or the end of the text. The group stops at the end of the text,
      at a quote, or before a lone trailing backslash. */
  function CaptureValue(s: string): (r: string)
    ensures IsPrefix(r, s)
    ensures CaptureUnits(r)
    ensures |r| == |s| || s[|r|] == '"' || (|r| + 1 == |s| && s[|r|] == '\\')
  {
    if s == [] || s[0] == '"' then []
    else if s[0] == '\\' then
      if |s| >= 2 then
        var t := CaptureValue(s[2..]);
        CaptureStep(s, 2, t);
        s[..2] + t
      else []
    else
      var t := CaptureValue(s[1..]);
      CaptureStep(s, 1, t);
      [s[0]] + t
  }

  /** The capture of `s[k..]` extended by the unit `s[..k]` keeps the
      capture's three properties. */
  lemma CaptureStep(s: string, k: nat, t: string)
    requires k <= |s| && (k == 1 || k == 2)
    requires k == 1 ==> s[0] != '"' && s[0] != '\\'
    requires k == 2 ==> s[0] == '\\'
    requires IsPrefix(t, s[k..]) && CaptureUnits(t)
    requires |t| == |s[k..]| || s[k..][|t|] == '"' || (|t| + 1 == |s[k..]| && s[k..][|t|] == '\\')
    ensures var r := s[..k] + t;
      && IsPrefix(r, s) && CaptureUnits(r)
      && (|r| == |s| || s[|r|] == '"' || (|r| + 1 == |s| && s[|r|] == '\\'))
  {
    var r := s[..k] + t;
    assert r[k..] == t;
    assert s[..|r|] == s[..k] + s[k..][..|t|];
    if |r| < |s| {
      assert s[|r|] == s[k..][|t|];
    }
  }

  /** `"description"\s*:\s*"` at the very start of `s`: the text after the
      opening quote of the value, if the header is there. */
  function ValueStart(s: string): Option<string> {
    if !StartsWith(s, DescriptionKey) then None
    else
      var t := TrimStart(s[|DescriptionKey|..]);
      if t == [] || t[0] != ':' then None
      else
        var u := TrimStart(t[1..]);
        if u == [] || u[0] != '"' then None
        else Some(u[1..])
  }

  /** The leftmost position where the header `"description"\s*:\s*"`
      matches, if any. */
  function HeaderAt(s: string): (r: Option<nat>)
    ensures r.Some? ==> r.value < |s| && ValueStart(s[r.value..]).Some?
    ensures r.Some? ==> forall j :: 0 <= j < r.value ==> ValueStart(s[j..]).None?
    ensures r.None? <==> forall i :: 0 <= i < |s| ==> ValueStart(s[i..]).None?
  {
    if s == [] then None
    else if ValueStart(s).Some? then
      assert s[0..] == s;
      Some(0)
    else
      var h := HeaderAt(s[1..]);
      var r := if h.Some? then Some(h.value + 1) else None;
      HeaderShift(s, h, r);
      r
  }

  /** A header not at the front of `s` is found one place further in
      `s[1..]`. */
  lemma HeaderShift(s: string, h: Option<nat>, r: Option<nat>)
    requires s != [] && ValueStart(s).None?
    requires h.Some? ==> h.value < |s[1..]| && ValueStart(s[1..][h.value..]).Some?
    requires h.Some? ==> forall j :: 0 <= j < h.value ==> ValueStart(s[1..][j..]).None?
    requires h.None? <==> forall i :: 0 <= i < |s[1..]| ==> ValueStart(s[1..][i..]).None?
    requires r == if h.Some? then Some(h.value + 1) else None
    ensures r.Some? ==> r.value < |s| && ValueStart(s[r.value..]).Some?
    ensures r.Some? ==> forall j :: 0 <= j < r.value ==> ValueStart(s[j..]).None?
    ensures r.None? <==> forall i :: 0 <= i < |s| ==> ValueStart(s[i..]).None?
  {
    assert s[0..] == s;
    if h.Some? {
      assert s[r.value..] == s[1..][h.value..];
      forall j | 0 <= j < r.value ensures ValueStart(s[j..]).None? {
        if j > 0 {
          assert s[j..] == s[1..][j - 1..];
        }
      }
      assert ValueStart(s[1..][h.value..]).Some?;
    } else {
      forall i | 0 <= i < |s| ensures ValueStart(s[i..]).None? {
        if i > 0 {
          assert s[i..] == s[1..][i - 1..];
        }
      }
    }
  }

  /** `s.match(/"description"\s*:\s*"((?:[^"\\]|\\.|\\[^"])*)/)?.[1]`: the
      capture at the leftmost position where the header matches. */
  function FindDescription(s: string): Option<string> {
    match HeaderAt(s)
    case Some(i) => Some(CaptureValue(ValueStart(s[i..]).value))
    case None => None
  }

  /** The scan reports the capture after the leftmost header, and reports
      nothing exactly when no position starts a header. */
  lemma FindDescriptionLeftmost(s: string)
    ensures FindDescription(s).Some? ==>
      exists i :: 0 <= i < |s| && ValueStart(s[i..]).Some?
        && FindDescription(s) == Some(CaptureValue(ValueStart(s[i..]).value))
        && forall j :: 0 <= j < i ==> ValueStart(s[j..]).None?
    ensures FindDescription(s).None? <==> forall i :: 0 <= i < |s| ==> ValueStart(s[i..]).None?
  {
    var h := HeaderAt(s);
    if h.Some? {
      assert FindDescription(s) == Some(CaptureValue(ValueStart(s[h.value..]).value));
    }
  }

  /** Text without quotes or backslashes is captured whole. */
  lemma {:induction false} CapturePlain(x: string)
    requires '"' !in x && '\\' !in x
    ensures CaptureValue(x) == x
  {
    if x != [] {
      CapturePlain(x[1..]);
    }
  }

  /** The capture over a complete escape unit keeps the unit whole. */
  lemma CaptureUnit(c: char, x: string)
    ensures CaptureValue(EscapeChar(c) + x) == EscapeChar(c) + CaptureValue(x)
  {
    var s := EscapeChar(c) + x;
    if |EscapeChar(c)| == 2 {
      assert s[2..] == x;
      assert s[..2] == EscapeChar(c);
    } else {
      assert s[1..] == x;
    }
  }

  /** A finished literal is captured exactly, up to its closing quote. */
  lemma {:induction false} CaptureComplete(d: string, tail: string)
    ensures CaptureValue(Escape(d) + "\"" + tail) == Escape(d)
  {
    if d != [] {
      assert Escape(d) + "\"" + tail == EscapeChar(d[0]) + (Escape(d[1..]) + "\"" + tail);
      CaptureUnit(d[0], Escape(d[1..]) + "\"" + tail);
      CaptureComplete(d[1..], tail);
    } else {
      assert (Escape(d) + "\"" + tail)[0] == '"';
    }
  }

  /** Any cut of a literal that is still being streamed is captured as the
      escape of a prefix of the text being sent: a half-sent backslash pair
      is held back, and nothing past the cut is invented. */
  lemma {:induction false} CaptureCut(d: string, n: nat)
    requires n <= |Escape(d)|
    ensures exists k :: 0 <= k <= |d| && CaptureValue(Escape(d)[..n]) == Escape(d[..k])
  {
    if d == [] {
      assert Escape(d)[..n] == [] && d[..0] == [];
    } else {
      var e := EscapeChar(d[0]);
      var rest := Escape(d[1..]);
      assert Escape(d) == e + rest;
      assert Escape(d[..1]) == e by {
        assert d[..1][1..] == [];
      }
      if n == 0 {
        assert Escape(d)[..n] == [] && d[..0] == [];
      } else if n < |e| {
        assert Escape(d)[..n] == ['\\'];
        assert d[..0] == [];
      } else if n == |e| {
        assert Escape(d)[..n] == e + [];
        CaptureUnit(d[0], []);
      } else {
        var tail := rest[..n - |e|];
        assert Escape(d)[..n] == e + tail;
        CaptureUnit(d[0], tail);
        CaptureCut(d[1..], n - |e|);
        var k :| 0 <= k <= |d[1..]| && CaptureValue(tail) == Escape(d[1..][..k]);
        assert d[..k + 1][0] == d[0] && d[..k + 1][1..] == d[1..][..k];
      }
    }
  }

  /** With the corrected decoder, every cut of a streamed literal shows a
      prefix of the text being sent. */
  lemma CapturePrefix(d: string, n: nat)
    requires n <= |Escape(d)|
    ensures IsPrefix(Unescape(CaptureValue(Escape(d)[..n])), d)
  {
    CaptureCut(d, n);
    var k :| 0 <= k <= |d| && CaptureValue(Escape(d)[..n]) == Escape(d[..k]);
    UnescapeEscape(d[..k]);
  }

  /** With the chained replaces the same holds for texts without a
      backslash, the only ones they decode correctly. */
  lemma CapturePrefixAsWritten(d: string, n: nat)
    requires n <= |Escape(d)|
    requires '\\' !in d
    ensures IsPrefix(UnescapeAsWritten(CaptureValue(Escape(d)[..n])), d)
  {
    CaptureCut(d, n);
    var k :| 0 <= k <= |d| && CaptureValue(Escape(d)[..n]) == Escape(d[..k]);
    assert '\\' !in d[..k];
    AsWrittenInvertsWithoutBackslash(d[..k]);
  }

  /** A cut inside the first escape unit decodes to nothing or to its
      character: a half-sent backslash pair is held back. */
  lemma CaptureUnitCut(c: char, n: nat)
    requires n <= |EscapeChar(c)|
    ensures var shown := Unescape(CaptureValue(EscapeChar(c)[..n]));
      shown == [] || shown == [c]
  {
    var e := EscapeChar(c);
    if n == 0 {
      assert e[..n] == [];
    } else if n == 1 && |e| == 2 {
      assert e[..n] == ['\\'];
    } else {
      assert e[..n] == e + [];
      CaptureUnit(c, []);
      UnescapeUnit(c, []);
    }
  }

  /** The header the prompt asks for, exactly as the model starts its answer. */
  const StreamHeader: string := "{\"description\": \""

  /** The header with its separator: the value starts right after it. */
  lemma ValueAfterKey(x: string)
    ensures ValueStart(DescriptionKey + ": \"" + x) == Some(x)
  {
    var t := ": \"" + x;
    assert DescriptionKey + ": \"" + x == DescriptionKey + t;
    ValueAfterColonSpaceQuote(DescriptionKey, t);
    assert t[3..] == x;
  }

  /** The key, then a colon, one space and a quote: the value starts right
      after the quote. */
  lemma ValueAfterColonSpaceQuote(k: string, t: string)
    requires k == DescriptionKey
    requires |t| >= 3 && t[0] == ':' && t[1] == ' ' && t[2] == '"'
    ensures ValueStart(k + t) == Some(t[3..])
  {
    KeyThen(k, t);
    ColonSpaceQuote(t);
  }

  /** `k + t` starts with `k`, and `t` is what follows it. */
  lemma KeyThen(k: string, t: string)
    ensures StartsWith(k + t, k) && (k + t)[|k|..] == t
  {
    assert (k + t)[..|k|] == k;
  }

  /** Skipping the space around the colon of `: "`. */
  lemma ColonSpaceQuote(t: string)
    requires |t| >= 3 && t[0] == ':' && t[1] == ' ' && t[2] == '"'
    ensures TrimStart(t) == t && TrimStart(t[1..]) == t[2..] && t[2..][1..] == t[3..]
  {
    assert !IsSpace(t[0]) && IsSpace(t[1]) && !IsSpace(t[2]);
    assert t[1..][1..] == t[2..];
    assert TrimStart(t[2..]) == t[2..];
  }

  /** The key followed directly by `:"`, as `JSON.stringify` writes it. */
  lemma ValueAfterTightKey(x: string)
    ensures ValueStart(DescriptionKey + ":\"" + x) == Some(x)
  {
    var t := ":\"" + x;
    assert DescriptionKey + ":\"" + x == DescriptionKey + t;
    ValueAfterColonQuote(DescriptionKey, t);
    assert t[2..] == x;
  }

  /** The key, then a colon and a quote with no space between: the value
      starts right after the quote. */
  lemma ValueAfterColonQuote(k: string, t: string)
    requires k == DescriptionKey
    requires |t| >= 2 && t[0] == ':' && t[1] == '"'
    ensures ValueStart(k + t) == Some(t[2..])
  {
    KeyThen(k, t);
    assert !IsSpace(t[0]) && !IsSpace(t[1]);
    assert TrimStart(t) == t;
    assert TrimStart(t[1..]) == t[1..];
  }

  /** The same for the header as `JSON.stringify` writes it. */
  lemma TightHeaderFound(x: string)
    ensures FindDescription("{" + DescriptionKey + ":\"" + x) == Some(CaptureValue(x))
  {
    var s := "{" + DescriptionKey + ":\"" + x;
    assert !StartsWith(s, DescriptionKey) by { assert s[0] != DescriptionKey[0]; }
    assert s[1..] == DescriptionKey + ":\"" + x;
    ValueAfterTightKey(x);
  }

  /** Whatever follows the header is what the scan captures from. */
  lemma HeaderFound(x: string)
    ensures FindDescription(StreamHeader + x) == Some(CaptureValue(x))
  {
    var s := StreamHeader + x;
    assert !StartsWith(s, DescriptionKey) by { assert s[0] != DescriptionKey[0]; }
    assert s[1..] == DescriptionKey + ": \"" + x;
    ValueAfterKey(x);
  }
}
