/** The conversation-id check of the chat session: the regular expression
    `^[0-9a-f]{8}-[0-9a-f]{4}-[0-9a-f]{4}-[0-9a-f]{4}-[0-9a-f]{12}$` with the
    case-insensitive flag, written out as a sequence of character classes
    that must cover the whole string.
 */
module Uuid {
  import opened Text

  /** One position of the anchored pattern. */
  datatype CharClass = Hex | Dash

  /** `[0-9a-f]` under the `i` flag also accepts `A-F`. */
  predicate InClass(c: char, k: CharClass) {
    match k
    case Hex => '0' <= c <= '9' || 'a' <= c <= 'f' || 'A' <= c <= 'F'
    case Dash => c == '-'
  }

  function Repeat(k: CharClass, n: nat): (r: seq<CharClass>)
    ensures |r| == n && forall j :: 0 <= j < n ==> r[j] == k
  {
    seq(n, _ => k)
  }

  /** The 8-4-4-4-12 layout, one class per character. */
  function UuidPattern(): seq<CharClass> {
    Repeat(Hex, 8) + [Dash] + Repeat(Hex, 4) + [Dash] + Repeat(Hex, 4) + [Dash]
      + Repeat(Hex, 4) + [Dash] + Repeat(Hex, 12)
  }

  /** Anchored at both ends (`^…$`): the string has exactly one character
      per pattern position, each in its class. */
  predicate FullMatch(s: string, pat: seq<CharClass>) {
    |s| == |pat| && forall j :: 0 <= j < |s| ==> InClass(s[j], pat[j])
  }

  /** `uuidRegex.test(s)`. */
  predicate IsUuid(s: string) {
    FullMatch(s, UuidPattern())
  }

  /** The shape the pattern accepts, stated positionally: 36 characters,
      dashes exactly at 8, 13, 18 and 23, hexadecimal digits elsewhere. */
  lemma UuidShape(s: string)
    ensures IsUuid(s) <==>
      && |s| == 36
      && (forall j :: 0 <= j < |s| && j in {8, 13, 18, 23} ==> s[j] == '-')
      && (forall j :: 0 <= j < |s| && j !in {8, 13, 18, 23} ==> InClass(s[j], Hex))
  {
    var pat := UuidPattern();
    assert |pat| == 36;
    forall j | 0 <= j < 36
      ensures pat[j] == (if j in {8, 13, 18, 23} then Dash else Hex)
    {
    }
  }

  /** The `i` flag: folding to lower case neither makes nor breaks a match. */
  lemma {:induction false} CaseInsensitive(s: string)
    ensures IsUuid(ToLower(s)) <==> IsUuid(s)
  {
    var pat := UuidPattern();
    forall j, k: CharClass | 0 <= j < |s|
      ensures InClass(ToLower(s)[j], k) <==> InClass(s[j], k)
    {
    }
  }

  /** A valid id is a non-empty string, so it is also truthy. */
  lemma ValidIsNonEmpty(s: string)
    requires IsUuid(s)
    ensures s != []
  {
  }

  /** A concrete identifier in the 8-4-4-4-12 layout is accepted. */
  lemma ExampleAccepted(s: string)
    requires s == "123E4567-e89b-12d3-a456-426614174000"
    ensures IsUuid(s)
  {
    UuidShape(s);
  }

  /** A well-shaped string with one non-hex letter is rejected. */
  lemma ExampleRejected()
    ensures !IsUuid("123g4567-e89b-12d3-a456-426614174000")
  {
    var s := "123g4567-e89b-12d3-a456-426614174000";
    assert !InClass(s[3], UuidPattern()[3]);
  }
}
