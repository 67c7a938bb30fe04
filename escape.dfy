/**
 * `NBTTag.StringEntry.escape`: quotes a string for the text format. The quote character is the
 * opposite of the first quote character in the string (`"` if there is none); backslashes and
 * occurrences of the chosen quote get a preceding backslash.
 */
module StringEntry {
  import opened Wrappers

  const Backslash: char := '\\'
  const SingleQuote: char := '\''
  const DoubleQuote: char := '"'

  predicate IsQuote(c: char)
  {
    c == SingleQuote || c == DoubleQuote
  }

  /** The first quote character of `s`, if any. */
  function FirstQuote(s: string): (r: Option<char>)
    ensures r.Some? ==> IsQuote(r.value) && r.value in s
    ensures r.None? <==> forall i :: 0 <= i < |s| ==> !IsQuote(s[i])
  {
    if s == [] then None
    else if IsQuote(s[0]) then Some(s[0])
    else
      var r := FirstQuote(s[1..]);
      assert r.None? <==> forall i :: 0 <= i < |s| ==> !IsQuote(s[i]) by {
        if r.None? {
          forall i | 0 <= i < |s|
            ensures !IsQuote(s[i])
          {
            if i > 0 {
              assert s[i] == s[1..][i - 1];
            }
          }
        } else {
          assert r.value in s[1..];
        }
      }
      r
  }

  /** The other quote character. */
  function Opposite(q: char): char
  {
    if q == DoubleQuote then SingleQuote else DoubleQuote
  }

  /** The quote the escaper surrounds `s` with. */
  function ChosenQuote(s: string): (q: char)
    ensures IsQuote(q)
    ensures FirstQuote(s).None? ==> q == DoubleQuote
    ensures FirstQuote(s) == Some(DoubleQuote) ==> q == SingleQuote
    ensures FirstQuote(s) == Some(SingleQuote) ==> q == DoubleQuote
  {
    match FirstQuote(s)
    case None => DoubleQuote
    case Some(c) => Opposite(c)
  }

  /** A character is escaped iff it is a backslash or the quote in use. */
  predicate NeedsEscape(c: char, quotation: char)
  {
    c == Backslash || (IsQuote(c) && c == quotation)
  }

  /** What one input character becomes. */
  function Piece(c: char, quotation: char): string
  {
    if NeedsEscape(c, quotation) then [Backslash, c] else [c]
  }

  /** The text between the two quotes. */
  function EscapeBody(s: string, quotation: char): string
  {
    if s == [] then [] else Piece(s[0], quotation) + EscapeBody(s[1..], quotation)
  }

  /** How many characters of `s` get a backslash. */
  function EscapeCount(s: string, quotation: char): nat
  {
    if s == [] then 0 else (if NeedsEscape(s[0], quotation) then 1 else 0) + EscapeCount(s[1..], quotation)
  }

  /** `escape(s)`: the body between two copies of the chosen quote. */
  function Escape(s: string): (r: string)
    ensures |r| >= 2 && r[0] == ChosenQuote(s) && r[|r| - 1] == ChosenQuote(s)
  {
    var q := ChosenQuote(s);
    [q] + EscapeBody(s, q) + [q]
  }

  /** Removes the backslash in front of every escaped character. */
  function Unescape(b: string): string
  {
    if b == [] then []
    else if b[0] == Backslash && |b| >= 2 then [b[1]] + Unescape(b[2..])
    else [b[0]] + Unescape(b[1..])
  }

  /** The body is the input plus one backslash per escaped character. */
  lemma {:induction false} EscapeBodyLength(s: string, quotation: char)
    ensures |EscapeBody(s, quotation)| == |s| + EscapeCount(s, quotation)
  {
    if s != [] {
      EscapeBodyLength(s[1..], quotation);
    }
  }

  /** Stripping the added backslashes gives the input back, whatever the quote. */
  lemma {:induction false} UnescapeOfEscapeBody(s: string, quotation: char)
    ensures Unescape(EscapeBody(s, quotation)) == s
  {
    if s != [] {
      var rest := EscapeBody(s[1..], quotation);
      UnescapeOfEscapeBody(s[1..], quotation);
      if NeedsEscape(s[0], quotation) {
        assert EscapeBody(s, quotation) == [Backslash, s[0]] + rest;
        assert (([Backslash, s[0]] + rest)[2..]) == rest;
      } else {
        assert EscapeBody(s, quotation) == [s[0]] + rest;
        assert ([s[0]] + rest)[1..] == rest;
      }
    }
  }

  /**
   * The length of `escape(s)` is `|s| + 2 + (number of escaped characters)`, and its interior
   * unescapes to `s`.
   */
  lemma EscapeRoundTrip(s: string)
    ensures |Escape(s)| == |s| + 2 + EscapeCount(s, ChosenQuote(s))
    ensures Unescape(Escape(s)[1..|Escape(s)| - 1]) == s
  {
    var q := ChosenQuote(s);
    EscapeBodyLength(s, q);
    UnescapeOfEscapeBody(s, q);
    assert Escape(s)[1..|Escape(s)| - 1] == EscapeBody(s, q);
  }

  lemma {:induction false} EscapeBodyAppend(s: string, c: char, quotation: char)
    ensures EscapeBody(s + [c], quotation) == EscapeBody(s, quotation) + Piece(c, quotation)
  {
    if s != [] {
      assert (s + [c])[1..] == s[1..] + [c];
      EscapeBodyAppend(s[1..], c, quotation);
    } else {
      assert [c][1..] == [];
    }
  }

  lemma {:induction false} FirstQuoteAppend(s: string, c: char)
    ensures FirstQuote(s + [c]) == if FirstQuote(s).Some? then FirstQuote(s) else if IsQuote(c) then Some(c) else None
  {
    if s != [] {
      assert (s + [c])[1..] == s[1..] + [c];
      FirstQuoteAppend(s[1..], c);
    } else {
      assert [c][1..] == [];
    }
  }

  /** Before any quote character is met, the quote in use does not matter. */
  lemma {:induction false} EscapeBodyWithoutQuotes(s: string, q1: char, q2: char)
    requires FirstQuote(s).None?
    ensures EscapeBody(s, q1) == EscapeBody(s, q2)
  {
    if s != [] {
      assert !IsQuote(s[0]);
      EscapeBodyWithoutQuotes(s[1..], q1, q2);
    }
  }

  /**
   * One more character: the quotation variable is set at the first quote met, and the body
   * grows by that character's piece under the quote now in use.
   */
  lemma EscapeStep(s: string, c: char, before: char, after: char)
    requires before == Quotation(s)
    requires after == if before == '\0' && IsQuote(c) then Opposite(c) else before
    ensures after == Quotation(s + [c])
    ensures EscapeBody(s + [c], after) == EscapeBody(s, before) + Piece(c, after)
  {
    FirstQuoteAppend(s, c);
    if before != after {
      EscapeBodyWithoutQuotes(s, before, after);
    }
    EscapeBodyAppend(s, c, after);
  }

  /** The quotation variable after reading `s`: `0` until a quote is met. */
  function Quotation(s: string): char
  {
    match FirstQuote(s)
    case None => '\0'
    case Some(c) => Opposite(c)
  }

  /**
   * The `StringBuilder` loop of `escape`: a placeholder first character, one piece per input
   * character, then the placeholder replaced by the quote and a closing quote appended.
   */
  method EscapeString(s: string) returns (r: string)
    ensures r == Escape(s)
  {
    var builder: string := [' '];
    var quotation: char := '\0';
    var i := 0;
    while i < |s|
      invariant 0 <= i <= |s|
      invariant quotation == Quotation(s[..i])
      invariant builder == [' '] + EscapeBody(s[..i], quotation)
    {
      var current := s[i];
      ghost var before, written := quotation, builder;
      if current == Backslash {
        builder := builder + [Backslash];
      } else if current == DoubleQuote || current == SingleQuote {
        if quotation == '\0' {
          quotation := if current == DoubleQuote then SingleQuote else DoubleQuote;
        }
        if quotation == current {
          builder := builder + [Backslash];
        }
      }
      builder := builder + [current];
      assert builder == written + Piece(current, quotation);
      EscapeStep(s[..i], current, before, quotation);
      assert s[..i + 1] == s[..i] + [current];
      assert builder == [' '] + (EscapeBody(s[..i], before) + Piece(current, quotation));
      i := i + 1;
    }
    assert s[..i] == s;
    if quotation == '\0' {
      EscapeBodyWithoutQuotes(s, quotation, DoubleQuote);
      quotation := DoubleQuote;
    }
    r := [quotation] + builder[1..] + [quotation];
  }
}
