/**
 * `ArrayUtil.toString`: the decimal elements of an array between a prefix and a suffix,
 * separated by a delimiter, as a `StringJoiner` builds them. The parser at the end reads
 * the bracketed form back, which shows that no information is lost.
 */
module ArrayUtil {
  import opened Wrappers
  import opened Binary
  import Decimal

  /** The parts separated by the delimiter (what `StringJoiner` accumulates). */
  function JoinParts(parts: seq<string>, delimiter: string): string
  {
    if |parts| == 0 then ""
    else if |parts| == 1 then parts[0]
    else JoinParts(parts[..|parts| - 1], delimiter) + delimiter + parts[|parts| - 1]
  }

  /** `StringJoiner(delimiter, prefix, suffix)` after adding `parts`, then `toString()`. */
  function Joined(prefix: string, delimiter: string, suffix: string, parts: seq<string>): string
  {
    prefix + JoinParts(parts, delimiter) + suffix
  }

  /** The decimal form of each element (`ar[i] + ""`). */
  function RenderAll(xs: seq<int>): (r: seq<string>)
    ensures |r| == |xs|
    ensures forall i :: 0 <= i < |xs| ==> r[i] == Decimal.Render(xs[i])
  {
    if xs == [] then [] else RenderAll(xs[..|xs| - 1]) + [Decimal.Render(xs[|xs| - 1])]
  }

  /** The loop shared by the three `toString(ar, prefix, delimiter, suffix)` overloads. */
  method Join(xs: seq<int>, prefix: string, delimiter: string, suffix: string) returns (r: string)
    ensures r == Joined(prefix, delimiter, suffix, RenderAll(xs))
  {
    var body := "";
    var i := 0;
    while i < |xs|
      invariant 0 <= i <= |xs|
      invariant body == JoinParts(RenderAll(xs[..i]), delimiter)
    {
      assert xs[..i + 1][..i] == xs[..i];
      if i > 0 {
        body := body + delimiter;
      }
      body := body + Decimal.Render(xs[i]);
      i := i + 1;
    }
    assert xs[..i] == xs;
    r := prefix + body + suffix;
  }

  /** `toString(byte[] ar, prefix, delimiter, suffix)`. */
  method BytesToString(ar: array<Int8>, prefix: string, delimiter: string, suffix: string) returns (r: string)
    ensures r == Joined(prefix, delimiter, suffix, RenderAll(ar[..]))
  {
    r := Join(ar[..], prefix, delimiter, suffix);
  }

  /** `toString(int[] ar, prefix, delimiter, suffix)`. */
  method IntsToString(ar: array<Int32>, prefix: string, delimiter: string, suffix: string) returns (r: string)
    ensures r == Joined(prefix, delimiter, suffix, RenderAll(ar[..]))
  {
    r := Join(ar[..], prefix, delimiter, suffix);
  }

  /** `toString(long[] ar, prefix, delimiter, suffix)`. */
  method LongsToString(ar: array<Int64>, prefix: string, delimiter: string, suffix: string) returns (r: string)
    ensures r == Joined(prefix, delimiter, suffix, RenderAll(ar[..]))
  {
    r := Join(ar[..], prefix, delimiter, suffix);
  }

  /** The one-argument overloads: brackets and a comma. */
  method BytesToBracketed(ar: array<Int8>) returns (r: string)
    ensures r == Joined("[", ",", "]", RenderAll(ar[..]))
  {
    r := BytesToString(ar, "[", ",", "]");
  }

  method IntsToBracketed(ar: array<Int32>) returns (r: string)
    ensures r == Joined("[", ",", "]", RenderAll(ar[..]))
  {
    r := IntsToString(ar, "[", ",", "]");
  }

  method LongsToBracketed(ar: array<Int64>) returns (r: string)
    ensures r == Joined("[", ",", "]", RenderAll(ar[..]))
  {
    r := LongsToString(ar, "[", ",", "]");
  }

  /** An empty array yields just the prefix and the suffix. */
  lemma JoinedEmpty(prefix: string, delimiter: string, suffix: string)
    ensures Joined(prefix, delimiter, suffix, RenderAll([])) == prefix + suffix
  {
  }

  // Reading the bracketed form back.

  /** The position of the last `c` in `s`, if any. */
  function LastIndexOf(s: string, c: char): (r: Option<nat>)
    ensures r.Some? ==> r.value < |s| && s[r.value] == c && c !in s[r.value + 1..]
    ensures r.None? ==> c !in s
  {
    if s == [] then None
    else if s[|s| - 1] == c then Some(|s| - 1)
    else
      match LastIndexOf(s[..|s| - 1], c)
      case None => None
      case Some(k) =>
        assert s[k + 1..] == s[..|s| - 1][k + 1..] + [s[|s| - 1]];
        Some(k)
  }

  /** `s` cut at every `c`. */
  function Split(s: string, c: char): (r: seq<string>)
    decreases |s|
  {
    match LastIndexOf(s, c)
    case None => [s]
    case Some(k) => Split(s[..k], c) + [s[k + 1..]]
  }

  function ParseAll(parts: seq<string>): Option<seq<int>>
  {
    if parts == [] then Some([])
    else
      var front := ParseAll(parts[..|parts| - 1]);
      var last := Decimal.Parse(parts[|parts| - 1]);
      if front.Some? && last.Some? then Some(front.value + [last.value]) else None
  }

  /** Reads `[e0,e1,...]` back into the numbers. */
  function ParseBracketed(s: string): Option<seq<int>>
  {
    if |s| >= 2 && s[0] == '[' && s[|s| - 1] == ']' then
      var inner := s[1..|s| - 1];
      if inner == "" then Some([]) else ParseAll(Split(inner, ','))
    else None
  }

  lemma {:induction false} LastIndexOfAfter(a: string, c: char, b: string)
    requires c !in b
    ensures LastIndexOf(a + [c] + b, c) == Some(|a|)
  {
    if b != [] {
      var s := a + [c] + b;
      assert s[..|s| - 1] == a + [c] + b[..|b| - 1];
      LastIndexOfAfter(a, c, b[..|b| - 1]);
    }
  }

  lemma {:induction false} SplitJoin(parts: seq<string>, c: char)
    requires |parts| >= 1
    requires forall i :: 0 <= i < |parts| ==> c !in parts[i]
    ensures Split(JoinParts(parts, [c]), c) == parts
  {
    if |parts| == 1 {
      assert c !in parts[0];
    } else {
      var front := JoinParts(parts[..|parts| - 1], [c]);
      var last := parts[|parts| - 1];
      var s := front + [c] + last;
      assert JoinParts(parts, [c]) == s;
      LastIndexOfAfter(front, c, last);
      assert s[..|front|] == front;
      assert s[|front| + 1..] == last;
      SplitJoin(parts[..|parts| - 1], c);
      assert parts == parts[..|parts| - 1] + [last];
    }
  }

  lemma {:induction false} ParseAllRenderAll(xs: seq<int>)
    ensures ParseAll(RenderAll(xs)) == Some(xs)
  {
    if xs != [] {
      var front, x := xs[..|xs| - 1], xs[|xs| - 1];
      var parts := RenderAll(xs);
      assert parts == RenderAll(front) + [Decimal.Render(x)];
      assert parts[..|parts| - 1] == RenderAll(front);
      assert parts[|parts| - 1] == Decimal.Render(x);
      ParseAllRenderAll(front);
      Decimal.ParseOfRender(x);
      assert ParseAll(parts) == Some(front + [x]);
      assert xs == front + [x];
    }
  }

  lemma NoCommaInRender(x: int)
    ensures ',' !in Decimal.Render(x) && |Decimal.Render(x)| >= 1
  {
    Decimal.RenderCharacters(x);
  }

  /** The one-argument rendering of any array reads back as its elements. */
  lemma ParseBracketedFrame(body: string)
    ensures ParseBracketed("[" + body + "]") == if body == "" then Some([]) else ParseAll(Split(body, ','))
  {
    var s := "[" + body + "]";
    assert s[1..|s| - 1] == body;
  }

  lemma ParseBracketedOfJoined(xs: seq<int>)
    ensures ParseBracketed(Joined("[", ",", "]", RenderAll(xs))) == Some(xs)
  {
    var parts := RenderAll(xs);
    var body := JoinParts(parts, ",");
    assert Joined("[", ",", "]", parts) == "[" + body + "]";
    ParseBracketedFrame(body);
    if xs != [] {
      forall i | 0 <= i < |parts| ensures ',' !in parts[i] {
        NoCommaInRender(xs[i]);
      }
      NoCommaInRender(xs[0]);
      JoinPartsNonEmpty(parts, ",");
      SplitJoin(parts, ',');
      ParseAllRenderAll(xs);
    }
  }

  /** Joining a first part with the others: the first part, then a delimiter and the others if there are any. */
  lemma {:induction false} JoinPartsCons(p: string, ps: seq<string>, delimiter: string)
    ensures JoinParts([p] + ps, delimiter) == p + (if ps == [] then "" else delimiter + JoinParts(ps, delimiter))
    decreases |ps|
  {
    var all := [p] + ps;
    if ps == [] {
      assert all == [p];
    } else if |ps| == 1 {
      assert all[..|all| - 1] == [p];
      assert JoinParts(ps, delimiter) == ps[0];
    } else {
      var front := ps[..|ps| - 1];
      assert all[..|all| - 1] == [p] + front;
      JoinPartsCons(p, front, delimiter);
      assert JoinParts(ps, delimiter) == JoinParts(front, delimiter) + delimiter + ps[|ps| - 1];
    }
  }

  lemma {:induction false} JoinPartsNonEmpty(parts: seq<string>, delimiter: string)
    requires |parts| >= 1 && |parts[0]| >= 1
    ensures JoinParts(parts, delimiter) != ""
  {
    if |parts| > 1 {
      JoinPartsNonEmpty(parts[..|parts| - 1], delimiter);
    }
  }
}
