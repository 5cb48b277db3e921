/** `unescape_string` of `src/util.rs`: two replace-all passes, the first removing a double
    quote at the very start and one at the very end, the second turning each `\"` into `"`. */
module Util {

  /** The first pass, `(^"|"$)` replaced by nothing: a `"` that opens the string goes, and
      so does a `"` that closes what is left. A lone `"` is matched once, by `^"`. */
  function StripQuotes(s: string): (r: string)
    ensures |r| <= |s| <= |r| + 2
    ensures r == s[..|r|] || (|r| < |s| && r == s[1..|r| + 1])
  {
    DropClosing(DropOpening(s))
  }

  function DropOpening(s: string): string {
    if s != [] && s[0] == '"' then s[1..] else s
  }

  function DropClosing(s: string): string {
    if s != [] && s[|s| - 1] == '"' then s[..|s| - 1] else s
  }

  /** The second pass, `\\"` replaced by `"`: matches are found left to right and do not
      overlap, so after a match the scan resumes behind its quote. */
  function ReplaceEscaped(s: string): (r: string)
    ensures |r| <= |s|
  {
    if |s| >= 2 && s[0] == '\\' && s[1] == '"' then "\"" + ReplaceEscaped(s[2..])
    else if s == [] then []
    else [s[0]] + ReplaceEscaped(s[1..])
  }

  /** `unescape_string(s)`: never longer than its input. */
  function Unescape(s: string): (r: string)
    ensures |r| <= |s|
  {
    ReplaceEscaped(StripQuotes(s))
  }

  // ---------------------------------------------------------------------------
  // The quote-stripping pass

  /** Only the first and the last character can be removed, each on its own test: the first
      when it is `"`, the last when it is `"`, and everything between is kept verbatim. */
  lemma StripQuotesEnds(s: string)
    requires |s| >= 2
    ensures StripQuotes(s) ==
      (if s[0] == '"' then "" else [s[0]]) + s[1..|s| - 1] +
      (if s[|s| - 1] == '"' then "" else [s[|s| - 1]])
  {
    var d := DropOpening(s);
    if s[0] == '"' {
      assert d == s[1..];
    } else {
      assert d == [s[0]] + s[1..];
    }
    assert d[|d| - 1] == s[|s| - 1];
    if s[|s| - 1] == '"' {
      assert s[1..] == s[1..|s| - 1] + [s[|s| - 1]];
    } else {
      assert s[1..] == s[1..|s| - 1] + [s[|s| - 1]];
    }
  }

  /** Strings of at most one character: a lone `"` disappears, anything else stays. */
  lemma StripQuotesShort(s: string)
    requires |s| <= 1
    ensures StripQuotes(s) == if s == "\"" then "" else s
  {
  }

  /** The stripping pass removes nothing from a string that neither starts nor ends with
      `"`; in particular from one that contains no `"` at all. */
  lemma StripQuotesKeeps(s: string)
    requires s == [] || (s[0] != '"' && s[|s| - 1] != '"')
    ensures StripQuotes(s) == s
  {
  }

  // ---------------------------------------------------------------------------
  // The unescaping pass

  /** Count of characters other than the backslash. */
  function WithoutBackslashes(s: string): (r: string)
    ensures |r| <= |s|
  {
    if s == [] then []
    else if s[0] == '\\' then WithoutBackslashes(s[1..])
    else [s[0]] + WithoutBackslashes(s[1..])
  }

  /** The unescaping pass deletes backslashes and nothing else: every other character,
      quotes included, survives in order. */
  lemma {:induction false} ReplaceEscapedOnlyDropsBackslashes(s: string)
    ensures WithoutBackslashes(ReplaceEscaped(s)) == WithoutBackslashes(s)
  {
    if |s| >= 2 && s[0] == '\\' && s[1] == '"' {
      ReplaceEscapedOnlyDropsBackslashes(s[2..]);
      assert s[1..][1..] == s[2..];
      assert ("\"" + ReplaceEscaped(s[2..]))[1..] == ReplaceEscaped(s[2..]);
    } else if s != [] {
      ReplaceEscapedOnlyDropsBackslashes(s[1..]);
      assert ([s[0]] + ReplaceEscaped(s[1..]))[1..] == ReplaceEscaped(s[1..]);
    }
  }

  /** A string with no `\"` in it is left as it is. */
  lemma {:induction false} ReplaceEscapedNoPair(s: string)
    requires forall i :: 0 <= i < |s| - 1 ==> !(s[i] == '\\' && s[i + 1] == '"')
    ensures ReplaceEscaped(s) == s
  {
    if s != [] {
      assert !(|s| >= 2 && s[0] == '\\' && s[1] == '"');
      ReplaceEscapedNoPair(s[1..]);
    }
  }

  /** No match straddles the end of a piece that does not end in a backslash, so the pass
      works piece by piece. */
  lemma {:induction false} ReplaceEscapedConcat(a: string, b: string)
    requires a == [] || a[|a| - 1] != '\\'
    ensures ReplaceEscaped(a + b) == ReplaceEscaped(a) + ReplaceEscaped(b)
  {
    if a == [] {
      assert a + b == b;
    } else if |a| >= 2 && a[0] == '\\' && a[1] == '"' {
      DropConcat(a, b, 2);
      ReplaceEscapedConcat(a[2..], b);
      UnfoldPair(a + b);
      UnfoldPair(a);
      Assoc("\"", ReplaceEscaped(a[2..]), ReplaceEscaped(b));
    } else {
      DropConcat(a, b, 1);
      assert |a| == 1 ==> a[0] != '\\';
      ReplaceEscapedConcat(a[1..], b);
      UnfoldChar(a + b);
      UnfoldChar(a);
      Assoc([a[0]], ReplaceEscaped(a[1..]), ReplaceEscaped(b));
    }
  }

  lemma DropConcat<T>(a: seq<T>, b: seq<T>, n: nat)
    requires n <= |a|
    ensures (a + b)[n..] == a[n..] + b
    ensures forall i :: 0 <= i < n ==> (a + b)[i] == a[i]
  {
  }

  lemma Assoc<T>(x: seq<T>, y: seq<T>, z: seq<T>)
    ensures x + (y + z) == (x + y) + z
  {
  }

  /** One step of the pass at a `\"` pair. */
  lemma UnfoldPair(s: string)
    requires |s| >= 2 && s[0] == '\\' && s[1] == '"'
    ensures ReplaceEscaped(s) == "\"" + ReplaceEscaped(s[2..])
  {
  }

  /** One step of the pass at any other character. */
  lemma UnfoldChar(s: string)
    requires s != [] && !(|s| >= 2 && s[0] == '\\' && s[1] == '"')
    ensures ReplaceEscaped(s) == [s[0]] + ReplaceEscaped(s[1..])
  {
  }

  /** A backslash at the very end is never part of a match, so it is kept. */
  lemma {:induction false} ReplaceEscapedLastBackslash(s: string)
    requires s != [] && s[|s| - 1] == '\\'
    ensures var r := ReplaceEscaped(s); r != [] && r[|r| - 1] == '\\'
  {
    if |s| >= 2 && s[0] == '\\' && s[1] == '"' {
      ReplaceEscapedLastBackslash(s[2..]);
    } else if |s| > 1 {
      ReplaceEscapedLastBackslash(s[1..]);
    }
  }

  // ---------------------------------------------------------------------------
  // The inverse: quoting a string

  /** Each `"` written as `\"`. */
  function Escape(s: string): (r: string)
    ensures r == [] || r[0] != '"'
  {
    if s == [] then []
    else if s[0] == '"' then "\\\"" + Escape(s[1..])
    else [s[0]] + Escape(s[1..])
  }

  /** `s` escaped and put between double quotes, the form the unescaping undoes. */
  function Quote(s: string): string {
    "\"" + Escape(s) + "\""
  }

  /** Unescaping undoes escaping, for every string, including ones that already contain
      backslashes. */
  lemma {:induction false} ReplaceEscapedEscape(s: string)
    ensures ReplaceEscaped(Escape(s)) == s
  {
    if s != [] {
      ReplaceEscapedEscape(s[1..]);
      var e := Escape(s[1..]);
      if s[0] == '"' {
        assert ("\\\"" + e)[2..] == e;
      } else {
        assert ([s[0]] + e)[1..] == e;
      }
    }
  }

  /** `unescape_string` recovers any string from its quoted form. */
  lemma UnescapeQuote(s: string)
    ensures Unescape(Quote(s)) == s
  {
    var e := Escape(s);
    assert DropOpening(Quote(s)) == e + "\"";
    assert DropClosing(e + "\"") == e;
    ReplaceEscapedEscape(s);
  }

  // ---------------------------------------------------------------------------
  // unescape_string as a whole

  /** The example of the unit test in `src/util.rs`. */
  lemma UnescapeExample()
    ensures Unescape("\"lmao \\\"i\\\"cons\"") == "lmao \"i\"cons"
  {
    ExampleStripped();
    ExampleJoined();
    ReplaceEscapedTwoPairs("lmao ", "i", "cons");
  }

  /** The example after the first pass, cut at its two `\"` pairs. */
  lemma ExampleStripped()
    ensures StripQuotes("\"lmao \\\"i\\\"cons\"") == "lmao " + "\\\"" + "i" + "\\\"" + "cons"
  {
  }

  /** The expected result, cut at its two quotes. */
  lemma ExampleJoined()
    ensures "lmao " + "\"" + "i" + "\"" + "cons" == "lmao \"i\"cons"
  {
  }

  /** Three pieces without backslashes joined by `\"`: each pair becomes `"` and the pieces
      are kept. */
  lemma ReplaceEscapedTwoPairs(a: string, b: string, c: string)
    requires forall k :: 0 <= k < |a| ==> a[k] != '\\'
    requires forall k :: 0 <= k < |b| ==> b[k] != '\\'
    requires forall k :: 0 <= k < |c| ==> c[k] != '\\'
    ensures ReplaceEscaped(a + "\\\"" + b + "\\\"" + c) == a + "\"" + b + "\"" + c
  {
    var p := "\\\"";
    ReplaceEscapedNoPair(c);
    ReplaceEscapedAfterPlain(b, c);
    ReplaceEscapedAfterPlain(a, b + p + c);
    Assoc(a + p, b + p, c);
    Assoc(a + p, b, p);
    var q := "\"";
    Assoc(a + q, b + q, c);
    Assoc(a + q, b, q);
  }

  /** A piece without backslashes followed by `\"` and the rest: the piece is kept, the pair
      becomes `"`, and the pass goes on with the rest. */
  lemma ReplaceEscapedAfterPlain(a: string, b: string)
    requires forall k :: 0 <= k < |a| ==> a[k] != '\\'
    ensures ReplaceEscaped(a + "\\\"" + b) == a + "\"" + ReplaceEscaped(b)
  {
    var p := "\\\"" + b;
    ReplaceEscapedNoPair(a);
    ReplaceEscapedConcat(a, p);
    ReplaceEscapedPair(b);
    Assoc(a, "\\\"", b);
    Assoc(a, "\"", ReplaceEscaped(b));
  }

  lemma ReplaceEscapedPair(t: string)
    ensures ReplaceEscaped("\\\"" + t) == "\"" + ReplaceEscaped(t)
  {
    assert ("\\\"" + t)[2..] == t;
  }

  /** A string without any `"` comes back unchanged. */
  lemma UnescapeNoQuote(s: string)
    requires forall i :: 0 <= i < |s| ==> s[i] != '"'
    ensures Unescape(s) == s
  {
    StripQuotesKeeps(s);
    ReplaceEscapedNoPair(s);
  }

  /** The stripping runs first: an input ending in `\"` loses its closing quote before the
      second pass can see the pair, so the result ends in the backslash. */
  lemma UnescapeEscapedEnd(s: string)
    requires |s| >= 2 && s[|s| - 2] == '\\' && s[|s| - 1] == '"'
    ensures var r := Unescape(s); r != [] && r[|r| - 1] == '\\'
  {
    StripQuotesEnds(s);
    var t := StripQuotes(s);
    assert t != [] && t[|t| - 1] == '\\';
    ReplaceEscapedLastBackslash(t);
  }
}
