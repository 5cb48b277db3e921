/** The string primitives the line tokenizer relies on: Rust's `char::is_whitespace`,
    `str::trim`, `str::split_whitespace` and itertools' `join(" ")`. */
module Text {

  /** Unicode `White_Space` (the property `char::is_whitespace` tests): U+0009..U+000D,
      U+0020, U+0085, U+00A0, U+1680, U+2000..U+200A, U+2028, U+2029, U+202F, U+205F
      and U+3000. */
  predicate IsSpace(c: char)
    ensures c == ' ' || '\t' <= c <= '\r' ==> IsSpace(c)
    ensures IsSpace(c) ==> c <= '\U{3000}'
  {
    ('\t' <= c <= '\r') || c == ' ' || c == '\U{0085}' || c == '\U{00A0}' || c == '\U{1680}'
    || ('\U{2000}' <= c <= '\U{200A}') || c == '\U{2028}' || c == '\U{2029}'
    || c == '\U{202F}' || c == '\U{205F}' || c == '\U{3000}'
  }

  /** Every character of `s` is whitespace (this includes the empty string). */
  predicate Blank(s: string) {
    forall i :: 0 <= i < |s| ==> IsSpace(s[i])
  }

  /** A word as `split_whitespace` yields it: non-empty, no whitespace in it. */
  predicate IsWord(w: string) {
    |w| > 0 && forall i :: 0 <= i < |w| ==> !IsSpace(w[i])
  }

  predicate AllWords(ws: seq<string>) {
    forall i :: 0 <= i < |ws| ==> IsWord(ws[i])
  }

  /** Length of the longest whitespace-free prefix of `s`. */
  function WordLen(s: string): (n: nat)
    ensures n <= |s|
    ensures forall i :: 0 <= i < n ==> !IsSpace(s[i])
    ensures n < |s| ==> IsSpace(s[n])
  {
    if s == [] || IsSpace(s[0]) then 0 else 1 + WordLen(s[1..])
  }

  /** `s.split_whitespace()`: the maximal whitespace-free runs of `s`, left to right. */
  function Words(s: string): (ws: seq<string>)
    ensures AllWords(ws)
    decreases |s|
  {
    if s == [] then []
    else if IsSpace(s[0]) then Words(s[1..])
    else
      var n := WordLen(s);
      [s[..n]] + Words(s[n..])
  }

  /** `words.join(" ")`. */
  function Join(ws: seq<string>): (r: string)
    ensures ws != [] ==> ws[0] <= r
    ensures ws != [] ==> var last := ws[|ws| - 1]; |last| <= |r| && r[|r| - |last|..] == last
  {
    if |ws| == 0 then ""
    else if |ws| == 1 then ws[0]
    else
      var j := Join(ws[1..]);
      assert (ws[0] + " " + j)[|ws[0]| + 1..] == j;
      ws[0] + " " + j
  }

  /** `s.trim_start()`: drops the leading whitespace and nothing else. */
  function TrimStart(s: string): (r: string)
    ensures |r| <= |s| && r == s[|s| - |r|..]
    ensures r == [] || !IsSpace(r[0])
  {
    if s != [] && IsSpace(s[0]) then
      var r := TrimStart(s[1..]);
      assert s[1..][|s| - 1 - |r|..] == s[|s| - |r|..];
      r
    else s
  }

  /** `s.trim_end()`: drops the trailing whitespace and nothing else. */
  function TrimEnd(s: string): (r: string)
    ensures |r| <= |s| && r == s[..|r|]
    ensures r == [] || !IsSpace(r[|r| - 1])
  {
    if s != [] && IsSpace(s[|s| - 1]) then
      var r := TrimEnd(s[..|s| - 1]);
      assert s[..|s| - 1][..|r|] == s[..|r|];
      r
    else s
  }

  /** `s.trim()`. */
  function Trim(s: string): (r: string)
    ensures |r| <= |s|
    ensures r == [] || (!IsSpace(r[0]) && !IsSpace(r[|r| - 1]))
  {
    TrimEnd(TrimStart(s))
  }

  /** What `trim_start` removes is whitespace only. */
  lemma {:induction false} TrimStartSpec(s: string)
    ensures Blank(s[..|s| - |TrimStart(s)|])
  {
    if s != [] && IsSpace(s[0]) {
      TrimStartSpec(s[1..]);
      var r := TrimStart(s);
      assert s[1..][|s| - 1 - |r|..] == s[|s| - |r|..];
      forall i | 0 <= i < |s| - |r| ensures IsSpace(s[i]) {
        if i > 0 { assert s[i] == s[1..][..|s| - 1 - |r|][i - 1]; }
      }
    }
  }

  /** What `trim_end` removes is whitespace only. */
  lemma {:induction false} TrimEndSpec(s: string)
    ensures Blank(s[|TrimEnd(s)|..])
  {
    if s != [] && IsSpace(s[|s| - 1]) {
      var p := s[..|s| - 1];
      TrimEndSpec(p);
      var r := TrimEnd(s);
      assert p[..|r|] == s[..|r|];
      forall i | |r| <= i < |s| ensures IsSpace(s[i]) {
        if i < |s| - 1 { assert s[i] == p[|r|..][i - |r|]; }
      }
    }
  }

  // ---------------------------------------------------------------------------
  // Lemmas about Words

  lemma {:induction false} WordLenAppend(a: string, t: string)
    requires WordLen(a) < |a| || t == [] || IsSpace(t[0])
    ensures WordLen(a + t) == WordLen(a)
  {
    if a == [] {
    } else if IsSpace(a[0]) {
    } else {
      assert (a + t)[1..] == a[1..] + t;
      WordLenAppend(a[1..], t);
    }
  }

  lemma {:induction false} WordLenOfWord(w: string)
    requires IsWord(w)
    ensures WordLen(w) == |w|
  {
    if |w| > 1 {
      WordLenOfWord(w[1..]);
    }
  }

  /** A string has no words exactly when it is blank. */
  lemma {:induction false} WordsEmptyIffBlank(s: string)
    ensures Words(s) == [] <==> Blank(s)
    decreases |s|
  {
    if s != [] {
      if IsSpace(s[0]) {
        WordsEmptyIffBlank(s[1..]);
        if Blank(s[1..]) {
          assert forall i :: 0 <= i < |s| ==> IsSpace(s[i]) by {
            forall i | 0 <= i < |s| ensures IsSpace(s[i]) {
              if i > 0 { assert s[i] == s[1..][i - 1]; }
            }
          }
        }
      }
    }
  }

  /** One whitespace character separates: the words of `a + [c] + b` are those of `a`
      followed by those of `b`. */
  lemma {:induction false} WordsSplit(a: string, c: char, b: string)
    requires IsSpace(c)
    ensures Words(a + [c] + b) == Words(a) + Words(b)
    decreases |a|
  {
    var s := a + [c] + b;
    if a == [] {
      assert s[1..] == b;
    } else if IsSpace(a[0]) {
      assert s[1..] == a[1..] + [c] + b;
      WordsSplit(a[1..], c, b);
    } else {
      var n := WordLen(a);
      WordLenAppend(a, [c] + b);
      assert a + [c] + b == a + ([c] + b);
      assert s[..n] == a[..n];
      if n == |a| {
        assert s[n..] == [c] + b;
        assert a[n..] == [];
      } else {
        assert s[n..] == a[n..] + [c] + b;
        WordsSplit(a[n..], c, b);
      }
    }
  }

  lemma {:induction false} WordsOfWord(w: string)
    requires IsWord(w)
    ensures Words(w) == [w]
  {
    WordLenOfWord(w);
    assert w[..|w|] == w;
    assert w[|w|..] == [];
  }

  /** Leading whitespace contributes no word. */
  lemma WordsBlankPrefix(p: string, r: string)
    requires Blank(p)
    ensures Words(p + r) == Words(r)
  {
    if p == [] {
      assert p + r == r;
    } else {
      var q := p[..|p| - 1];
      assert Blank(q) by {
        forall i | 0 <= i < |q| ensures IsSpace(q[i]) { assert q[i] == p[i]; }
      }
      assert p + r == q + [p[|p| - 1]] + r;
      WordsSplit(q, p[|p| - 1], r);
      WordsEmptyIffBlank(q);
      assert Words(q) == [];
      assert Words(p + r) == Words(q) + Words(r);
    }
  }

  /** Trailing whitespace contributes no word. */
  lemma WordsBlankSuffix(r: string, p: string)
    requires Blank(p)
    ensures Words(r + p) == Words(r)
  {
    if p == [] {
      assert r + p == r;
    } else {
      var q := p[1..];
      assert Blank(q) by {
        forall i | 0 <= i < |q| ensures IsSpace(q[i]) { assert q[i] == p[i + 1]; }
      }
      assert r + p == r + [p[0]] + q;
      WordsSplit(r, p[0], q);
      WordsEmptyIffBlank(q);
      assert Words(r + p) == Words(r) + [];
    }
  }

  lemma WordsTrimStart(s: string)
    ensures Words(TrimStart(s)) == Words(s)
  {
    TrimStartSpec(s);
    var t := TrimStart(s);
    var lead := s[..|s| - |t|];
    assert s == lead + t;
    WordsBlankPrefix(lead, t);
  }

  lemma WordsTrimEnd(t: string)
    ensures Words(TrimEnd(t)) == Words(t)
  {
    TrimEndSpec(t);
    var u := TrimEnd(t);
    var trail := t[|u|..];
    assert t == u + trail;
    WordsBlankSuffix(u, trail);
  }

  /** Trimming a line does not change its words, so `line.trim().split_whitespace()`
      splits the same as `line.split_whitespace()`. */
  lemma WordsTrim(s: string)
    ensures Words(Trim(s)) == Words(s)
  {
    WordsTrimStart(s);
    WordsTrimEnd(TrimStart(s));
  }

  /** Splitting undoes joining: the words of `Join(ws)` are `ws` again. */
  lemma {:induction false} WordsJoin(ws: seq<string>)
    requires AllWords(ws)
    ensures Words(Join(ws)) == ws
  {
    if |ws| == 1 {
      WordsOfWord(ws[0]);
    } else if |ws| > 1 {
      WordsJoin(ws[1..]);
      WordsSplit(ws[0], ' ', Join(ws[1..]));
      WordsOfWord(ws[0]);
    }
  }

  /** `s` is the canonical spelling of its own words: single spaces between words and
      no whitespace at either end. */
  predicate Canonical(s: string) {
    Join(Words(s)) == s
  }

  /** Joining always yields a canonical string. */
  lemma JoinCanonical(ws: seq<string>)
    requires AllWords(ws)
    ensures Canonical(Join(ws))
  {
    WordsJoin(ws);
  }

  /** A canonical string is blank only when empty, and never starts or ends with
      whitespace. */
  lemma {:induction false} CanonicalEnds(s: string)
    requires Canonical(s)
    ensures s != [] ==> !IsSpace(s[0]) && !IsSpace(s[|s| - 1])
  {
    JoinEnds(Words(s));
  }

  lemma {:induction false} JoinEnds(ws: seq<string>)
    requires AllWords(ws)
    ensures var s := Join(ws); |ws| > 0 ==> s != [] && !IsSpace(s[0]) && !IsSpace(s[|s| - 1])
  {
    if |ws| > 1 {
      JoinEnds(ws[1..]);
      var j := Join(ws[1..]);
      assert Join(ws) == ws[0] + " " + j;
      assert Join(ws)[0] == ws[0][0];
      assert Join(ws)[|Join(ws)| - 1] == j[|j| - 1];
    }
  }
}
