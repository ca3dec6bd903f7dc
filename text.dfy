/** The string utilities the rewrite is built from: white space as Go's
    unicode.IsSpace sees it, TrimSpace, substring search, and splitting a
    document into lines and joining it back. */
module Text {
  import opened Wrappers

  /** Go's unicode.IsSpace: in Latin-1, tab, newline, vertical tab, form
      feed, carriage return, space, U+0085 and U+00A0; above it, the
      characters with the Unicode White_Space property. */
  predicate IsSpace(c: char) {
    if c <= '\U{FF}' then
      c == ' ' || ('\t' <= c <= '\r') || c == '\U{85}' || c == '\U{A0}'
    else
      c == '\U{1680}' || ('\U{2000}' <= c <= '\U{200A}')
      || c == '\U{2028}' || c == '\U{2029}' || c == '\U{202F}' || c == '\U{205F}' || c == '\U{3000}'
  }

  predicate AllSpace(s: string) {
    forall k :: 0 <= k < |s| ==> IsSpace(s[k])
  }

  predicate NoSpace(s: string) {
    forall k :: 0 <= k < |s| ==> !IsSpace(s[k])
  }

  /** A string with no white space at either end. */
  predicate Trimmed(s: string) {
    s == [] || (!IsSpace(s[0]) && !IsSpace(s[|s| - 1]))
  }

  /** Drops the leading white space: what is left is a suffix of `s`, what
      was dropped is all white space, and what is left does not start with any. */
  function TrimLeft(s: string): (r: string)
    ensures |r| <= |s| && r == s[|s| - |r|..]
    ensures AllSpace(s[..|s| - |r|])
    ensures r == [] || !IsSpace(r[0])
  {
    var n := Span(s, true);
    assert s[..n] == s[..|s| - |s[n..]|];
    s[n..]
  }

  /** Drops the trailing white space: what is left is a prefix of `s`, what
      was dropped is all white space, and what is left does not end with any. */
  function TrimRight(s: string): (r: string)
    ensures |r| <= |s| && r == s[..|r|]
    ensures AllSpace(s[|r|..])
    ensures r == [] || !IsSpace(r[|r| - 1])
  {
    s[..|s| - SpanBack(s)]
  }

  /** strings.TrimSpace: `s` with its leading and trailing white space
      removed. */
  function TrimSpace(s: string): (r: string)
    ensures Trimmed(r)
  {
    var l := TrimLeft(s);
    var r := TrimRight(l);
    assert r != [] ==> r[0] == l[0];
    r
  }

  /** TrimSpace removes white space at the ends and nothing else: `s` is the
      result with white space on either side. */
  lemma TrimSpaceInfix(s: string)
    ensures var r := TrimSpace(s);
            exists i :: 0 <= i <= |s| - |r| && s[i..i + |r|] == r && AllSpace(s[..i]) && AllSpace(s[i + |r|..])
  {
    var l := TrimLeft(s);
    var r := TrimRight(l);
    var i := |s| - |l|;
    assert s[i..i + |r|] == r;
    assert s[i + |r|..] == l[|r|..];
  }

  /** Trimming removes white space only at the ends, so a character that no
      line contains is not contained in the trimmed line either. */
  lemma TrimSpaceKeepsOut(s: string, c: char)
    requires c !in s
    ensures c !in TrimSpace(s)
  {
    TrimSpaceInfix(s);
  }

  /** An already trimmed string is its own TrimSpace, and TrimSpace is idempotent. */
  lemma TrimSpaceOfTrimmed(s: string)
    requires Trimmed(s)
    ensures TrimSpace(s) == s
  {
    assert TrimLeft(s) == s;
    assert TrimRight(s) == s;
  }

  /** TrimSpace drops exactly the white space around a trimmed core. */
  lemma TrimSpaceAround(a: string, b: string, c: string)
    requires AllSpace(a) && AllSpace(c) && b != [] && Trimmed(b)
    ensures TrimSpace(a + b + c) == b
  {
    assert a + b + c == a + (b + c);
    TrimLeftOf(a, b + c);
    TrimRightOf(b, c);
  }

  lemma TrimLeftOf(a: string, rest: string)
    requires AllSpace(a) && rest != [] && !IsSpace(rest[0])
    ensures TrimLeft(a + rest) == rest
  {
    SpanOfJoin(a, rest, true);
    assert (a + rest)[|a|..] == rest;
  }

  lemma TrimRightOf(rest: string, c: string)
    requires AllSpace(c) && rest != [] && !IsSpace(rest[|rest| - 1])
    ensures TrimRight(rest + c) == rest
  {
    SpanBackOfJoin(rest, c);
    assert (rest + c)[..|rest|] == rest;
  }

  /** The length of the longest prefix of `s` whose characters are all white
      space (`space`) or all not white space (`!space`). */
  function Span(s: string, space: bool): (n: nat)
    ensures n <= |s|
    ensures forall k :: 0 <= k < n ==> IsSpace(s[k]) == space
    ensures n < |s| ==> IsSpace(s[n]) != space
  {
    if s != [] && IsSpace(s[0]) == space then 1 + Span(s[1..], space) else 0
  }

  /** A run of white space (or of non-white space) followed by a character
      of the other sort spans exactly that run. */
  lemma {:induction false} SpanOfJoin(a: string, b: string, space: bool)
    requires forall k :: 0 <= k < |a| ==> IsSpace(a[k]) == space
    requires b == [] || IsSpace(b[0]) != space
    ensures Span(a + b, space) == |a|
  {
    if a != [] {
      assert (a + b)[1..] == a[1..] + b;
      SpanOfJoin(a[1..], b, space);
    } else {
      assert a + b == b;
    }
  }

  /** The length of the longest suffix of `s` whose characters are all
      white space. */
  function SpanBack(s: string): (n: nat)
    ensures n <= |s|
    ensures forall k :: |s| - n <= k < |s| ==> IsSpace(s[k])
    ensures n < |s| ==> !IsSpace(s[|s| - 1 - n])
  {
    if s != [] && IsSpace(s[|s| - 1]) then 1 + SpanBack(s[..|s| - 1]) else 0
  }

  /** Text not ending in white space, followed by white space: the trailing
      run is exactly that white space. */
  lemma {:induction false} SpanBackOfJoin(a: string, b: string)
    requires AllSpace(b)
    requires a == [] || !IsSpace(a[|a| - 1])
    ensures SpanBack(a + b) == |b|
  {
    if b != [] {
      assert (a + b)[..|a + b| - 1] == a + b[..|b| - 1];
      SpanBackOfJoin(a, b[..|b| - 1]);
    } else {
      assert a + b == a;
    }
  }

  /** `pat` occurs in `s` starting at index `k`. */
  predicate OccursAt(s: string, pat: string, k: nat) {
    k + |pat| <= |s| && s[k..k + |pat|] == pat
  }

  /** The first occurrence of `pat` in `s` at or after `from`. */
  function IndexFrom(s: string, pat: string, from: nat): (r: Option<nat>)
    requires from <= |s|
    ensures r.Some? ==> from <= r.value && OccursAt(s, pat, r.value)
    ensures r.Some? ==> forall k :: from <= k < r.value ==> !OccursAt(s, pat, k)
    ensures r.None? ==> forall k :: from <= k <= |s| ==> !OccursAt(s, pat, k)
    decreases |s| - from
  {
    if OccursAt(s, pat, from) then Some(from)
    else if from == |s| then None
    else IndexFrom(s, pat, from + 1)
  }

  /** strings.Index: the first occurrence of `pat` in `s`, if any. */
  function IndexOf(s: string, pat: string): (r: Option<nat>)
    ensures r.Some? ==> OccursAt(s, pat, r.value) && forall k :: 0 <= k < r.value ==> !OccursAt(s, pat, k)
    ensures r.None? ==> forall k :: 0 <= k <= |s| ==> !OccursAt(s, pat, k)
  {
    IndexFrom(s, pat, 0)
  }

  /** strings.Contains. */
  predicate Contains(s: string, pat: string) {
    IndexOf(s, pat).Some?
  }

  /** An occurrence with none before it is the one IndexOf finds. */
  lemma IndexOfFirst(s: string, pat: string, p: nat)
    requires OccursAt(s, pat, p)
    requires forall k :: 0 <= k < p ==> !OccursAt(s, pat, k)
    ensures IndexOf(s, pat) == Some(p)
  {
  }

  /** Two strings that agree up to the end of the first occurrence of `pat`
      in one have their first occurrence of `pat` at the same index. */
  lemma IndexOfSharedPrefix(s: string, t: string, pat: string, p: nat)
    requires IndexOf(s, pat) == Some(p)
    requires p + |pat| <= |t| && t[..p + |pat|] == s[..p + |pat|]
    ensures IndexOf(t, pat) == Some(p)
  {
    assert OccursAt(t, pat, p) by {
      assert t[p..p + |pat|] == s[p..p + |pat|];
    }
    forall k | 0 <= k < p
      ensures !OccursAt(t, pat, k)
    {
      assert !OccursAt(s, pat, k);
      assert t[k..k + |pat|] == s[k..k + |pat|];
    }
    IndexOfFirst(t, pat, p);
  }

  /** A string holds `pat` if it holds it anywhere. */
  lemma ContainsAt(s: string, pat: string, k: nat)
    requires OccursAt(s, pat, k)
    ensures Contains(s, pat)
  {
  }

  /** A string without the first character of `pat` does not hold `pat`. */
  lemma NotContainsHead(s: string, pat: string)
    requires pat != [] && pat[0] !in s
    ensures !Contains(s, pat)
  {
  }

  predicate StartsWith(s: string, pat: string) {
    |pat| <= |s| && s[..|pat|] == pat
  }

  /** The length of the first line of `s`: the index of its first newline, or
      its whole length when there is none. */
  function LineEnd(s: string): (n: nat)
    ensures n <= |s| && '\n' !in s[..n]
    ensures n < |s| ==> s[n] == '\n'
  {
    if s == [] || s[0] == '\n' then 0 else 1 + LineEnd(s[1..])
  }

  /** The lines a bufio.Scanner with ScanLines yields: `text` cut at every
      newline, where the empty piece after a final newline is not a line.
      ScanLines also drops a carriage return that ends a line; `Lines` keeps
      it, and the `TrimSpace` applied to every line removes it. */
  function Lines(text: string): (ls: seq<string>)
    ensures forall i :: 0 <= i < |ls| ==> '\n' !in ls[i]
    decreases |text|
  {
    if text == [] then []
    else
      var n := LineEnd(text);
      [text[..n]] + (if n < |text| then Lines(text[n + 1..]) else [])
  }

  /** Each line followed by one newline, in order. */
  function Unlines(ls: seq<string>): (text: string)
    ensures text == [] <==> ls == []
    ensures text != [] ==> text[|text| - 1] == '\n'
  {
    if ls == [] then [] else ls[0] + "\n" + Unlines(ls[1..])
  }

  /** A line without a newline, a newline, then the rest of the document. */
  lemma LinesCons(l: string, rest: string)
    requires '\n' !in l
    ensures Lines(l + "\n" + rest) == [l] + Lines(rest)
  {
    var text := l + "\n" + rest;
    assert text == l + ("\n" + rest);
    LineEndOfJoin(l, rest);
    assert text[..|l|] == l;
    assert text[|l| + 1..] == rest;
  }

  /** A last line without a final newline is still a line. */
  lemma LinesLast(l: string)
    requires l != [] && '\n' !in l
    ensures Lines(l) == [l]
  {
    assert LineEnd(l + []) == |l| by {
      LineEndOfJoin(l, []);
      assert l + ("\n" + []) == l + "\n";
      LineEndPrefix(l, "\n");
    }
    assert l[..|l|] == l;
  }

  /** The first line of a string ends where the first line of any extension
      of it ends, when it ends inside it. */
  lemma {:induction false} LineEndPrefix(l: string, more: string)
    requires LineEnd(l + more) <= |l|
    ensures LineEnd(l) == LineEnd(l + more)
  {
    if l != [] && l[0] != '\n' {
      assert (l + more)[1..] == l[1..] + more;
      LineEndPrefix(l[1..], more);
    }
  }

  /** Joining lines that hold no newline and splitting the result again gives
      back the same lines: the count and the order survive. */
  lemma {:induction false} LinesOfUnlines(ls: seq<string>)
    requires forall i :: 0 <= i < |ls| ==> '\n' !in ls[i]
    ensures Lines(Unlines(ls)) == ls
  {
    if ls != [] {
      var text := Unlines(ls);
      var rest := Unlines(ls[1..]);
      assert text == ls[0] + ("\n" + rest);
      LineEndOfJoin(ls[0], rest);
      assert text[..|ls[0]|] == ls[0];
      assert text[|ls[0]| + 1..] == rest;
      LinesOfUnlines(ls[1..]);
    }
  }

  lemma {:induction false} LineEndOfJoin(l: string, rest: string)
    requires '\n' !in l
    ensures LineEnd(l + ("\n" + rest)) == |l|
  {
    if l != [] {
      assert (l + ("\n" + rest))[1..] == l[1..] + ("\n" + rest);
      LineEndOfJoin(l[1..], rest);
    }
  }

  /** Splitting a document and joining it back gives the document with a
      newline added at the end when it lacked one, and nothing else changed:
      a final newline does not become an extra empty line. */
  lemma {:induction false} UnlinesOfLines(text: string)
    ensures Unlines(Lines(text)) == if text == [] || text[|text| - 1] == '\n' then text else text + "\n"
    decreases |text|
  {
    if text != [] {
      var n := LineEnd(text);
      if n < |text| {
        var rest := text[n + 1..];
        if rest != [] {
          assert text[|text| - 1] == rest[|rest| - 1];
        }
        var first := text[..n];
        SplitAtNewline(text, n);
        LinesCons(first, rest);
        UnlinesCons(first, Lines(rest));
        UnlinesOfLines(rest);
      } else {
        assert text[..n] == text;
        assert Lines(text) == [text];
        assert Unlines([text]) == text + "\n" + Unlines([]);
      }
    }
  }

  lemma SplitAtNewline(text: string, n: nat)
    requires n < |text| && text[n] == '\n'
    ensures text == text[..n] + "\n" + text[n + 1..]
  {
    assert text[n..] == "\n" + text[n + 1..];
    assert text == text[..n] + text[n..];
  }

  lemma UnlinesCons(l: string, ls: seq<string>)
    ensures Unlines([l] + ls) == l + "\n" + Unlines(ls)
  {
    assert ([l] + ls)[1..] == ls;
  }

}
