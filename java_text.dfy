/** The few `java.lang.String` operations the service relies on, stated
    exactly: `trim`, `isBlank` and a literal `replaceAll` of one character. */
module JavaText {

  /** `String.trim` treats every character up to U+0020 as removable. */
  predicate IsTrimmable(c: char) {
    c <= ' '
  }

  predicate AllTrimmable(w: string) {
    forall i :: 0 <= i < |w| ==> IsTrimmable(w[i])
  }

  /** The characters `trim` removes from the front. */
  function TrimLeading(s: string): (r: string)
    ensures |r| <= |s|
    ensures r == [] || !IsTrimmable(r[0])
    ensures forall i | 0 <= i < |s| - |r| :: IsTrimmable(s[i])
  {
    if s != [] && IsTrimmable(s[0]) then
      var r := TrimLeading(s[1..]);
      assert s[..|s| - |r|] == [s[0]] + s[1..][..|s| - 1 - |r|];
      r
    else s
  }

  /** The characters `trim` removes from the back. */
  function TrimTrailing(s: string): (r: string)
    ensures |r| <= |s|
    ensures r == [] || !IsTrimmable(r[|r| - 1])
    ensures forall i | |r| <= i < |s| :: IsTrimmable(s[i])
  {
    if s != [] && IsTrimmable(s[|s| - 1]) then
      var r := TrimTrailing(s[..|s| - 1]);
      assert s[|r|..] == s[..|s| - 1][|r|..] + [s[|s| - 1]];
      r
    else s
  }

  /** What `TrimLeading` keeps is a suffix of its input. */
  lemma {:induction false} TrimLeadingSuffix(s: string)
    ensures TrimLeading(s) == s[|s| - |TrimLeading(s)|..]
  {
    if s != [] && IsTrimmable(s[0]) {
      TrimLeadingSuffix(s[1..]);
    }
  }

  /** What `TrimTrailing` keeps is a prefix of its input. */
  lemma {:induction false} TrimTrailingPrefix(s: string)
    ensures TrimTrailing(s) == s[..|TrimTrailing(s)|]
  {
    if s != [] && IsTrimmable(s[|s| - 1]) {
      TrimTrailingPrefix(s[..|s| - 1]);
    }
  }

  /** `String.trim()`. */
  function Trim(s: string): (r: string)
    ensures |r| <= |s|
    ensures r == [] || (!IsTrimmable(r[0]) && !IsTrimmable(r[|r| - 1]))
  {
    var t := TrimLeading(s);
    var r := TrimTrailing(t);
    TrimTrailingPrefix(t);
    assert r != [] ==> r[0] == t[0];
    r
  }

  lemma {:induction false} TrimLeadingPadded(w: string, t: string)
    requires AllTrimmable(w)
    ensures TrimLeading(w + t) == TrimLeading(t)
  {
    if w != [] {
      assert (w + t)[1..] == w[1..] + t;
      TrimLeadingPadded(w[1..], t);
    } else {
      assert w + t == t;
    }
  }

  lemma {:induction false} TrimTrailingPadded(t: string, w: string)
    requires AllTrimmable(w)
    ensures TrimTrailing(t + w) == TrimTrailing(t)
  {
    if w != [] {
      assert (t + w)[..|t + w| - 1] == t + w[..|w| - 1];
      TrimTrailingPadded(t, w[..|w| - 1]);
    } else {
      assert t + w == t;
    }
  }

  lemma {:induction false} TrimLeadingAppend(t: string, w: string)
    requires AllTrimmable(w)
    ensures TrimLeading(t) != [] ==> TrimLeading(t + w) == TrimLeading(t) + w
    ensures TrimLeading(t) == [] ==> TrimLeading(t + w) == []
  {
    if t == [] {
      assert t + w == w;
      TrimLeadingPadded(w, []);
      assert w + [] == w;
    } else if IsTrimmable(t[0]) {
      assert (t + w)[1..] == t[1..] + w;
      TrimLeadingAppend(t[1..], w);
    }
  }

  /** Surrounding characters that `trim` removes never change its result:
      `" a@x.com\n"` and `"a@x.com"` trim to the same string. */
  lemma TrimIgnoresPadding(front: string, t: string, back: string)
    requires AllTrimmable(front) && AllTrimmable(back)
    ensures Trim(front + t + back) == Trim(t)
  {
    assert front + t + back == front + (t + back);
    TrimLeadingPadded(front, t + back);
    TrimLeadingAppend(t, back);
    if TrimLeading(t) != [] {
      TrimTrailingPadded(TrimLeading(t), back);
    }
  }

  lemma TrimIdempotent(s: string)
    ensures Trim(Trim(s)) == Trim(s)
  {
  }

  /** `Character.isWhitespace`: the Unicode space, line and paragraph
      separators except the three no-break spaces, and the ASCII controls
      U+0009..U+000D and U+001C..U+001F. */
  predicate IsJavaWhitespace(c: char) {
    || ('\t' <= c <= '\r')
    || ('\U{001C}' <= c <= ' ')
    || c == '\U{1680}'
    || ('\U{2000}' <= c <= '\U{2006}')
    || ('\U{2008}' <= c <= '\U{200A}')
    || c == '\U{2028}' || c == '\U{2029}'
    || c == '\U{205F}' || c == '\U{3000}'
  }

  /** `String.isBlank()`: empty or white space only. */
  predicate IsBlank(s: string) {
    forall i :: 0 <= i < |s| ==> IsJavaWhitespace(s[i])
  }

  /** `s.replaceAll(x, "")` for a pattern that is one literal character `x`. */
  function RemoveAll(s: string, x: char): (r: string)
    ensures x !in r && |r| <= |s|
  {
    if s == [] then [] else (if s[0] == x then [] else [s[0]]) + RemoveAll(s[1..], x)
  }

  /** Every occurrence of `x` goes, and every other character is kept as
      many times as it occurs. */
  lemma {:induction false} RemoveAllCounts(s: string, x: char)
    ensures forall c :: multiset(RemoveAll(s, x))[c] == if c == x then 0 else multiset(s)[c]
  {
    if s != [] {
      RemoveAllCounts(s[1..], x);
      var head: string := if s[0] == x then [] else [s[0]];
      assert s == [s[0]] + s[1..];
      assert multiset(RemoveAll(s, x)) == multiset(head) + multiset(RemoveAll(s[1..], x));
    }
  }

  lemma {:induction false} RemoveAllAbsent(s: string, x: char)
    requires x !in s
    ensures RemoveAll(s, x) == s
  {
    if s != [] {
      RemoveAllAbsent(s[1..], x);
    }
  }

  /** Removal works piece by piece, so the order of what is kept is the
      order of the input. */
  lemma {:induction false} RemoveAllConcat(a: string, b: string, x: char)
    ensures RemoveAll(a + b, x) == RemoveAll(a, x) + RemoveAll(b, x)
  {
    if a == [] {
      assert a + b == b;
    } else {
      var head: string := if a[0] == x then [] else [a[0]];
      calc {
        RemoveAll(a + b, x);
      == { assert (a + b)[0] == a[0] && (a + b)[1..] == a[1..] + b; }
        head + RemoveAll(a[1..] + b, x);
      == { RemoveAllConcat(a[1..], b, x); }
        head + (RemoveAll(a[1..], x) + RemoveAll(b, x));
      ==
        (head + RemoveAll(a[1..], x)) + RemoveAll(b, x);
      }
    }
  }

  /** `text.contains(part)`. */
  predicate Contains(text: string, part: string)
    decreases |text|
  {
    |part| <= |text| && (text[..|part|] == part || Contains(text[1..], part))
  }

  /** Whatever surrounds an occurrence, the text contains it. */
  lemma {:induction false} ContainsOccurrence(before: string, part: string, after: string)
    ensures Contains(before + part + after, part)
  {
    var text := before + part + after;
    if before == [] {
      assert text[..|part|] == part;
    } else {
      assert text[1..] == before[1..] + part + after;
      ContainsOccurrence(before[1..], part, after);
    }
  }
}
