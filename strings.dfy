/** The handful of Rust `str` operations the core relies on: `contains`, `trim`,
    `split(char)` and splitting a command line at blanks. */
module Strings {

  predicate IsPrefix(p: string, s: string) {
    |p| <= |s| && s[..|p|] == p
  }

  /** `s.contains(sub)`. */
  predicate Contains(s: string, sub: string)
    decreases |s|
  {
    IsPrefix(sub, s) || (|s| > 0 && Contains(s[1..], sub))
  }

  lemma {:induction false} ContainsAt(s: string, sub: string, i: nat)
    requires i + |sub| <= |s| && s[i..i + |sub|] == sub
    ensures Contains(s, sub)
    decreases i
  {
    if i == 0 {
      assert s[..|sub|] == sub;
    } else {
      assert s[1..][i - 1..i - 1 + |sub|] == s[i..i + |sub|];
      ContainsAt(s[1..], sub, i - 1);
    }
  }

  /** Whatever surrounds it, a string contains each of its infixes. */
  lemma ContainsInfix(a: string, sub: string, b: string)
    ensures Contains(a + sub + b, sub)
  {
    var s := a + sub + b;
    assert s[|a|..|a| + |sub|] == sub;
    ContainsAt(s, sub, |a|);
  }

  /** `char::is_whitespace`: the Unicode White_Space property. */
  predicate IsWhitespace(c: char) {
    ('\U{0009}' <= c <= '\U{000D}') || c == ' ' || c == '\U{0085}' || c == '\U{00A0}'
    || c == '\U{1680}' || ('\U{2000}' <= c <= '\U{200A}') || c == '\U{2028}' || c == '\U{2029}'
    || c == '\U{202F}' || c == '\U{205F}' || c == '\U{3000}'
  }

  function TrimStart(s: string): (r: string)
    ensures |r| <= |s| && r == s[|s| - |r|..]
    ensures forall k :: 0 <= k < |s| - |r| ==> IsWhitespace(s[k])
    ensures r != [] ==> !IsWhitespace(r[0])
    decreases |s|
  {
    if s != [] && IsWhitespace(s[0]) then TrimStart(s[1..]) else s
  }

  function TrimEnd(s: string): (r: string)
    ensures |r| <= |s| && r == s[..|r|]
    ensures forall k :: |r| <= k < |s| ==> IsWhitespace(s[k])
    ensures r != [] ==> !IsWhitespace(r[|r| - 1])
    decreases |s|
  {
    if s != [] && IsWhitespace(s[|s| - 1]) then TrimEnd(s[..|s| - 1]) else s
  }

  /** `r` sits at index `i` of `s` with nothing but whitespace around it. */
  predicate TrimmedAt(s: string, r: string, i: int) {
    0 <= i <= |s| - |r| && s[i..i + |r|] == r
    && (forall k :: 0 <= k < i ==> IsWhitespace(s[k]))
    && (forall k :: i + |r| <= k < |s| ==> IsWhitespace(s[k]))
  }

  lemma TrimEndSuffix(s: string, t: string, i: nat)
    requires i <= |s| && t == s[i..]
    ensures forall k :: i + |TrimEnd(t)| <= k < |s| ==> IsWhitespace(s[k])
  {
    var n := |TrimEnd(t)|;
    forall k | i + n <= k < |s|
      ensures IsWhitespace(s[k])
    {
      assert s[k] == t[k - i];
    }
  }

  lemma TrimStartThenEnd(s: string)
    ensures TrimmedAt(s, TrimEnd(TrimStart(s)), |s| - |TrimStart(s)|)
  {
    var t := TrimStart(s);
    var r := TrimEnd(t);
    var i := |s| - |t|;
    SliceOfSuffix(s, t, r, i);
    TrimEndSuffix(s, t, i);
    TrimmedAtIntro(s, r, i);
  }

  lemma SliceOfSuffix(s: string, t: string, r: string, i: nat)
    requires i <= |s| && t == s[i..] && |r| <= |t| && r == t[..|r|]
    ensures i + |r| <= |s| && s[i..i + |r|] == r
  {
  }

  lemma TrimmedAtIntro(s: string, r: string, i: int)
    requires 0 <= i <= |s| - |r| && s[i..i + |r|] == r
    requires forall k :: 0 <= k < i ==> IsWhitespace(s[k])
    requires forall k :: i + |r| <= k < |s| ==> IsWhitespace(s[k])
    ensures TrimmedAt(s, r, i)
  {
  }

  /** `str::trim`: the longest infix that neither starts nor ends with whitespace
      and that has only whitespace around it. */
  function Trim(s: string): (r: string)
    ensures exists i :: TrimmedAt(s, r, i)
    ensures r != [] ==> !IsWhitespace(r[0]) && !IsWhitespace(r[|r| - 1])
  {
    TrimStartThenEnd(s);
    var r := TrimEnd(TrimStart(s));
    assert TrimmedAt(s, r, |s| - |TrimStart(s)|);
    r
  }

  /** Number of occurrences of `c` in `s`. */
  function CountChar(s: string, c: char): nat
    decreases |s|
  {
    if s == [] then 0 else (if s[0] == c then 1 else 0) + CountChar(s[1..], c)
  }

  /** `s.split(sep).collect::<Vec<&str>>()`: the parts between occurrences of `sep`. */
  function Split(s: string, sep: char): (parts: seq<string>)
    ensures |parts| >= 1
    decreases |s|
  {
    if s == [] then [[]]
    else
      var rest := Split(s[1..], sep);
      if s[0] == sep then [[]] + rest else [[s[0]] + rest[0]] + rest[1..]
  }

  function Join(parts: seq<string>, sep: char): string
    decreases |parts|
  {
    if parts == [] then [] else if |parts| == 1 then parts[0] else parts[0] + [sep] + Join(parts[1..], sep)
  }

  /** Splitting yields one more part than there are separators, no part holds the
      separator, and joining the parts back with the separator restores the input. */
  lemma SplitJoin(s: string, sep: char)
    ensures |Split(s, sep)| == CountChar(s, sep) + 1
    ensures forall k :: 0 <= k < |Split(s, sep)| ==> sep !in Split(s, sep)[k]
    ensures Join(Split(s, sep), sep) == s
  {
    SplitParts(s, sep);
    SplitJoinBack(s, sep);
  }

  lemma {:induction false} SplitParts(s: string, sep: char)
    ensures |Split(s, sep)| == CountChar(s, sep) + 1
    ensures forall k :: 0 <= k < |Split(s, sep)| ==> sep !in Split(s, sep)[k]
    decreases |s|
  {
    if s != [] {
      SplitParts(s[1..], sep);
      var rest := Split(s[1..], sep);
      if s[0] == sep {
        assert Split(s, sep) == [[]] + rest;
      } else {
        var parts := [[s[0]] + rest[0]] + rest[1..];
        assert Split(s, sep) == parts;
        forall k | 0 <= k < |parts| ensures sep !in parts[k] {
          if k > 0 { assert parts[k] == rest[k]; }
        }
      }
    }
  }

  lemma {:induction false} SplitJoinBack(s: string, sep: char)
    ensures Join(Split(s, sep), sep) == s
    decreases |s|
  {
    if s != [] {
      SplitJoinBack(s[1..], sep);
      var rest := Split(s[1..], sep);
      if s[0] == sep {
        assert Split(s, sep) == [[]] + rest;
        assert ([[]] + rest)[1..] == rest;
        assert Join(Split(s, sep), sep) == [] + [sep] + Join(rest, sep);
        assert [sep] + s[1..] == s;
      } else {
        var parts := [[s[0]] + rest[0]] + rest[1..];
        assert Split(s, sep) == parts;
        if |rest| == 1 {
          assert Join(parts, sep) == [s[0]] + rest[0];
          assert Join(rest, sep) == rest[0];
        } else {
          assert parts[1..] == rest[1..];
          assert Join(parts, sep) == [s[0]] + rest[0] + [sep] + Join(rest[1..], sep);
          assert Join(rest, sep) == rest[0] + [sep] + Join(rest[1..], sep);
        }
        assert [s[0]] + s[1..] == s;
      }
    }
  }

  /** When `sep` occurs exactly once, at index `i`, the split is the text before
      and the text after it. */
  lemma SplitAtOnlySeparator(s: string, sep: char, i: nat)
    requires i < |s| && s[i] == sep && sep !in s[..i] && sep !in s[i + 1..]
    ensures Split(s, sep) == [s[..i], s[i + 1..]]
  {
    SplitNoSeparator(s[i + 1..], sep);
    SplitPrefix(s, sep, i);
  }

  lemma {:induction false} SplitNoSeparator(s: string, sep: char)
    requires sep !in s
    ensures Split(s, sep) == [s]
    decreases |s|
  {
    if s != [] {
      SplitNoSeparator(s[1..], sep);
      assert [s[0]] + s[1..] == s;
    }
  }

  lemma {:induction false} SplitPrefix(s: string, sep: char, i: nat)
    requires i < |s| && s[i] == sep && sep !in s[..i]
    ensures Split(s, sep) == [s[..i]] + Split(s[i + 1..], sep)
    decreases i
  {
    if i == 0 {
      assert s[1..] == s[i + 1..];
    } else {
      assert s[1..][..i - 1] == s[1..i];
      assert s[1..i] == s[..i][1..];
      SplitPrefix(s[1..], sep, i - 1);
      assert s[1..][i..] == s[i + 1..];
      assert [s[0]] + s[1..i] == s[..i];
    }
  }

  /** Length of the leading run of non-blank characters. */
  function WordLen(s: string): (n: nat)
    ensures n <= |s| && ' ' !in s[..n] && (n < |s| ==> s[n] == ' ')
    decreases |s|
  {
    if s == [] || s[0] == ' ' then 0 else 1 + WordLen(s[1..])
  }

  /** The words a POSIX shell obtains from a command line whose only separators
      are blanks: maximal runs of non-blank characters, in order. */
  function Fields(s: string): seq<string>
    decreases |s|
  {
    if s == [] then []
    else if s[0] == ' ' then Fields(s[1..])
    else var n := WordLen(s); [s[..n]] + Fields(s[n..])
  }

  lemma {:induction false} FieldsOfWord(w: string)
    requires w != [] && ' ' !in w
    ensures Fields(w) == [w]
  {
    assert WordLen(w) == |w| by { WordLenNoBlank(w); }
    assert w[..|w|] == w;
    assert w[|w|..] == [];
    assert Fields(w) == [w[..|w|]] + Fields(w[|w|..]);
  }

  lemma {:induction false} WordLenNoBlank(w: string)
    requires ' ' !in w
    ensures WordLen(w) == |w|
    decreases |w|
  {
    if w != [] { WordLenNoBlank(w[1..]); }
  }

  lemma {:induction false} WordLenBefore(a: string, b: string)
    ensures WordLen(a + " " + b) == WordLen(a)
    decreases |a|
  {
    if a != [] && a[0] != ' ' {
      assert (a + " " + b)[1..] == a[1..] + " " + b;
      WordLenBefore(a[1..], b);
    }
  }

  /** A blank between two command-line fragments separates their words. */
  lemma {:induction false} FieldsConcat(a: string, b: string)
    ensures Fields(a + " " + b) == Fields(a) + Fields(b)
    decreases |a|
  {
    var s := a + " " + b;
    if a == [] {
      assert s == " " + b;
      assert s[1..] == b;
    } else if a[0] == ' ' {
      assert s[1..] == a[1..] + " " + b;
      FieldsConcat(a[1..], b);
    } else {
      var n := WordLen(a);
      WordLenBefore(a, b);
      var tail := a[n..];
      assert s[..n] == a[..n];
      assert s[n..] == tail + " " + b;
      FieldsConcat(tail, b);
      assert Fields(a) == [a[..n]] + Fields(tail);
      assert Fields(s) == [a[..n]] + (Fields(tail) + Fields(b));
    }
  }

  predicate IsWord(w: string) { w != [] && ' ' !in w }

  /** Words joined by single blanks. */
  function Unwords(ws: seq<string>): string
    decreases |ws|
  {
    if ws == [] then "" else if |ws| == 1 then ws[0] else ws[0] + " " + Unwords(ws[1..])
  }

  lemma UnwordsCons(w: string, ws: seq<string>)
    requires ws != []
    ensures Unwords([w] + ws) == w + " " + Unwords(ws)
  {
    assert ([w] + ws)[1..] == ws;
  }

  /** Words joined by blanks split back into the same words. */
  lemma {:induction false} FieldsUnwords(ws: seq<string>)
    requires forall k :: 0 <= k < |ws| ==> IsWord(ws[k])
    ensures Fields(Unwords(ws)) == ws
    decreases |ws|
  {
    if |ws| == 1 {
      FieldsOfWord(ws[0]);
    } else if |ws| > 1 {
      FieldsUnwords(ws[1..]);
      FieldsConcat(ws[0], Unwords(ws[1..]));
      FieldsOfWord(ws[0]);
      assert ws == [ws[0]] + ws[1..];
    }
  }

  lemma FieldsAfterWords(ws: seq<string>, rest: string)
    requires forall k :: 0 <= k < |ws| ==> IsWord(ws[k])
    ensures Fields(Unwords(ws) + " " + rest) == ws + Fields(rest)
  {
    FieldsUnwords(ws);
    FieldsConcat(Unwords(ws), rest);
  }

  lemma FieldsBeforeWords(front: string, vs: seq<string>)
    requires forall k :: 0 <= k < |vs| ==> IsWord(vs[k])
    ensures Fields(front + " " + Unwords(vs)) == Fields(front) + vs
  {
    FieldsUnwords(vs);
    FieldsConcat(front, Unwords(vs));
  }

  /** A command line made of fixed words, a middle fragment and more fixed
      words splits into those words around the fragment's own words. */
  lemma FieldsAround(ws: seq<string>, mid: string, vs: seq<string>, line: string)
    requires forall k :: 0 <= k < |ws| ==> IsWord(ws[k])
    requires forall k :: 0 <= k < |vs| ==> IsWord(vs[k])
    requires line == Unwords(ws) + " " + (mid + " " + Unwords(vs))
    ensures Fields(line) == ws + (Fields(mid) + vs)
  {
    FieldsBeforeWords(mid, vs);
    FieldsAfterWords(ws, mid + " " + Unwords(vs));
  }
}
