/**
 * The Python string operations the handlers apply: `str.title`, `str.split`
 * with an explicit separator, and the slice `s[:n]`.
 *
 * Case mapping covers the ASCII letters; every other character is taken to be
 * uncased and is left as it is.
 */
module PyStr {

  predicate IsUpper(c: char) { 'A' <= c <= 'Z' }
  predicate IsLower(c: char) { 'a' <= c <= 'z' }

  /** A cased character: one that has an upper- and a lower-case form. */
  predicate IsCased(c: char) { IsUpper(c) || IsLower(c) }

  function Upper(c: char): (u: char)
    ensures IsCased(u) == IsCased(c)
    ensures IsCased(c) ==> IsUpper(u)
    ensures !IsCased(c) ==> u == c
    ensures IsUpper(c) ==> u == c
    ensures IsLower(c) ==> u as int - 'A' as int == c as int - 'a' as int
  {
    if IsLower(c) then (c as int - 32) as char else c
  }

  function Lower(c: char): (l: char)
    ensures IsCased(l) == IsCased(c)
    ensures IsCased(c) ==> IsLower(l)
    ensures !IsCased(c) ==> l == c
    ensures IsLower(c) ==> l == c
    ensures IsUpper(c) ==> l as int - 'a' as int == c as int - 'A' as int
  {
    if IsUpper(c) then (c as int + 32) as char else c
  }

  /** The title-cased form of `c` given whether the character before it was cased. */
  function TitleChar(c: char, afterCased: bool): (r: char)
    ensures IsCased(r) == IsCased(c)
    ensures IsCased(c) ==> (IsLower(r) <==> afterCased)
    ensures Lower(r) == Lower(c)
  {
    if afterCased then Lower(c) else Upper(c)
  }

  /**
   * Python's `str.title` scan over `s`, where `afterCased` says whether the
   * character just before `s` was cased: each character is lower-cased after a
   * cased character and upper-cased otherwise, judged on the original text.
   */
  function TitleFrom(s: string, afterCased: bool): (r: string)
    ensures |r| == |s|
    ensures |s| > 0 ==> r[0] == TitleChar(s[0], afterCased)
    ensures forall k :: 0 < k < |s| ==> r[k] == TitleChar(s[k], IsCased(s[k - 1]))
  {
    if s == [] then [] else [TitleChar(s[0], afterCased)] + TitleFrom(s[1..], IsCased(s[0]))
  }

  /** Python's `str.title`. */
  function Title(s: string): (r: string)
    ensures |r| == |s|
    ensures forall k :: 0 <= k < |s| ==> r[k] == TitleChar(s[k], k > 0 && IsCased(s[k - 1]))
  {
    TitleFrom(s, false)
  }

  /** Title-casing keeps every character's cased-ness, so a second pass decides alike. */
  lemma TitleKeepsCased(s: string)
    ensures forall k :: 0 <= k < |s| ==> IsCased(Title(s)[k]) == IsCased(s[k])
  {
    var t := Title(s);
    forall k | 0 <= k < |s|
      ensures IsCased(t[k]) == IsCased(s[k])
    {
      assert t[k] == TitleChar(s[k], k > 0 && IsCased(s[k - 1]));
    }
  }

  lemma {:induction false} TitleIdempotent(s: string)
    ensures Title(Title(s)) == Title(s)
  {
    var t := Title(s);
    TitleKeepsCased(s);
    forall k | 0 <= k < |s|
      ensures Title(t)[k] == t[k]
    {
      assert k > 0 ==> IsCased(t[k - 1]) == IsCased(s[k - 1]);
    }
  }

  /** A word of lower-case letters comes out with only its first letter raised. */
  lemma TitleLowerWord(w: string)
    requires |w| > 0 && forall k :: 0 <= k < |w| ==> IsLower(w[k])
    ensures Title(w) == [Upper(w[0])] + w[1..]
  {
    var t := Title(w);
    forall k | 0 <= k < |w|
      ensures t[k] == ([Upper(w[0])] + w[1..])[k]
    {
      if k > 0 {
        assert t[k] == Lower(w[k]) by { assert IsCased(w[k - 1]); }
      }
    }
  }

  /** After an uncased character, title-casing starts afresh: a word boundary. */
  lemma TitleAfterUncased(a: string, b: string)
    requires |a| > 0 && !IsCased(a[|a| - 1])
    ensures Title(a + b) == Title(a) + Title(b)
  {
    var s, t := a + b, Title(a) + Title(b);
    forall k | 0 <= k < |s|
      ensures Title(s)[k] == t[k]
    {
      if k < |a| {
        assert k > 0 ==> s[k - 1] == a[k - 1];
      } else {
        var j := k - |a|;
        assert s[k] == b[j];
        assert j > 0 ==> s[k - 1] == b[j - 1];
        assert j == 0 ==> s[k - 1] == a[|a| - 1];
      }
    }
  }

  /** An uncased character at the end is kept as it is and leaves the rest alone. */
  lemma TitleAppendUncased(a: string, c: char)
    requires !IsCased(c)
    ensures Title(a + [c]) == Title(a) + [c]
  {
    var s, t := a + [c], Title(a) + [c];
    forall k | 0 <= k < |s|
      ensures Title(s)[k] == t[k]
    {
      if k < |a| {
        assert s[k] == a[k];
        assert k > 0 ==> s[k - 1] == a[k - 1];
      } else {
        assert s[k] == c;
        assert Title(s)[k] == TitleChar(c, k > 0 && IsCased(s[k - 1]));
        assert TitleChar(c, k > 0 && IsCased(s[k - 1])) == c;
      }
    }
  }

  /** `sep.join(parts)`. */
  function Join(parts: seq<string>, sep: char): string {
    if parts == [] then []
    else if |parts| == 1 then parts[0]
    else parts[0] + [sep] + Join(parts[1..], sep)
  }

  /**
   * Python's `s.split(sep)` with an explicit one-character separator: every
   * occurrence of `sep` cuts, and empty pieces are kept.
   */
  function Split(s: string, sep: char): (parts: seq<string>)
    ensures |parts| >= 1
    ensures forall k :: 0 <= k < |parts| ==> sep !in parts[k]
    ensures Join(parts, sep) == s
    ensures |parts| >= 2 <==> sep in s
  {
    if s == [] then [[]]
    else
      var rest := Split(s[1..], sep);
      if s[0] == sep then
        assert s == [sep] + s[1..];
        [[]] + rest
      else
        var parts := [[s[0]] + rest[0]] + rest[1..];
        assert parts[1..] == rest[1..];
        assert s == [s[0]] + s[1..];
        parts
  }

  /** A piece without the separator is left whole. */
  lemma SplitNoSep(p: string, sep: char)
    requires sep !in p
    ensures Split(p, sep) == [p]
  {
  }

  /** Splitting at the first separator: the piece before it, then the split of what follows. */
  lemma {:induction false} SplitAtFirst(p: string, t: string, sep: char)
    requires sep !in p
    ensures Split(p + [sep] + t, sep) == [p] + Split(t, sep)
  {
    var u := p + [sep] + t;
    if p == [] {
      assert u == [sep] + t && u[1..] == t;
    } else {
      assert u[0] == p[0] && u[1..] == p[1..] + [sep] + t;
      SplitAtFirst(p[1..], t, sep);
      var rest := Split(u[1..], sep);
      assert rest[0] == p[1..] && rest[1..] == Split(t, sep);
      assert Split(u, sep) == [[p[0]] + rest[0]] + rest[1..];
      assert [p[0]] + p[1..] == p;
    }
  }

  /** Splitting undoes joining pieces that do not contain the separator. */
  lemma {:induction false} SplitJoin(parts: seq<string>, sep: char)
    requires |parts| >= 1
    requires forall k :: 0 <= k < |parts| ==> sep !in parts[k]
    ensures Split(Join(parts, sep), sep) == parts
  {
    if |parts| == 1 {
      SplitNoSep(parts[0], sep);
    } else {
      SplitJoin(parts[1..], sep);
      SplitAtFirst(parts[0], Join(parts[1..], sep), sep);
      assert parts == [parts[0]] + parts[1..];
    }
  }

  /** Python's slice `s[:n]`: at most the first `n` characters. */
  function Prefix(s: string, n: nat): (r: string)
    ensures |r| == if |s| < n then |s| else n
    ensures r <= s
  {
    if |s| < n then s else s[..n]
  }
}
