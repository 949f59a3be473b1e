/**
 * The few Python `str` operations the core relies on, on `seq<char>`:
 * `count`, `find`, `split(sep)`, `split()`, `strip()`, `upper()`, `in`,
 * `join`, and decimal formatting of integers.
 */
module Text {
  import opened Wrappers

  /** `s.count(x)` for a single element `x`. */
  function Count<T(==)>(s: seq<T>, x: T): (n: nat)
    ensures n <= |s|
    ensures n == 0 <==> x !in s
  {
    if s == [] then 0 else (if s[0] == x then 1 else 0) + Count(s[1..], x)
  }

  lemma {:induction false} CountAppend<T>(a: seq<T>, b: seq<T>, x: T)
    ensures Count(a + b, x) == Count(a, x) + Count(b, x)
  {
    if a == [] {
      assert a + b == b;
    } else {
      assert (a + b)[1..] == a[1..] + b;
      CountAppend(a[1..], b, x);
    }
  }

  /** `s.find(x)` for a single element: the first index holding `x`. */
  function IndexOf<T(==)>(s: seq<T>, x: T): (r: Option<nat>)
    ensures r.None? <==> x !in s
    ensures r.Some? ==> r.value < |s| && s[r.value] == x && x !in s[..r.value]
  {
    if s == [] then None
    else if s[0] == x then Some(0)
    else match IndexOf(s[1..], x)
      case None => None
      case Some(i) =>
        assert s[1..][..i] == s[1..i + 1];
        Some(i + 1)
  }

  lemma {:induction false} IndexOfAppend<T>(a: seq<T>, b: seq<T>, x: T)
    requires x in a
    ensures IndexOf(a + b, x) == IndexOf(a, x)
  {
    if a[0] != x {
      assert (a + b)[1..] == a[1..] + b;
      IndexOfAppend(a[1..], b, x);
    }
  }

  /** The index of the first `c` at or after `k`: `s.find(c, k)`. */
  function CharFrom(s: string, k: nat, c: char): (r: Option<nat>)
    requires k <= |s|
    ensures r.Some? ==> k <= r.value < |s| && s[r.value] == c
    decreases |s| - k
  {
    if k == |s| then None
    else if s[k] == c then Some(k)
    else CharFrom(s, k + 1, c)
  }

  /** No `c` lies between `k` and the one found, nor after `k` when none is found. */
  lemma {:induction false} CharFromFirst(s: string, k: nat, j: nat, c: char)
    requires k <= j < |s|
    requires CharFrom(s, k, c).Some? ==> j < CharFrom(s, k, c).value
    ensures s[j] != c
    decreases |s| - k
  {
    if k < j {
      CharFromFirst(s, k + 1, j, c);
    }
  }

  /** The block `s[k..e]` holds no `c`, where `e` is the first `c` at or after `k`. */
  lemma CharFromClean(s: string, k: nat, e: nat, c: char)
    requires k <= |s| && CharFrom(s, k, c) == Some(e)
    ensures c !in s[k..e]
  {
    forall j | k <= j < e ensures s[j] != c {
      CharFromFirst(s, k, j, c);
    }
  }

  /** The first `c` is found wherever the same text appears. */
  lemma {:induction false} CharFromWindow(s: string, k: nat, e: nat, u: string, k': nat, c: char)
    requires k <= |s| && CharFrom(s, k, c) == Some(e)
    requires k' + (e - k) < |u| && u[k'..k' + (e - k) + 1] == s[k..e + 1]
    ensures CharFrom(u, k', c) == Some(k' + (e - k))
    decreases e - k
  {
    assert u[k'] == s[k];
    if k < e {
      assert u[k' + 1..k' + (e - k) + 1] == s[k + 1..e + 1];
      CharFromWindow(s, k + 1, e, u, k' + 1, c);
    }
  }

  /** Text in front moves the first `c` by its length. */
  lemma {:induction false} CharFromShift(p: string, s: string, k: nat, c: char)
    requires k <= |s|
    ensures CharFrom(p + s, |p| + k, c) == (if CharFrom(s, k, c).Some? then Some(|p| + CharFrom(s, k, c).value) else None)
    decreases |s| - k
  {
    if k < |s| {
      assert (p + s)[|p| + k] == s[k];
      CharFromShift(p, s, k + 1, c);
    }
  }

  lemma ConcatAssoc<T>(a: seq<T>, b: seq<T>, c: seq<T>)
    ensures (a + b) + c == a + (b + c)
  {
  }

  /** A slice past the front of a concatenation is a slice of the back. */
  /** `CharFrom` from index `k` of `s`, that is index `j` of `p + s`. */
  lemma CharFromShifted(p: string, s: string, k: nat, j: nat, c: char)
    requires j == |p| + k && k <= |s|
    ensures CharFrom(p + s, j, c) == (if CharFrom(s, k, c).Some? then Some(|p| + CharFrom(s, k, c).value) else None)
  {
    CharFromShift(p, s, k, c);
  }

  lemma SliceShift<T>(p: seq<T>, s: seq<T>, a: nat, b: nat)
    requires a <= b <= |s|
    ensures (p + s)[|p| + a..|p| + b] == s[a..b]
  {
  }

  /** `sub` occurs in `s` starting at index `i`. */
  predicate OccursAt(s: string, sub: string, i: int)
  {
    0 <= i <= |s| - |sub| && s[i..i + |sub|] == sub
  }

  /** A slice of `s` occurs in `s` where it was cut. */
  lemma OccursSlice(s: string, i: nat, j: nat)
    requires i <= j <= |s|
    ensures OccursAt(s, s[i..j], i) && Contains(s, s[i..j])
  {
    assert OccursAt(s, s[i..j], i);
  }

  /** `sub in s` for strings. */
  predicate Contains(s: string, sub: string)
  {
    exists i :: 0 <= i <= |s| && OccursAt(s, sub, i)
  }

  /** The first index at which `sub` occurs in `s`, scanning from `from`. */
  function FindFrom(s: string, sub: string, from: nat): (r: Option<nat>)
    requires from <= |s|
    ensures r.Some? ==> from <= r.value && OccursAt(s, sub, r.value)
    ensures r.Some? ==> forall j :: from <= j < r.value ==> !OccursAt(s, sub, j)
    ensures r.None? ==> forall j :: from <= j ==> !OccursAt(s, sub, j)
    decreases |s| - from
  {
    if from + |sub| > |s| then None
    else if s[from..from + |sub|] == sub then Some(from)
    else FindFrom(s, sub, from + 1)
  }

  /** `s.find(sub)`: the leftmost occurrence, present exactly when `sub in s`. */
  function Find(s: string, sub: string): (r: Option<nat>)
    ensures r.Some? <==> Contains(s, sub)
    ensures r.Some? ==> OccursAt(s, sub, r.value)
    ensures r.Some? ==> forall j :: 0 <= j < r.value ==> !OccursAt(s, sub, j)
  {
    FindFrom(s, sub, 0)
  }

  /** `pat` occurs at `i` and nowhere before. */
  predicate FirstOccurrence(s: string, pat: string, i: int)
  {
    OccursAt(s, pat, i) && forall j :: 0 <= j < i ==> !OccursAt(s, pat, j)
  }

  /** `s.replace(pat, repl, 1)`: the leftmost occurrence of `pat` replaced. */
  function ReplaceFirst(s: string, pat: string, repl: string): (r: string)
    ensures !Contains(s, pat) ==> r == s
    ensures Contains(s, pat) ==> exists i :: FirstOccurrence(s, pat, i) && r == s[..i] + repl + s[i + |pat|..]
  {
    match Find(s, pat)
    case None => s
    case Some(i) => s[..i] + repl + s[i + |pat|..]
  }

  /** `s.replace(pat, repl)`: every occurrence, left to right, without overlaps. */
  function ReplaceAll(s: string, pat: string, repl: string): string
    requires pat != []
    decreases |s|
  {
    if |s| < |pat| then s
    else if s[..|pat|] == pat then repl + ReplaceAll(s[|pat|..], pat, repl)
    else [s[0]] + ReplaceAll(s[1..], pat, repl)
  }

  /** `s.replace(pat, repl)` returns `s` itself when `pat` does not occur in it. */
  lemma {:induction false} ReplaceAllAbsent(s: string, pat: string, repl: string)
    requires pat != []
    ensures !Contains(s, pat) ==> ReplaceAll(s, pat, repl) == s
    decreases |s|
  {
    if |s| >= |pat| && !Contains(s, pat) {
      assert !OccursAt(s, pat, 0);
      if !Contains(s[1..], pat) {
        ReplaceAllAbsent(s[1..], pat, repl);
      } else {
        var j :| 0 <= j <= |s[1..]| && OccursAt(s[1..], pat, j);
        assert s[1..][j..j + |pat|] == s[j + 1..j + 1 + |pat|];
        assert OccursAt(s, pat, j + 1);
        assert false;
      }
      assert s == [s[0]] + s[1..];
    }
  }

  /** An occurrence past the first character is an occurrence in the rest. */
  lemma ContainsTail(s: string, pat: string)
    requires pat != [] && |pat| <= |s| && s[..|pat|] != pat && Contains(s, pat)
    ensures Contains(s[1..], pat)
  {
    var j :| 0 <= j <= |s| && OccursAt(s, pat, j);
    assert j != 0;
    assert s[1..][j - 1..j - 1 + |pat|] == s[j..j + |pat|];
    assert OccursAt(s[1..], pat, j - 1);
  }

  /**
   * Replacing every occurrence by text with no more copies of `x` never adds
   * any, and removes some when `pat` occurs and holds more of them.
   */
  lemma {:induction false} ReplaceAllCount(s: string, pat: string, repl: string, x: char)
    requires pat != [] && Count(repl, x) <= Count(pat, x)
    ensures Count(ReplaceAll(s, pat, repl), x) <= Count(s, x)
    ensures Contains(s, pat) && Count(repl, x) < Count(pat, x) ==> Count(ReplaceAll(s, pat, repl), x) < Count(s, x)
    decreases |s|
  {
    if |s| < |pat| {
    } else if s[..|pat|] == pat {
      var rest := s[|pat|..];
      ReplaceAllCount(rest, pat, repl, x);
      assert s == pat + rest;
      CountAppend(pat, rest, x);
      CountAppend(repl, ReplaceAll(rest, pat, repl), x);
    } else {
      var rest := s[1..];
      ReplaceAllCount(rest, pat, repl, x);
      if Contains(s, pat) {
        ContainsTail(s, pat);
      }
      assert s == [s[0]] + rest;
      CountAppend([s[0]], rest, x);
      CountAppend([s[0]], ReplaceAll(rest, pat, repl), x);
    }
  }

  /** `sep.join(parts)`. */
  function Join(parts: seq<string>, sep: string): string
  {
    if parts == [] then ""
    else if |parts| == 1 then parts[0]
    else parts[0] + sep + Join(parts[1..], sep)
  }

  /** `s.split(sep)` for a one-character separator. */
  function Split(s: string, sep: char): (parts: seq<string>)
    ensures |parts| >= 1
    ensures forall i :: 0 <= i < |parts| ==> sep !in parts[i]
    decreases |s|
  {
    match IndexOf(s, sep)
    case None => [s]
    case Some(i) => [s[..i]] + Split(s[i + 1..], sep)
  }

  /** Splitting is lossless: joining the pieces with the separator gives `s` back. */
  lemma {:induction false} JoinSplit(s: string, sep: char)
    ensures Join(Split(s, sep), [sep]) == s
    decreases |s|
  {
    match IndexOf(s, sep)
    case None =>
    case Some(i) =>
      var rest := Split(s[i + 1..], sep);
      JoinSplit(s[i + 1..], sep);
      assert Split(s, sep) == [s[..i]] + rest;
      assert ([s[..i]] + rest)[1..] == rest;
      assert s == s[..i] + [sep] + s[i + 1..];
  }

  /** There is one more piece than there are separators. */
  lemma {:induction false} SplitLength(s: string, sep: char)
    ensures |Split(s, sep)| == Count(s, sep) + 1
    decreases |s|
  {
    match IndexOf(s, sep)
    case None =>
    case Some(i) =>
      SplitLength(s[i + 1..], sep);
      assert Split(s, sep) == [s[..i]] + Split(s[i + 1..], sep);
      assert s == s[..i] + ([sep] + s[i + 1..]);
      CountAppend(s[..i], [sep] + s[i + 1..], sep);
      CountAppend([sep], s[i + 1..], sep);
  }

  /** Pieces free of the separator come back from splitting what joining them gives. */
  lemma {:induction false} SplitJoin(parts: seq<string>, sep: char)
    requires parts != []
    requires forall i :: 0 <= i < |parts| ==> sep !in parts[i]
    ensures Split(Join(parts, [sep]), sep) == parts
    decreases |parts|
  {
    if |parts| > 1 {
      var first, tail := parts[0], parts[1..];
      var rest := Join(tail, [sep]);
      assert Join(parts, [sep]) == first + [sep] + rest;
      IndexOfAfterFree(first, sep, rest);
      SplitJoin(tail, sep);
      SplitAt(first, sep, rest);
      assert parts == [first] + tail;
    }
  }

  /** The first separator of `a + [sep] + b` is the one after `a` when `a` has none. */
  lemma IndexOfAfterFree(a: string, sep: char, b: string)
    requires sep !in a
    ensures IndexOf(a + [sep] + b, sep) == Some(|a|)
  {
    var s := a + [sep] + b;
    assert s[|a|] == sep && s[..|a|] == a;
  }

  lemma SplitAt(a: string, sep: char, b: string)
    requires IndexOf(a + [sep] + b, sep) == Some(|a|)
    ensures Split(a + [sep] + b, sep) == [a] + Split(b, sep)
  {
    var s := a + [sep] + b;
    assert s[..|a|] == a && s[|a| + 1..] == b;
  }

  /** `r` is a separator-free suffix of `s` that is the whole of `s` or follows a separator. */
  predicate SuffixAfterLast(s: string, sep: char, r: string)
  {
    && sep !in r
    && |r| <= |s| && r == s[|s| - |r|..]
    && (|r| < |s| ==> s[|s| - |r| - 1] == sep)
  }

  /** The last piece of `s.split(sep)`: the text after the last `sep`. */
  function LastPiece(s: string, sep: char): (r: string)
    ensures SuffixAfterLast(s, sep, r)
    decreases |s|
  {
    match IndexOf(s, sep)
    case None =>
      WholeAfterLast(s, sep);
      s
    case Some(i) =>
      var t := s[i + 1..];
      var r := LastPiece(t, sep);
      SuffixAfter(s, t, i + 1, sep, r);
      r
  }

  lemma WholeAfterLast(s: string, sep: char)
    requires sep !in s
    ensures SuffixAfterLast(s, sep, s)
  {
    assert s[0..] == s;
  }

  /** A piece after the last separator of the text after a separator is one of the whole text. */
  lemma SuffixAfter(s: string, t: string, k: nat, sep: char, r: string)
    requires 0 < k <= |s| && s[k - 1] == sep && t == s[k..]
    requires SuffixAfterLast(t, sep, r)
    ensures SuffixAfterLast(s, sep, r)
  {
    assert t[|t| - |r|..] == s[|s| - |r|..];
  }

  lemma {:induction false} LastPieceIsLastOfSplit(s: string, sep: char)
    ensures LastPiece(s, sep) == Last(Split(s, sep))
    decreases |s|
  {
    var o := IndexOf(s, sep);
    if o.Some? {
      var i := o.value;
      var tail := s[i + 1..];
      LastPieceIsLastOfSplit(tail, sep);
      LastPieceCons(s, sep, i);
      SplitCons(s, sep, i);
      LastOfCons(s[..i], Split(tail, sep));
    } else {
      LastPieceNone(s, sep);
    }
  }

  /** The last element of a non-empty sequence. */
  function Last<T>(xs: seq<T>): T
    requires xs != []
  {
    xs[|xs| - 1]
  }

  lemma LastPieceNone(s: string, sep: char)
    requires IndexOf(s, sep).None?
    ensures LastPiece(s, sep) == s && Split(s, sep) == [s]
  {
  }

  lemma LastPieceCons(s: string, sep: char, i: nat)
    requires IndexOf(s, sep) == Some(i)
    ensures LastPiece(s, sep) == LastPiece(s[i + 1..], sep)
  {
    match IndexOf(s, sep)
    case Some(j) =>
      assert j == i;
  }

  lemma SplitCons(s: string, sep: char, i: nat)
    requires IndexOf(s, sep) == Some(i)
    ensures Split(s, sep) == [s[..i]] + Split(s[i + 1..], sep)
  {
  }

  lemma LastOfCons<T>(a: T, rest: seq<T>)
    requires rest != []
    ensures Last([a] + rest) == Last(rest)
  {
  }

  /** The characters Python's `str.isspace` accepts. */
  predicate IsSpace(c: char)
  {
    c == ' ' || ('\U{9}' <= c <= '\U{D}') || ('\U{1C}' <= c <= '\U{1F}')
    || c == '\U{85}' || c == '\U{A0}' || c == '\U{1680}'
    || ('\U{2000}' <= c <= '\U{200A}') || c == '\U{2028}' || c == '\U{2029}'
    || c == '\U{202F}' || c == '\U{205F}' || c == '\U{3000}'
  }

  function StripStart(s: string): (r: string)
    ensures |r| <= |s| && r == s[|s| - |r|..]
    ensures r != [] ==> !IsSpace(r[0])
    ensures forall i :: 0 <= i < |s| - |r| ==> IsSpace(s[i])
  {
    if s != [] && IsSpace(s[0]) then
      var r := StripStart(s[1..]);
      assert forall i :: 1 <= i < |s| - |r| ==> s[i] == s[1..][i - 1];
      r
    else s
  }

  function StripEnd(s: string): (r: string)
    ensures |r| <= |s| && r == s[..|r|]
    ensures r != [] ==> !IsSpace(r[|r| - 1])
    ensures forall i :: |r| <= i < |s| ==> IsSpace(s[i])
  {
    if s != [] && IsSpace(s[|s| - 1]) then StripEnd(s[..|s| - 1]) else s
  }

  /** `r` is the part of `s` from index `a`, with only whitespace before and after it. */
  predicate TrimmedAt(s: string, r: string, a: int)
  {
    0 <= a <= |s| - |r| && r == s[a..a + |r|]
    && (forall i :: 0 <= i < a ==> IsSpace(s[i]))
    && (forall i :: a + |r| <= i < |s| ==> IsSpace(s[i]))
  }

  /** `r` is `s` with a whitespace run taken off each end. */
  predicate TrimmedOf(s: string, r: string)
  {
    exists a :: 0 <= a <= |s| && TrimmedAt(s, r, a)
  }

  /** `s.strip()`: `s` without its leading and trailing whitespace. */
  function Strip(s: string): (r: string)
    ensures r != [] ==> !IsSpace(r[0]) && !IsSpace(r[|r| - 1])
    ensures |r| <= |s|
  {
    StripEnd(StripStart(s))
  }

  /** `s.strip()` takes off nothing but whitespace: what is left is a slice of `s` with only whitespace around it. */
  lemma StripTrims(s: string)
    ensures TrimmedOf(s, Strip(s))
  {
    TrimCompose(s, StripStart(s), StripEnd(StripStart(s)));
  }

  /** A prefix `r` of a suffix `u` of `s`, with whitespace cut from each, is a trimming of `s`. */
  lemma TrimCompose(s: string, u: string, r: string)
    requires |u| <= |s| && u == s[|s| - |u|..]
    requires forall i :: 0 <= i < |s| - |u| ==> IsSpace(s[i])
    requires |r| <= |u| && r == u[..|r|]
    requires forall i :: |r| <= i < |u| ==> IsSpace(u[i])
    ensures TrimmedAt(s, r, |s| - |u|)
  {
    var a := |s| - |u|;
    assert r == s[a..a + |r|];
    forall i | a + |r| <= i < |s|
      ensures IsSpace(s[i])
    {
      assert s[i] == u[i - a];
    }
  }

  /** The text of `s` with every whitespace character taken out. */
  function NonSpace(s: string): string
  {
    if s == [] then [] else (if IsSpace(s[0]) then [] else [s[0]]) + NonSpace(s[1..])
  }

  lemma {:induction false} NonSpaceAppend(a: string, b: string)
    ensures NonSpace(a + b) == NonSpace(a) + NonSpace(b)
  {
    if a == [] {
      assert a + b == b;
    } else {
      assert (a + b)[1..] == a[1..] + b;
      NonSpaceAppend(a[1..], b);
    }
  }

  lemma {:induction false} NonSpaceOfSpaces(s: string)
    requires forall i :: 0 <= i < |s| ==> IsSpace(s[i])
    ensures NonSpace(s) == []
  {
    if s != [] {
      NonSpaceOfSpaces(s[1..]);
    }
  }

  lemma {:induction false} NonSpaceOfWord(s: string)
    requires forall i :: 0 <= i < |s| ==> !IsSpace(s[i])
    ensures NonSpace(s) == s
  {
    if s != [] {
      NonSpaceOfWord(s[1..]);
    }
  }

  /** The length of the leading run of non-whitespace characters of `s`. */
  function WordLength(s: string): (n: nat)
    ensures n <= |s|
    ensures forall i :: 0 <= i < n ==> !IsSpace(s[i])
    ensures n < |s| ==> IsSpace(s[n])
  {
    if s == [] || IsSpace(s[0]) then 0 else 1 + WordLength(s[1..])
  }

  /** A non-empty run of non-whitespace characters. */
  predicate Word(w: string)
  {
    w != [] && forall j :: 0 <= j < |w| ==> !IsSpace(w[j])
  }

  /** `s.split()`: the maximal runs of non-whitespace characters, in order. */
  function SplitWhitespace(s: string): seq<string>
    decreases |s|
  {
    var t := StripStart(s);
    if t == [] then []
    else
      var n := WordLength(t);
      assert n > 0;
      [t[..n]] + SplitWhitespace(t[n..])
  }

  /** The leading run of a string that does not start with whitespace is a word. */
  lemma LeadingWord(t: string)
    requires t != [] && !IsSpace(t[0])
    ensures 0 < WordLength(t) && Word(t[..WordLength(t)])
  {
  }

  /** Every piece of `s.split()` is a word. */
  lemma {:induction false} SplitWhitespaceWords(s: string)
    ensures forall i :: 0 <= i < |SplitWhitespace(s)| ==> Word(SplitWhitespace(s)[i])
    decreases |s|
  {
    var t := StripStart(s);
    if t != [] {
      var n := WordLength(t);
      LeadingWord(t);
      SplitWhitespaceWords(t[n..]);
      var rest := SplitWhitespace(t[n..]);
      assert SplitWhitespace(s) == [t[..n]] + rest;
      forall i | 0 <= i < |SplitWhitespace(s)|
        ensures Word(SplitWhitespace(s)[i])
      {
        if i > 0 {
          assert SplitWhitespace(s)[i] == rest[i - 1];
        }
      }
    }
  }

  lemma NonSpaceStripStart(s: string)
    ensures NonSpace(StripStart(s)) == NonSpace(s)
  {
    var t := StripStart(s);
    var lead := s[..|s| - |t|];
    assert s == lead + t;
    NonSpaceAppend(lead, t);
    NonSpaceOfSpaces(lead);
  }

  lemma NonSpaceWord(t: string, n: nat)
    requires n <= |t|
    requires forall i :: 0 <= i < n ==> !IsSpace(t[i])
    ensures NonSpace(t) == t[..n] + NonSpace(t[n..])
  {
    assert t == t[..n] + t[n..];
    NonSpaceAppend(t[..n], t[n..]);
    NonSpaceOfWord(t[..n]);
  }

  /** `"".join(s.split())`: splitting on whitespace drops exactly the whitespace. */
  lemma {:induction false} SplitWhitespaceKeepsText(s: string)
    ensures Join(SplitWhitespace(s), "") == NonSpace(s)
    decreases |s|
  {
    var t := StripStart(s);
    NonSpaceStripStart(s);
    if t != [] {
      var n := WordLength(t);
      var word, tail := t[..n], t[n..];
      var rest := SplitWhitespace(tail);
      calc {
        Join(SplitWhitespace(s), "");
        { SplitWhitespaceCons(s, t, n); }
        Join([word] + rest, "");
        { JoinConcatCons(word, rest); }
        word + Join(rest, "");
        { SplitWhitespaceKeepsText(tail); }
        word + NonSpace(tail);
        { NonSpaceWord(t, n); }
        NonSpace(t);
      }
    } else {
      SplitWhitespaceNil(s);
    }
  }

  lemma JoinConcatCons(a: string, rest: seq<string>)
    ensures Join([a] + rest, "") == a + Join(rest, "")
  {
    if rest == [] {
      assert a + [] == a;
    } else {
      assert ([a] + rest)[1..] == rest;
      assert a + "" + Join(rest, "") == a + Join(rest, "");
    }
  }

  lemma SplitWhitespaceNil(s: string)
    requires StripStart(s) == []
    ensures SplitWhitespace(s) == []
  {
  }

  lemma SplitWhitespaceCons(s: string, t: string, n: nat)
    requires t == StripStart(s) && t != [] && n == WordLength(t)
    ensures SplitWhitespace(s) == [t[..n]] + SplitWhitespace(t[n..])
  {
  }

  /** ASCII upper-casing of one character. */
  function UpperChar(c: char): char
  {
    if 'a' <= c <= 'z' then (c as int - 32) as char else c
  }

  /** `s.upper()`, for the ASCII letters. */
  function Upper(s: string): (r: string)
    ensures |r| == |s|
    ensures forall i :: 0 <= i < |s| ==> r[i] == UpperChar(s[i])
  {
    seq(|s|, i requires 0 <= i < |s| => UpperChar(s[i]))
  }

  /** A control character, which `repr` writes as an escape. */
  predicate Control(c: char)
  {
    c as int < 32 || c as int == 127
  }

  function HexDigit(d: nat): char
    requires d < 16
  {
    "0123456789abcdef"[d]
  }

  /** How `repr` writes one character when `q` is the quote it chose. */
  function ReprChar(c: char, q: char): (r: string)
    ensures |r| >= 1
  {
    if c == '\\' || c == q then ['\\', c]
    else if c == '\n' then "\\n"
    else if c == '\r' then "\\r"
    else if c == '\t' then "\\t"
    else if Control(c) then "\\x" + [HexDigit(c as int / 16), HexDigit(c as int % 16)]
    else [c]
  }

  function ReprBody(s: string, q: char): (r: string)
    ensures |r| >= |s|
  {
    if s == [] then [] else ReprChar(s[0], q) + ReprBody(s[1..], q)
  }

  /**
   * Python's `repr` of a string: in single quotes unless the text holds `'`
   * and no `"`; backslashes, the chosen quote and control characters are
   * escaped.
   */
  function Repr(s: string): (r: string)
    ensures |r| >= |s| + 2
  {
    var q := if '\'' in s && '"' !in s then '"' else '\'';
    [q] + ReprBody(s, q) + [q]
  }

  /** Text without quotes, backslashes or control characters is shown as it is, between single quotes. */
  lemma ReprPlain(s: string)
    requires '\'' !in s && '\\' !in s && forall i :: 0 <= i < |s| ==> !Control(s[i])
    ensures Repr(s) == "'" + s + "'"
  {
    ReprBodyPlain(s, '\'');
  }

  lemma {:induction false} ReprBodyPlain(s: string, q: char)
    requires q !in s && '\\' !in s && forall i :: 0 <= i < |s| ==> !Control(s[i])
    ensures ReprBody(s, q) == s
    decreases |s|
  {
    if s != [] {
      assert s[0] in s;
      assert forall i :: 0 <= i < |s| - 1 ==> s[1..][i] == s[i + 1];
      ReprBodyPlain(s[1..], q);
    }
  }

  function Digit(d: nat): char
    requires d < 10
  {
    "0123456789"[d]
  }

  /** `str(n)` for a natural number. */
  function NatToString(n: nat): (s: string)
    ensures |s| >= 1
    ensures forall i :: 0 <= i < |s| ==> '0' <= s[i] <= '9'
    decreases n
  {
    if n < 10 then [Digit(n)] else NatToString(n / 10) + [Digit(n % 10)]
  }

  /** `str(i)` for an integer. */
  function IntToString(i: int): string
  {
    if i < 0 then "-" + NatToString(-i) else NatToString(i)
  }

  /** `[x] * n`: Python list repetition, empty for a count of zero or less. */
  function Repeat<T>(x: T, n: int): (r: seq<T>)
    ensures |r| == if n < 0 then 0 else n
    ensures forall i :: 0 <= i < |r| ==> r[i] == x
  {
    if n <= 0 then [] else [x] + Repeat(x, n - 1)
  }
}
