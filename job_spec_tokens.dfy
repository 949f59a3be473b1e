/**
 * The placeholder language of job specs (`job_parse/job_specification.py`):
 * the six kinds and their capture fragments, the scanner that finds
 * `{name:kind}` / `{kind}` placeholders the way `JOB_SPEC_REGEX.search` does,
 * and a one-pass tokenizer that splits a spec into literal text and
 * placeholders.
 */
module JobSpecTokens {
  import opened Wrappers
  import opened Text

  /** The keys of `KIND_TO_REGEX`. */
  datatype Kind = File | GzipFile | FileList | Numeric | Category | Ignore

  function NameOf(k: Kind): string
  {
    match k
    case File => "file"
    case GzipFile => "gzip_file"
    case FileList => "file_list"
    case Numeric => "numeric"
    case Category => "category"
    case Ignore => "ignore"
  }

  /** `kind in KIND_TO_REGEX`, and which kind the text names. */
  function KindNamed(s: string): (k: Option<Kind>)
    ensures k.Some? ==> NameOf(k.value) == s
    ensures k.None? ==> forall kind: Kind :: NameOf(kind) != s
  {
    if s == "file" then Some(File)
    else if s == "gzip_file" then Some(GzipFile)
    else if s == "file_list" then Some(FileList)
    else if s == "numeric" then Some(Numeric)
    else if s == "category" then Some(Category)
    else if s == "ignore" then Some(Ignore)
    else None
  }

  /** Every kind's name is recognised as that kind. */
  lemma KindNamesRoundTrip(k: Kind)
    ensures KindNamed(NameOf(k)) == Some(k)
  {
  }

  /** The kinds whose placeholder names a file to run parsers on. */
  predicate IsFileKind(k: Kind)
  {
    k == File || k == GzipFile || k == FileList
  }

  /** `KIND_TO_REGEX[kind]`: the lazy any-text fragment for all but numbers. */
  function Fragment(k: Kind): (f: string)
    ensures '{' !in f && '}' !in f
  {
    if k == Numeric then "[-0-9.]+" else ".+?"
  }

  // ---------------------------------------------------------------------
  // JOB_SPEC_REGEX = {(?:(?P<name>[^:}]+):)?(?P<kind>[^}]+)}

  /** One match of the placeholder pattern: `s[start..end]`, its name group and kind group. */
  datatype Token = Token(start: nat, end: nat, name: Option<string>, kind: string)

  /** The text of a placeholder with this name and kind. */
  function TokenText(name: Option<string>, kind: string): string
  {
    "{" + TokenBody(name, kind) + "}"
  }

  /** The text between a placeholder's braces: `name:kind`, or the kind alone. */
  function TokenBody(name: Option<string>, kind: string): string
  {
    if name.Some? then name.value + ":" + kind else kind
  }

  /** A name group: some characters, none of them `:` or `}`. */
  predicate IsNameGroup(n: string)
  {
    n != [] && ':' !in n && '}' !in n
  }

  /** A kind group: some characters, none of them `}`. */
  predicate IsKindGroup(k: string)
  {
    k != [] && '}' !in k
  }

  /**
   * How the groups split the text between the braces: the optional name
   * group is tried first and needs a non-empty name before the first `:` and
   * a non-empty kind after it; otherwise the whole text is the kind.
   */
  function SplitBody(body: string): (r: (Option<string>, string))
    requires IsKindGroup(body)
    ensures IsKindGroup(r.1)
    ensures r.0.Some? ==> IsNameGroup(r.0.value)
    ensures TokenBody(r.0, r.1) == body
  {
    match IndexOf(body, ':')
    case Some(j) =>
      if 0 < j < |body| - 1 then
        assert body == body[..j] + ":" + body[j + 1..];
        (Some(body[..j]), body[j + 1..])
      else (None, body)
    case None => (None, body)
  }

  /** A match moved `d` characters to the right. */
  function Shift(m: Option<Token>, d: nat): Option<Token>
  {
    match m
    case None => None
    case Some(t) => Some(Token(t.start + d, t.end + d, t.name, t.kind))
  }

  /**
   * The match of the pattern that starts at index `i` of `s`, if any: a `{`,
   * then text up to the first `}` after it, which must not be empty.
   */
  function MatchAt(s: string, i: nat): (m: Option<Token>)
    ensures m.Some? ==> m.value.start == i && i + 3 <= m.value.end <= |s|
    ensures m.Some? ==> s[i] == '{' && s[m.value.end - 1] == '}'
    ensures m.Some? ==> IsKindGroup(m.value.kind) && (m.value.name.Some? ==> IsNameGroup(m.value.name.value))
  {
    if i < |s| && s[i] == '{' then
      match CharFrom(s, i + 1, '}')
      case None => None
      case Some(e) =>
        if e == i + 1 then None
        else
          CharFromClean(s, i + 1, e, '}');
          var nk := SplitBody(s[i + 1..e]);
          Some(Token(i, e + 1, nk.0, nk.1))
    else None
  }

  /** What a match is made of: the brace, the first `}` after it and the split text between. */
  lemma MatchAtParts(s: string, i: nat)
    requires MatchAt(s, i).Some?
    ensures var m := MatchAt(s, i).value;
      s[i] == '{' && CharFrom(s, i + 1, '}') == Some(m.end - 1) && i + 1 < m.end - 1
      && IsKindGroup(s[i + 1..m.end - 1]) && (m.name, m.kind) == SplitBody(s[i + 1..m.end - 1])
      && TokenBody(m.name, m.kind) == s[i + 1..m.end - 1]
  {
    var e := CharFrom(s, i + 1, '}').value;
    CharFromClean(s, i + 1, e, '}');
  }

  /** The text a match covers is the placeholder its groups describe. */
  lemma MatchAtText(s: string, i: nat)
    requires MatchAt(s, i).Some?
    ensures var m := MatchAt(s, i).value; s[i..m.end] == TokenText(m.name, m.kind)
  {
    var m := MatchAt(s, i).value;
    var e := m.end - 1;
    MatchAtParts(s, i);
    BracedText(s, i, e, m.name, m.kind);
  }

  /** Text between a `{` and a `}` that the groups split as `name` and `kind` is their placeholder. */
  lemma BracedText(s: string, i: nat, e: nat, name: Option<string>, kind: string)
    requires i < e < |s| && s[i] == '{' && s[e] == '}'
    requires TokenBody(name, kind) == s[i + 1..e]
    ensures s[i..e + 1] == TokenText(name, kind)
  {
    assert s[i..e + 1] == "{" + s[i + 1..e] + "}";
  }

  /** The text a match covers: a `{`, a `}` at its end, and no `}` in between. */
  lemma TokenShape(name: Option<string>, kind: string)
    requires IsKindGroup(kind) && (name.Some? ==> IsNameGroup(name.value))
    ensures var t := TokenText(name, kind);
      t[0] == '{' && t[|t| - 1] == '}' && '}' !in t[..|t| - 1] && Count(t, '}') == 1
  {
    var t := TokenText(name, kind);
    var inner := TokenBody(name, kind);
    assert t[..|t| - 1] == "{" + inner;
    CountAppend("{" + inner, "}", '}');
    CountAppend("{", inner, '}');
  }

  /** `JOB_SPEC_REGEX.search(s, from)`: the first match at or after `from`. */
  function FindTokenFrom(s: string, from: nat): (r: Option<Token>)
    requires from <= |s|
    ensures r.Some? ==> from <= r.value.start && MatchAt(s, r.value.start) == r
    decreases |s| - from
  {
    if MatchAt(s, from).Some? then MatchAt(s, from)
    else if from == |s| then None
    else FindTokenFrom(s, from + 1)
  }

  /** No match starts between `from` and the one found, nor anywhere after `from` when none is found. */
  lemma {:induction false} FindTokenFromLeftmost(s: string, from: nat, j: nat)
    requires from <= j <= |s|
    requires FindTokenFrom(s, from).Some? ==> j < FindTokenFrom(s, from).value.start
    ensures MatchAt(s, j).None?
    decreases |s| - from
  {
    if from < j {
      FindTokenFromLeftmost(s, from + 1, j);
    }
  }

  /** `JOB_SPEC_REGEX.search(s)`: the leftmost match. */
  function FindToken(s: string): (r: Option<Token>)
    ensures r.Some? ==> MatchAt(s, r.value.start) == r
  {
    FindTokenFrom(s, 0)
  }

  /** No match starts before the one found, nor anywhere when none is found. */
  lemma FindTokenLeftmost(s: string, j: nat)
    requires j <= |s|
    requires FindToken(s).Some? ==> j < FindToken(s).value.start
    ensures MatchAt(s, j).None?
  {
    FindTokenFromLeftmost(s, 0, j);
  }

  /** The leftmost match is the only one with no match before it. */
  lemma FindTokenUnique(s: string, r: Option<Token>)
    requires r.Some? ==> r.value.start <= |s| && MatchAt(s, r.value.start) == r
    requires r.Some? ==> forall j :: 0 <= j < r.value.start ==> MatchAt(s, j).None?
    requires r.None? ==> forall j :: 0 <= j <= |s| ==> MatchAt(s, j).None?
    ensures FindToken(s) == r
  {
    var f := FindToken(s);
    if f.Some? && (r.None? || f.value.start < r.value.start) {
      assert false;
    } else if r.Some? && (f.None? || r.value.start < f.value.start) {
      FindTokenLeftmost(s, r.value.start);
    }
  }

  /** A match covers exactly one placeholder: its text holds a `}` only at its end. */
  lemma MatchSpansOnePlaceholder(s: string, i: nat)
    requires MatchAt(s, i).Some?
    ensures var t := MatchAt(s, i).value;
      s[i] == '{' && s[t.end - 1] == '}' && Count(s[i..t.end], '}') == 1
  {
    var t := MatchAt(s, i).value;
    MatchAtText(s, i);
    PlaceholderSpan(s, i, t.end, t.name, t.kind);
  }

  /** A slice that spells a placeholder opens with `{` and holds one `}`, at its end. */
  lemma PlaceholderSpan(s: string, i: nat, end: nat, name: Option<string>, kind: string)
    requires i < end <= |s| && s[i..end] == TokenText(name, kind)
    requires IsKindGroup(kind) && (name.Some? ==> IsNameGroup(name.value))
    ensures s[i] == '{' && s[end - 1] == '}' && Count(s[i..end], '}') == 1
  {
    var text := TokenText(name, kind);
    TokenShape(name, kind);
    assert s[i] == s[i..end][0];
    assert s[end - 1] == s[i..end][|text| - 1];
  }

  // ---------------------------------------------------------------------
  // Text the scanner passes over

  /** Text in which every `{` is directly followed by a `}`: no match can start in it. */
  predicate Inert(p: string)
  {
    forall i :: 0 <= i < |p| ==> ClosedAt(p, i)
  }

  /** The character at `i` is not a `{`, or a `}` follows it. */
  predicate ClosedAt(p: string, i: nat)
    requires i < |p|
  {
    p[i] == '{' ==> i + 1 < |p| && p[i + 1] == '}'
  }

  lemma InertConcat(a: string, b: string)
    requires Inert(a) && Inert(b)
    ensures Inert(a + b)
  {
    forall i | 0 <= i < |a + b| ensures ClosedAt(a + b, i) {
      if i < |a| {
        assert ClosedAt(a, i);
      } else {
        assert ClosedAt(b, i - |a|);
      }
    }
  }

  lemma InertWithoutBraces(a: string)
    requires '{' !in a
    ensures Inert(a)
  {
    forall i | 0 <= i < |a| ensures ClosedAt(a, i) {
      assert a[i] != '{';
    }
  }

  /** At a `{` followed by a `}` further on, no match means the very next character is `}`. */
  lemma NoMatchAtBrace(s: string, i: nat, k: nat)
    requires i < k < |s| && s[i] == '{' && s[k] == '}'
    requires MatchAt(s, i).None?
    ensures s[i + 1] == '}'
  {
    if CharFrom(s, i + 1, '}').None? {
      CharFromFirst(s, i + 1, k, '}');
    }
  }

  /** The text before the leftmost match holds no other match. */
  lemma PrefixInert(s: string, t: Token)
    requires FindToken(s) == Some(t)
    ensures Inert(s[..t.start])
  {
    assert MatchAt(s, t.start) == Some(t);
    forall i | 0 <= i < |s[..t.start]| ensures ClosedAt(s[..t.start], i) {
      FindTokenLeftmost(s, i);
      ClosedBeforeToken(s, i, t.start, t.end - 1);
    }
  }

  /** A `{` with no match at it, before a placeholder, is closed at once. */
  lemma ClosedBeforeToken(s: string, i: nat, start: nat, k: nat)
    requires i < start < k < |s| && s[start] == '{' && s[k] == '}'
    requires MatchAt(s, i).None?
    ensures ClosedAt(s[..start], i)
  {
    if s[i] == '{' {
      NoMatchAtBrace(s, i, k);
    }
  }

  /** A match read off from its closing brace. */
  lemma MatchAtClosedBy(s: string, i: nat, e: nat, body: string)
    requires i < |s| && s[i] == '{' && CharFrom(s, i + 1, '}') == Some(e) && body == s[i + 1..e]
    ensures e == i + 1 ==> MatchAt(s, i).None?
    ensures e != i + 1 ==> IsKindGroup(body)
    ensures e != i + 1 ==> MatchAt(s, i) == Some(Token(i, e + 1, SplitBody(body).0, SplitBody(body).1))
  {
    CharFromClean(s, i + 1, e, '}');
  }

  /** A placeholder opening at `k` of `s`, that is at `j` of `p + s`, closes at the same `}`. */
  lemma MatchAtShiftClosed(p: string, s: string, k: nat, j: nat, e: nat, e': nat)
    requires j == |p| + k && k < |s| && s[k] == '{' && CharFrom(s, k + 1, '}') == Some(e) && e != k + 1
    requires e' == |p| + e && (p + s)[j] == '{' && CharFrom(p + s, j + 1, '}') == Some(e')
    ensures MatchAt(p + s, j) == Shift(MatchAt(s, k), |p|)
  {
    var body := s[k + 1..e];
    SliceShift(p, s, k + 1, e);
    assert (p + s)[j + 1..e'] == body;
    MatchAtClosedBy(s, k, e, body);
    MatchAtClosedBy(p + s, j, e', body);
  }

  /** A match in the spec is the same match, moved, once text is put in front. */
  lemma MatchAtShift(p: string, s: string, k: nat, j: nat)
    requires j == |p| + k && k <= |s|
    ensures MatchAt(p + s, j) == Shift(MatchAt(s, k), |p|)
  {
    if k == |s| {
      assert MatchAt(s, k).None? && MatchAt(p + s, j).None?;
    } else {
      assert (p + s)[j] == s[k];
      if s[k] != '{' {
        assert MatchAt(s, k).None? && MatchAt(p + s, j).None?;
      } else {
        CharFromShifted(p, s, k + 1, j + 1, '}');
        var c := CharFrom(s, k + 1, '}');
        if c.None? || c.value == k + 1 {
          assert MatchAt(s, k).None? && MatchAt(p + s, j).None?;
        } else {
          MatchAtShiftClosed(p, s, k, j, c.value, CharFrom(p + s, j + 1, '}').value);
        }
      }
    }
  }

  lemma MatchAtInert(p: string, s: string, i: nat)
    requires Inert(p) && i < |p|
    ensures MatchAt(p + s, i).None?
  {
    assert ClosedAt(p, i);
    if p[i] == '{' {
      assert (p + s)[i + 1] == '}';
    }
  }

  /** With inert text in front, a match starts only where one starts in the spec. */
  lemma MatchAtPrefixed(p: string, s: string, j: nat)
    requires Inert(p) && j <= |p| + |s|
    ensures j < |p| ==> MatchAt(p + s, j).None?
    ensures |p| <= j ==> MatchAt(p + s, j) == Shift(MatchAt(s, j - |p|), |p|)
  {
    if j < |p| {
      MatchAtInert(p, s, j);
    } else {
      MatchAtShift(p, s, j - |p|, j);
    }
  }

  /** Inert text in front of a spec moves its matches and changes nothing else. */
  lemma FindTokenShift(p: string, s: string)
    requires Inert(p)
    ensures FindToken(p + s) == Shift(FindToken(s), |p|)
  {
    var f := FindToken(s);
    var r := Shift(f, |p|);
    if f.Some? {
      forall j | 0 <= j < |p| + f.value.start ensures MatchAt(p + s, j).None? {
        MatchAtPrefixed(p, s, j);
        if |p| <= j {
          FindTokenLeftmost(s, j - |p|);
        }
      }
      MatchAtShift(p, s, f.value.start, r.value.start);
    } else {
      forall j | 0 <= j <= |p + s| ensures MatchAt(p + s, j).None? {
        MatchAtPrefixed(p, s, j);
        if |p| <= j {
          FindTokenLeftmost(s, j - |p|);
        }
      }
    }
    FindTokenUnique(p + s, r);
  }

  /** The matched text cannot occur at an index where no match starts. */
  lemma NoOccurrenceWithoutMatch(s: string, i: nat, j: nat)
    requires MatchAt(s, i).Some? && MatchAt(s, j).None? && j <= |s|
    ensures !OccursAt(s, s[i..MatchAt(s, i).value.end], j)
  {
    var t := MatchAt(s, i).value;
    var len := t.end - i;
    if OccursAt(s, s[i..t.end], j) {
      MatchAtParts(s, i);
      assert s[j..j + len] == s[i..t.end];
      assert s[j] == s[i];
      assert s[j + 1..j + len] == s[i + 1..t.end];
      CharFromWindow(s, i + 1, t.end - 1, s, j + 1, '}');
      assert false;
    }
  }

  /**
   * `job_spec.replace(match.group(0), x, 1)` replaces the match itself: no
   * earlier occurrence of the matched text exists.
   */
  lemma FirstOccurrenceIsMatch(s: string, t: Token)
    requires FindToken(s) == Some(t)
    ensures Find(s, s[t.start..t.end]) == Some(t.start)
  {
    var tok := s[t.start..t.end];
    assert OccursAt(s, tok, t.start);
    forall j | 0 <= j < t.start ensures !OccursAt(s, tok, j) {
      FindTokenLeftmost(s, j);
      NoOccurrenceWithoutMatch(s, t.start, j);
    }
  }

  // ---------------------------------------------------------------------
  // One pass over a spec

  /** A piece of a spec: text copied verbatim, or a placeholder with its groups. */
  datatype Segment = Literal(text: string) | Placeholder(name: Option<string>, kind: string)

  /** The spec split at every match of the scanner, left to right, in one pass. */
  function Tokenize(s: string): (segs: seq<Segment>)
    ensures segs != [] && segs[0].Literal?
    decreases |s|
  {
    match FindToken(s)
    case None => [Literal(s)]
    case Some(t) => [Literal(s[..t.start]), Placeholder(t.name, t.kind)] + Tokenize(s[t.end..])
  }

  function SegmentText(seg: Segment): string
  {
    match seg
    case Literal(text) => text
    case Placeholder(name, kind) => TokenText(name, kind)
  }

  function Render(segs: seq<Segment>): string
  {
    if segs == [] then "" else SegmentText(segs[0]) + Render(segs[1..])
  }

  lemma RenderCons(seg: Segment, rest: seq<Segment>)
    ensures Render([seg] + rest) == SegmentText(seg) + Render(rest)
  {
    assert ([seg] + rest)[1..] == rest;
  }

  lemma TokenizeUnfold(s: string, t: Token)
    requires FindToken(s) == Some(t)
    ensures Tokenize(s) == [Literal(s[..t.start])] + ([Placeholder(t.name, t.kind)] + Tokenize(s[t.end..]))
  {
  }

  lemma RenderPieces(s: string, i: nat, j: nat, ph: Segment, rest: seq<Segment>)
    requires i <= j <= |s| && SegmentText(ph) == s[i..j] && Render(rest) == s[j..]
    ensures Render([Literal(s[..i])] + ([ph] + rest)) == s
  {
    RenderCons(Literal(s[..i]), [ph] + rest);
    RenderCons(ph, rest);
    SliceThree(s, i, j);
  }

  lemma SliceThree(s: string, i: nat, j: nat)
    requires i <= j <= |s|
    ensures s[..i] + (s[i..j] + s[j..]) == s
  {
    assert s[i..j] + s[j..] == s[i..];
    assert s[..i] + s[i..] == s;
  }

  /** Tokenizing loses nothing: rendering the pieces gives the spec back. */
  lemma {:induction false} RenderTokenize(s: string)
    ensures Render(Tokenize(s)) == s
    decreases |s|
  {
    var r := FindToken(s);
    if r.None? {
      assert Tokenize(s) == [Literal(s)];
      RenderCons(Literal(s), []);
    } else {
      var t := r.value;
      TokenizeUnfold(s, t);
      RenderTokenize(s[t.end..]);
      MatchAtText(s, t.start);
      RenderPieces(s, t.start, t.end, Placeholder(t.name, t.kind), Tokenize(s[t.end..]));
    }
  }
}
