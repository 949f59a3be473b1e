/**
 * The text `align_and_indicate_differences` renders when a command does not
 * match its job spec: the spec with every field shown as `{name⇒value}`,
 * a line of indicators and the command, aligned run by run over the
 * opcodes of a sequence matcher.
 */
module JobSpecDiagnostics {
  import opened Wrappers
  import opened Text
  import opened Values
  import opened JobSpecTokens
  import opened JobSpecCompile

  const ARROW: char := '\U{21D2}'

  // ---------------------------------------------------------------------
  // The renaming loop: `while "{ignore}" in job_spec_str`

  const UNNAMED_IGNORE := "{ignore}"

  /** The placeholder written over the `ind`-th unnamed ignore placeholder. */
  function NamedIgnore(ind: nat): (r: string)
    ensures |r| > |UNNAMED_IGNORE| && r[0] == '{' && r[7] == '_'
    ensures forall k :: 1 <= k < |r| ==> r[k] != '{'
  {
    "{" + IgnoreName(ind) + ":ignore}"
  }

  /** How far the first unnamed ignore placeholder lies from the end; the loop's measure. */
  function Remaining(s: string): nat
  {
    match Find(s, UNNAMED_IGNORE)
    case None => 0
    case Some(p) => |s| - p
  }

  /** Renaming the first unnamed ignore placeholder leaves none before the end of what was written. */
  lemma RenameFirstClears(s: string, p: nat, ind: nat)
    requires OccursAt(s, UNNAMED_IGNORE, p)
    requires forall j :: 0 <= j < p ==> !OccursAt(s, UNNAMED_IGNORE, j)
    ensures var t := s[..p] + NamedIgnore(ind) + s[p + |UNNAMED_IGNORE|..];
      forall j :: 0 <= j < p + |NamedIgnore(ind)| ==> !OccursAt(t, UNNAMED_IGNORE, j)
  {
    var r := NamedIgnore(ind);
    var t := s[..p] + r + s[p + |UNNAMED_IGNORE|..];
    forall j | 0 <= j < p + |r|
      ensures !OccursAt(t, UNNAMED_IGNORE, j)
    {
      if j + |UNNAMED_IGNORE| <= |t| {
        var w := t[j..j + |UNNAMED_IGNORE|];
        if j + |UNNAMED_IGNORE| <= p {
          assert t[..p] == s[..p];
          assert w == t[..p][j..j + |UNNAMED_IGNORE|] == s[..p][j..j + |UNNAMED_IGNORE|];
          assert w == s[j..j + |UNNAMED_IGNORE|] && !OccursAt(s, UNNAMED_IGNORE, j);
        } else if j < p {
          assert t[p] == r[0] == '{';
          assert w[p - j] == t[p];
          assert UNNAMED_IGNORE[p - j] != '{';
        } else if j == p {
          assert t[p + 7] == r[7];
          assert w[7] == t[p + 7];
        } else {
          assert t[j] == r[j - p] != '{';
          assert w[0] == t[j];
        }
      }
    }
  }

  /** One turn of the loop: the first unnamed ignore placeholder gets the name of the counter. */
  lemma RenameStep(s: string, ind: nat)
    requires Contains(s, UNNAMED_IGNORE)
    ensures var p := Find(s, UNNAMED_IGNORE).value;
      && ReplaceFirst(s, UNNAMED_IGNORE, NamedIgnore(ind)) == s[..p] + NamedIgnore(ind) + s[p + |UNNAMED_IGNORE|..]
      && Remaining(ReplaceFirst(s, UNNAMED_IGNORE, NamedIgnore(ind))) < Remaining(s)
    ensures var p := Find(s, UNNAMED_IGNORE).value; var t := ReplaceFirst(s, UNNAMED_IGNORE, NamedIgnore(ind));
      Contains(t, UNNAMED_IGNORE) ==> Find(t, UNNAMED_IGNORE).value >= p + |NamedIgnore(ind)|
  {
    var p := Find(s, UNNAMED_IGNORE).value;
    RenameFirstClears(s, p, ind);
  }

  /**
   * `job_spec_str` after the loop: each unnamed ignore placeholder, leftmost
   * first, replaced by one named `ignore_<counter>`, the counter counting up
   * from `ind`.
   */
  function RenameIgnores(s: string, ind: nat): (r: string)
    ensures !Contains(r, UNNAMED_IGNORE)
    ensures !Contains(s, UNNAMED_IGNORE) ==> r == s
    decreases Remaining(s)
  {
    if Contains(s, UNNAMED_IGNORE) then
      RenameStep(s, ind);
      RenameIgnores(ReplaceFirst(s, UNNAMED_IGNORE, NamedIgnore(ind)), ind + 1)
    else s
  }

  /**
   * The loop never rewrites what lies before the placeholder it renames: the
   * text up to and including the first renamed placeholder is a prefix of
   * the result.
   */
  lemma {:induction false} RenameKeepsPrefix(s: string, ind: nat)
    requires Contains(s, UNNAMED_IGNORE)
    ensures var p := Find(s, UNNAMED_IGNORE).value;
      s[..p] + NamedIgnore(ind) <= RenameIgnores(s, ind)
    decreases Remaining(s)
  {
    var p := Find(s, UNNAMED_IGNORE).value;
    var t := ReplaceFirst(s, UNNAMED_IGNORE, NamedIgnore(ind));
    RenameStep(s, ind);
    var head := s[..p] + NamedIgnore(ind);
    assert t[..|head|] == head;
    if Contains(t, UNNAMED_IGNORE) {
      var q := Find(t, UNNAMED_IGNORE).value;
      RenameKeepsPrefix(t, ind + 1);
      assert head <= t[..q] + NamedIgnore(ind + 1);
    }
  }

  /** The loop of the source, proved to compute `RenameIgnores` from the counter 0. */
  method NameIgnores(spec: string) returns (s: string)
    ensures s == RenameIgnores(spec, 0)
  {
    s := spec;
    var ind: nat := 0;
    while Find(s, UNNAMED_IGNORE).Some?
      invariant RenameIgnores(s, ind) == RenameIgnores(spec, 0)
      decreases Remaining(s)
    {
      RenameStep(s, ind);
      s := ReplaceFirst(s, UNNAMED_IGNORE, NamedIgnore(ind));
      ind := ind + 1;
    }
  }

  // ---------------------------------------------------------------------
  // `simple_spec = re.sub(r"{([^:}]+)(:[^}]+)?}", r"{\1}", job_spec_str)`

  /** The spec as `str.format` sees it: literal text, and a field for every placeholder. */
  datatype Piece = Lit(text: string) | Field(name: string)

  /** A placeholder becomes `{name}`, or `{kind}` when it has no name. */
  function PieceOf(seg: Segment): (p: Piece)
    ensures seg.Literal? <==> p.Lit?
  {
    match seg
    case Literal(t) => Lit(t)
    case Placeholder(name, kind) => Field(if name.Some? then name.value else kind)
  }

  function Pieces(segs: seq<Segment>): (ps: seq<Piece>)
    ensures |ps| == |segs| && forall i :: 0 <= i < |segs| ==> ps[i] == PieceOf(segs[i])
  {
    seq(|segs|, i requires 0 <= i < |segs| => PieceOf(segs[i]))
  }

  /**
   * A field `str.format` looks up as a plain key of the group dictionary; a
   * name that is all digits or uses attribute, index, conversion or format
   * syntax is not one.
   */
  predicate PlainField(name: string)
  {
    name != [] && (exists i :: 0 <= i < |name| && !('0' <= name[i] <= '9'))
    && '.' !in name && '[' !in name && '!' !in name && ':' !in name && '{' !in name && '}' !in name
  }

  /** What `str.format(**groups)` puts for a field. */
  function FieldValue(name: string, groups: map<string, string>): Result<string, SpecError>
  {
    if !PlainField(name) then Err(DiagnosticFailed("unsupported format field " + Repr(name)))
    else if name !in groups then Err(DiagnosticFailed("KeyError: " + Repr(name)))
    else Ok(groups[name])
  }

  /** `c` in front of a formatted text; an error stays the error. */
  function PrependChar(c: char, r: Result<string, SpecError>): Result<string, SpecError>
  {
    match r
    case Err(e) => Err(e)
    case Ok(u) => Ok([c] + u)
  }

  /**
   * `str.format` on literal text: a doubled brace stands for one brace and a
   * single one raises. A `{` that opens no placeholder of a tokenized spec is
   * either `{}`, an empty positional field, or has no `}` anywhere after it,
   * so the field it opens never reaches a later piece.
   */
  function FormatLiteral(t: string): Result<string, SpecError>
    decreases |t|
  {
    if t == [] then Ok("")
    else if t[0] == '}' then
      if |t| > 1 && t[1] == '}' then PrependChar('}', FormatLiteral(t[2..]))
      else Err(DiagnosticFailed("Single '}' encountered in format string"))
    else if t[0] == '{' then
      if |t| == 1 then Err(DiagnosticFailed("Single '{' encountered in format string"))
      else if t[1] == '{' then PrependChar('{', FormatLiteral(t[2..]))
      else if t[1] == '}' then Err(DiagnosticFailed("Replacement index 0 out of range for positional args tuple"))
      else Err(DiagnosticFailed("expected '}' before end of string"))
    else PrependChar(t[0], FormatLiteral(t[1..]))
  }

  /** Text written for `str.format`: every brace doubled. */
  function EscapeBraces(u: string): (t: string)
    ensures |u| <= |t|
    decreases |u|
  {
    if u == [] then []
    else (if u[0] == '{' || u[0] == '}' then [u[0], u[0]] else [u[0]]) + EscapeBraces(u[1..])
  }

  /** Literal text formats exactly when it is some text with its braces doubled, and gives that text. */
  lemma {:induction false} FormatLiteralEscapes(t: string, u: string)
    ensures FormatLiteral(t) == Ok(u) <==> t == EscapeBraces(u)
    decreases |t|
  {
    if t != [] && u != [] {
      var e := EscapeBraces(u);
      if |t| > 1 {
        PrependCharOk(t[0], FormatLiteral(t[2..]), u);
        FormatLiteralEscapes(t[2..], u[1..]);
      }
      PrependCharOk(t[0], FormatLiteral(t[1..]), u);
      FormatLiteralEscapes(t[1..], u[1..]);
      if u[0] == '{' || u[0] == '}' {
        assert e == [u[0], u[0]] + EscapeBraces(u[1..]);
        assert t == e <==> (|t| > 1 && t[0] == u[0] && t[1] == u[0] && t[2..] == EscapeBraces(u[1..]));
      } else {
        assert e == [u[0]] + EscapeBraces(u[1..]);
        assert t == e <==> (t[0] == u[0] && t[1..] == EscapeBraces(u[1..]));
      }
    }
  }

  lemma PrependCharOk(c: char, r: Result<string, SpecError>, u: string)
    ensures PrependChar(c, r) == Ok(u) <==> (u != [] && u[0] == c && r == Ok(u[1..]))
  {
    if r.Ok? && u != [] && u[0] == c && r.value == u[1..] {
      assert [c] + r.value == u;
    }
  }

  /** Formatting literal text that holds no `{` gives text that holds none. */
  lemma {:induction false} FormatLiteralNoOpen(t: string)
    requires '{' !in t && FormatLiteral(t).Ok?
    ensures '{' !in FormatLiteral(t).value
    decreases |t|
  {
    if t != [] {
      if t[0] == '}' {
        assert t[2..] == t[1..][1..];
        FormatLiteralNoOpen(t[2..]);
      } else {
        FormatLiteralNoOpen(t[1..]);
      }
    }
  }

  /**
   * One piece formatted: literal text as `str.format` reads it, a field as
   * its value, or, in the display spec, as `{name⇒value}`.
   */
  function PieceText(p: Piece, groups: map<string, string>, display: bool): Result<string, SpecError>
  {
    match p
    case Lit(t) => FormatLiteral(t)
    case Field(n) =>
      match FieldValue(n, groups)
      case Err(e) => Err(e)
      case Ok(v) => Ok(if display then "{" + n + [ARROW] + v + "}" else v)
  }

  /** `spec_with_matches` (`display` false) or `display_spec` (`display` true); the first piece that cannot be formatted raises. */
  function Render(ps: seq<Piece>, groups: map<string, string>, display: bool): Result<string, SpecError>
    decreases |ps|
  {
    if ps == [] then Ok("")
    else
      match PieceText(ps[0], groups, display)
      case Err(e) => Err(e)
      case Ok(t) =>
        match Render(ps[1..], groups, display)
        case Err(e) => Err(e)
        case Ok(rest) => Ok(t + rest)
  }

  /** Both renderings fail alike: they format the same fields. */
  lemma {:induction false} RenderFailsAlike(ps: seq<Piece>, groups: map<string, string>)
    ensures Render(ps, groups, true).Err? <==> Render(ps, groups, false).Err?
    ensures Render(ps, groups, true).Err? ==> Render(ps, groups, true).error == Render(ps, groups, false).error
    decreases |ps|
  {
    if ps != [] {
      RenderFailsAlike(ps[1..], groups);
    }
  }

  // ---------------------------------------------------------------------
  // `re.finditer(r"{([^⇒]+)⇒([^}]*)}", display_spec)`

  /** One match of the callout pattern: its span and its two groups. */
  datatype Callout = Callout(start: nat, end: nat, name: string, value: string)

  /**
   * The match starting at `i`, if any: a `{`, the text up to the first `⇒`
   * after it (not empty), then the text up to the first `}` after that.
   */
  function CalloutAt(s: string, i: nat): (r: Option<Callout>)
    ensures r.Some? ==> (r.value.start == i && i < r.value.end <= |s|
      && r.value.end - r.value.start == |r.value.name| + |r.value.value| + 3 && r.value.name != [])
  {
    if i < |s| && s[i] == '{' then
      match CharFrom(s, i + 1, ARROW)
      case None => None
      case Some(p) =>
        if p == i + 1 then None
        else
          match CharFrom(s, p + 1, '}')
          case None => None
          case Some(q) => Some(Callout(i, q + 1, s[i + 1..p], s[p + 1..q]))
    else None
  }

  /** The matches from index `k` on: each search resumes where the last match ended. */
  function CalloutsFrom(s: string, k: nat): (cs: seq<Callout>)
    requires k <= |s|
    ensures Ordered(s, cs, k)
    decreases |s| - k
  {
    if k == |s| then []
    else
      match CalloutAt(s, k)
      case Some(c) => [c] + CalloutsFrom(s, c.end)
      case None => CalloutsFrom(s, k + 1)
  }

  /** Callouts in order, inside `s`, from `k` on, none overlapping the next, each as long as its groups and three marks. */
  predicate Ordered(s: string, cs: seq<Callout>, k: nat)
  {
    k <= |s|
    && (forall i :: 0 <= i < |cs| ==> (cs[i].start <= cs[i].end <= |s|
         && cs[i].end - cs[i].start == |cs[i].name| + |cs[i].value| + 3 && cs[i].name != []))
    && (forall i :: 0 <= i < |cs| - 1 ==> cs[i].end <= cs[i + 1].start)
    && (|cs| > 0 ==> k <= cs[0].start)
  }

  lemma OrderedTail(s: string, cs: seq<Callout>, k: nat)
    requires Ordered(s, cs, k) && cs != []
    ensures Ordered(s, cs[1..], cs[0].end)
  {
    assert forall i :: 0 <= i < |cs| - 1 ==> cs[1..][i] == cs[i + 1];
  }

  /** `display_spec` with every callout replaced by its value. */
  function Collapse(s: string, cs: seq<Callout>, k: nat): (r: string)
    requires Ordered(s, cs, k)
    decreases |cs|
  {
    if cs == [] then s[k..]
    else
      OrderedTail(s, cs, k);
      s[k..cs[0].start] + cs[0].value + Collapse(s, cs[1..], cs[0].end)
  }

  // ---------------------------------------------------------------------
  // `matches_to_display`

  /** An entry of `matches_to_display`: where the value sits in `spec_with_matches`, where its callout sits in `display_spec`, the field name. */
  datatype Entry = Entry(matchStart: int, matchEnd: int, displayStart: nat, displayEnd: nat, name: string)

  /** The table the loop builds from the callouts, `offset` being what the callouts before these took out. */
  function Table(cs: seq<Callout>, offset: int): seq<Entry>
    decreases |cs|
  {
    if cs == [] then []
    else [EntryAt(cs[0], offset)] + Table(cs[1..], OffsetAfter(cs[0], offset))
  }

  /** The entry of callout `c`: where its value lies in `spec_with_matches`, where the callout lies in the display spec. */
  function EntryAt(c: Callout, offset: int): Entry
  {
    Entry(c.start + offset, c.start + offset + |c.value|, c.start, c.end, c.name)
  }

  /** The offset once callout `c` is collapsed to its value. */
  function OffsetAfter(c: Callout, offset: int): int
  {
    offset + |c.value| - c.end + c.start
  }

  /** The table from the `i`-th callout on: its entry, then the rest shifted. */
  lemma TableFrom(cs: seq<Callout>, i: nat, offset: int)
    requires i < |cs|
    ensures Table(cs[i..], offset) == [EntryAt(cs[i], offset)] + Table(cs[i + 1..], OffsetAfter(cs[i], offset))
  {
    assert cs[i..][0] == cs[i] && cs[i..][1..] == cs[i + 1..];
  }

  lemma {:induction false} TableLength(cs: seq<Callout>, offset: int)
    ensures |Table(cs, offset)| == |cs|
    decreases |cs|
  {
    if cs != [] {
      TableLength(cs[1..], OffsetAfter(cs[0], offset));
    }
  }

  /** Entry `e` spans `value` in `collapsed` once shifted back by `shift`, and records the callout's display span and name. */
  predicate Locates(e: Entry, collapsed: string, shift: int, c: Callout)
  {
    && 0 <= e.matchStart - shift <= e.matchEnd - shift <= |collapsed|
    && collapsed[e.matchStart - shift..e.matchEnd - shift] == c.value
    && e.displayStart == c.start && e.displayEnd == c.end && e.name == c.name
  }

  /**
   * The point of the table: entry `j`, shifted back by the offset and start
   * it was built with, spans exactly the value of callout `j` in the
   * collapsed display spec, and its display span is the callout's.
   */
  lemma {:induction false} TableLocates(s: string, cs: seq<Callout>, k: nat, offset: int, j: nat)
    requires Ordered(s, cs, k) && j < |cs|
    ensures |Table(cs, offset)| == |cs|
    ensures Locates(Table(cs, offset)[j], Collapse(s, cs, k), offset + k, cs[j])
    decreases j
  {
    TableLength(cs, offset);
    if j == 0 {
      TableLocatesFirst(s, cs, k, offset);
    } else {
      OrderedTail(s, cs, k);
      TableLocates(s, cs[1..], cs[0].end, OffsetAfter(cs[0], offset), j - 1);
      TableLocatesStep(s, cs, k, offset, j);
    }
  }

  lemma TableLocatesFirst(s: string, cs: seq<Callout>, k: nat, offset: int)
    requires Ordered(s, cs, k) && cs != []
    ensures |Table(cs, offset)| == |cs|
    ensures Locates(Table(cs, offset)[0], Collapse(s, cs, k), offset + k, cs[0])
  {
    TableLength(cs, offset);
    var pre := s[k..cs[0].start] + cs[0].value;
    var rest := Collapse(s, cs[1..], cs[0].end);
    assert Collapse(s, cs, k) == pre + rest;
    assert (pre + rest)[cs[0].start - k..cs[0].start - k + |cs[0].value|] == pre[cs[0].start - k..];
  }

  /** Entry `j > 0` lies in the collapsed text as entry `j - 1` of the later callouts lies in theirs, shifted by what precedes. */
  lemma TableLocatesStep(s: string, cs: seq<Callout>, k: nat, offset: int, j: nat)
    requires Ordered(s, cs, k) && 0 < j < |cs|
    requires Ordered(s, cs[1..], cs[0].end) && |Table(cs[1..], OffsetAfter(cs[0], offset))| == |cs| - 1
    requires Locates(Table(cs[1..], OffsetAfter(cs[0], offset))[j - 1], Collapse(s, cs[1..], cs[0].end),
      OffsetAfter(cs[0], offset) + cs[0].end, cs[1..][j - 1])
    ensures |Table(cs, offset)| == |cs|
    ensures Locates(Table(cs, offset)[j], Collapse(s, cs, k), offset + k, cs[j])
  {
    TableLength(cs, offset);
    TableAtLater(cs, offset, j);
    CollapseCons(s, cs, k);
    var pre := s[k..cs[0].start] + cs[0].value;
    assert OffsetAfter(cs[0], offset) + cs[0].end - (offset + k) == |pre|;
    TableLocatesLater(Table(cs, offset)[j], pre, Collapse(s, cs[1..], cs[0].end), Collapse(s, cs, k),
      offset + k, OffsetAfter(cs[0], offset) + cs[0].end, cs[j]);
  }

  lemma CollapseCons(s: string, cs: seq<Callout>, k: nat)
    requires Ordered(s, cs, k) && cs != []
    ensures Ordered(s, cs[1..], cs[0].end)
    ensures Collapse(s, cs, k) == s[k..cs[0].start] + cs[0].value + Collapse(s, cs[1..], cs[0].end)
  {
    OrderedTail(s, cs, k);
  }

  /** Entry `j > 0` of a table is entry `j - 1` of the table of the later callouts. */
  lemma TableAtLater(cs: seq<Callout>, offset: int, j: nat)
    requires 0 < j < |cs|
    ensures |Table(cs[1..], OffsetAfter(cs[0], offset))| == |cs| - 1
    ensures Table(cs, offset)[j] == Table(cs[1..], OffsetAfter(cs[0], offset))[j - 1]
  {
    TableLength(cs[1..], OffsetAfter(cs[0], offset));
  }

  lemma TableLocatesLater(e: Entry, pre: string, rest: string, collapsed: string, shift: int, shift': int, c: Callout)
    requires Locates(e, rest, shift', c) && shift' - shift == |pre| && collapsed == pre + rest
    ensures Locates(e, collapsed, shift, c)
  {
    SliceShift(pre, rest, e.matchStart - shift', e.matchEnd - shift');
  }

  /** The loop of the source over the callouts, in order, accumulating the offset. */
  method MatchesToDisplay(display: string) returns (entries: seq<Entry>)
    ensures entries == Table(CalloutsFrom(display, 0), 0)
  {
    var cs := CalloutsFrom(display, 0);
    entries := [];
    var offset := 0;
    var i := 0;
    while i < |cs|
      invariant 0 <= i <= |cs|
      invariant entries + Table(cs[i..], offset) == Table(cs, 0)
    {
      TableFrom(cs, i, offset);
      ConcatAssoc(entries, [EntryAt(cs[i], offset)], Table(cs[i + 1..], OffsetAfter(cs[i], offset)));
      entries := entries + [EntryAt(cs[i], offset)];
      offset := OffsetAfter(cs[i], offset);
      i := i + 1;
    }
    assert cs[i..] == [];
    assert entries + [] == entries;
  }

  // ---------------------------------------------------------------------
  // On a spec whose names and values hold no callout marks, the scanner
  // finds exactly the fields and collapsing gives `spec_with_matches`

  /** The field names, in order. */
  function FieldNames(ps: seq<Piece>): seq<string>
    decreases |ps|
  {
    if ps == [] then [] else (if ps[0].Field? then [ps[0].name] else []) + FieldNames(ps[1..])
  }

  /** What the group dictionary holds for `n`, the empty string if nothing. */
  function GroupValue(n: string, groups: map<string, string>): string
  {
    if n in groups then groups[n] else ""
  }

  /** How wide literal text is once formatted: a doubled brace counts once. */
  function LiteralWidth(t: string): nat
    decreases |t|
  {
    if t == [] then 0
    else if |t| > 1 && (t[0] == '{' || t[0] == '}') && t[1] == t[0] then 1 + LiteralWidth(t[2..])
    else 1 + LiteralWidth(t[1..])
  }

  lemma {:induction false} FormatLiteralWidth(t: string)
    requires FormatLiteral(t).Ok?
    ensures |FormatLiteral(t).value| == LiteralWidth(t)
    decreases |t|
  {
    if t != [] {
      if t[0] == '{' || t[0] == '}' {
        FormatLiteralWidth(t[2..]);
      } else {
        FormatLiteralWidth(t[1..]);
      }
    }
  }

  /** The callouts `display_spec` holds when the pieces start at index `k`. */
  function Expected(ps: seq<Piece>, groups: map<string, string>, k: nat): seq<Callout>
    decreases |ps|
  {
    if ps == [] then []
    else
      match ps[0]
      case Lit(t) => Expected(ps[1..], groups, k + LiteralWidth(t))
      case Field(n) =>
        var v := GroupValue(n, groups);
        [Callout(k, k + |n| + |v| + 3, n, v)] + Expected(ps[1..], groups, k + |n| + |v| + 3)
  }

  /** No field name holds the arrow, no value a closing brace and no literal text an opening one. */
  predicate Unmarked(ps: seq<Piece>, groups: map<string, string>)
  {
    (forall i :: 0 <= i < |ps| && ps[i].Field? ==> ARROW !in ps[i].name)
    && (forall i :: 0 <= i < |ps| && ps[i].Lit? ==> '{' !in ps[i].text)
    && (forall n :: n in groups ==> '}' !in groups[n])
  }

  lemma UnmarkedTail(ps: seq<Piece>, groups: map<string, string>)
    requires Unmarked(ps, groups) && ps != []
    ensures Unmarked(ps[1..], groups)
  {
    assert forall i :: 0 <= i < |ps| - 1 ==> ps[1..][i] == ps[i + 1];
  }

  /** The first `c` after `k` is at `e` when nothing before it is `c`. */
  lemma {:induction false} CharFromAt(s: string, k: nat, e: nat, c: char)
    requires k <= e < |s| && s[e] == c
    requires forall j :: k <= j < e ==> s[j] != c
    ensures CharFrom(s, k, c) == Some(e)
    decreases e - k
  {
    if k < e {
      CharFromAt(s, k + 1, e, c);
    }
  }

  /** The scanner passes over text that holds no opening brace. */
  lemma {:induction false} ScanSkips(s: string, k: nat, e: nat)
    requires k <= e <= |s| && '{' !in s[k..e]
    ensures CalloutsFrom(s, k) == CalloutsFrom(s, e)
    decreases e - k
  {
    if k < e {
      assert s[k] == s[k..e][0] && s[k + 1..e] == s[k..e][1..];
      ScanSkipsOne(s, k);
      ScanSkips(s, k + 1, e);
    }
  }

  lemma ScanSkipsOne(s: string, k: nat)
    requires k < |s| && s[k] != '{'
    ensures CalloutsFrom(s, k) == CalloutsFrom(s, k + 1)
  {
    assert CalloutAt(s, k).None?;
  }

  /** The scanner reads one rendered field back. */
  lemma ScanField(s: string, k: nat, n: string, v: string, t: string)
    requires t == "{" + n + [ARROW] + v + "}"
    requires k + |t| <= |s| && s[k..k + |t|] == t
    requires n != [] && ARROW !in n && '}' !in v
    ensures CalloutAt(s, k) == Some(Callout(k, k + |t|, n, v))
  {
    var p, q := k + 1 + |n|, k + 2 + |n| + |v|;
    assert q + 1 == k + |t|;
    FieldChars(s, k, n, v, t);
    CharFromAt(s, k + 1, p, ARROW);
    CharFromAt(s, p + 1, q, '}');
    assert s[k + 1..p] == n;
    assert s[p + 1..q] == v;
  }

  /** Where the marks, the name and the value of a rendered field sit. */
  lemma FieldChars(s: string, k: nat, n: string, v: string, t: string)
    requires t == "{" + n + [ARROW] + v + "}"
    requires k + |t| <= |s| && s[k..k + |t|] == t
    ensures s[k] == '{' && s[k + 1 + |n|] == ARROW && s[k + 2 + |n| + |v|] == '}'
    ensures forall i :: 0 <= i < |n| ==> s[k + 1 + i] == n[i]
    ensures forall i :: 0 <= i < |v| ==> s[k + 2 + |n| + i] == v[i]
  {
    assert forall j :: 0 <= j < |t| ==> s[k + j] == t[j];
    assert forall i :: 0 <= i < |n| ==> t[1 + i] == n[i];
    assert forall i :: 0 <= i < |v| ==> t[2 + |n| + i] == v[i];
  }

  /** A suffix of `s` that is `t + rest` splits at `k + |t|`. */
  lemma SuffixParts(s: string, k: nat, t: string, rest: string)
    requires k <= |s| && s[k..] == t + rest
    ensures s[k..k + |t|] == t && s[k + |t|..] == rest
    ensures forall j :: k <= j < k + |t| ==> s[j] == t[j - k]
  {
    assert forall j :: 0 <= j < |t| ==> s[k + j] == s[k..][j] == t[j];
    assert forall j :: 0 <= j < |rest| ==> s[k + |t| + j] == s[k..][|t| + j] == rest[j];
  }

  /** A rendered piece: a literal is its formatted text, a field `{name⇒value}` with the value it renders to plainly. */
  lemma PieceRendered(p: Piece, groups: map<string, string>, t: string)
    requires PieceText(p, groups, true) == Ok(t)
    ensures PieceText(p, groups, false).Ok?
    ensures p.Lit? ==> FormatLiteral(p.text) == Ok(t) && |t| == LiteralWidth(p.text) && PieceText(p, groups, false).value == t
    ensures p.Field? ==> (PlainField(p.name) && p.name in groups
      && t == "{" + p.name + [ARROW] + groups[p.name] + "}" && PieceText(p, groups, false).value == groups[p.name])
  {
    if p.Lit? {
      FormatLiteralWidth(p.text);
    }
  }

  /** Rendering `(p :: ps)`: the piece's text, then the rest's. */
  lemma RenderCons(ps: seq<Piece>, groups: map<string, string>, display: bool)
    requires ps != [] && Render(ps, groups, display).Ok?
    ensures PieceText(ps[0], groups, display).Ok? && Render(ps[1..], groups, display).Ok?
    ensures Render(ps, groups, display).value
      == PieceText(ps[0], groups, display).value + Render(ps[1..], groups, display).value
  {
  }

  /** The scanner finds the rendered fields, in order, with their names and values. */
  lemma {:induction false} DisplayScans(ps: seq<Piece>, groups: map<string, string>, s: string, k: nat)
    requires k <= |s| && Render(ps, groups, true) == Ok(s[k..]) && Unmarked(ps, groups)
    ensures CalloutsFrom(s, k) == Expected(ps, groups, k)
    decreases |ps|
  {
    if ps == [] {
      assert |s[k..]| == 0;
    } else {
      RenderCons(ps, groups, true);
      UnmarkedTail(ps, groups);
      var t := PieceText(ps[0], groups, true).value;
      SuffixParts(s, k, t, Render(ps[1..], groups, true).value);
      DisplayScans(ps[1..], groups, s, k + |t|);
      assert ps[0].Field? ==> ARROW !in ps[0].name;
      PieceRendered(ps[0], groups, t);
      if ps[0].Lit? {
        assert '{' !in ps[0].text;
        FormatLiteralNoOpen(ps[0].text);
      }
      ScanStep(ps[0], groups, s, k, t, Expected(ps[1..], groups, k + |t|));
      ExpectedCons(ps, groups, k, t);
    }
  }

  /** One piece of the scan: a literal is passed over, a field read back. */
  lemma ScanStep(p: Piece, groups: map<string, string>, s: string, k: nat, t: string, later: seq<Callout>)
    requires k + |t| <= |s| && s[k..k + |t|] == t
    requires p.Lit? ==> '{' !in t
    requires p.Field? ==> (p.name != [] && ARROW !in p.name && p.name in groups && '}' !in groups[p.name]
      && t == "{" + p.name + [ARROW] + groups[p.name] + "}")
    requires CalloutsFrom(s, k + |t|) == later
    ensures CalloutsFrom(s, k) == (if p.Field? then [Callout(k, k + |t|, p.name, groups[p.name])] else []) + later
  {
    if p.Lit? {
      ScanLit(s, k, t);
      assert [] + later == later;
    } else {
      ScanFieldStep(s, k, p.name, groups[p.name], t, later);
    }
  }

  lemma ScanLit(s: string, k: nat, t: string)
    requires k + |t| <= |s| && '{' !in t && s[k..k + |t|] == t
    ensures CalloutsFrom(s, k) == CalloutsFrom(s, k + |t|)
  {
    ScanSkips(s, k, k + |t|);
  }

  lemma ScanFieldStep(s: string, k: nat, n: string, v: string, t: string, later: seq<Callout>)
    requires t == "{" + n + [ARROW] + v + "}"
    requires k + |t| <= |s| && s[k..k + |t|] == t
    requires n != [] && ARROW !in n && '}' !in v
    requires CalloutsFrom(s, k + |t|) == later
    ensures CalloutsFrom(s, k) == [Callout(k, k + |t|, n, v)] + later
  {
    ScanField(s, k, n, v, t);
  }

  /** The callouts expected from `(p :: ps)`. */
  lemma ExpectedCons(ps: seq<Piece>, groups: map<string, string>, k: nat, t: string)
    requires ps != [] && PieceText(ps[0], groups, true) == Ok(t)
    ensures Expected(ps, groups, k)
      == (if ps[0].Field? then [Callout(k, k + |t|, ps[0].name, groups[ps[0].name])] else [])
         + Expected(ps[1..], groups, k + |t|)
  {
    PieceRendered(ps[0], groups, t);
  }

  /** Collapsing from `k` keeps the text up to `k'` when no callout starts before `k'`. */
  lemma CollapseFrom(s: string, cs: seq<Callout>, k: nat, k': nat)
    requires Ordered(s, cs, k) && k <= k' <= |s| && (cs != [] ==> k' <= cs[0].start)
    ensures Ordered(s, cs, k') && Collapse(s, cs, k) == s[k..k'] + Collapse(s, cs, k')
  {
    OrderedLater(s, cs, k, k');
    if cs == [] {
      assert s[k..] == s[k..k'] + s[k'..];
    } else {
      var c := cs[0];
      OrderedTail(s, cs, k);
      var rest := Collapse(s, cs[1..], c.end);
      var a, b := s[k..k'], s[k'..c.start];
      assert Collapse(s, cs, k) == s[k..c.start] + c.value + rest;
      assert Collapse(s, cs, k') == b + c.value + rest;
      assert s[k..c.start] == a + b;
      ConcatAssoc(a, b, c.value);
      ConcatAssoc(a, b + c.value, rest);
    }
  }

  lemma OrderedLater(s: string, cs: seq<Callout>, k: nat, k': nat)
    requires Ordered(s, cs, k) && k <= k' <= |s| && (cs != [] ==> k' <= cs[0].start)
    ensures Ordered(s, cs, k')
  {
  }

  /** Collapsing the callouts of the display spec gives `spec_with_matches`. */
  lemma {:induction false} DisplayCollapses(ps: seq<Piece>, groups: map<string, string>, s: string, k: nat)
    requires k <= |s| && Render(ps, groups, true) == Ok(s[k..]) && Unmarked(ps, groups)
    ensures Render(ps, groups, false).Ok?
    ensures Ordered(s, Expected(ps, groups, k), k)
    ensures Collapse(s, Expected(ps, groups, k), k) == Render(ps, groups, false).value
    decreases |ps|
  {
    DisplayScans(ps, groups, s, k);
    RenderFailsAlike(ps, groups);
    if ps == [] {
      assert |s[k..]| == 0;
    } else {
      RenderCons(ps, groups, true);
      UnmarkedTail(ps, groups);
      var t := PieceText(ps[0], groups, true).value;
      SuffixParts(s, k, t, Render(ps[1..], groups, true).value);
      DisplayCollapses(ps[1..], groups, s, k + |t|);
      DisplayCollapsesStep(ps, groups, s, k, t);
    }
  }

  /** Collapsing `(p :: ps)`: the piece's plain text, then the rest collapsed. */
  lemma DisplayCollapsesStep(ps: seq<Piece>, groups: map<string, string>, s: string, k: nat, t: string)
    requires ps != [] && PieceText(ps[0], groups, true) == Ok(t)
    requires k + |t| <= |s| && s[k..k + |t|] == t
    requires Render(ps, groups, false).Ok? && Render(ps[1..], groups, false).Ok?
    requires Ordered(s, Expected(ps, groups, k), k) && Ordered(s, Expected(ps[1..], groups, k + |t|), k + |t|)
    requires Collapse(s, Expected(ps[1..], groups, k + |t|), k + |t|) == Render(ps[1..], groups, false).value
    ensures Collapse(s, Expected(ps, groups, k), k) == Render(ps, groups, false).value
  {
    RenderCons(ps, groups, false);
    ExpectedCons(ps, groups, k, t);
    PieceRendered(ps[0], groups, t);
    CollapseStep(ps[0], groups, s, k, t, PieceText(ps[0], groups, false).value,
      Expected(ps[1..], groups, k + |t|), Expected(ps, groups, k));
  }

  /** One piece of the collapse: a literal is kept, a field becomes its value. */
  lemma CollapseStep(p: Piece, groups: map<string, string>, s: string, k: nat, t: string, u: string, later: seq<Callout>, cs: seq<Callout>)
    requires k + |t| <= |s| && s[k..k + |t|] == t
    requires p.Lit? ==> u == t
    requires p.Field? ==> (p.name in groups && u == groups[p.name] && |t| == |p.name| + |u| + 3)
    requires Ordered(s, cs, k) && Ordered(s, later, k + |t|)
    requires cs == (if p.Field? then [Callout(k, k + |t|, p.name, groups[p.name])] else []) + later
    ensures Collapse(s, cs, k) == u + Collapse(s, later, k + |t|)
  {
    if p.Lit? {
      assert cs == [] + later == later;
      CollapseLit(s, k, t, later);
    } else {
      CollapseField(s, k, cs[0], later);
    }
  }

  lemma CollapseLit(s: string, k: nat, t: string, later: seq<Callout>)
    requires k + |t| <= |s| && s[k..k + |t|] == t
    requires Ordered(s, later, k + |t|)
    ensures Ordered(s, later, k) && Collapse(s, later, k) == t + Collapse(s, later, k + |t|)
  {
    CollapseFrom(s, later, k, k + |t|);
  }

  lemma CollapseField(s: string, k: nat, c: Callout, later: seq<Callout>)
    requires Ordered(s, [c] + later, k) && c.start == k
    ensures Ordered(s, later, c.end)
    ensures Collapse(s, [c] + later, k) == c.value + Collapse(s, later, c.end)
  {
    OrderedTail(s, [c] + later, k);
    assert ([c] + later)[1..] == later;
    assert s[k..k] == [];
  }

  /** Callouts that name, in order, the given fields, each with its group's value. */
  predicate NamedAlike(cs: seq<Callout>, names: seq<string>, groups: map<string, string>)
  {
    |cs| == |names| && forall j :: 0 <= j < |names| ==> cs[j].name == names[j] && cs[j].value == GroupValue(names[j], groups)
  }

  lemma NamedAlikeCons(head: seq<Callout>, hn: seq<string>, rest: seq<Callout>, rn: seq<string>, groups: map<string, string>)
    requires NamedAlike(head, hn, groups) && NamedAlike(rest, rn, groups)
    ensures NamedAlike(head + rest, hn + rn, groups)
  {
  }

  /** The callouts the scanner expects are the fields, in order, each with its group's value. */
  lemma {:induction false} ExpectedFields(ps: seq<Piece>, groups: map<string, string>, k: nat)
    ensures NamedAlike(Expected(ps, groups, k), FieldNames(ps), groups)
    decreases |ps|
  {
    if ps != [] {
      var p := ps[0];
      var k' := if p.Lit? then k + LiteralWidth(p.text) else k + |p.name| + |GroupValue(p.name, groups)| + 3;
      ExpectedFields(ps[1..], groups, k');
      var head := if p.Field? then [Callout(k, k', p.name, GroupValue(p.name, groups))] else [];
      var hn := if p.Field? then [p.name] else [];
      assert Expected(ps, groups, k) == head + Expected(ps[1..], groups, k');
      assert FieldNames(ps) == hn + FieldNames(ps[1..]);
      NamedAlikeCons(head, hn, Expected(ps[1..], groups, k'), FieldNames(ps[1..]), groups);
    }
  }

  /**
   * The design of the diagnostic: when the display spec renders and no name
   * or value holds a callout mark, entry `j` of `matches_to_display` spans,
   * in `spec_with_matches`, exactly the value the match gave field `j`, and
   * records that field's name.
   */
  lemma EntriesSpanValues(ps: seq<Piece>, groups: map<string, string>, j: nat)
    requires Render(ps, groups, true).Ok? && Unmarked(ps, groups) && j < |FieldNames(ps)|
    ensures Render(ps, groups, false).Ok? && FieldNames(ps)[j] in groups
    ensures var d := Render(ps, groups, true).value;
      var entries := Table(CalloutsFrom(d, 0), 0);
      var m := Render(ps, groups, false).value;
      && j < |entries|
      && 0 <= entries[j].matchStart <= entries[j].matchEnd <= |m|
      && m[entries[j].matchStart..entries[j].matchEnd] == groups[FieldNames(ps)[j]]
      && entries[j].name == FieldNames(ps)[j]
  {
    var d := Render(ps, groups, true).value;
    var cs := CalloutsFrom(d, 0);
    ScanCollapse(ps, groups);
    var m := Render(ps, groups, false).value;
    ExpectedFields(ps, groups, 0);
    var name := FieldNames(ps)[j];
    assert cs[j].name == name && cs[j].value == GroupValue(name, groups);
    FieldsInGroups(ps, groups, j);
    assert cs[j].value == groups[name];
    TableLocates(d, cs, 0, 0, j);
    assert Locates(Table(cs, 0)[j], m, 0, cs[j]);
  }

  /** From its start, the display spec scans to the expected callouts, which collapse to `spec_with_matches`. */
  lemma ScanCollapse(ps: seq<Piece>, groups: map<string, string>)
    requires Render(ps, groups, true).Ok? && Unmarked(ps, groups)
    ensures Render(ps, groups, false).Ok?
    ensures var d := Render(ps, groups, true).value;
      && CalloutsFrom(d, 0) == Expected(ps, groups, 0)
      && Collapse(d, CalloutsFrom(d, 0), 0) == Render(ps, groups, false).value
  {
    var d := Render(ps, groups, true).value;
    assert d[0..] == d;
    DisplayScans(ps, groups, d, 0);
    DisplayCollapses(ps, groups, d, 0);
  }

  /** Every field of a rendered spec is a key of the group dictionary. */
  lemma {:induction false} FieldsInGroups(ps: seq<Piece>, groups: map<string, string>, j: nat)
    requires Render(ps, groups, true).Ok? && j < |FieldNames(ps)|
    ensures FieldNames(ps)[j] in groups
    decreases |ps|
  {
    RenderCons(ps, groups, true);
    if ps[0].Field? && j == 0 {
    } else {
      FieldsInGroups(ps[1..], groups, if ps[0].Field? then j - 1 else j);
    }
  }

  // ---------------------------------------------------------------------
  // The walk over the opcodes of `SequenceMatcher(None, spec_with_matches, cmd)`

  /** The tag of an opcode. */
  datatype Tag = Equal | Replace | Delete | Insert

  /** An opcode: `spec_with_matches[specStart:specEnd]` against `cmd[cmdStart:cmdEnd]`. */
  datatype Opcode = Opcode(tag: Tag, specStart: nat, specEnd: nat, cmdStart: nat, cmdEnd: nat)

  /** The three lines being aligned: the spec, the indicators, the command. */
  datatype Lines = Lines(spec: string, ind: string, cmd: string)

  const NoLines := Lines([], [], [])

  function Append(a: Lines, b: Lines): Lines
  {
    Lines(a.spec + b.spec, a.ind + b.ind, a.cmd + b.cmd)
  }

  /** All three lines are as wide. */
  predicate Even(l: Lines)
  {
    |l.spec| == |l.ind| == |l.cmd|
  }

  /** Where Python's slice puts index `a` of a sequence of length `n`: counted from the end when negative, clamped to the sequence. */
  function SliceIndex(a: int, n: nat): (i: nat)
    ensures i <= n
  {
    if a < 0 then (if a + n < 0 then 0 else a + n) else if a > n then n else a
  }

  /** Python's `s[a:b]`. */
  function Slice<T>(s: seq<T>, a: int, b: int): (r: seq<T>)
    ensures 0 <= a <= b <= |s| ==> r == s[a..b]
  {
    var i, j := SliceIndex(a, |s|), SliceIndex(b, |s|);
    if i >= j then [] else s[i..j]
  }

  /** An entry as the table makes them: the display span is the value and at least four marks longer. */
  predicate Shaped(e: Entry)
  {
    0 <= e.matchStart <= e.matchEnd && e.displayStart + (e.matchEnd - e.matchStart) + 4 <= e.displayEnd
  }

  type ShapedEntry = e: Entry | Shaped(e) witness Entry(0, 0, 0, 4, "")

  /** Every callout of the table lies inside the display spec. */
  predicate Inside(entries: seq<ShapedEntry>, display: string)
  {
    forall i :: 0 <= i < |entries| ==> entries[i].displayEnd <= |display|
  }

  /** How many characters the callout of `e` adds to each line. */
  function Added(e: ShapedEntry): nat
  {
    e.displayEnd - e.displayStart - (e.matchEnd - e.matchStart)
  }

  /** `ind_with_arrows`: a bar at both ends, the warning sign in the middle when `warn`. */
  function Arrows(width: nat, warn: bool): (r: string)
    requires width >= 1
    ensures |r| == width
  {
    var plain := Repeat(' ', width)[0 := '\U{2502}'][width - 1 := '\U{2502}'];
    if warn then plain[width / 2 := '\U{26A0}'] else plain
  }

  /** `spec_line[:ms] + display_spec[ds:de] + spec_line[me:]`. */
  function SpliceSpec(line: string, ms: int, me: int, display: string, ds: nat, de: nat): (r: string)
    ensures 0 <= ms <= me <= |line| && ds <= de <= |display| ==> |r| == |line| + (de - ds) - (me - ms)
  {
    Slice(line, 0, ms) + Slice(display, ds, de) + Slice(line, me, |line|)
  }

  /** `ind_line[:ms] + ind_with_arrows + ind_line[me:]`. */
  function SpliceInd(line: string, ms: int, me: int, arrows: string): (r: string)
    ensures 0 <= ms <= me <= |line| ==> |r| == |line| + |arrows| - (me - ms)
  {
    Slice(line, 0, ms) + arrows + Slice(line, me, |line|)
  }

  /**
   * The command's text between `ms` and `me` framed by the callout: a corner
   * and dashes for half the added width (rounded up) less two, the text
   * between two ticks, dashes for the other half less two, a corner.
   * Dafny's `/` and `%` by 2 agree with Python's `//` and `%`.
   */
  function SpliceCmd(line: string, ms: int, me: int, added: int): (r: string)
    ensures 0 <= ms <= me <= |line| && added >= 4 ==> |r| == |line| + added
  {
    HalvesAdd(added);
    Slice(line, 0, ms) + ['\U{2514}'] + Repeat('\U{2500}', added / 2 + added % 2 - 2) + ['\U{2524}']
      + Slice(line, ms, me) + ['\U{251C}'] + Repeat('\U{2500}', added / 2 - 2) + ['\U{2518}']
      + Slice(line, me, |line|)
  }

  /** The dashes on both sides and the four marks take up the whole added width. */
  lemma HalvesAdd(added: int)
    ensures (added / 2 + added % 2 - 2) + (added / 2 - 2) + 4 == added
    ensures added >= 4 ==> added / 2 + added % 2 - 2 >= 0 && added / 2 - 2 >= 0
  {
  }

  /**
   * One callout spliced into the lines of an equal run: its display text
   * over the value in the spec line, the arrows under it (warning when the
   * field is numeric and the command's text there is no float), and the
   * command's text framed. `offset` is what the callouts spliced before it
   * in this run added.
   */
  function Expand(l: Lines, e: ShapedEntry, runStart: nat, offset: nat, display: string,
                  kinds: map<string, Kind>, toFloat: FloatParser): Lines
  {
    var ms, me := e.matchStart + offset - runStart, e.matchEnd + offset - runStart;
    Lines(
      SpliceSpec(l.spec, ms, me, display, e.displayStart, e.displayEnd),
      CalloutInd(l.ind, e, runStart, offset, NotANumber(l.cmd, e, runStart, offset, kinds, toFloat)),
      SpliceCmd(l.cmd, ms, me, Added(e)))
  }

  /** The indicator line with the callout's arrows spliced in, with the warning sign when `warn`. */
  function CalloutInd(ind: string, e: ShapedEntry, runStart: nat, offset: nat, warn: bool): string
  {
    SpliceInd(ind, e.matchStart + offset - runStart, e.matchEnd + offset - runStart, Arrows(e.displayEnd - e.displayStart, warn))
  }

  /** Whether the callout's field is a numeric token and the command's text under it does not parse as a float. */
  predicate NotANumber(cmd: string, e: ShapedEntry, runStart: nat, offset: nat, kinds: map<string, Kind>, toFloat: FloatParser)
  {
    e.name in kinds && kinds[e.name] == Numeric
    && toFloat(Slice(cmd, e.matchStart + offset - runStart, e.matchEnd + offset - runStart)).None?
  }

  /** A splicing step: the lines, the entry, the offset so far. */
  type Splicer = (Lines, ShapedEntry, nat) -> Lines

  /** The splicing step of a run starting at `runStart`. */
  function ExpandIn(runStart: nat, display: string, kinds: map<string, Kind>, toFloat: FloatParser): Splicer
  {
    (l: Lines, e: ShapedEntry, offset: nat) => Expand(l, e, runStart, offset, display, kinds, toFloat)
  }

  /** Whether the head of the table lies inside the run `[runStart, runEnd)`. */
  predicate HeadInside(entries: seq<ShapedEntry>, runStart: nat, runEnd: nat)
  {
    entries != [] && entries[0].matchStart >= runStart && entries[0].matchEnd <= runEnd
  }

  /** How many entries the inner loop pops: the longest prefix of the table whose every entry, once at the head, lies inside the run. */
  function Popped(entries: seq<ShapedEntry>, runStart: nat, runEnd: nat): (n: nat)
    ensures n <= |entries|
    ensures forall i :: 0 <= i < n ==> runStart <= entries[i].matchStart && entries[i].matchEnd <= runEnd
    ensures n < |entries| ==> !HeadInside(entries[n..], runStart, runEnd)
    decreases |entries|
  {
    if HeadInside(entries, runStart, runEnd) then
      var n := 1 + Popped(entries[1..], runStart, runEnd);
      assert entries[1..][n - 1..] == entries[n..];
      n
    else 0
  }

  /** The popped entries spliced into the lines one after the other, the offset growing by what each adds. */
  function SpliceAll(l: Lines, es: seq<ShapedEntry>, offset: nat, step: Splicer): Lines
    decreases |es|
  {
    if es == [] then l
    else SpliceAll(step(l, es[0], offset), es[1..], offset + Added(es[0]), step)
  }

  /** The lines one opcode contributes, and the table left for the next. */
  function RunLines(op: Opcode, specWithMatches: string, cmd: string, entries: seq<ShapedEntry>, display: string,
                    kinds: map<string, Kind>, toFloat: FloatParser): (r: (Lines, seq<ShapedEntry>))
    ensures |r.1| <= |entries| && r.1 == entries[|entries| - |r.1|..]
  {
    if op.tag == Equal then
      var n := Popped(entries, op.specStart, op.specEnd);
      (SpliceAll(PlainRun(op, specWithMatches, cmd), entries[..n], 0, ExpandIn(op.specStart, display, kinds, toFloat)),
       entries[n..])
    else
      (PlainRun(op, specWithMatches, cmd), entries)
  }

  /** The whole walk: the runs' lines joined, the table threaded from run to run. */
  function Walk(ops: seq<Opcode>, specWithMatches: string, cmd: string, entries: seq<ShapedEntry>, display: string,
                kinds: map<string, Kind>, toFloat: FloatParser): Lines
    decreases |ops|
  {
    if ops == [] then NoLines
    else
      var r := RunLines(ops[0], specWithMatches, cmd, entries, display, kinds, toFloat);
      Append(r.0, Walk(ops[1..], specWithMatches, cmd, r.1, display, kinds, toFloat))
  }

  // ---------------------------------------------------------------------
  // The three lines stay aligned

  /** What `SequenceMatcher.get_opcodes` guarantees of an opcode: both ranges lie in their strings and an equal run is as long on both sides. */
  predicate ValidOpcode(op: Opcode, specLen: nat, cmdLen: nat)
  {
    op.specStart <= op.specEnd <= specLen && op.cmdStart <= op.cmdEnd <= cmdLen
    && (op.tag == Equal ==> op.specEnd - op.specStart == op.cmdEnd - op.cmdStart)
  }

  /** The arrows are as wide as the callout, barred at both ends, warning in the middle exactly when asked to. */
  lemma ArrowsMarks(width: nat, warn: bool)
    requires width >= 4
    ensures |Arrows(width, warn)| == width
    ensures Arrows(width, warn)[0] == '\U{2502}' && Arrows(width, warn)[width - 1] == '\U{2502}'
    ensures (Arrows(width, warn)[width / 2] == '\U{26A0}') <==> warn
    ensures forall i :: 0 < i < width - 1 && i != width / 2 ==> Arrows(width, warn)[i] == ' '
    ensures Marked(Arrows(width, warn), 0, width, warn)
  {
  }

  /** Splicing one callout widens each of the three lines by what the callout adds. */
  lemma ExpandEven(l: Lines, e: ShapedEntry, runStart: nat, offset: nat, display: string,
                   kinds: map<string, Kind>, toFloat: FloatParser)
    requires Even(l) && runStart <= e.matchStart && e.matchEnd + offset - runStart <= |l.spec|
    requires e.displayEnd <= |display|
    ensures Even(Expand(l, e, runStart, offset, display, kinds, toFloat))
    ensures |Expand(l, e, runStart, offset, display, kinds, toFloat).spec| == |l.spec| + Added(e)
  {
  }

  /**
   * The indicator line gets the warning sign at the middle of the callout
   * exactly when the field is a numeric token and the command's text under
   * it does not parse as a float; the bars sit at both ends of the callout.
   */
  lemma ExpandWarns(l: Lines, e: ShapedEntry, runStart: nat, offset: nat, display: string,
                    kinds: map<string, Kind>, toFloat: FloatParser)
    requires runStart <= e.matchStart && e.matchEnd + offset - runStart <= |l.ind|
    ensures var ms, w := e.matchStart + offset - runStart, e.displayEnd - e.displayStart;
      var r := Expand(l, e, runStart, offset, display, kinds, toFloat);
      && ms + w <= |r.ind|
      && r.ind[ms] == '\U{2502}' && r.ind[ms + w - 1] == '\U{2502}'
      && ((r.ind[ms + w / 2] == '\U{26A0}') <==> NotANumber(l.cmd, e, runStart, offset, kinds, toFloat))
  {
    var warn := NotANumber(l.cmd, e, runStart, offset, kinds, toFloat);
    assert Expand(l, e, runStart, offset, display, kinds, toFloat).ind == CalloutInd(l.ind, e, runStart, offset, warn);
    IndicatorMarks(l.ind, e, runStart, offset, warn);
  }

  /** An indicator line carrying a callout of width `w` at `ms`: bars at both ends, the warning sign in the middle exactly when `warn`. */
  predicate Marked(r: string, ms: int, w: int, warn: bool)
  {
    0 <= ms && 1 <= w && ms + w <= |r|
    && r[ms] == '\U{2502}' && r[ms + w - 1] == '\U{2502}'
    && ((r[ms + w / 2] == '\U{26A0}') <==> warn)
  }

  /** The arrows spliced into the indicator line: bars at both ends, the warning sign in the middle exactly when asked for. */
  lemma IndicatorMarks(line: string, e: ShapedEntry, runStart: nat, offset: nat, warn: bool)
    requires runStart <= e.matchStart && e.matchEnd + offset - runStart <= |line|
    ensures Marked(CalloutInd(line, e, runStart, offset, warn), e.matchStart + offset - runStart, e.displayEnd - e.displayStart, warn)
  {
    ArrowsMarks(e.displayEnd - e.displayStart, warn);
    SpliceMarked(line, e.matchStart + offset - runStart, e.matchEnd + offset - runStart, Arrows(e.displayEnd - e.displayStart, warn), warn);
  }

  /** Splicing marked arrows into a line at `ms` leaves the line marked at `ms`. */
  lemma SpliceMarked(line: string, ms: int, me: int, arrows: string, warn: bool)
    requires 0 <= ms <= me <= |line| && Marked(arrows, 0, |arrows|, warn)
    ensures Marked(SpliceInd(line, ms, me, arrows), ms, |arrows|, warn)
  {
    var r := SpliceInd(line, ms, me, arrows);
    assert r == line[..ms] + arrows + line[me..];
    assert r[ms] == arrows[0] && r[ms + |arrows| - 1] == arrows[|arrows| - 1] && r[ms + |arrows| / 2] == arrows[|arrows| / 2];
  }

  /** A step that, for a callout inside the run, widens all three lines alike by what the callout adds. */
  ghost predicate Widens(step: Splicer, runStart: nat, display: string)
  {
    forall l: Lines, e: ShapedEntry, offset: nat ::
      (Even(l) && runStart <= e.matchStart && e.matchEnd + offset - runStart <= |l.spec| && e.displayEnd <= |display|)
      ==> (Even(step(l, e, offset)) && |step(l, e, offset).spec| == |l.spec| + Added(e))
  }

  lemma ExpandWidens(runStart: nat, display: string, kinds: map<string, Kind>, toFloat: FloatParser)
    ensures Widens(ExpandIn(runStart, display, kinds, toFloat), runStart, display)
  {
    var step := ExpandIn(runStart, display, kinds, toFloat);
    forall l: Lines, e: ShapedEntry, offset: nat |
      Even(l) && runStart <= e.matchStart && e.matchEnd + offset - runStart <= |l.spec| && e.displayEnd <= |display|
      ensures Even(step(l, e, offset)) && |step(l, e, offset).spec| == |l.spec| + Added(e)
    {
      ExpandEven(l, e, runStart, offset, display, kinds, toFloat);
    }
  }

  /** Splicing the popped callouts keeps the run's three lines equally wide. */
  lemma {:induction false} SpliceAllEven(l: Lines, es: seq<ShapedEntry>, runStart: nat, runEnd: nat, offset: nat,
                                         display: string, step: Splicer)
    requires Widens(step, runStart, display)
    requires Even(l) && runStart <= runEnd && |l.spec| == runEnd - runStart + offset
    requires forall i :: 0 <= i < |es| ==> runStart <= es[i].matchStart && es[i].matchEnd <= runEnd
    requires Inside(es, display)
    ensures Even(SpliceAll(l, es, offset, step))
    decreases |es|
  {
    if es != [] {
      assert Even(step(l, es[0], offset)) && |step(l, es[0], offset).spec| == |l.spec| + Added(es[0]);
      TailInside(es, runStart, runEnd, display);
      SpliceAllEven(step(l, es[0], offset), es[1..], runStart, runEnd, offset + Added(es[0]), display, step);
    }
  }

  lemma TailInside(es: seq<ShapedEntry>, runStart: nat, runEnd: nat, display: string)
    requires forall i :: 0 <= i < |es| ==> runStart <= es[i].matchStart && es[i].matchEnd <= runEnd
    requires Inside(es, display) && es != []
    ensures forall i :: 0 <= i < |es| - 1 ==> runStart <= es[1..][i].matchStart && es[1..][i].matchEnd <= runEnd
    ensures Inside(es[1..], display)
  {
    assert forall i :: 0 <= i < |es| - 1 ==> es[1..][i] == es[i + 1];
  }

  /** Every opcode yields three equally wide lines. */
  lemma RunEven(op: Opcode, specWithMatches: string, cmd: string, entries: seq<ShapedEntry>, display: string,
                kinds: map<string, Kind>, toFloat: FloatParser)
    requires ValidOpcode(op, |specWithMatches|, |cmd|) && Inside(entries, display)
    ensures Even(RunLines(op, specWithMatches, cmd, entries, display, kinds, toFloat).0)
  {
    PlainRunEven(op, specWithMatches, cmd);
    if op.tag == Equal {
      var n := Popped(entries, op.specStart, op.specEnd);
      RunLinesEqual(op, specWithMatches, cmd, entries, display, kinds, toFloat);
      assert Inside(entries[..n], display);
      ExpandWidens(op.specStart, display, kinds, toFloat);
      SpliceAllEven(PlainRun(op, specWithMatches, cmd), entries[..n], op.specStart, op.specEnd, 0, display,
        ExpandIn(op.specStart, display, kinds, toFloat));
    } else {
      RunLinesPlain(op, specWithMatches, cmd, entries, display, kinds, toFloat);
    }
  }

  /** The plain lines of a run are equally wide, an equal run as wide as its stretch of the spec. */
  lemma PlainRunEven(op: Opcode, specWithMatches: string, cmd: string)
    requires ValidOpcode(op, |specWithMatches|, |cmd|)
    ensures Even(PlainRun(op, specWithMatches, cmd))
    ensures op.tag == Equal ==> |PlainRun(op, specWithMatches, cmd).spec| == op.specEnd - op.specStart
  {
  }

  /**
   * The promise of the diagnostic: for opcodes `SequenceMatcher` could
   * produce, the aligned spec, the indicator line and the aligned command
   * are equally wide, so every indicator sits under the characters it marks.
   */
  lemma {:induction false} WalkEven(ops: seq<Opcode>, specWithMatches: string, cmd: string, entries: seq<ShapedEntry>,
                                    display: string, kinds: map<string, Kind>, toFloat: FloatParser)
    requires forall i :: 0 <= i < |ops| ==> ValidOpcode(ops[i], |specWithMatches|, |cmd|)
    requires Inside(entries, display)
    ensures Even(Walk(ops, specWithMatches, cmd, entries, display, kinds, toFloat))
    decreases |ops|
  {
    if ops != [] {
      RunEven(ops[0], specWithMatches, cmd, entries, display, kinds, toFloat);
      var r := RunLines(ops[0], specWithMatches, cmd, entries, display, kinds, toFloat);
      InsideSuffix(entries, r.1, display);
      WalkEven(ops[1..], specWithMatches, cmd, r.1, display, kinds, toFloat);
      AppendEven(r.0, Walk(ops[1..], specWithMatches, cmd, r.1, display, kinds, toFloat));
    }
  }

  lemma AppendEven(a: Lines, b: Lines)
    requires Even(a) && Even(b)
    ensures Even(Append(a, b))
  {
  }

  /** What is left of the table after a run still lies inside the display spec. */
  lemma InsideSuffix(entries: seq<ShapedEntry>, rest: seq<ShapedEntry>, display: string)
    requires Inside(entries, display)
    requires |rest| <= |entries| && rest == entries[|entries| - |rest|..]
    ensures Inside(rest, display)
  {
    assert forall i :: 0 <= i < |rest| ==> rest[i] == entries[|entries| - |rest| + i];
  }

  /** The table of a display spec holds shaped entries that lie inside it. */
  lemma {:induction false} TableShaped(s: string, cs: seq<Callout>, k: nat, offset: int)
    requires Ordered(s, cs, k) && offset + k >= 0
    ensures |Table(cs, offset)| == |cs|
    ensures forall i :: 0 <= i < |cs| ==> Shaped(Table(cs, offset)[i]) && Table(cs, offset)[i].displayEnd <= |s|
    decreases |cs|
  {
    TableLength(cs, offset);
    if cs != [] {
      OrderedTail(s, cs, k);
      var offset' := OffsetAfter(cs[0], offset);
      TableShaped(s, cs[1..], cs[0].end, offset');
      assert forall i :: 1 <= i < |cs| ==> Table(cs, offset)[i] == Table(cs[1..], offset')[i - 1];
    }
  }

  /** No lines are the unit of appending, on either side. */
  lemma AppendNoLines(a: Lines)
    ensures Append(NoLines, a) == a && Append(a, NoLines) == a
  {
    assert [] + a.spec == a.spec && [] + a.ind == a.ind && [] + a.cmd == a.cmd;
    assert a.spec + [] == a.spec && a.ind + [] == a.ind && a.cmd + [] == a.cmd;
  }

  lemma AppendAssoc(a: Lines, b: Lines, c: Lines)
    ensures Append(Append(a, b), c) == Append(a, Append(b, c))
  {
    ConcatAssoc(a.spec, b.spec, c.spec);
    ConcatAssoc(a.ind, b.ind, c.ind);
    ConcatAssoc(a.cmd, b.cmd, c.cmd);
  }

  // ---------------------------------------------------------------------
  // The loops of the source

  /** The while loop of an equal run: pop the entries lying inside it and splice each one in. */
  method SpliceRun(init: Lines, entries: seq<ShapedEntry>, runStart: nat, runEnd: nat, display: string,
                   kinds: map<string, Kind>, toFloat: FloatParser) returns (l: Lines, rest: seq<ShapedEntry>)
    ensures var n := Popped(entries, runStart, runEnd);
      l == SpliceAll(init, entries[..n], 0, ExpandIn(runStart, display, kinds, toFloat)) && rest == entries[n..]
  {
    var step := ExpandIn(runStart, display, kinds, toFloat);
    ghost var n := Popped(entries, runStart, runEnd);
    var specLine, indLine, cmdLine := init.spec, init.ind, init.cmd;
    rest := entries;
    var offset: nat := 0;
    ghost var i := 0;
    assert Lines(specLine, indLine, cmdLine) == init && entries[i..n] == entries[..n];
    while rest != [] && rest[0].matchStart >= runStart && rest[0].matchEnd <= runEnd
      invariant 0 <= i <= n
      invariant rest == entries[i..]
      invariant SpliceAll(Lines(specLine, indLine, cmdLine), entries[i..n], offset, step)
        == SpliceAll(init, entries[..n], 0, step)
      decreases |rest|
    {
      PoppedContinues(entries, runStart, runEnd, i);
      var e := rest[0];
      assert rest[1..] == entries[i + 1..];
      rest := rest[1..];
      var cur := Lines(specLine, indLine, cmdLine);
      var next := step(cur, e, offset);
      var offset' := offset + Added(e);
      SpliceAllStep(cur, entries, i, n, offset, step, e, next, offset');
      specLine, indLine, cmdLine := next.spec, next.ind, next.cmd;
      offset := offset';
      i := i + 1;
    }
    PoppedStops(entries, runStart, runEnd, i);
    assert entries[n..n] == [];
    l := Lines(specLine, indLine, cmdLine);
  }

  /** While the head lies inside the run, fewer entries than Popped counts have been popped. */
  lemma PoppedContinues(entries: seq<ShapedEntry>, runStart: nat, runEnd: nat, i: nat)
    requires i <= Popped(entries, runStart, runEnd) && HeadInside(entries[i..], runStart, runEnd)
    ensures i < Popped(entries, runStart, runEnd)
  {
  }

  /** Once the head lies outside the run, exactly Popped entries have been popped. */
  lemma PoppedStops(entries: seq<ShapedEntry>, runStart: nat, runEnd: nat, i: nat)
    requires i <= Popped(entries, runStart, runEnd) && !HeadInside(entries[i..], runStart, runEnd)
    ensures i == Popped(entries, runStart, runEnd)
  {
  }

  /** Splicing from the `i`-th popped callout on is splicing it and then the ones after it. */
  lemma SpliceAllStep(l: Lines, entries: seq<ShapedEntry>, i: nat, n: nat, offset: nat, step: Splicer,
                      e: ShapedEntry, next: Lines, offset': nat)
    requires i < n <= |entries| && e == entries[i] && next == step(l, e, offset) && offset' == offset + Added(e)
    ensures SpliceAll(l, entries[i..n], offset, step)
      == SpliceAll(Lines(next.spec, next.ind, next.cmd), entries[i + 1..n], offset', step)
  {
    assert entries[i..n][0] == entries[i] && entries[i..n][1..] == entries[i + 1..n];
  }

  /** The lines of a run other than an equal one. */
  function PlainRun(op: Opcode, specWithMatches: string, cmd: string): Lines
  {
    var specPart, cmdPart := Slice(specWithMatches, op.specStart, op.specEnd), Slice(cmd, op.cmdStart, op.cmdEnd);
    var specLen, cmdLen := op.specEnd - op.specStart, op.cmdEnd - op.cmdStart;
    match op.tag
    case Equal => Lines(specPart, Repeat(' ', specLen), cmdPart)
    case Replace =>
      var maxLen := if specLen < cmdLen then cmdLen else specLen;
      Lines(specPart + Repeat(' ', maxLen - specLen), Repeat('\U{2573}', maxLen), cmdPart + Repeat(' ', maxLen - cmdLen))
    case Delete => Lines(specPart, Repeat('\U{2227}', specLen), Repeat(' ', specLen))
    case Insert => Lines(Repeat(' ', cmdLen), Repeat('\U{2228}', cmdLen), cmdPart)
  }

  /** An equal run is its plain lines with the popped entries spliced in. */
  lemma RunLinesEqual(op: Opcode, specWithMatches: string, cmd: string, entries: seq<ShapedEntry>, display: string,
                      kinds: map<string, Kind>, toFloat: FloatParser)
    requires op.tag == Equal
    ensures var n := Popped(entries, op.specStart, op.specEnd);
      RunLines(op, specWithMatches, cmd, entries, display, kinds, toFloat)
      == (SpliceAll(PlainRun(op, specWithMatches, cmd), entries[..n], 0, ExpandIn(op.specStart, display, kinds, toFloat)), entries[n..])
  {
  }

  /** Any other run is its plain lines and pops nothing. */
  lemma RunLinesPlain(op: Opcode, specWithMatches: string, cmd: string, entries: seq<ShapedEntry>, display: string,
                      kinds: map<string, Kind>, toFloat: FloatParser)
    requires op.tag != Equal
    ensures RunLines(op, specWithMatches, cmd, entries, display, kinds, toFloat) == (PlainRun(op, specWithMatches, cmd), entries)
  {
  }

  /** One step of the walk: the run of `ops[k]`, then the walk over the rest with what it left of the table. */
  lemma WalkStep(ops: seq<Opcode>, k: nat, specWithMatches: string, cmd: string, entries: seq<ShapedEntry>, display: string,
                 kinds: map<string, Kind>, toFloat: FloatParser)
    requires k < |ops|
    ensures var r := RunLines(ops[k], specWithMatches, cmd, entries, display, kinds, toFloat);
      Walk(ops[k..], specWithMatches, cmd, entries, display, kinds, toFloat)
      == Append(r.0, Walk(ops[k + 1..], specWithMatches, cmd, r.1, display, kinds, toFloat))
  {
    assert ops[k..][0] == ops[k] && ops[k..][1..] == ops[k + 1..];
  }

  /** The loop over the opcodes, appending each run's three parts. */
  method AlignRuns(ops: seq<Opcode>, specWithMatches: string, cmd: string, entries: seq<ShapedEntry>, display: string,
                   kinds: map<string, Kind>, toFloat: FloatParser) returns (l: Lines)
    ensures l == Walk(ops, specWithMatches, cmd, entries, display, kinds, toFloat)
  {
    l := NoLines;
    var table := entries;
    assert ops[0..] == ops;
    AppendNoLines(Walk(ops, specWithMatches, cmd, entries, display, kinds, toFloat));
    for k := 0 to |ops|
      invariant Append(l, Walk(ops[k..], specWithMatches, cmd, table, display, kinds, toFloat))
        == Walk(ops, specWithMatches, cmd, entries, display, kinds, toFloat)
    {
      var op := ops[k];
      var run: Lines;
      ghost var before := table;
      if op.tag == Equal {
        run, table := SpliceRun(PlainRun(op, specWithMatches, cmd), table, op.specStart, op.specEnd, display, kinds, toFloat);
      } else {
        run := PlainRun(op, specWithMatches, cmd);
      }
      if op.tag == Equal {
        RunLinesEqual(op, specWithMatches, cmd, before, display, kinds, toFloat);
      } else {
        RunLinesPlain(op, specWithMatches, cmd, before, display, kinds, toFloat);
      }
      WalkStep(ops, k, specWithMatches, cmd, before, display, kinds, toFloat);
      AppendAssoc(l, run, Walk(ops[k + 1..], specWithMatches, cmd, table, display, kinds, toFloat));
      l := Append(l, run);
    }
    assert ops[|ops|..] == [];
    AppendNoLines(l);
  }

  // ---------------------------------------------------------------------
  // The whole diagnostic

  /** `matches_to_display` as the walk uses it: shaped entries lying inside the display spec. */
  function ShapedTable(display: string): (t: seq<ShapedEntry>)
    ensures t == Table(CalloutsFrom(display, 0), 0) && Inside(t, display)
  {
    TableShaped(display, CalloutsFrom(display, 0), 0, 0);
    Table(CalloutsFrom(display, 0), 0)
  }

  /** `SequenceMatcher(None, a, b).get_opcodes()`, which the model takes as a parameter. */
  type Matcher = (string, string) -> seq<Opcode>

  /** Every opcode the matcher gives lies inside its two strings, an equal run as long on both sides. */
  ghost predicate MatcherValid(opcodes: Matcher)
  {
    forall a: string, b: string, i :: 0 <= i < |opcodes(a, b)| ==> ValidOpcode(opcodes(a, b)[i], |a|, |b|)
  }

  /** The three aligned lines: both renderings of the spec, then the walk over the opcodes of `spec_with_matches` against the command. */
  function DiagnosticLines(ps: seq<Piece>, groups: map<string, string>, cmd: string, opcodes: Matcher,
                           kinds: map<string, Kind>, toFloat: FloatParser): Result<Lines, SpecError>
  {
    match Render(ps, groups, false)
    case Err(e) => Err(e)
    case Ok(m) =>
      match Render(ps, groups, true)
      case Err(e) => Err(e)
      case Ok(d) => Ok(Walk(opcodes(m, cmd), m, cmd, ShapedTable(d), d, kinds, toFloat))
  }

  /** The line put first when an exact match was tried. */
  function Header(tryExact: bool, parsable: bool): (r: seq<string>)
    ensures |r| == (if tryExact then 1 else 0)
  {
    if !tryExact then [] else if parsable then ["Able to parse"] else ["Failed to parse"]
  }

  /** `"\n".join(result)`: the header, then the aligned spec, the indicators and the aligned command. */
  function Report(header: seq<string>, l: Lines): string
  {
    Join(header + [l.spec, l.ind, l.cmd], "\n")
  }

  /** The text of `align_and_indicate_differences` once a fuzzy match gave `groups`. */
  function DiagnosticText(ps: seq<Piece>, groups: map<string, string>, cmd: string, header: seq<string>,
                          opcodes: Matcher, kinds: map<string, Kind>, toFloat: FloatParser): Result<string, SpecError>
  {
    match DiagnosticLines(ps, groups, cmd, opcodes, kinds, toFloat)
    case Err(e) => Err(e)
    case Ok(l) => Ok(Report(header, l))
  }

  /** The diagnostic fails exactly when formatting the spec with the groups fails, and with that error. */
  lemma DiagnosticFails(ps: seq<Piece>, groups: map<string, string>, cmd: string, opcodes: Matcher,
                        kinds: map<string, Kind>, toFloat: FloatParser)
    ensures DiagnosticLines(ps, groups, cmd, opcodes, kinds, toFloat).Err? <==> Render(ps, groups, false).Err?
    ensures Render(ps, groups, false).Err? ==>
      DiagnosticLines(ps, groups, cmd, opcodes, kinds, toFloat).error == Render(ps, groups, false).error
  {
    RenderFailsAlike(ps, groups);
  }

  /** With a matcher that keeps to its promise, the three lines of the diagnostic are equally wide. */
  lemma DiagnosticEven(ps: seq<Piece>, groups: map<string, string>, cmd: string, opcodes: Matcher,
                       kinds: map<string, Kind>, toFloat: FloatParser)
    requires MatcherValid(opcodes)
    requires DiagnosticLines(ps, groups, cmd, opcodes, kinds, toFloat).Ok?
    ensures Even(DiagnosticLines(ps, groups, cmd, opcodes, kinds, toFloat).value)
  {
    var m, d := Render(ps, groups, false).value, Render(ps, groups, true).value;
    WalkEven(opcodes(m, cmd), m, cmd, ShapedTable(d), d, kinds, toFloat);
  }

  /** Lines free of line breaks come back, in order, from splitting the report at its line breaks. */
  lemma ReportLines(header: seq<string>, l: Lines)
    requires forall i :: 0 <= i < |header| ==> '\n' !in header[i]
    requires '\n' !in l.spec && '\n' !in l.ind && '\n' !in l.cmd
    ensures Split(Report(header, l), '\n') == header + [l.spec, l.ind, l.cmd]
  {
    SplitJoin(header + [l.spec, l.ind, l.cmd], '\n');
  }

  /** The diagnostic as the source computes it: format twice, collect the table, walk the opcodes, join the lines. */
  method Diagnose(ps: seq<Piece>, groups: map<string, string>, cmd: string, header: seq<string>,
                  opcodes: Matcher, kinds: map<string, Kind>, toFloat: FloatParser) returns (r: Result<string, SpecError>)
    ensures r == DiagnosticText(ps, groups, cmd, header, opcodes, kinds, toFloat)
  {
    var specWithMatches := Render(ps, groups, false);
    if specWithMatches.Err? {
      return Err(specWithMatches.error);
    }
    var display := Render(ps, groups, true);
    if display.Err? {
      return Err(display.error);
    }
    var entries := MatchesToDisplay(display.value);
    var table: seq<ShapedEntry> := ShapedTable(display.value);
    assert table == entries;
    var l := AlignRuns(opcodes(specWithMatches.value, cmd), specWithMatches.value, cmd, table, display.value, kinds, toFloat);
    return Ok(Report(header, l));
  }
}
