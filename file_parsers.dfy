/**
 * The file parsers of `job_parse/file_parsers.py`: each turns the path bound
 * to a file placeholder into one feature value. The filesystem and the `awk`
 * subprocess are parameters (`Io`); what is modelled is the newline-counting
 * loop, the return-type normalisation and the shaping of awk's output.
 */
module FileParsers {
  import opened Wrappers
  import opened Text
  import opened Values

  /** The return type a parser must carry for its values to be numeric features. */
  const NUMERICAL := "NUMERICAL"

  /** `buf_size` of the line counter: one MiB per raw read. */
  const BUF_SIZE := 1024 * 1024

  /** Which `parse_file` a parser runs. `Base` is the abstract `FileParser`. */
  datatype Impl =
    | Base
    | FileSize
    | FileLines
    | AwkCommand(script: string)
    | AwkFile(scriptFile: string)

  /** A `FileParser` dataclass instance: its name, return type and behaviour. */
  datatype FileParser = FileParser(name: string, returnType: string, impl: Impl)

  /** What the parsers may observe of the outside world. */
  datatype Io = Io(
    /** `path.stat().st_size`, or the OSError's message. */
    stat: string -> Result<int, string>,
    /** The successive results of `infile.raw.read(BUF_SIZE)` on the opened file. */
    rawReads: string -> Result<seq<seq<byte>>, string>,
    /** The stdout of `subprocess.run(argv, check=True, text=True)`, or the error. */
    run: seq<string> -> Result<string, string>,
    toFloat: FloatParser)

  predicate IsNumeric(p: FileParser)
  {
    p.returnType == NUMERICAL
  }

  function FileSizeParser(): FileParser
  {
    FileParser("file_size", NUMERICAL, FileSize)
  }

  function FileLinesParser(): FileParser
  {
    FileParser("file_lines", NUMERICAL, FileLines)
  }

  /** `AwkCommandParser(name, return_type, script)`: the return type is upper-cased. */
  function AwkCommandParser(name: string, returnType: string, script: string): (p: FileParser)
    ensures p.name == name
    ensures IsNumeric(p) <==> Upper(returnType) == NUMERICAL
  {
    FileParser(name, Upper(returnType), AwkCommand(script))
  }

  /** `AwkFileParser(name, return_type, script_file)`: the return type is upper-cased. */
  function AwkFileParser(name: string, returnType: string, scriptFile: string): (p: FileParser)
    ensures p.name == name
    ensures IsNumeric(p) <==> Upper(returnType) == NUMERICAL
  {
    FileParser(name, Upper(returnType), AwkFile(scriptFile))
  }

  // ---------------------------------------------------------------------
  // FileLinesParser.parse_file: one plus the newlines over all raw reads

  /** The concatenation of the chunks. */
  function Flatten<T>(chunks: seq<seq<T>>): seq<T>
  {
    if chunks == [] then [] else chunks[0] + Flatten(chunks[1..])
  }

  lemma {:induction false} FlattenSnoc<T>(chunks: seq<seq<T>>, c: seq<T>)
    ensures Flatten(chunks + [c]) == Flatten(chunks) + c
  {
    if chunks == [] {
      assert [c][1..] == [];
    } else {
      assert (chunks + [c])[1..] == chunks[1..] + [c];
      FlattenSnoc(chunks[1..], c);
    }
  }

  /** The reads the `while buf := read_f(buf_size)` loop consumes: those before the first empty one. */
  function UntilEmpty<T>(chunks: seq<seq<T>>): (r: seq<seq<T>>)
    ensures |r| <= |chunks| && r == chunks[..|r|]
    ensures forall j :: 0 <= j < |r| ==> r[j] != []
    ensures |r| < |chunks| ==> chunks[|r|] == []
  {
    if chunks == [] || chunks[0] == [] then [] else [chunks[0]] + UntilEmpty(chunks[1..])
  }

  /** `FileLinesParser.parse_file` once the file is open: `chunks` are `read_f(buf_size)`'s results. */
  method CountLines(chunks: seq<seq<byte>>) returns (lines: int)
    ensures lines == 1 + Count(Flatten(UntilEmpty(chunks)), NEWLINE)
  {
    lines := 1;
    var k := 0;
    while k < |chunks| && chunks[k] != []
      invariant 0 <= k <= |chunks|
      invariant forall j :: 0 <= j < k ==> chunks[j] != []
      invariant lines == 1 + Count(Flatten(chunks[..k]), NEWLINE)
    {
      lines := lines + Count(chunks[k], NEWLINE);
      CountNextChunk(chunks, k);
      k := k + 1;
    }
    UntilEmptyAt(chunks, k);
  }

  /** Taking one more chunk adds its newlines to the count. */
  lemma CountNextChunk(chunks: seq<seq<byte>>, k: nat)
    requires k < |chunks|
    ensures Count(Flatten(chunks[..k + 1]), NEWLINE) == Count(Flatten(chunks[..k]), NEWLINE) + Count(chunks[k], NEWLINE)
  {
    FlattenSnoc(chunks[..k], chunks[k]);
    CountAppend(Flatten(chunks[..k]), chunks[k], NEWLINE);
    assert chunks[..k + 1] == chunks[..k] + [chunks[k]];
  }

  /** The chunks before the first empty one are what the reading loop consumed. */
  lemma {:induction false} UntilEmptyAt<T>(chunks: seq<seq<T>>, k: nat)
    requires k <= |chunks| && (k < |chunks| ==> chunks[k] == [])
    requires forall j :: 0 <= j < k ==> chunks[j] != []
    ensures UntilEmpty(chunks) == chunks[..k]
  {
    if k > 0 {
      assert chunks[0] != [];
      UntilEmptyAt(chunks[1..], k - 1);
      assert chunks[..k] == [chunks[0]] + chunks[1..][..k - 1];
    }
  }

  /** The reads of a file whose raw reads return `size`-byte chunks, ended by the empty read. */
  function FixedReads(content: seq<byte>, size: nat): (r: seq<seq<byte>>)
    requires size > 0
    decreases |content|
  {
    if content == [] then [[]]
    else if |content| <= size then [content, []]
    else [content[..size]] + FixedReads(content[size..], size)
  }

  lemma {:induction false} FixedReadsCover(content: seq<byte>, size: nat)
    requires size > 0
    ensures Flatten(UntilEmpty(FixedReads(content, size))) == content
    decreases |content|
  {
    if content == [] {
    } else if |content| <= size {
      var r := [content, []];
      assert UntilEmpty(r[1..]) == [];
      assert UntilEmpty(r) == [content];
      assert Flatten([content]) == content + Flatten([content][1..]);
    } else {
      var rest := FixedReads(content[size..], size);
      FixedReadsCover(content[size..], size);
      assert FixedReads(content, size) == [content[..size]] + rest;
      assert ([content[..size]] + rest)[1..] == rest;
      assert UntilEmpty(FixedReads(content, size)) == [content[..size]] + UntilEmpty(rest);
      assert ([content[..size]] + UntilEmpty(rest))[1..] == UntilEmpty(rest);
      assert content == content[..size] + content[size..];
    }
  }

  /**
   * The line count depends only on the content: whatever fixed chunk size the
   * reads use, it is one more than the number of newline bytes.
   */
  lemma LineCountIndependentOfChunks(content: seq<byte>, size: nat)
    requires size > 0
    ensures 1 + Count(Flatten(UntilEmpty(FixedReads(content, size))), NEWLINE) == 1 + Count(content, NEWLINE)
  {
    FixedReadsCover(content, size);
  }

  // ---------------------------------------------------------------------
  // Awk output shaping

  /** `[float(token) for token in tokens]`: the first token float rejects raises. */
  function FloatsOf(tokens: seq<string>, toFloat: FloatParser): (r: Result<seq<Value>, string>)
    ensures r.Ok? <==> forall i :: 0 <= i < |tokens| ==> toFloat(tokens[i]).Some?
    ensures r.Ok? ==> (|r.value| == |tokens|
      && forall i :: 0 <= i < |tokens| ==> r.value[i] == Real(toFloat(tokens[i]).value))
    ensures r.Err? ==> exists i :: (0 <= i < |tokens| && toFloat(tokens[i]).None?
      && r.error == tokens[i]
      && forall j :: 0 <= j < i ==> toFloat(tokens[j]).Some?)
  {
    if tokens == [] then Ok([])
    else match toFloat(tokens[0])
      case None => Err(tokens[0])
      case Some(x) =>
        match FloatsOf(tokens[1..], toFloat)
        case Err(e) =>
          assert forall j :: 1 <= j < |tokens| ==> tokens[1..][j - 1] == tokens[j];
          Err(e)
        case Ok(xs) => Ok([Real(x)] + xs)
  }

  /**
   * What an awk parser returns for `stdout`: numeric parsers give one float per
   * whitespace-separated token, in order; the others give the stripped text.
   */
  function ShapeAwkOutput(p: FileParser, stdout: string, toFloat: FloatParser): (r: Result<Value, string>)
    ensures !IsNumeric(p) ==> r == Ok(Str(Strip(stdout)))
    ensures IsNumeric(p) ==> (r.Ok? <==> forall i :: 0 <= i < |SplitWhitespace(stdout)| ==> toFloat(SplitWhitespace(stdout)[i]).Some?)
    ensures IsNumeric(p) && r.Ok? ==> var ws := SplitWhitespace(stdout);
      && r.value.List? && |r.value.items| == |ws|
      && forall i :: 0 <= i < |ws| ==> r.value.items[i] == Real(toFloat(ws[i]).value)
    ensures IsNumeric(p) && r.Err? ==> var ws := SplitWhitespace(stdout);
      exists i :: (0 <= i < |ws| && toFloat(ws[i]).None? && r.error == "could not convert string to float: " + Repr(ws[i])
        && forall j :: 0 <= j < i ==> toFloat(ws[j]).Some?)
  {
    if IsNumeric(p) then
      match FloatsOf(SplitWhitespace(stdout), toFloat)
      case Ok(xs) => Ok(List(xs))
      case Err(tok) => Err("could not convert string to float: " + Repr(tok))
    else Ok(Str(Strip(stdout)))
  }

  /** The argument vector of the awk subprocess, or None for a parser that runs none. */
  function AwkArgv(p: FileParser, path: string): Option<seq<string>>
  {
    match p.impl
    case AwkCommand(script) => Some(["awk", script, path])
    case AwkFile(file) => Some(["awk", "-f", file, path])
    case _ => None
  }

  /**
   * `parser.parse_file(Path(path))`, or with `gzip_file=True`, which none of the
   * shown parsers accepts (TypeError).
   */
  function ParseFileSpec(p: FileParser, path: string, gzip: bool, io: Io): Result<Value, string>
  {
    if gzip then Err("parse_file() got an unexpected keyword argument 'gzip_file'")
    else match p.impl
      case Base => Err("NotImplementedError")
      case FileSize =>
        (match io.stat(path)
         case Ok(n) => Ok(Int(n))
         case Err(e) => Err(e))
      case FileLines =>
        (match io.rawReads(path)
         case Ok(chunks) => Ok(Int(1 + Count(Flatten(UntilEmpty(chunks)), NEWLINE)))
         case Err(e) => Err(e))
      case _ =>
        match io.run(AwkArgv(p, path).value)
        case Ok(out) => ShapeAwkOutput(p, out, io.toFloat)
        case Err(e) => Err(e)
  }

  /** `parser.parse_file(path)`, running the line counter's read loop for `FileLinesParser`. */
  method ParseFile(p: FileParser, path: string, gzip: bool, io: Io) returns (r: Result<Value, string>)
    ensures r == ParseFileSpec(p, path, gzip, io)
    ensures !gzip && p.impl == FileLines && r.Ok? ==> r.value.Int? && r.value.i >= 1
  {
    if gzip {
      return Err("parse_file() got an unexpected keyword argument 'gzip_file'");
    }
    match p.impl {
      case FileLines =>
        match io.rawReads(path) {
          case Err(e) => r := Err(e);
          case Ok(chunks) =>
            var n := CountLines(chunks);
            r := Ok(Int(n));
        }
      case _ => r := ParseFileSpec(p, path, gzip, io);
    }
  }
}
