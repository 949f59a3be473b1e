# slurmise job-spec parsing, modelled in Dafny

slurmise predicts the memory and runtime of batch jobs that run again and
again. Before anything is learned, each job is turned into a feature record.
The record holds two maps: numerical features and categorical features. They
come from the job's command line, matched against a *job spec*. A job spec is
a string such as `monomer -T {threads:numeric} -C {complexity:category}`.

This project models that core and proves properties about it:

- **Compiler** (`JobSpecTokens`, `JobSpecCompile`, `JobSpecification.JobSpec`).
  `build_regex` scans the spec for `{name:kind}` / `{kind}` placeholders. Each
  pass replaces the leftmost one with a capture fragment, fills the ordered
  token table `token_kinds` and the per-token parser lists, and anchors the
  result as `^…$`. `RewriteLoop` follows the source's loop, which searches the
  whole rewritten string again after every replacement. `CompileSegs` is an
  independent one-pass definition over the tokenized spec.
  `RewriteIsOnePass` proves the two agree.
- **Variable-map compiler** (`from_variables`) and **validation**
  (`validate_variables`).
- **Matcher** (`parse_job_from_dict`, `parse_job_cmd`). These check the key
  sets and then fill the job's two maps in the table's insertion order. File
  tokens run their parsers.
- **Diagnostic renderer** (`JobSpecDiagnostics`). This is the text that
  `align_and_indicate_differences` builds when a command does not match. The
  model covers the renamed ignores, the two renderings of the spec, the
  `matches_to_display` offset table, the callout splicing inside `equal`
  runs, the padding of the other runs, and the three lines joined.
- **The earlier `JobSpec` of `config.py`** (`Config`). It has four kinds,
  replace-all rewriting and its own `parse_job_cmd`. `SlurmiseConfiguration`
  looks up a job's spec by name.
- **File parsers** (`FileParsers`). These cover the newline-counting read
  loop, the check of the upper-cased return type, and the shaping of awk's
  output.
- **`slurm.py`** (`Slurm`). This is step selection and the max-RSS fold over
  an already-decoded `sacct --json` document.
- **`job_data.py`** (`JobRecords`). This covers the `JobData` record,
  `array_safe_eq`, `from_dataset`, and the header/data zip and feature
  partition of `from_snakemake_benchmark_file`.

Some things are taken as parameters because no source for them is part of
this model:

- the regular-expression engines (`re.match`, the fuzzy `regex.fullmatch`);
- `difflib.SequenceMatcher.get_opcodes`;
- Python's `float()` and `int()` on text;
- the filesystem, `awk` subprocesses, reading a file-list's lines, and
  `ast.literal_eval`.

A parameter's result is an `Option` or `Result`, so the exceptions it can
raise stay explicit: the ValueError of `float()`, the `re.error` of a pattern
an engine refuses, the failure of `literal_eval`, an I/O error. Exceptions
are `Result` errors that carry the values their messages interpolate.

Some behaviour of the code is easy to misread; the model follows the code:

- An extraction error does not discard the feature record: `parse_job_from_dict`
  and the old `parse_job_cmd` write into the `JobData` in place, so the
  model's methods leave in `job` whatever was stored before the error.
- `gzip_file` tokens call `parse_file(path, gzip_file=True)`, and none of the
  parsers shown accepts that keyword. The model returns the `TypeError`.
- job_specification.py:7 imports `NUMERIC`, but file_parsers.py defines only
  `NUMERICAL`. job_specification.py:142,144,159,161 also write
  `job.numerics`/`job.categories`, while `JobData` has
  `numerical`/`categorical`. The model takes the evident intent: one numeric
  return type, `"NUMERICAL"`, and the record's two fields.
- `from_variables` accepts kind `ignore`, and `parse_job_from_dict` then
  raises `Unknown kind ignore.` (`JobSpecification.IgnoreVariableNotExtracted`).

## Model

| member | source | states |
|---|---|---|
| JobSpecTokens.KindNamed | src/slurmise/job_parse/job_specification.py:11-18 | a kind name is accepted exactly when it is one of the six keys of KIND_TO_REGEX, and it maps to the kind of that name |
| JobSpecTokens.KindNamesRoundTrip | src/slurmise/job_parse/job_specification.py:11-18 | every kind's name is recognised as that kind again |
| JobSpecTokens.Fragment | src/slurmise/job_parse/job_specification.py:11-18 | a capture fragment holds no brace, so substituting it never creates a new placeholder |
| JobSpecTokens.MatchAt | src/slurmise/job_parse/job_specification.py:10 | a placeholder match starting at i spans at least three characters within the string, and its name and kind groups satisfy the pattern's character classes |
| JobSpecTokens.MatchAtParts | src/slurmise/job_parse/job_specification.py:10 | a match is `{`, a body running to the first `}`, and that `}`; name and kind are the body split at its first `:` when the text before it and the text after it are both non-empty (the name may hold `{`); otherwise there is no name and the whole body is the kind |
| JobSpecTokens.TokenShape | src/slurmise/job_parse/job_specification.py:10 | the text of a placeholder opens with `{`, closes with its only `}` |
| JobSpecTokens.MatchSpansOnePlaceholder | src/slurmise/job_parse/job_specification.py:10 | the matched text holds exactly one `}` |
| JobSpecTokens.FindTokenFrom | src/slurmise/job_parse/job_specification.py:66 | a token found from an index is a real match of the pattern, starting at or after that index |
| JobSpecTokens.FindToken | src/slurmise/job_parse/job_specification.py:66 | a token `JOB_SPEC_REGEX.search` returns is a real match at its start (its leftmost position is `FindTokenLeftmost`) |
| JobSpecTokens.FindTokenLeftmost | src/slurmise/job_parse/job_specification.py:66 | no match starts before the one found |
| JobSpecTokens.FindTokenUnique | src/slurmise/job_parse/job_specification.py:66 | any leftmost match, or none when there is none, is what `search` returns |
| JobSpecTokens.FindTokenShift | src/slurmise/job_parse/job_specification.py:66 | brace-free text put in front of a spec only shifts its leftmost match |
| JobSpecTokens.FirstOccurrenceIsMatch | src/slurmise/job_parse/job_specification.py:78-87 | the first occurrence of the matched text is the match itself, so `replace(match.group(0), …, 1)` rewrites the placeholder found |
| JobSpecTokens.Tokenize | src/slurmise/job_parse/job_specification.py:66-92 | a spec splits into literal text and placeholders, starting with literal text |
| JobSpecTokens.RenderTokenize | src/slurmise/job_parse/job_specification.py:66-92 | writing the tokenized spec back out gives the spec again |
| JobSpecCompile.Register | src/slurmise/job_parse/job_specification.py:86 | `token_kinds[name] = kind` sets that kind, keeps the parser lists, and keeps the order for a known name |
| JobSpecCompile.RegisterOrder | src/slurmise/job_parse/job_specification.py:86 | registering keeps the order list the insertion order of the dict: a new name goes last, a known one keeps its place |
| JobSpecCompile.LookupAllSpec | src/slurmise/job_parse/job_specification.py:96 | the comprehension yields each listed parser in order exactly when all are available, and otherwise fails at the first missing one |
| JobSpecCompile.ResolveParsers | src/slurmise/job_parse/job_specification.py:94-104 | on failure with a subscriptable table, the error is either "has no assigned file parser" for this name or "is not available" for this name |
| JobSpecCompile.ResolveParsersSpec | src/slurmise/job_parse/job_specification.py:94-104 | a missing table gives the TypeError. A name missing from the table gives "has no assigned file parser". Otherwise it succeeds exactly when all comma-listed parsers exist, and returns them in list order. Else "not available" names the first missing parser |
| JobSpecCompile.TokenStep | src/slurmise/job_parse/job_specification.py:67-90 | a replacement built from names without braces has no braces |
| JobSpecCompile.StepErrorIsPlaceholderError | src/slurmise/job_parse/job_specification.py:70-90 | one placeholder raises exactly when its kind is unknown, a non-ignore has no name, or its parsers do not resolve, and with that error |
| JobSpecCompile.TokenStepRegisters | src/slurmise/job_parse/job_specification.py:73-90 | ignores never enter the table; any other placeholder is registered under its name with its kind |
| JobSpecCompile.TokenStepParsers | src/slurmise/job_parse/job_specification.py:89-90 | a file-kind placeholder that goes on has its resolved parser list recorded |
| JobSpecCompile.ReplaceDropsOneBrace | src/slurmise/job_parse/job_specification.py:78-87 | each rewrite removes exactly one `}`, so the loop terminates |
| JobSpecCompile.RewriteUnfold | src/slurmise/job_parse/job_specification.py:66-92 | one turn of the loop: stop with the error, or go on with the first occurrence replaced and fewer braces |
| JobSpecCompile.TokenStepWellFormed | src/slurmise/job_parse/job_specification.py:86-90 | one step keeps the table well formed |
| JobSpecCompile.RewriteLoopWellFormed | src/slurmise/job_parse/job_specification.py:66-92 | the loop keeps the order list and the token dict in step |
| JobSpecCompile.NoPlaceholders | src/slurmise/job_parse/job_specification.py:66-92 | a spec without `{` compiles to `^spec$` and leaves the table as it was |
| JobSpecCompile.RewriteIsOnePass | src/slurmise/job_parse/job_specification.py:63-92 | the re-searching loop computes the same regex, table, error and counter as one left-to-right pass over the tokenized spec |
| JobSpecCompile.CompileSegsError | src/slurmise/job_parse/job_specification.py:70-90 | compilation fails exactly when some placeholder raises, with the leftmost one's error |
| JobSpecCompile.CompileSegsKinds | src/slurmise/job_parse/job_specification.py:73-88 | a successful compile registers exactly the named non-ignore placeholders, in first-occurrence order, with the last kind given |
| JobSpecCompile.CompileSegsPattern | src/slurmise/job_parse/job_specification.py:73-92 | a successful compile's body is the literal text with each placeholder replaced by its fragment: a named group, or a bare `.+?` for an ignore outside named mode |
| JobSpecCompile.StepCapture | src/slurmise/job_parse/job_specification.py:73-87 | an ignore is uncaptured by default; in named mode an unnamed ignore is `ignore_{i}` and advances the counter; every other placeholder is a group of its own name |
| JobSpecCompile.CompileSegsIgnoreCounter | src/slurmise/job_parse/job_specification.py:73-80 | the counter ends advanced by the number of unnamed ignores in named mode, and unchanged otherwise |
| JobSpecCompile.CompileSegsKeepsParsers | src/slurmise/job_parse/job_specification.py:89-90 | a parser list already resolved stays resolved through the rest of the compile |
| JobSpecCompile.CompileSegsParsers | src/slurmise/job_parse/job_specification.py:89-90 | after a successful compile every file, gzip_file and file_list token has its parsers, resolved in comma-list order |
| JobSpecification.VariableStepSpec | src/slurmise/job_parse/job_specification.py:53-59 | one variable registers its name and kind, skips the parser lookup for non-file kinds, or raises "Unknown variable type" / the parser error |
| JobSpecification.VariablesTablesErrors | src/slurmise/job_parse/job_specification.py:53-59 | `from_variables` fails exactly at the first variable with an unknown kind or unresolved parsers |
| JobSpecification.VariablesTablesWellFormed | src/slurmise/job_parse/job_specification.py:53-61 | the table `from_variables` builds stays well formed |
| JobSpecification.VariablesTablesNames | src/slurmise/job_parse/job_specification.py:53-56 | with distinct new names, the order list gains the variables' names in order |
| JobSpecification.VariablesTablesKeys | src/slurmise/job_parse/job_specification.py:53-56 | the token dict gains exactly the variables' names and keeps the kind of every earlier name no variable reuses |
| JobSpecification.VariablesTablesKinds | src/slurmise/job_parse/job_specification.py:53-56 | each variable is recorded with the kind its name denotes, `ignore` included |
| JobSpecification.FirstKindMismatch | src/slurmise/job_parse/job_specification.py:114-121 | None exactly when every variable's kind equals the recorded kind |
| JobSpecification.FirstKindMismatchIsFirst | src/slurmise/job_parse/job_specification.py:114-120 | the message names the first variable whose kind differs, with both kinds |
| JobSpecification.ParseEach | src/slurmise/job_parse/job_specification.py:152-156 | a successful listing gives one value per line |
| JobSpecification.ParseEachSpec | src/slurmise/job_parse/job_specification.py:152-156 | a listing succeeds exactly when every line parses; the values are the lines' values in order; otherwise the first failing line's error |
| JobSpecification.ParseEachFails | src/slurmise/job_parse/job_specification.py:152-156 | the first line that fails decides the error |
| JobSpecification.ParseListing | src/slurmise/job_parse/job_specification.py:152-156 | the append loop over the listing computes `ParseEach` |
| JobSpecification.ParseParser | src/slurmise/job_parse/job_specification.py:146-156 | one parser's value for a file, gzip_file or file_list token |
| JobSpecification.ParseListingFile | src/slurmise/job_parse/job_specification.py:153-156 | a file_list token's value is the list of results for the listing's stripped lines |
| JobSpecification.FillParsersErrors | src/slurmise/job_parse/job_specification.py:146-161 | the parsers run in order until the first failure, which is the error; nothing fails when every parser succeeds |
| JobSpecification.FillParsersErrorFree | src/slurmise/job_parse/job_specification.py:146-161 | whether the parser loop fails does not depend on what the maps already hold |
| JobSpecification.FillParsersKeys | src/slurmise/job_parse/job_specification.py:146-161 | a successful parser loop adds exactly one `{name}_{parser.name}` key per parser, to the map its return type selects |
| JobSpecification.FillTokenError | src/slurmise/job_parse/job_specification.py:140-164 | a token raises exactly when it fails, and the exception does not depend on what the maps already hold |
| JobSpecification.FillTokenKeys | src/slurmise/job_parse/job_specification.py:140-164 | a token that does not raise adds exactly its keys to the map its kind or parser return type selects |
| JobSpecification.FillTokenSpec | src/slurmise/job_parse/job_specification.py:140-164 | a token raises exactly when it fails: an unparsable number, an ignore token, a file token with no or failing parsers. Otherwise it adds exactly its keys. A numeric gets its float, a category its text verbatim |
| JobSpecification.FillNamesSpec | src/slurmise/job_parse/job_specification.py:140-166 | the tokens run in insertion order until the first that fails, whose error is returned |
| JobSpecification.FillNamesKeys | src/slurmise/job_parse/job_specification.py:140-166 | a successful run adds exactly the keys of all tokens and nothing else |
| JobSpecification.FromDictSpec | src/slurmise/job_parse/job_specification.py:132-166 | succeeds exactly when the key sets are equal and no token fails. A missing key is reported before an extra one, and either leaves the maps untouched. On success the maps gain exactly the tokens' keys |
| JobSpecification.IgnoreVariableNotExtracted | src/slurmise/job_parse/job_specification.py:163-164 | a variable of kind ignore is accepted by `from_variables` and then raises "Unknown kind ignore." in `parse_job_from_dict` |
| JobSpecification.AlignText | src/slurmise/job_parse/job_specification.py:195-211 | asking for an exact match without a regex is an error, and a pattern the exact or the fuzzy engine refuses raises its `re.error`. When neither match succeeds, the result is the "TODO: handle no matches" error |
| JobSpecification.Align | src/slurmise/job_parse/job_specification.py:185-193 | no spec raises; a spec without `ignore}` is rendered with the stored regex and table unchanged |
| JobSpecification.CompileError | src/slurmise/job_parse/job_specification.py:63-92 | for a spec whose placeholder names hold no `{`: in either mode, compiling fails exactly at the first placeholder that raises |
| JobSpecification.CompilePattern | src/slurmise/job_parse/job_specification.py:63-92 | for a spec whose placeholder names hold no `{`: a successful compile is `^` + the tokenized spec's pattern + `$` |
| JobSpecification.FirstErrorWithoutTables | src/slurmise/job_parse/job_specification.py:94-96 | without parser tables, the first file placeholder of an otherwise error-free spec raises the TypeError |
| JobSpecification.AlignWithoutTablesFails | src/slurmise/job_parse/job_specification.py:187-188 | as written: for an accepted spec with `ignore}`, a file placeholder and no `{` in any placeholder name, the diagnostic raises the TypeError instead of rendering |
| JobSpecification.MixedSpecWithoutTables | src/slurmise/job_parse/job_specification.py:187-188 | `{a:file}{ignore}` with a parser table compiles, yet its diagnostic without tables raises the TypeError |
| JobSpecification.AlignWithTables | src/slurmise/job_parse/job_specification.py:187-193 | for an accepted spec whose placeholder names hold no `{`, given the tables the spec was built with, the rebuild never raises: its regex is the named-group regex, and the diagnostic is that of the renamed spec |
| JobSpecification.JobSpec.Blank | src/slurmise/job_parse/job_specification.py:36-41 | the spec is kept; tables are empty; there is no regex |
| JobSpecification.JobSpec.UpdateFileParsers | src/slurmise/job_parse/job_specification.py:94-104 | on success the token's parser list is set to the resolved list; otherwise the error is returned and nothing changes |
| JobSpecification.JobSpec.HandleMatch | src/slurmise/job_parse/job_specification.py:67-90 | one match updates the object's tables as TokenStep does and returns its replacement and counter, or its error |
| JobSpecification.JobSpec.BuildRegex | src/slurmise/job_parse/job_specification.py:63-92 | the loop leaves the regex or error and the tables of `RewriteLoop` on the spec and the old tables; the tables stay well formed |
| JobSpecification.JobSpec.New | src/slurmise/job_parse/job_specification.py:22-43 | without a spec there is no regex and the table is empty; with one the object exists exactly when compilation succeeds and holds its regex and table |
| JobSpecification.JobSpec.FromVariables | src/slurmise/job_parse/job_specification.py:45-61 | the object exists exactly when `VariablesTables` succeeds; it has no spec, no regex, and that table |
| JobSpecification.JobSpec.ValidateVariables | src/slurmise/job_parse/job_specification.py:106-121 | None exactly when the variables name exactly the tokens, each with its recorded kind; a key-set mismatch gives the key message, before any kind check |
| JobSpecification.FromVariablesValidates | src/slurmise/job_parse/job_specification.py:106-121 | variables with distinct names that `from_variables` accepts pass `validate_variables` on the table it built |
| JobSpecification.JobSpec.FillTokenInto | src/slurmise/job_parse/job_specification.py:140-164 | one token's features are stored in the job as `FillToken` states; the job's other fields are unchanged |
| JobSpecification.JobSpec.ParseJobFromDict | src/slurmise/job_parse/job_specification.py:132-166 | the job's maps and the error are those of `FromDict`; the other fields are unchanged |
| JobSpecification.JobSpec.AlignAndIndicateDifferences | src/slurmise/job_parse/job_specification.py:168-216 | the result and the table left are those of `Align`, with the parser tables as parameters |
| JobSpecification.JobSpec.ParseJobCmd | src/slurmise/job_parse/job_specification.py:123-130 | no regex raises "has no job spec entry"; a pattern the engine refuses raises its `re.error`; a failed anchored match raises with the rendered diagnostic and stores nothing; a match extracts as `FromDict`. The rebuild's parser tables are parameters: the source's call (line 128, reaching line 188) is the instance with `None, None` |
| JobSpecDiagnostics.NamedIgnore | src/slurmise/job_parse/job_specification.py:192 | `{ignore_{i}:ignore}` is longer than `{ignore}` and holds no further `{` |
| JobSpecDiagnostics.RenameFirstClears | src/slurmise/job_parse/job_specification.py:191-193 | renaming the first `{ignore}` leaves none before the end of what was written |
| JobSpecDiagnostics.RenameStep | src/slurmise/job_parse/job_specification.py:191-193 | one turn renames the first `{ignore}` after the counter, and the loop's measure drops |
| JobSpecDiagnostics.RenameKeepsPrefix | src/slurmise/job_parse/job_specification.py:191-193 | the text before the first `{ignore}` is kept |
| JobSpecDiagnostics.RenameIgnores | src/slurmise/job_parse/job_specification.py:190-193 | no `{ignore}` is left, and a spec without one is unchanged |
| JobSpecDiagnostics.NameIgnores | src/slurmise/job_parse/job_specification.py:190-193 | the replace loop computes `RenameIgnores` from counter 0 |
| JobSpecDiagnostics.PieceOf | src/slurmise/job_parse/job_specification.py:213 | literal text stays text and a placeholder becomes a format field |
| JobSpecDiagnostics.Pieces | src/slurmise/job_parse/job_specification.py:213 | `simple_spec` has one piece per segment of the spec |
| JobSpecDiagnostics.FormatLiteralEscapes | src/slurmise/job_parse/job_specification.py:214-216 | `str.format` accepts literal text exactly when it is some text with every brace doubled, and gives back that text |
| JobSpecDiagnostics.FormatLiteralNoOpen | src/slurmise/job_parse/job_specification.py:214-216 | formatted literal text without `{` holds no `{`, so a `}}` in the spec cannot open a callout |
| JobSpecDiagnostics.RenderFailsAlike | src/slurmise/job_parse/job_specification.py:213-216 | `spec_with_matches` and `display_spec` fail to format exactly alike, with the same error |
| JobSpecDiagnostics.CalloutAt | src/slurmise/job_parse/job_specification.py:222 | a callout found at i starts there, lies inside the string, spans its name and value plus the three marks, and has a non-empty name |
| JobSpecDiagnostics.CalloutsFrom | src/slurmise/job_parse/job_specification.py:222 | `finditer` gives ordered, non-overlapping callouts inside the string |
| JobSpecDiagnostics.TableLength | src/slurmise/job_parse/job_specification.py:220-232 | the table has one entry per callout |
| JobSpecDiagnostics.TableLocates | src/slurmise/job_parse/job_specification.py:220-232 | each entry's match span locates the callout's value in the collapsed display spec; its display span and name are the callout's |
| JobSpecDiagnostics.MatchesToDisplay | src/slurmise/job_parse/job_specification.py:220-232 | the offset loop builds the table of the callouts of the display spec |
| JobSpecDiagnostics.DisplayScans | src/slurmise/job_parse/job_specification.py:215-222 | when no field name holds `⇒`, no group value holds `}` and no literal text holds `{`: the callout scan over `display_spec` reads back every field, in order, with its name and group value |
| JobSpecDiagnostics.DisplayCollapses | src/slurmise/job_parse/job_specification.py:213-216 | under the same three conditions: replacing every callout of `display_spec` by its value gives `spec_with_matches` |
| JobSpecDiagnostics.ExpectedFields | src/slurmise/job_parse/job_specification.py:215-222 | the callouts expected are the fields in order, each with its group's value |
| JobSpecDiagnostics.EntriesSpanValues | src/slurmise/job_parse/job_specification.py:220-232 | under the same three conditions: entry j's match span in `spec_with_matches` holds exactly field j's value |
| JobSpecDiagnostics.FieldsInGroups | src/slurmise/job_parse/job_specification.py:214-216 | every field of a rendered spec has a group |
| JobSpecDiagnostics.Slice | src/slurmise/job_parse/job_specification.py:259-265 | Python slicing agrees with Dafny's on in-range bounds |
| JobSpecDiagnostics.SpliceSpec | src/slurmise/job_parse/job_specification.py:264-266 | the spec line grows by the display span less the match span |
| JobSpecDiagnostics.SpliceInd | src/slurmise/job_parse/job_specification.py:281 | the indicator line grows by the arrows less the match span |
| JobSpecDiagnostics.SpliceCmd | src/slurmise/job_parse/job_specification.py:287-302 | the framed command line grows by exactly the added width |
| JobSpecDiagnostics.HalvesAdd | src/slurmise/job_parse/job_specification.py:291-299 | both dash counts are non-negative for an added width of at least 4, and with the four marks they fill it exactly |
| JobSpecDiagnostics.ArrowsMarks | src/slurmise/job_parse/job_specification.py:269-279 | the arrows span the callout with bars at both ends; the warning sign is in the middle exactly when asked for; spaces elsewhere |
| JobSpecDiagnostics.ExpandWarns | src/slurmise/job_parse/job_specification.py:269-281 | the warning sign appears at the callout's middle exactly for a numeric token whose command text fails float(); bars mark both ends |
| JobSpecDiagnostics.ExpandEven | src/slurmise/job_parse/job_specification.py:259-306 | splicing one callout keeps the three lines equally wide and widens them by its added width |
| JobSpecDiagnostics.ExpandWidens | src/slurmise/job_parse/job_specification.py:259-306 | the splicing step of a run widens all three lines alike |
| JobSpecDiagnostics.Popped | src/slurmise/job_parse/job_specification.py:253-259 | the inner while pops the longest prefix of the table whose entries lie inside the run, and stops at the first that does not |
| JobSpecDiagnostics.PoppedContinues | src/slurmise/job_parse/job_specification.py:253-257 | while the head lies inside the run, fewer entries than `Popped` have been popped |
| JobSpecDiagnostics.PoppedStops | src/slurmise/job_parse/job_specification.py:253-257 | the loop stops after exactly `Popped` entries |
| JobSpecDiagnostics.SpliceAllEven | src/slurmise/job_parse/job_specification.py:252-306 | splicing the popped callouts keeps the run's three lines equally wide |
| JobSpecDiagnostics.SpliceRun | src/slurmise/job_parse/job_specification.py:252-306 | the while loop pops `Popped` entries, splices each, and leaves the rest of the table |
| JobSpecDiagnostics.RunLines | src/slurmise/job_parse/job_specification.py:244-330 | each opcode consumes a prefix of the table and hands the rest on to the next opcode |
| JobSpecDiagnostics.RunEven | src/slurmise/job_parse/job_specification.py:244-330 | every valid opcode (equal, replace, delete, insert) yields three equally wide line segments |
| JobSpecDiagnostics.WalkEven | src/slurmise/job_parse/job_specification.py:244-330 | the whole walk over valid opcodes yields three equally wide lines |
| JobSpecDiagnostics.AlignRuns | src/slurmise/job_parse/job_specification.py:244-330 | the opcode loop computes `Walk` |
| JobSpecDiagnostics.TableShaped | src/slurmise/job_parse/job_specification.py:220-232 | each table entry's display span is its match span plus at least four marks, and lies inside the display spec |
| JobSpecDiagnostics.ShapedTable | src/slurmise/job_parse/job_specification.py:220-232 | `matches_to_display` entries are shaped and lie inside the display spec |
| JobSpecDiagnostics.Header | src/slurmise/job_parse/job_specification.py:334-338 | one header line exactly when an exact match was tried |
| JobSpecDiagnostics.DiagnosticFails | src/slurmise/job_parse/job_specification.py:213-216 | the diagnostic fails exactly when `str.format` of the spec with the groups fails (a missing key, an unsupported field, a single brace in literal text), and with that error |
| JobSpecDiagnostics.DiagnosticEven | src/slurmise/job_parse/job_specification.py:237-344 | with a matcher whose opcodes keep to their ranges, the aligned spec, indicator and command lines are equally wide |
| JobSpecDiagnostics.ReportLines | src/slurmise/job_parse/job_specification.py:340-346 | splitting the report at line breaks gives back the header, the spec, the indicator and the command lines |
| JobSpecDiagnostics.Diagnose | src/slurmise/job_parse/job_specification.py:213-346 | the method (format twice, build the table, walk the opcodes, join) computes `DiagnosticText` |
| Text.Find | src/slurmise/job_parse/job_specification.py:87 | `str.find`: present exactly when the text occurs, at its first occurrence |
| Text.ReplaceFirst | src/slurmise/job_parse/job_specification.py:87 | `str.replace(…, 1)` leaves a string without the pattern unchanged, and otherwise replaces the leftmost occurrence of the pattern, keeping the text before and after it |
| Text.ReplaceAllAbsent | src/slurmise/config.py:92-98 | `str.replace` leaves a string without the pattern unchanged |
| Text.ReplaceAllCount | src/slurmise/config.py:92-98 | replacing every copy by text with fewer of a character lowers that character's count when the pattern occurs, and never raises it |
| Text.Split | src/slurmise/job_parse/job_specification.py:96 | `str.split(sep)` gives at least one piece, none holding the separator |
| Text.SplitLength | src/slurmise/job_parse/job_specification.py:96 | there is one piece more than separators |
| Text.JoinSplit | src/slurmise/job_data.py:108-109 | joining the pieces with the separator gives the string back |
| Text.SplitJoin | src/slurmise/job_data.py:108-109 | splitting separator-free pieces joined by the separator gives the pieces back |
| Text.LastPiece | src/slurmise/slurm.py:39 | `split(".")[-1]`: the separator-free suffix after the last separator |
| Text.LastPieceIsLastOfSplit | src/slurmise/slurm.py:39 | that suffix is the last piece of `str.split` |
| Text.Strip | src/slurmise/job_parse/file_parsers.py:56 | `str.strip` leaves no whitespace at either end |
| Text.StripTrims | src/slurmise/job_parse/file_parsers.py:56 | `str.strip` takes off only whitespace: the result is a slice of the input with only whitespace before and after it |
| Text.SplitWhitespaceWords | src/slurmise/job_parse/file_parsers.py:55 | `str.split()` gives non-empty words without whitespace |
| Text.SplitWhitespaceKeepsText | src/slurmise/job_parse/file_parsers.py:55 | the words together are the string's non-whitespace characters, in order |
| Text.Repr | src/slurmise/job_parse/job_specification.py:99-102 | `!r` of a string adds the two quotes and never shortens it |
| Text.ReprPlain | src/slurmise/job_parse/job_specification.py:99-102 | text without quotes, backslashes or control characters is shown as it is, between single quotes |
| Text.Upper | src/slurmise/job_parse/file_parsers.py:43 | `str.upper` restricted to ASCII: each lower-case ASCII letter becomes its capital and every other character is kept, so the result is as long as the input (Python's full Unicode mapping is listed under Left out) |
| FileParsers.AwkCommandParser | src/slurmise/job_parse/file_parsers.py:42-45 | the parser keeps its name and is numeric exactly when the upper-cased return type is NUMERICAL |
| FileParsers.AwkFileParser | src/slurmise/job_parse/file_parsers.py:60-63 | the parser keeps its name and is numeric exactly when the upper-cased return type is NUMERICAL |
| FileParsers.UntilEmpty | src/slurmise/job_parse/file_parsers.py:35 | the loop consumes the reads before the first empty one, all non-empty |
| FileParsers.UntilEmptyAt | src/slurmise/job_parse/file_parsers.py:35 | the reads before the first empty one are exactly what the loop consumes |
| FileParsers.CountLines | src/slurmise/job_parse/file_parsers.py:31-38 | the count is 1 plus the newlines in the bytes read before the first empty read |
| FileParsers.CountNextChunk | src/slurmise/job_parse/file_parsers.py:35-36 | one more chunk adds its newline count |
| FileParsers.FixedReadsCover | src/slurmise/job_parse/file_parsers.py:32-36 | reads of any positive chunk size together give back the whole content |
| FileParsers.LineCountIndependentOfChunks | src/slurmise/job_parse/file_parsers.py:32-36 | the line count is 1 plus the file's newlines whatever the chunk size |
| FileParsers.FloatsOf | src/slurmise/job_parse/file_parsers.py:55 | the list exists exactly when every token parses, one float per token in order; otherwise some token fails |
| FileParsers.ShapeAwkOutput | src/slurmise/job_parse/file_parsers.py:54-56 | non-numeric output is the stripped text; numeric output is, exactly when every whitespace-separated token parses, the list of their floats in order, and otherwise the ValueError of the first token that does not |
| FileParsers.ParseFile | src/slurmise/job_parse/file_parsers.py:18-75 | the dispatch of `parse_file`: gzip_file=True gives the TypeError, then size, line count or awk output by parser; the line count is at least 1 |
| JobRecords.JobData.constructor | src/slurmise/job_data.py:59-65 | name, slurm id and command as given; empty maps; no memory or runtime |
| JobRecords.JobData.Full | src/slurmise/job_data.py:87-94 | every field as given except the command, which is None |
| JobRecords.PyEqIsCanonEq | src/slurmise/job_data.py:25 | Python `==` on these values is equality once integers are read as floats |
| JobRecords.ArraySafeEqIsCanonEq | src/slurmise/job_data.py:18-25 | `array_safe_eq` on dicts is same keys and pairwise `array_safe_eq`, which coincides with `==` |
| JobRecords.ArraySafeEqIsEquivalence | src/slurmise/job_data.py:12-27 | `array_safe_eq` is reflexive, symmetric and transitive |
| JobRecords.FromDatasetFields | src/slurmise/job_data.py:78-84 | numerical holds every entry except runtime and memory, unchanged; runtime and memory are None when absent |
| JobRecords.FromDataset | src/slurmise/job_data.py:68-94 | a new record with those fields, the given name, id and categorical map |
| JobRecords.ZipIntoSpec | src/slurmise/job_data.py:112 | the zip adds exactly the first min(len) headers, each with the data of its last occurrence, and keeps other keys |
| JobRecords.ZipDictSpec | src/slurmise/job_data.py:112 | header and data fields pair by position; extra fields are dropped; a repeated header keeps its last value |
| JobRecords.PartitionIsPartition | src/slurmise/job_data.py:122-128 | numerical and categorical keys are disjoint and together all keys; a key is numerical exactly when float() accepts its value; categorical values are verbatim |
| JobRecords.PartitionFeatures | src/slurmise/job_data.py:122-128 | the for loop computes `PartitionSpec` |
| JobRecords.Trunc | src/slurmise/job_data.py:134-135 | `int()` of a float truncates toward zero |
| JobRecords.BenchmarkFeatures | src/slurmise/job_data.py:108-135 | features are disjoint and cover wildcards and params. A shared key takes the param's value, and shared keys are reported. Runtime is the truncated cpu time in whole minutes, rounded down |
| JobRecords.LiteralOfColumn | src/slurmise/job_data.py:115-116 | an absent column is the empty dict; a present one raises exactly when `literal_eval` does, with its text |
| JobRecords.FromBenchmark | src/slurmise/job_data.py:97-144 | the record exists exactly when `BenchmarkSpec` succeeds (both columns evaluated before either is read as a dict), with its name, id, features, memory and runtime |
| Slurm.CollectStepsFails | src/slurmise/slurm.py:33-35 | the step loop fails exactly when some step has no id or an unhashable one |
| Slurm.CollectStepsIds | src/slurmise/slurm.py:33-35 | the id list holds every step's id in order, duplicates included |
| Slurm.CollectStepsKeys | src/slurmise/slurm.py:33-35 | every string id is a key of the step dict |
| Slurm.CollectStepsLastWins | src/slurmise/slurm.py:33-35 | each key maps to the last step with that id |
| Slurm.CollectStepsPrefixFails | src/slurmise/slurm.py:33-35 | a failing prefix fails the whole loop |
| Slurm.MemFoldSpec | src/slurmise/slurm.py:46-48 | the fold succeeds exactly when every entry is accepted. Its result is at least 0 and at least every mem entry's value, and it is 0 or one of them; other entries are ignored |
| Slurm.MemFoldPrefixFails | src/slurmise/slurm.py:46-48 | a failing prefix fails the whole fold |
| Slurm.ToDict | src/slurmise/slurm.py:53-64 | the result has exactly the ten listed keys |
| Slurm.Need | src/slurmise/slurm.py:49-51 | a failed lookup becomes the ValueError carrying the whole sacct document |
| Slurm.MetadataOf | src/slurmise/slurm.py:22-64 | every failure is the wrapped error carrying the sacct document |
| Slurm.DefaultStepIsLast | src/slurmise/slurm.py:37-39 | without a step name the last listed step is measured and the reported id is the text after its last `.` |
| Slurm.NamedStepIsLastWithId | src/slurmise/slurm.py:40-41 | with a step name the last step whose id is `{job_id}.{step_name}` is measured and the name is reported unchanged |
| Slurm.StepMaxRss | src/slurmise/slurm.py:45-48 | a step's max RSS is at least 0 and at least every mem entry's (count div 2^20) * node count, and is 0 or one of them |
| Slurm.MaxRssNonNegative | src/slurmise/slurm.py:30-48 | the reported max RSS is never negative |
| Slurm.CollectStepTable | src/slurmise/slurm.py:31-35 | the step loop computes `CollectSteps` |
| Slurm.FoldMaxRss | src/slurmise/slurm.py:46-48 | the max loop computes `MemFold` |
| Slurm.ParseSlurmJobMetadata | src/slurmise/slurm.py:20-64 | the ten-key dict of `MetadataOf` exactly when it succeeds, otherwise the error carrying the document |
| Config.OldKindNamed | src/slurmise/config.py:13-18 | exactly file, numeric, category and ignore are accepted |
| Config.OldFragment | src/slurmise/config.py:13-18 | no fragment of this version holds a brace |
| Config.AwkCommandParser | src/slurmise/config.py:174-178 | the parser keeps its name and script and is numeric exactly when the upper-cased return type is NUMERICAL |
| Config.AwkValue | src/slurmise/config.py:180-187 | the stripped output, as one float for a numeric parser (defined exactly when it parses) or as text |
| Config.ParseFile | src/slurmise/config.py:136-187 | each parser's value; a line count is at least 1 |
| Config.OldMatchAt | src/slurmise/config.py:12 | a match of this version's pattern starts at i and spans at least three characters |
| Config.OldMatchText | src/slurmise/config.py:12 | the matched text is the placeholder written from its name and kind |
| Config.NamedMatchText | src/slurmise/config.py:12 | the named reading splits at the first `:` before the first `}` |
| Config.UnnamedMatchText | src/slurmise/config.py:12 | the unnamed reading takes the whole body as the kind |
| Config.OldFindFrom | src/slurmise/config.py:84 | `search` returns the first match at or after the index, and None only when there is none |
| Config.OldFind | src/slurmise/config.py:84 | `search` returns the leftmost match |
| Config.NoBraceNoMatch | src/slurmise/config.py:84 | text without `{` holds no placeholder |
| Config.Add | src/slurmise/config.py:97 | `token_kinds[name] = kind` keeps the insertion order |
| Config.ResolveParsers | src/slurmise/config.py:100-104 | None tables raise TypeError; a name or parser missing raises KeyError |
| Config.ResolveParsersInOrder | src/slurmise/config.py:101-104 | the parsers are taken in comma-list order, succeeding exactly when all are available |
| Config.TokenStep | src/slurmise/config.py:85-104 | one step keeps the table ordered |
| Config.StepDropsBrace | src/slurmise/config.py:91-98 | the replacement has fewer `}` than the placeholder |
| Config.ReplaceDropsBrace | src/slurmise/config.py:92-98 | replacing every copy removes at least one `}`, so the loop terminates |
| Config.TokenStepRegistered | src/slurmise/config.py:88-104 | a step that goes on keeps the table ordered, holding only file, numeric and category tokens, each file token with parsers |
| Config.TokenStepWithoutTables | src/slurmise/config.py:100-104 | without parser tables no file token is registered |
| Config.RewriteUnfold | src/slurmise/config.py:84-98 | one turn of the loop: stop with the error, or go on with every copy of the placeholder replaced |
| Config.RewriteRegistered | src/slurmise/config.py:84-104 | a successful loop leaves the table in that shape |
| Config.RewriteAnchored | src/slurmise/config.py:84-106 | the regex is `^body$` with no placeholder left in the body |
| Config.CompileShape | src/slurmise/config.py:79-106 | a compiled spec has a well-shaped table and an anchored, placeholder-free regex |
| Config.CompileLiteral | src/slurmise/config.py:84-106 | a spec without placeholders is `^spec$` with an empty table |
| Config.RewriteWithoutTables | src/slurmise/config.py:84-104 | compiled without parser tables, as the configuration does, a spec registers no file token |
| Config.FillParsersKeys | src/slurmise/config.py:119-123 | each parser adds one `{name}_{parser.name}` key to the map its return type selects |
| Config.FillTokenKeys | src/slurmise/config.py:113-132 | a token that does not raise writes exactly its keys |
| Config.FillNamesKeys | src/slurmise/config.py:113-134 | a successful run writes exactly the keys of all tokens |
| Config.OldJobSpec.Blank | src/slurmise/config.py:79-82 | the spec is kept and the tables are empty |
| Config.OldJobSpec.HandleMatch | src/slurmise/config.py:85-104 | one match updates the tables as `TokenStep` does and returns its replacement or error |
| Config.OldJobSpec.Enter | src/slurmise/config.py:95 | storing a token's kind adds it to the tables as `Add` does, the name keeping its first-insertion position, and changes nothing else |
| Config.OldJobSpec.Scan | src/slurmise/config.py:84-106 | the constructor's loop leaves the regex or error and the table of `Rewrite` |
| Config.OldJobSpec.New | src/slurmise/config.py:65-106 | the object exists exactly when compilation succeeds, holding its regex and table |
| Config.OldJobSpec.ParseJobCmd | src/slurmise/config.py:108-134 | a pattern the engine refuses raises its `re.error` and a non-matching command raises "Job spec … does not match command …", both storing nothing; otherwise the tokens fill the job in order, as `FillNames` does |
| Config.OldJobSpec.FillJob | src/slurmise/config.py:113-129 | the loop over `token_kinds` leaves the job's maps and error exactly as `FillNames` gives them, and changes no other field of the job |
| Config.SlurmiseConfiguration.constructor | src/slurmise/config.py:34-38 | base directory and job table as given |
| Config.SlurmiseConfiguration.Load | src/slurmise/config.py:25-38 | the configuration exists exactly when every job's spec compiles without parser tables, each job holding its compiled spec |
| Config.SlurmiseConfiguration.CompileAll | src/slurmise/config.py:37-38 | the loop over the jobs succeeds exactly when every spec compiles, reports an error some spec raises, and keeps each job's compiled spec under its name |
| Config.SlurmiseConfiguration.ParseJobCmd | src/slurmise/config.py:40-52 | an unknown job raises "not found in configuration" before parsing. A known one gives a new JobData with that name, id and command, filled by its spec, or else the spec's error (a refused pattern, a mismatch or a failing token) |

## Left out

- The regex engines (`re.match`, `regex.fullmatch` with `{e}`) are parameters: the model does not say which commands match which pattern, so the round-trip law (substituting literal values reproduces them) is not stated. Nor does it say which patterns an engine refuses (a repeated group name such as `{a:numeric}-{a:numeric}`, or a name with a space): it carries whatever `re.error` the engine reports.
- `difflib.SequenceMatcher.get_opcodes` is a parameter. `DiagnosticEven` relies only on what the library documents: ranges lie inside both strings, and an equal run has the same length on both sides.
- Python's `float()` and `int()` on text, and `ast.literal_eval`, are parameters; their grammars are not modelled.
- Filesystem and subprocess I/O are parameters: `stat`, raw reads, the lines of a file list, `awk`, the TOML file, the benchmark file and the `sacct` call with its `SLURM_JOBID` lookup (slurm.py:67-81).
- Literal text of a spec is not escaped by the source. The model treats the regex as a string handed to the engine, so the metacharacter problem is outside it.
- JobSpecCompile.RewriteIsOnePass: stated only for specs whose placeholder names contain no `{`. The faithful loop `RewriteLoop` and the class methods cover every spec.
- JobSpecification.FromDictSpec: the missing/extra error carries the whole difference set, while the source reports an arbitrary element (`set.pop()`).
- Config.SlurmiseConfiguration.Load: which job's error is reported when several specs raise is left open, because the model does not fix the dict's iteration order.
- Config.SlurmiseConfiguration.CompileAll: the same; the source's loop reports the first failing job in TOML insertion order, and the model's loop promises only that the error is one some job's spec raises.
- JobSpecDiagnostics.DisplayScans: stated only when no field name holds `⇒`, no matched group value holds `}` and no literal text holds `{`. A doubled `}}` in literal text is covered; a `{{`, which a tokenized spec can hold only after its last `}`, is not. Outside these conditions the callout pattern of job_specification.py:222 misreads the display spec: for `run {x:category}` with x matched as `a}b`, the display spec is `run {x⇒a}b}` and the callout's value is read as `a`. `MatchesToDisplay` and `Walk` compute that misreading as the source does.
- JobSpecDiagnostics.DisplayCollapses: the same three conditions.
- JobSpecDiagnostics.EntriesSpanValues: the same three conditions; in the example above entry 0 spans `a`, not `a}b`.
- JobSpecification.CompileError: stated only for specs whose placeholder names hold no `{`. In a spec such as `{x{y:ignore} z}` a replacement forms a new placeholder that the source's loop finds next; `RewriteLoop` and `JobSpec.BuildRegex` compute that case as the source does.
- JobSpecification.CompilePattern: the same condition on placeholder names.
- JobSpecification.AlignWithoutTablesFails: the same condition on placeholder names.
- JobSpecification.AlignWithTables: the same condition on placeholder names. With a `{` in a name the rebuild can raise even with the tables: `{x{y:ignore} z}` builds as `^.+? z}$`, but the named rebuild writes `(?P<x{y>.+?) z}`, in which the loop then finds `{y>.+?) z}` and raises "Unknown variable type".
- Text.Upper: only ASCII letters are upper-cased. Python's Unicode mapping also turns `ı` into `I` and `ß` into `SS` (a longer string).
- FileParsers.AwkCommandParser: through `Text.Upper`, a return type spelled with non-ASCII letters that upper-case to `NUMERICAL` (such as `numerıcal`) makes a numeric parser in Python and a categorical one here.
- FileParsers.AwkFileParser: the same ASCII-only upper-casing of the return type.
- Config.AwkCommandParser: the same ASCII-only upper-casing of the return type.
- Text.Repr: control characters below U+0020 and U+007F are escaped; non-ASCII characters that Python's `isprintable` rejects are kept as they are rather than written as `\x`/`\u` escapes.
- JobRecords.FromBenchmark: `literal_eval` results are `Value`s (numbers, strings, lists, dicts with string keys). `None`, booleans, tuples, sets and dicts with other keys are not expressible, so neither is the TypeError `float(None)` raises in the partition loop.
- JobRecords.FromBenchmark: Python floats are modelled as exact reals. There is no NaN and no infinity, `float()` of a large int does not round (`float(2**53 + 1)`) and never raises OverflowError (`float(10**400)`, which `except ValueError` at job_data.py:126 would not catch). A parameter `"nan"` or `"inf"` is filed as numerical only if the `float()` parameter maps it to some finite value.
- JobRecords.Trunc: `int()` of a float is truncation of an exact real, so the OverflowError of `int(float("inf"))` and the ValueError of `int(float("nan"))` at job_data.py:134-135 cannot occur.
- JobRecords.ArraySafeEqIsEquivalence: reflexivity holds because values hold no NaN; in Python `float("nan") == float("nan")` is False, so `array_safe_eq` is not reflexive on records holding one.
- Slurm.MetadataOf: JSON floating-point numbers are not in the model's JSON type, and `str()` of a document is a parameter.
- The numpy branch of `array_safe_eq`, the `a is b` shortcut (values have no identity here), and `dc_eq`'s dataclass reflection are not modelled.
- `warnings.warn` for shared benchmark keys is modelled as the set of keys it names.
- `FileRegexParser` in config.py is not modelled: its constructor calls `super().__init__(self, parser_spec)` and cannot build a usable parser.
- Model fitting, ThreadScaler, Snakemake patching, the CLI, the API, HDF5 storage and the pandas conversion are outside this model.

## Findings

| source | as written | input that shows it | evidently intended | confidence | as-written member | corrected member |
|---|---|---|---|---|---|---|
| src/slurmise/job_parse/job_specification.py:188 | the diagnostic rebuilds the regex with `self.build_regex(named_ignore=True)`, passing no parser tables | spec `{a:file}{ignore}` with file_parsers `{"a": "lines"}` and a parser named `lines`: the object is built, but on a mismatch `update_file_parsers` subscripts `None` and raises TypeError instead of rendering the diagnostic | rebuild with the parser tables the spec was built with | high (not executed) | JobSpecification.MixedSpecWithoutTables | JobSpecification.AlignWithTables |
