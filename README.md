# CasADi helper-function generator, modelled in Dafny

`misc/autogencode.py` scans C++ header files for annotated enums and writes
helper code for each one. Such an annotated enum is an *input scheme* or an
*output scheme*. A scheme opens with an intro line
`/// Input arguments <text> [<name>]` or `/// Output arguments <text> [<name>]`.

The scanner then works in two phases:

- **Doc phase.** Every following line that contains `///` is documentation.
- **Body.** The body runs up to the first line matching `}\s*;`. Inside it:
  - a line `/// <doc> [<arg>]` adds an argument;
  - a line `IDENT,` gives the last argument its enum constant;
  - a line `enum <Header> {` names the enum.

The finished scheme goes through `checkconsistency`. Then it is rendered three ways:

- a C++ template helper (`cppcode`);
- a Python wrapper (`pycode`);
- SWIG `%template` lines (`swigcode`).

## What the model covers

| Module (file) | What it models |
|---|---|
| `Common` (common.dfy) | `Option` and `Result` |
| `Strings` (strings.dfy) | The Python string operations the generator uses: `split`, `join`, `rstrip`, `replace`, `endswith`, `in`, `str(int)`, `[:-1]`. Also the lemmas relating them (`split` undoes `join`, and so on). |
| `Schemes` (schemes.dfy) | `Scheme`, the value of an `Enum` object. `Enum` is the class the scanner updates in place. The subclasses `Input`/`Output` are a `Role`. Each exception the run can raise is a constructor of `Failure`. |
| `Patterns` (patterns.dfy) | The seven regular expressions, as classifiers of one line. Python 2 `re` semantics hold throughout: `match` is anchored and `search` takes the leftmost match. A greedy `.*` settles on the last bracket. `re_doc`'s `\s*` gives back whitespace the bracket needs. |
| `Consistency` (consistency.dfy) | `checkconsistency`, as a verdict function and as the method with its loops. |
| `Emitters` (emitters.dfy) | `num`, `getDoc`, `cppcode`, `swigcode`, `pycode`. Each renderer with a loop is a method proved equal to a specification function written with `Join`. |
| `Scanner` (scanner.dfy) | The scanning loop of lines 138-174, over the lines of one file. `DocPhase`, `Body` and `Generate` state what the loop computes. `ReadDocs`, `ReadBody`, `ReadScheme`, `NextScheme` and `ScanFile` are the loop itself, on an `Enum` object, proved against those functions. |
| `Annotations` (blocks.dfy) | Well-formed annotation blocks built from their parts, and the round trip: the scanner reads back exactly the scheme a block was built from, and a file of accepted blocks yields one scheme per block, in order. A block's layout is free where the scanner does not look: any whitespace before `{`, any whitespace indentation of the entry documentation lines, any text before `};`. |

A file is a `seq<string>` of lines without their newline characters. The end
of the sequence is the end of the file. The run's result is a `Generated`
record. It holds:

- the schemes whose names the run prints;
- the text appended to `autogenerated.hpp`;
- the text appended to `autogenerated.i`;
- the exception that stopped the run, if any.

### Behaviour of the code worth knowing

A reader of the annotation format might expect otherwise in each of these cases; the model follows the code.

- **Entry lines.** The body line `/// <doc> [<w>]` gives the argument's name `w` and its documentation (`addArg` receives group 2 as the name and group 1 as the documentation, lines 156-158). The enum constant comes from the next `IDENT,` line (lines 159-161). The bracket therefore names the argument, not the constant.
- **Entries placed before the header.** Suppose an entry documentation line comes right after the intro line, before `enum ... {`. The doc phase takes it as documentation, because it contains `///`. The following `IDENT,` line then reaches `addEnum` with no entry: indexing the last entry of an empty list raises `IndexError`. `Annotations.EntryBeforeHeader` proves this. Entries come out right only once a line without `///` has ended the doc phase, for example a blank line or the header line. In `Annotations.BlockLines` the header line does that.
- **Ordering is not enforced.** One might expect the header to be required before the entries and to be given once. Nothing checks that the header precedes the entries. Nothing checks that the header is given once: the last one wins.
- **Failures end the whole run.** One might expect a bad scheme to be reported and skipped. Instead every exception ends the run: `checkconsistency`'s, `addEnum`'s, and `max([])` in `pycode`. Nothing skips a bad scheme and continues. Output already written stays written (`Scanner.Then`).
- **Missing terminator.** One might expect an error report. A scheme with no terminator before the end of the file makes the original loop forever, because `readline` keeps returning `""`. The model reports `Unterminated` instead.
- **Schemes without entries.** One might expect such a scheme to be rejected before any output. A scheme without entries passes `checkconsistency`. `cppcode` then renders it. `pycode` raises after `%pythoncode %{` has been written (`NoEntries`).

## Model

| member | source | states |
|---|---|---|
| Patterns.IntroMatch | misc/autogencode.py:23-24 | a match starts with `/// <marker> `; group 1 starts with the marker; group 2 is a word |
| Patterns.IntroOf | misc/autogencode.py:142-148 | a line opens a scheme only if it starts with its role's marker, and the scheme's name is a word |
| Patterns.IntroLineMatch | misc/autogencode.py:23-24 | an intro line `/// <marker> <text> [<name>]` opens a scheme of that role, named `name`, documented by `<marker> <text>` |
| Patterns.DocRaw | misc/autogencode.py:26 | `re_docraw` finds a match if and only if the line contains `///` |
| Patterns.DocRawLine | misc/autogencode.py:26 | `/// d` yields `d` when `d` does not start with whitespace |
| Patterns.DocEntry | misc/autogencode.py:25 | a match lies in a line containing `///`, and its group 2 is a word |
| Patterns.DocEntryLine | misc/autogencode.py:25 | `<indent>/// <doc> [<w>]`, behind any indentation without `/`, yields `(doc, w)`, including the empty doc, where `\s*` gives a space back |
| Patterns.BracketAtEnd | misc/autogencode.py:23-25 | with a line ending in ` [w]`, the greedy `.*` settles on that last bracket, whatever precedes it |
| Patterns.LastBracket | misc/autogencode.py:23-25 | the bracket found matches, and no bracket matches later in the range; none found means none matches |
| Patterns.EnumItem | misc/autogencode.py:28 | a match's group is a word |
| Patterns.EnumItemLine | misc/autogencode.py:28 | `<spaces>IDENT,` yields `IDENT` |
| Patterns.EnumHeader | misc/autogencode.py:27 | a match starts with `enum ` and names a word |
| Patterns.EnumHeaderLine | misc/autogencode.py:27 | `enum H<gap>{` yields `H` for any whitespace gap, the empty one included |
| Patterns.EndIff | misc/autogencode.py:29 | `re_end` matches a line if and only if it has a `}` followed, after nothing but whitespace, by a `;` |
| Patterns.EndSplice | misc/autogencode.py:29 | any text, `}`, any whitespace, `;`, any text closes the enum |
| Annotations.CloseIsEnd | misc/autogencode.py:29 | a block's closing line `<any text>};` closes the enum |
| Patterns.NoBraceNoEnd | misc/autogencode.py:29 | a line without `}` never closes the enum |
| Patterns.NoSlashNoDoc | misc/autogencode.py:25-26 | a line without `/` is neither documentation nor an entry line |
| Schemes.Enum.constructor | misc/autogencode.py:32-35 | the intro text plus a newline becomes the documentation; no entries, no header |
| Schemes.Scheme.WithArg | misc/autogencode.py:37-38 | exactly one entry more, at the end, without a constant; nothing else changes |
| Schemes.Enum.AddArg | misc/autogencode.py:37-38 | the object's new state is the old one with that entry appended |
| Schemes.Scheme.WithDoc | misc/autogencode.py:43-44 | the old documentation is a prefix, followed by the line and a newline; nothing else changes |
| Schemes.Enum.AddDoc | misc/autogencode.py:43-44 | the object's new state is the old one with the line appended to its documentation |
| Schemes.Scheme.WithEnum | misc/autogencode.py:46-49 | fails (IndexError) on no entries, and fails on a last entry that has its constant; succeeds exactly otherwise, and then gives only the last entry its constant |
| Schemes.Enum.AddEnum | misc/autogencode.py:46-49 | on failure reports the exception and leaves the object unchanged; otherwise the new state is `WithEnum`'s |
| Schemes.Scheme.WithHeader | misc/autogencode.py:51-52 | the header is overwritten; nothing else changes |
| Schemes.Enum.AddEnumheader | misc/autogencode.py:51-52 | the object's new state is the old one with the new header |
| Emitters.GetDoc | misc/autogencode.py:40-41 | never longer than the documentation, and equal to it when it holds no backslash |
| Strings.EraseSplice | misc/autogencode.py:41 | `replace` with `""` drops an occurrence of the pattern placed after a text that holds no first character of it, keeps that text, and goes on in what follows |
| Consistency.Verdict | misc/autogencode.py:58-68 | accepted if and only if every entry has a constant, the header ends with the role name and no constant contains `_NUM_`; an accepted scheme is renderable |
| Consistency.CheckConsistency | misc/autogencode.py:58-68 | the loops reach the verdict, with the first failing check deciding the exception |
| Consistency.RoleSuffixesExclusive | misc/autogencode.py:63 | no header ends with both `Input` and `Output` |
| Consistency.WrongRoleRejected | misc/autogencode.py:63 | a header ending with the other role's name is always rejected, with `HeaderSuffix` when the entries are complete |
| Emitters.Num | misc/autogencode.py:70-72 | all digits, and reads back as the number of entries |
| Emitters.CommaJoined | misc/autogencode.py:80-82 | the loop of `+=` and `,` followed by `s[:-1]` is the prefix followed by the items joined with commas |
| Strings.CutTrailing | misc/autogencode.py:80-86 | dropping the last character of a comma-terminated list is the comma-joined list |
| Emitters.CommentedLines | misc/autogencode.py:76 | the comment block has one line per line of the documentation, each the prefix and the right-stripped line |
| Emitters.CppCode | misc/autogencode.py:74-89 | the text built with the loops is `CppText` |
| Emitters.CppText | misc/autogencode.py:74-89 | no ensures of its own; `Emitters.CppLines` states its lines and `Emitters.CppCode` the loops that build it |
| Emitters.Commented | misc/autogencode.py:76 | no ensures of its own; `Emitters.CommentedLines` and `Emitters.CommentedThen` state its lines |
| Emitters.CppLines | misc/autogencode.py:74-89 | the C++ helper's lines: the comment naming the enum, one `/// ` line per documentation line, the `\copydoc`, `template<class M>`, the signature with the joined parameter list, the array line with the joined names and the count, the return line, `}` |
| Emitters.CppOnePerEntry | misc/autogencode.py:79-87 | the parameter list and the array list of the lines `CppLines` states split back into one item per entry, in entry order |
| Emitters.SwigCode | misc/autogencode.py:91-96 | no ensures of its own; `Emitters.SwigTwoTemplates` states its lines |
| Emitters.SwigTwoTemplates | misc/autogencode.py:91-96 | the SWIG text is exactly the namespace line, two `%template` lines (SXMatrix, MX) and the closing brace |
| Emitters.MaxNameLen | misc/autogencode.py:107 | at least every name's length, and attained by some name |
| Emitters.Row | misc/autogencode.py:109 | the row is four spaces, the name, spaces up to column 4 + width, ` -- `, then the doc, ` [`, the constant, `]` and a newline |
| Emitters.RowsText | misc/autogencode.py:108-109 | the loop computes `Rows`, whose lines `RowsLines` states |
| Emitters.Rows | misc/autogencode.py:108-109 | no ensures of its own; `Emitters.RowsLines` and `Emitters.RowsThen` state its lines |
| Emitters.RowsThen | misc/autogencode.py:108-109 | the rows, followed by any text, split into one line per entry, in entry order, each that entry's row without its newline, then the lines of the text |
| Emitters.RowsLines | misc/autogencode.py:108-109 | the rows split into one line per entry, in entry order, each that entry's row, then the empty remainder after the last newline |
| Emitters.PyText | misc/autogencode.py:98-115 | fails if and only if there are no entries (`max([])`); `Emitters.PyLines` states the text's lines |
| Emitters.PyLines | misc/autogencode.py:98-115 | the wrapper's lines: the `def` line with the joined keyword list, the opening quotes, `Helper function for '<header>'`, an empty line, one indented right-stripped line per documentation line, `Keyword arguments:`, one row per entry in entry order, the closing quotes, the `return` line with the joined names |
| Emitters.PyCode | misc/autogencode.py:98-115 | the text built with the loops is `PyText` |
| Emitters.PyFirstLine | misc/autogencode.py:99-102 | the wrapper's first line is `def name(` with the joined keyword list and `):` |
| Emitters.PyLastLine | misc/autogencode.py:111-114 | the wrapper's last line is `  return [` with the joined names and `]` |
| Emitters.PyOnePerEntry | misc/autogencode.py:99-114 | the keyword list and the returned list of the lines `PyLines` states split back into one item per entry, in entry order |
| Emitters.CommentedThen | misc/autogencode.py:76 | the comment block's lines come first when the text after it is split into lines |
| Scanner.DocPhase | misc/autogencode.py:150-153 | leaves a suffix of the lines, whose first line (if any) holds no `///` |
| Scanner.DocPhaseConsumes | misc/autogencode.py:151 | every line the doc phase consumes contains `///` |
| Scanner.DocPhaseAppends | misc/autogencode.py:152 | the documentation grows by the consumed lines' texts, in order, one newline each |
| Scanner.DocPhaseKeeps | misc/autogencode.py:150-153 | the doc phase changes nothing but the documentation |
| Scanner.ReadDocs | misc/autogencode.py:150-153 | the loop on the object computes `DocPhase` |
| Scanner.Step | misc/autogencode.py:156-164 | a line matching none of the three patterns changes nothing; only an `IDENT,` line can fail; at most one entry is added; the header is the line's if it has one |
| Scanner.StepLine | misc/autogencode.py:156-164 | the three tests on the object compute `Step` |
| Scanner.StepNames | misc/autogencode.py:156-161 | a body line adds at most one name, at the end, the bracketed word |
| Scanner.Body | misc/autogencode.py:155-165 | a completed body leaves a proper suffix of the lines |
| Scanner.BodyEndsAtTerminator | misc/autogencode.py:155 | a completed body stops right after the first terminator line, and no line before it is one |
| Scanner.BodyFailures | misc/autogencode.py:155-165 | a body fails only by running out of lines or by `addEnum` raising |
| Scanner.BodyKeepsOrder | misc/autogencode.py:155-165 | the entry names are the bracketed words of the body lines, in source order; the header is the last one named |
| Scanner.StepUntilEnd | misc/autogencode.py:155-165 | the loop stops at a terminator, at the end of the lines, or at a failure, computing `Body` |
| Scanner.ReadBody | misc/autogencode.py:155-165 | the loop on the object computes `Body`, with running out of lines as `Unterminated` |
| Scanner.ParseSchemeShrinks | misc/autogencode.py:149-165 | reading a scheme consumes at least one line |
| Scanner.Opened | misc/autogencode.py:32-35 | no ensures of its own; `Schemes.Enum.constructor` ties it to the object's initial state and `Annotations.IntroOpens` to an intro line |
| Scanner.ParseScheme | misc/autogencode.py:145-165 | a scheme read keeps the intro's role and name; reading fails only with `Unterminated` for that name or with an `addEnum` exception |
| Scanner.ReadScheme | misc/autogencode.py:145-165 | a new object, its doc phase and its body compute `ParseScheme` |
| Scanner.EmitScheme | misc/autogencode.py:166-174 | a part of the run without failure comes only from a scheme that passes the check and has entries; a printed scheme is the one given and has passed the check; a rejected scheme produces nothing but its failure |
| Scanner.Emit | misc/autogencode.py:166-174 | the check and the three renderers compute `EmitScheme` |
| Scanner.SwigBlock | misc/autogencode.py:169-174 | no ensures of its own; `Annotations.BlockEmits` states it is the SWIG text of an accepted block and `Scanner.EmitScheme` where the run writes it |
| Scanner.Generate | misc/autogencode.py:138-174 | no ensures of its own; `Scanner.GenerateChecked`, `Scanner.NoIntroNoOutput`, `Annotations.BlockGenerates` and `Annotations.FileGenerates` state what it yields, and `Scanner.ScanFile` the loop that computes it |
| Scanner.GenerateChecked | misc/autogencode.py:138-174 | every scheme whose name the run prints has passed the check, and in a run that does not fail each of them has entries |
| Scanner.NoIntroNoOutput | misc/autogencode.py:138-149 | a file without intro lines produces nothing and does not fail |
| Scanner.NextScheme | misc/autogencode.py:142-174 | one pass of the outer loop is the first part of `Generate` |
| Scanner.ThenAssociates | misc/autogencode.py:166-174 | writing output part by part does not depend on grouping |
| Scanner.ScanFile | misc/autogencode.py:138-174 | the whole loop computes `Generate` |
| Annotations.IntroOpens | misc/autogencode.py:143-148 | a block's intro line opens a scheme of its role and name, documented by the intro text plus a newline |
| Annotations.DocLinesPhase | misc/autogencode.py:150-153 | the doc lines of a block are all consumed, adding their texts, and the phase stops at the header line |
| Annotations.HeaderStep | misc/autogencode.py:162-164 | the header line sets the header and nothing else |
| Annotations.EntryStep | misc/autogencode.py:156-158 | an entry line appends the argument without its constant |
| Annotations.ConstantStep | misc/autogencode.py:159-161 | a constant line gives the last argument its constant |
| Annotations.CloseBody | misc/autogencode.py:155 | the closing line `<any text>};` ends the body without changing the scheme, and scanning resumes after it |
| Annotations.ArgLinesBody | misc/autogencode.py:155-165 | the argument lines add the block's entries, in order, with their constants |
| Annotations.BlockParses | misc/autogencode.py:145-165 | after its intro line, a well-formed block parses to exactly its scheme, and parsing stops right after the block; a well-formed block has any whitespace before `{`, any whitespace indentation on its entry documentation lines and any text before `};` |
| Annotations.BlockGenerates | misc/autogencode.py:138-174 | a file starting with a well-formed block is that block's output followed by the rest of the file's output |
| Annotations.BlockEmits | misc/autogencode.py:166-174 | an accepted block's scheme passes the check and yields its C++ helper and its SWIG text around the Python wrapper |
| Annotations.FileGenerates | misc/autogencode.py:138-174 | a file of well-formed, accepted blocks, each with its own layout, yields one scheme per block, in file order, with no failure |
| Annotations.EntryBeforeHeader | misc/autogencode.py:150-161 | an entry line and its constant line right after the intro line end the run with the `addEnum` exception |
| Strings.SplitJoinThen | misc/autogencode.py:76 | lines joined by newlines and closed by one split back into those lines, followed by the lines of what comes after |
| Strings.SplitJoin | misc/autogencode.py:80-86 | splitting items joined by a separator they do not contain gives back the items |
| Strings.DecimalRoundTrip | misc/autogencode.py:72 | `str(n)` reads back as `n` |

## Left out

- `locate` (lines 9-16) and the directory walk (line 136) are left out: the model scans one file given as its lines. Opening the files, the license header (lines 127-135) and the footer (line 176) are file I/O, also left out. `Generate` returns the text appended per file instead of writing it.
- `print p.name` (line 167) is modelled as the list of schemes in `Generated`, not as output.
- `__str__` (lines 54-56) is used by nothing in the generator.
- The class attributes `PRE` and `tp` (lines 118-119, 123-124) are read by nothing.
- The `prefix` computed in `checkconsistency` (line 64) is never used. The assertion `enum.startswith(enum)` (line 67) always holds. Neither affects the verdict.
- Python `re` in general is left out: the model has one hand-written classifier per pattern.
- Python 2 `str` values are modelled as sequences of characters, not bytes. No encoding is modelled.
- The generated files `autogenerated.hpp` and `autogenerated.i`, and the headers that are scanned, are not part of this model.
- Scanner.Generate: where the original never terminates (end of file inside a scheme body), the model returns the `Unterminated` failure instead.
- Emitters.CppText: a scheme without entries gets the same text the original builds (`s[:-1]` then cuts the `(`), but nothing is proved about that text, because the run aborts in `pycode` right after it.
