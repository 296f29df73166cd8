/**
 * Annotation blocks as the generator expects them in a header file:
 *
 *   /// Input arguments of an ODE/DAE function [daeIn]
 *   /// further documentation
 *   enum DAEInput {
 *     /// Differential state [x]
 *     DAE_X,
 *   ...
 *     DAE_NUM_IN};
 *
 * The whitespace before `{`, the indentation of the argument documentation
 * lines and the text before `};` are free; they are parts of the block.
 *
 * A block is built from its parts; the lemmas here state what the scanner
 * makes of its lines: the scheme with those parts, in order, and the output
 * written for it. They also state what becomes of a block whose entry lines
 * come right after the intro line, before any header.
 */
module Annotations {
  import opened Common
  import opened Strings
  import opened Schemes
  import opened Patterns
  import opened Consistency
  import opened Emitters
  import opened Scanner

  /**
   * One argument of a block: its documentation line, behind `indent`, names
   * it; the next line gives its constant.
   */
  datatype Arg = Arg(indent: string, name: string, doc: string, constant: string)

  /**
   * The parts of an annotation block: `gap` is the whitespace between the
   * header's name and `{`, `closer` the text in front of `};`.
   */
  datatype Block = Block(role: Role, summary: string, name: string, docs: seq<string>,
                         header: string, gap: string, args: seq<Arg>, closer: string)

  function IntroLine(b: Block): string
  {
    "/// " + Marker(b.role) + " " + b.summary + " [" + b.name + "]"
  }

  function DocLines(docs: seq<string>): (r: seq<string>)
    ensures |r| == |docs|
  {
    seq(|docs|, i requires 0 <= i < |docs| => "/// " + docs[i])
  }

  function HeaderLine(b: Block): string
  {
    "enum " + b.header + b.gap + "{"
  }

  function EntryLine(a: Arg): string
  {
    a.indent + "/// " + a.doc + " [" + a.name + "]"
  }

  function ConstantLine(a: Arg): string
  {
    "  " + a.constant + ","
  }

  function ArgLines(args: seq<Arg>): seq<string>
  {
    if |args| == 0 then [] else [EntryLine(args[0]), ConstantLine(args[0])] + ArgLines(args[1..])
  }

  function CloseLine(b: Block): string
  {
    b.closer + "};"
  }

  /** The lines of a block, intro line first, closing line last. */
  function BlockLines(b: Block): seq<string>
  {
    [IntroLine(b)] + DocLines(b.docs) + [HeaderLine(b)] + ArgLines(b.args) + [CloseLine(b)]
  }

  /** A documentation text that `\s*` leaves whole: empty, or not starting with whitespace. */
  predicate DocText(d: string)
  {
    |d| == 0 || !IsSpace(d[0])
  }

  predicate ArgWellFormed(a: Arg)
  {
    Blank(a.indent, 0, |a.indent|) && IsWord(a.name) && IsWord(a.constant) && DocText(a.doc) && '}' !in a.doc
  }

  /**
   * The block reads back as written: names, header and constants are
   * identifiers, the gap before `{` and the indentation are whitespace,
   * documentation texts keep their first character, and no argument
   * documentation holds a `}` that could close the enum early.
   */
  predicate WellFormed(b: Block)
  {
    && IsWord(b.name) && IsWord(b.header) && Blank(b.gap, 0, |b.gap|)
    && (forall i :: 0 <= i < |b.docs| ==> DocText(b.docs[i]))
    && (forall i :: 0 <= i < |b.args| ==> ArgWellFormed(b.args[i]))
  }

  /** The documentation the doc lines add. */
  function DocsText(docs: seq<string>): string
  {
    if |docs| == 0 then "" else docs[0] + "\n" + DocsText(docs[1..])
  }

  function Entries(args: seq<Arg>): (r: seq<Entry>)
    ensures |r| == |args|
  {
    seq(|args|, i requires 0 <= i < |args| => Entry(args[i].name, args[i].doc, Some(args[i].constant)))
  }

  /** The scheme a block describes. */
  function SchemeOf(b: Block): Scheme
  {
    Scheme(b.role, b.name, Marker(b.role) + " " + b.summary + "\n" + DocsText(b.docs), Some(b.header), Entries(b.args))
  }

  /** The intro line opens a scheme of the block's role and name, documented by the intro text. */
  lemma IntroOpens(b: Block)
    requires IsWord(b.name)
    ensures IntroOf(IntroLine(b)) == Some(Intro(b.role, b.name, Marker(b.role) + " " + b.summary))
    ensures Opened(Intro(b.role, b.name, Marker(b.role) + " " + b.summary))
         == Scheme(b.role, b.name, Marker(b.role) + " " + b.summary + "\n", None, [])
  {
    IntroLineMatch(b.role, b.summary, b.name);
  }

  /** The header line names the enum, and is neither documentation nor a terminator. */
  lemma HeaderStep(b: Block, s: Scheme)
    requires IsWord(b.header) && Blank(b.gap, 0, |b.gap|)
    ensures DocRaw(HeaderLine(b)) == None && !IsEnd(HeaderLine(b))
    ensures Step(s, HeaderLine(b)) == Ok(s.WithHeader(b.header))
  {
    var line := HeaderLine(b);
    var j := 5 + |b.header|;
    assert '/' !in line && '}' !in line by {
      forall k | 0 <= k < |line|
        ensures line[k] != '/' && line[k] != '}'
      {
        if 5 <= k < j {
          assert line[k] == b.header[k - 5];
        } else if j <= k < j + |b.gap| {
          assert line[k] == b.gap[k - j];
        }
      }
    }
    NoSlashNoDoc(line);
    NoBraceNoEnd(line);
    EnumHeaderLine(b.header, b.gap);
    assert line[4] == ' ';
    WordRunIs(line, 0, 4);
  }

  /** The closing line is a terminator. */
  lemma CloseIsEnd(b: Block)
    ensures IsEnd(CloseLine(b))
  {
    EndSplice(b.closer, "", "");
    assert b.closer + "}" + "" + ";" + "" == CloseLine(b);
  }

  /** No identifier contains a character outside `\w`. */
  lemma WordLacks(w: string, c: char)
    requires IsWord(w) && !IsWordChar(c)
    ensures c !in w
  {
  }

  /** A line that only names an argument adds its entry. */
  lemma StepArgOnly(s: Scheme, line: string, doc: string, w: string)
    requires DocEntry(line) == Some((doc, w)) && EnumItem(line).None? && EnumHeader(line).None?
    ensures Step(s, line) == Ok(s.WithArg(w, doc))
  {
  }

  /** A line that only gives a constant hands it to `WithEnum`. */
  lemma StepEnumOnly(s: Scheme, line: string, c: string)
    requires DocEntry(line).None? && EnumItem(line) == Some(c) && EnumHeader(line).None?
    ensures Step(s, line) == s.WithEnum(c)
  {
  }

  /** Whitespace holds no character that is not whitespace. */
  lemma BlankLacks(w: string, c: char)
    requires Blank(w, 0, |w|) && !IsSpace(c)
    ensures c !in w
  {
  }

  /** A line whose first character after its indentation is `/` is neither an enum member nor an enum header. */
  lemma SlashLineNoItem(indent: string, rest: string)
    requires Blank(indent, 0, |indent|) && |rest| > 0 && rest[0] == '/'
    ensures EnumItem(indent + rest).None? && EnumHeader(indent + rest).None?
  {
    var line := indent + rest;
    forall k | 0 <= k < |indent|
      ensures IsSpace(line[k])
    {
      assert line[k] == indent[k];
    }
    assert line[|indent|] == '/';
    SpaceRunIs(line, 0, |indent|);
    WordRunIs(line, |indent|, 0);
    assert line[0] == if |indent| > 0 then indent[0] else '/';
    assert !StartsWith(line, "enum ");
  }

  /** An argument's documentation line adds its entry, still without a constant. */
  lemma EntryStep(a: Arg, s: Scheme)
    requires ArgWellFormed(a)
    ensures !IsEnd(EntryLine(a))
    ensures Step(s, EntryLine(a)) == Ok(s.WithArg(a.name, a.doc))
  {
    var entry := EntryLine(a);
    var rest := "/// " + a.doc + " [" + a.name + "]";
    WordLacks(a.name, '}');
    BlankLacks(a.indent, '}');
    BlankLacks(a.indent, '/');
    assert entry == a.indent + rest;
    assert '}' !in entry;
    NoBraceNoEnd(entry);
    DocEntryLine(a.indent, a.doc, a.name);
    SlashLineNoItem(a.indent, rest);
    StepArgOnly(s, entry, a.doc, a.name);
  }

  /** An argument's constant line gives the entry just added its constant. */
  lemma ConstantStep(a: Arg, s: Scheme)
    requires ArgWellFormed(a)
    ensures !IsEnd(ConstantLine(a))
    ensures Step(s.WithArg(a.name, a.doc), ConstantLine(a))
         == Ok(s.(entries := s.entries + [Entry(a.name, a.doc, Some(a.constant))]))
  {
    var constant := ConstantLine(a);
    WordLacks(a.constant, '}');
    WordLacks(a.constant, '/');
    assert '}' !in constant && '/' !in constant;
    NoBraceNoEnd(constant);
    NoSlashNoDoc(constant);
    EnumItemLine("  ", a.constant);
    assert !StartsWith(constant, "enum ");
    var t := s.WithArg(a.name, a.doc);
    StepEnumOnly(t, constant, a.constant);
    assert t.entries[..|t.entries| - 1] == s.entries;
  }

  /** Body: a line that is not a terminator is stepped over. */
  lemma BodyStep(lines: seq<string>, s: Scheme, t: Scheme)
    requires |lines| > 0 && !IsEnd(lines[0]) && Step(s, lines[0]) == Ok(t)
    ensures Body(lines, s) == Body(lines[1..], t)
  {
  }

  lemma DocLinesCons(docs: seq<string>, after: seq<string>)
    requires |docs| > 0
    ensures (DocLines(docs) + after)[0] == "/// " + docs[0]
    ensures (DocLines(docs) + after)[1..] == DocLines(docs[1..]) + after
  {
    assert DocLines(docs) == ["/// " + docs[0]] + DocLines(docs[1..]);
  }

  /**
   * The doc lines of a block are read in the doc phase, each adding its text
   * and a newline, and the phase stops at the first line after them.
   */
  lemma {:induction false} DocLinesPhase(docs: seq<string>, s: Scheme, after: seq<string>)
    requires forall i :: 0 <= i < |docs| ==> DocText(docs[i])
    requires |after| == 0 || DocRaw(after[0]).None?
    ensures DocPhase(DocLines(docs) + after, s) == (s.(doc := s.doc + DocsText(docs)), after)
  {
    if |docs| == 0 {
      assert DocLines(docs) + after == after;
      assert s.doc + DocsText(docs) == s.doc;
    } else {
      DocLinesCons(docs, after);
      DocRawLine(docs[0]);
      DocLinesPhase(docs[1..], s.WithDoc(docs[0]), after);
      Regroup(s.doc, docs[0], "\n", DocsText(docs[1..]));
    }
  }

  lemma ArgLinesCons(args: seq<Arg>, tail: seq<string>)
    requires |args| > 0
    ensures (ArgLines(args) + tail)[0] == EntryLine(args[0])
    ensures (ArgLines(args) + tail)[1..][0] == ConstantLine(args[0])
    ensures (ArgLines(args) + tail)[1..][1..] == ArgLines(args[1..]) + tail
  {
    AppendAssoc([EntryLine(args[0]), ConstantLine(args[0])], ArgLines(args[1..]), tail);
  }

  lemma EntriesCons(args: seq<Arg>)
    requires |args| > 0
    ensures Entries(args) == [Entry(args[0].name, args[0].doc, Some(args[0].constant))] + Entries(args[1..])
  {
  }

  /**
   * The argument lines of a block are stepped over in pairs, each pair adding
   * one complete entry, in the order of the arguments.
   */
  lemma {:induction false} ArgLinesBody(args: seq<Arg>, s: Scheme, tail: seq<string>)
    requires forall i :: 0 <= i < |args| ==> ArgWellFormed(args[i])
    ensures Body(ArgLines(args) + tail, s) == Body(tail, s.(entries := s.entries + Entries(args)))
  {
    if |args| == 0 {
      assert ArgLines(args) + tail == tail;
      assert s.entries + Entries(args) == s.entries;
    } else {
      var a := args[0];
      var lines := ArgLines(args) + tail;
      var u := s.(entries := s.entries + [Entry(a.name, a.doc, Some(a.constant))]);
      ArgLinesCons(args, tail);
      EntryStep(a, s);
      ConstantStep(a, s);
      BodyStep(lines, s, s.WithArg(a.name, a.doc));
      BodyStep(lines[1..], s.WithArg(a.name, a.doc), u);
      ArgLinesBody(args[1..], u, tail);
      EntriesCons(args);
      AppendAssoc(s.entries, [Entry(a.name, a.doc, Some(a.constant))], Entries(args[1..]));
    }
  }

  /** The closing line ends the body, with the lines after it left over. */
  lemma CloseBody(b: Block, s: Scheme, rest: seq<string>)
    ensures Body([CloseLine(b)] + rest, s) == Ok((s, rest))
  {
    CloseIsEnd(b);
    assert ([CloseLine(b)] + rest)[1..] == rest;
  }

  lemma BlockLinesSplit(b: Block, rest: seq<string>)
    ensures (BlockLines(b) + rest)[0] == IntroLine(b)
    ensures (BlockLines(b) + rest)[1..]
         == DocLines(b.docs) + ([HeaderLine(b)] + (ArgLines(b.args) + ([CloseLine(b)] + rest)))
  {
    var lines := BlockLines(b) + rest;
    assert lines == [IntroLine(b)] + (DocLines(b.docs) + ([HeaderLine(b)] + (ArgLines(b.args) + ([CloseLine(b)] + rest))));
  }

  /** After the intro line, a block's lines parse to its scheme, and parsing stops right after the block. */
  lemma BlockParses(b: Block, rest: seq<string>)
    requires WellFormed(b)
    ensures ParseScheme(Intro(b.role, b.name, Marker(b.role) + " " + b.summary), (BlockLines(b) + rest)[1..])
         == Ok((SchemeOf(b), rest))
  {
    var intro := Intro(b.role, b.name, Marker(b.role) + " " + b.summary);
    var start := Opened(intro);
    var closing := [CloseLine(b)] + rest;
    var body := [HeaderLine(b)] + (ArgLines(b.args) + closing);
    BlockLinesSplit(b, rest);
    HeaderStep(b, start);
    DocLinesPhase(b.docs, start, body);
    var documented := start.(doc := start.doc + DocsText(b.docs));
    HeaderStep(b, documented);
    assert body[1..] == ArgLines(b.args) + closing;
    BodyStep(body, documented, documented.WithHeader(b.header));
    ArgLinesBody(b.args, documented.WithHeader(b.header), closing);
    var filled := documented.WithHeader(b.header).(entries := [] + Entries(b.args));
    CloseBody(b, filled, rest);
    assert [] + Entries(b.args) == Entries(b.args);
    Regroup(Marker(b.role), " ", b.summary, "\n");
  }

  /**
   * Round trip: a file that starts with a block is the block's output
   * followed by the output of the rest of the file.
   */
  lemma BlockGenerates(b: Block, rest: seq<string>)
    requires WellFormed(b)
    ensures Generate(BlockLines(b) + rest) == Then(EmitScheme(SchemeOf(b)), Generate(rest))
  {
    BlockLinesSplit(b, rest);
    IntroOpens(b);
    BlockParses(b, rest);
  }

  /** What `checkconsistency` demands of a block: a header of its role, no `_NUM_` constant; `pycode` wants an argument. */
  predicate Accepted(b: Block)
  {
    && |b.args| > 0
    && EndsWith(b.header, RoleName(b.role))
    && (forall i :: 0 <= i < |b.args| ==> !Contains(b.args[i].constant, CountMarker))
  }

  /** An accepted block's scheme passes the check and yields its C++ helper, Python wrapper and SWIG lines. */
  lemma BlockEmits(b: Block)
    requires Accepted(b)
    ensures Verdict(SchemeOf(b)).None?
    ensures EmitScheme(SchemeOf(b))
         == Generated([SchemeOf(b)], CppText(SchemeOf(b)), SwigBlock(PyText(SchemeOf(b)).value, SchemeOf(b)), None)
  {
    var s := SchemeOf(b);
    assert forall i :: 0 <= i < |s.entries| ==> s.entries[i].enumConst == Some(b.args[i].constant);
  }

  /** An accepted block adds its scheme, and no failure, to the run. */
  lemma BlockSucceeds(b: Block)
    requires Accepted(b)
    ensures EmitScheme(SchemeOf(b)).failure.None? && EmitScheme(SchemeOf(b)).schemes == [SchemeOf(b)]
  {
    BlockEmits(b);
  }

  /** After a part without failure, the run's schemes are the part's followed by the rest's. */
  lemma ThenAfterSuccess(g: Generated, h: Generated)
    requires g.failure.None?
    ensures Then(g, h).failure == h.failure && Then(g, h).schemes == g.schemes + h.schemes
  {
  }

  /** The lines of a file made of blocks, one after the other. */
  function FileLines(bs: seq<Block>): seq<string>
  {
    if |bs| == 0 then [] else BlockLines(bs[0]) + FileLines(bs[1..])
  }

  /** The schemes the blocks describe, in order. */
  function SchemesOf(bs: seq<Block>): (r: seq<Scheme>)
    ensures |r| == |bs|
  {
    if |bs| == 0 then [] else [SchemeOf(bs[0])] + SchemesOf(bs[1..])
  }

  /** Every block of the file is well-formed and accepted. */
  predicate AllAccepted(bs: seq<Block>)
  {
    |bs| == 0 || (WellFormed(bs[0]) && Accepted(bs[0]) && AllAccepted(bs[1..]))
  }

  /**
   * A file of well-formed, accepted blocks generates one scheme per block, in
   * the order of the file, and ends without failure.
   */
  lemma {:induction false} FileGenerates(bs: seq<Block>)
    requires AllAccepted(bs)
    ensures Generate(FileLines(bs)).failure.None?
    ensures Generate(FileLines(bs)).schemes == SchemesOf(bs)
  {
    if |bs| > 0 {
      var emitted := EmitScheme(SchemeOf(bs[0]));
      var later := Generate(FileLines(bs[1..]));
      BlockGenerates(bs[0], FileLines(bs[1..]));
      BlockSucceeds(bs[0]);
      FileGenerates(bs[1..]);
      ThenAfterSuccess(emitted, later);
    }
  }

  lemma DropFirstOfThree<T>(x: T, y: T, z: T, rest: seq<T>)
    ensures ([x, y, z] + rest)[0] == x && ([x, y, z] + rest)[1..] == [y, z] + rest
  {
  }

  /** A documentation line followed by a line that is not one: the doc phase takes the first only. */
  lemma OneDocLine(s: Scheme, first: string, second: string, rest: seq<string>)
    requires DocRaw(first).Some? && DocRaw(second).None?
    ensures DocPhase([first, second] + rest, s) == (s.WithDoc(DocRaw(first).value), [second] + rest)
  {
    var lines := [first, second] + rest;
    assert lines[0] == first && lines[1..] == [second] + rest;
  }

  /** A constant line before any entry ends the body with the exception `addEnum` raises. */
  lemma ConstantWithoutEntry(s: Scheme, a: Arg, rest: seq<string>)
    requires IsWord(a.constant) && |s.entries| == 0
    ensures DocRaw(ConstantLine(a)).None?
    ensures Body([ConstantLine(a)] + rest, s) == Err(NoEntryForEnum(a.constant))
  {
    var constant := ConstantLine(a);
    WordLacks(a.constant, '}');
    WordLacks(a.constant, '/');
    assert '}' !in constant && '/' !in constant;
    NoBraceNoEnd(constant);
    NoSlashNoDoc(constant);
    EnumItemLine("  ", a.constant);
    assert !StartsWith(constant, "enum ");
    StepEnumOnly(s, constant, a.constant);
    assert ([constant] + rest)[0] == constant;
  }

  /**
   * An entry line and its constant line right after the intro line, before
   * any enum header: the doc phase takes the entry line as documentation, so
   * the constant line finds no entry to attach to and the run stops.
   */
  lemma EntryBeforeHeader(b: Block, a: Arg, rest: seq<string>)
    requires IsWord(b.name) && IsWord(a.constant)
    ensures Generate([IntroLine(b), EntryLine(a), ConstantLine(a)] + rest) == Fail(NoEntryForEnum(a.constant))
  {
    var intro := Intro(b.role, b.name, Marker(b.role) + " " + b.summary);
    IntroOpens(b);
    EntryLineIsDoc(a);
    EntryThenConstant(intro, a, rest);
    DropFirstOfThree(IntroLine(b), EntryLine(a), ConstantLine(a), rest);
  }

  /** An entry documentation line contains `///`. */
  lemma EntryLineIsDoc(a: Arg)
    ensures DocRaw(EntryLine(a)).Some?
  {
    assert EntryLine(a)[|a.indent|..|a.indent| + 3] == "///";
    assert OccursAt(EntryLine(a), "///", |a.indent|);
  }

  /** Right after the intro line, an entry line and its constant line make reading the scheme fail. */
  lemma EntryThenConstant(intro: Intro, a: Arg, rest: seq<string>)
    requires IsWord(a.constant) && DocRaw(EntryLine(a)).Some?
    ensures ParseScheme(intro, [EntryLine(a), ConstantLine(a)] + rest) == Err(NoEntryForEnum(a.constant))
  {
    var start := Opened(intro);
    ConstantWithoutEntry(start.WithDoc(DocRaw(EntryLine(a)).value), a, rest);
    OneDocLine(start, EntryLine(a), ConstantLine(a), rest);
  }
}
