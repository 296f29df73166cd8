/**
 * The scanning loop of the generator over the lines of one header file.
 *
 * An intro line (`/// Input arguments ... [name]`) opens a scheme. The lines
 * right after it that contain `///` are its documentation (the doc phase).
 * Every following line up to the first one that matches `}\s*;` is a body
 * line: it may add an argument, give the last argument its enum constant,
 * or name the enum. The terminator line is consumed without being looked at.
 * The finished scheme is checked and rendered, and scanning goes on after
 * the terminator. An exception aborts the run; what was written before it
 * stays written.
 *
 * `DocPhase`, `Body` and `Generate` say what the loop computes, as functions
 * over the lines still to be read; `ScanFile` is the loop itself.
 */
module Scanner {
  import opened Common
  import opened Strings
  import opened Schemes
  import opened Patterns
  import opened Consistency
  import opened Emitters

  /** The documentation lines' texts, each followed by a newline. */
  function DocTexts(lines: seq<string>): string
    requires forall k :: 0 <= k < |lines| ==> DocRaw(lines[k]).Some?
  {
    if |lines| == 0 then "" else DocRaw(lines[0]).value + "\n" + DocTexts(lines[1..])
  }

  /**
   * The doc phase: every leading line that contains `///` goes to `addDoc`;
   * the result is the scheme and the lines from the first one that does not.
   */
  function DocPhase(lines: seq<string>, s: Scheme): (r: (Scheme, seq<string>))
    ensures |r.1| <= |lines| && r.1 == lines[|lines| - |r.1|..]
    ensures |r.1| == 0 || DocRaw(r.1[0]).None?
    decreases |lines|
  {
    if |lines| == 0 || DocRaw(lines[0]).None? then (s, lines)
    else DocPhase(lines[1..], s.WithDoc(DocRaw(lines[0]).value))
  }

  /**
   * One body line, with the three tests in the loop's order: an entry
   * documentation line adds an argument, an `IDENT,` line gives the last
   * argument its constant, an enum header line sets the header.
   */
  function Step(s: Scheme, line: string): (r: Result<Scheme, Failure>)
    ensures DocEntry(line).None? && EnumItem(line).None? && EnumHeader(line).None? ==> r == Ok(s)
    ensures r.Err? ==> EnumItem(line).Some? && r.error in {NoEntryForEnum(EnumItem(line).value), EnumAlreadyGiven(EnumItem(line).value)}
    ensures r.Ok? ==> r.value.role == s.role && r.value.name == s.name && r.value.doc == s.doc
    ensures r.Ok? ==> |r.value.entries| == |s.entries| + (if DocEntry(line).Some? then 1 else 0)
    ensures r.Ok? ==> r.value.enumHeader == (if EnumHeader(line).Some? then EnumHeader(line) else s.enumHeader)
  {
    var withArg := if DocEntry(line).Some? then s.WithArg(DocEntry(line).value.1, DocEntry(line).value.0) else s;
    var withEnum := if EnumItem(line).Some? then withArg.WithEnum(EnumItem(line).value) else Ok(withArg);
    if withEnum.Err? then withEnum
    else if EnumHeader(line).Some? then Ok(withEnum.value.WithHeader(EnumHeader(line).value))
    else withEnum
  }

  /**
   * The body loop: steps through the lines up to the first terminator and
   * returns the scheme and the lines after the terminator. Without a
   * terminator the original reads empty lines forever; here that is the
   * failure `Unterminated`.
   */
  function Body(lines: seq<string>, s: Scheme): (r: Result<(Scheme, seq<string>), Failure>)
    ensures r.Ok? ==> |r.value.1| < |lines| && r.value.1 == lines[|lines| - |r.value.1|..]
    decreases |lines|
  {
    if |lines| == 0 then Err(Unterminated(s.name))
    else if IsEnd(lines[0]) then Ok((s, lines[1..]))
    else
      match Step(s, lines[0])
      case Err(f) => Err(f)
      case Ok(next) => Body(lines[1..], next)
  }

  /**
   * The body ends right after the first terminator line: no line before it
   * is a terminator, and the scheme keeps its role, name and doc. A body that
   * starts with a terminator leaves the scheme as it is, whatever else that
   * line holds.
   */
  lemma {:induction false} BodyEndsAtTerminator(lines: seq<string>, s: Scheme, t: Scheme, rest: seq<string>)
    requires Body(lines, s) == Ok((t, rest))
    ensures IsEnd(lines[|lines| - |rest| - 1])
    ensures forall k :: 0 <= k < |lines| - |rest| - 1 ==> !IsEnd(lines[k])
    ensures t.role == s.role && t.name == s.name && t.doc == s.doc
    ensures IsEnd(lines[0]) ==> t == s && rest == lines[1..]
    decreases |lines|
  {
    if !IsEnd(lines[0]) {
      var tail, next := lines[1..], Step(s, lines[0]).value;
      BodyEndsAtTerminator(tail, next, t, rest);
      assert tail[|tail| - |rest| - 1] == lines[|lines| - |rest| - 1];
      forall k | 0 <= k < |lines| - |rest| - 1
        ensures !IsEnd(lines[k])
      {
        if k > 0 {
          assert lines[k] == tail[k - 1];
        }
      }
    }
  }

  /**
   * A body fails as unterminated only when none of its lines is a
   * terminator; its other failures are those of `addEnum`.
   */
  lemma {:induction false} BodyFailures(lines: seq<string>, s: Scheme, f: Failure)
    requires Body(lines, s) == Err(f)
    ensures f == Unterminated(s.name) || f.NoEntryForEnum? || f.EnumAlreadyGiven?
    ensures f.Unterminated? ==> forall k :: 0 <= k < |lines| ==> !IsEnd(lines[k])
    decreases |lines|
  {
    if |lines| > 0 && Step(s, lines[0]).Ok? {
      var tail, next := lines[1..], Step(s, lines[0]).value;
      BodyFailures(tail, next, f);
      forall k | 0 <= k < |lines| && f.Unterminated?
        ensures !IsEnd(lines[k])
      {
        if k > 0 {
          assert lines[k] == tail[k - 1];
        }
      }
    }
  }

  /** One body line that is not a terminator: its step, then the rest of the body. */
  lemma BodyUnfold(lines: seq<string>, s: Scheme)
    requires |lines| > 0 && !IsEnd(lines[0])
    ensures Step(s, lines[0]).Err? ==> Body(lines, s) == Err(Step(s, lines[0]).error)
    ensures Step(s, lines[0]).Ok? ==> Body(lines, s) == Body(lines[1..], Step(s, lines[0]).value)
  {
  }

  /**
   * What a run has produced: the schemes that passed the check (the names
   * it prints), the text written to the C++ header and to the SWIG
   * interface, and the failure that stopped it, if any.
   */
  datatype Generated = Generated(schemes: seq<Scheme>, cpp: string, swig: string, failure: Option<Failure>)

  /** Nothing produced, nothing failed. */
  const Nothing := Generated([], "", "", None)

  /** A run that produced nothing more before it failed with `f`. */
  function Fail(f: Failure): Generated
  {
    Generated([], "", "", Some(f))
  }

  /** One part of a run followed by the next; a failure ends the run. */
  function Then(g: Generated, h: Generated): Generated
  {
    if g.failure.Some? then g
    else Generated(g.schemes + h.schemes, g.cpp + h.cpp, g.swig + h.swig, h.failure)
  }

  /** The text the run writes to the SWIG interface for a scheme, around `pycode()` and `swigcode()`. */
  function SwigBlock(py: string, s: Scheme): string
  {
    "%pythoncode %{\n" + py + "%}\n" + "#ifndef SWIGPYTHON\n" + SwigCode(s) + "#endif //SWIGPYTHON\n"
  }

  /**
   * A finished scheme: `checkconsistency`, then the C++ helper, then the
   * Python wrapper and the SWIG lines. `pycode` raises on a scheme without
   * entries, after `%pythoncode %{` has been written.
   */
  function EmitScheme(s: Scheme): (g: Generated)
    ensures g.failure.None? ==> Verdict(s).None? && |s.entries| > 0 && g.schemes == [s]
    ensures forall i :: 0 <= i < |g.schemes| ==> g.schemes[i] == s && Verdict(s).None?
    ensures Verdict(s).Some? ==> g == Fail(Verdict(s).value)
  {
    match Verdict(s)
    case Some(f) => Fail(f)
    case None =>
      match PyText(s)
      case None => Generated([s], CppText(s), "%pythoncode %{\n", Some(NoEntries))
      case Some(py) => Generated([s], CppText(s), SwigBlock(py, s), None)
  }

  /** A new scheme from its intro line: the intro text plus a newline, no header, no entries. */
  function Opened(intro: Intro): Scheme
  {
    Scheme(intro.role, intro.name, intro.doc + "\n", None, [])
  }

  /**
   * A scheme opened by `intro`: its doc phase, then its body. The scheme
   * read keeps the intro's role and name; reading fails only by running out
   * of lines or by `addEnum` raising.
   */
  function ParseScheme(intro: Intro, lines: seq<string>): (r: Result<(Scheme, seq<string>), Failure>)
    ensures r.Ok? ==> r.value.0.role == intro.role && r.value.0.name == intro.name
    ensures r.Err? ==> r.error == Unterminated(intro.name) || r.error.NoEntryForEnum? || r.error.EnumAlreadyGiven?
  {
    var documented := DocPhase(lines, Opened(intro));
    DocPhaseKeeps(lines, Opened(intro));
    var body := Body(documented.1, documented.0);
    if body.Ok? then
      BodyEndsAtTerminator(documented.1, documented.0, body.value.0, body.value.1);
      body
    else
      BodyFailures(documented.1, documented.0, body.error);
      body
  }

  /** A parsed scheme leaves a proper suffix of the lines: at least its terminator is consumed. */
  lemma ParseSchemeShrinks(intro: Intro, lines: seq<string>, t: Scheme, rest: seq<string>)
    requires ParseScheme(intro, lines) == Ok((t, rest))
    ensures |rest| < |lines| && rest == lines[|lines| - |rest|..]
  {
    var documented := DocPhase(lines, Opened(intro));
    assert Body(documented.1, documented.0) == Ok((t, rest));
    SuffixOfSuffix(lines, documented.1, rest);
  }

  /** A suffix of a suffix is a suffix. */
  lemma SuffixOfSuffix<T>(a: seq<T>, b: seq<T>, c: seq<T>)
    requires |b| <= |a| && b == a[|a| - |b|..]
    requires |c| <= |b| && c == b[|b| - |c|..]
    ensures c == a[|a| - |c|..]
  {
  }

  /** Every scheme of `g` has passed the check. */
  predicate AllChecked(g: Generated)
  {
    forall i :: 0 <= i < |g.schemes| ==> Verdict(g.schemes[i]).None?
  }

  /** Every scheme of `g` has entries. */
  predicate AllHaveEntries(g: Generated)
  {
    forall i :: 0 <= i < |g.schemes| ==> |g.schemes[i].entries| > 0
  }

  /** Two parts of a run that keep those properties keep them together. */
  lemma ThenChecked(g: Generated, h: Generated)
    requires AllChecked(g) && AllChecked(h)
    requires g.failure.None? ==> AllHaveEntries(g)
    requires h.failure.None? ==> AllHaveEntries(h)
    ensures AllChecked(Then(g, h))
    ensures Then(g, h).failure.None? ==> AllHaveEntries(Then(g, h))
  {
    if g.failure.None? {
      var both := g.schemes + h.schemes;
      forall i | 0 <= i < |both|
        ensures Verdict(both[i]).None?
        ensures h.failure.None? ==> |both[i].entries| > 0
      {
        if i >= |g.schemes| {
          assert both[i] == h.schemes[i - |g.schemes|];
        }
      }
    }
  }

  /** The whole loop over the lines of one file. */
  function Generate(lines: seq<string>): Generated
    decreases |lines|
  {
    if |lines| == 0 then Nothing
    else
      match IntroOf(lines[0])
      case None => Generate(lines[1..])
      case Some(intro) =>
        match ParseScheme(intro, lines[1..])
        case Err(f) => Fail(f)
        case Ok((finished, after)) =>
          ParseSchemeShrinks(intro, lines[1..], finished, after);
          Then(EmitScheme(finished), Generate(after))
  }

  /**
   * Every scheme whose name a run prints has passed the check, and in a run
   * that does not fail every one of them has entries.
   */
  lemma {:induction false} GenerateChecked(lines: seq<string>)
    ensures AllChecked(Generate(lines))
    ensures Generate(lines).failure.None? ==> AllHaveEntries(Generate(lines))
    decreases |lines|
  {
    if |lines| > 0 {
      match IntroOf(lines[0])
      case None =>
        GenerateChecked(lines[1..]);
      case Some(intro) =>
        match ParseScheme(intro, lines[1..])
        case Err(_) =>
        case Ok((finished, after)) =>
          ParseSchemeShrinks(intro, lines[1..], finished, after);
          GenerateChecked(after);
          ThenChecked(EmitScheme(finished), Generate(after));
    }
  }

  /** A failure-free prefix followed by two parts is the prefix followed by the first, then the second. */
  lemma ThenAssociates(g: Generated, h: Generated, k: Generated)
    requires g.failure.None?
    ensures Then(g, Then(h, k)) == Then(Then(g, h), k)
  {
    if h.failure.None? {
      assert (g.schemes + h.schemes) + k.schemes == g.schemes + (h.schemes + k.schemes);
      assert (g.cpp + h.cpp) + k.cpp == g.cpp + (h.cpp + k.cpp);
      assert (g.swig + h.swig) + k.swig == g.swig + (h.swig + k.swig);
    }
  }

  /**
   * The doc phase appends, in order, the text of every line it consumes,
   * each followed by a newline. (The requirement always holds; see
   * `DocPhaseConsumes`.)
   */
  lemma {:induction false} DocPhaseAppends(lines: seq<string>, s: Scheme)
    requires forall k :: 0 <= k < |lines| - |DocPhase(lines, s).1| ==> DocRaw(lines[k]).Some?
    ensures DocPhase(lines, s).0.doc == s.doc + DocTexts(lines[..|lines| - |DocPhase(lines, s).1|])
    decreases |lines|
  {
    if |lines| > 0 && DocRaw(lines[0]).Some? {
      var text := DocRaw(lines[0]).value;
      var next := s.WithDoc(text);
      var r := DocPhase(lines[1..], next);
      assert DocPhase(lines, s) == r;
      var n := |lines| - |r.1|;
      DocPhaseConsumes(lines[1..], next);
      DocPhaseAppends(lines[1..], next);
      DocTextsFirst(lines, n);
      Regroup(s.doc, text, "\n", DocTexts(lines[1..][..n - 1]));
    } else {
      assert lines[..0] == [];
      assert s.doc + "" == s.doc;
    }
  }

  /** The doc phase changes nothing but the documentation. */
  lemma {:induction false} DocPhaseKeeps(lines: seq<string>, s: Scheme)
    ensures DocPhase(lines, s).0.(doc := s.doc) == s
    decreases |lines|
  {
    if |lines| > 0 && DocRaw(lines[0]).Some? {
      var next := s.WithDoc(DocRaw(lines[0]).value);
      DocPhaseKeeps(lines[1..], next);
      assert DocPhase(lines[1..], next).0.(doc := next.doc) == next;
    }
  }

  /** Every line the doc phase consumes contains `///`. */
  lemma {:induction false} DocPhaseConsumes(lines: seq<string>, s: Scheme)
    ensures forall k :: 0 <= k < |lines| - |DocPhase(lines, s).1| ==> DocRaw(lines[k]).Some?
    decreases |lines|
  {
    if |lines| > 0 && DocRaw(lines[0]).Some? {
      var next := s.WithDoc(DocRaw(lines[0]).value);
      var rest := DocPhase(lines[1..], next).1;
      assert DocPhase(lines, s).1 == rest;
      DocPhaseConsumes(lines[1..], next);
      forall k | 0 <= k < |lines| - |rest|
        ensures DocRaw(lines[k]).Some?
      {
        if k > 0 {
          assert lines[k] == lines[1..][k - 1];
        }
      }
    } else {
      assert DocPhase(lines, s).1 == lines;
    }
  }

  /** The documentation of the first `n` lines starts with the first line's text. */
  lemma DocTextsFirst(lines: seq<string>, n: nat)
    requires 0 < n <= |lines|
    requires forall k :: 0 <= k < n ==> DocRaw(lines[k]).Some?
    ensures DocTexts(lines[..n]) == DocRaw(lines[0]).value + "\n" + DocTexts(lines[1..][..n - 1])
  {
    assert lines[..n][1..] == lines[1..][..n - 1];
  }

  /** The argument names the entry documentation lines among `lines` give, in order. */
  function EntryWords(lines: seq<string>): seq<string>
  {
    if |lines| == 0 then []
    else (if DocEntry(lines[0]).Some? then [DocEntry(lines[0]).value.1] else []) + EntryWords(lines[1..])
  }

  /** The header the last enum header line among `lines` names, or `h` if there is none. */
  function LastHeader(lines: seq<string>, h: Option<string>): Option<string>
  {
    if |lines| == 0 then h
    else LastHeader(lines[1..], if EnumHeader(lines[0]).Some? then EnumHeader(lines[0]) else h)
  }

  /** A body line adds at most one entry, at the end, named by the bracketed word. */
  lemma StepNames(s: Scheme, line: string)
    requires Step(s, line).Ok?
    ensures Names(Step(s, line).value.entries)
         == Names(s.entries) + (if DocEntry(line).Some? then [DocEntry(line).value.1] else [])
  {
    var withArg := if DocEntry(line).Some? then s.WithArg(DocEntry(line).value.1, DocEntry(line).value.0) else s;
    if DocEntry(line).Some? {
      NamesWithArg(s, DocEntry(line).value.1, DocEntry(line).value.0);
    } else {
      assert Names(s.entries) + [] == Names(s.entries);
    }
    if EnumItem(line).Some? {
      NamesWithEnum(withArg, EnumItem(line).value);
    }
  }

  /** `addArg` appends the argument's name. */
  lemma NamesWithArg(s: Scheme, name: string, doc: string)
    ensures Names(s.WithArg(name, doc).entries) == Names(s.entries) + [name]
  {
  }

  /** `addEnum` leaves the names as they are. */
  lemma NamesWithEnum(s: Scheme, c: string)
    requires s.WithEnum(c).Ok?
    ensures Names(s.WithEnum(c).value.entries) == Names(s.entries)
  {
    var t := s.WithEnum(c).value;
    forall i | 0 <= i < |t.entries|
      ensures t.entries[i].name == s.entries[i].name
    {
      if i < |s.entries| - 1 {
        assert t.entries[..|s.entries| - 1][i] == s.entries[..|s.entries| - 1][i];
      }
    }
  }

  /**
   * The body keeps the entries in source order: the names of the finished
   * scheme are the earlier names followed by the bracketed words of the entry
   * documentation lines before the terminator, and its header is the one the
   * last header line names.
   */
  lemma {:induction false} BodyKeepsOrder(lines: seq<string>, s: Scheme, t: Scheme, rest: seq<string>)
    requires Body(lines, s) == Ok((t, rest))
    ensures Names(t.entries) == Names(s.entries) + EntryWords(lines[..|lines| - |rest| - 1])
    ensures t.enumHeader == LastHeader(lines[..|lines| - |rest| - 1], s.enumHeader)
    decreases |lines|
  {
    var n := |lines| - |rest| - 1;
    if IsEnd(lines[0]) {
      assert lines[..n] == [];
      assert Names(s.entries) + [] == Names(s.entries);
    } else {
      var next := Step(s, lines[0]).value;
      BodyKeepsOrder(lines[1..], next, t, rest);
      StepNames(s, lines[0]);
      BodyLinesFirst(lines, n);
      AppendAssoc(Names(s.entries), if DocEntry(lines[0]).Some? then [DocEntry(lines[0]).value.1] else [],
                  EntryWords(lines[1..][..n - 1]));
    }
  }

  /** The words and the last header of the first `n` lines, from the first line and the rest. */
  lemma BodyLinesFirst(lines: seq<string>, n: nat)
    requires 0 < n <= |lines|
    ensures EntryWords(lines[..n])
         == (if DocEntry(lines[0]).Some? then [DocEntry(lines[0]).value.1] else []) + EntryWords(lines[1..][..n - 1])
    ensures forall h :: (LastHeader(lines[..n], h)
         == LastHeader(lines[1..][..n - 1], if EnumHeader(lines[0]).Some? then EnumHeader(lines[0]) else h))
  {
    assert lines[..n][1..] == lines[1..][..n - 1];
  }

  /** A file without intro lines produces nothing and does not fail. */
  lemma {:induction false} NoIntroNoOutput(lines: seq<string>)
    requires forall k :: 0 <= k < |lines| ==> IntroOf(lines[k]).None?
    ensures Generate(lines) == Nothing
    decreases |lines|
  {
    if |lines| > 0 {
      assert forall k :: 0 <= k < |lines| - 1 ==> lines[1..][k] == lines[k + 1];
      NoIntroNoOutput(lines[1..]);
    }
  }

  /** The doc phase of the loop: reads documentation lines from index `i` into `p`. */
  method ReadDocs(p: Enum, lines: seq<string>, i: nat) returns (j: nat)
    requires i <= |lines|
    modifies p
    ensures i <= j <= |lines|
    ensures DocPhase(lines[i..], old(p.Value())) == (p.Value(), lines[j..])
  {
    j := i;
    while j < |lines| && DocRaw(lines[j]).Some?
      invariant i <= j <= |lines|
      invariant DocPhase(lines[j..], p.Value()) == DocPhase(lines[i..], old(p.Value()))
      decreases |lines| - j
    {
      assert lines[j..][1..] == lines[j + 1..];
      p.AddDoc(DocRaw(lines[j]).value);
      j := j + 1;
    }
  }

  /** One pass of the body loop: the three tests on `line`, applied to `p`. */
  method StepLine(p: Enum, line: string) returns (failure: Option<Failure>)
    modifies p
    ensures failure.Some? ==> Step(old(p.Value()), line) == Err(failure.value)
    ensures failure.None? ==> Step(old(p.Value()), line) == Ok(p.Value())
  {
    var entry := DocEntry(line);
    if entry.Some? {
      p.AddArg(entry.value.1, entry.value.0);
    }
    var item := EnumItem(line);
    if item.Some? {
      failure := p.AddEnum(item.value);
      if failure.Some? {
        return;
      }
    }
    var header := EnumHeader(line);
    if header.Some? {
      p.AddEnumheader(header.value);
    }
    failure := None;
  }

  /**
   * The body loop from index `i`: steps through the lines until a
   * terminator or the end of the lines, or until a step fails.
   */
  method StepUntilEnd(p: Enum, lines: seq<string>, i: nat) returns (j: nat, failure: Option<Failure>)
    requires i <= |lines|
    modifies p
    ensures failure.Some? ==> Body(lines[i..], old(p.Value())) == Err(failure.value)
    ensures failure.None? ==> i <= j <= |lines| && (j == |lines| || IsEnd(lines[j]))
    ensures failure.None? ==> Body(lines[i..], old(p.Value())) == Body(lines[j..], p.Value())
  {
    j := i;
    while j < |lines| && !IsEnd(lines[j])
      invariant i <= j <= |lines|
      invariant Body(lines[j..], p.Value()) == Body(lines[i..], old(p.Value()))
      decreases |lines| - j
    {
      assert lines[j..][1..] == lines[j + 1..];
      BodyUnfold(lines[j..], p.Value());
      failure := StepLine(p, lines[j]);
      if failure.Some? {
        return;
      }
      j := j + 1;
    }
    failure := None;
  }

  /**
   * The body from index `i`: returns the index after the terminator, or the
   * failure; running out of lines is `Unterminated`.
   */
  method ReadBody(p: Enum, lines: seq<string>, i: nat) returns (j: nat, failure: Option<Failure>)
    requires i <= |lines|
    modifies p
    ensures failure.Some? ==> Body(lines[i..], old(p.Value())) == Err(failure.value)
    ensures failure.None? ==> i < j <= |lines| && Body(lines[i..], old(p.Value())) == Ok((p.Value(), lines[j..]))
  {
    j, failure := StepUntilEnd(p, lines, i);
    if failure.Some? {
      return;
    }
    if j == |lines| {
      assert lines[j..] == [];
      return j, Some(Unterminated(p.name));
    }
    assert lines[j..][1..] == lines[j + 1..];
    return j + 1, None;
  }

  /** A finished scheme: check, `cppcode`, then the SWIG interface text around `pycode` and `swigcode`. */
  method Emit(s: Scheme) returns (g: Generated)
    ensures g == EmitScheme(s)
  {
    var verdict := CheckConsistency(s);
    if verdict.Some? {
      return Fail(verdict.value);
    }
    var helper := CppCode(s);
    var wrapper := PyCode(s);
    if wrapper.None? {
      return Generated([s], helper, "%pythoncode %{\n", Some(NoEntries));
    }
    return Generated([s], helper, SwigBlock(wrapper.value, s), None);
  }

  /** From an intro line to the line after the terminator, with a new `Enum` object. */
  method ReadScheme(intro: Intro, lines: seq<string>, i: nat) returns (r: Result<(Scheme, nat), Failure>)
    requires i <= |lines|
    ensures r.Err? ==> ParseScheme(intro, lines[i..]) == Err(r.error)
    ensures r.Ok? ==> i < r.value.1 <= |lines| && ParseScheme(intro, lines[i..]) == Ok((r.value.0, lines[r.value.1..]))
  {
    var p := new Enum(intro.role, intro.name, intro.doc);
    assert p.Value() == Opened(intro);
    var j := ReadDocs(p, lines, i);
    var k, failure := ReadBody(p, lines, j);
    if failure.Some? {
      return Err(failure.value);
    }
    return Ok((p.Value(), k));
  }

  /**
   * One pass of the outer loop at index `i`: nothing for a line that is not
   * an intro line, otherwise the scheme it opens, read and written out.
   */
  method NextScheme(lines: seq<string>, i: nat) returns (emitted: Generated, j: nat)
    requires i < |lines|
    ensures i < j <= |lines|
    ensures emitted.failure.None? ==> Generate(lines[i..]) == Then(emitted, Generate(lines[j..]))
    ensures emitted.failure.Some? ==> Generate(lines[i..]) == emitted
  {
    assert lines[i..][1..] == lines[i + 1..];
    var intro := IntroOf(lines[i]);
    if intro.None? {
      var rest := Generate(lines[i + 1..]);
      assert Then(Nothing, rest) == rest by {
        assert [] + rest.schemes == rest.schemes;
        assert "" + rest.cpp == rest.cpp && "" + rest.swig == rest.swig;
      }
      return Nothing, i + 1;
    }
    var parsed := ReadScheme(intro.value, lines, i + 1);
    if parsed.Err? {
      return Fail(parsed.error), |lines|;
    }
    emitted := Emit(parsed.value.0);
    j := parsed.value.1;
  }

  /** Nothing added at the end changes a run. */
  lemma ThenNothing(g: Generated)
    requires g.failure.None?
    ensures Then(g, Nothing) == g
  {
    assert g.schemes + [] == g.schemes;
    assert g.cpp + "" == g.cpp && g.swig + "" == g.swig;
  }

  /**
   * `g` is what the loop has produced from the lines before index `i` without
   * failing, and the rest of the run is what the lines from `i` on produce.
   */
  predicate ScannedUpTo(lines: seq<string>, i: nat, g: Generated)
  {
    i <= |lines| && g.failure.None? && Then(g, Generate(lines[i..])) == Generate(lines)
  }

  /**
   * The scanning loop: the outer loop reads lines until an intro line, then
   * reads the scheme it opens and writes the output for it.
   */
  method ScanFile(lines: seq<string>) returns (g: Generated)
    ensures g == Generate(lines)
  {
    g := Nothing;
    var i := 0;
    while i < |lines|
      invariant ScannedUpTo(lines, i, g)
      decreases |lines| - i
    {
      var emitted, j := NextScheme(lines, i);
      ThenAssociates(g, emitted, Generate(lines[j..]));
      g, i := Then(g, emitted), j;
      if g.failure.Some? {
        return;
      }
    }
    ThenNothing(g);
  }
}
