/**
 * The seven regular expressions of the generator (`re_introIn`, `re_introOut`,
 * `re_doc`, `re_docraw`, `re_enumheader`, `re_enum`, `re_end`) as hand-written
 * classifiers of one line. A line is the text `readline` returns without its
 * terminating newline. `re.match` classifiers look at the start of the line
 * only; `re.search` classifiers look for the first place where the pattern fits.
 * A greedy `.*` in front of ` \[(\w+)\]` settles on the LAST bracketed word
 * of the line, which `LastBracket` finds.
 */
module Patterns {
  import opened Common
  import opened Strings
  import opened Schemes

  /** ` \[(\w+)\]` matches at index `k`: a space, `[`, a word, `]`. */
  predicate BracketAt(line: string, k: nat)
  {
    k + 2 <= |line| && line[k] == ' ' && line[k + 1] == '[' &&
    var n := WordRun(line, k + 2);
    n > 0 && k + 2 + n < |line| && line[k + 2 + n] == ']'
  }

  /** The word group of the bracket at `k`. */
  function BracketWord(line: string, k: nat): (w: string)
    requires BracketAt(line, k)
    ensures IsWord(w)
  {
    line[k + 2 .. k + 2 + WordRun(line, k + 2)]
  }

  /** The last index in `[lo, hi)` where a bracket matches: the place a greedy `.*` backs off to. */
  function LastBracket(line: string, lo: nat, hi: nat): (r: Option<nat>)
    requires hi <= |line|
    ensures r.Some? ==> lo <= r.value < hi && BracketAt(line, r.value)
    ensures r.Some? ==> forall m: nat :: r.value < m < hi ==> !BracketAt(line, m)
    ensures r.None? ==> forall m: nat :: lo <= m < hi ==> !BracketAt(line, m)
    decreases hi
  {
    if hi <= lo then None
    else if BracketAt(line, hi - 1) then Some(hi - 1)
    else LastBracket(line, lo, hi - 1)
  }

  /**
   * `re.match("/// (<marker> .*) \[(\w+)\]", line)`: the pair (group 1, group 2),
   * that is the text from the marker up to the last bracket, and the bracketed word.
   */
  function IntroMatch(line: string, marker: string): (r: Option<(string, string)>)
    ensures r.Some? ==> StartsWith(line, "/// " + marker + " ") && IsWord(r.value.1)
    ensures r.Some? ==> StartsWith(r.value.0, marker + " ")
  {
    var head := "/// " + marker + " ";
    if !StartsWith(line, head) then None
    else
      match LastBracket(line, |head|, |line|)
      case None => None
      case Some(k) =>
        assert line[4..k][..|marker| + 1] == line[..|head|][4..] == marker + " ";
        Some((line[4..k], BracketWord(line, k)))
  }

  /** A scheme-start line: the role, the scheme name and the intro text. */
  datatype Intro = Intro(role: Role, name: string, doc: string)

  /**
   * Lines 142-148 of the scanner: an `Input` scheme for an `re_introIn` line,
   * an `Output` scheme for an `re_introOut` line (tried second, so it would win),
   * nothing for any other line.
   */
  function IntroOf(line: string): (r: Option<Intro>)
    ensures r.Some? ==> StartsWith(line, "/// " + Marker(r.value.role) + " ")
    ensures r.Some? ==> IsWord(r.value.name) && StartsWith(r.value.doc, Marker(r.value.role) + " ")
  {
    match IntroMatch(line, Marker(Output))
    case Some(m) => Some(Intro(Output, m.1, m.0))
    case None =>
      match IntroMatch(line, Marker(Input))
      case Some(m) => Some(Intro(Input, m.1, m.0))
      case None => None
  }

  /** `re.search("///\s*(.*)", line).group(1)`: what follows the first `///` and its whitespace. */
  function DocRaw(line: string): (r: Option<string>)
    ensures r.Some? <==> Contains(line, "///")
  {
    match FindFrom(line, "///", 0)
    case None => None
    case Some(p) => Some(line[p + 3 + SpaceRun(line, p + 3)..])
  }

  /**
   * `re.search("///\s*(.*) \[([\w\d]+)\]\s*", line)`: the pair (group 1, group 2),
   * the text after the first `///` and its whitespace up to the last bracket,
   * and the bracketed word.
   */
  function DocEntry(line: string): (r: Option<(string, string)>)
    ensures r.Some? ==> Contains(line, "///") && IsWord(r.value.1)
  {
    match FindFrom(line, "///", 0)
    case None => None
    case Some(p) => EntryAfter(line, p + 3)
  }

  /**
   * The part of `DocEntry` after the `///` that ends at `q`: `\s*` takes the
   * whitespace, but gives back what reaches into the last bracket.
   */
  function EntryAfter(line: string, q: nat): (r: Option<(string, string)>)
    requires q <= |line|
    ensures r.Some? ==> IsWord(r.value.1)
  {
    match LastBracket(line, q, |line|)
    case None => None
    case Some(k) =>
      var start := if q + SpaceRun(line, q) <= k then q + SpaceRun(line, q) else k;
      Some((line[start..k], BracketWord(line, k)))
  }

  /** `re.match("\s*(\w+),\s*", line).group(1)`: the identifier of an `IDENT,` line. */
  function EnumItem(line: string): (r: Option<string>)
    ensures r.Some? ==> IsWord(r.value)
  {
    var j := SpaceRun(line, 0);
    var n := WordRun(line, j);
    if n > 0 && j + n < |line| && line[j + n] == ',' then Some(line[j .. j + n]) else None
  }

  /** `re.match("enum (\w+)\s*{", line).group(1)`: the name of an enum header at the start of the line. */
  function EnumHeader(line: string): (r: Option<string>)
    ensures r.Some? ==> StartsWith(line, "enum ") && IsWord(r.value)
  {
    if !StartsWith(line, "enum ") then None
    else
      var n := WordRun(line, 5);
      var j := 5 + n + SpaceRun(line, 5 + n);
      if n > 0 && j < |line| && line[j] == '{' then Some(line[5 .. 5 + n]) else None
  }

  /** `}\s*;` matches at index `i`. */
  predicate EndAt(line: string, i: nat)
  {
    i < |line| && line[i] == '}' &&
    var j := i + 1 + SpaceRun(line, i + 1);
    j < |line| && line[j] == ';'
  }

  /** `re.search("}\s*;", line)`: the line closes the enum. */
  predicate IsEnd(line: string)
  {
    exists i: nat :: i < |line| && EndAt(line, i)
  }

  // What each classifier extracts from the lines of a well-formed annotation block.

  /** A line ending in ` [w]` has its last bracket there, whatever text comes before it. */
  lemma BracketAtEnd(a: string, w: string, lo: nat)
    requires IsWord(w) && lo <= |a|
    ensures var line := a + " [" + w + "]";
            LastBracket(line, lo, |line|) == Some(|a|) && BracketWord(line, |a|) == w
  {
    var line := a + " [" + w + "]";
    assert line[|a| + 2 .. |a| + 2 + |w|] == w;
    WordRunIs(line, |a| + 2, |w|);
    assert BracketAt(line, |a|);
    forall m: nat | |a| < m < |line|
      ensures !BracketAt(line, m)
    {
      assert line[m] != ' ' by {
        if m == |a| + 1 {
          assert line[m] == '[';
        } else if m < |a| + 2 + |w| {
          assert line[m] == w[m - |a| - 2];
        } else {
          assert line[m] == ']';
        }
      }
    }
  }

  /** `IntroMatch` on a line whose head fits and whose last bracket is at `k`. */
  lemma IntroMatchAt(line: string, marker: string, k: nat)
    requires StartsWith(line, "/// " + marker + " ")
    requires |"/// " + marker + " "| <= k < |line|
    requires LastBracket(line, |"/// " + marker + " "|, |line|) == Some(k)
    ensures IntroMatch(line, marker) == Some((line[4..k], BracketWord(line, k)))
  {
  }

  /** Where the parts of an intro line are. */
  lemma IntroLineParts(marker: string, summary: string, name: string)
    requires IsWord(name)
    ensures var line := "/// " + marker + " " + summary + " [" + name + "]";
            var k := |"/// " + marker + " "| + |summary|;
            && StartsWith(line, "/// " + marker + " ")
            && k < |line|
            && LastBracket(line, |"/// " + marker + " "|, |line|) == Some(k)
            && BracketWord(line, k) == name
            && line[4..k] == marker + " " + summary
  {
    var head := "/// " + marker + " ";
    var line := "/// " + marker + " " + summary + " [" + name + "]";
    assert line == (head + summary) + " [" + name + "]";
    BracketAtEnd(head + summary, name, |head|);
    assert line[..|head|] == head;
    assert line[4..|head| + |summary|] == marker + " " + summary;
  }

  /** `IntroMatch` round trip for one marker. */
  lemma IntroMatchLine(marker: string, summary: string, name: string)
    requires IsWord(name)
    ensures IntroMatch("/// " + marker + " " + summary + " [" + name + "]", marker)
         == Some((marker + " " + summary, name))
  {
    IntroLineParts(marker, summary, name);
    IntroMatchAt("/// " + marker + " " + summary + " [" + name + "]", marker, |"/// " + marker + " "| + |summary|);
  }

  /** `Intro` round trip: the intro line of a role, a text and a name is recognised as exactly that. */
  lemma IntroLineMatch(role: Role, summary: string, name: string)
    requires IsWord(name)
    ensures IntroOf("/// " + Marker(role) + " " + summary + " [" + name + "]")
         == Some(Intro(role, name, Marker(role) + " " + summary))
  {
    var line := "/// " + Marker(role) + " " + summary + " [" + name + "]";
    IntroMatchLine(Marker(role), summary, name);
    if role == Input {
      assert line[4] == 'I';
      assert !StartsWith(line, "/// " + Marker(Output) + " ");
    }
  }

  /** The first `///` of a line that starts with `///` is at index 0. */
  lemma FindAtStart(line: string)
    requires StartsWith(line, "///")
    ensures FindFrom(line, "///", 0) == Some(0)
  {
    assert OccursAt(line, "///", 0);
  }

  /** A line without `/` is neither a documentation line nor an entry documentation line. */
  lemma NoSlashNoDoc(line: string)
    requires '/' !in line
    ensures DocRaw(line) == None && DocEntry(line) == None
  {
    forall k: nat | k + 3 <= |line|
      ensures !OccursAt(line, "///", k)
    {
      assert line[k] in line;
    }
    assert FindFrom(line, "///", 0) == None;
  }

  /** `DocRaw` round trip: `/// d` yields `d` unless `d` starts with whitespace, which `\s*` would eat. */
  lemma DocRawLine(d: string)
    requires |d| == 0 || !IsSpace(d[0])
    ensures DocRaw("/// " + d) == Some(d)
  {
    var line := "/// " + d;
    FindAtStart(line);
    SpaceRunIs(line, 3, 1);
    assert line[4..] == d;
  }

  /** The first `///` of a line is at `p` when it occurs there and no `/` comes before. */
  lemma FindAt(line: string, p: nat)
    requires OccursAt(line, "///", p)
    requires forall k :: 0 <= k < p ==> line[k] != '/'
    ensures FindFrom(line, "///", 0) == Some(p)
  {
    forall k: nat | k < p && k + 3 <= |line|
      ensures !OccursAt(line, "///", k)
    {
      assert line[k..k + 3][0] == line[k];
    }
  }

  /** `DocEntry` reads what follows the first `///`. */
  lemma DocEntryFound(line: string, p: nat)
    requires FindFrom(line, "///", 0) == Some(p)
    ensures DocEntry(line) == EntryAfter(line, p + 3)
  {
  }

  /** `DocEntry` of a line whose first `///`, last bracket and doc text are known. */
  lemma DocEntryOfParts(line: string, p: nat, k: nat, skip: nat, doc: string, w: string)
    requires FindFrom(line, "///", 0) == Some(p)
    requires p + 3 <= k < |line| && LastBracket(line, p + 3, |line|) == Some(k) && SpaceRun(line, p + 3) == skip
    requires line[if p + 3 + skip <= k then p + 3 + skip else k..k] == doc && BracketWord(line, k) == w
    ensures DocEntry(line) == Some((doc, w))
  {
    DocEntryFound(line, p);
    EntryAfterAt(line, p + 3, k, skip);
  }

  /** `EntryAfter` when the last bracket after `q` is at `k` and `skip` whitespace characters follow `q`. */
  lemma EntryAfterAt(line: string, q: nat, k: nat, skip: nat)
    requires q <= k < |line|
    requires LastBracket(line, q, |line|) == Some(k)
    requires SpaceRun(line, q) == skip
    ensures EntryAfter(line, q) == Some((line[if q + skip <= k then q + skip else k..k], BracketWord(line, k)))
  {
  }

  /** Where the parts of `<indent>///  [w]` are. */
  lemma NoTextParts(indent: string, w: string)
    requires IsWord(w) && '/' !in indent
    ensures var line := indent + "///  [" + w + "]";
            var q := |indent| + 3;
            && q + 1 < |line| && OccursAt(line, "///", |indent|)
            && (forall k :: 0 <= k < |indent| ==> line[k] != '/')
            && LastBracket(line, q, |line|) == Some(q + 1) && BracketWord(line, q + 1) == w
            && SpaceRun(line, q) == 2
  {
    var line := indent + "///  [" + w + "]";
    var q := |indent| + 3;
    assert line == (indent + "/// ") + " [" + w + "]";
    BracketAtEnd(indent + "/// ", w, q);
    assert line[q] == ' ' && line[q + 1] == ' ' && line[q + 2] == '[';
    SpaceRunIs(line, q, 2);
    assert line[|indent|..q] == "///";
    forall k | 0 <= k < |indent|
      ensures line[k] != '/'
    {
      assert line[k] == indent[k] && indent[k] in indent;
    }
  }

  /** `<indent>///  [w]`, with no text before the bracket, names an argument with an empty doc. */
  lemma DocEntryNoText(indent: string, w: string)
    requires IsWord(w) && '/' !in indent
    ensures DocEntry(indent + "///  [" + w + "]") == Some(("", w))
  {
    var line := indent + "///  [" + w + "]";
    var q := |indent| + 3;
    NoTextParts(indent, w);
    FindAt(line, |indent|);
    assert line[q + 1..q + 1] == "";
    DocEntryOfParts(line, |indent|, q + 1, 2, "", w);
  }

  /** The first `///` of `<indent>/// doc [w]` is right after the indentation. */
  lemma TextSlash(indent: string, doc: string, w: string)
    requires '/' !in indent
    ensures var line := indent + "/// " + doc + " [" + w + "]";
            && OccursAt(line, "///", |indent|)
            && (forall m :: 0 <= m < |indent| ==> line[m] != '/')
  {
    var line := indent + "/// " + doc + " [" + w + "]";
    assert line[|indent|..|indent| + 3] == "///";
    forall m | 0 <= m < |indent|
      ensures line[m] != '/'
    {
      assert line[m] == indent[m] && indent[m] in indent;
    }
  }

  /** In `<head> doc [w]`, with `head` ending in a space, `\s*` takes that space only and the doc follows. */
  lemma TextStart(head: string, doc: string, w: string)
    requires |head| > 0 && head[|head| - 1] == ' '
    requires |doc| > 0 && !IsSpace(doc[0])
    ensures var line := head + doc + " [" + w + "]";
            && SpaceRun(line, |head| - 1) == 1
            && line[|head|..|head| + |doc|] == doc
  {
    var line := head + doc + (" [" + w + "]");
    Regroup(head + doc, " [", w, "]");
    Middle(head, doc, " [" + w + "]");
    SpaceRunIs(line, |head| - 1, 1);
  }

  /** `<indent>/// doc [w]` with a doc that does not start with whitespace. */
  lemma DocEntryText(indent: string, doc: string, w: string)
    requires IsWord(w) && '/' !in indent
    requires |doc| > 0 && !IsSpace(doc[0])
    ensures DocEntry(indent + "/// " + doc + " [" + w + "]") == Some((doc, w))
  {
    var line := indent + "/// " + doc + " [" + w + "]";
    BracketAtEnd(indent + "/// " + doc, w, |indent| + 3);
    assert (indent + "/// ")[|indent| + 3] == ' ';
    TextStart(indent + "/// ", doc, w);
    TextSlash(indent, doc, w);
    FindAt(line, |indent|);
    DocEntryOfParts(line, |indent|, |indent| + 4 + |doc|, 1, doc, w);
  }

  /**
   * `DocEntry` round trip: `/// doc [w]`, behind any text without `/`, yields
   * the pair `(doc, w)`; the bracketed word becomes the argument name and the
   * text before it the argument's doc.
   */
  lemma DocEntryLine(indent: string, doc: string, w: string)
    requires IsWord(w) && '/' !in indent
    requires |doc| == 0 || !IsSpace(doc[0])
    ensures DocEntry(indent + "/// " + doc + " [" + w + "]") == Some((doc, w))
  {
    if |doc| == 0 {
      assert indent + "/// " + doc + " [" + w + "]" == indent + "///  [" + w + "]";
      DocEntryNoText(indent, w);
    } else {
      DocEntryText(indent, doc, w);
    }
  }

  /** `EnumItem` round trip: an indented `c,` line yields `c`. */
  lemma EnumItemLine(indent: string, c: string)
    requires IsWord(c)
    requires forall k :: 0 <= k < |indent| ==> indent[k] == ' '
    ensures EnumItem(indent + c + ",") == Some(c)
  {
    var line := indent + c + ",";
    assert line[|indent|] == c[0];
    SpaceRunIs(line, 0, |indent|);
    assert line[|indent| .. |indent| + |c|] == c;
    WordRunIs(line, |indent|, |c|);
  }

  /** `EnumHeader` round trip: `enum h {`, with any whitespace or none before `{`, yields `h`. */
  lemma EnumHeaderLine(h: string, gap: string)
    requires IsWord(h)
    requires forall k :: 0 <= k < |gap| ==> IsSpace(gap[k])
    ensures EnumHeader("enum " + h + gap + "{") == Some(h)
  {
    var line := "enum " + h + gap + "{";
    var j := 5 + |h|;
    assert line[..5] == "enum ";
    assert line[5 .. j] == h;
    assert line[j] == if |gap| > 0 then gap[0] else '{';
    WordRunIs(line, 5, |h|);
    forall k | j <= k < j + |gap|
      ensures IsSpace(line[k])
    {
      assert line[k] == gap[k - j];
    }
    assert line[j + |gap|] == '{';
    SpaceRunIs(line, j, |gap|);
  }

  /** A line without `}` never closes the enum. */
  lemma NoBraceNoEnd(line: string)
    requires '}' !in line
    ensures !IsEnd(line)
  {
    forall i: nat | i < |line|
      ensures !EndAt(line, i)
    {
      assert line[i] in line;
    }
  }

  /** Every character of `line[lo..hi]` is `\s`. */
  predicate Blank(line: string, lo: nat, hi: nat)
  {
    lo <= hi <= |line| && forall k :: lo <= k < hi ==> IsSpace(line[k])
  }

  /**
   * `re.search("}\s*;", line)` succeeds exactly when the line has a `}` and,
   * later, a `;` with nothing but whitespace between them.
   */
  lemma EndIff(line: string)
    ensures IsEnd(line) <==> exists i: nat, j: nat :: i < j < |line| && line[i] == '}' && line[j] == ';' && Blank(line, i + 1, j)
  {
    if IsEnd(line) {
      var i: nat :| i < |line| && EndAt(line, i);
      var j := i + 1 + SpaceRun(line, i + 1);
      assert line[i] == '}' && line[j] == ';' && Blank(line, i + 1, j);
    }
    if exists i: nat, j: nat :: i < j < |line| && line[i] == '}' && line[j] == ';' && Blank(line, i + 1, j) {
      var i: nat, j: nat :| i < j < |line| && line[i] == '}' && line[j] == ';' && Blank(line, i + 1, j);
      SpaceRunIs(line, i + 1, j - i - 1);
      assert EndAt(line, i);
    }
  }

  /** Any text, `}`, any whitespace, `;`, any text: the line closes the enum. */
  lemma EndSplice(a: string, ws: string, b: string)
    requires forall k :: 0 <= k < |ws| ==> IsSpace(ws[k])
    ensures IsEnd(a + "}" + ws + ";" + b)
  {
    var line := a + "}" + ws + ";" + b;
    var i := |a|;
    var j := i + 1 + |ws|;
    assert line[i] == '}' && line[j] == ';';
    forall k | i + 1 <= k < j
      ensures IsSpace(line[k])
    {
      assert line[k] == ws[k - i - 1];
    }
    EndIff(line);
  }
}
