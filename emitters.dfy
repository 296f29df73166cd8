/**
 * The three renderers of a scheme: `cppcode` (a C++ helper template),
 * `swigcode` (SWIG `%template` instantiations) and `pycode` (a Python
 * wrapper with a docstring), plus `num` and `getDoc`.
 *
 * `CppText` and `PyText` say what the text is, with `Join`; the methods
 * `CppCode` and `PyCode` build it the way the generator does, appending
 * item and comma for every entry and cutting the last character afterwards.
 */
module Emitters {
  import opened Common
  import opened Strings
  import opened Schemes

  /** `num()`: the number of entries, in decimal. */
  function Num(s: Scheme): (r: string)
    ensures forall k :: 0 <= k < |r| ==> '0' <= r[k] <= '9'
    ensures ParseDecimal(r) == |s.entries|
  {
    DecimalRoundTrip(|s.entries|);
    Decimal(|s.entries|)
  }

  /** `getDoc()`: the documentation with every literal backslash-n pair removed. */
  function GetDoc(s: Scheme): (r: string)
    ensures |r| <= |s.doc|
    ensures (forall k :: 0 <= k < |s.doc| ==> s.doc[k] != '\\') ==> r == s.doc
  {
    Erase(s.doc, "\\n")
  }

  /** Every line of a text, right-stripped and behind a comment prefix. */
  function PrefixEach(prefix: string, lines: seq<string>): (r: seq<string>)
    ensures |r| == |lines|
  {
    seq(|lines|, i requires 0 <= i < |lines| => prefix + RStrip(lines[i]))
  }

  /** A comment block: every line of `text`, right-stripped behind `prefix`, each ending in a newline. */
  function Commented(prefix: string, text: string): string
  {
    Join("\n", PrefixEach(prefix, Split(text, '\n'))) + "\n"
  }

  /** No line of the comment block holds a newline. */
  lemma CommentedItems(prefix: string, text: string)
    requires '\n' !in prefix
    ensures forall i :: 0 <= i < |Split(text, '\n')| ==> '\n' !in PrefixEach(prefix, Split(text, '\n'))[i]
  {
    var parts := Split(text, '\n');
    var items := PrefixEach(prefix, parts);
    SplitParts(text, '\n');
    forall i | 0 <= i < |items|
      ensures '\n' !in items[i]
    {
      var r := RStrip(parts[i]);
      assert parts[i][..|r|] == r;
      forall k | 0 <= k < |r|
        ensures r[k] != '\n'
      {
        assert r[k] == parts[i][k];
      }
      assert items[i] == prefix + r;
    }
  }

  /** One line of the comment block per line of the text, each one behind the prefix. */
  lemma CommentedLines(prefix: string, text: string)
    requires '\n' !in prefix
    ensures var block := Commented(prefix, text);
            Split(block[..|block| - 1], '\n') == PrefixEach(prefix, Split(text, '\n'))
    ensures var lines := Split(Commented(prefix, text)[..|Commented(prefix, text)| - 1], '\n');
            forall i :: 0 <= i < |lines| ==> StartsWith(lines[i], prefix)
  {
    var items := PrefixEach(prefix, Split(text, '\n'));
    CommentedItems(prefix, text);
    var block := Commented(prefix, text);
    assert block[..|block| - 1] == Join("\n", items);
    SplitJoin(items, '\n');
    forall i | 0 <= i < |items|
      ensures StartsWith(items[i], prefix)
    {
      assert items[i][..|prefix|] == prefix;
    }
  }

  /** The comment block, then more text: the block's lines come first in the split. */
  lemma CommentedThen(prefix: string, text: string, rest: string)
    requires '\n' !in prefix
    ensures Split(Commented(prefix, text) + rest, '\n') == PrefixEach(prefix, Split(text, '\n')) + Split(rest, '\n')
  {
    var items := PrefixEach(prefix, Split(text, '\n'));
    CommentedItems(prefix, text);
    SplitJoinThen(items, rest);
  }

  /** The parameters of the C++ helper, `const M& name=M()`, one per entry. */
  function Params(es: seq<Entry>): (r: seq<string>)
    ensures |r| == |es|
  {
    seq(|es|, i requires 0 <= i < |es| => "const M& " + es[i].name + "=M()")
  }

  /** The argument names, in entry order. */
  function Names(es: seq<Entry>): (r: seq<string>)
    ensures |r| == |es|
  {
    seq(|es|, i requires 0 <= i < |es| => es[i].name)
  }

  /** The keyword parameters of the Python wrapper, `name=[]`, one per entry. */
  function Keywords(es: seq<Entry>): (r: seq<string>)
    ensures |r| == |es|
  {
    seq(|es|, i requires 0 <= i < |es| => es[i].name + "=[]")
  }

  /**
   * The source's idiom for a comma-separated list: append every item followed
   * by a comma, then cut the last character, which is the final comma, or the
   * last character of the prefix when there are no items.
   */
  method CommaJoined(prefix: string, items: seq<string>) returns (out: string)
    ensures out == CommaList(prefix, items)
  {
    out := prefix;
    for i := 0 to |items|
      invariant out == prefix + Trailing(items[..i], ",")
    {
      assert items[..i + 1][..i] == items[..i];
      out := out + items[i] + ",";
    }
    assert items[..|items|] == items;
    CutTrailing(prefix, items);
    out := DropLast(out);
  }

  /**
   * What `cppcode` produces: a comment naming the enum, the documentation as a
   * comment, a `\copydoc`, then `template<class M> std::vector<M> name(params)`
   * whose body fills an array of `num()` elements with the parameters and
   * returns it as a vector.
   */
  function CppText(s: Scheme): string
    requires s.Renderable()
  {
    var h := s.enumHeader.value;
    var signature := CommaList("std::vector<M> " + s.name + "(", Params(s.entries));
    var filling := CommaList("  M ret[" + Num(s) + "] = {", Names(s.entries));
    "/// Helper function for '" + h + "'\n"
    + Commented("/// ", s.doc)
    + "/// \\copydoc scheme_" + h + "\n"
    + "template<class M>\n"
    + signature + "){\n"
    + filling + "};\n"
    + "  return std::vector<M>(ret,ret+" + Num(s) + ");\n}\n"
  }

  /**
   * The parameter list and the array list of the C++ helper split back at the
   * commas into one item per entry, in entry order.
   */
  lemma CppOnePerEntry(s: Scheme)
    requires forall i :: 0 <= i < |s.entries| ==> IsWord(s.entries[i].name)
    requires |s.entries| > 0
    ensures Split(Join(",", Params(s.entries)), ',') == Params(s.entries)
    ensures Split(Join(",", Names(s.entries)), ',') == Names(s.entries)
  {
    var es := s.entries;
    forall i | 0 <= i < |es|
      ensures ',' !in Params(es)[i] && ',' !in Names(es)[i]
    {
      var n := es[i].name;
      forall k | 0 <= k < |n|
        ensures n[k] != ','
      {
        assert IsWordChar(n[k]);
      }
      assert Params(es)[i] == "const M& " + n + "=M()";
    }
    SplitJoin(Params(es), ',');
    SplitJoin(Names(es), ',');
  }

  /** The last two lines of a block: a line, then `}`, each closed by a newline. */
  lemma ClosingLines(e: string)
    requires '\n' !in e
    ensures Split(e + "\n" + ("}" + "\n" + ""), '\n') == [e, "}", ""]
  {
    SplitNone("", '\n');
    SplitLine("}", "");
    SplitLine(e, "}" + "\n" + "");
  }

  /** Five lines, each closed by a newline, then `}` and a newline. */
  lemma FiveLines(a: string, b: string, c: string, d: string, e: string)
    requires '\n' !in a && '\n' !in b && '\n' !in c && '\n' !in d && '\n' !in e
    ensures Split(a + "\n" + b + "\n" + c + "\n" + d + "\n" + e + "\n}\n", '\n') == [a, b, c, d, e, "}", ""]
  {
    var r4 := e + "\n" + ("}" + "\n" + "");
    var r3 := d + "\n" + r4;
    var r2 := c + "\n" + r3;
    var r1 := b + "\n" + r2;
    FiveLinesShape(a, b, c, d, e);
    ClosingLines(e);
    SplitLine(d, r4);
    assert Split(r3, '\n') == [d, e, "}", ""];
    SplitLine(c, r3);
    assert Split(r2, '\n') == [c, d, e, "}", ""];
    SplitLine(b, r2);
    assert Split(r1, '\n') == [b, c, d, e, "}", ""];
    SplitLine(a, r1);
  }

  /** Five lines and the closing brace, regrouped from the right. */
  lemma FiveLinesShape(a: string, b: string, c: string, d: string, e: string)
    ensures a + "\n" + b + "\n" + c + "\n" + d + "\n" + e + "\n}\n"
         == a + "\n" + (b + "\n" + (c + "\n" + (d + "\n" + (e + "\n" + ("}" + "\n" + "")))))
  {
  }

  /** Names that are words hold no comma and no newline, so neither do the two lists built from them. */
  lemma ListsLackNewline(es: seq<Entry>)
    requires forall i :: 0 <= i < |es| ==> IsWord(es[i].name)
    ensures '\n' !in Join(",", Params(es)) && '\n' !in Join(",", Names(es)) && '\n' !in Join(",", Keywords(es))
  {
    forall i | 0 <= i < |es|
      ensures '\n' !in Params(es)[i] && '\n' !in Names(es)[i] && '\n' !in Keywords(es)[i]
    {
      var n := es[i].name;
      forall k | 0 <= k < |n|
        ensures n[k] != '\n'
      {
        assert IsWordChar(n[k]);
      }
      assert Params(es)[i] == "const M& " + n + "=M()";
      assert Keywords(es)[i] == n + "=[]";
    }
    JoinLacks(",", Params(es), '\n');
    JoinLacks(",", Names(es), '\n');
    JoinLacks(",", Keywords(es), '\n');
  }

  /** The text of `cppcode` regrouped as its first line, the comment block, then the rest. */
  lemma CppShape(h: string, block: string, signature: string, filling: string, num: string)
    ensures "/// Helper function for '" + h + "'\n" + block + "/// \\copydoc scheme_" + h + "\n" + "template<class M>\n"
            + signature + "){\n" + filling + "};\n" + "  return std::vector<M>(ret,ret+" + num + ");\n}\n"
         == ("/// Helper function for '" + h + "'") + "\n"
            + (block + (("/// \\copydoc scheme_" + h) + "\n" + "template<class M>" + "\n" + (signature + "){") + "\n"
                        + (filling + "};") + "\n" + ("  return std::vector<M>(ret,ret+" + num + ");") + "\n}\n"))
  {
  }

  /** The lines of the C++ helper around its two lists hold no newline. */
  lemma CppFrameLacksNewline(h: string, num: string)
    requires '\n' !in h && '\n' !in num
    ensures '\n' !in "/// Helper function for '" + h + "'"
    ensures '\n' !in "/// \\copydoc scheme_" + h
    ensures '\n' !in "  return std::vector<M>(ret,ret+" + num + ");"
  {
  }

  /** The signature line and the array line of the C++ helper hold no newline. */
  lemma CppListsLackNewline(s: Scheme)
    requires '\n' !in s.name
    requires forall i :: 0 <= i < |s.entries| ==> IsWord(s.entries[i].name)
    ensures '\n' !in "std::vector<M> " + s.name + "(" + Join(",", Params(s.entries)) + "){"
    ensures '\n' !in "  M ret[" + Num(s) + "] = {" + Join(",", Names(s.entries)) + "};"
  {
    ListsLackNewline(s.entries);
    assert '\n' !in Num(s);
  }

  /**
   * The lines of the C++ helper: the comment naming the enum, one comment line
   * per documentation line, the `\copydoc`, the template line, the signature
   * with every parameter, the array filled with every entry, the return, and
   * the closing brace.
   */
  lemma CppLines(s: Scheme)
    requires s.Renderable() && |s.entries| > 0
    requires '\n' !in s.name && '\n' !in s.enumHeader.value
    requires forall i :: 0 <= i < |s.entries| ==> IsWord(s.entries[i].name)
    ensures Split(CppText(s), '\n')
         == ["/// Helper function for '" + s.enumHeader.value + "'"]
            + PrefixEach("/// ", Split(s.doc, '\n'))
            + ["/// \\copydoc scheme_" + s.enumHeader.value,
               "template<class M>",
               "std::vector<M> " + s.name + "(" + Join(",", Params(s.entries)) + "){",
               "  M ret[" + Num(s) + "] = {" + Join(",", Names(s.entries)) + "};",
               "  return std::vector<M>(ret,ret+" + Num(s) + ");",
               "}", ""]
  {
    var h := s.enumHeader.value;
    var head := "/// Helper function for '" + h + "'";
    var copydoc := "/// \\copydoc scheme_" + h;
    var params := "std::vector<M> " + s.name + "(" + Join(",", Params(s.entries));
    var names := "  M ret[" + Num(s) + "] = {" + Join(",", Names(s.entries));
    var ret := "  return std::vector<M>(ret,ret+" + Num(s) + ");";
    assert '\n' !in Num(s);
    CppFrameLacksNewline(h, Num(s));
    CppListsLackNewline(s);
    var block := Commented("/// ", s.doc);
    var tail := copydoc + "\n" + "template<class M>" + "\n" + (params + "){") + "\n" + (names + "};") + "\n" + ret + "\n}\n";
    CppShape(h, block, params, names, Num(s));
    assert CppText(s) == head + "\n" + (block + tail);
    FiveLines(copydoc, "template<class M>", params + "){", names + "};", ret);
    CommentedThen("/// ", s.doc, tail);
    SplitLine(head, block + tail);
    AppendAssoc([head], PrefixEach("/// ", Split(s.doc, '\n')), Split(tail, '\n'));
  }

  /** `cppcode()`: its two loops are the two comma lists. */
  method CppCode(s: Scheme) returns (out: string)
    requires s.Renderable()
    ensures out == CppText(s)
  {
    var h := s.enumHeader.value;
    var signature := CommaJoined("std::vector<M> " + s.name + "(", Params(s.entries));
    var filling := CommaJoined("  M ret[" + Num(s) + "] = {", Names(s.entries));
    out := "/// Helper function for '" + h + "'\n"
      + Commented("/// ", s.doc)
      + "/// \\copydoc scheme_" + h + "\n"
      + "template<class M>\n"
      + signature + "){\n"
      + filling + "};\n"
      + "  return std::vector<M>(ret,ret+" + Num(s) + ");\n}\n";
  }

  /** One `%template` instantiation of the helper for a matrix type. */
  function TemplateLine(name: string, matrix: string): string
  {
    "%template(" + name + ") " + name + "<" + matrix + ">;"
  }

  /** `swigcode()`: the helper instantiated for `SXMatrix` and for `MX`, inside `namespace CasADi`. */
  function SwigCode(s: Scheme): string
  {
    "namespace CasADi {\n" + TemplateLine(s.name, "SXMatrix") + "\n" + TemplateLine(s.name, "MX") + "\n" + "}\n"
  }

  lemma SwigLines(s: Scheme)
    ensures SwigCode(s) == "namespace CasADi {" + "\n" + (TemplateLine(s.name, "SXMatrix") + "\n"
                           + (TemplateLine(s.name, "MX") + "\n" + ("}" + "\n" + "")))
  {
  }

  /** The SWIG block is exactly four lines: the namespace, two `%template` lines, the closing brace. */
  lemma SwigTwoTemplates(s: Scheme)
    requires '\n' !in s.name
    ensures Split(SwigCode(s), '\n')
            == ["namespace CasADi {", TemplateLine(s.name, "SXMatrix"), TemplateLine(s.name, "MX"), "}", ""]
  {
    var n := s.name;
    SplitNone("", '\n');
    SplitLine("}", "");
    SplitLine(TemplateLine(n, "MX"), "}" + "\n" + "");
    SplitLine(TemplateLine(n, "SXMatrix"), TemplateLine(n, "MX") + "\n" + ("}" + "\n" + ""));
    SplitLine("namespace CasADi {", TemplateLine(n, "SXMatrix") + "\n" + (TemplateLine(n, "MX") + "\n" + ("}" + "\n" + "")));
    SwigLines(s);
  }

  /** `max([len(name) for name, doc, enum in entries])`, with 0 for no entries. */
  function MaxNameLen(es: seq<Entry>): (r: nat)
    ensures forall i :: 0 <= i < |es| ==> |es[i].name| <= r
    ensures |es| > 0 ==> exists i :: 0 <= i < |es| && |es[i].name| == r
  {
    if |es| == 0 then 0
    else
      var rest := MaxNameLen(es[1..]);
      assert forall i :: 1 <= i < |es| ==> es[i] == es[1..][i - 1];
      if |es[0].name| >= rest then |es[0].name| else rest
  }

  /**
   * One line of the docstring's argument list: the name padded with spaces to
   * `width`, then ` -- doc [constant]`.
   */
  function Row(e: Entry, width: nat): (r: string)
    requires e.enumConst.Some? && |e.name| <= width
    ensures |r| == width + |e.doc| + |e.enumConst.value| + 12
    ensures r[..4] == "    " && r[4..4 + |e.name|] == e.name
    ensures r[4 + |e.name| .. 4 + width] == Spaces(width - |e.name|)
    ensures r[4 + width .. 8 + width] == " -- "
    ensures r[8 + width ..] == e.doc + " [" + e.enumConst.value + "]\n"
  {
    "    " + e.name + Spaces(width - |e.name|) + " -- " + e.doc + " [" + e.enumConst.value + "]\n"
  }

  /** The argument list of the docstring, one row per entry, in entry order. */
  function Rows(es: seq<Entry>, width: nat): string
    requires forall i :: 0 <= i < |es| ==> es[i].enumConst.Some? && |es[i].name| <= width
  {
    if |es| == 0 then "" else Rows(es[..|es| - 1], width) + Row(es[|es| - 1], width)
  }

  /** The lines of the argument list: every row without its newline. */
  function RowLines(es: seq<Entry>, width: nat): (r: seq<string>)
    requires forall i :: 0 <= i < |es| ==> es[i].enumConst.Some? && |es[i].name| <= width
    ensures |r| == |es|
  {
    seq(|es|, i requires 0 <= i < |es| => Row(es[i], width)[..|Row(es[i], width)| - 1])
  }

  /** The parts of an entry that go into its row hold no newline. */
  predicate OneLine(e: Entry)
  {
    '\n' !in e.name && '\n' !in e.doc && (e.enumConst.Some? ==> '\n' !in e.enumConst.value)
  }

  /** A row is one line closed by a newline. */
  lemma RowLacks(e: Entry, width: nat)
    requires e.enumConst.Some? && |e.name| <= width && OneLine(e)
    ensures var r := Row(e, width);
            r == r[..|r| - 1] + "\n" && '\n' !in r[..|r| - 1]
  {
    var pad := Spaces(width - |e.name|);
    assert '\n' !in pad by {
      forall k | 0 <= k < |pad|
        ensures pad[k] != '\n'
      {
        assert pad[k] == ' ';
      }
    }
    var line := "    " + e.name + pad + " -- " + e.doc + " [" + e.enumConst.value + "]";
    assert Row(e, width) == line + "\n";
    assert Row(e, width)[..|Row(e, width)| - 1] == line;
  }

  /** The argument list of the first entries, then one more row. */
  lemma RowsSnoc(es: seq<Entry>, width: nat)
    requires |es| > 0
    requires forall i :: 0 <= i < |es| ==> es[i].enumConst.Some? && |es[i].name| <= width
    ensures Rows(es, width) == Rows(es[..|es| - 1], width) + Row(es[|es| - 1], width)
  {
  }

  /** The lines of the first entries' rows, then one more line. */
  lemma RowLinesSnoc(es: seq<Entry>, width: nat)
    requires |es| > 0
    requires forall i :: 0 <= i < |es| ==> es[i].enumConst.Some? && |es[i].name| <= width
    ensures RowLines(es, width)
         == RowLines(es[..|es| - 1], width) + [Row(es[|es| - 1], width)[..|Row(es[|es| - 1], width)| - 1]]
  {
    var init := es[..|es| - 1];
    var front := RowLines(init, width);
    forall i | 0 <= i < |init|
      ensures RowLines(es, width)[i] == front[i]
    {
      assert init[i] == es[i];
    }
  }

  /** A text whose split is known, then one line: the line joins the front of the split. */
  lemma SplitThenLine(a: string, line: string, rest: string, before: seq<string>)
    requires '\n' !in line
    requires Split(a + (line + "\n" + rest), '\n') == before + Split(line + "\n" + rest, '\n')
    ensures Split(a + (line + "\n") + rest, '\n') == before + [line] + Split(rest, '\n')
  {
    assert a + (line + "\n") + rest == a + (line + "\n" + rest);
    SplitLine(line, rest);
    AppendAssoc(before, [line], Split(rest, '\n'));
  }

  /** The argument list, then more text: one line per row comes first in the split. */
  lemma {:induction false} RowsThen(es: seq<Entry>, width: nat, rest: string)
    requires forall i :: 0 <= i < |es| ==> es[i].enumConst.Some? && |es[i].name| <= width && OneLine(es[i])
    ensures Split(Rows(es, width) + rest, '\n') == RowLines(es, width) + Split(rest, '\n')
    decreases |es|
  {
    if |es| == 0 {
      assert Rows(es, width) + rest == rest;
      assert RowLines(es, width) + Split(rest, '\n') == Split(rest, '\n');
    } else {
      var init := es[..|es| - 1];
      var row := Row(es[|es| - 1], width);
      var line := row[..|row| - 1];
      RowLacks(es[|es| - 1], width);
      RowsSnoc(es, width);
      RowLinesSnoc(es, width);
      RowsThen(init, width, line + "\n" + rest);
      SplitThenLine(Rows(init, width), line, rest, RowLines(init, width));
    }
  }

  /**
   * The argument list of the docstring is one line per entry, in entry order,
   * each the name padded to `width`, ` -- `, the doc and the bracketed constant.
   */
  lemma RowsLines(es: seq<Entry>, width: nat)
    requires forall i :: 0 <= i < |es| ==> es[i].enumConst.Some? && |es[i].name| <= width && OneLine(es[i])
    ensures Split(Rows(es, width), '\n') == RowLines(es, width) + [""]
  {
    RowsThen(es, width, "");
    assert Rows(es, width) + "" == Rows(es, width);
    SplitNone("", '\n');
  }

  /**
   * What `pycode` produces for a scheme with entries: `def name(a=[],b=[]...)`,
   * a docstring with the enum's name, the documentation, and one aligned row
   * per entry, and `return [a,b,...]`. Without entries `max([])` raises.
   */
  function PyText(s: Scheme): (r: Option<string>)
    requires s.Renderable()
    ensures r.None? <==> |s.entries| == 0
  {
    if |s.entries| == 0 then None
    else
      var signature := CommaList("def " + s.name + "(", Keywords(s.entries));
      var result := CommaList("  return [", Names(s.entries));
      Some(signature + "):\n"
           + "  \"\"\"\n"
           + "  Helper function for '" + s.enumHeader.value + "'\n\n"
           + Commented("  ", GetDoc(s))
           + "  Keyword arguments:\n"
           + Rows(s.entries, MaxNameLen(s.entries))
           + "  \"\"\"\n"
           + result + "]\n")
  }

  /**
   * The keyword list and the returned list of the Python wrapper split back
   * at the commas into one item per entry, in entry order.
   */
  lemma PyOnePerEntry(s: Scheme)
    requires forall i :: 0 <= i < |s.entries| ==> IsWord(s.entries[i].name)
    requires |s.entries| > 0
    ensures Split(Join(",", Keywords(s.entries)), ',') == Keywords(s.entries)
    ensures Split(Join(",", Names(s.entries)), ',') == Names(s.entries)
  {
    var es := s.entries;
    forall i | 0 <= i < |es|
      ensures ',' !in Keywords(es)[i] && ',' !in Names(es)[i]
    {
      var n := es[i].name;
      forall k | 0 <= k < |n|
        ensures n[k] != ','
      {
        assert IsWordChar(n[k]);
      }
      assert Keywords(es)[i] == n + "=[]";
    }
    SplitJoin(Keywords(es), ',');
    SplitJoin(Names(es), ',');
  }

  /** The text of `pycode` regrouped around its first line and around its last line. */
  lemma PyShape(signature: string, h: string, block: string, rows: string, result: string)
    ensures var text := signature + "):\n" + "  \"\"\"\n" + "  Helper function for '" + h + "'\n\n" + block
                        + "  Keyword arguments:\n" + rows + "  \"\"\"\n" + result + "]\n";
            && text == (signature + "):") + "\n" + ("  \"\"\"\n" + "  Helper function for '" + h + "'\n\n" + block
                                                 + "  Keyword arguments:\n" + rows + "  \"\"\"\n" + result + "]\n")
            && text == (signature + "):\n" + "  \"\"\"\n" + "  Helper function for '" + h + "'\n\n" + block
                        + "  Keyword arguments:\n" + rows + "  \"\"\"") + ("\n" + result + "]\n")
  {
  }

  /** The Python wrapper's first line is `def name(a=[],b=[],...):`, one keyword per entry. */
  lemma PyFirstLine(s: Scheme)
    requires s.Renderable() && |s.entries| > 0
    requires '\n' !in s.name
    requires forall i :: 0 <= i < |s.entries| ==> IsWord(s.entries[i].name)
    ensures Split(PyText(s).value, '\n')[0] == "def " + s.name + "(" + Join(",", Keywords(s.entries)) + "):"
  {
    var signature := "def " + s.name + "(" + Join(",", Keywords(s.entries));
    var result := "  return [" + Join(",", Names(s.entries));
    var block := Commented("  ", GetDoc(s));
    var rows := Rows(s.entries, MaxNameLen(s.entries));
    PyShape(signature, s.enumHeader.value, block, rows, result);
    var rest := "  \"\"\"\n" + "  Helper function for '" + s.enumHeader.value + "'\n\n" + block
                + "  Keyword arguments:\n" + rows + "  \"\"\"\n" + result + "]\n";
    assert PyText(s).value == (signature + "):") + "\n" + rest;
    ListsLackNewline(s.entries);
    SplitLine(signature + "):", rest);
  }

  /** The Python wrapper's last line is `  return [a,b,...]`, one element per entry. */
  lemma PyLastLine(s: Scheme)
    requires s.Renderable() && |s.entries| > 0
    ensures EndsWith(PyText(s).value, "\n  return [" + Join(",", Names(s.entries)) + "]\n")
  {
    var signature := "def " + s.name + "(" + Join(",", Keywords(s.entries));
    var result := "  return [" + Join(",", Names(s.entries));
    var block := Commented("  ", GetDoc(s));
    var rows := Rows(s.entries, MaxNameLen(s.entries));
    PyShape(signature, s.enumHeader.value, block, rows, result);
    var front := signature + "):\n" + "  \"\"\"\n" + "  Helper function for '" + s.enumHeader.value + "'\n\n" + block
                 + "  Keyword arguments:\n" + rows + "  \"\"\"";
    var last := "\n" + result + "]\n";
    var text := PyText(s).value;
    assert text == front + last;
    assert text[|front|..] == last;
    AppendAssoc("\n", "  return [", Join(",", Names(s.entries)));
    assert "\n" + "  return [" == "\n  return [";
  }

  /** The text of `pycode` regrouped line by line. */
  lemma PyLinesShape(signature: string, h: string, block: string, rows: string, result: string)
    ensures signature + "):\n" + "  \"\"\"\n" + "  Helper function for '" + h + "'\n\n" + block
            + "  Keyword arguments:\n" + rows + "  \"\"\"\n" + result + "]\n"
         == (signature + "):") + "\n" + ("  \"\"\"" + "\n" + (("  Helper function for '" + h + "'") + "\n" + ("" + "\n"
            + (block + ("  Keyword arguments:" + "\n" + (rows + ("  \"\"\"" + "\n" + ((result + "]") + "\n" + ""))))))))
  {
    var head := signature + "):\n" + "  \"\"\"\n" + "  Helper function for '" + h + "'\n\n";
    var tail := "  Keyword arguments:" + "\n" + (rows + ("  \"\"\"" + "\n" + ((result + "]") + "\n" + "")));
    assert "  Keyword arguments:\n" + rows + "  \"\"\"\n" + result + "]\n" == tail;
    assert head == (signature + "):") + "\n" + ("  \"\"\"" + "\n" + (("  Helper function for '" + h + "'") + "\n" + ("" + "\n")));
  }

  /** The docstring's fixed lines hold no newline. */
  lemma DocstringLacksNewline()
    ensures '\n' !in "  \"\"\"" && '\n' !in "  Keyword arguments:"
  {
  }

  /** The last three lines of the wrapper: the docstring's end, the `return` line, nothing. */
  lemma PyTailLines(r: string)
    requires '\n' !in r
    ensures Split("  \"\"\"" + "\n" + (r + "\n" + ""), '\n') == ["  \"\"\"", r, ""]
  {
    DocstringLacksNewline();
    SplitNone("", '\n');
    SplitLine(r, "");
    SplitLine("  \"\"\"", r + "\n" + "");
  }

  /** Four lines of the wrapper's head, then a text whose lines are known. */
  lemma PyHeadLines(first: string, helper: string, body: string, bodyLines: seq<string>)
    requires '\n' !in first && '\n' !in helper
    requires Split(body, '\n') == bodyLines
    ensures Split(first + "\n" + ("  \"\"\"" + "\n" + (helper + "\n" + ("" + "\n" + body))), '\n')
         == [first, "  \"\"\"", helper, ""] + bodyLines
  {
    DocstringLacksNewline();
    SplitLine("", body);
    SplitLine(helper, "" + "\n" + body);
    SplitLine("  \"\"\"", helper + "\n" + ("" + "\n" + body));
    SplitLine(first, "  \"\"\"" + "\n" + (helper + "\n" + ("" + "\n" + body)));
  }

  /** The comment block, the heading of the argument list, its rows and the last three lines. */
  lemma PyBodyLines(r: string, block: string, rows: string, comment: seq<string>, rowLines: seq<string>)
    requires '\n' !in r
    requires Split(rows + ("  \"\"\"" + "\n" + (r + "\n" + "")), '\n')
          == rowLines + Split("  \"\"\"" + "\n" + (r + "\n" + ""), '\n')
    requires Split(block + ("  Keyword arguments:" + "\n" + (rows + ("  \"\"\"" + "\n" + (r + "\n" + "")))), '\n')
          == comment + Split("  Keyword arguments:" + "\n" + (rows + ("  \"\"\"" + "\n" + (r + "\n" + ""))), '\n')
    ensures Split(block + ("  Keyword arguments:" + "\n" + (rows + ("  \"\"\"" + "\n" + (r + "\n" + "")))), '\n')
         == comment + (["  Keyword arguments:"] + (rowLines + ["  \"\"\"", r, ""]))
  {
    var tail := "  \"\"\"" + "\n" + (r + "\n" + "");
    DocstringLacksNewline();
    PyTailLines(r);
    SplitLine("  Keyword arguments:", rows + tail);
  }

  /**
   * The lines of the wrapper, from the lines of its comment block and of its
   * argument list: four lines, the comment block, the heading of the argument
   * list, its rows, and the three last lines.
   */
  lemma PyLinesOf(first: string, helper: string, r: string, block: string, rows: string, comment: seq<string>, rowLines: seq<string>)
    requires '\n' !in first && '\n' !in helper && '\n' !in r
    requires Split(rows + ("  \"\"\"" + "\n" + (r + "\n" + "")), '\n')
          == rowLines + Split("  \"\"\"" + "\n" + (r + "\n" + ""), '\n')
    requires Split(block + ("  Keyword arguments:" + "\n" + (rows + ("  \"\"\"" + "\n" + (r + "\n" + "")))), '\n')
          == comment + Split("  Keyword arguments:" + "\n" + (rows + ("  \"\"\"" + "\n" + (r + "\n" + ""))), '\n')
    ensures Split(first + "\n" + ("  \"\"\"" + "\n" + (helper + "\n" + ("" + "\n"
                  + (block + ("  Keyword arguments:" + "\n" + (rows + ("  \"\"\"" + "\n" + (r + "\n" + "")))))))), '\n')
         == [first, "  \"\"\"", helper, ""] + comment + ["  Keyword arguments:"] + rowLines + ["  \"\"\"", r, ""]
  {
    var body := block + ("  Keyword arguments:" + "\n" + (rows + ("  \"\"\"" + "\n" + (r + "\n" + ""))));
    var bodyLines := comment + (["  Keyword arguments:"] + (rowLines + ["  \"\"\"", r, ""]));
    PyBodyLines(r, block, rows, comment, rowLines);
    PyHeadLines(first, helper, body, bodyLines);
  }

  /**
   * The lines of the Python wrapper: the `def` line with one keyword per entry,
   * the docstring's opening, the line naming the enum, a blank line, one
   * comment line per line of `getDoc()`, the heading of the argument list, one
   * row per entry, the docstring's end, and the `return` line with one element
   * per entry.
   */
  lemma PyLines(s: Scheme)
    requires s.Renderable() && |s.entries| > 0
    requires '\n' !in s.name && '\n' !in s.enumHeader.value
    requires forall i :: 0 <= i < |s.entries| ==> IsWord(s.entries[i].name) && OneLine(s.entries[i])
    ensures Split(PyText(s).value, '\n')
         == ["def " + s.name + "(" + Join(",", Keywords(s.entries)) + "):",
             "  \"\"\"",
             "  Helper function for '" + s.enumHeader.value + "'",
             ""]
            + PrefixEach("  ", Split(GetDoc(s), '\n'))
            + ["  Keyword arguments:"]
            + RowLines(s.entries, MaxNameLen(s.entries))
            + ["  \"\"\"", "  return [" + Join(",", Names(s.entries)) + "]", ""]
  {
    var h := s.enumHeader.value;
    var signature := "def " + s.name + "(" + Join(",", Keywords(s.entries));
    var result := "  return [" + Join(",", Names(s.entries));
    var block := Commented("  ", GetDoc(s));
    var width := MaxNameLen(s.entries);
    var rows := Rows(s.entries, width);
    var tail := "  \"\"\"" + "\n" + ((result + "]") + "\n" + "");
    var args := "  Keyword arguments:" + "\n" + (rows + tail);
    PyLinesShape(signature, h, block, rows, result);
    assert PyText(s).value == (signature + "):") + "\n" + ("  \"\"\"" + "\n" + (("  Helper function for '" + h + "'") + "\n"
                              + ("" + "\n" + (block + args))));
    ListsLackNewline(s.entries);
    assert '\n' !in signature + "):" && '\n' !in result + "]";
    assert '\n' !in "  Helper function for '" + h + "'";
    RowsThen(s.entries, width, tail);
    CommentedThen("  ", GetDoc(s), args);
    PyLinesOf(signature + "):", "  Helper function for '" + h + "'", result + "]", block, rows,
              PrefixEach("  ", Split(GetDoc(s), '\n')), RowLines(s.entries, width));
  }

  /** The loop of `pycode` that writes the argument list of the docstring. */
  method RowsText(es: seq<Entry>, width: nat) returns (rows: string)
    requires forall i :: 0 <= i < |es| ==> es[i].enumConst.Some? && |es[i].name| <= width
    ensures rows == Rows(es, width)
  {
    rows := "";
    for i := 0 to |es|
      invariant rows == Rows(es[..i], width)
    {
      assert es[..i + 1][..i] == es[..i];
      var row := "    " + es[i].name + Spaces(width - |es[i].name|) + " -- "
                 + es[i].doc + " [" + es[i].enumConst.value + "]\n";
      rows := rows + row;
    }
    assert es[..|es|] == es;
  }

  /** `pycode()`: the keyword and return lists are comma lists, the rows a loop; `None` where `max([])` raises. */
  method PyCode(s: Scheme) returns (r: Option<string>)
    requires s.Renderable()
    ensures r == PyText(s)
  {
    var signature := CommaJoined("def " + s.name + "(", Keywords(s.entries));
    if |s.entries| == 0 {
      return None;
    }
    var rows := RowsText(s.entries, MaxNameLen(s.entries));
    var result := CommaJoined("  return [", Names(s.entries));
    r := Some(signature + "):\n"
              + "  \"\"\"\n"
              + "  Helper function for '" + s.enumHeader.value + "'\n\n"
              + Commented("  ", GetDoc(s))
              + "  Keyword arguments:\n"
              + rows
              + "  \"\"\"\n"
              + result + "]\n");
  }
}
