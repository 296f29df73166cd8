/**
 * The scheme model: an input or output scheme of CasADi's helper-function
 * generator. `Scheme` is a scheme as a value; `Enum` is the object the scanner
 * builds and updates line by line, whose role replaces the subclasses
 * `Input` and `Output`.
 */
module Schemes {
  import opened Common

  /** The subclass of `Enum` a scheme belongs to. */
  datatype Role = Input | Output

  /** The subclass's name, which the enum header has to end with. */
  function RoleName(role: Role): string
  {
    match role
    case Input => "Input"
    case Output => "Output"
  }

  /** The words that open an intro line of this role, `Input arguments` or `Output arguments`. */
  function Marker(role: Role): string
  {
    RoleName(role) + " arguments"
  }

  /**
   * One entry of `entries`: the Python list `[name, doc]`, or `[name, doc, enum]`
   * once `addEnum` has given it its constant.
   */
  datatype Entry = Entry(name: string, doc: string, enumConst: Option<string>)

  /** The exceptions that abort the generator, and the hang on a missing terminator. */
  datatype Failure =
    | Unterminated(scheme: string)     // end of file inside a scheme body (the original loops forever)
    | NoEntryForEnum(constant: string)  // `addEnum` on an empty entry list: IndexError
    | EnumAlreadyGiven(constant: string) // `addEnum` on an entry that has its constant already
    | IncompleteEntry                   // `checkconsistency`: an entry without three fields
    | MissingHeader                     // `checkconsistency`: no enum header seen (AttributeError)
    | HeaderSuffix                      // `checkconsistency`: header does not end with the role name
    | ReservedConstant                  // `checkconsistency`: a constant contains "_NUM_"
    | NoEntries                         // `pycode`: `max([])` on an empty entry list

  /** A scheme as a value: the fields of an `Enum` object. */
  datatype Scheme = Scheme(role: Role, name: string, doc: string, enumHeader: Option<string>, entries: seq<Entry>)
  {
    /** Every field the renderers read is there: the header, and a constant in every entry. */
    predicate Renderable()
    {
      enumHeader.Some? && forall i :: 0 <= i < |entries| ==> entries[i].enumConst.Some?
    }

    /** `addDoc`: one more line of documentation, terminated by a newline. */
    function WithDoc(line: string): (s: Scheme)
      ensures |s.doc| == |doc| + |line| + 1
      ensures s.doc[..|doc|] == doc && s.doc[|doc|..] == line + "\n"
      ensures s.(doc := doc) == this
    {
      this.(doc := doc + line + "\n")
    }

    /** `addArg`: exactly one entry more, at the end, still without its constant. */
    function WithArg(argName: string, argDoc: string): (s: Scheme)
      ensures |s.entries| == |entries| + 1 && s.entries[..|entries|] == entries
      ensures s.entries[|entries|] == Entry(argName, argDoc, None)
      ensures s.(entries := entries) == this
    {
      this.(entries := entries + [Entry(argName, argDoc, None)])
    }

    /** `addEnum`: the constant goes to the last entry, which must exist and must not have one yet. */
    function WithEnum(c: string): (r: Result<Scheme, Failure>)
      ensures |entries| == 0 ==> r == Err(NoEntryForEnum(c))
      ensures |entries| > 0 && entries[|entries| - 1].enumConst.Some? ==> r == Err(EnumAlreadyGiven(c))
      ensures r.Ok? <==> |entries| > 0 && entries[|entries| - 1].enumConst.None?
      ensures r.Ok? ==> (|r.value.entries| == |entries|
                     && r.value.entries[..|entries| - 1] == entries[..|entries| - 1]
                     && r.value.entries[|entries| - 1] == entries[|entries| - 1].(enumConst := Some(c))
                     && r.value.(entries := entries) == this)
    {
      if |entries| == 0 then Err(NoEntryForEnum(c))
      else
        var last := entries[|entries| - 1];
        if last.enumConst.Some? then Err(EnumAlreadyGiven(c))
        else Ok(this.(entries := entries[..|entries| - 1] + [last.(enumConst := Some(c))]))
    }

    /** `addEnumheader`: overwrites the header, so the last one given wins. */
    function WithHeader(h: string): (s: Scheme)
      ensures s.enumHeader == Some(h) && s.(enumHeader := enumHeader) == this
    {
      this.(enumHeader := Some(h))
    }
  }

  /**
   * The object the scanner fills in (class `Enum` with its subclasses `Input`
   * and `Output`): name and role are fixed, the documentation, the entry list
   * and the enum header change in place.
   */
  class Enum {
    const role: Role
    const name: string
    var doc: string
    var entries: seq<Entry>
    var enumHeader: Option<string>

    /** `Input(name, doc)` / `Output(name, doc)`: the intro text plus a newline, no entries, no header. */
    constructor (role: Role, name: string, doc: string)
      ensures this.role == role && this.name == name && this.doc == doc + "\n"
      ensures entries == [] && enumHeader == None
    {
      this.role := role;
      this.name := name;
      this.doc := doc + "\n";
      entries := [];
      enumHeader := None;
    }

    /** The object's fields as a value. */
    function Value(): Scheme
      reads this
    {
      Scheme(role, name, doc, enumHeader, entries)
    }

    method AddArg(argName: string, argDoc: string)
      modifies this
      ensures entries == old(entries) + [Entry(argName, argDoc, None)]
      ensures Value() == old(Value()).WithArg(argName, argDoc)
    {
      entries := entries + [Entry(argName, argDoc, None)];
    }

    method AddDoc(line: string)
      modifies this
      ensures doc == old(doc) + line + "\n"
      ensures Value() == old(Value()).WithDoc(line)
    {
      doc := doc + line + "\n";
    }

    /** Returns the exception `addEnum` raises, if any; the object is then left as it was. */
    method AddEnum(c: string) returns (failure: Option<Failure>)
      modifies this
      ensures old(Value()).WithEnum(c).Err? ==> failure == Some(old(Value()).WithEnum(c).error) && Value() == old(Value())
      ensures old(Value()).WithEnum(c).Ok? ==> failure == None && Value() == old(Value()).WithEnum(c).value
    {
      if |entries| == 0 {
        return Some(NoEntryForEnum(c));
      }
      var last := entries[|entries| - 1];
      if last.enumConst.Some? {
        return Some(EnumAlreadyGiven(c));
      }
      entries := entries[..|entries| - 1] + [last.(enumConst := Some(c))];
      return None;
    }

    method AddEnumheader(h: string)
      modifies this
      ensures enumHeader == Some(h)
      ensures Value() == old(Value()).WithHeader(h)
    {
      enumHeader := Some(h);
    }
  }
}
