// ODB schema text generation for the sky-model service: a spreadsheet row
// describing one database column becomes a `Field`, and a `Field` prints as
// a commented, pragma-annotated C++ member declaration. Reading the
// spreadsheet (pandas) is not modelled; rows arrive already loaded.

module SchemaGenerate {
  import opened Common

  /** One spreadsheet row, after `load` has dropped incomplete rows and filled blanks with "". */
  datatype Row = Row(name: string, description: string, sqlType: string, units: string,
                     index: bool, nullable: bool, lsmView: bool)

  datatype Field = Field(name: string, comment: string, dtype: string, units: string,
                         indexed: bool, nullable: bool, lsmView: bool)

  /** SQL column types and the C++ types they become. */
  const TypeMap: map<string, string> := map[
    "BIGINT" := "long",
    "BIGINT UNSIGNED" := "unsigned long",
    "REAL" := "float",
    "DOUBLE" := "double",
    "VARCHAR" := "std::string",
    "TEXT" := "std::string",
    "BOOLEAN" := "bool",
    "INTEGER" := "int",
    "INTEGER UNSIGNED" := "unsigned int",
    "DATETIME" := "boost::posix_time::ptime"
  ]

  /** A C++ type the map can produce. */
  predicate IsMappedType(t: string)
  {
    t in TypeMap.Values
  }

  /** No mapped C++ type starts with '#' or '/', so a declaration never looks like a pragma or comment. */
  lemma MappedTypesStartPlainly(t: string)
    requires IsMappedType(t)
    ensures |t| > 0 && t[0] != '#' && t[0] != '/'
  {
    var k :| k in TypeMap && TypeMap[k] == t;
  }

  /** `Field.__init__`: an unmapped SQL type is a `KeyError`. */
  function NewField(row: Row): (r: Result<Field>)
    ensures r.Err? <==> Strip(row.sqlType) !in TypeMap
    ensures r.Ok? ==> r.value.dtype == TypeMap[Strip(row.sqlType)] && IsMappedType(r.value.dtype)
    ensures r.Ok? ==> r.value.name == Strip(row.name) && r.value.comment == Strip(row.description)
                      && r.value.units == Strip(row.units)
    ensures r.Ok? ==> r.value.indexed == row.index && r.value.nullable == row.nullable
                      && r.value.lsmView == row.lsmView
  {
    var t := Strip(row.sqlType);
    if t !in TypeMap then Err("KeyError: " + t)
    else Ok(Field(Strip(row.name), Strip(row.description), TypeMap[t], Strip(row.units),
                  row.index, row.nullable, row.lsmView))
  }

  /**
   * `Field._comment`: a Doxygen brief holding the comment, then the units in
   * parentheses when there are any. It is one line exactly when neither the
   * comment nor the units hold a line break.
   */
  function CommentLine(f: Field): (c: string)
    ensures StartsWith(c, "/// @brief " + f.comment)
    ensures f.units != "" ==> var u := " (" + f.units + ")"; |u| <= |c| && c[|c| - |u|..] == u
    ensures |c| == |"/// @brief " + f.comment| + (if f.units == "" then 0 else |f.units| + 3)
    ensures '\n' in c <==> '\n' in f.comment || '\n' in f.units
  {
    if f.units != "" then "/// @brief " + f.comment + " (" + f.units + ")"
    else "/// @brief " + f.comment
  }

  const IndexPragma: string := "#pragma db index"
  const NullPragma: string := "#pragma db null"
  const NotNullPragma: string := "#pragma db not_null"

  /** The member declaration line. */
  function Declaration(f: Field): string
  {
    f.dtype + " " + f.name + ";"
  }

  /**
   * The lines `Field.__str__` joins: the comment, the (always empty) magic
   * pragmas, the index pragma, the nullability pragma, the declaration and a
   * final "\n" element.
   */
  function Lines(f: Field): (ls: seq<string>)
    ensures |ls| == (if f.indexed then 5 else 4)
    ensures ls[0] == CommentLine(f) && ls[|ls| - 2] == Declaration(f) && ls[|ls| - 1] == "\n"
    ensures ls[|ls| - 3] == (if f.nullable then NullPragma else NotNullPragma)
    ensures f.indexed ==> ls[1] == IndexPragma
  {
    [CommentLine(f)]
    + (if f.indexed then [IndexPragma] else [])
    + [if f.nullable then NullPragma else NotNullPragma]
    + [Declaration(f), "\n"]
  }

  /** `sep.join(parts)`. */
  function Join(parts: seq<string>, sep: string): (r: string)
    ensures |parts| == 1 ==> r == parts[0]
  {
    if |parts| == 0 then "" else if |parts| == 1 then parts[0]
    else parts[0] + sep + Join(parts[1..], sep)
  }

  /**
   * `Field.__str__`: the field starts with its comment line and ends with
   * its declaration followed by an empty line, so fields written one after
   * the other are separated by a blank line.
   */
  function Render(f: Field): (r: string)
    ensures StartsWith(r, CommentLine(f) + "\n")
    ensures var d := Declaration(f) + "\n\n"; |d| <= |r| && r[|r| - |d|..] == d
  {
    JoinedLinesStart(f);
    JoinedLinesEnd(f);
    Join(Lines(f), "\n")
  }

  /** `get_fields`: one field per row, in row order; the first bad type aborts. */
  function GetFields(rows: seq<Row>): (r: Result<seq<Field>>)
    ensures r.Ok? <==> forall i :: 0 <= i < |rows| ==> NewField(rows[i]).Ok?
    ensures r.Ok? ==> |r.value| == |rows|
                      && forall i :: 0 <= i < |rows| ==> NewField(rows[i]) == Ok(r.value[i])
  {
    var f := (row: Row) => NewField(row);
    CollectMeaning(f, rows);
    Collect(f, rows)
  }

  /** The index pragma appears iff the field is indexed. */
  lemma IndexPragmaIffIndexed(f: Field)
    requires IsMappedType(f.dtype)
    ensures IndexPragma in Lines(f) <==> f.indexed
  {
    MappedTypesStartPlainly(f.dtype);
    var ls := Lines(f);
    assert CommentLine(f)[0] == '/';
    assert Declaration(f)[0] == f.dtype[0];
    if !f.indexed {
      forall i | 0 <= i < |ls| ensures ls[i] != IndexPragma {
        assert |IndexPragma| == 16 && |NullPragma| == 15 && |NotNullPragma| == 19;
        assert ls[i] == ls[0] || ls[i] == NullPragma || ls[i] == NotNullPragma
               || ls[i] == Declaration(f) || ls[i] == "\n";
      }
    }
  }

  /** Exactly one nullability pragma is emitted, the one `nullable` selects. */
  lemma ExactlyOneNullability(f: Field)
    requires IsMappedType(f.dtype)
    ensures NullPragma in Lines(f) <==> f.nullable
    ensures NotNullPragma in Lines(f) <==> !f.nullable
  {
    MappedTypesStartPlainly(f.dtype);
    var ls := Lines(f);
    assert CommentLine(f)[0] == '/';
    assert Declaration(f)[0] == f.dtype[0];
    assert |IndexPragma| == 16 && |NullPragma| == 15 && |NotNullPragma| == 19;
    forall i | 0 <= i < |ls|
      ensures ls[i] == NullPragma ==> f.nullable
      ensures ls[i] == NotNullPragma ==> !f.nullable
    {
      assert ls[i] == ls[0] || ls[i] == IndexPragma || ls[i] == ls[|ls| - 3]
             || ls[i] == Declaration(f) || ls[i] == "\n";
    }
  }

  /** A well-formed row whose text needs no trimming is rendered with its own name and mapped type. */
  lemma DeclarationOfCleanRow(row: Row)
    requires row.sqlType in TypeMap && Strip(row.sqlType) == row.sqlType
    requires Strip(row.name) == row.name
    ensures NewField(row).Ok?
    ensures Declaration(NewField(row).value) == TypeMap[row.sqlType] + " " + row.name + ";"
  {
  }

  /** Appending a part adds the separator and the part at the end. */
  lemma {:induction false} JoinSnoc(parts: seq<string>, x: string, sep: string)
    requires |parts| >= 1
    ensures Join(parts + [x], sep) == Join(parts, sep) + sep + x
  {
    if |parts| > 1 {
      assert (parts + [x])[1..] == parts[1..] + [x];
      JoinSnoc(parts[1..], x, sep);
    }
  }

  /** The joined lines start with the comment line and a newline. */
  lemma JoinedLinesStart(f: Field)
    ensures StartsWith(Join(Lines(f), "\n"), CommentLine(f) + "\n")
  {
    var ls := Lines(f);
    var p := CommentLine(f) + "\n";
    var r := p + Join(ls[1..], "\n");
    assert Join(ls, "\n") == r;
    assert r[..|p|] == p;
  }

  /** The joined lines end with the declaration followed by an empty line. */
  lemma JoinedLinesEnd(f: Field)
    ensures var r := Join(Lines(f), "\n"); var d := Declaration(f) + "\n\n";
            |d| <= |r| && r[|r| - |d|..] == d
  {
    var ls := Lines(f);
    var n := |ls|;
    var init := ls[..n - 2];
    assert ls == init + [Declaration(f)] + ["\n"];
    JoinLastTwo(init, Declaration(f), "\n", "\n");
    EndsWith(Join(init, "\n") + "\n", Declaration(f) + "\n\n");
  }

  /** When neither the comment nor the units hold a line break, the first line of the printed field is its comment line. */
  lemma CommentIsFirstLine(f: Field)
    requires '\n' !in f.comment && '\n' !in f.units
    ensures var r, c := Render(f), CommentLine(f);
            |c| < |r| && r[|c|] == '\n' && forall k :: 0 <= k < |c| ==> r[k] != '\n'
  {
    var r, c := Render(f), CommentLine(f);
    assert r[..|c| + 1] == c + "\n";
    forall k | 0 <= k < |c| ensures r[k] != '\n' {
      assert r[k] == c[k];
    }
  }

  /** Two parts appended: each is preceded by the separator. */
  lemma JoinLastTwo(parts: seq<string>, a: string, b: string, sep: string)
    requires |parts| >= 1
    ensures Join(parts + [a] + [b], sep) == Join(parts, sep) + sep + a + sep + b
  {
    JoinSnoc(parts, a, sep);
    JoinSnoc(parts + [a], b, sep);
  }

  lemma EndsWith(pre: string, d: string)
    ensures (pre + d)[|pre + d| - |d|..] == d
  {
  }
}
