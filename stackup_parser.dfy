/** The stackup parser: turns the rows of a stackup CSV table, already split
    into header-keyed cells, into layer records. Rows without a design layer
    name are skipped; every kept row gains its thickness in millimetres.
    Reading the file and splitting it into rows is not part of this model:
    the rows are the input. Python's float() on a cell is the parameter
    `toFloat`, which answers None where float() would raise. */
module StackupParser {

  /** A CSV row as the CSV reader yields it: column header to cell text.
      A key is absent when the table has no such column. */
  type Row = map<string, string>

  const NameKey := "Design Layer Name"
  const ThicknessKey := "Thickness (um)"
  /** The key under which the parser stores the derived thickness. */
  const ThicknessMmKey := "thickness_mm"

  datatype Option<T> = None | Some(value: T)

  /** Why reading a stack entry failed, and at which entry (0-based). */
  datatype Error =
    | MissingField(index: nat, key: string)  // the table has no such column: KeyError
    | NotANumber(index: nat, key: string)    // float() rejects the cell text: ValueError

  datatype Result<T> = Ok(value: T) | Err(error: Error) {
    predicate IsFailure() { Err? }
    function PropagateFailure<U>(): Result<U> requires Err? { Err(error) }
    function Extract(): T requires Ok? { value }
  }

  /** A kept row: its cells, and the numeric thickness in millimetres that
      the parser stored under "thickness_mm" (replacing any cell of that name). */
  datatype LayerRecord = LayerRecord(fields: Row, thicknessMm: real)

  /** Whether a row names a design layer: the cell is there and not empty. */
  predicate HasName(row: Row) {
    NameKey in row && row[NameKey] != ""
  }

  /** float(fields[key]) for the entry at `index`, or the error Python raises. */
  function Number(fields: Row, index: nat, key: string, toFloat: string -> Option<real>): Result<real> {
    if key !in fields then Err(MissingField(index, key))
    else match toFloat(fields[key])
      case None => Err(NotANumber(index, key))
      case Some(v) => Ok(v)
  }

  /** The thickness cell of a row reads as a number. */
  predicate ThicknessReadable(row: Row, toFloat: string -> Option<real>) {
    Number(row, 0, ThicknessKey, toFloat).Ok?
  }

  /** `rec` is what the parser makes of `row`: the same cells, with
      "thickness_mm" set to the micrometre thickness times 1e-3. */
  predicate Derived(row: Row, rec: LayerRecord, toFloat: string -> Option<real>) {
    && ThicknessKey in row
    && toFloat(row[ThicknessKey]).Some?
    && rec.thicknessMm == toFloat(row[ThicknessKey]).value * 0.001
    && rec.fields == row - {ThicknessMmKey}
  }

  /** The positions of the rows the parser keeps, in increasing order:
      exactly the rows that name a design layer. */
  function KeptIndices(rows: seq<Row>): (ks: seq<nat>)
    ensures forall i :: 0 <= i < |ks| ==> ks[i] < |rows| && HasName(rows[ks[i]])
    ensures forall i, j :: 0 <= i < j < |ks| ==> ks[i] < ks[j]
    ensures forall j :: 0 <= j < |rows| && HasName(rows[j]) ==> j in ks
  {
    if rows == [] then []
    else
      var n := |rows| - 1;
      KeptIndices(rows[..n]) + (if HasName(rows[n]) then [n] else [])
  }

  /** The positions of all rows that name a design layer. */
  function NamedPositions(rows: seq<Row>): set<nat> {
    set j: nat | j < |rows| && HasName(rows[j])
  }

  /** Adding a row at the end adds its position if it names a layer. */
  lemma NamedPositionsSnoc(rows: seq<Row>)
    requires rows != []
    ensures NamedPositions(rows) ==
      NamedPositions(rows[..|rows| - 1]) + (if HasName(rows[|rows| - 1]) then {|rows| - 1} else {})
  {
    var n := |rows| - 1;
    var prefix := rows[..n];
    var extra: set<nat> := if HasName(rows[n]) then {n} else {};
    forall j: nat | j in NamedPositions(rows) ensures j in NamedPositions(prefix) + extra {
      if j < n { assert prefix[j] == rows[j]; }
    }
    forall j: nat | j in NamedPositions(prefix) + extra ensures j in NamedPositions(rows) {
      if j < n { assert prefix[j] == rows[j]; }
    }
  }

  /** The number of kept rows is the number of rows that name a layer. */
  lemma {:induction false} KeptCount(rows: seq<Row>)
    ensures |KeptIndices(rows)| == |NamedPositions(rows)|
  {
    if rows != [] {
      var n := |rows| - 1;
      KeptCount(rows[..n]);
      NamedPositionsSnoc(rows);
      assert n !in NamedPositions(rows[..n]);
    }
  }

  /** The loop of parse_stackup: skip rows without a layer name; for the
      others read the thickness and append the row with "thickness_mm".
      The first named row whose thickness cannot be read raises, and nothing
      is returned. */
  method ParseStackup(rows: seq<Row>, toFloat: string -> Option<real>) returns (r: Result<seq<LayerRecord>>)
    ensures r.Ok? <==> forall j :: 0 <= j < |rows| && HasName(rows[j]) ==> ThicknessReadable(rows[j], toFloat)
    ensures r.Ok? ==> |r.value| == |KeptIndices(rows)|
    ensures r.Ok? ==> forall i :: 0 <= i < |r.value| ==> Derived(rows[KeptIndices(rows)[i]], r.value[i], toFloat)
    ensures r.Err? ==>
      && r.error.index < |rows|
      && HasName(rows[r.error.index])
      && Number(rows[r.error.index], r.error.index, ThicknessKey, toFloat) == Err(r.error)
      && forall j :: 0 <= j < r.error.index && HasName(rows[j]) ==> ThicknessReadable(rows[j], toFloat)
  {
    var stack: seq<LayerRecord> := [];
    var i := 0;
    while i < |rows|
      invariant 0 <= i <= |rows|
      invariant forall j :: 0 <= j < i && HasName(rows[j]) ==> ThicknessReadable(rows[j], toFloat)
      invariant |stack| == |KeptIndices(rows[..i])|
      invariant forall k :: 0 <= k < |stack| ==> Derived(rows[KeptIndices(rows[..i])[k]], stack[k], toFloat)
    {
      var row := rows[i];
      assert rows[..i + 1][..i] == rows[..i];
      if !HasName(row) {
        i := i + 1;
        continue;
      }
      var t := Number(row, i, ThicknessKey, toFloat);
      if t.Err? {
        return Err(t.error);
      }
      stack := stack + [LayerRecord(row - {ThicknessMmKey}, t.value * 0.001)];
      i := i + 1;
    }
    assert rows[..|rows|] == rows;
    return Ok(stack);
  }
}
