/**
  An abstraction of the data frames the validator works on: an ordered
  sequence of named columns, each with a numeric type tag (standing for
  pandas' numeric dtype check) and its cells.
 */
module Tables {

  /** One cell as read from a comma-separated file. */
  datatype Cell = Number(x: real) | Text(s: string) | Blank

  datatype Column = Column(name: string, numeric: bool, values: seq<Cell>)

  /** Index of the first column called `name`; the column a lookup by name selects. */
  function FirstNamed(cols: seq<Column>, name: string): (k: nat)
    requires exists i :: 0 <= i < |cols| && cols[i].name == name
    ensures k < |cols| && cols[k].name == name
    ensures forall j :: 0 <= j < k ==> cols[j].name != name
  {
    if cols[0].name == name then 0
    else
      assert exists i :: 0 <= i < |cols[1..]| && cols[1..][i].name == name by {
        var i :| 0 <= i < |cols| && cols[i].name == name;
        assert cols[1..][i - 1] == cols[i];
      }
      1 + FirstNamed(cols[1..], name)
  }

  datatype Table = Table(columns: seq<Column>) {

    /** Number of columns, `len(df.columns)`. */
    function Width(): nat {
      |columns|
    }

    /** `name in df.columns`. */
    predicate Has(name: string) {
      exists i :: 0 <= i < |columns| && columns[i].name == name
    }

    /** `df[name]`. */
    function Get(name: string): (c: Column)
      requires Has(name)
      ensures c in columns && c.name == name
    {
      columns[FirstNamed(columns, name)]
    }

    /** Column names are pairwise distinct, as they are in a frame read from a file. */
    predicate DistinctNames() {
      forall i, j :: 0 <= i < j < |columns| ==> columns[i].name != columns[j].name
    }
  }
}
