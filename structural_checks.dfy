/**
  Specification of the numerical-column check: the two lists the check
  accumulates while it walks the schema's `numerical_columns`, and what they
  mean for the check's verdict.
 */
module StructuralChecks {
  import opened Tables

  /** The names recorded as "missing" after visiting `names` in order. */
  function MissingColumns(t: Table, names: seq<string>): seq<string>
    decreases |names|
  {
    if names == [] then []
    else
      var last := names[|names| - 1];
      MissingColumns(t, names[..|names| - 1]) + (if !t.Has(last) then [last] else [])
  }

  /** The names recorded as "non-numeric" after visiting `names` in order. */
  function NonNumericalColumns(t: Table, names: seq<string>): seq<string>
    decreases |names|
  {
    if names == [] then []
    else
      var last := names[|names| - 1];
      NonNumericalColumns(t, names[..|names| - 1])
        + (if t.Has(last) && !t.Get(last).numeric then [last] else [])
  }

  /** Every declared numerical column is present in the table and numeric. */
  predicate NumericallyValid(t: Table, names: seq<string>) {
    forall n :: n in names ==> t.Has(n) && t.Get(n).numeric
  }

  /** A name is recorded as missing exactly when it is declared and absent. */
  lemma {:induction false} MissingColumnsExactly(t: Table, names: seq<string>)
    ensures forall n :: n in MissingColumns(t, names) <==> n in names && !t.Has(n)
    decreases |names|
  {
    if names != [] {
      var init := names[..|names| - 1];
      MissingColumnsExactly(t, init);
      assert names == init + [names[|names| - 1]];
    }
  }

  /** A name is recorded as non-numeric exactly when it is declared, present and not numeric. */
  lemma {:induction false} NonNumericalColumnsExactly(t: Table, names: seq<string>)
    ensures forall n :: n in NonNumericalColumns(t, names) <==>
      n in names && t.Has(n) && !t.Get(n).numeric
    decreases |names|
  {
    if names != [] {
      var init := names[..|names| - 1];
      NonNumericalColumnsExactly(t, init);
      assert names == init + [names[|names| - 1]];
    }
  }

  /** An absent column is recorded only as missing, never also as non-numeric. */
  lemma AbsentColumnOnlyMissing(t: Table, names: seq<string>, n: string)
    requires n in names && !t.Has(n)
    ensures n in MissingColumns(t, names)
    ensures n !in NonNumericalColumns(t, names)
  {
    MissingColumnsExactly(t, names);
    NonNumericalColumnsExactly(t, names);
  }

  /** Both lists are empty exactly when every declared numerical column is present and numeric. */
  lemma NumericalCheckPassesIff(t: Table, names: seq<string>)
    ensures (MissingColumns(t, names) == [] && NonNumericalColumns(t, names) == [])
      <==> NumericallyValid(t, names)
  {
    MissingColumnsExactly(t, names);
    NonNumericalColumnsExactly(t, names);
    if !NumericallyValid(t, names) {
      var n :| n in names && !(t.Has(n) && t.Get(n).numeric);
      if t.Has(n) {
        assert n in NonNumericalColumns(t, names);
      } else {
        assert n in MissingColumns(t, names);
      }
    }
  }

  /**
    The verdict depends only on which names are declared, not on their order
    (nor on repetitions): the two lists come out empty for both orders or for neither.
   */
  lemma NumericalCheckIgnoresOrder(t: Table, names: seq<string>, names': seq<string>)
    requires forall n :: n in names <==> n in names'
    ensures (MissingColumns(t, names) == [] && NonNumericalColumns(t, names) == [])
      == (MissingColumns(t, names') == [] && NonNumericalColumns(t, names') == [])
  {
    NumericalCheckPassesIff(t, names);
    NumericalCheckPassesIff(t, names');
  }
}
