/** The two filter selectors: their option lists, and the narrowing of `df`
    into `df_filtrado`. A selection is a plain string; `"Todos"` is the
    wildcard that leaves the table alone. */
module Filters {
  import opened Tables
  import opened StringOrder

  /** The wildcard option heading both lists. */
  const Todos: string := "Todos"

  /** The two filterable columns. */
  datatype Column = Manager | Coordinator

  function Field(r: Row, c: Column): Option<string>
  {
    match c
    case Manager => r.manager
    case Coordinator => r.coordinator
  }

  /** The column `c` of a table, nulls included. */
  function ColumnOf(df: seq<Row>, c: Column): (col: seq<Option<string>>)
    ensures |col| == |df|
    ensures forall i :: 0 <= i < |df| ==> col[i] == Field(df[i], c)
  {
    seq(|df|, i requires 0 <= i < |df| => Field(df[i], c))
  }

  // ---------------------------------------------------------------------------
  // Option lists

  /** Strictly ascending in Python's string order: sorted and without repeats. */
  predicate Ascending(t: seq<string>)
  {
    forall i, j :: 0 <= i < j < |t| ==> Less(t[i], t[j])
  }

  lemma ConsAscending(h: string, t: seq<string>)
    requires Ascending(t)
    requires t != [] ==> Less(h, t[0])
    ensures Ascending([h] + t)
  {
    forall j | 0 < j < |t| ensures Less(h, t[j]) {
      LessTransitive(h, t[0], t[j]);
    }
  }

  /** Adds a name to an ascending list of distinct names, unless already there. */
  function InsertName(t: seq<string>, x: string): (r: seq<string>)
    requires Ascending(t)
    ensures Ascending(r)
    ensures forall y :: y in r <==> y in t || y == x
    ensures r != [] && (r[0] == x || (t != [] && r[0] == t[0]))
  {
    if t == [] then [x]
    else if x == t[0] then t
    else if Less(x, t[0]) then
      ConsAscending(x, t);
      [x] + t
    else
      LessTotal(x, t[0]);
      var rest := InsertName(t[1..], x);
      assert t == [t[0]] + t[1..];
      ConsAscending(t[0], rest);
      [t[0]] + rest
  }

  /** `sorted(column.dropna().unique().tolist())`: each non-null value of the
      column once, in ascending order. */
  function SortedNames(col: seq<Option<string>>): (names: seq<string>)
    ensures Ascending(names)
    ensures forall y :: y in names <==> Some(y) in col
  {
    if col == [] then []
    else
      var prefix := col[..|col| - 1];
      assert col == prefix + [col[|col| - 1]];
      match col[|col| - 1]
      case None => SortedNames(prefix)
      case Some(x) => InsertName(SortedNames(prefix), x)
  }

  /** `gerentes` (for `Manager`) and `coordenadores` (for `Coordinator`):
      the wildcard, then every name of the column once, ascending. */
  function Options(df: seq<Row>, c: Column): (opts: seq<string>)
    ensures |opts| >= 1 && opts[0] == Todos
    ensures Ascending(opts[1..])
    ensures forall y :: y in opts[1..] <==> exists i :: 0 <= i < |df| && Field(df[i], c) == Some(y)
  {
    var col := ColumnOf(df, c);
    var names := SortedNames(col);
    assert forall y :: Some(y) in col <==> exists i :: 0 <= i < |df| && Field(df[i], c) == Some(y);
    [Todos] + names
  }

  /** Two ascending lists with the same elements are equal: the option list is
      the only sorted, repeat-free list of the column's names. */
  lemma {:induction false} AscendingUnique(a: seq<string>, b: seq<string>)
    requires Ascending(a) && Ascending(b)
    requires forall y :: y in a <==> y in b
    ensures a == b
  {
    assert a != [] ==> a[0] in a;
    assert b != [] ==> b[0] in b;
    if a != [] && b != [] {
      if a[0] != b[0] {
        assert a[0] in b;
        assert b[0] in a;
        var i :| 0 <= i < |b| && b[i] == a[0];
        var j :| 0 <= j < |a| && a[j] == b[0];
        LessAsymmetric(a[0], b[0]);
      }
      forall y ensures y in a[1..] <==> y in b[1..] {
        if y in a[1..] {
          var i :| 0 <= i < |a[1..]| && a[1..][i] == y;
          assert Less(a[0], a[i + 1]);
          LessIrreflexive(y);
          assert y in b;
        }
        if y in b[1..] {
          var i :| 0 <= i < |b[1..]| && b[1..][i] == y;
          assert Less(b[0], b[i + 1]);
          LessIrreflexive(y);
          assert y in a;
        }
      }
      AscendingUnique(a[1..], b[1..]);
      assert a == [a[0]] + a[1..] && b == [b[0]] + b[1..];
    }
  }

  // ---------------------------------------------------------------------------
  // Filtering

  /** `df[df[col] == name]`: the rows whose column equals `name`, in order; a
      null never equals a name, so rows with a null there are dropped. */
  function Matching(rows: seq<Row>, c: Column, name: string): (r: seq<Row>)
    ensures |r| <= |rows|
    ensures forall x :: x in r <==> x in rows && Field(x, c) == Some(name)
  {
    if rows == [] then []
    else
      assert rows == [rows[0]] + rows[1..];
      (if Field(rows[0], c) == Some(name) then [rows[0]] else []) + Matching(rows[1..], c, name)
  }

  /** One `if ..._selecionado != 'Todos'` step of app.py:63-66. */
  function Narrow(rows: seq<Row>, c: Column, sel: string): seq<Row>
  {
    if sel == Todos then rows else Matching(rows, c, sel)
  }

  /** Whether a selection lets a value through. */
  predicate Admits(sel: string, field: Option<string>)
  {
    sel == Todos || field == Some(sel)
  }

  /** The reference meaning of the two selectors: the rows of `df`, in order,
      that both selections let through. */
  function Selected(df: seq<Row>, gerente: string, coordenador: string): seq<Row>
  {
    if df == [] then []
    else
      (if Admits(gerente, df[0].manager) && Admits(coordenador, df[0].coordinator) then [df[0]] else [])
      + Selected(df[1..], gerente, coordenador)
  }

  /** `a` is `b` with some rows left out and the rest in their order. */
  predicate Subsequence(a: seq<Row>, b: seq<Row>)
    decreases |b|
  {
    if b == [] then a == []
    else (a != [] && a[0] == b[0] && Subsequence(a[1..], b[1..])) || Subsequence(a, b[1..])
  }

  lemma NarrowCons(h: Row, t: seq<Row>, c: Column, sel: string)
    ensures Narrow([h] + t, c, sel) == (if Admits(sel, Field(h, c)) then [h] else []) + Narrow(t, c, sel)
  {
    assert ([h] + t)[1..] == t;
  }

  /** Narrowing by manager, then by coordinator, is the two selections taken together. */
  lemma {:induction false} ManagerThenCoordinator(df: seq<Row>, gerente: string, coordenador: string)
    ensures Narrow(Narrow(df, Manager, gerente), Coordinator, coordenador) == Selected(df, gerente, coordenador)
  {
    if df != [] {
      var h, t := df[0], df[1..];
      ManagerThenCoordinator(t, gerente, coordenador);
      assert df == [h] + t;
      NarrowCons(h, t, Manager, gerente);
      if Admits(gerente, h.manager) {
        NarrowCons(h, Narrow(t, Manager, gerente), Coordinator, coordenador);
      } else {
        assert Narrow(df, Manager, gerente) == Narrow(t, Manager, gerente);
      }
    }
  }

  /** Narrowing by coordinator, then by manager, is the two selections taken together. */
  lemma {:induction false} CoordinatorThenManager(df: seq<Row>, gerente: string, coordenador: string)
    ensures Narrow(Narrow(df, Coordinator, coordenador), Manager, gerente) == Selected(df, gerente, coordenador)
  {
    if df != [] {
      var h, t := df[0], df[1..];
      CoordinatorThenManager(t, gerente, coordenador);
      assert df == [h] + t;
      NarrowCons(h, t, Coordinator, coordenador);
      if Admits(coordenador, h.coordinator) {
        NarrowCons(h, Narrow(t, Coordinator, coordenador), Manager, gerente);
      } else {
        assert Narrow(df, Coordinator, coordenador) == Narrow(t, Coordinator, coordenador);
      }
    }
  }

  /** The manager and coordinator filters commute. */
  lemma FiltersCommute(df: seq<Row>, gerente: string, coordenador: string)
    ensures Narrow(Narrow(df, Manager, gerente), Coordinator, coordenador) ==
            Narrow(Narrow(df, Coordinator, coordenador), Manager, gerente)
  {
    ManagerThenCoordinator(df, gerente, coordenador);
    CoordinatorThenManager(df, gerente, coordenador);
  }

  /** app.py:62-66: copy `df`, then narrow by each selection that is not the wildcard. */
  method FilterRows(df: seq<Row>, gerente: string, coordenador: string) returns (filtrado: seq<Row>)
    ensures filtrado == Selected(df, gerente, coordenador)
  {
    filtrado := df;
    if gerente != Todos {
      filtrado := Matching(filtrado, Manager, gerente);
    }
    if coordenador != Todos {
      filtrado := Matching(filtrado, Coordinator, coordenador);
    }
    ManagerThenCoordinator(df, gerente, coordenador);
  }

  /** Each row is kept as often as it occurs in `df` when both selections let
      it through, and not at all otherwise. */
  lemma {:induction false} SelectedCounts(df: seq<Row>, gerente: string, coordenador: string)
    ensures forall x :: (multiset(Selected(df, gerente, coordenador))[x] ==
      if Admits(gerente, x.manager) && Admits(coordenador, x.coordinator) then multiset(df)[x] else 0)
  {
    if df != [] {
      SelectedCounts(df[1..], gerente, coordenador);
      assert df == [df[0]] + df[1..];
    }
  }

  /** The filtered rows keep the order they have in `df`. */
  lemma {:induction false} SelectedSubsequence(df: seq<Row>, gerente: string, coordenador: string)
    ensures Subsequence(Selected(df, gerente, coordenador), df)
  {
    if df != [] {
      SelectedSubsequence(df[1..], gerente, coordenador);
      var s := Selected(df, gerente, coordenador);
      if Admits(gerente, df[0].manager) && Admits(coordenador, df[0].coordinator) {
        assert s == [df[0]] + Selected(df[1..], gerente, coordenador);
        assert s[1..] == Selected(df[1..], gerente, coordenador);
        assert s != [] && s[0] == df[0];
      } else {
        assert s == Selected(df[1..], gerente, coordenador);
      }
    }
  }

  /** Selecting `Todos` twice leaves `df` as it is. */
  lemma {:induction false} WildcardKeepsAll(df: seq<Row>)
    ensures Selected(df, Todos, Todos) == df
  {
    if df != [] {
      WildcardKeepsAll(df[1..]);
      assert df == [df[0]] + df[1..];
    }
  }

  /** Filtering an already filtered table again changes nothing. */
  lemma {:induction false} SelectedIdempotent(df: seq<Row>, gerente: string, coordenador: string)
    ensures Selected(Selected(df, gerente, coordenador), gerente, coordenador) == Selected(df, gerente, coordenador)
  {
    if df != [] {
      SelectedIdempotent(df[1..], gerente, coordenador);
      var s := Selected(df, gerente, coordenador);
      if Admits(gerente, df[0].manager) && Admits(coordenador, df[0].coordinator) {
        assert s == [df[0]] + Selected(df[1..], gerente, coordenador);
        assert s[1..] == Selected(df[1..], gerente, coordenador);
        assert s != [] && s[0] == df[0];
        assert Selected(s, gerente, coordenador) == [df[0]] + Selected(s[1..], gerente, coordenador);
      } else {
        assert s == Selected(df[1..], gerente, coordenador);
      }
    }
  }

  /** A concrete name picked from an option list keeps at least one row. */
  lemma OptionKeepsARow(df: seq<Row>, c: Column, name: string)
    requires name in Options(df, c)[1..]
    ensures Matching(df, c, name) != []
  {
    var i :| 0 <= i < |df| && Field(df[i], c) == Some(name);
    assert df[i] in Matching(df, c, name);
  }
}
