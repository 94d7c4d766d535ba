/** `resumo`: the filtered rows grouped by (manager, coordinator, status) with
    the size of each group in `QTD`. pandas' `groupby` drops rows whose key
    holds a null and returns the groups sorted by key. */
module Summary {
  import opened Tables
  import opened StringOrder

  /** A group key: (`GERENTE_IMEDIATO`, `COORDENADOR_IMEDIATO`, `STATUS`). */
  datatype Key = Key(manager: string, coordinator: string, status: Status)

  /** A row of `resumo`. */
  datatype Count = Count(key: Key, qtd: nat)

  /** The group key of a row; none when the manager or the coordinator is null. */
  function KeyOf(r: Row): Option<Key>
  {
    if r.manager.Some? && r.coordinator.Some? then Some(Key(r.manager.value, r.coordinator.value, r.status))
    else None
  }

  /** The order pandas sorts the groups in: column by column, each compared as
      a Python string (the status by its label). */
  predicate KeyLess(a: Key, b: Key)
  {
    if a.manager != b.manager then Less(a.manager, b.manager)
    else if a.coordinator != b.coordinator then Less(a.coordinator, b.coordinator)
    else Less(Label(a.status), Label(b.status))
  }

  lemma KeyLessIrreflexive(a: Key)
    ensures !KeyLess(a, a)
  {
    LessIrreflexive(Label(a.status));
  }

  lemma KeyLessTotal(a: Key, b: Key)
    requires a != b
    ensures KeyLess(a, b) || KeyLess(b, a)
  {
    if a.manager != b.manager {
      LessTotal(a.manager, b.manager);
    } else if a.coordinator != b.coordinator {
      LessTotal(a.coordinator, b.coordinator);
    } else {
      if Label(a.status) == Label(b.status) {
        LabelInjective(a.status, b.status);
      }
      LessTotal(Label(a.status), Label(b.status));
    }
  }

  /** Strict orders of strings compared column by column compose. */
  lemma ColumnLessTransitive(x1: string, x2: string, x3: string)
    requires x1 != x2 ==> Less(x1, x2)
    requires x2 != x3 ==> Less(x2, x3)
    ensures x1 != x3 ==> Less(x1, x3)
    ensures x1 == x3 ==> x1 == x2 && x2 == x3
  {
    if x1 != x2 && x2 != x3 {
      LessTransitive(x1, x2, x3);
    }
    if x1 == x3 && x1 != x2 {
      LessAsymmetric(x1, x2);
    }
  }

  lemma KeyLessTransitive(a: Key, b: Key, c: Key)
    requires KeyLess(a, b) && KeyLess(b, c)
    ensures KeyLess(a, c)
  {
    ColumnLessTransitive(a.manager, b.manager, c.manager);
    if a.manager == b.manager && b.manager == c.manager {
      ColumnLessTransitive(a.coordinator, b.coordinator, c.coordinator);
      if a.coordinator == b.coordinator && b.coordinator == c.coordinator {
        LessTransitive(Label(a.status), Label(b.status), Label(c.status));
      }
    }
  }

  /** Keys strictly ascending: sorted, and no key twice. */
  predicate KeysAscending(t: seq<Count>)
  {
    forall i, j :: 0 <= i < j < |t| ==> KeyLess(t[i].key, t[j].key)
  }

  /** Every `QTD` is at least one. */
  predicate Positive(t: seq<Count>)
  {
    forall i :: 0 <= i < |t| ==> t[i].qtd >= 1
  }

  /** The `QTD` of key `k`, or 0 when the key has no row. */
  function QtdOf(t: seq<Count>, k: Key): nat
  {
    if t == [] then 0
    else if t[0].key == k then t[0].qtd
    else QtdOf(t[1..], k)
  }

  /** The sum of the `QTD` column. */
  function Total(t: seq<Count>): nat
  {
    if t == [] then 0 else t[0].qtd + Total(t[1..])
  }

  lemma ConsAscending(h: Count, t: seq<Count>)
    requires KeysAscending(t)
    requires t != [] ==> KeyLess(h.key, t[0].key)
    ensures KeysAscending([h] + t)
  {
    forall j | 0 < j < |t| ensures KeyLess(h.key, t[j].key) {
      KeyLessTransitive(h.key, t[0].key, t[j].key);
    }
  }

  /** Counts one more row of key `k`: a new key is inserted in its place with
      count 1, a known key has its count raised by one. */
  function Bump(t: seq<Count>, k: Key): (r: seq<Count>)
    requires KeysAscending(t)
    ensures KeysAscending(r)
    ensures r != [] && (r[0].key == k || (t != [] && r[0].key == t[0].key))
    ensures Positive(t) ==> Positive(r)
    ensures Total(r) == Total(t) + 1
  {
    if t == [] then
      [Count(k, 1)]
    else if t[0].key == k then
      assert t == [t[0]] + t[1..];
      ConsAscending(Count(k, t[0].qtd + 1), t[1..]);
      [Count(k, t[0].qtd + 1)] + t[1..]
    else if KeyLess(k, t[0].key) then
      ConsAscending(Count(k, 1), t);
      [Count(k, 1)] + t
    else
      KeyLessTotal(k, t[0].key);
      var rest := Bump(t[1..], k);
      ConsAscending(t[0], rest);
      assert ([t[0]] + rest)[1..] == rest;
      [t[0]] + rest
  }

  /** A key below the first key of an ascending table has no row in it. */
  lemma {:induction false} QtdBelow(t: seq<Count>, k: Key)
    requires KeysAscending(t)
    requires t != [] ==> KeyLess(k, t[0].key)
    ensures QtdOf(t, k) == 0
  {
    if t != [] {
      KeyLessIrreflexive(k);
      if |t| > 1 {
        KeyLessTransitive(k, t[0].key, t[1].key);
      }
      QtdBelow(t[1..], k);
    }
  }

  /** `Bump` raises the count of `k` by one and leaves every other count alone. */
  lemma {:induction false} BumpQtd(t: seq<Count>, k: Key, k': Key)
    requires KeysAscending(t)
    ensures QtdOf(Bump(t, k), k') == QtdOf(t, k') + (if k' == k then 1 else 0)
  {
    if t == [] {
    } else if t[0].key == k {
    } else if KeyLess(k, t[0].key) {
      if k' == k {
        QtdBelow(t, k);
      }
    } else {
      BumpQtd(t[1..], k, k');
    }
  }

  /** In an ascending table each row is what `QtdOf` returns for its key. */
  lemma {:induction false} QtdAt(t: seq<Count>, i: nat)
    requires KeysAscending(t) && i < |t|
    ensures QtdOf(t, t[i].key) == t[i].qtd
  {
    if i > 0 {
      KeyLessIrreflexive(t[0].key);
      QtdAt(t[1..], i - 1);
    }
  }

  /** A key with a non-zero count has a row. */
  lemma {:induction false} QtdPresent(t: seq<Count>, k: Key)
    requires QtdOf(t, k) > 0
    ensures exists i :: 0 <= i < |t| && t[i].key == k
  {
    if t[0].key != k {
      QtdPresent(t[1..], k);
      var i :| 0 <= i < |t[1..]| && t[1..][i].key == k;
      assert t[i + 1].key == k;
    }
  }

  /** `resumo`: the groups of the rows with a complete key, in key order. */
  function Tally(rows: seq<Row>): (resumo: seq<Count>)
    ensures KeysAscending(resumo)
    ensures Positive(resumo)
  {
    if rows == [] then []
    else
      var prefix := Tally(rows[..|rows| - 1]);
      match KeyOf(rows[|rows| - 1])
      case None => prefix
      case Some(k) => Bump(prefix, k)
  }

  /** The number of rows whose group key is `k`. */
  function CountKey(rows: seq<Row>, k: Key): nat
  {
    if rows == [] then 0
    else CountKey(rows[..|rows| - 1], k) + (if KeyOf(rows[|rows| - 1]) == Some(k) then 1 else 0)
  }

  /** The number of rows whose manager and coordinator are both present. */
  function Keyed(rows: seq<Row>): nat
  {
    if rows == [] then 0
    else Keyed(rows[..|rows| - 1]) + (if KeyOf(rows[|rows| - 1]).Some? then 1 else 0)
  }

  /** The count kept for a key is the number of rows with that key. */
  lemma {:induction false} TallyQtd(rows: seq<Row>, k: Key)
    ensures QtdOf(Tally(rows), k) == CountKey(rows, k)
  {
    if rows != [] {
      var n := |rows| - 1;
      TallyQtd(rows[..n], k);
      if KeyOf(rows[n]).Some? {
        BumpQtd(Tally(rows[..n]), KeyOf(rows[n]).value, k);
      }
    }
  }

  /** The counts add up to the number of rows with a complete key: every such
      row is counted once, and a row with a null manager or coordinator is not
      counted at all. */
  lemma {:induction false} TallyTotal(rows: seq<Row>)
    ensures Total(Tally(rows)) == Keyed(rows)
  {
    if rows != [] {
      TallyTotal(rows[..|rows| - 1]);
    }
  }

  /** Each emitted `QTD` is the number of rows with that group's key, and a key
      gets a row exactly when some row has it. */
  lemma TallyRows(rows: seq<Row>)
    ensures forall i :: 0 <= i < |Tally(rows)| ==>
      Tally(rows)[i].qtd == CountKey(rows, Tally(rows)[i].key) >= 1
    ensures forall k :: CountKey(rows, k) > 0 <==> exists i :: 0 <= i < |Tally(rows)| && Tally(rows)[i].key == k
  {
    var t := Tally(rows);
    forall i | 0 <= i < |t| ensures t[i].qtd == CountKey(rows, t[i].key) {
      QtdAt(t, i);
      TallyQtd(rows, t[i].key);
    }
    forall k ensures CountKey(rows, k) > 0 <==> exists i :: 0 <= i < |t| && t[i].key == k {
      TallyQtd(rows, k);
      if CountKey(rows, k) > 0 {
        QtdPresent(t, k);
      }
    }
  }

  /** `resumo.empty` holds exactly when no row has both a manager and a coordinator. */
  lemma TallyEmpty(rows: seq<Row>)
    ensures Tally(rows) == [] <==> Keyed(rows) == 0
  {
    TallyTotal(rows);
    var t := Tally(rows);
    if t != [] {
      assert Total(t) >= t[0].qtd >= 1;
    }
  }
}
