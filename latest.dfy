/** `ultima_inspecao`: the inspection events grouped by technician id, keeping
    the largest date of each group. pandas' `groupby` sorts the groups by key,
    so the table comes out in ascending id order with one row per id. */
module LatestInspection {
  import opened Tables
  import Join

  /** Ids strictly ascending: sorted, and no id twice. */
  predicate IdsAscending(t: seq<Latest>)
  {
    forall i, j :: 0 <= i < j < |t| ==> t[i].techId < t[j].techId
  }

  /** The key `ultima_inspecao` is merged on: its `IDTEL` column. */
  function LatestKey(l: Latest): int
  {
    l.techId
  }

  /** The date the table holds for `id`, if any (the first row with that id). */
  function Find(t: seq<Latest>, id: int): Option<int>
  {
    match Join.Lookup(t, LatestKey, id)
    case None => None
    case Some(l) => Some(l.date)
  }

  /** The larger of a possibly missing running maximum and a new date. */
  function Later(m: Option<int>, d: int): int
  {
    match m
    case None => d
    case Some(x) => if x < d then d else x
  }

  /** `d` is the maximum date among the events of technician `id`. */
  ghost predicate IsLatestDate(events: seq<Inspection>, id: int, d: int)
  {
    && (exists i :: 0 <= i < |events| && events[i] == Inspection(id, d))
    && (forall i :: 0 <= i < |events| && events[i].techId == id ==> events[i].date <= d)
  }

  /** An id below the first id of an ascending table is not in it. */
  lemma {:induction false} FindBelow(t: seq<Latest>, id: int)
    requires IdsAscending(t)
    requires t == [] || id < t[0].techId
    ensures Find(t, id) == None
  {
    if t != [] {
      FindBelow(t[1..], id);
    }
  }

  /** In a table with ascending ids, every row is what `Find` returns for its id. */
  lemma {:induction false} FindAt(t: seq<Latest>, k: nat)
    requires IdsAscending(t) && k < |t|
    ensures Find(t, t[k].techId) == Some(t[k].date)
  {
    if k > 0 {
      FindAt(t[1..], k - 1);
    }
  }

  lemma ConsAscending(h: Latest, t: seq<Latest>)
    requires IdsAscending(t)
    requires t != [] ==> h.techId < t[0].techId
    ensures IdsAscending([h] + t)
  {
  }

  /** Folds one event into the table: a new id is inserted in its place, a
      known id keeps the later of its two dates. */
  function Upsert(t: seq<Latest>, e: Inspection): (r: seq<Latest>)
    requires IdsAscending(t)
    ensures IdsAscending(r)
    ensures r != [] && (r[0].techId == e.techId || (t != [] && r[0].techId == t[0].techId))
  {
    if t == [] then
      [Latest(e.techId, e.date)]
    else if t[0].techId == e.techId then
      ConsAscending(Latest(e.techId, Later(Some(t[0].date), e.date)), t[1..]);
      [Latest(e.techId, Later(Some(t[0].date), e.date))] + t[1..]
    else if e.techId < t[0].techId then
      ConsAscending(Latest(e.techId, e.date), t);
      [Latest(e.techId, e.date)] + t
    else
      var rest := Upsert(t[1..], e);
      ConsAscending(t[0], rest);
      [t[0]] + rest
  }

  /** After `Upsert`, the folded id holds the later of its old date and the
      event's date; every other id keeps what it had. */
  lemma {:induction false} UpsertFind(t: seq<Latest>, e: Inspection, id: int)
    requires IdsAscending(t)
    ensures Find(Upsert(t, e), id) ==
            (if id == e.techId then Some(Later(Find(t, id), e.date)) else Find(t, id))
  {
    if t == [] {
    } else if t[0].techId == e.techId {
    } else if e.techId < t[0].techId {
      if id == e.techId {
        FindBelow(t, id);
      }
    } else {
      UpsertFind(t[1..], e, id);
    }
  }

  /** `ultima_inspecao`: one row per technician with events, ascending by id. */
  function LatestPerTech(events: seq<Inspection>): (r: seq<Latest>)
    ensures IdsAscending(r)
  {
    if events == [] then []
    else Upsert(LatestPerTech(events[..|events| - 1]), events[|events| - 1])
  }

  /** A technician has no row exactly when it has no event; otherwise its row
      holds the maximum of its event dates. */
  lemma {:induction false} LatestPerTechFind(events: seq<Inspection>, id: int)
    ensures Find(LatestPerTech(events), id).None? <==>
            forall i :: 0 <= i < |events| ==> events[i].techId != id
    ensures Find(LatestPerTech(events), id).Some? ==>
            IsLatestDate(events, id, Find(LatestPerTech(events), id).value)
  {
    if events != [] {
      var n := |events| - 1;
      var prefix := events[..n];
      LatestPerTechFind(prefix, id);
      UpsertFind(LatestPerTech(prefix), events[n], id);
      var m := Find(LatestPerTech(prefix), id);
      var r := Find(LatestPerTech(events), id);
      assert forall i :: 0 <= i < n ==> events[i] == prefix[i];
      if events[n].techId == id {
        assert r == Some(Later(m, events[n].date));
        if m.Some? {
          var i :| 0 <= i < n && prefix[i] == Inspection(id, m.value);
          if m.value < events[n].date {
            assert events[n] == Inspection(id, r.value);
          } else {
            assert events[i] == Inspection(id, r.value);
          }
        } else {
          assert events[n] == Inspection(id, r.value);
        }
      } else {
        assert r == m;
        if m.Some? {
          var i :| 0 <= i < n && prefix[i] == Inspection(id, m.value);
          assert events[i] == Inspection(id, m.value);
        }
      }
    }
  }

  /** Every row of `ultima_inspecao` holds the maximum date of its technician. */
  lemma LatestRowsAreMaxima(events: seq<Inspection>)
    ensures forall k :: 0 <= k < |LatestPerTech(events)| ==>
      IsLatestDate(events, LatestPerTech(events)[k].techId, LatestPerTech(events)[k].date)
  {
    var t := LatestPerTech(events);
    forall k | 0 <= k < |t|
      ensures IsLatestDate(events, t[k].techId, t[k].date)
    {
      FindAt(t, k);
      LatestPerTechFind(events, t[k].techId);
    }
  }
}
