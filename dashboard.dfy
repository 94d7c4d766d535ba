/** The whole dashboard computation, from the three source tables and the two
    selections to what the page shows: the option lists, `resumo`, whether the
    warning replaces the chart, and the optional detail table. Drawing the
    chart and the widgets is not modelled; this is the data they are given. */
module Dashboard {
  import opened Tables
  import Join
  import LatestInspection
  import Merge
  import Classification
  import Filters
  import Summary

  /** What one run of the script hands to the page. */
  datatype View = View(
    gerentes: seq<string>,           // options of the manager selector
    coordenadores: seq<string>,      // options of the coordinator selector
    resumo: seq<Summary.Count>,      // the data of the bar chart
    warning: bool,                   // the warning is shown instead of the chart
    detail: Option<seq<Row>>)        // the detail table, when its checkbox is ticked

  /** `df` once `STATUS` is added (app.py:30-53). */
  function Derive(kit: seq<KitRow>, inspecao: seq<Inspection>, microsiga: seq<OrgRecord>, hoje: int): (df: seq<Row>)
    ensures |df| >= |kit|
  {
    var ultima := LatestInspection.LatestPerTech(inspecao);
    Classification.WithStatus(Merge.MergeTables(kit, ultima, microsiga), Classification.Limite(hoje))
  }

  /** With one directory row per id, `df` has one row per kit row, in order:
      the kit columns, the latest inspection date (null exactly when the
      technician has no inspection event, else the maximum of its event
      dates), its manager and coordinator from the directory, and the status
      that date gives against `hoje - 180`. */
  lemma DeriveRows(kit: seq<KitRow>, inspecao: seq<Inspection>, microsiga: seq<OrgRecord>, hoje: int)
    requires Join.UniqueKeys(microsiga, Merge.OrgKey)
    ensures |Derive(kit, inspecao, microsiga, hoje)| == |kit|
    ensures forall i :: 0 <= i < |kit| ==>
      && Derive(kit, inspecao, microsiga, hoje)[i].techId == kit[i].techId
      && Derive(kit, inspecao, microsiga, hoje)[i].product == kit[i].product
      && (Derive(kit, inspecao, microsiga, hoje)[i].date.None? <==>
            forall j :: 0 <= j < |inspecao| ==> inspecao[j].techId != kit[i].techId)
      && (Derive(kit, inspecao, microsiga, hoje)[i].date.Some? ==>
            LatestInspection.IsLatestDate(inspecao, kit[i].techId, Derive(kit, inspecao, microsiga, hoje)[i].date.value))
      && Derive(kit, inspecao, microsiga, hoje)[i].manager == Merge.ManagerOf(microsiga, kit[i].techId)
      && Derive(kit, inspecao, microsiga, hoje)[i].coordinator == Merge.CoordinatorOf(microsiga, kit[i].techId)
      && Derive(kit, inspecao, microsiga, hoje)[i].status ==
            Classification.Classify(Derive(kit, inspecao, microsiga, hoje)[i].date, hoje - 180)
  {
    var ultima := LatestInspection.LatestPerTech(inspecao);
    Merge.MergeTablesRows(kit, ultima, microsiga);
    forall i | 0 <= i < |kit|
      ensures var d := LatestInspection.Find(ultima, kit[i].techId);
        && (d.None? <==> forall j :: 0 <= j < |inspecao| ==> inspecao[j].techId != kit[i].techId)
        && (d.Some? ==> LatestInspection.IsLatestDate(inspecao, kit[i].techId, d.value))
    {
      LatestInspection.LatestPerTechFind(inspecao, kit[i].techId);
    }
  }

  /** One run of the script (app.py:30-76 and 91-92) for given selections. */
  method Run(kit: seq<KitRow>, inspecao: seq<Inspection>, microsiga: seq<OrgRecord>, hoje: int,
             gerente: string, coordenador: string, detalhado: bool) returns (view: View)
    ensures view.gerentes == Filters.Options(Derive(kit, inspecao, microsiga, hoje), Filters.Manager)
    ensures view.coordenadores == Filters.Options(Derive(kit, inspecao, microsiga, hoje), Filters.Coordinator)
    ensures view.detail ==
      if detalhado then Some(Filters.Selected(Derive(kit, inspecao, microsiga, hoje), gerente, coordenador)) else None
    ensures var filtrado := Filters.Selected(Derive(kit, inspecao, microsiga, hoje), gerente, coordenador);
      && (view.warning <==> Summary.Keyed(filtrado) == 0)
      && Summary.Total(view.resumo) == Summary.Keyed(filtrado)
      && Summary.KeysAscending(view.resumo)
      && (forall i :: 0 <= i < |view.resumo| ==>
            view.resumo[i].qtd == Summary.CountKey(filtrado, view.resumo[i].key) >= 1)
  {
    var ultima := LatestInspection.LatestPerTech(inspecao);
    var df := Merge.MergeTables(kit, ultima, microsiga);
    var limite := Classification.Limite(hoje);
    var comStatus := Classification.WithStatus(df, limite);
    var gerentes := Filters.Options(comStatus, Filters.Manager);
    var coordenadores := Filters.Options(comStatus, Filters.Coordinator);
    var filtrado := Filters.FilterRows(comStatus, gerente, coordenador);
    var resumo := Summary.Tally(filtrado);
    Summary.TallyEmpty(filtrado);
    Summary.TallyTotal(filtrado);
    Summary.TallyRows(filtrado);
    view := View(gerentes, coordenadores, resumo, resumo == [], if detalhado then Some(filtrado) else None);
  }

  // ---------------------------------------------------------------------------
  // The sample tables of app.py:11-27, with `hoje` fixed at 2024-06-01.
  // Day numbers count from 1970-01-01: 2024-06-01 is 19875, so `limite` is
  // 19695 (2023-12-04).

  const SampleKit: seq<KitRow> :=
    [KitRow(101, "EPI1"), KitRow(102, "EPI2"), KitRow(103, "EPI1"), KitRow(104, "EPI3"), KitRow(105, "EPI2")]

  const SampleInspecao: seq<Inspection> :=
    [Inspection(101, 19844), Inspection(101, 19723), Inspection(102, 19692), Inspection(104, 19676)]

  const SampleMicrosiga: seq<OrgRecord> := [
    OrgRecord(101, Some("Gerente A"), Some("Coord 1")),
    OrgRecord(102, Some("Gerente A"), Some("Coord 2")),
    OrgRecord(103, Some("Gerente B"), Some("Coord 1")),
    OrgRecord(104, Some("Gerente B"), Some("Coord 3")),
    OrgRecord(105, Some("Gerente A"), Some("Coord 2"))]

  const SampleHoje: int := 19875

  lemma SampleDirectoryUnique()
    ensures Join.UniqueKeys(SampleMicrosiga, Merge.OrgKey)
  {
  }

  /** The status a technician gets from the sample events: its latest date is
      determined by the events alone. */
  lemma SampleStatusOf(id: int, date: Option<int>, expected: Status)
    requires date.None? <==> forall j :: 0 <= j < |SampleInspecao| ==> SampleInspecao[j].techId != id
    requires date.Some? ==> LatestInspection.IsLatestDate(SampleInspecao, id, date.value)
    requires expected == (if id == 101 then Ok else if id == 102 || id == 104 then PendingExpired else PendingNoInspection)
    ensures Classification.Classify(date, SampleHoje - 180) == expected
  {
    if date.Some? {
      var j :| 0 <= j < |SampleInspecao| && SampleInspecao[j] == Inspection(id, date.value);
      if id == 101 {
        assert SampleInspecao[0].techId == id;
      }
    } else {
      assert SampleInspecao[0].techId != id && SampleInspecao[2].techId != id && SampleInspecao[3].techId != id;
    }
  }

  /** The status of one sample technician. */
  lemma SampleStatusRow(kit: seq<KitRow>, inspecao: seq<Inspection>, microsiga: seq<OrgRecord>, i: nat)
    requires kit == SampleKit && inspecao == SampleInspecao && microsiga == SampleMicrosiga
    requires i < 5
    ensures |Derive(kit, inspecao, microsiga, SampleHoje)| == 5
    ensures Derive(kit, inspecao, microsiga, SampleHoje)[i].status ==
      [Ok, PendingExpired, PendingNoInspection, PendingExpired, PendingNoInspection][i]
  {
    SampleDirectoryUnique();
    var ultima := LatestInspection.LatestPerTech(inspecao);
    Merge.MergeTablesRows(kit, ultima, microsiga);
    LatestInspection.LatestPerTechFind(inspecao, kit[i].techId);
    var date := LatestInspection.Find(ultima, kit[i].techId);
    SampleStatusOf(kit[i].techId, date, [Ok, PendingExpired, PendingNoInspection, PendingExpired, PendingNoInspection][i]);
  }

  /** 101 is current, 102 and 104 are expired, 103 and 105 were never
      inspected. The tables are passed as parameters equal to the sample
      constants, which keeps the solver from unfolding the whole pipeline. */
  lemma SampleStatuses(kit: seq<KitRow>, inspecao: seq<Inspection>, microsiga: seq<OrgRecord>)
    requires kit == SampleKit && inspecao == SampleInspecao && microsiga == SampleMicrosiga
    ensures |Derive(kit, inspecao, microsiga, SampleHoje)| == 5
    ensures forall i :: 0 <= i < 5 ==>
      Derive(kit, inspecao, microsiga, SampleHoje)[i].status ==
        [Ok, PendingExpired, PendingNoInspection, PendingExpired, PendingNoInspection][i]
  {
    forall i | 0 <= i < 5
      ensures Derive(kit, inspecao, microsiga, SampleHoje)[i].status ==
        [Ok, PendingExpired, PendingNoInspection, PendingExpired, PendingNoInspection][i]
    {
      SampleStatusRow(kit, inspecao, microsiga, i);
    }
    SampleStatusRow(kit, inspecao, microsiga, 0);
  }

  /** Each sample technician takes the manager and coordinator of its
      directory row. */
  lemma SampleOrgRow(kit: seq<KitRow>, inspecao: seq<Inspection>, microsiga: seq<OrgRecord>, i: nat)
    requires kit == SampleKit && inspecao == SampleInspecao && microsiga == SampleMicrosiga
    requires i < 5
    ensures |Derive(kit, inspecao, microsiga, SampleHoje)| == 5
    ensures Derive(kit, inspecao, microsiga, SampleHoje)[i].techId == kit[i].techId
    ensures Derive(kit, inspecao, microsiga, SampleHoje)[i].manager == microsiga[i].manager
    ensures Derive(kit, inspecao, microsiga, SampleHoje)[i].coordinator == microsiga[i].coordinator
  {
    SampleDirectoryUnique();
    Join.LookupAt(microsiga, Merge.OrgKey, i);
    assert Merge.OrgKey(microsiga[i]) == kit[i].techId;
    Merge.MergeTablesRows(kit, LatestInspection.LatestPerTech(inspecao), microsiga);
  }

  /** The two selections of the sample scenario on a table whose columns are
      those of the sample. */
  lemma SampleSelections(df: seq<Row>)
    requires |df| == 5
    requires df[0].manager == Some("Gerente A") && df[0].coordinator == Some("Coord 1")
    requires df[1].manager == Some("Gerente A") && df[1].coordinator == Some("Coord 2")
    requires df[2].manager == Some("Gerente B") && df[2].coordinator == Some("Coord 1")
    requires df[3].manager == Some("Gerente B") && df[3].coordinator == Some("Coord 3")
    requires df[4].manager == Some("Gerente A") && df[4].coordinator == Some("Coord 2")
    ensures Filters.Selected(df, "Gerente A", Filters.Todos) == [df[0], df[1], df[4]]
    ensures Filters.Selected(df, "Gerente B", "Coord 2") == []
  {
    var a, b := "Gerente A", "Gerente B";
    assert a != b && "Coord 1" != "Coord 2" && "Coord 3" != "Coord 2";
    assert df[4..][1..] == df[5..] == [];
    assert df[3..][1..] == df[4..] && df[2..][1..] == df[3..];
    assert df[1..][1..] == df[2..];
    assert Filters.Selected(df[4..], a, Filters.Todos) == [df[4]];
    assert Filters.Selected(df[3..], a, Filters.Todos) == [df[4]];
    assert Filters.Selected(df[2..], a, Filters.Todos) == [df[4]];
    assert Filters.Selected(df[1..], a, Filters.Todos) == [df[1], df[4]];
    assert Filters.Selected(df[4..], b, "Coord 2") == [];
    assert Filters.Selected(df[3..], b, "Coord 2") == [];
    assert Filters.Selected(df[2..], b, "Coord 2") == [];
    assert Filters.Selected(df[1..], b, "Coord 2") == [];
  }

  /** Selecting "Gerente A" keeps 101, 102 and 105; selecting "Gerente B" with
      "Coord 2" keeps nothing, so the page shows the warning. */
  lemma SampleFilters(kit: seq<KitRow>, inspecao: seq<Inspection>, microsiga: seq<OrgRecord>)
    requires kit == SampleKit && inspecao == SampleInspecao && microsiga == SampleMicrosiga
    ensures var s := Filters.Selected(Derive(kit, inspecao, microsiga, SampleHoje), "Gerente A", Filters.Todos);
      |s| == 3 && s[0].techId == 101 && s[1].techId == 102 && s[2].techId == 105
    ensures Filters.Selected(Derive(kit, inspecao, microsiga, SampleHoje), "Gerente B", "Coord 2") == []
  {
    SampleOrgRow(kit, inspecao, microsiga, 0);
    SampleOrgRow(kit, inspecao, microsiga, 1);
    SampleOrgRow(kit, inspecao, microsiga, 2);
    SampleOrgRow(kit, inspecao, microsiga, 3);
    SampleOrgRow(kit, inspecao, microsiga, 4);
    SampleSelections(Derive(kit, inspecao, microsiga, SampleHoje));
  }
}
