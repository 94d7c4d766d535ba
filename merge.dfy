/** `df`: `kit_epi` left-merged with `ultima_inspecao` on
    `IDTEL_TECNICO == IDTEL`, then with the `IDTEL`, `GERENTE_IMEDIATO` and
    `COORDENADOR_IMEDIATO` columns of `microsiga` on the same key. */
module Merge {
  import opened Tables
  import Join
  import LatestInspection

  /** `IDTEL_TECNICO`, the key of the kit table and of every merge result. */
  function KitKey(k: KitRow): int
  {
    k.techId
  }

  function DatedKey(d: Dated): int
  {
    d.techId
  }

  /** `IDTEL` of the directory. */
  function OrgKey(o: OrgRecord): int
  {
    o.techId
  }

  /** The row of the first merge: `DATA_INSPECAO` is null when the technician
      has no row in `ultima_inspecao`. */
  function WithDate(k: KitRow, m: Option<Latest>): Dated
  {
    match m
    case None => Dated(k.techId, k.product, None)
    case Some(l) => Dated(k.techId, k.product, Some(l.date))
  }

  /** The row of the second merge: manager and coordinator are null when the
      technician has no row in the directory. */
  function WithOrg(d: Dated, m: Option<OrgRecord>): Joined
  {
    match m
    case None => Joined(d.techId, d.product, d.date, None, None)
    case Some(o) => Joined(d.techId, d.product, d.date, o.manager, o.coordinator)
  }

  /** The two chained left merges; no kit row is ever dropped. */
  function MergeTables(kit: seq<KitRow>, ultima: seq<Latest>, microsiga: seq<OrgRecord>): (df: seq<Joined>)
    ensures |df| >= |kit|
  {
    var dated := Join.LeftJoin(kit, ultima, KitKey, LatestInspection.LatestKey, WithDate);
    Join.LeftJoin(dated, microsiga, DatedKey, OrgKey, WithOrg)
  }

  /** `GERENTE_IMEDIATO` as the directory gives it for `id`; null without a row. */
  function ManagerOf(microsiga: seq<OrgRecord>, id: int): Option<string>
  {
    match Join.Lookup(microsiga, OrgKey, id)
    case None => None
    case Some(o) => o.manager
  }

  /** `COORDENADOR_IMEDIATO` as the directory gives it for `id`; null without a row. */
  function CoordinatorOf(microsiga: seq<OrgRecord>, id: int): Option<string>
  {
    match Join.Lookup(microsiga, OrgKey, id)
    case None => None
    case Some(o) => o.coordinator
  }

  /** A table with ascending ids has unique merge keys. */
  lemma AscendingIsUnique(ultima: seq<Latest>)
    requires LatestInspection.IdsAscending(ultima)
    ensures Join.UniqueKeys(ultima, LatestInspection.LatestKey)
  {
  }

  /** With one directory row per `IDTEL`, `df` has exactly one row per kit row,
      in kit order, carrying the kit columns unchanged, the latest inspection
      date of the technician (null if none) and its manager and coordinator
      (null if the directory has no row for it). */
  lemma MergeTablesRows(kit: seq<KitRow>, ultima: seq<Latest>, microsiga: seq<OrgRecord>)
    requires LatestInspection.IdsAscending(ultima)
    requires Join.UniqueKeys(microsiga, OrgKey)
    ensures |MergeTables(kit, ultima, microsiga)| == |kit|
    ensures forall i :: 0 <= i < |kit| ==>
      MergeTables(kit, ultima, microsiga)[i] ==
        Joined(kit[i].techId, kit[i].product, LatestInspection.Find(ultima, kit[i].techId),
               ManagerOf(microsiga, kit[i].techId), CoordinatorOf(microsiga, kit[i].techId))
  {
    AscendingIsUnique(ultima);
    var dated := Join.LeftJoin(kit, ultima, KitKey, LatestInspection.LatestKey, WithDate);
    Join.LeftJoinUnique(kit, ultima, KitKey, LatestInspection.LatestKey, WithDate);
    Join.LeftJoinUnique(dated, microsiga, DatedKey, OrgKey, WithOrg);
  }
}
