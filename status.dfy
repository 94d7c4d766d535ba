/** The `STATUS` column: `status_inspecao` applied to every row of `df`
    against `limite = hoje - 180 days`. `hoje` is a day number supplied by the
    caller, standing for the wall-clock date the dashboard reads. */
module Classification {
  import opened Tables

  /** `timedelta(days=180)`. */
  const StalenessDays: int := 180

  /** `limite`: the oldest inspection date that is still current. */
  function Limite(hoje: int): (limite: int)
    ensures limite < hoje
  {
    hoje - StalenessDays
  }

  /** `status_inspecao`: exactly one of the three statuses, decided by the
      latest date alone. */
  function Classify(date: Option<int>, limite: int): (s: Status)
    ensures s == PendingNoInspection <==> date.None?
    ensures s == PendingExpired <==> date.Some? && date.value < limite
    ensures s == Ok <==> date.Some? && limite <= date.value
  {
    if date.None? then PendingNoInspection
    else if date.value < limite then PendingExpired
    else Ok
  }

  /** An inspection exactly 180 days old is still `OK`; one day older is expired. */
  lemma ThresholdBoundary(hoje: int)
    ensures Classify(Some(hoje - 180), Limite(hoje)) == Ok
    ensures Classify(Some(hoje - 181), Limite(hoje)) == PendingExpired
  {
  }

  /** A later inspection date never turns an `OK` row into a pending one. */
  lemma LaterInspectionStaysOk(d1: int, d2: int, limite: int)
    requires d1 <= d2
    requires Classify(Some(d1), limite) == Ok
    ensures Classify(Some(d2), limite) == Ok
  {
  }

  /** As `hoje` advances, a row can only leave `OK`, never enter it. */
  lemma LaterTodayNeverBetter(date: Option<int>, hoje1: int, hoje2: int)
    requires hoje1 <= hoje2
    requires Classify(date, Limite(hoje2)) == Ok
    ensures Classify(date, Limite(hoje1)) == Ok
  {
  }

  /** One row of `df` with its `STATUS` column filled in. */
  function Classified(j: Joined, limite: int): Row
  {
    Row(j.techId, j.product, j.date, j.manager, j.coordinator, Classify(j.date, limite))
  }

  /** `df['STATUS'] = df.apply(status_inspecao, axis=1)`: every row gets its
      status, and no row is added, dropped, moved or otherwise changed. */
  function WithStatus(df: seq<Joined>, limite: int): (r: seq<Row>)
    ensures |r| == |df|
    ensures forall i :: 0 <= i < |df| ==>
      && r[i].techId == df[i].techId && r[i].product == df[i].product && r[i].date == df[i].date
      && r[i].manager == df[i].manager && r[i].coordinator == df[i].coordinator
      && r[i].status == Classify(df[i].date, limite)
  {
    if df == [] then [] else [Classified(df[0], limite)] + WithStatus(df[1..], limite)
  }
}
