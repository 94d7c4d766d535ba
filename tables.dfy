/** The records of the PPE inspection dashboard: the three source tables, the
    intermediate tables of the pipeline and the status labels. Dates are day
    numbers (days since 1970-01-01); a pandas null (NaN / NaT) is `None`. */
module Tables {

  datatype Option<+T> = None | Some(value: T)

  /** A row of the kit-assignment table `kit_epi`. */
  datatype KitRow = KitRow(techId: int, product: string)

  /** An inspection event of the table `inspecao`. */
  datatype Inspection = Inspection(techId: int, date: int)

  /** A row of the organisational directory `microsiga`. */
  datatype OrgRecord = OrgRecord(techId: int, manager: Option<string>, coordinator: Option<string>)

  /** A row of `ultima_inspecao`: a technician and the date of its latest inspection. */
  datatype Latest = Latest(techId: int, date: int)

  /** A kit row after the merge with `ultima_inspecao`. */
  datatype Dated = Dated(techId: int, product: string, date: Option<int>)

  /** A kit row after both merges, before the `STATUS` column exists. */
  datatype Joined = Joined(techId: int, product: string, date: Option<int>,
                           manager: Option<string>, coordinator: Option<string>)

  /** The three values of the `STATUS` column. */
  datatype Status = Ok | PendingNoInspection | PendingExpired

  /** A row of the derived table `df` once `STATUS` has been added. */
  datatype Row = Row(techId: int, product: string, date: Option<int>,
                     manager: Option<string>, coordinator: Option<string>, status: Status)

  /** The text that the `STATUS` column holds for each status. */
  function Label(s: Status): string
  {
    match s
    case Ok => "OK"
    case PendingNoInspection => "Pendente (sem inspeção)"
    case PendingExpired => "Pendente (inspeção vencida)"
  }

  /** Grouping by the label text is grouping by the status: no two statuses share a label. */
  lemma LabelInjective(a: Status, b: Status)
    requires Label(a) == Label(b)
    ensures a == b
  {
  }
}
