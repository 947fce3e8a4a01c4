/** The entities the PrinterManager client works on: the server's printers,
    jobs and groups (read-only here), and the client's own filter descriptors. */
module Entities {

  import opened Wrappers

  datatype Status = Printing | Paused | NoInk | NoPaper

  /** A printer as the server reports it. `queue` holds job ids in print order
      (its head is the job being printed). `group` is the optional field the
      GRUPO filter compares against; printers that lack it never match. */
  datatype Printer = Printer(
    id: int,
    alias: string,
    ip: string,
    model: string,
    location: string,
    status: Status,
    queue: seq<int>,
    group: Option<string>)

  datatype Job = Job(id: int, printer: int, owner: string, fileName: string)

  /** A group lists the ids of its member printers. */
  datatype Group = Group(id: int, name: string, printers: seq<int>)

  /** The data module's snapshot of the three server collections. */
  datatype Snapshot = Snapshot(printers: seq<Printer>, jobs: seq<Job>, groups: seq<Group>)

  /** The callbacks of the `find` calls that look an entity up by id. */
  function JobIdIs(id: int): Job -> bool
  {
    (j: Job) => j.id == id
  }

  function PrinterIdIs(id: int): Printer -> bool
  {
    (p: Printer) => p.id == id
  }

  function GroupIdIs(id: int): Group -> bool
  {
    (g: Group) => g.id == id
  }

  /** The five filter kinds of the printer tab. */
  datatype FilterType = Nombre | Ip | Modelo | Localizacion | Grupo

  /** The label each filter kind carries on its button. */
  function Label(t: FilterType): (s: string)
  {
    match t
    case Nombre => "Nombre"
    case Ip => "IP"
    case Modelo => "Modelo"
    case Localizacion => "Localización"
    case Grupo => "Grupo"
  }

  /** Distinct kinds have distinct labels, so the filter switch dispatches each
      filter to exactly one case. */
  lemma LabelInjective(s: FilterType, t: FilterType)
    ensures Label(s) == Label(t) <==> s == t
  {
  }

  /** Position of a kind in the filter-type drop-down. */
  function Index(t: FilterType): (i: nat)
    ensures i < 5
  {
    match t
    case Nombre => 0
    case Ip => 1
    case Modelo => 2
    case Localizacion => 3
    case Grupo => 4
  }

  /** The kind selected at drop-down position `idx`; any other index gives
      `None` (the switch has no default and falls off the end). */
  function FilterTypeByIdx(idx: int): (r: Option<FilterType>)
    ensures r.Some? <==> 0 <= idx < 5
    ensures r.Some? ==> Index(r.value) == idx
  {
    if idx == 0 then Some(Nombre)
    else if idx == 1 then Some(Ip)
    else if idx == 2 then Some(Modelo)
    else if idx == 3 then Some(Localizacion)
    else if idx == 4 then Some(Grupo)
    else None
  }

  /** Every kind is reachable from its own drop-down position. */
  lemma FilterTypeByIdxRoundTrip(t: FilterType)
    ensures FilterTypeByIdx(Index(t)) == Some(t)
  {
  }

  /** A filter of the printer tab. `kind` is `None` when the drop-down index
      was out of range; `buttonId` ties the filter to its removal button. */
  datatype Filter = Filter(kind: Option<FilterType>, value: string, buttonId: int)
}
