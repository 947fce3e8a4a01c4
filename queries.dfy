/** Read-only questions the views ask about the server collections: a
    printer's groups and jobs, whether a job is being printed, and how many
    job badges a printer card shows. */
module Queries {

  import opened Wrappers
  import opened Entities
  import opened Seqs

  /** The callback of `getPrinterGroups`'s `filter`. */
  function Contains(id: int): Group -> bool
  {
    (g: Group) => id in g.printers
  }

  /** The groups whose member list holds the printer's id, in group order. */
  function PrinterGroups(printer: Printer, groups: seq<Group>): (r: seq<Group>)
    ensures IsSubsequence(r, groups)
    ensures forall g :: g in r <==> g in groups && printer.id in g.printers
    ensures forall g :: multiset(r)[g] == if printer.id in g.printers then multiset(groups)[g] else 0
  {
    KeepCount(groups, Contains(printer.id));
    Keep(groups, Contains(printer.id))
  }

  /** The printer's queue with each job id replaced by the job carrying it,
      or by `None` (`undefined`) when no job does. */
  function PrinterJobs(printer: Printer, jobs: seq<Job>): (r: seq<Option<Job>>)
    ensures |r| == |printer.queue|
    ensures forall i :: 0 <= i < |r| && r[i].Some? ==>
      r[i].value in jobs && r[i].value.id == printer.queue[i]
    ensures forall i :: 0 <= i < |r| && r[i].Some? ==>
      exists k :: 0 <= k < |jobs| && jobs[k] == r[i].value &&
        forall m :: 0 <= m < k ==> jobs[m].id != printer.queue[i]
    ensures forall i :: 0 <= i < |r| ==>
      (r[i].None? <==> forall j :: j in jobs ==> j.id != printer.queue[i])
  {
    seq(|printer.queue|, i requires 0 <= i < |printer.queue| => Find(jobs, JobIdIs(printer.queue[i])))
  }

  /** Printer `p` owns `job` and has something queued. */
  predicate Feeds(p: Printer, job: Job)
  {
    p.id == job.printer && |p.queue| > 0
  }

  /** `printers[k]` feeds `job` and no later printer does. */
  predicate LastFeeder(printers: seq<Printer>, job: Job, k: int)
  {
    0 <= k < |printers| && Feeds(printers[k], job) &&
    forall m :: k < m < |printers| ==> !Feeds(printers[m], job)
  }

  /** The "is printing" flag: decided by the LAST printer that owns the job
      and has a non-empty queue (whether its queue head is the job); `None`
      (`undefined`) when no printer does. */
  function PrintingFlag(printers: seq<Printer>, job: Job): (r: Option<bool>)
    ensures r.None? <==> forall k :: 0 <= k < |printers| ==> !Feeds(printers[k], job)
    ensures r.Some? ==>
      exists k :: LastFeeder(printers, job, k) && r.value == (printers[k].queue[0] == job.id)
    decreases |printers|
  {
    if printers == [] then None
    else
      var init, last := printers[..|printers| - 1], printers[|printers| - 1];
      if Feeds(last, job) then
        assert LastFeeder(printers, job, |printers| - 1);
        Some(last.queue[0] == job.id)
      else
        var r := PrintingFlag(init, job);
        assert forall k :: 0 <= k < |init| ==> init[k] == printers[k];
        assert forall k :: LastFeeder(init, job, k) ==> LastFeeder(printers, job, k);
        r
  }

  /** The loop of `updateCiDer` that guesses whether `job` is being printed;
      it does not stop at the first owning printer. */
  method JobIsPrinting(printers: seq<Printer>, job: Job) returns (printing: Option<bool>)
    ensures printing == PrintingFlag(printers, job)
  {
    printing := None;
    var i := 0;
    while i < |printers|
      invariant 0 <= i <= |printers|
      invariant printing == PrintingFlag(printers[..i], job)
    {
      if printers[i].id == job.printer && |printers[i].queue| > 0 {
        printing := Some(printers[i].queue[0] == job.id);
      }
      assert printers[..i + 1][..i] == printers[..i];
      i := i + 1;
    }
    assert printers[..i] == printers;
  }

  /** No two printers share an id. */
  predicate UniqueIds(printers: seq<Printer>)
  {
    forall i, j :: 0 <= i < j < |printers| ==> printers[i].id != printers[j].id
  }

  /** With unique printer ids the flag is decided by the job's own printer:
      true exactly when the job heads its queue, undefined when the queue is
      empty. */
  lemma PrintingWithUniqueIds(printers: seq<Printer>, job: Job, k: nat)
    requires UniqueIds(printers)
    requires k < |printers| && printers[k].id == job.printer
    ensures PrintingFlag(printers, job) ==
      if |printers[k].queue| > 0 then Some(printers[k].queue[0] == job.id) else None
  {
  }

  /** How many job badges a printer card shows by name. */
  const MaxBadges: nat := 5

  /** The badges of a printer card: the file names of the first jobs, and
      the count of the others behind a "+n" badge when there are more than
      `MaxBadges`. */
  datatype Badges = Badges(names: seq<string>, more: Option<nat>)

  /** `map((j) => j.fileName)`: `None` when some entry is `undefined`, which
      makes the property read throw. */
  function FileNames(js: seq<Option<Job>>): (r: Option<seq<string>>)
    ensures r.Some? <==> forall i :: 0 <= i < |js| ==> js[i].Some?
    ensures r.Some? ==> |r.value| == |js|
    ensures r.Some? ==> forall i :: 0 <= i < |js| ==> r.value[i] == js[i].value.fileName
  {
    if js == [] then Some([])
    else match js[0]
      case None => None
      case Some(j) =>
        match FileNames(js[1..])
        case None => None
        case Some(ns) => Some([j.fileName] + ns)
  }

  /** The badge rule of a printer card. `None` stands for the TypeError raised
      when one of the jobs shown by name is `undefined`; jobs past the first
      `MaxBadges` are only counted, so they cannot raise it. */
  function JobBadges(js: seq<Option<Job>>): (r: Option<Badges>)
    ensures r.Some? <==> forall i :: 0 <= i < |js| && i < MaxBadges ==> js[i].Some?
    ensures r.Some? ==> |r.value.names| == if |js| <= MaxBadges then |js| else MaxBadges
    ensures r.Some? ==>
      forall i :: 0 <= i < |r.value.names| ==> r.value.names[i] == js[i].value.fileName
    ensures r.Some? ==> (r.value.more.Some? <==> |js| > MaxBadges)
    ensures r.Some? && r.value.more.Some? ==> |r.value.names| + r.value.more.value == |js|
  {
    if |js| <= MaxBadges then
      match FileNames(js)
      case None => None
      case Some(ns) => Some(Badges(ns, None))
    else
      match FileNames(js[..MaxBadges])
      case None => None
      case Some(ns) => Some(Badges(ns, Some(|js| - MaxBadges)))
  }
}
