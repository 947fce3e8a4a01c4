/** The client's interface state and the handlers that change it: selection
    bookkeeping for the three tabs, the printer-tab filter list, and the
    page refresh that ties them together. */
module Interface {

  import opened Wrappers
  import opened Entities
  import opened Seqs
  import opened Filters

  /** Some job, printer or group carries `id`. These state by membership what
      the handlers compute with `Find`; the handlers' contracts tie the two. */
  predicate HasJob(jobs: seq<Job>, id: int)
  {
    exists j :: j in jobs && j.id == id
  }

  predicate HasPrinter(printers: seq<Printer>, id: int)
  {
    exists p :: p in printers && p.id == id
  }

  predicate HasGroup(groups: seq<Group>, id: int)
  {
    exists g :: g in groups && g.id == id
  }

  /** What is selected in each tab (-1: nothing) and which printer filters
      are active, in the order they were added. */
  class InterfaceState {
    var ciSelectedJobId: int
    var imSelectedPrinterId: int
    var imFilters: seq<Filter>
    var grSelectedGroupId: int
    var grFilters: seq<Filter>

    constructor (ciSelectedJobId: int, imSelectedPrinterId: int, imFilters: seq<Filter>,
                 grSelectedGroupId: int, grFilters: seq<Filter>)
      ensures this.ciSelectedJobId == ciSelectedJobId
      ensures this.imSelectedPrinterId == imSelectedPrinterId
      ensures this.imFilters == imFilters
      ensures this.grSelectedGroupId == grSelectedGroupId
      ensures this.grFilters == grFilters
    {
      this.ciSelectedJobId := ciSelectedJobId;
      this.imSelectedPrinterId := imSelectedPrinterId;
      this.imFilters := imFilters;
      this.grSelectedGroupId := grSelectedGroupId;
      this.grFilters := grFilters;
    }

    /** Every selection is -1 or the id of an entity of its collection. */
    ghost predicate SelectionValid(data: Snapshot)
      reads this
    {
      && (ciSelectedJobId == -1 || HasJob(data.jobs, ciSelectedJobId))
      && (imSelectedPrinterId == -1 || HasPrinter(data.printers, imSelectedPrinterId))
      && (grSelectedGroupId == -1 || HasGroup(data.groups, grSelectedGroupId))
    }

    /** The list update of `addImFilter`: append a filter of the kind at
        drop-down position `typeIdx`, without removing duplicates. */
    method AddImFilter(typeIdx: int, value: string, buttonId: int)
      modifies this
      ensures imFilters == old(imFilters) + [Filter(FilterTypeByIdx(typeIdx), value, buttonId)]
      ensures ciSelectedJobId == old(ciSelectedJobId)
      ensures imSelectedPrinterId == old(imSelectedPrinterId)
      ensures grSelectedGroupId == old(grSelectedGroupId)
      ensures grFilters == old(grFilters)
    {
      var filter := Filter(FilterTypeByIdx(typeIdx), value, buttonId);
      imFilters := imFilters + [filter];
    }

    /** The list update of `removeImFilter`: splice out the first filter with
        this button id, if there is one. */
    method RemoveImFilter(buttonId: int)
      modifies this
      ensures imFilters == RemoveFirst(old(imFilters), buttonId)
      ensures ciSelectedJobId == old(ciSelectedJobId)
      ensures imSelectedPrinterId == old(imSelectedPrinterId)
      ensures grSelectedGroupId == old(grSelectedGroupId)
      ensures grFilters == old(grFilters)
    {
      var idx := FirstIndex(imFilters, ButtonIs(buttonId));
      if idx.Some? {
        imFilters := imFilters[..idx.value] + imFilters[idx.value + 1..];
      }
    }

    /** The selection part of `updateCiDer`: select the job with this id, or
        nothing when there is none. */
    method UpdateCiDer(jobs: seq<Job>, jobId: int)
      modifies this
      ensures ciSelectedJobId == if HasJob(jobs, jobId) then jobId else -1
      ensures imSelectedPrinterId == old(imSelectedPrinterId)
      ensures grSelectedGroupId == old(grSelectedGroupId)
      ensures imFilters == old(imFilters) && grFilters == old(grFilters)
    {
      var job := Find(jobs, JobIdIs(jobId));
      if job.None? {
        ciSelectedJobId := -1;
        return;
      }
      ciSelectedJobId := job.value.id;
    }

    /** The selection part of `updateImDer`. */
    method UpdateImDer(printers: seq<Printer>, printerId: int)
      modifies this
      ensures imSelectedPrinterId == if HasPrinter(printers, printerId) then printerId else -1
      ensures ciSelectedJobId == old(ciSelectedJobId)
      ensures grSelectedGroupId == old(grSelectedGroupId)
      ensures imFilters == old(imFilters) && grFilters == old(grFilters)
    {
      var printer := Find(printers, PrinterIdIs(printerId));
      if printer.None? {
        imSelectedPrinterId := -1;
        return;
      }
      imSelectedPrinterId := printer.value.id;
    }

    /** The selection part of `updateGrDer`. */
    method UpdateGrDer(groups: seq<Group>, groupId: int)
      modifies this
      ensures grSelectedGroupId == if HasGroup(groups, groupId) then groupId else -1
      ensures ciSelectedJobId == old(ciSelectedJobId)
      ensures imSelectedPrinterId == old(imSelectedPrinterId)
      ensures imFilters == old(imFilters) && grFilters == old(grFilters)
    {
      var group := Find(groups, GroupIdIs(groupId));
      if group.None? {
        grSelectedGroupId := -1;
        return;
      }
      grSelectedGroupId := group.value.id;
    }
  }

  /** The page: the global `interfaceState`, `undefined` (null) until the
      first refresh that renders. The server snapshot is passed in. */
  class Page {
    var interfaceState: InterfaceState?

    constructor ()
      ensures interfaceState == null
    {
      interfaceState := null;
    }

    /** `applyImFilters`: with a state and at least one filter, narrow the
        printers by each filter in turn and select the first survivor (or
        nothing); otherwise return the printers and touch nothing. */
    method ApplyImFilters(printers: seq<Printer>) returns (filtered: seq<Printer>)
      modifies interfaceState
      ensures interfaceState == null ==> filtered == printers
      ensures interfaceState != null ==>
        interfaceState.imFilters == old(interfaceState.imFilters) &&
        filtered == ApplyAll(printers, interfaceState.imFilters)
      ensures interfaceState != null && interfaceState.imFilters == [] ==>
        filtered == printers && unchanged(interfaceState)
      ensures interfaceState != null && interfaceState.imFilters != [] ==>
        interfaceState.imSelectedPrinterId == (if filtered == [] then -1 else filtered[0].id) &&
        interfaceState.ciSelectedJobId == old(interfaceState.ciSelectedJobId) &&
        interfaceState.grSelectedGroupId == old(interfaceState.grSelectedGroupId) &&
        interfaceState.grFilters == old(interfaceState.grFilters)
    {
      var state := interfaceState;
      if state != null && |state.imFilters| > 0 {
        filtered := printers;
        var filters := state.imFilters;
        for i := 0 to |filters|
          invariant filtered == ApplyAll(printers, filters[..i])
        {
          assert filters[..i + 1][..i] == filters[..i];
          filtered := Narrow(filtered, filters[i]);
        }
        assert filters[..|filters|] == filters;
        if |filtered| > 0 {
          state.imSelectedPrinterId := filtered[0].id;
        } else {
          state.imSelectedPrinterId := -1;
        }
      } else {
        filtered := printers;
      }
    }

    /** A job card's click handler, `updateCiDer` called directly: select the
        job with this id, or nothing when there is none. Before the first
        refresh that renders there is no state, and the assignment to its
        field throws (`None`). */
    method UpdateCiDer(jobs: seq<Job>, jobId: int) returns (selected: Option<int>)
      modifies interfaceState
      ensures interfaceState == null ==> selected.None?
      ensures interfaceState != null ==>
        selected == Some(if HasJob(jobs, jobId) then jobId else -1) &&
        interfaceState.ciSelectedJobId == selected.value &&
        interfaceState.imSelectedPrinterId == old(interfaceState.imSelectedPrinterId) &&
        interfaceState.grSelectedGroupId == old(interfaceState.grSelectedGroupId) &&
        interfaceState.imFilters == old(interfaceState.imFilters) &&
        interfaceState.grFilters == old(interfaceState.grFilters)
    {
      if interfaceState == null {
        return None;
      }
      interfaceState.UpdateCiDer(jobs, jobId);
      selected := Some(interfaceState.ciSelectedJobId);
    }

    /** A printer card's click handler, `updateImDer` called directly. */
    method UpdateImDer(printers: seq<Printer>, printerId: int) returns (selected: Option<int>)
      modifies interfaceState
      ensures interfaceState == null ==> selected.None?
      ensures interfaceState != null ==>
        selected == Some(if HasPrinter(printers, printerId) then printerId else -1) &&
        interfaceState.imSelectedPrinterId == selected.value &&
        interfaceState.ciSelectedJobId == old(interfaceState.ciSelectedJobId) &&
        interfaceState.grSelectedGroupId == old(interfaceState.grSelectedGroupId) &&
        interfaceState.imFilters == old(interfaceState.imFilters) &&
        interfaceState.grFilters == old(interfaceState.grFilters)
    {
      if interfaceState == null {
        return None;
      }
      interfaceState.UpdateImDer(printers, printerId);
      selected := Some(interfaceState.imSelectedPrinterId);
    }

    /** A group card's click handler, `updateGrDer` called directly. */
    method UpdateGrDer(groups: seq<Group>, groupId: int) returns (selected: Option<int>)
      modifies interfaceState
      ensures interfaceState == null ==> selected.None?
      ensures interfaceState != null ==>
        selected == Some(if HasGroup(groups, groupId) then groupId else -1) &&
        interfaceState.grSelectedGroupId == selected.value &&
        interfaceState.ciSelectedJobId == old(interfaceState.ciSelectedJobId) &&
        interfaceState.imSelectedPrinterId == old(interfaceState.imSelectedPrinterId) &&
        interfaceState.imFilters == old(interfaceState.imFilters) &&
        interfaceState.grFilters == old(interfaceState.grFilters)
    {
      if interfaceState == null {
        return None;
      }
      interfaceState.UpdateGrDer(groups, groupId);
      selected := Some(interfaceState.grSelectedGroupId);
    }

    /** `update`'s state changes. The printer list is filtered first; then,
        if the lists render (`rendered`: lines that build the HTML did not
        throw), the state is created on the first call with each selection
        on its collection's first element, and each selection is checked
        against its collection. A throw while rendering skips all of that. */
    method Update(data: Snapshot, rendered: bool) returns (shown: seq<Printer>)
      modifies this, interfaceState
      ensures old(interfaceState) == null ==> shown == data.printers
      ensures old(interfaceState) != null ==>
        shown == ApplyAll(data.printers, old(interfaceState.imFilters))
      ensures !rendered ==> interfaceState == old(interfaceState)
      ensures rendered ==> interfaceState != null && interfaceState.SelectionValid(data)
      ensures rendered && old(interfaceState) == null ==>
        fresh(interfaceState) &&
        interfaceState.imFilters == [] && interfaceState.grFilters == [] &&
        interfaceState.ciSelectedJobId == (if data.jobs == [] then -1 else data.jobs[0].id) &&
        interfaceState.imSelectedPrinterId == (if data.printers == [] then -1 else data.printers[0].id) &&
        interfaceState.grSelectedGroupId == (if data.groups == [] then -1 else data.groups[0].id)
      ensures old(interfaceState) != null ==>
        interfaceState == old(interfaceState) &&
        interfaceState.imFilters == old(interfaceState.imFilters) &&
        interfaceState.grFilters == old(interfaceState.grFilters)
      ensures rendered && old(interfaceState) != null ==>
        interfaceState.ciSelectedJobId ==
          (if HasJob(data.jobs, old(interfaceState.ciSelectedJobId))
           then old(interfaceState.ciSelectedJobId) else -1) &&
        interfaceState.grSelectedGroupId ==
          (if HasGroup(data.groups, old(interfaceState.grSelectedGroupId))
           then old(interfaceState.grSelectedGroupId) else -1)
      ensures rendered && old(interfaceState) != null && old(interfaceState.imFilters) != [] ==>
        interfaceState.imSelectedPrinterId == (if shown == [] then -1 else shown[0].id)
      ensures rendered && old(interfaceState) != null && old(interfaceState.imFilters) == [] ==>
        interfaceState.imSelectedPrinterId ==
          (if HasPrinter(data.printers, old(interfaceState.imSelectedPrinterId))
           then old(interfaceState.imSelectedPrinterId) else -1)
      ensures !rendered && old(interfaceState) != null ==>
        interfaceState.ciSelectedJobId == old(interfaceState.ciSelectedJobId) &&
        interfaceState.grSelectedGroupId == old(interfaceState.grSelectedGroupId) &&
        interfaceState.imSelectedPrinterId ==
          (if old(interfaceState.imFilters) == [] then old(interfaceState.imSelectedPrinterId)
           else if shown == [] then -1 else shown[0].id)
    {
      shown := ApplyImFilters(data.printers);
      if !rendered {
        return;
      }
      if interfaceState == null {
        var state := new InterfaceState(-1, -1, [], -1, []);
        if |data.jobs| > 0 {
          state.ciSelectedJobId := data.jobs[0].id;
        }
        if |data.printers| > 0 {
          state.imSelectedPrinterId := data.printers[0].id;
        }
        if |data.groups| > 0 {
          state.grSelectedGroupId := data.groups[0].id;
        }
        interfaceState := state;
      }
      var state := interfaceState;
      if state.imFilters != [] && shown != [] {
        ApplyAllSpec(data.printers, state.imFilters);
        assert shown[0] in data.printers;
      }
      state.UpdateCiDer(data.jobs, state.ciSelectedJobId);
      state.UpdateImDer(data.printers, state.imSelectedPrinterId);
      state.UpdateGrDer(data.groups, state.grSelectedGroupId);
    }

    /** The "add filter" button: append the filter, then refresh. Before the
        first refresh there is no state and the handler throws (`None`). */
    method AddImFilter(data: Snapshot, typeIdx: int, value: string, buttonId: int, rendered: bool)
      returns (shown: Option<seq<Printer>>)
      modifies this, interfaceState
      ensures old(interfaceState) == null ==> shown.None? && interfaceState == null
      ensures old(interfaceState) != null ==>
        interfaceState == old(interfaceState) &&
        interfaceState.imFilters ==
          old(interfaceState.imFilters) + [Filter(FilterTypeByIdx(typeIdx), value, buttonId)] &&
        shown == Some(ApplyAll(data.printers, interfaceState.imFilters))
      ensures old(interfaceState) != null ==>
        interfaceState.grFilters == old(interfaceState.grFilters) &&
        interfaceState.imSelectedPrinterId == (if shown.value == [] then -1 else shown.value[0].id)
      ensures old(interfaceState) != null && rendered ==>
        interfaceState.SelectionValid(data) &&
        interfaceState.ciSelectedJobId ==
          (if HasJob(data.jobs, old(interfaceState.ciSelectedJobId))
           then old(interfaceState.ciSelectedJobId) else -1) &&
        interfaceState.grSelectedGroupId ==
          (if HasGroup(data.groups, old(interfaceState.grSelectedGroupId))
           then old(interfaceState.grSelectedGroupId) else -1)
      ensures old(interfaceState) != null && !rendered ==>
        interfaceState.ciSelectedJobId == old(interfaceState.ciSelectedJobId) &&
        interfaceState.grSelectedGroupId == old(interfaceState.grSelectedGroupId)
    {
      if interfaceState == null {
        return None;
      }
      interfaceState.AddImFilter(typeIdx, value, buttonId);
      var list := Update(data, rendered);
      shown := Some(list);
    }

    /** A filter's remove button: splice the filter out, then refresh. */
    method RemoveImFilter(data: Snapshot, buttonId: int, rendered: bool)
      returns (shown: Option<seq<Printer>>)
      modifies this, interfaceState
      ensures old(interfaceState) == null ==> shown.None? && interfaceState == null
      ensures old(interfaceState) != null ==>
        interfaceState == old(interfaceState) &&
        interfaceState.imFilters == RemoveFirst(old(interfaceState.imFilters), buttonId) &&
        shown == Some(ApplyAll(data.printers, interfaceState.imFilters))
      ensures old(interfaceState) != null ==>
        interfaceState.grFilters == old(interfaceState.grFilters)
      ensures old(interfaceState) != null && interfaceState.imFilters != [] ==>
        interfaceState.imSelectedPrinterId == (if shown.value == [] then -1 else shown.value[0].id)
      ensures old(interfaceState) != null && rendered ==>
        interfaceState.SelectionValid(data) &&
        interfaceState.ciSelectedJobId ==
          (if HasJob(data.jobs, old(interfaceState.ciSelectedJobId))
           then old(interfaceState.ciSelectedJobId) else -1) &&
        interfaceState.grSelectedGroupId ==
          (if HasGroup(data.groups, old(interfaceState.grSelectedGroupId))
           then old(interfaceState.grSelectedGroupId) else -1)
      ensures old(interfaceState) != null && rendered && interfaceState.imFilters == [] ==>
        interfaceState.imSelectedPrinterId ==
          (if HasPrinter(data.printers, old(interfaceState.imSelectedPrinterId))
           then old(interfaceState.imSelectedPrinterId) else -1)
      ensures old(interfaceState) != null && !rendered ==>
        interfaceState.ciSelectedJobId == old(interfaceState.ciSelectedJobId) &&
        interfaceState.grSelectedGroupId == old(interfaceState.grSelectedGroupId)
      ensures old(interfaceState) != null && !rendered && interfaceState.imFilters == [] ==>
        interfaceState.imSelectedPrinterId == old(interfaceState.imSelectedPrinterId)
    {
      if interfaceState == null {
        return None;
      }
      interfaceState.RemoveImFilter(buttonId);
      var list := Update(data, rendered);
      shown := Some(list);
    }
  }

  /** A user adds a filter under a fresh button id and removes it again: the
      page shows the same printers as before the add. */
  method AddThenRemoveRestoresList(page: Page, data: Snapshot, typeIdx: int, value: string, buttonId: int)
    returns (before: seq<Printer>, after: Option<seq<Printer>>)
    requires page.interfaceState != null
    requires !HasButton(page.interfaceState.imFilters, buttonId)
    modifies page, page.interfaceState
    ensures page.interfaceState == old(page.interfaceState)
    ensures page.interfaceState.imFilters == old(page.interfaceState.imFilters)
    ensures after == Some(before)
  {
    before := page.Update(data, true);
    var filters := page.interfaceState.imFilters;
    var added := page.AddImFilter(data, typeIdx, value, buttonId, true);
    after := page.RemoveImFilter(data, buttonId, true);
    AddThenRemove(data.printers, filters, Filter(FilterTypeByIdx(typeIdx), value, buttonId));
  }

  /** The two printers of the scenario below, and its filter by alias "B". */
  const PrinterA := Printer(1, "A", "10.0.0.1", "M", "L", Paused, [], None)
  const PrinterB := Printer(2, "B", "10.0.0.2", "M", "L", Paused, [], None)
  const ByAliasB := Filter(Some(Nombre), "B", 7)

  /** Filtering the two printers by alias "B" leaves printer 2 alone. */
  lemma ByAliasBKeepsB()
    ensures ApplyAll([PrinterA, PrinterB], [ByAliasB]) == [PrinterB]
  {
    assert !Matches(PrinterA, ByAliasB) && Matches(PrinterB, ByAliasB);
    assert [ByAliasB][..0] == [];
    assert [PrinterA, PrinterB][1..] == [PrinterB] && [PrinterB][1..] == [];
    assert Keep([PrinterA, PrinterB], Passes(ByAliasB)) == [PrinterB];
  }

  /** Two printers "A" (id 1) and "B" (id 2). The first refresh shows both;
      filtering by alias "B" shows printer 2 and selects it; removing the
      filter shows both again, and the selection stays on printer 2, since an
      empty filter list leaves the selection alone. */
  method AliasFilterScenario()
    returns (page: Page, shown: seq<Printer>, filtered: Option<seq<Printer>>,
             selectedWhileFiltered: int, restored: Option<seq<Printer>>)
    ensures shown == [PrinterA, PrinterB]
    ensures filtered == Some([PrinterB]) && selectedWhileFiltered == 2
    ensures restored == Some([PrinterA, PrinterB])
    ensures page.interfaceState != null && page.interfaceState.imSelectedPrinterId == 2
  {
    var data := Snapshot([PrinterA, PrinterB], [], []);
    page := new Page();
    shown := page.Update(data, true);
    assert page.interfaceState.imFilters == [];
    filtered := page.AddImFilter(data, 0, "B", 7, true);
    assert page.interfaceState.imFilters == [ByAliasB];
    ByAliasBKeepsB();
    assert filtered == Some([PrinterB]);
    selectedWhileFiltered := page.interfaceState.imSelectedPrinterId;
    assert selectedWhileFiltered == 2;
    assert HasPrinter(data.printers, 2) by {
      assert PrinterB in data.printers;
    }
    restored := page.RemoveImFilter(data, 7, true);
    assert page.interfaceState.imFilters == [];
    assert restored == Some([PrinterA, PrinterB]);
  }
}
