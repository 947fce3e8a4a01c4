# PrinterManager client: filter chain and selection bookkeeping

This project models the logic inside the PrinterManager web client (`js/pmgr.js`).
The client shows three tabs: the print queue ("Cola de Impresión", `ci`), printers
("Impresoras", `im`) and groups ("Grupos", `gr`). The model covers:

- the `InterfaceState` record: one selected id per tab, where -1 means nothing is
  selected, and the ordered list of active printer filters;
- the printer filter chain. `getFilterTypeByIdx` picks a filter kind.
  `addImFilter` and `removeImFilter` edit the list. `applyImFilters` narrows the
  printer list one filter at a time by exact field equality, then moves the
  printer selection to the first survivor, or to -1 when none survives;
- selection updates (`updateCiDer`, `updateImDer`, `updateGrDer`). Each one looks
  an id up and selects it, or selects nothing when the id is absent;
- `update`: it filters first, then creates the state once, then re-checks every
  selection against its collection;
- small read-only helpers: `getPrinterGroups`, `getPrinterJobs`, the "is printing"
  guess of `updateCiDer`, and the job-badge rule of a printer card.

Layout, one module per file:

- `wrappers.dfy` (`Wrappers`): `Option`. In data, `None` stands for JavaScript's
  `undefined`. As the result of `Queries.FileNames`, `Queries.JobBadges` and the
  five `Page` handlers, it stands for a thrown TypeError.
- `entities.dfy` (`Entities`): printers, jobs, groups, the server snapshot, filter
  kinds, `Filter`, and `FilterTypeByIdx`.
- `seqs.dfy` (`Seqs`): the array built-ins the code uses (`filter`, `find`, and
  the index that `indexOf(find(...))` gives) as functions over sequences, with
  lemmas about them.
- `filters.dfy` (`Filters`): the filter chain as functions. `ApplyAll` is the loop
  of `applyImFilters`. `Select` is a one-pass reference: keep the printers that
  pass every filter. `RemoveFirst` is the splice of `removeImFilter`.
- `queries.dfy` (`Queries`): the read-only helpers.
- `interface.dfy` (`Interface`): class `InterfaceState` with the source's five
  fields, and class `Page`. `Page` holds the global `interfaceState`, which is null
  until the first refresh that renders. Its methods are `applyImFilters`, `update`,
  the add/remove filter handlers, and the three card click handlers
  `updateCiDer`, `updateImDer` and `updateGrDer`.

Behaviour that follows the code:

- `applyImFilters` re-derives the printer selection only when the filter list is
  non-empty (`js/pmgr.js:95`). When the last filter is removed, the selection
  therefore stays where the filters left it. It is not reset to the first printer.
  `Interface.AliasFilterScenario` shows this: filter by alias "B", then remove the
  filter, and printer 2 stays selected.
- The GRUPO filter compares an optional `group` field of the printer
  (`js/pmgr.js:114`). It does not check group membership. A printer without the
  field never passes a GRUPO filter.
- A filter whose kind is `undefined` matches none of the switch cases. Such a
  filter passes the list through unchanged.
- The first `update` calls `applyImFilters` before the state exists, so it shows
  every printer.

## Model

| member | source | states |
|---|---|---|
| `Entities.FilterTypeByIdx` | js/pmgr.js:59-67 | gives a kind exactly for indices 0..4 and `undefined` otherwise; the kind is the one at that drop-down position |
| `Entities.FilterTypeByIdxRoundTrip` | js/pmgr.js:51-67 | every one of the five kinds is returned for its own position |
| `Entities.LabelInjective` | js/pmgr.js:51-57 | the five filter labels are pairwise distinct, so the switch sends each filter to at most one case |
| `Seqs.Keep` | js/pmgr.js:102 | `filter` returns a subsequence of its input (order kept) holding exactly the elements that pass the callback |
| `Seqs.KeepCount` | js/pmgr.js:102 | `filter` keeps each passing element as many times as it occurs in the input and drops every occurrence of a failing one |
| `Seqs.FirstIndex` | js/pmgr.js:87 | `find` then `indexOf` locate the first element that passes, or report none when no element passes |
| `Seqs.Find` | js/pmgr.js:436 | `find` returns the first element that passes, or `undefined` exactly when none passes |
| `Seqs.KeepHeadIsFirst` | js/pmgr.js:120 | the first survivor of a `filter` is the element `FirstIndex` locates; nothing survives exactly when nothing is found |
| `Filters.Narrow` | js/pmgr.js:100-116 | one loop pass keeps, in order, exactly the printers whose designated field equals the filter value, each with its multiplicity; a kind outside the switch leaves the list unchanged |
| `Filters.ApplyAll` | js/pmgr.js:99-117 | the filter loop keeps a printer exactly when it passes every filter, with the same number of occurrences as in the input, and drops every occurrence of a printer that fails one |
| `Filters.Select` | js/pmgr.js:96-117 | reference: a subsequence of the printers holding exactly those that pass every filter, each as often as it occurs |
| `Filters.NarrowSelect` | js/pmgr.js:99-117 | narrowing the one-pass selection for some filters by one more filter gives the selection for the longer list |
| `Filters.ApplyAllIsSelect` | js/pmgr.js:99-117 | the sequential narrowing loop equals the one-pass conjunction of all filters |
| `Filters.ApplyAllSpec` | js/pmgr.js:96-117 | the result is a subsequence of the printers in their original order; a printer is kept if and only if it passes every filter, with all its occurrences, so each dropped occurrence is of a printer that fails one |
| `Filters.FilterOrderIrrelevant` | js/pmgr.js:99-117 | filter order and repeated filters do not change the result; only the set of filters matters |
| `Filters.FirstShownIsFirstMatch` | js/pmgr.js:120-121 | the result is empty exactly when no printer passes; otherwise its head is the first printer of the collection that passes every filter |
| `Filters.AddNarrows` | js/pmgr.js:80 | appending a filter gives a subsequence of the previous result, so it never brings a printer back |
| `Filters.RemoveFirst` | js/pmgr.js:87-90 | removes exactly the first filter with the button id and keeps the others in order; with no match the list is unchanged |
| `Filters.AddThenRemove` | js/pmgr.js:78-90 | adding under a fresh button id and then removing that id restores the filter list, and so the filtered printers |
| `Filters.AddThenRemoveCollision` | js/pmgr.js:78-90 | when the new button id collides with an older filter's, the older filter is removed and the new one stays last |
| `Queries.PrinterGroups` | js/pmgr.js:209-211 | returns the groups whose member list contains the printer id, in group order, a repeated group as often as it occurs |
| `Queries.PrinterJobs` | js/pmgr.js:214-216 | gives one entry per queued id: the first job with that id, or `undefined` exactly when no job has it |
| `Queries.PrintingFlag` | js/pmgr.js:452-456 | `undefined` when no printer owns the job with a non-empty queue; otherwise the LAST such printer decides, by whether the job heads its queue |
| `Queries.JobIsPrinting` | js/pmgr.js:449-456 | the loop, which does not break, computes `PrintingFlag` |
| `Queries.PrintingWithUniqueIds` | js/pmgr.js:452-456 | with unique printer ids the flag is decided by the job's own printer alone |
| `Queries.FileNames` | js/pmgr.js:227-228 | mapping to file names throws (`None`) exactly when some entry is `undefined`; otherwise it gives the names in order |
| `Queries.JobBadges` | js/pmgr.js:226-246 | shows at most 5 names, the first jobs' file names in order; a "+n" badge appears exactly when there are more than 5 jobs, with n making up the total; it throws only for an `undefined` job among those shown |
| `Interface.InterfaceState.constructor` | js/pmgr.js:29-40 | the state holds exactly the given selections and filter lists |
| `Interface.InterfaceState.AddImFilter` | js/pmgr.js:74-80 | appends a filter of the indexed kind with the given value and button id; earlier filters and selections are unchanged |
| `Interface.InterfaceState.RemoveImFilter` | js/pmgr.js:86-90 | the filter list becomes `RemoveFirst` of the old one; nothing else changes |
| `Interface.InterfaceState.UpdateCiDer` | js/pmgr.js:434-446 | selects the job id if some job has it, otherwise -1; the other selections and the filters are unchanged |
| `Interface.InterfaceState.UpdateImDer` | js/pmgr.js:533-545 | selects the printer id if some printer has it, otherwise -1; nothing else changes |
| `Interface.InterfaceState.UpdateGrDer` | js/pmgr.js:735-747 | selects the group id if some group has it, otherwise -1; nothing else changes |
| `Interface.Page.constructor` | js/pmgr.js:69 | the page starts without an interface state |
| `Interface.Page.ApplyImFilters` | js/pmgr.js:94-128 | without a state, or with no filters, returns the printers and changes nothing; otherwise returns the chained filter result and selects its first printer's id, or -1 if it is empty, leaving the other fields alone |
| `Interface.Page.UpdateCiDer` | js/pmgr.js:434-446 | a job card's click (js/pmgr.js:355): without a state the assignment throws (`None`) and nothing changes; otherwise it selects the job id if some job has it, else -1, and the other selections and filters are unchanged |
| `Interface.Page.UpdateImDer` | js/pmgr.js:533-545 | a printer card's click (js/pmgr.js:250): without a state it throws and nothing changes; otherwise it selects the printer id if some printer has it, else -1, and nothing else changes |
| `Interface.Page.UpdateGrDer` | js/pmgr.js:735-747 | a group card's click (js/pmgr.js:405): without a state it throws and nothing changes; otherwise it selects the group id if some group has it, else -1, and nothing else changes |
| `Interface.Page.Update` | js/pmgr.js:968-1010 | returns what `applyImFilters` gives (all printers before the state exists); the filter lists are never changed. If rendering succeeds, the state is created once, with empty filters and each selection on the first element of its collection or -1. An existing job or group selection is kept if its entity is present and becomes -1 otherwise. The printer selection is the first filtered printer, or -1, when filters are active; otherwise it is re-checked the same way. Afterwards every selection is -1 or the id of a present entity. If rendering throws, no state is created. An existing state keeps its job and group selections, and its printer selection is whatever `applyImFilters` wrote |
| `Interface.Page.AddImFilter` | js/pmgr.js:74-84 | without a state the handler throws and nothing changes. Otherwise the filter is appended, `grFilters` is kept, and the filtered list is returned; its first printer, or -1, is selected. If rendering succeeds, the job and group selections are re-checked against their collections; if it throws, they are unchanged |
| `Interface.Page.RemoveImFilter` | js/pmgr.js:86-92 | without a state nothing changes. Otherwise the first matching filter goes, `grFilters` is kept, and the filtered list is returned. While filters remain, the first filtered printer, or -1, is selected. With none left, the printer selection is re-checked if rendering succeeds and unchanged if it throws. The job and group selections are re-checked on success and unchanged on a throw |
| `Interface.AddThenRemoveRestoresList` | js/pmgr.js:74-92 | add under a fresh button id, then remove: the page shows the same printers as before and the filter list is restored |
| `Interface.AliasFilterScenario` | js/pmgr.js:94-128 | two printers: the first refresh shows both; filtering by alias "B" shows printer 2 alone and selects it; removing the filter shows both again and printer 2 stays selected |
| `Interface.ByAliasBKeepsB` | js/pmgr.js:101-102 | the alias filter "B" applied to printers "A" and "B" leaves exactly printer "B" |

## Left out

- HTML, SVG and DOM work is not modelled: `statusToSVG`, the markup of
  `createPrinterItem`, `createJobItem` and `createGroupItem`, `updateImIzFiltros`,
  the modal bodies, `listaGruposIncluidos` and `listaGruposAdd`. It is presentation.
  Rendering the three lists can throw, and the try/catch in `update` then skips
  the rest. `Page.Update` takes that outcome as its `rendered` parameter.
  When the first refresh throws, no state exists yet, so a click on a card that
  is already drawn throws as well. `Page.UpdateCiDer`, `Page.UpdateImDer` and
  `Page.UpdateGrDer` return `None` in that case.
  `Queries.JobBadges` models one cause of such a throw.
- `createGroupItem` compares an array to the number 5 (`js/pmgr.js:387`). It only
  feeds the template, so it is not modelled. `getGroupPrinters` is not modelled
  either, for the same reason.
- `printerIsOnGroup` compares `.name` on group members, which are printer ids. It
  only feeds HTML, so it is not modelled.
- The "is printing" loop of `createJobItem` (`js/pmgr.js:348-352`) only feeds HTML,
  so it is not modelled. Unlike the one in `updateCiDer`, it does not check that
  the queue is non-empty.
- The network and login are not modelled: `Pmgr.connect`, `Pmgr.login`,
  `Pmgr.addPrinter`, `Pmgr.addGroup` and their `.then(update)` chains. The data
  module is not part of this model. Its snapshot is a `Snapshot` parameter.
- `populate` is not modelled. It makes random sample data through a utility
  module that is not part of this model.
- `Math.random` button ids are inputs: the `buttonId` parameter.
- The reads of the filter input fields are inputs too: `typeIdx` and `value`.
- Console logging, the event-listener wiring and the `window` exports are not
  modelled.
- JavaScript loose equality and the `Number(idx)` coercion are not modelled. Ids
  and button ids are integers, filter values and fields are strings, and
  equality is exact. A DOM button id is a string and is compared loosely with a
  numeric `buttonId`; the model takes both as the same integer.
- Keep: its own contract states order and membership only. The multiplicity is
  proved apart, in `Seqs.KeepCount`, and the functions built on `Keep` carry it.
- `grFilters` is stored in the state but never read, so it is carried unchanged.
- `InterfaceState.constructor` does not model the `imFilters || []` default
  (`js/pmgr.js:35`). Its only caller passes `[]`, so the default never applies.
- `Queries.JobBadges`: the "+n" badge is modelled as the count n, not as the
  string `"+" + n`.
- `update` after `addImFilter`/`removeImFilter` is modelled only through its
  state changes and the printer list it shows.
