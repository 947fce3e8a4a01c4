/** The printer-tab filter chain: how a list of filters narrows the printer
    collection, and how a filter is taken out of the list again. */
module Filters {

  import opened Wrappers
  import opened Entities
  import opened Seqs

  /** Whether printer `p` passes filter `f`: exact equality of the field the
      filter's kind designates. A filter of no known kind falls through the
      switch and so lets every printer pass. */
  predicate Matches(p: Printer, f: Filter)
  {
    match f.kind
    case None => true
    case Some(Nombre) => p.alias == f.value
    case Some(Ip) => p.ip == f.value
    case Some(Modelo) => p.model == f.value
    case Some(Localizacion) => p.location == f.value
    case Some(Grupo) => p.group == Some(f.value)
  }

  /** Whether `p` passes every filter of `fs`. */
  predicate AllMatch(p: Printer, fs: seq<Filter>)
  {
    forall f :: f in fs ==> Matches(p, f)
  }

  /** The callback of the `filter` call for `f`. */
  function Passes(f: Filter): Printer -> bool
  {
    (p: Printer) => Matches(p, f)
  }

  /** The callback of a single `filter` call for all of `fs`. */
  function PassesAll(fs: seq<Filter>): Printer -> bool
  {
    (p: Printer) => AllMatch(p, fs)
  }

  /** One pass of the filter loop: a known kind replaces the list by its
      `filter`; an unknown kind leaves the list as it is. */
  function Narrow(ps: seq<Printer>, f: Filter): (r: seq<Printer>)
    ensures IsSubsequence(r, ps)
    ensures forall p :: p in r <==> p in ps && Matches(p, f)
    ensures forall p :: multiset(r)[p] == if Matches(p, f) then multiset(ps)[p] else 0
    ensures f.kind.None? ==> r == ps
  {
    match f.kind
    case None => SubsequenceReflexive(ps); ps
    case Some(_) => KeepCount(ps, Passes(f)); Keep(ps, Passes(f))
  }

  /** The filter loop: the filters applied one after another, in list order.
      Each printer that passes every filter stays, as often as it occurs;
      every other printer goes. */
  function ApplyAll(ps: seq<Printer>, fs: seq<Filter>): (r: seq<Printer>)
    ensures forall p :: p in r <==> p in ps && AllMatch(p, fs)
    ensures forall p :: multiset(r)[p] == if AllMatch(p, fs) then multiset(ps)[p] else 0
    decreases |fs|
  {
    if fs == [] then ps
    else
      var init, last := fs[..|fs| - 1], fs[|fs| - 1];
      assert forall g :: g in fs <==> g in init || g == last by {
        assert fs == init + [last];
      }
      Narrow(ApplyAll(ps, init), last)
  }

  /** Reference definition: a single pass keeping the printers that pass every
      filter at once. */
  function Select(ps: seq<Printer>, fs: seq<Filter>): (r: seq<Printer>)
    ensures IsSubsequence(r, ps)
    ensures forall p :: p in r <==> p in ps && AllMatch(p, fs)
    ensures forall p :: multiset(r)[p] == if AllMatch(p, fs) then multiset(ps)[p] else 0
  {
    KeepCount(ps, PassesAll(fs));
    Keep(ps, PassesAll(fs))
  }

  /** Narrowing the selection for `fs` by `f` selects for `fs + [f]`. */
  lemma NarrowSelect(ps: seq<Printer>, fs: seq<Filter>, f: Filter)
    ensures Narrow(Select(ps, fs), f) == Select(ps, fs + [f])
  {
    forall p | p in ps
      ensures AllMatch(p, fs + [f]) == (AllMatch(p, fs) && Matches(p, f))
    {
      assert forall g :: g in fs + [f] <==> g in fs || g == f;
    }
    match f.kind
    case None =>
      KeepCongruent(ps, PassesAll(fs), PassesAll(fs + [f]));
    case Some(_) =>
      KeepKeep(ps, PassesAll(fs), Passes(f), PassesAll(fs + [f]));
  }

  /** Sequential narrowing equals the one-pass conjunction. */
  lemma {:induction false} ApplyAllIsSelect(ps: seq<Printer>, fs: seq<Filter>)
    ensures ApplyAll(ps, fs) == Select(ps, fs)
    decreases |fs|
  {
    if fs == [] {
      KeepAll(ps, PassesAll(fs));
    } else {
      var init, last := fs[..|fs| - 1], fs[|fs| - 1];
      ApplyAllIsSelect(ps, init);
      NarrowSelect(ps, init, last);
      assert init + [last] == fs;
    }
  }

  /** What the filter chain returns: the printers, in their original order,
      that pass every filter, each as often as it occurs; every dropped
      occurrence is of a printer that fails some filter. */
  lemma ApplyAllSpec(ps: seq<Printer>, fs: seq<Filter>)
    ensures IsSubsequence(ApplyAll(ps, fs), ps)
    ensures forall p :: p in ApplyAll(ps, fs) <==> p in ps && AllMatch(p, fs)
    ensures forall p ::
      multiset(ApplyAll(ps, fs))[p] == (if AllMatch(p, fs) then multiset(ps)[p] else 0)
  {
    ApplyAllIsSelect(ps, fs);
  }

  /** The order of the filters, and repeating a filter, do not change the
      result: only the set of filters matters. */
  lemma FilterOrderIrrelevant(ps: seq<Printer>, fs: seq<Filter>, gs: seq<Filter>)
    requires forall f :: f in fs <==> f in gs
    ensures ApplyAll(ps, fs) == ApplyAll(ps, gs)
  {
    ApplyAllIsSelect(ps, fs);
    ApplyAllIsSelect(ps, gs);
    KeepCongruent(ps, PassesAll(fs), PassesAll(gs));
  }

  /** The first printer shown is the first printer of the collection that
      passes every filter; nothing is shown exactly when none passes. */
  lemma FirstShownIsFirstMatch(ps: seq<Printer>, fs: seq<Filter>)
    ensures ApplyAll(ps, fs) == [] <==> forall p :: p in ps ==> !AllMatch(p, fs)
    ensures ApplyAll(ps, fs) != [] ==>
      exists k :: 0 <= k < |ps| && ApplyAll(ps, fs)[0] == ps[k] && AllMatch(ps[k], fs) &&
        forall j :: 0 <= j < k ==> !AllMatch(ps[j], fs)
  {
    ApplyAllIsSelect(ps, fs);
    KeepHeadIsFirst(ps, PassesAll(fs));
  }

  /** Adding a filter never brings back a printer. */
  lemma AddNarrows(ps: seq<Printer>, fs: seq<Filter>, f: Filter)
    ensures IsSubsequence(ApplyAll(ps, fs + [f]), ApplyAll(ps, fs))
  {
  }

  /** Whether some filter of `fs` carries button id `b`: stated by membership,
      as the specification `RemoveFirst`'s search by `FirstIndex` is held to. */
  predicate HasButton(fs: seq<Filter>, b: int)
  {
    exists f :: f in fs && f.buttonId == b
  }

  /** The callback of the `find` call that looks for button id `b`. */
  function ButtonIs(b: int): Filter -> bool
  {
    (f: Filter) => f.buttonId == b
  }

  /** `removeImFilter`'s list update: splice out the first filter whose
      button id is `b`; no match leaves the list unchanged. */
  function RemoveFirst(fs: seq<Filter>, b: int): (r: seq<Filter>)
    ensures !HasButton(fs, b) ==> r == fs
    ensures HasButton(fs, b) ==> |r| == |fs| - 1
    ensures HasButton(fs, b) ==>
      exists i :: 0 <= i < |fs| && fs[i].buttonId == b &&
        (forall j :: 0 <= j < i ==> fs[j].buttonId != b) &&
        r == fs[..i] + fs[i + 1..]
  {
    match FirstIndex(fs, ButtonIs(b))
    case None => fs
    case Some(i) => fs[..i] + fs[i + 1..]
  }

  /** Adding a filter under a fresh button id and then removing that id gives
      back the filter list, and so the printer list, of before the add. */
  lemma AddThenRemove(ps: seq<Printer>, fs: seq<Filter>, f: Filter)
    requires !HasButton(fs, f.buttonId)
    ensures RemoveFirst(fs + [f], f.buttonId) == fs
    ensures ApplyAll(ps, RemoveFirst(fs + [f], f.buttonId)) == ApplyAll(ps, fs)
  {
  }

  /** When the new filter's button id collides with an older filter's, removal
      takes out the older filter and the new one stays. */
  lemma AddThenRemoveCollision(fs: seq<Filter>, f: Filter)
    requires HasButton(fs, f.buttonId)
    ensures RemoveFirst(fs + [f], f.buttonId) == RemoveFirst(fs, f.buttonId) + [f]
  {
    var gs, p := fs + [f], ButtonIs(f.buttonId);
    var k := FirstIndex(fs, p).value;
    assert FirstIndex(gs, p) == Some(k) by {
      assert fs[k] in gs;
      assert forall i :: 0 <= i < |fs| ==> gs[i] == fs[i];
    }
    assert gs[..k] == fs[..k];
    assert gs[k + 1..] == fs[k + 1..] + [f];
  }
}
