/** The inventory index of getcellularstatus.py (`create_dicts`, lines 54-105): lookup
    tables from site and element listings, and the list of element ids of each site. */
module Inventory {
  import opened Wrappers
  import opened Api

  /** The contents of the index tables at one moment. `siteNames` is the key order of
      `siteNameId` (a Python dict iterates its keys in first-insertion order). */
  datatype IndexView = IndexView(
    siteIdName: map<string, string>,
    siteNameId: map<string, string>,
    siteNames: seq<string>,
    siteIdData: map<string, SiteRec>,
    elemIdData: map<string, ElemRec>,
    elemIdName: map<string, string>,
    elemNameId: map<string, string>,
    elemIdSiteId: map<string, Option<string>>,
    siteIdElemIds: map<Option<string>, seq<string>>,
    elemIdModel: map<string, string>)
  {
    /** What the scope loop relies on: the site key order lists each site name once, and
        every element id listed under a site can be looked up. */
    ghost predicate WellFormed()
    {
      && (forall i, j :: 0 <= i < j < |siteNames| ==> siteNames[i] != siteNames[j])
      && (forall n :: n in siteNameId <==> n in siteNames)
      && (forall s, k :: s in siteIdElemIds && 0 <= k < |siteIdElemIds[s]| ==>
            siteIdElemIds[s][k] in elemIdName
            && siteIdElemIds[s][k] in elemIdModel
            && siteIdElemIds[s][k] in elemIdData)
    }
  }

  /** The tables before `create_dicts` runs. */
  const EmptyView := IndexView(map[], map[], [], map[], map[], map[], map[], map[], map[], map[])

  /** One pass of the site loop (lines 74-76). */
  function AddSite(v: IndexView, site: SiteRec): IndexView
  {
    v.(siteIdName := v.siteIdName[site.id := site.name],
       siteNameId := v.siteNameId[site.name := site.id],
       siteNames := if site.name in v.siteNameId then v.siteNames else v.siteNames + [site.name],
       siteIdData := v.siteIdData[site.id := site])
  }

  /** The element ids already listed under a site id, or none. */
  function ListedAt(v: IndexView, siteId: Option<string>): seq<string>
  {
    if siteId in v.siteIdElemIds then v.siteIdElemIds[siteId] else []
  }

  /** One pass of the element loop (lines 89-100). */
  function AddElement(v: IndexView, e: ElemRec): IndexView
  {
    v.(elemIdData := v.elemIdData[e.id := e],
       elemIdName := v.elemIdName[e.id := e.name],
       elemNameId := v.elemNameId[e.name := e.id],
       elemIdSiteId := v.elemIdSiteId[e.id := e.siteId],
       siteIdElemIds := v.siteIdElemIds[e.siteId := ListedAt(v, e.siteId) + [e.id]],
       elemIdModel := v.elemIdModel[e.id := e.modelName])
  }

  /** The site loop over a listing. */
  function AddSites(v: IndexView, sites: seq<SiteRec>): IndexView
  {
    if sites == [] then v else AddSite(AddSites(v, sites[..|sites| - 1]), sites[|sites| - 1])
  }

  /** The element loop over a listing. */
  function AddElements(v: IndexView, elems: seq<ElemRec>): IndexView
  {
    if elems == [] then v else AddElement(AddElements(v, elems[..|elems| - 1]), elems[|elems| - 1])
  }

  /** The tables `create_dicts` leaves: a failed listing leaves its tables empty and the
      run goes on. */
  function BuildView(sites: Response<seq<SiteRec>>, elems: Response<seq<ElemRec>>): IndexView
  {
    var afterSites := if sites.Success? then AddSites(EmptyView, sites.content) else EmptyView;
    if elems.Success? then AddElements(afterSites, elems.content) else afterSites
  }

  /** The module-level dictionaries of the script, filled in place by `Build`. */
  class Index {
    var siteIdName: map<string, string>
    var siteNameId: map<string, string>
    var siteNames: seq<string>
    var siteIdData: map<string, SiteRec>
    var elemIdData: map<string, ElemRec>
    var elemIdName: map<string, string>
    var elemNameId: map<string, string>
    var elemIdSiteId: map<string, Option<string>>
    var siteIdElemIds: map<Option<string>, seq<string>>
    var elemIdModel: map<string, string>

    function View(): IndexView
      reads this
    {
      IndexView(siteIdName, siteNameId, siteNames, siteIdData, elemIdData, elemIdName,
                elemNameId, elemIdSiteId, siteIdElemIds, elemIdModel)
    }

    ghost predicate Valid()
      reads this
    {
      View().WellFormed()
    }

    /** The dictionaries as the script declares them: empty. */
    constructor ()
      ensures View() == EmptyView
    {
      siteIdName, siteNameId, siteNames, siteIdData := map[], map[], [], map[];
      elemIdData, elemIdName, elemNameId := map[], map[], map[];
      elemIdSiteId, siteIdElemIds, elemIdModel := map[], map[], map[];
    }

    /** `create_dicts`, with the two listing calls' responses as inputs. */
    method Build(sites: Response<seq<SiteRec>>, elems: Response<seq<ElemRec>>)
      requires View() == EmptyView
      modifies this
      ensures View() == BuildView(sites, elems)
      ensures Valid()
    {
      if sites.Success? {
        IndexSites(sites.content);
      }
      if elems.Success? {
        IndexElements(elems.content);
      }
      BuildWellFormed(sites, elems);
    }

    /** The site loop (lines 73-76). */
    method IndexSites(list: seq<SiteRec>)
      modifies this
      ensures View() == AddSites(old(View()), list)
    {
      ghost var before := View();
      for i := 0 to |list|
        invariant View() == AddSites(before, list[..i])
      {
        var site := list[i];
        assert list[..i + 1][..i] == list[..i];
        if site.name !in siteNameId {
          siteNames := siteNames + [site.name];
        }
        siteIdName := siteIdName[site.id := site.name];
        siteNameId := siteNameId[site.name := site.id];
        siteIdData := siteIdData[site.id := site];
      }
      assert list[..|list|] == list;
    }

    /** The element loop (lines 88-100). */
    method IndexElements(list: seq<ElemRec>)
      modifies this
      ensures View() == AddElements(old(View()), list)
    {
      ghost var before := View();
      for i := 0 to |list|
        invariant View() == AddElements(before, list[..i])
      {
        assert list[..i + 1][..i] == list[..i];
        IndexElement(list[i]);
      }
      assert list[..|list|] == list;
    }

    /** One pass of the element loop; the list of the element's site is extended in place. */
    method IndexElement(e: ElemRec)
      modifies this
      ensures View() == AddElement(old(View()), e)
    {
      elemIdData := elemIdData[e.id := e];
      elemIdName := elemIdName[e.id := e.name];
      elemNameId := elemNameId[e.name := e.id];
      elemIdSiteId := elemIdSiteId[e.id := e.siteId];
      // a site seen before has its list extended, a new site gets a one-element list
      var eids := if e.siteId in siteIdElemIds then siteIdElemIds[e.siteId] else [];
      siteIdElemIds := siteIdElemIds[e.siteId := eids + [e.id]];
      elemIdModel := elemIdModel[e.id := e.modelName];
    }
  }

  // ---------------------------------------------------------------------------
  // Properties of the tables
  // ---------------------------------------------------------------------------

  /** The ids of the elements of a site, in listing order, one per occurrence. */
  function IdsAtSite(elems: seq<ElemRec>, siteId: Option<string>): seq<string>
  {
    if elems == [] then []
    else (if elems[0].siteId == siteId then [elems[0].id] else []) + IdsAtSite(elems[1..], siteId)
  }

  lemma {:induction false} IdsAtSiteSnoc(elems: seq<ElemRec>, e: ElemRec, siteId: Option<string>)
    ensures IdsAtSite(elems + [e], siteId)
            == IdsAtSite(elems, siteId) + (if e.siteId == siteId then [e.id] else [])
  {
    if elems != [] {
      assert (elems + [e])[1..] == elems[1..] + [e];
      IdsAtSiteSnoc(elems[1..], e, siteId);
    }
  }

  /** One pass of the element loop on the list of one site id. */
  lemma ElementListStep(w: IndexView, e: ElemRec, siteId: Option<string>)
    ensures siteId in AddElement(w, e).siteIdElemIds <==> siteId in w.siteIdElemIds || e.siteId == siteId
    ensures ListedAt(AddElement(w, e), siteId)
            == ListedAt(w, siteId) + (if e.siteId == siteId then [e.id] else [])
  {
  }

  /** After the element loop a site id has a list exactly when it had one or some
      element names it. */
  lemma {:induction false} ElementListKeysAfterLoop(v: IndexView, elems: seq<ElemRec>, siteId: Option<string>)
    ensures siteId in AddElements(v, elems).siteIdElemIds
            <==> siteId in v.siteIdElemIds || exists i :: 0 <= i < |elems| && elems[i].siteId == siteId
  {
    if elems != [] {
      var init, last := elems[..|elems| - 1], elems[|elems| - 1];
      ElementListStep(AddElements(v, init), last, siteId);
      ElementListKeysAfterLoop(v, init, siteId);
      assert forall i :: 0 <= i < |init| ==> init[i] == elems[i];
    }
  }

  /** The element loop appends each element's id to its site's list: after it, the list
      of a site id is the old one followed by the ids of that site's elements in listing
      order. */
  lemma {:induction false} ElementListsAfterLoop(v: IndexView, elems: seq<ElemRec>, siteId: Option<string>)
    ensures ListedAt(AddElements(v, elems), siteId) == ListedAt(v, siteId) + IdsAtSite(elems, siteId)
  {
    if elems != [] {
      var init, last := elems[..|elems| - 1], elems[|elems| - 1];
      assert elems == init + [last];
      ElementListStep(AddElements(v, init), last, siteId);
      ElementListsAfterLoop(v, init, siteId);
      IdsAtSiteSnoc(init, last, siteId);
    }
  }

  /** After `create_dicts`, a site id has an element list exactly when some listed
      element belongs to it, and that list holds the ids of the site's elements, one per
      occurrence, in listing order. */
  lemma SiteListsFollowListing(sites: Response<seq<SiteRec>>, elems: Response<seq<ElemRec>>,
                               siteId: Option<string>)
    requires elems.Success?
    ensures siteId in BuildView(sites, elems).siteIdElemIds
            <==> exists i :: 0 <= i < |elems.content| && elems.content[i].siteId == siteId
    ensures ListedAt(BuildView(sites, elems), siteId) == IdsAtSite(elems.content, siteId)
  {
    var afterSites := if sites.Success? then AddSites(EmptyView, sites.content) else EmptyView;
    AddSitesKeepsElements(EmptyView, if sites.Success? then sites.content else []);
    ElementListKeysAfterLoop(afterSites, elems.content, siteId);
    ElementListsAfterLoop(afterSites, elems.content, siteId);
  }

  /** The site loop touches no element table. */
  lemma {:induction false} AddSitesKeepsElements(v: IndexView, sites: seq<SiteRec>)
    ensures AddSites(v, sites).elemIdData == v.elemIdData
    ensures AddSites(v, sites).elemIdName == v.elemIdName
    ensures AddSites(v, sites).elemIdModel == v.elemIdModel
    ensures AddSites(v, sites).siteIdElemIds == v.siteIdElemIds
    ensures AddSites(v, sites).elemNameId == v.elemNameId
    ensures AddSites(v, sites).elemIdSiteId == v.elemIdSiteId
  {
    if sites != [] {
      AddSitesKeepsElements(v, sites[..|sites| - 1]);
    }
  }

  /** The element loop touches no site table. */
  lemma {:induction false} AddElementsKeepsSites(v: IndexView, elems: seq<ElemRec>)
    ensures AddElements(v, elems).siteNameId == v.siteNameId
    ensures AddElements(v, elems).siteNames == v.siteNames
    ensures AddElements(v, elems).siteIdName == v.siteIdName
    ensures AddElements(v, elems).siteIdData == v.siteIdData
  {
    if elems != [] {
      AddElementsKeepsSites(v, elems[..|elems| - 1]);
    }
  }

  /** The element tables hold the last listed element of each id: its name, model, site
      id and whole record. */
  lemma {:induction false} ElementTablesHoldLastRecord(v: IndexView, elems: seq<ElemRec>, i: int)
    requires 0 <= i < |elems|
    requires forall j :: i < j < |elems| ==> elems[j].id != elems[i].id
    ensures var w := AddElements(v, elems);
            && elems[i].id in w.elemIdData && w.elemIdData[elems[i].id] == elems[i]
            && elems[i].id in w.elemIdName && w.elemIdName[elems[i].id] == elems[i].name
            && elems[i].id in w.elemIdModel && w.elemIdModel[elems[i].id] == elems[i].modelName
            && elems[i].id in w.elemIdSiteId && w.elemIdSiteId[elems[i].id] == elems[i].siteId
  {
    if i < |elems| - 1 {
      var init := elems[..|elems| - 1];
      assert forall j :: i < j < |init| ==> init[j] == elems[j];
      ElementTablesHoldLastRecord(v, init, i);
    }
  }

  /** An element id is a key of the element tables exactly when some listed element has it. */
  lemma {:induction false} ElementKeysAreListedIds(v: IndexView, elems: seq<ElemRec>, id: string)
    requires v.elemIdName == map[] && v.elemIdModel == map[] && v.elemIdData == map[]
    ensures var w := AddElements(v, elems);
            (id in w.elemIdName <==> exists i :: 0 <= i < |elems| && elems[i].id == id)
            && (id in w.elemIdModel <==> id in w.elemIdName)
            && (id in w.elemIdData <==> id in w.elemIdName)
  {
    if elems != [] {
      var init := elems[..|elems| - 1];
      ElementKeysAreListedIds(v, init, id);
      assert forall i :: 0 <= i < |init| ==> init[i] == elems[i];
    }
  }

  /** After `create_dicts`, the element tables agree with the listing, and a failed
      listing leaves its tables empty. */
  lemma ElementTablesFollowListing(sites: Response<seq<SiteRec>>, elems: Response<seq<ElemRec>>, id: string)
    ensures elems.Failure? ==>
              var w := BuildView(sites, elems);
              w.elemIdName == map[] && w.siteIdElemIds == map[] && w.elemIdData == map[]
              && w.elemNameId == map[] && w.elemIdSiteId == map[] && w.elemIdModel == map[]
    ensures sites.Failure? ==>
              var w := BuildView(sites, elems);
              w.siteNameId == map[] && w.siteNames == [] && w.siteIdName == map[] && w.siteIdData == map[]
    ensures elems.Success? ==>
              (id in BuildView(sites, elems).elemIdName
               <==> exists i :: 0 <= i < |elems.content| && elems.content[i].id == id)
  {
    AddSitesKeepsElements(EmptyView, if sites.Success? then sites.content else []);
    if elems.Success? {
      AddElementsKeepsSites(if sites.Success? then AddSites(EmptyView, sites.content) else EmptyView, elems.content);
      var afterSites := if sites.Success? then AddSites(EmptyView, sites.content) else EmptyView;
      ElementKeysAreListedIds(afterSites, elems.content, id);
    }
  }

  /** The site key order after the site loop over a listing. */
  function SiteOrder(sites: seq<SiteRec>): seq<string>
  {
    AddSites(EmptyView, sites).siteNames
  }

  /** The names of a site listing, in listing order. */
  function Names(sites: seq<SiteRec>): (names: seq<string>)
    ensures |names| == |sites| && forall k :: 0 <= k < |sites| ==> names[k] == sites[k].name
  {
    seq(|sites|, k requires 0 <= k < |sites| => sites[k].name)
  }

  /** The position of the first occurrence of `n`, or the length when there is none. */
  function FirstIndex(names: seq<string>, n: string): (i: nat)
    ensures i <= |names|
    ensures i < |names| <==> n in names
    ensures i < |names| ==> names[i] == n && forall k :: 0 <= k < i ==> names[k] != n
  {
    if names == [] then 0
    else if names[0] == n then 0
    else
      var i := 1 + FirstIndex(names[1..], n);
      assert forall k :: 1 <= k < |names| ==> names[k] == names[1..][k - 1];
      i
  }

  lemma {:induction false} FirstIndexSnoc(names: seq<string>, x: string, n: string)
    ensures n in names ==> FirstIndex(names + [x], n) == FirstIndex(names, n)
    ensures n !in names && x == n ==> FirstIndex(names + [x], n) == |names|
  {
    if names != [] {
      assert (names + [x])[0] == names[0] && (names + [x])[1..] == names[1..] + [x];
      FirstIndexSnoc(names[1..], x, n);
    }
  }

  /** Each name once, kept where it first occurs: the rule `site_name_id` applies to
      its key order. */
  function FirstOccurrences(names: seq<string>): seq<string>
  {
    if names == [] then []
    else
      var before := FirstOccurrences(names[..|names| - 1]);
      if names[|names| - 1] in before then before else before + [names[|names| - 1]]
  }

  /** One more site adds its name at the end of the key order, unless the name is known. */
  lemma SiteOrderSnoc(init: seq<SiteRec>, last: SiteRec)
    ensures SiteOrder(init + [last])
            == if last.name in SiteOrder(init) then SiteOrder(init) else SiteOrder(init) + [last.name]
  {
    AddSitesWellFormed(EmptyView, init);
    assert (init + [last])[..|init|] == init;
  }

  /** The site loop keeps the names of the listing by first occurrence. */
  lemma {:induction false} SiteOrderIsFirstOccurrences(sites: seq<SiteRec>)
    ensures SiteOrder(sites) == FirstOccurrences(Names(sites))
  {
    if sites != [] {
      var init, last := sites[..|sites| - 1], sites[|sites| - 1];
      assert sites == init + [last];
      SiteOrderIsFirstOccurrences(init);
      SiteOrderSnoc(init, last);
      assert Names(sites)[..|sites| - 1] == Names(init);
    }
  }

  /** `FirstOccurrences` holds exactly the names of the input, each one in the input, and
      in the order of their first occurrences. */
  lemma {:induction false} FirstOccurrencesOrdered(names: seq<string>)
    ensures forall n :: n in FirstOccurrences(names) <==> n in names
    ensures forall i, j :: 0 <= i < j < |FirstOccurrences(names)| ==>
              FirstIndex(names, FirstOccurrences(names)[i]) < FirstIndex(names, FirstOccurrences(names)[j])
  {
    if names != [] {
      var init, last := names[..|names| - 1], names[|names| - 1];
      assert names == init + [last];
      FirstOccurrencesOrdered(init);
      var before, after := FirstOccurrences(init), FirstOccurrences(names);
      forall i | 0 <= i < |before|
        ensures FirstIndex(names, before[i]) == FirstIndex(init, before[i]) < |init|
      {
        FirstIndexSnoc(init, last, before[i]);
      }
      if last !in before {
        FirstIndexSnoc(init, last, last);
        assert after == before + [last];
        forall i, j | 0 <= i < j < |after|
          ensures FirstIndex(names, after[i]) < FirstIndex(names, after[j])
        {
          if j < |before| {
            assert after[i] == before[i] && after[j] == before[j];
          }
        }
      }
    }
  }

  /** The site key order (the order `ALL_SITES` reports in) lists each name of the site
      listing once, in the order of its first occurrence. */
  lemma SiteOrderFollowsListing(sites: seq<SiteRec>)
    ensures forall n :: n in SiteOrder(sites) <==> exists k :: 0 <= k < |sites| && sites[k].name == n
    ensures forall i, j :: 0 <= i < j < |SiteOrder(sites)| ==>
              FirstIndex(Names(sites), SiteOrder(sites)[i]) < FirstIndex(Names(sites), SiteOrder(sites)[j])
  {
    SiteOrderIsFirstOccurrences(sites);
    FirstOccurrencesOrdered(Names(sites));
    forall n | n in Names(sites)
      ensures exists k :: 0 <= k < |sites| && sites[k].name == n
    {
      var k :| 0 <= k < |Names(sites)| && Names(sites)[k] == n;
    }
  }

  /** The site loop keeps the site key order duplicate-free and in step with the keys. */
  lemma {:induction false} AddSitesWellFormed(v: IndexView, sites: seq<SiteRec>)
    requires v.WellFormed()
    ensures AddSites(v, sites).WellFormed()
  {
    if sites != [] {
      AddSitesWellFormed(v, sites[..|sites| - 1]);
    }
  }

  /** The element loop keeps every listed id resolvable. */
  lemma {:induction false} AddElementsWellFormed(v: IndexView, elems: seq<ElemRec>)
    requires v.WellFormed()
    ensures AddElements(v, elems).WellFormed()
  {
    if elems != [] {
      var w := AddElements(v, elems[..|elems| - 1]);
      AddElementsWellFormed(v, elems[..|elems| - 1]);
      var e := elems[|elems| - 1];
      var u := AddElement(w, e);
      forall s, k | s in u.siteIdElemIds && 0 <= k < |u.siteIdElemIds[s]|
        ensures u.siteIdElemIds[s][k] in u.elemIdName
      {
        if s == e.siteId && k == |u.siteIdElemIds[s]| - 1 {
          assert u.siteIdElemIds[s][k] == e.id;
        } else {
          assert u.siteIdElemIds[s][k] == w.siteIdElemIds[s][k];
        }
      }
    }
  }

  /** The tables `create_dicts` leaves are well formed, whatever the listings hold. */
  lemma BuildWellFormed(sites: Response<seq<SiteRec>>, elems: Response<seq<ElemRec>>)
    ensures BuildView(sites, elems).WellFormed()
  {
    var afterSites := EmptyView;
    if sites.Success? {
      AddSitesWellFormed(EmptyView, sites.content);
      afterSites := AddSites(EmptyView, sites.content);
    }
    if elems.Success? {
      AddElementsWellFormed(afterSites, elems.content);
    }
  }
}
