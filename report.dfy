/** The report loop of getcellularstatus.py (`go`, lines 108-376): pick the sites in
    scope, walk their elements and cellular modules, and emit one row per module whose
    status could be fetched. */
module Report {
  import opened Wrappers
  import opened Json
  import opened Api
  import opened Normaliser
  import opened Rows
  import opened Inventory
  import opened Cli

  /** The hardware models that carry cellular modules (lines 45-52). */
  const CellularModels: seq<string> := [
    "ion 1200-c-na", "ion 1200-c-row", "ion 1200-c5g-ww", "ion 1200-c5g-exp",
    "ion 1200-s-c-na", "ion 1200-s-c-row", "ion 1200-s-c5g-ww", "ion 3200h-c5g-ww"]

  /** The eligibility test: exact, case-sensitive membership. */
  predicate IsCellularCapable(model: string)
  {
    model in CellularModels
  }

  /** Listed models pass as written; another spelling of a listed model does not. */
  lemma EligibilityIsCaseSensitive()
    ensures forall k :: 0 <= k < |CellularModels| ==> IsCellularCapable(CellularModels[k])
    ensures !IsCellularCapable("ION 1200-C-NA")
    ensures !IsCellularCapable("ion 1200-c-na ")
  {
    assert forall k :: 0 <= k < |CellularModels| ==> CellularModels[k][0] == 'i';
    assert forall k :: 0 <= k < |CellularModels| ==> |CellularModels[k]| != |"ion 1200-c-na "|
                                                     || CellularModels[k][13] != ' ';
  }

  /** The `--site_name` keyword that selects every site. */
  const AllSites := "ALL_SITES"

  /** The scope of lines 161-169: every known site name for the keyword, the one named
      site when it is known, and `None` (the run stops) otherwise. */
  function SelectScope(siteName: string, v: IndexView): (r: Option<seq<string>>)
    requires v.WellFormed()
    ensures r.Some? <==> siteName == AllSites || siteName in v.siteNameId
    ensures r.Some? ==> forall k :: 0 <= k < |r.value| ==> r.value[k] in v.siteNameId
    ensures siteName == AllSites ==>
              (forall n :: n in v.siteNameId <==> n in r.value)
              && forall i, j :: 0 <= i < j < |r.value| ==> r.value[i] != r.value[j]
    ensures siteName != AllSites && r.Some? ==> r.value == [siteName]
  {
    if siteName == AllSites then Some(v.siteNames)
    else if siteName in v.siteNameId then Some([siteName])
    else None
  }

  /** `ALL_SITES` reports the sites in the key order of the site table: each listed name
      once, in the order of its first occurrence in the site listing. */
  lemma AllSitesFollowListing(sites: seq<SiteRec>, elems: Response<seq<ElemRec>>)
    ensures BuildView(Success(sites), elems).WellFormed()
    ensures SelectScope(AllSites, BuildView(Success(sites), elems)) == Some(SiteOrder(sites))
  {
    BuildWellFormed(Success(sites), elems);
    if elems.Success? {
      AddElementsKeepsSites(AddSites(EmptyView, sites), elems.content);
    }
  }

  // ---------------------------------------------------------------------------
  // The modules the loops visit
  // ---------------------------------------------------------------------------

  /** One visit of the innermost loop: a module of an eligible element, with the element
      data read from the index before the module loop. */
  datatype Work = Work(siteName: string, eid: string, elementName: string, modelName: string,
                       element: ElemRec, cm: ModuleRec)

  /** The modules of one element, in listing order. */
  function ModuleWork(siteName: string, eid: string, elementName: string, modelName: string,
                      element: ElemRec, modules: seq<ModuleRec>): seq<Work>
  {
    seq(|modules|, k requires 0 <= k < |modules| =>
      Work(siteName, eid, elementName, modelName, element, modules[k]))
  }

  /** The modules visited for one element: none for an ineligible model or a failed
      module listing (lines 200-216, 372-374). */
  function ElementWork(v: IndexView, siteName: string, eid: string, api: Controller): seq<Work>
    requires eid in v.elemIdName && eid in v.elemIdModel && eid in v.elemIdData
  {
    if !IsCellularCapable(v.elemIdModel[eid]) then []
    else
      match api.cellularModules(eid)
      case Failure => []
      case Success(modules) =>
        ModuleWork(siteName, eid, v.elemIdName[eid], v.elemIdModel[eid], v.elemIdData[eid], modules)
  }

  /** Every id can be looked up in the element tables. */
  ghost predicate Resolvable(v: IndexView, eids: seq<string>)
  {
    forall k :: 0 <= k < |eids| ==>
      eids[k] in v.elemIdName && eids[k] in v.elemIdModel && eids[k] in v.elemIdData
  }

  /** The modules visited for a list of elements, element by element. */
  function ElementsWork(v: IndexView, siteName: string, eids: seq<string>, api: Controller): seq<Work>
    requires Resolvable(v, eids)
  {
    if eids == [] then []
    else ElementWork(v, siteName, eids[0], api) + ElementsWork(v, siteName, eids[1..], api)
  }

  /** The modules visited for one site: none when no element belongs to it (lines 190-195). */
  function SiteWork(v: IndexView, siteName: string, api: Controller): seq<Work>
    requires v.WellFormed() && siteName in v.siteNameId
  {
    var sid := Some(v.siteNameId[siteName]);
    if sid in v.siteIdElemIds then ElementsWork(v, siteName, v.siteIdElemIds[sid], api) else []
  }

  /** The modules visited for the sites in scope, site by site. */
  function ScopeWork(v: IndexView, names: seq<string>, api: Controller): seq<Work>
    requires v.WellFormed() && forall k :: 0 <= k < |names| ==> names[k] in v.siteNameId
  {
    if names == [] then []
    else SiteWork(v, names[0], api) + ScopeWork(v, names[1..], api)
  }

  // ---------------------------------------------------------------------------
  // What each visit writes
  // ---------------------------------------------------------------------------

  /** The row of a module whose status was fetched, or the exception it raises. */
  function RowFor(w: Work, status: Record): Outcome<Row>
  {
    match Resolve(status)
    case Crash => Crash
    case Ok(res) => Ok(AssembleRow(w.siteName, w.elementName, w.modelName, w.element, w.cm, status, res))
  }

  /** A visit writes nothing when the status fetch fails (lines 368-370), and otherwise
      writes its row or raises. */
  function Attempt(api: Controller, w: Work): seq<Outcome<Row>>
  {
    match api.moduleStatus(w.eid, w.cm.id)
    case Failure => []
    case Success(status) => [RowFor(w, status)]
  }

  function AttemptsFor(api: Controller, ws: seq<Work>): seq<Outcome<Row>>
  {
    if ws == [] then [] else Attempt(api, ws[0]) + AttemptsFor(api, ws[1..])
  }

  /** The number of visits whose status fetch succeeds. */
  function FetchedCount(api: Controller, ws: seq<Work>): nat
  {
    if ws == [] then 0
    else (if api.moduleStatus(ws[0].eid, ws[0].cm.id).Success? then 1 else 0) + FetchedCount(api, ws[1..])
  }

  /** What reaches the output file: the rows written, and whether an exception ended
      the run (the rows written before it stay in the file). */
  datatype Emission = Emission(rows: seq<Row>, crashed: bool)

  const Nothing := Emission([], false)

  /** Writing `b` after `a`; nothing is written after a crash. */
  function Then(a: Emission, b: Emission): Emission
  {
    if a.crashed then a else Emission(a.rows + b.rows, b.crashed)
  }

  /** The rows written for a run of attempts, stopping at the first exception. */
  function Written(attempts: seq<Outcome<Row>>): Emission
  {
    if attempts == [] then Nothing
    else
      match attempts[0]
      case Crash => Emission([], true)
      case Ok(row) => Then(Emission([row], false), Written(attempts[1..]))
  }

  lemma {:induction false} AttemptsForAppend(api: Controller, a: seq<Work>, b: seq<Work>)
    ensures AttemptsFor(api, a + b) == AttemptsFor(api, a) + AttemptsFor(api, b)
  {
    if a == [] {
      assert a + b == b;
    } else {
      assert (a + b)[0] == a[0] && (a + b)[1..] == a[1..] + b;
      AttemptsForAppend(api, a[1..], b);
    }
  }

  lemma ThenAssociative(a: Emission, b: Emission, c: Emission)
    ensures Then(a, Then(b, c)) == Then(Then(a, b), c)
  {
  }

  /** Writing two runs of attempts one after the other. */
  lemma {:induction false} WrittenAppend(p: seq<Outcome<Row>>, q: seq<Outcome<Row>>)
    ensures Written(p + q) == Then(Written(p), Written(q))
  {
    if p == [] {
      assert p + q == q && [] + Written(q).rows == Written(q).rows;
    } else {
      assert (p + q)[0] == p[0] && (p + q)[1..] == p[1..] + q;
      WrittenAppend(p[1..], q);
      if p[0].Ok? {
        ThenAssociative(Emission([p[0].value], false), Written(p[1..]), Written(q));
      }
    }
  }

  /** The run crashes exactly when some attempt raises; until then every attempt writes
      its row, in order. */
  lemma {:induction false} WrittenMeaning(attempts: seq<Outcome<Row>>)
    ensures Written(attempts).crashed <==> exists k :: 0 <= k < |attempts| && attempts[k].Crash?
    ensures !Written(attempts).crashed ==>
              |Written(attempts).rows| == |attempts|
              && forall k :: 0 <= k < |attempts| ==> Written(attempts).rows[k] == attempts[k].value
    ensures Written(attempts).crashed ==>
              var c := |Written(attempts).rows|;
              c < |attempts| && attempts[c].Crash?
              && forall k :: 0 <= k < c ==> attempts[k].Ok? && Written(attempts).rows[k] == attempts[k].value
  {
    if attempts != [] {
      WrittenMeaning(attempts[1..]);
      assert forall k :: 0 < k < |attempts| ==> attempts[k] == attempts[1..][k - 1];
    }
  }

  lemma {:induction false} AttemptsCount(api: Controller, ws: seq<Work>)
    ensures |AttemptsFor(api, ws)| == FetchedCount(api, ws)
  {
    if ws != [] {
      AttemptsCount(api, ws[1..]);
    }
  }

  /** A run that does not crash writes one row per visited module whose status fetch
      succeeded. */
  lemma RowsPerFetchedModule(api: Controller, ws: seq<Work>)
    ensures !Written(AttemptsFor(api, ws)).crashed ==>
              |Written(AttemptsFor(api, ws)).rows| == FetchedCount(api, ws)
  {
    WrittenMeaning(AttemptsFor(api, ws));
    AttemptsCount(api, ws);
  }

  /** Ineligible elements, failed module listings and sites without elements write no row. */
  lemma SkippedScopesWriteNothing(v: IndexView, siteName: string, eid: string, api: Controller)
    requires v.WellFormed() && siteName in v.siteNameId
    requires eid in v.elemIdName && eid in v.elemIdModel && eid in v.elemIdData
    ensures !IsCellularCapable(v.elemIdModel[eid]) ==> Written(AttemptsFor(api, ElementWork(v, siteName, eid, api))) == Nothing
    ensures api.cellularModules(eid).Failure? ==> Written(AttemptsFor(api, ElementWork(v, siteName, eid, api))) == Nothing
    ensures Some(v.siteNameId[siteName]) !in v.siteIdElemIds ==> Written(AttemptsFor(api, SiteWork(v, siteName, api))) == Nothing
  {
  }

  /** Sites are reported one after the other: the rows for a scope are the rows of its
      first part followed by those of the rest. */
  lemma {:induction false} ScopeRowsConcatenate(v: IndexView, a: seq<string>, b: seq<string>, api: Controller)
    requires v.WellFormed()
    requires forall k :: 0 <= k < |a| ==> a[k] in v.siteNameId
    requires forall k :: 0 <= k < |b| ==> b[k] in v.siteNameId
    ensures ScopeWork(v, a + b, api) == ScopeWork(v, a, api) + ScopeWork(v, b, api)
    ensures Written(AttemptsFor(api, ScopeWork(v, a + b, api)))
            == Then(Written(AttemptsFor(api, ScopeWork(v, a, api))), Written(AttemptsFor(api, ScopeWork(v, b, api))))
  {
    ScopeWorkAppend(v, a, b, api);
    AttemptsForAppend(api, ScopeWork(v, a, api), ScopeWork(v, b, api));
    WrittenAppend(AttemptsFor(api, ScopeWork(v, a, api)), AttemptsFor(api, ScopeWork(v, b, api)));
  }

  lemma {:induction false} ScopeWorkAppend(v: IndexView, a: seq<string>, b: seq<string>, api: Controller)
    requires v.WellFormed()
    requires forall k :: 0 <= k < |a| ==> a[k] in v.siteNameId
    requires forall k :: 0 <= k < |b| ==> b[k] in v.siteNameId
    ensures ScopeWork(v, a + b, api) == ScopeWork(v, a, api) + ScopeWork(v, b, api)
  {
    if a == [] {
      assert a + b == b;
    } else {
      assert (a + b)[0] == a[0] && (a + b)[1..] == a[1..] + b;
      ScopeWorkAppend(v, a[1..], b, api);
    }
  }

  // ---------------------------------------------------------------------------
  // The loops
  // ---------------------------------------------------------------------------

  /** The module loop of one eligible element (lines 217-374). */
  method EmitModules(siteName: string, eid: string, elementName: string, modelName: string,
                     element: ElemRec, modules: seq<ModuleRec>, api: Controller) returns (e: Emission)
    ensures e == Written(AttemptsFor(api, ModuleWork(siteName, eid, elementName, modelName, element, modules)))
  {
    ghost var ws := ModuleWork(siteName, eid, elementName, modelName, element, modules);
    e := Nothing;
    for i := 0 to |modules|
      invariant !e.crashed
      invariant Written(AttemptsFor(api, ws)) == Then(e, Written(AttemptsFor(api, ws[i..])))
    {
      assert ws[i..][0] == ws[i] && ws[i..][1..] == ws[i + 1..];
      WrittenAppend(Attempt(api, ws[i]), AttemptsFor(api, ws[i + 1..]));
      ThenAssociative(e, Written(Attempt(api, ws[i])), Written(AttemptsFor(api, ws[i + 1..])));
      var written := EmitModule(siteName, eid, elementName, modelName, element, modules[i], api);
      e := Then(e, written);
      if e.crashed {
        return;
      }
    }
    assert ws[|modules|..] == [];
  }

  /** One pass of the module loop (lines 219-370): fetch the status, normalise it and
      write the row; a failed fetch writes nothing. */
  method EmitModule(siteName: string, eid: string, elementName: string, modelName: string,
                    element: ElemRec, cm: ModuleRec, api: Controller) returns (e: Emission)
    ensures e == Written(Attempt(api, Work(siteName, eid, elementName, modelName, element, cm)))
  {
    match api.moduleStatus(eid, cm.id)
    case Failure =>
      e := Nothing;
    case Success(status) =>
      var res := ResolveStatus(status);
      if res.Crash? {
        return Emission([], true);
      }
      e := Emission([AssembleRow(siteName, elementName, modelName, element, cm, status, res.value)], false);
  }

  /** The body of the element loop (lines 201-216): look the element up, test its model,
      list its modules. */
  method EmitElement(inv: Index, siteName: string, eid: string, api: Controller) returns (e: Emission)
    requires eid in inv.elemIdName && eid in inv.elemIdModel && eid in inv.elemIdData
    ensures e == Written(AttemptsFor(api, ElementWork(inv.View(), siteName, eid, api)))
  {
    var elementName := inv.elemIdName[eid];
    var modelName := inv.elemIdModel[eid];
    var element := inv.elemIdData[eid];
    if !IsCellularCapable(modelName) {
      return Nothing;
    }
    match api.cellularModules(eid)
    case Failure =>
      return Nothing;
    case Success(modules) =>
      e := EmitModules(siteName, eid, elementName, modelName, element, modules, api);
  }

  /** The body of the site loop (lines 188-216): the site's elements, one after the other. */
  method EmitSite(inv: Index, siteName: string, api: Controller) returns (e: Emission)
    requires inv.Valid() && siteName in inv.siteNameId
    ensures e == Written(AttemptsFor(api, SiteWork(inv.View(), siteName, api)))
  {
    ghost var v := inv.View();
    var sid := inv.siteNameId[siteName];
    if Some(sid) !in inv.siteIdElemIds {
      return Nothing;
    }
    var eids := inv.siteIdElemIds[Some(sid)];
    e := Nothing;
    for i := 0 to |eids|
      invariant !e.crashed
      invariant Written(AttemptsFor(api, ElementsWork(v, siteName, eids, api)))
                == Then(e, Written(AttemptsFor(api, ElementsWork(v, siteName, eids[i..], api))))
    {
      assert eids[i..][1..] == eids[i + 1..];
      AttemptsForAppend(api, ElementWork(v, siteName, eids[i], api), ElementsWork(v, siteName, eids[i + 1..], api));
      WrittenAppend(AttemptsFor(api, ElementWork(v, siteName, eids[i], api)),
                    AttemptsFor(api, ElementsWork(v, siteName, eids[i + 1..], api)));
      ThenAssociative(e, Written(AttemptsFor(api, ElementWork(v, siteName, eids[i], api))),
                      Written(AttemptsFor(api, ElementsWork(v, siteName, eids[i + 1..], api))));
      var element := EmitElement(inv, siteName, eids[i], api);
      e := Then(e, element);
      if e.crashed {
        return;
      }
    }
    assert eids[|eids|..] == [];
  }

  /** The site loop (lines 187-374) over the sites in scope. */
  method EmitScope(inv: Index, names: seq<string>, api: Controller) returns (e: Emission)
    requires inv.Valid()
    requires forall k :: 0 <= k < |names| ==> names[k] in inv.siteNameId
    ensures e == Written(AttemptsFor(api, ScopeWork(inv.View(), names, api)))
  {
    ghost var v := inv.View();
    e := Nothing;
    for i := 0 to |names|
      invariant !e.crashed
      invariant Written(AttemptsFor(api, ScopeWork(v, names, api)))
                == Then(e, Written(AttemptsFor(api, ScopeWork(v, names[i..], api))))
    {
      assert names[i..][1..] == names[i + 1..];
      AttemptsForAppend(api, SiteWork(v, names[i], api), ScopeWork(v, names[i + 1..], api));
      WrittenAppend(AttemptsFor(api, SiteWork(v, names[i], api)), AttemptsFor(api, ScopeWork(v, names[i + 1..], api)));
      ThenAssociative(e, Written(AttemptsFor(api, SiteWork(v, names[i], api))),
                      Written(AttemptsFor(api, ScopeWork(v, names[i + 1..], api))));
      var site := EmitSite(inv, names[i], api);
      e := Then(e, site);
      if e.crashed {
        return;
      }
    }
    assert names[|names|..] == [];
  }

  // ---------------------------------------------------------------------------
  // The whole run
  // ---------------------------------------------------------------------------

  /** How a run ends: stopped before any output (bad switch, failed login, unknown
      site), or with a report file named after the cleaned tenant name. */
  datatype RunOutcome =
    | InvalidSwitch
    | LoginFailure
    | SiteNotFound
    | Report(tenant: string, rows: seq<Row>, crashed: bool)

  /** `go`, with the session and the controller's responses as inputs. */
  method Go(siteName: string, tprod: string, session: Session,
            sites: Response<seq<SiteRec>>, elements: Response<seq<ElemRec>>, api: Controller)
    returns (r: RunOutcome)
    ensures r.InvalidSwitch? <==> ParseSwitch(tprod).None?
    ensures r.LoginFailure? <==> ParseSwitch(tprod).Some? && session.tenantId.None?
    ensures r.SiteNotFound? <==>
              ParseSwitch(tprod).Some? && session.tenantId.Some?
              && (BuildWellFormed(sites, elements); SelectScope(siteName, BuildView(sites, elements)).None?)
    ensures r.Report? ==>
              (BuildWellFormed(sites, elements);
               && r.tenant == SanitiseTenantName(session.tenantName)
               && SelectScope(siteName, BuildView(sites, elements)).Some?
               && Emission(r.rows, r.crashed)
                  == Written(AttemptsFor(api, ScopeWork(BuildView(sites, elements),
                                                        SelectScope(siteName, BuildView(sites, elements)).value, api))))
  {
    BuildWellFormed(sites, elements);
    if ParseSwitch(tprod).None? {
      return InvalidSwitch;
    }
    if session.tenantId.None? {
      return LoginFailure;
    }
    var inv := new Index();
    inv.Build(sites, elements);
    var scope := SelectScope(siteName, inv.View());
    if scope.None? {
      return SiteNotFound;
    }
    var tenant := SanitiseTenantName(session.tenantName);
    var e := EmitScope(inv, scope.value, api);
    r := Report(tenant, e.rows, e.crashed);
  }
}
