# Cellular status report — a Dafny model

`getcellularstatus.py` logs in to a Prisma SASE controller, indexes the tenant's sites
and edge elements, and writes one CSV row per cellular module found on the
cellular-capable elements of one site or of all sites. This project models the logic
of that script, with every controller call taken as an input value:

- `wrappers.dfy`, `json.dfy`, `api.dfy`: `Option`/`Outcome`, the JSON values of a
  status record (a record is a `map<string, Value>` with a distinct `Null`; a missing key
  reads as `Null`, as `dict.get(k, None)` does), and the site, element and module
  records, the login session and the two per-element calls.
- `normaliser.dfy`: the status normaliser (lines 223-310). The function `Resolve` says
  which blocks a status record resolves to, or `Crash` when the script raises on that
  record. `ResolveStatus` and the SIM loop `SplitSims` run the same steps one at a time
  and are proved equal to it. Defaults are the all-empty GPS, network, SIM and firmware
  blocks. Slot selection uses Python equality: `1` and `True` go to sim1, everything else
  goes to sim2. The last entry of a slot wins.
- `rows.dfy`: the 53 header columns and the row for one module, as the values of the
  `writerow` dictionary in header order.
- `inventory.dfy`: `create_dicts` as the class `Index`. Its map fields are the module-level
  dictionaries, and its `Build` method runs the site loop and the element loop. The
  pure fold `BuildView` specifies `Build`, and lemmas state what the tables hold
  afterwards.
- `report.dfy`: scope selection, the case-sensitive `CELLULAR_MODELS` test, the three
  nested loops of `go`, and `Go` itself. Each loop method is proved equal to `Written`
  of the attempts its scope makes. `Written` stops at the first exception: an exception
  ends the run, and the rows written before it stay in the file.
- `cli.dfy`: the case-insensitive `--tprod` switch and the tenant name cleaned for the
  output file name.

`HEADER` (lines 34-42) lists 53 columns.

## Model

| member | source | states |
|---|---|---|
| Normaliser.EmptyBlock | getcellularstatus.py:227-231 | a default block has exactly the given fields, each the empty string |
| Normaliser.SplitSims | getcellularstatus.py:247-251 | the SIM loop either crashes on an entry without a slot number or leaves each slot holding the last entry sent there (`SimSlots`) |
| Normaliser.ResolveStatus | getcellularstatus.py:223-310 | the step-by-step normaliser yields exactly `Resolve(status)`, crash cases included |
| Normaliser.LastLandingNone | getcellularstatus.py:244-251 | a SIM variable stays `None` exactly when no list entry is sent to its slot |
| Normaliser.LastLandingAt | getcellularstatus.py:247-251 | an entry sent to a slot, with no later entry for that slot, is what the slot holds |
| Normaliser.ResolveSucceedsIff | getcellularstatus.py:223-366 | the per-module block raises exactly when gps/network is not an object, the SIM value is not null or a list of slotted entries filling both slots, or firmware cannot be indexed at 0 or (with an active SIM) gives non-object banks |
| Normaliser.BlocksDefaultWhenAbsent | getcellularstatus.py:225-241 | an absent `gps` or `network_state` becomes its all-empty default; a present one passes through unchanged |
| Normaliser.SimSlotsBlankWithoutList | getcellularstatus.py:253-273 | with no SIM list both slots are the eight-field empty SIM record |
| Normaliser.SimSlotLastEntryWins | getcellularstatus.py:246-251 | with a SIM list, each slot holds the last entry whose slot number sends it there |
| Normaliser.SimPairMapsOneToOne | getcellularstatus.py:246-251 | a list `[slot 1, slot 2]` fills sim1 with the first and sim2 with the second |
| Normaliser.SlotNumberEquality | getcellularstatus.py:248 | slot numbers 3, `""` and `"1"` go to sim2; `true` equals 1 and goes to sim1 |
| Normaliser.FirmwareBanksFollowList | getcellularstatus.py:275-294 | with an active SIM: bank 1 is `firmware[0]` of a non-empty list, bank 2 is `firmware[1]` or the empty bank when the list has one entry; no list gives two empty banks |
| Normaliser.FirmwareSuppressedWithoutActiveSim | getcellularstatus.py:296-310 | a null or absent `active_sim` makes both banks the empty default |
| Normaliser.EmptyListsCrash | getcellularstatus.py:243-294 | an empty firmware list raises at `firmware[0]`; an empty SIM list leaves the slots unset and the row's `.get` raises |
| Normaliser.SuppressionNamedCase | getcellularstatus.py:296-310 | only `None` suppresses: `active_sim` null empties a reported bank, `active_sim` 0 keeps it |
| Rows.HeaderShape | getcellularstatus.py:34-42 | the header has 53 columns; the last 14 are the SIM columns, seven per slot |
| Rows.HeaderColumnNames | getcellularstatus.py:38-40 | columns 21-23 are the GPS columns; columns 31 and 36 are the firmware versions of banks 1 and 2 |
| Rows.AssembleRow | getcellularstatus.py:312-366 | a row has one cell per header column |
| Rows.SimColumnsBlankWithoutSimList | getcellularstatus.py:352-365 | with no SIM list every SIM column of the row is the empty string |
| Rows.MissingScalarIsNone | getcellularstatus.py:323-333 | each of the eleven status scalars (columns 10-20) is passed to `writerow` as `None` when the status lacks it, not as `""`, and as its value when present |
| Rows.AbsentGpsIsBlank | getcellularstatus.py:334-336 | the three GPS columns are passed to `writerow` as empty strings when the status has no `gps` |
| Rows.FirmwareVersionColumns | getcellularstatus.py:344-349 | column 31 holds bank 1's `fw_version` and column 36 bank 2's |
| Inventory.Index.constructor | getcellularstatus.py:54-62 | the dictionaries start empty |
| Inventory.Index.Build | getcellularstatus.py:65-105 | `create_dicts` leaves exactly the tables of `BuildView`, and they are well formed |
| Inventory.Index.IndexSites | getcellularstatus.py:73-76 | the site loop updates the site tables as the fold `AddSites` does |
| Inventory.Index.IndexElements | getcellularstatus.py:88-100 | the element loop updates the element tables as the fold `AddElements` does |
| Inventory.Index.IndexElement | getcellularstatus.py:89-100 | one pass records the element and appends its id to its site's list |
| Inventory.IdsAtSiteSnoc | getcellularstatus.py:93-98 | one more listed element adds its id to the ids of its own site only, at the end |
| Inventory.ElementListKeysAfterLoop | getcellularstatus.py:93-98 | after the element loop a site has a list iff it had one or some element names it |
| Inventory.ElementListsAfterLoop | getcellularstatus.py:93-98 | after the element loop a site's list has grown by that site's element ids in listing order |
| Inventory.SiteListsFollowListing | getcellularstatus.py:85-103 | after `create_dicts` a site's id list holds its elements' ids, once per occurrence, in listing order |
| Inventory.AddSitesKeepsElements | getcellularstatus.py:73-76 | the site loop leaves the element tables unchanged |
| Inventory.AddElementsKeepsSites | getcellularstatus.py:88-100 | the element loop leaves the site tables unchanged |
| Inventory.ElementTablesHoldLastRecord | getcellularstatus.py:88-100 | name, model, site id and record of an id are those of its last listed element |
| Inventory.ElementKeysAreListedIds | getcellularstatus.py:88-100 | an id is a key of the element tables exactly when some listed element has it |
| Inventory.ElementTablesFollowListing | getcellularstatus.py:70-103 | a failed listing leaves its tables empty; otherwise the element keys are the listed ids |
| Inventory.FirstIndex | getcellularstatus.py:73-75 | the position of the first occurrence of a name in the listed names, or their number when there is none |
| Inventory.FirstOccurrencesOrdered | getcellularstatus.py:73-75 | keeping each name where it first occurs yields exactly the listed names, ordered by first occurrence |
| Inventory.SiteOrderIsFirstOccurrences | getcellularstatus.py:73-76 | the key order the site loop leaves keeps each listed name where it first occurs |
| Inventory.SiteOrderSnoc | getcellularstatus.py:75 | one more site appends its name to the key order of `site_name_id` unless the name is already a key |
| Inventory.SiteOrderFollowsListing | getcellularstatus.py:73-76 | the key order of `site_name_id` holds exactly the listed site names, ordered by their first occurrence in the listing |
| Inventory.AddSitesWellFormed | getcellularstatus.py:73-76 | the site loop keeps the site key order duplicate-free and equal to the key set |
| Inventory.AddElementsWellFormed | getcellularstatus.py:88-100 | the element loop keeps every listed id resolvable in the element tables |
| Inventory.BuildWellFormed | getcellularstatus.py:65-105 | the tables are well formed whatever the listings hold |
| Cli.Lower | getcellularstatus.py:128 | lower-casing keeps the length |
| Cli.LowerMatchesWord | getcellularstatus.py:128-132 | a string lower-cases to a lower-case word exactly when it spells it in any mix of cases |
| Cli.ParseSwitch | getcellularstatus.py:127-135 | the switch is true iff the input spells "true" in any case, false iff it spells "false", and rejected otherwise |
| Cli.SwitchExamples | getcellularstatus.py:127-135 | "TrUe" and "FALSE" are accepted; "yes" and "" are rejected |
| Cli.RemoveChar | getcellularstatus.py:176-177 | `replace(c, "")` leaves no `c`; a string without `c` is unchanged |
| Cli.RemoveCharCounts | getcellularstatus.py:176-177 | `replace(c, "")` keeps every other character as often as it occurs |
| Cli.RemoveCharAppend | getcellularstatus.py:176-177 | `replace(c, "")` on a concatenation is the concatenation of the parts with `c` removed, so order is kept |
| Cli.RemoveCharSingle | getcellularstatus.py:176-177 | a single character is dropped when it is `c` and kept otherwise |
| Cli.SanitiseTenantName | getcellularstatus.py:175-177 | the cleaned name has no space or slash, keeps every other character, and a clean name is unchanged |
| Cli.SanitiseAppend | getcellularstatus.py:175-177 | cleaning a concatenation cleans each part, keeping the order of the kept characters |
| Cli.SanitiseIdempotent | getcellularstatus.py:175-177 | cleaning twice is cleaning once |
| Report.EligibilityIsCaseSensitive | getcellularstatus.py:45-52 | the eight listed models are eligible; an upper-case or padded spelling is not |
| Report.SelectScope | getcellularstatus.py:161-169 | `ALL_SITES` selects every known site name once; another name is selected alone iff it is known; otherwise the run stops |
| Report.AllSitesFollowListing | getcellularstatus.py:162-163 | `ALL_SITES` selects the site names in the key order of `site_name_id`: each listed name once, by first occurrence |
| Report.AttemptsForAppend | getcellularstatus.py:187-374 | the attempts of two runs of visits are the attempts of the first followed by those of the second |
| Report.ThenAssociative | getcellularstatus.py:187-374 | writing three batches in sequence does not depend on grouping |
| Report.WrittenAppend | getcellularstatus.py:187-374 | writing two runs of attempts is writing the first, then the second unless the first crashed |
| Report.WrittenMeaning | getcellularstatus.py:312-374 | a run crashes iff some attempt raises; until then every attempt writes its row, in order |
| Report.AttemptsCount | getcellularstatus.py:219-370 | there is one attempt per visited module whose status fetch succeeded |
| Report.RowsPerFetchedModule | getcellularstatus.py:187-374 | a run without exception writes one row per module of an eligible element whose status fetch succeeded |
| Report.SkippedScopesWriteNothing | getcellularstatus.py:190-216 | ineligible elements, failed module listings and sites without elements write no row |
| Report.ScopeWorkAppend | getcellularstatus.py:187 | the modules visited for two lists of sites are those of the first list followed by those of the second |
| Report.ScopeRowsConcatenate | getcellularstatus.py:187-374 | the rows of a scope are the rows of its first sites followed by those of the rest |
| Report.EmitModules | getcellularstatus.py:217-374 | the module loop writes exactly `Written` of its modules' attempts |
| Report.EmitModule | getcellularstatus.py:219-370 | one module: nothing on a failed fetch, else its row or the exception |
| Report.EmitElement | getcellularstatus.py:200-216 | one element: nothing when ineligible or when its module listing fails, else its module loop |
| Report.EmitSite | getcellularstatus.py:188-216 | one site: nothing without elements, else its elements in list order |
| Report.EmitScope | getcellularstatus.py:187-374 | the site loop writes exactly `Written` of the scope's attempts, site by site |
| Report.Go | getcellularstatus.py:108-376 | a bad switch, a failed login or an unknown site stop the run without a report; otherwise the report is named after the cleaned tenant name and holds exactly the rows of the selected scope |

## Left out

- The controller calls (login, site and element listings, module listings, module status, `jd_detailed`) are inputs: a success flag with a payload, or a function of the element and module ids. A repeated call for the same ids is assumed to give the same answer.
- argparse, `sys.exit`, the `print` diagnostics, `csv.DictWriter` (including its conversion of values to text, where `None` becomes an empty field) and the file itself, `os.getcwd` and the timestamp in the file name are not modelled. The report is the sequence of rows written, plus whether an exception ended the run.
- The controller URL and the SSL setting chosen by `--tprod` (lines 141-145) are configuration and are not modelled. The parsed switch only decides whether the run goes on.
- Cli.ParseSwitch: only string input is modelled. The default of `--tprod` is the boolean `False`, and `.lower()` raises on it when the flag is omitted.
- Cli.Lower: only ASCII letters are lower-cased. No other character lower-cases to a letter of "true" or "false".
- The `site_name is None` check (lines 123-125) cannot fire, because the option has a default, so it is not modelled.
- Site, element and module records are typed records holding the fields the script reads. A listing item without one of those keys, or a listing without `items`, raises `KeyError`/`TypeError` in the script; the model does not represent such items.
- JSON numbers are integers. Floating-point values (where `1.0 == 1` would send a SIM to slot 1) are not modelled.
- Rows.AssembleRow: its contract states only the number of cells. Lemmas state the cell contents of the eleven status scalars (columns 10-20), the GPS columns (21-23) when the status has no `gps`, the firmware versions (31, 36), and the SIM columns (39-52) when the status has no SIM list. The element, module, network and other firmware cells are not stated by any lemma.
