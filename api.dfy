/** The records the script reads from the SASE controller, and the controller's
    per-element and per-module calls, taken as inputs. */
module Api {
  import opened Wrappers
  import opened Json

  /** A call's outcome: its `cgx_status` flag and, on success, its content. */
  datatype Response<+T> = Success(content: T) | Failure

  /** One item of the site listing; the script reads its id and name. */
  datatype SiteRec = SiteRec(id: string, name: string)

  /** One item of the element listing. An element not assigned to a site has no site id. */
  datatype ElemRec = ElemRec(
    id: string,
    name: string,
    siteId: Option<string>,
    modelName: string,
    serialNumber: Value,
    softwareVersion: Value)

  /** One item of an element's cellular module listing. */
  datatype ModuleRec = ModuleRec(
    id: string,
    name: Value,
    gpsEnable: Value,
    radioOn: Value,
    description: Value,
    tags: Value)

  /** What the login leaves in the session: the tenant id (absent when the login failed)
      and the tenant's display name. */
  datatype Session = Session(tenantId: Option<string>, tenantName: string)

  /** The two calls made inside the scope loop: the module listing of an element and
      the live status of one module (by element id and module id). */
  datatype Controller = Controller(
    cellularModules: string -> Response<seq<ModuleRec>>,
    moduleStatus: (string, string) -> Response<Record>)
}
