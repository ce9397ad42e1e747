/** The page-level globals the events view reads, gathered into explicit
    values: the logged-in user's rights and the strings the server prints
    into the page before the script runs.
 */
module Page {

  /** The user's rights, fixed for the life of the page. */
  datatype Permissions = Permissions(canViewEvents: bool, canEditEvents: bool, canEditMonitors: bool)

  /** `yesString`, `archivedString` and `emailedString` are translated
      labels; `filterQuery` and `sortQuery` are the current list's filter and
      sort as URL query fragments; `thisUrl` is the page's own address. */
  datatype Context = Context(
    yesString: string,
    archivedString: string,
    emailedString: string,
    filterQuery: string,
    sortQuery: string,
    thisUrl: string,
    perms: Permissions)
}
