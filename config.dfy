/** Static configuration shared by the reconciler and the query service
    (server/config/index.js). */
module Config {
  /** Name of the shift table. */
  const DatabaseTable: string := "tk_clockins"

  /** A shift counts in the per-shift history only when it lasted longer than this (milliseconds). */
  const MinimumTime: int := 30 * 1000

  /** Allow-list of job names, consulted only by the read-side `isDepartmentClocked`. */
  const Jobs: seq<string> := ["police", "tow", "burgershot", "mechanic", "unemployed"]
}
