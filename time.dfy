/** Time as the routes and pages read it: instants in milliseconds since the epoch. */
module Time {
  /** `1000 * 3600 * 24`: milliseconds per day. */
  const MsPerDay: int := 1000 * 3600 * 24
}
