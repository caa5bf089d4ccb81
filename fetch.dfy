/** What the dashboards see of a `fetch` to the request routes. */
module Fetch {

  /** A response as the client reads it: `response.ok` with its parsed `requests` list, or
      not ok (any non-2xx status), in which case the client ignores the body. */
  datatype Fetched<T> = Ok(data: T) | NotOk

  /** The three request routes, `/api/requests/{vacation,fund,general}`. */
  datatype Kind = Vacation | Fund | General

  /** The value a state slot holds after a fetch: replaced on an ok response, kept otherwise. */
  function Refreshed<T>(res: Fetched<T>, previous: T): (r: T)
    ensures res.Ok? ==> r == res.data
    ensures res.NotOk? ==> r == previous
  {
    if res.Ok? then res.data else previous
  }
}
