/** What one `fetch` call to an upstream provider yields. */
module Http {

  /** A response that arrived, with its status code and body text, or a
      transport failure that made `fetch` throw (its message is kept). A body
      whose text cannot be read is modelled as the empty text, which is what
      `r.text().catch(() => "")` makes of it. */
  datatype Outcome =
    | Reached(status: int, text: string)
    | NetFailed(error: string)

  /** `Response.ok`: the status is in the 2xx range. */
  predicate IsOk(status: int) {
    200 <= status <= 299
  }
}
