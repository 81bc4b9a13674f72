/** What the request handlers read from an HTTP request. */
module Form {
  import opened Wrappers

  /**
   * Python truthiness of a looked-up form value: `if category_id:` passes only
   * for a field that was sent and is not the empty string.
   */
  predicate Supplied(field: Option<string>)
  {
    field.Some? && field.value != ""
  }

  datatype HttpMethod = Get | Post

  /** The submitted form fields and the query-string arguments of a request. */
  datatype Request = Request(verb: HttpMethod, form: map<string, string>, args: map<string, string>)

  /** The search handler reads the form of a POST and the query string of anything else. */
  function DataSource(req: Request): (fields: map<string, string>)
    ensures req.verb == Post ==> fields == req.form
    ensures req.verb == Get ==> fields == req.args
  {
    if req.verb == Post then req.form else req.args
  }

  /** `fields.get(key)`: the value, or None when the key was not sent. */
  function Lookup(fields: map<string, string>, key: string): (r: Option<string>)
    ensures r.Some? <==> key in fields
    ensures r.Some? ==> r.value == fields[key]
  {
    if key in fields then Some(fields[key]) else None
  }
}
