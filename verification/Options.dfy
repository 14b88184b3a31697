/** Optional values: Python's `X | None`. */
module Options {
  datatype Option<+T> = None | Some(value: T)

  /** The services' `_text`: empty text counts as absent. */
  function Text(v: Option<string>): (r: Option<string>)
    ensures r.Some? <==> v.Some? && |v.value| > 0
    ensures r.Some? ==> r == v
  {
    if v == Some("") then None else v
  }
}
