/** The tenant-isolation middleware that runs in front of every activity
    route: it reads the `x-tenant-id` header, rejects a missing, non-string or
    blank one with status 400, and otherwise hands the trimmed value on as the
    request's tenant. */
module TenantIsolation {
  import opened Wrappers
  import opened JsText

  /** The `x-tenant-id` header as the request carries it. */
  datatype HeaderValue = Absent | NotAString | Text(s: string)

  /** The response sent instead of calling the next handler. */
  datatype Rejection = Rejection(status: int, message: string)

  const InvalidTenantMessage: string :=
    "Missing or invalid x-tenant-id header. Tenant isolation is mandatory."

  /** No whitespace at either end. */
  predicate IsTrimmed(s: string) {
    s == [] || (!IsWhitespace(s[0]) && !IsWhitespace(s[|s| - 1]))
  }

  /** The middleware. `Ok(t)` stands for "set `req.tenantId := t` and call
      `next()` once"; `Err` for "answer with the rejection, never call `next`". */
  function Resolve(h: HeaderValue): (r: Result<string, Rejection>)
    ensures r.Ok? <==> h.Text? && !AllWhitespace(h.s)
    ensures r.Err? ==> r.error == Rejection(400, InvalidTenantMessage)
    ensures r.Ok? ==> r.value != [] && IsTrimmed(r.value)
    ensures r.Ok? ==> exists i, j :: 0 <= i <= j <= |h.s| && r.value == h.s[i..j]
                                   && AllWhitespace(h.s[..i]) && AllWhitespace(h.s[j..])
  {
    match h
    case Text(s) =>
      TrimEmptyIff(s);
      TrimCharacterized(s);
      if Trim(s) == [] then Err(Rejection(400, InvalidTenantMessage)) else Ok(Trim(s))
    case _ => Err(Rejection(400, InvalidTenantMessage))
  }

  /** Resolving an already resolved tenant gives it back unchanged. */
  lemma ResolveIdempotent(h: HeaderValue)
    requires Resolve(h).Ok?
    ensures Resolve(Text(Resolve(h).value)) == Resolve(h)
  {
    TrimIdempotent(h.s);
  }
}
