# Steam Web API key management, modelled in Dafny

This project models `webapi.go` of a Steam community session library: the three
operations that manage the account's Web API key through an authenticated
browser session.

- `RegisterWebAPIKey(domain)` posts the registration form (`domain`,
  `agreeToTerms=agreed`, `sessionid`, `Submit=Register`) and succeeds exactly
  when the answer has status 200.
- `GetWebAPIKey()` fetches the key page and reads it in a fixed order. First, a
  page carrying the banner `<h2>Access Denied</h2>` is an access-denied error,
  even if it also shows a key. Second, the key is the capture of the leftmost
  match of `<p>Key: ([0-9A-F]+)</p>`. A page with neither is "key not found".
  The session's cached `apiKey` is written with the returned key on success
  and only then.
- `RevokeWebAPIKey()` posts the revocation form (`revoke`, `sessionid`) and
  succeeds exactly when the answer has status 200.

The HTTP transport is abstracted away. Each operation receives the transport's
answer as an `Exchange` value. That value is one of three things: the request
failed, the body could not be read, or a status code with the body. Each
operation also returns the `Request` it issued: verb, endpoint tag and form
fields. Everything is in `webapi.dfy`, module `WebApi`.

The regular expression is not run by a general engine. `KeyAt` matches it by
hand at one index, and `FindKey` scans for the leftmost index. They are proved
equal to the declarative meaning: `FragmentAt(s, i, k)` holds when `k` is a
non-empty run of `0-9A-F` and `"<p>Key: " + k + "</p>"` occurs in `s` at `i`.
Because `<` is not a key digit, the capture at a given index is unique
(`FragmentUnique`). So greedy and non-greedy matching agree, and the leftmost
rule fixes the key (`LeftmostKeyUnique`).

## Model

| member | source | states |
|---|---|---|
| `WebApi.RegisterForm` | webapi.go:30-35 | the registration form has exactly the four fields `domain`, `agreeToTerms`, `sessionid`, `Submit`, with the given domain, `agreed`, the session's token and `Register` |
| `WebApi.RevokeForm` | webapi.go:89-92 | the revocation form has exactly the two fields `revoke` (the fixed confirmation text) and `sessionid` (the session's token) |
| `WebApi.StatusOutcome` | webapi.go:47-55 | the result is nil iff a response arrived with status 200; a transport error is passed through unchanged; any other status gives the given "cannot" sentinel |
| `WebApi.OccursFrom` | webapi.go:73-77 | the scan finds the banner iff it occurs somewhere at or after the start index (a literal pattern matches as a substring) |
| `WebApi.DigitRun` | webapi.go:21 | the run of `[0-9A-F]` starting at an index stays inside the string, holds only key digits and is maximal (it ends at the end of the string or at a non-digit) |
| `WebApi.KeyAt` | webapi.go:21 | when the hand-written matcher reports a capture at index i, the pattern really matches at i with that capture |
| `WebApi.KeyAtComplete` | webapi.go:21 | every match of the pattern at index i is the one the matcher reports, so the matcher misses no match |
| `WebApi.FragmentUnique` | webapi.go:21 | two matches starting at the same index have the same capture |
| `WebApi.FindKey` | webapi.go:79-82 | a capture it returns belongs to a match at or after the start index with no match before it; when it returns none, no match starts anywhere at or after the start index |
| `WebApi.LeftmostKeyUnique` | webapi.go:79 | at most one key is the capture of the leftmost match |
| `WebApi.ClassifyKeyPage` | webapi.go:58-85 | transport and read errors are returned unchanged; a body with the access-denied banner gives AccessDenied even if it holds a key; with no banner, KeyNotFound iff no key fragment occurs anywhere; a returned key is non-empty, all `0-9A-F`, occurs as `<p>Key: key</p>` in the body and is the capture of the leftmost match |
| `WebApi.KeyPageLeftmost` | webapi.go:79-85 | conversely, on a body without the banner, the capture of the leftmost match is the key returned |
| `WebApi.KeyPageIgnoresStatus` | webapi.go:58-71 | the status code of the key page never changes the result |
| `WebApi.KeyPageRoundTrip` | webapi.go:79-85 | a page consisting of `<p>Key: k</p>` for a hex key `k` yields exactly `k` (the page holds no denial banner) |
| `WebApi.Session.RegisterWebAPIKey` | webapi.go:29-56 | issues a POST to the register endpoint with the registration form, which carries the session's token; returns nil iff status 200, CannotRegisterKey on any other status and the transport error unchanged; no `modifies` clause, so the session (and its cached key) is untouched |
| `WebApi.Session.GetWebAPIKey` | webapi.go:58-86 | issues a GET to the key page; on success returns the key from the page classification with a nil error and sets `apiKey` to it; on every error returns an empty key and that error and leaves `apiKey` unchanged; only `apiKey` may change |
| `WebApi.Session.RevokeWebAPIKey` | webapi.go:88-113 | issues a POST to the revoke endpoint with the revocation form, which carries the session's token; returns nil iff status 200, CannotRevokeKey on any other status and the transport error unchanged; the session is untouched |

## Left out

- HTTP transport (`http.NewRequest`, `client.Do`, `client.Get`, `ioutil.ReadAll`, `resp.Body.Close`): network I/O. Its result is the `Exchange` parameter. A failing `http.NewRequest` and a failing `client.Do` both appear as `RequestFailed`.
- Closing the response body: resource handling with no effect on any result.
- `url.Values.Encode`: percent-encoding and key ordering belong to Go's standard library. The form is modelled as a field map with one value per field, which is how every field here is built.
- The general `regexp` engine: only the two fixed patterns are modelled, by hand. The error branch of `regexp.Match` (webapi.go:73-74) cannot be taken for a literal pattern, so the model has no such branch.
- The body is read as bytes and converted to a Go string. The model treats the body as a sequence of characters. Both patterns are ASCII, so this does not change what matches.
- The endpoint URLs (webapi.go:13-15) are opaque tags (`KeyPage`, `RegisterKeyPage`, `RevokeKeyPage`).
- Concurrent callers racing on `apiKey`: the source has no synchronisation, and the model is sequential.
- The rest of the `Session` type (login, cookie jar, HTTP client): it is not part of this model. `Session` here holds only `sessionID` and `apiKey`.
- No validation of `domain`: the code performs none, so `RegisterWebAPIKey` accepts the empty domain too.
- Repeated fetches against an unchanged page give the same key and leave the cache at that key. This has no member of its own: it follows from `GetWebAPIKey`'s postcondition, which depends only on the reply.
