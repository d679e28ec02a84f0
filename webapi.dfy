/**
 Model of the Web API key management of a Steam community session (webapi.go):
 registering a key for a domain, fetching the current key by scraping the key
 page, and revoking the key.

 The HTTP transport is not modelled: each operation receives the transport's
 answer to the request it issues as an `Exchange` value, and returns the
 `Request` it issued so that callers can see what was sent.
 */
module WebApi {

  /* ---------------------------------------------------------------------------
     Errors, requests and transport answers
     ------------------------------------------------------------------------- */

  /** The error values the operations return. `Transport` stands for every error
      raised below this component (building the request, executing it, reading
      the body); its cause is returned unchanged. The other four are the
      sentinels ErrCannotRegisterKey, ErrCannotRevokeKey, ErrAccessDenied and
      ErrKeyNotFound. */
  datatype Error =
    | Transport(cause: string)
    | CannotRegisterKey
    | CannotRevokeKey
    | AccessDenied
    | KeyNotFound

  /** Go's `error` result: nil on success, or an error value. */
  datatype Outcome = Nil | Fail(error: Error)

  /** What the fetch computes before it is split into Go's (string, error) pair. */
  datatype KeyResult = Key(key: string) | Err(error: Error)

  datatype Option<T> = None | Some(value: T)

  /** The transport's answer to one request. */
  datatype Exchange =
    | RequestFailed(cause: string)                 // no response: the request could not be built or executed
    | BodyFailed(status: int, cause: string)       // a response arrived, but reading its body failed
    | Received(status: int, body: string)          // a response with its whole body

  datatype Verb = Get | Post

  /** The three fixed endpoints, as opaque tags for their URLs. */
  datatype Endpoint = KeyPage | RegisterKeyPage | RevokeKeyPage

  /** A request as handed to the transport: verb, endpoint and form fields. */
  datatype Request = Request(verb: Verb, endpoint: Endpoint, form: map<string, string>)

  const StatusOK: int := 200

  /* ---------------------------------------------------------------------------
     Forms and status classification (register and revoke)
     ------------------------------------------------------------------------- */

  /** Every state-changing request carries the session's anti-CSRF token. */
  ghost predicate CarriesSession(request: Request, sessionID: string)
  {
    request.verb == Post ==> "sessionid" in request.form && request.form["sessionid"] == sessionID
  }

  /** The form posted to register a key for `domain`. */
  function RegisterForm(domain: string, sessionID: string): (form: map<string, string>)
    ensures |form| == 4 && form.Keys == {"domain", "agreeToTerms", "sessionid", "Submit"}
    ensures form["domain"] == domain && form["sessionid"] == sessionID
    ensures form["agreeToTerms"] == "agreed" && form["Submit"] == "Register"
  {
    map["domain" := domain, "agreeToTerms" := "agreed", "sessionid" := sessionID, "Submit" := "Register"]
  }

  /** The form posted to revoke the current key. */
  function RevokeForm(sessionID: string): (form: map<string, string>)
    ensures |form| == 2 && form.Keys == {"revoke", "sessionid"}
    ensures form["revoke"] == "Revoke My Steam Web API Key" && form["sessionid"] == sessionID
  {
    map["revoke" := "Revoke My Steam Web API Key", "sessionid" := sessionID]
  }

  /** How register and revoke read the transport's answer: only the status code
      matters, and a transport error is passed through; the body is never read. */
  function StatusOutcome(reply: Exchange, rejected: Error): (o: Outcome)
    ensures o == Nil <==> !reply.RequestFailed? && reply.status == StatusOK
    ensures reply.RequestFailed? ==> o == Fail(Transport(reply.cause))
    ensures !reply.RequestFailed? && reply.status != StatusOK ==> o == Fail(rejected)
  {
    match reply
    case RequestFailed(cause) => Fail(Transport(cause))
    case BodyFailed(status, _) => if status != StatusOK then Fail(rejected) else Nil
    case Received(status, _) => if status != StatusOK then Fail(rejected) else Nil
  }

  /* ---------------------------------------------------------------------------
     Substring search (the access-denied banner)
     ------------------------------------------------------------------------- */

  const AccessDeniedPattern: string := "<h2>Access Denied</h2>"

  /** `p` occurs in `s` starting at index `i`. */
  predicate OccursAt(p: string, s: string, i: nat)
  {
    i + |p| <= |s| && s[i..i + |p|] == p
  }

  ghost predicate Contains(s: string, p: string)
  {
    exists i: nat :: OccursAt(p, s, i)
  }

  /** Scans `s` left to right from index `from` for an occurrence of `p`. The
      banner has no regular-expression metacharacters, so matching it as a
      pattern is this search. */
  function OccursFrom(p: string, s: string, from: nat): (found: bool)
    ensures found <==> exists i: nat :: from <= i && OccursAt(p, s, i)
    decreases |s| - from
  {
    if from + |p| > |s| then false
    else OccursAt(p, s, from) || OccursFrom(p, s, from + 1)
  }

  /* ---------------------------------------------------------------------------
     Key extraction: the pattern <p>Key: ([0-9A-F]+)</p>
     ------------------------------------------------------------------------- */

  const KeyPrefix: string := "<p>Key: "
  const KeySuffix: string := "</p>"

  predicate IsKeyDigit(c: char)
  {
    '0' <= c <= '9' || 'A' <= c <= 'F'
  }

  /** A string the capture group `[0-9A-F]+` can match. */
  predicate IsKeyText(k: string)
  {
    |k| > 0 && forall j :: 0 <= j < |k| ==> IsKeyDigit(k[j])
  }

  /** The pattern matches `s` at index `i` with `k` as its capture. */
  ghost predicate FragmentAt(s: string, i: nat, k: string)
  {
    IsKeyText(k) && OccursAt(KeyPrefix + k + KeySuffix, s, i)
  }

  /** `k` is the capture of the leftmost match of the pattern in `s`. */
  ghost predicate LeftmostKey(s: string, k: string)
  {
    exists i: nat :: FragmentAt(s, i, k) && forall j: nat, k' :: j < i ==> !FragmentAt(s, j, k')
  }

  /** Length of the longest run of key digits in `s` starting at index `j`. */
  function DigitRun(s: string, j: nat): (n: nat)
    requires j <= |s|
    ensures j + n <= |s|
    ensures forall m :: j <= m < j + n ==> IsKeyDigit(s[m])
    ensures j + n == |s| || !IsKeyDigit(s[j + n])
    decreases |s| - j
  {
    if j < |s| && IsKeyDigit(s[j]) then 1 + DigitRun(s, j + 1) else 0
  }

  lemma OccursConcat(a: string, b: string, s: string, i: nat)
    requires OccursAt(a, s, i) && OccursAt(b, s, i + |a|)
    ensures OccursAt(a + b, s, i)
  {
  }

  lemma OccursSplit(a: string, b: string, s: string, i: nat)
    requires OccursAt(a + b, s, i)
    ensures OccursAt(a, s, i) && OccursAt(b, s, i + |a|)
  {
    assert s[i..i + |a|] == (a + b)[..|a|];
    assert s[i + |a|..i + |a| + |b|] == (a + b)[|a|..];
  }

  /** The capture of a match starting at index `i`, if one does. The run of
      digits is taken whole: `<` is not a key digit, so no shorter run can be
      followed by `</p>`. */
  function KeyAt(s: string, i: nat): (r: Option<string>)
    ensures r.Some? ==> FragmentAt(s, i, r.value)
  {
    if OccursAt(KeyPrefix, s, i) then
      var start := i + |KeyPrefix|;
      var n := DigitRun(s, start);
      if n > 0 && OccursAt(KeySuffix, s, start + n) then
        var k := s[start..start + n];
        OccursConcat(KeyPrefix, k, s, i);
        OccursConcat(KeyPrefix + k, KeySuffix, s, i);
        Some(k)
      else None
    else None
  }

  /** Every match starting at `i` is the one `KeyAt` finds; in particular the
      capture of a match is determined by where it starts. */
  lemma KeyAtComplete(s: string, i: nat, k: string)
    requires FragmentAt(s, i, k)
    ensures KeyAt(s, i) == Some(k)
  {
    var start := i + |KeyPrefix|;
    OccursSplit(KeyPrefix + k, KeySuffix, s, i);
    OccursSplit(KeyPrefix, k, s, i);
    assert s[start..start + |k|] == k;
    assert s[start + |k|] == KeySuffix[0] == '<';
    forall m | start <= m < start + |k| ensures IsKeyDigit(s[m]) {
      assert s[m] == k[m - start];
    }
    DigitRunExact(s, start, |k|);
  }

  /** A run of `n` digits ended by a non-digit is the longest run there. */
  lemma DigitRunExact(s: string, j: nat, n: nat)
    requires j + n < |s| && !IsKeyDigit(s[j + n])
    requires forall m :: j <= m < j + n ==> IsKeyDigit(s[m])
    ensures DigitRun(s, j) == n
  {
  }

  lemma FragmentUnique(s: string, i: nat, k1: string, k2: string)
    requires FragmentAt(s, i, k1) && FragmentAt(s, i, k2)
    ensures k1 == k2
  {
    KeyAtComplete(s, i, k1);
    KeyAtComplete(s, i, k2);
  }

  /** The leftmost-match rule determines the key: at most one string is the
      capture of the leftmost match. */
  lemma LeftmostKeyUnique(s: string, k1: string, k2: string)
    requires LeftmostKey(s, k1) && LeftmostKey(s, k2)
    ensures k1 == k2
  {
    var i1: nat :| FragmentAt(s, i1, k1) && forall j: nat, k' :: j < i1 ==> !FragmentAt(s, j, k');
    var i2: nat :| FragmentAt(s, i2, k2) && forall j: nat, k' :: j < i2 ==> !FragmentAt(s, j, k');
    assert i1 == i2;
    FragmentUnique(s, i1, k1, k2);
  }

  /** The capture of the leftmost match at or after index `from`. */
  function FindKey(s: string, from: nat): (r: Option<string>)
    ensures r.Some? ==> exists i: nat :: from <= i && FragmentAt(s, i, r.value)
                          && forall j: nat, k :: from <= j < i ==> !FragmentAt(s, j, k)
    ensures r.None? ==> forall j: nat, k :: from <= j ==> !FragmentAt(s, j, k)
    decreases |s| - from
  {
    if from > |s| then None
    else
      match KeyAt(s, from)
      case Some(k) => Some(k)
      case None =>
        NoFragmentWhereKeyAtFails(s, from);
        FindKey(s, from + 1)
  }

  lemma NoFragmentWhereKeyAtFails(s: string, i: nat)
    requires KeyAt(s, i).None?
    ensures forall k :: !FragmentAt(s, i, k)
  {
    forall k | FragmentAt(s, i, k) ensures false {
      KeyAtComplete(s, i, k);
    }
  }

  /* ---------------------------------------------------------------------------
     Interpretation of the key page
     ------------------------------------------------------------------------- */

  /** What fetching the key yields for a given transport answer. Transport errors
      come first; then the access-denied banner, which wins over any key on the
      page; then the leftmost key fragment; otherwise no key is registered. The
      status code is never looked at. */
  function ClassifyKeyPage(reply: Exchange): (r: KeyResult)
    ensures !reply.Received? ==> r == Err(Transport(reply.cause))
    ensures reply.Received? && Contains(reply.body, AccessDeniedPattern) ==> r == Err(AccessDenied)
    ensures reply.Received? && !Contains(reply.body, AccessDeniedPattern) ==>
              (r == Err(KeyNotFound) <==> forall i: nat, k :: !FragmentAt(reply.body, i, k))
    ensures r.Key? ==> reply.Received? && !Contains(reply.body, AccessDeniedPattern) && LeftmostKey(reply.body, r.key)
    ensures r.Key? ==> IsKeyText(r.key) && Contains(reply.body, KeyPrefix + r.key + KeySuffix)
  {
    match reply
    case RequestFailed(cause) => Err(Transport(cause))
    case BodyFailed(_, cause) => Err(Transport(cause))
    case Received(_, body) =>
      if OccursFrom(AccessDeniedPattern, body, 0) then Err(AccessDenied)
      else
        match FindKey(body, 0)
        case None => Err(KeyNotFound)
        case Some(k) => Key(k)
  }

  /** Conversely, when the page is not denied and `k` is the capture of its
      leftmost key fragment, the fetch yields `k`. */
  lemma KeyPageLeftmost(status: int, body: string, k: string)
    requires !Contains(body, AccessDeniedPattern) && LeftmostKey(body, k)
    ensures ClassifyKeyPage(Received(status, body)) == Key(k)
  {
    var r := ClassifyKeyPage(Received(status, body));
    var i: nat :| FragmentAt(body, i, k) && forall j: nat, k' :: j < i ==> !FragmentAt(body, j, k');
    assert r.Key?;
    LeftmostKeyUnique(body, r.key, k);
  }

  /** The status code of the key page does not influence the result. */
  lemma {:induction false} KeyPageIgnoresStatus(status1: int, status2: int, body: string)
    ensures ClassifyKeyPage(Received(status1, body)) == ClassifyKeyPage(Received(status2, body))
  {
  }

  /** A page made of a single key fragment yields exactly that key. */
  lemma KeyPageRoundTrip(status: int, k: string)
    requires IsKeyText(k)
    ensures ClassifyKeyPage(Received(status, KeyPrefix + k + KeySuffix)) == Key(k)
  {
    var body := KeyPrefix + k + KeySuffix;
    forall m | 0 <= m < |body| ensures body[m] != 'h' {
      if m < |KeyPrefix| {
        assert body[m] == KeyPrefix[m];
      } else if m < |KeyPrefix| + |k| {
        assert body[m] == k[m - |KeyPrefix|];
      } else {
        assert body[m] == KeySuffix[m - |KeyPrefix| - |k|];
      }
    }
    forall i: nat | i + |AccessDeniedPattern| <= |body|
      ensures !OccursAt(AccessDeniedPattern, body, i)
    {
      assert body[i..i + |AccessDeniedPattern|][1] == body[i + 1] != AccessDeniedPattern[1];
    }
    assert OccursAt(body, body, 0);
    KeyAtComplete(body, 0, k);
  }

  /* ---------------------------------------------------------------------------
     The session
     ------------------------------------------------------------------------- */

  /** The part of the session this component uses: the anti-CSRF token sent with
      every POST, and the cached key that a successful fetch overwrites. */
  class Session {
    var sessionID: string
    var apiKey: string

    constructor (sessionID: string, apiKey: string)
      ensures this.sessionID == sessionID && this.apiKey == apiKey
    {
      this.sessionID := sessionID;
      this.apiKey := apiKey;
    }

    /** Registers a key for `domain`: posts the registration form and reports
        the answer by its status code alone. The session is not changed. */
    method RegisterWebAPIKey(domain: string, reply: Exchange) returns (request: Request, err: Outcome)
      ensures request == Request(Post, RegisterKeyPage, RegisterForm(domain, sessionID))
      ensures CarriesSession(request, sessionID) && request.form["domain"] == domain
      ensures err == Nil <==> !reply.RequestFailed? && reply.status == StatusOK
      ensures reply.RequestFailed? ==> err == Fail(Transport(reply.cause))
      ensures !reply.RequestFailed? && reply.status != StatusOK ==> err == Fail(CannotRegisterKey)
    {
      request := Request(Post, RegisterKeyPage, RegisterForm(domain, sessionID));
      err := StatusOutcome(reply, CannotRegisterKey);
    }

    /** Fetches the current key from the key page. Only a successful fetch
        writes the cached key, and it writes the key it returns. */
    method GetWebAPIKey(reply: Exchange) returns (request: Request, key: string, err: Outcome)
      modifies this`apiKey
      ensures request == Request(Get, KeyPage, map[])
      ensures ClassifyKeyPage(reply).Key? ==>
                key == ClassifyKeyPage(reply).key && err == Nil && apiKey == key
      ensures ClassifyKeyPage(reply).Err? ==>
                key == "" && err == Fail(ClassifyKeyPage(reply).error) && apiKey == old(apiKey)
    {
      request := Request(Get, KeyPage, map[]);
      var body: string;
      match reply {
        case RequestFailed(cause) =>
          return request, "", Fail(Transport(cause));
        case BodyFailed(_, cause) =>
          return request, "", Fail(Transport(cause));
        case Received(_, text) =>
          body := text;
      }
      if OccursFrom(AccessDeniedPattern, body, 0) {
        return request, "", Fail(AccessDenied);
      }
      var submatch := FindKey(body, 0);
      if submatch.None? {
        return request, "", Fail(KeyNotFound);
      }
      apiKey := submatch.value;
      return request, submatch.value, Nil;
    }

    /** Revokes the current key: posts the revocation form and reports the
        answer by its status code alone. The cached key is left as it was. */
    method RevokeWebAPIKey(reply: Exchange) returns (request: Request, err: Outcome)
      ensures request == Request(Post, RevokeKeyPage, RevokeForm(sessionID))
      ensures CarriesSession(request, sessionID)
      ensures err == Nil <==> !reply.RequestFailed? && reply.status == StatusOK
      ensures reply.RequestFailed? ==> err == Fail(Transport(reply.cause))
      ensures !reply.RequestFailed? && reply.status != StatusOK ==> err == Fail(CannotRevokeKey)
    {
      request := Request(Post, RevokeKeyPage, RevokeForm(sessionID));
      err := StatusOutcome(reply, CannotRevokeKey);
    }
  }
}
