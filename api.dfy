/**
 * The HTTP client's two interceptors and the receipt endpoints (lib/api.ts).
 * Transport is left out: replies enter the model as parameters.
 */
module Api {
  import opened Wrappers
  import opened Strings
  import Auth

  const AuthorizationHeader := "Authorization"
  const BearerPrefix := "Bearer "

  /** The part of an outgoing request the interceptors touch. */
  datatype RequestConfig = RequestConfig(url: string, headers: map<string, string>)

  /** The credential for a token, in the "Bearer" scheme of section 2.1 of RFC 6750. */
  function Bearer(token: string): string {
    BearerPrefix + token
  }

  /** The token carried by a bearer credential. */
  function TokenOf(credential: string): Option<string> {
    if StartsWith(credential, BearerPrefix) then Some(credential[|BearerPrefix|..]) else None
  }

  lemma BearerRoundTrip(token: string)
    ensures TokenOf(Bearer(token)) == Some(token)
  {
    assert Bearer(token)[..|BearerPrefix|] == BearerPrefix;
  }

  /** The request interceptor: the stored access token, when there is a non-empty one, as a bearer credential. */
  function Intercept(config: RequestConfig, entries: map<string, string>): (r: RequestConfig)
    ensures r.url == config.url
    ensures forall h :: h != AuthorizationHeader ==> (h in r.headers <==> h in config.headers)
    ensures forall h :: h != AuthorizationHeader && h in config.headers ==> r.headers[h] == config.headers[h]
    ensures Auth.AuthenticatedIn(entries) ==>
      AuthorizationHeader in r.headers && TokenOf(r.headers[AuthorizationHeader]) == Some(entries[Auth.AccessTokenKey])
    ensures !Auth.AuthenticatedIn(entries) ==> r == config
  {
    if Auth.AuthenticatedIn(entries) then
      BearerRoundTrip(entries[Auth.AccessTokenKey]);
      config.(headers := config.headers[AuthorizationHeader := Bearer(entries[Auth.AccessTokenKey])])
    else config
  }

  /**
   * The refresh guard AS WRITTEN: `status === 401 || status === 403 && !_retry`.
   * `&&` binds tighter than `||`, so a 401 is refreshed even on a request already retried.
   */
  predicate RefreshAsWritten(status: Option<int>, retried: bool) {
    status == Some(401) || (status == Some(403) && !retried)
  }

  /** The refresh guard as evidently intended: a 401 or 403, and only once per request. */
  predicate ShouldRefresh(status: Option<int>, retried: bool) {
    (status == Some(401) || status == Some(403)) && !retried
  }

  /**
   * Refresh attempts made for one request whose successive responses are `statuses`,
   * each refresh succeeding and each retry receiving the next response.
   */
  function Refreshes(asWritten: bool, statuses: seq<int>, retried: bool): nat {
    if statuses == [] then 0
    else
      var go := if asWritten then RefreshAsWritten(Some(statuses[0]), retried)
                else ShouldRefresh(Some(statuses[0]), retried);
      if go then 1 + Refreshes(asWritten, statuses[1..], true) else 0
  }

  function Repeat(x: int, n: nat): (r: seq<int>)
    ensures |r| == n && forall k :: 0 <= k < n ==> r[k] == x
  {
    if n == 0 then [] else [x] + Repeat(x, n - 1)
  }

  /** As written, a request answered 401 every time triggers one refresh per response, without bound. */
  lemma {:induction false} AsWrittenRefreshesUnbounded(n: nat, retried: bool)
    ensures Refreshes(true, Repeat(401, n), retried) == n
  {
    if n > 0 {
      assert Repeat(401, n)[1..] == Repeat(401, n - 1);
      AsWrittenRefreshesUnbounded(n - 1, true);
    }
  }

  /** With the intended guard a request is refreshed at most once, whatever the responses. */
  lemma {:induction false} RefreshAtMostOnce(statuses: seq<int>, retried: bool)
    ensures Refreshes(false, statuses, retried) <= (if retried then 0 else 1)
  {
    if statuses != [] && ShouldRefresh(Some(statuses[0]), retried) {
      RefreshAtMostOnce(statuses[1..], true);
    }
  }

  /** Only 401 and 403 are refreshed, and the two guards differ only on a retried 401. */
  lemma GuardsCompared(status: Option<int>, retried: bool)
    ensures ShouldRefresh(status, retried) ==> RefreshAsWritten(status, retried)
    ensures RefreshAsWritten(status, retried) && !ShouldRefresh(status, retried) <==> status == Some(401) && retried
    ensures RefreshAsWritten(status, retried) ==> status == Some(401) || status == Some(403)
  {
  }

  /** The original request as the response interceptor sees it. */
  class PendingRequest {
    var retry: bool
    var headers: map<string, string>

    constructor (headers: map<string, string>)
      ensures !retry && this.headers == headers
    {
      retry := false;
      this.headers := headers;
    }
  }

  /** What the response interceptor does with an error. */
  datatype ErrorOutcome =
    | Rejected                              // the error is passed on unchanged
    | Retried                               // the request is sent again with the new token
    | SessionExpired(redirect: Option<string>)  // tokens dropped, browser sent to the login page

  /**
   * The response interceptor's error path: refresh the access token and retry once,
   * or drop the tokens and go to /login when the refresh cannot be done.
   * `refresh` is the reply to the refresh call, used only when a refresh token is stored.
   */
  method HandleResponseError(status: Option<int>, req: PendingRequest, store: Auth.Storage, refresh: Reply<string>)
    returns (outcome: ErrorOutcome)
    modifies req, store
    ensures store.windowPresent == old(store.windowPresent)
    ensures !ShouldRefresh(status, old(req.retry)) ==>
      outcome == Rejected && req.retry == old(req.retry) && req.headers == old(req.headers)
      && store.entries == old(store.entries)
    ensures ShouldRefresh(status, old(req.retry)) ==> req.retry
    ensures (ShouldRefresh(status, old(req.retry)) && Auth.RefreshTokenKey in old(store.entries)
             && old(store.entries)[Auth.RefreshTokenKey] != "" && refresh.Ok?) ==>
      outcome == Retried
      && store.entries == old(store.entries)[Auth.AccessTokenKey := refresh.value]
      && req.headers == old(req.headers)[AuthorizationHeader := Bearer(refresh.value)]
    ensures (ShouldRefresh(status, old(req.retry)) && !(Auth.RefreshTokenKey in old(store.entries)
             && old(store.entries)[Auth.RefreshTokenKey] != "" && refresh.Ok?)) ==>
      outcome == SessionExpired(if store.windowPresent then Some("/login") else None)
      && store.entries == old(store.entries) - {Auth.AccessTokenKey, Auth.RefreshTokenKey}
      && req.headers == old(req.headers)
  {
    if !ShouldRefresh(status, req.retry) {
      return Rejected;
    }
    req.retry := true;
    var hasRefreshToken := Auth.RefreshTokenKey in store.entries && store.entries[Auth.RefreshTokenKey] != "";
    if hasRefreshToken && refresh.Ok? {
      store.SetItem(Auth.AccessTokenKey, refresh.value);
      req.headers := req.headers[AuthorizationHeader := Bearer(refresh.value)];
      outcome := Retried;
    } else {
      store.RemoveItem(Auth.AccessTokenKey);
      store.RemoveItem(Auth.RefreshTokenKey);
      outcome := SessionExpired(if store.windowPresent then Some("/login") else None);
    }
  }

  /** The receipt calls the dashboards make. */
  datatype ReceiptCall =
    | Approve(category: string, receiptId: string)
    | Reject(category: string, receiptId: string, reason: string)

  function UploadPath(category: string): string { "/" + category + "/upload" }
  function RetrievePath(category: string): string { "/retrieve/" + category }
  function ApprovePath(category: string): string { "/receipts/" + category + "/approve" }
  function RejectPath(category: string): string { "/receipts/" + category + "/reject" }

  function CallPath(call: ReceiptCall): string {
    match call
    case Approve(c, _) => ApprovePath(c)
    case Reject(c, _, _) => RejectPath(c)
  }

  /** Each path names its category: different categories never share a path, and approve and reject differ. */
  lemma PathsDetermineCategory(c1: string, c2: string)
    ensures UploadPath(c1) == UploadPath(c2) ==> c1 == c2
    ensures RetrievePath(c1) == RetrievePath(c2) ==> c1 == c2
    ensures ApprovePath(c1) == ApprovePath(c2) ==> c1 == c2
    ensures RejectPath(c1) == RejectPath(c2) ==> c1 == c2
    ensures ApprovePath(c1) != RejectPath(c2)
  {
    if UploadPath(c1) == UploadPath(c2) {
      assert c1 == UploadPath(c1)[1..|UploadPath(c1)| - 7];
      assert c2 == UploadPath(c2)[1..|UploadPath(c2)| - 7];
    }
    if RetrievePath(c1) == RetrievePath(c2) {
      assert c1 == RetrievePath(c1)[10..];
      assert c2 == RetrievePath(c2)[10..];
    }
    if ApprovePath(c1) == ApprovePath(c2) {
      assert c1 == ApprovePath(c1)[10..|ApprovePath(c1)| - 8];
      assert c2 == ApprovePath(c2)[10..|ApprovePath(c2)| - 8];
    }
    assert ApprovePath(c1)[|ApprovePath(c1)| - 1] == 'e';
    assert RejectPath(c2)[|RejectPath(c2)| - 1] == 't';
    if RejectPath(c1) == RejectPath(c2) {
      assert c1 == RejectPath(c1)[10..|RejectPath(c1)| - 7];
      assert c2 == RejectPath(c2)[10..|RejectPath(c2)| - 7];
    }
  }
}
