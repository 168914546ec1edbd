// The client's HTTP wrapper: base-URL and header configuration, the
// query strings it builds for URL-encoded posts, the retry loop around a
// send, the mapping of transport failures to a response envelope, and
// the JSON date reader. The transport, JSON (de)serialisation, URI
// escaping and date-string parsing are parameters; an instant is a count
// of milliseconds since the Unix epoch.
module ApiClient {
  import opened Wrappers
  import opened Text

  /** The request methods the client offers. */
  datatype HttpMethod = GET | POST | PUT | DELETE | PATCH

  /** A dictionary of request parameters in enumeration order; a None
      value stands for a null entry. */
  type Params = seq<(String, Option<String>)>

  /** How a request (or the wait before it) can throw: a cancellation or
      time-out (TaskCanceledException), or any other exception with its
      message. */
  datatype Exn = Canceled | Failed(message: String)

  /** One attempt at sending: the server answered with a status code, or
      the attempt threw. */
  datatype Attempt = Answered(status: int) | Threw(error: Exn)

  /** The envelope every request method returns; Msg is null until a
      failure sets it. Headers, Data and timings are not modelled. */
  datatype ApiResponse = ApiResponse(code: int, isSuccess: bool, msg: Option<String>)

  const RetriesExhaustedMessage: String := "Request failed after all retries"
  const TimeoutMessage: String := "Request timeout"
  const TimeoutCode: int := 408

  // ---------------------------------------------------------------------
  // Base URL

  /** String.TrimEnd('/'). */
  function TrimSlashes(s: String): (r: String)
    ensures |r| <= |s| && r == s[..|r|]
    ensures |r| > 0 ==> r[|r| - 1] != '/'
    ensures forall i :: |r| <= i < |s| ==> s[i] == '/'
  {
    if |s| > 0 && s[|s| - 1] == '/' then TrimSlashes(s[..|s| - 1]) else s
  }

  /** The stored form of a base URL: its trailing slashes replaced by one. */
  function NormalizeBaseUrl(url: String): String
  {
    TrimSlashes(url) + "/"
  }

  /** The normal form ends in exactly one slash after the url's own text,
      and normalising it again changes nothing. */
  lemma NormalizeBaseUrlSpec(url: String)
    ensures var n := NormalizeBaseUrl(url);
      && |n| > 0 && n[|n| - 1] == '/'
      && (|n| > 1 ==> n[|n| - 2] != '/')
      && n[..|n| - 1] <= url
      && (forall i :: |n| - 1 <= i < |url| ==> url[i] == '/')
    ensures NormalizeBaseUrl(NormalizeBaseUrl(url)) == NormalizeBaseUrl(url)
  {
    var t := TrimSlashes(url);
    var n := t + "/";
    assert n[..|n| - 1] == t;
    assert n[..|n| - 1] == TrimSlashes(n);
  }

  // ---------------------------------------------------------------------
  // Query strings

  /** The "key=value" text of one entry, both sides escaped. */
  function Entry(escape: String -> String, key: String, value: String): (r: String)
    ensures '=' in r
  {
    escape(key) + "=" + escape(value)
  }

  /** The entries a query string is made of: one per non-null value, in
      dictionary order. */
  function QueryPairs(ps: Params, escape: String -> String): (r: seq<String>)
    ensures |r| <= |ps|
  {
    if ps == [] then []
    else
      var last := ps[|ps| - 1];
      QueryPairs(ps[..|ps| - 1], escape) + if last.1.Some? then [Entry(escape, last.0, last.1.value)] else []
  }

  /** The query string: the entries joined with '&'. */
  function QueryString(ps: Params, escape: String -> String): String
  {
    Join("&", QueryPairs(ps, escape))
  }

  predicate HasValue(ps: Params)
  {
    exists i :: 0 <= i < |ps| && ps[i].1.Some?
  }

  /** Every non-null entry is in the query, and nothing else is. */
  lemma {:induction false} QueryPairsSpec(ps: Params, escape: String -> String)
    ensures forall i :: 0 <= i < |ps| && ps[i].1.Some? ==> Entry(escape, ps[i].0, ps[i].1.value) in QueryPairs(ps, escape)
    ensures forall x :: x in QueryPairs(ps, escape) ==>
      exists i :: 0 <= i < |ps| && ps[i].1.Some? && x == Entry(escape, ps[i].0, ps[i].1.value)
    ensures QueryPairs(ps, escape) == [] <==> !HasValue(ps)
  {
    if ps != [] {
      var init := ps[..|ps| - 1];
      QueryPairsSpec(init, escape);
      forall i | 0 <= i < |ps| - 1 ensures ps[i] == init[i] { }
      if HasValue(init) {
        var i :| 0 <= i < |init| && init[i].1.Some?;
        assert ps[i] == init[i];
      }
    }
  }

  /** Joining non-empty parts gives a non-empty text. */
  lemma {:induction false} JoinNonEmpty(sep: String, parts: seq<String>)
    requires forall i :: 0 <= i < |parts| ==> parts[i] != []
    ensures Join(sep, parts) == [] <==> parts == []
  {
    if |parts| > 1 {
      assert Join(sep, parts) == Join(sep, parts[..|parts| - 1]) + sep + parts[|parts| - 1];
    }
  }

  /** The query string is empty exactly when every value is null. */
  lemma QueryStringEmpty(ps: Params, escape: String -> String)
    ensures QueryString(ps, escape) == [] <==> !HasValue(ps)
  {
    var pairs := QueryPairs(ps, escape);
    QueryPairsSpec(ps, escape);
    forall i | 0 <= i < |pairs| ensures pairs[i] != [] {
      assert pairs[i] in pairs;
    }
    JoinNonEmpty("&", pairs);
  }

  /** BuildDictionaryQueryString: the foreach over the dictionary. */
  method BuildDictionaryQueryString(ps: Params, escape: String -> String) returns (q: String)
    ensures q == QueryString(ps, escape)
    ensures q == [] <==> !HasValue(ps)
  {
    var queryParams: seq<String> := [];
    var i := 0;
    while i < |ps|
      invariant 0 <= i <= |ps|
      invariant queryParams == QueryPairs(ps[..i], escape)
    {
      assert ps[..i + 1][..i] == ps[..i];
      if ps[i].1.Some? {
        queryParams := queryParams + [Entry(escape, ps[i].0, ps[i].1.value)];
      }
      i := i + 1;
    }
    assert ps[..|ps|] == ps;
    q := Join("&", queryParams);
    QueryStringEmpty(ps, escape);
  }

  /** The url with "?" and the query appended, when there is a query. */
  function WithQuery(url: String, query: String): (r: String)
    ensures query == [] ==> r == url
    ensures query != [] ==> |r| > |url| && r[..|url|] == url && r[|url|] == '?' && r[|url| + 1..] == query
  {
    if query == [] then url else url + "?" + query
  }

  /** BuildDictionaryUrlWithQueryString: a null dictionary, or one with no
      non-null value, leaves the url as it is. */
  method BuildDictionaryUrlWithQueryString(url: String, ps: Option<Params>, escape: String -> String) returns (r: String)
    ensures ps.None? ==> r == url
    ensures ps.Some? ==> r == WithQuery(url, QueryString(ps.value, escape))
    ensures r == url <==> ps.None? || !HasValue(ps.value)
  {
    if ps.None? {
      return url;
    }
    var queryString := BuildDictionaryQueryString(ps.value, escape);
    r := WithQuery(url, queryString);
  }

  /** The endpoint PostUrlAsync posts to: rewritten only for a non-null,
      non-empty form, and even then left alone when every value is null. */
  method PostUrlEndpoint(endpoint: String, formData: Option<Params>, escape: String -> String) returns (r: String)
    ensures formData.None? || formData.value == [] ==> r == endpoint
    ensures r != endpoint <==> formData.Some? && HasValue(formData.value)
    ensures r != endpoint ==> r == endpoint + "?" + QueryString(formData.value, escape)
  {
    r := endpoint;
    if formData.Some? && |formData.value| > 0 {
      r := BuildDictionaryUrlWithQueryString(endpoint, formData, escape);
    }
  }

  // ---------------------------------------------------------------------
  // The request URL of SendJsonAsync

  /** The JSON body SendJsonAsync attaches: only for non-null data and a
      method other than GET and DELETE. The body is the serialised data;
      serialisation is a parameter. */
  function JsonContent(m: HttpMethod, data: Option<Params>, serialize: Params -> String): (r: Option<String>)
    ensures r.Some? <==> data.Some? && m != GET && m != DELETE
  {
    if data.Some? && m != GET && m != DELETE then Some(serialize(data.value)) else None
  }

  /** CreateHttpRequestMessage's URL for a SendJsonAsync request, as
      written: a GET or DELETE carrying a JSON body would have that body's
      dictionary appended as a query string (a flat dictionary reads back
      as itself), but JsonContent never gives GET or DELETE a body. */
  function RequestUrl(endpoint: String, m: HttpMethod, data: Option<Params>, serialize: Params -> String, escape: String -> String): String
  {
    var content := JsonContent(m, data, serialize);
    match data
    case Some(ps) => if (m == GET || m == DELETE) && content.Some? then WithQuery(endpoint, QueryString(ps, escape)) else endpoint
    case None => endpoint
  }

  /** As written, the parameters of GetAsync and DeleteAsync never reach
      the URL. */
  lemma GetDropsParameters(endpoint: String, m: HttpMethod, data: Option<Params>, serialize: Params -> String, escape: String -> String)
    requires m == GET || m == DELETE
    ensures RequestUrl(endpoint, m, data, serialize, escape) == endpoint
  {
  }

  /** GetAsync("todos", {"id": "1"}) requests "todos" itself. */
  lemma GetDropsParametersExample()
    ensures var esc := (s: String) => s;
      && RequestUrl("todos", GET, Some([("id", Some("1"))]), (p: Params) => "", esc) == "todos"
      && RequestUrlIntended("todos", GET, Some([("id", Some("1"))]), esc) == "todos?id=1"
  {
    var esc := (s: String) => s;
    var ps: Params := [("id", Some("1"))];
    assert ps[..0] == [];
    assert Entry(esc, "id", "1") == "id=1";
    assert QueryPairs(ps, esc) == QueryPairs(ps[..0], esc) + [Entry(esc, "id", "1")];
    assert QueryPairs(ps, esc) == ["id=1"];
  }

  /** The URL the query-string branch was meant to produce: GET and DELETE
      carry their non-null parameters as a query string. */
  function RequestUrlIntended(endpoint: String, m: HttpMethod, data: Option<Params>, escape: String -> String): (r: String)
    ensures (m == GET || m == DELETE) && data.Some? && HasValue(data.value) ==>
      r == endpoint + "?" + QueryString(data.value, escape)
      && forall i :: 0 <= i < |data.value| && data.value[i].1.Some? ==>
        Entry(escape, data.value[i].0, data.value[i].1.value) in QueryPairs(data.value, escape)
    ensures m != GET && m != DELETE ==> r == endpoint
  {
    if (m == GET || m == DELETE) && data.Some? then
      QueryStringEmpty(data.value, escape);
      QueryPairsSpec(data.value, escape);
      WithQuery(endpoint, QueryString(data.value, escape))
    else endpoint
  }

  // ---------------------------------------------------------------------
  // Retry

  /** HttpResponseMessage.IsSuccessStatusCode. */
  predicate IsSuccessStatus(status: int)
  {
    200 <= status <= 299
  }

  /** A status the retry loop returns at once: a success or a client error. */
  predicate Settles(status: int)
  {
    IsSuccessStatus(status) || 400 <= status < 500
  }

  predicate SettledAt(outcome: nat -> Attempt, i: nat)
  {
    outcome(i).Answered? && Settles(outcome(i).status)
  }

  /** What the retry loop ends with, from attempt i on, given the last
      response and the last caught exception so far: the result and the
      number of attempts made. Attempt i may throw and be retried only
      while i < max; the last attempt's exception escapes. After the last
      attempt the last response wins over the last exception. */
  function RetryFrom(max: int, outcome: nat -> Attempt, i: nat, last: Option<int>, lastError: Option<Exn>)
    : (r: (Result<int, Exn>, nat))
    ensures i <= r.1 && (i <= max + 1 ==> r.1 <= max + 1)
    ensures r.1 > i ==> r.1 - 1 <= max
    ensures r.0.Ok? && r.1 > i && Settles(r.0.value) ==> SettledAt(outcome, r.1 - 1)
    decreases max + 1 - i
  {
    if i > max then
      (if last.Some? then Ok(last.value)
       else if lastError.Some? then Err(lastError.value)
       else Err(Failed(RetriesExhaustedMessage)), i)
    else match outcome(i)
      case Answered(s) =>
        if Settles(s) then (Ok(s), i + 1) else RetryFrom(max, outcome, i + 1, Some(s), lastError)
      case Threw(e) =>
        if i < max then RetryFrom(max, outcome, i + 1, last, Some(e)) else (Err(e), i + 1)
  }

  /** A step of the retry loop: the delay before a repeated attempt, or
      attempt k itself. */
  datatype RetryStep = Delay | Attempted(k: nat)

  /** The steps of n attempts: the first goes at once, each later one
      after a delay. */
  function Schedule(n: nat): (r: seq<RetryStep>)
    ensures |r| == if n == 0 then 0 else 2 * n - 1
  {
    if n == 0 then []
    else Schedule(n - 1) + (if n > 1 then [Delay] else []) + [Attempted(n - 1)]
  }

  /** Attempt k is step 2k, and every odd step is a delay: the first
      attempt goes at once and each later one follows a delay. */
  lemma {:induction false} ScheduleShape(n: nat)
    ensures forall j :: 0 <= j < |Schedule(n)| ==>
      Schedule(n)[j] == if j % 2 == 0 then Attempted(j / 2) else Delay
  {
    if n > 0 {
      ScheduleShape(n - 1);
      var prev := Schedule(n - 1);
      var tail: seq<RetryStep> := (if n > 1 then [Delay] else []) + [Attempted(n - 1)];
      assert Schedule(n) == prev + tail;
      forall j | 0 <= j < |Schedule(n)|
        ensures Schedule(n)[j] == if j % 2 == 0 then Attempted(j / 2) else Delay
      {
        if j < |prev| {
          assert Schedule(n)[j] == prev[j];
        }
      }
    }
  }

  /** ExecuteWithRetryAsync: up to MaxRetryCount + 1 attempts, waiting
      RetryDelay before each but the first. */
  method ExecuteWithRetry(maxRetryCount: int, outcome: nat -> Attempt)
    returns (r: Result<int, Exn>, ghost attempts: nat, ghost steps: seq<RetryStep>)
    ensures r == RetryFrom(maxRetryCount, outcome, 0, None, None).0
    ensures attempts == RetryFrom(maxRetryCount, outcome, 0, None, None).1
    ensures steps == Schedule(attempts)
  {
    var response: Option<int> := None;
    var lastException: Option<Exn> := None;
    var retryCount: nat := 0;
    steps := [];
    ghost var result := RetryFrom(maxRetryCount, outcome, 0, None, None);
    while retryCount <= maxRetryCount
      invariant retryCount == 0 || retryCount <= maxRetryCount + 1
      invariant result == RetryFrom(maxRetryCount, outcome, retryCount, response, lastException)
      invariant steps == Schedule(retryCount)
      decreases maxRetryCount + 1 - retryCount
    {
      if retryCount > 0 {
        steps := steps + [Delay];
      }
      steps := steps + [Attempted(retryCount)];
      assert steps == Schedule(retryCount + 1);
      var a := outcome(retryCount);
      if a.Answered? {
        if Settles(a.status) {
          assert result == (Ok(a.status), retryCount + 1);
          return Ok(a.status), retryCount + 1, steps;
        }
        assert result == RetryFrom(maxRetryCount, outcome, retryCount + 1, Some(a.status), lastException);
        response := Some(a.status);
      } else if retryCount < maxRetryCount {
        assert result == RetryFrom(maxRetryCount, outcome, retryCount + 1, response, Some(a.error));
        lastException := Some(a.error);
      } else {
        assert result == (Err(a.error), retryCount + 1);
        return Err(a.error), retryCount + 1, steps;
      }
      retryCount := retryCount + 1;
    }
    attempts := retryCount;
    if response.Some? {
      r := Ok(response.value);
    } else if lastException.Some? {
      r := Err(lastException.value);
    } else {
      r := Err(Failed(RetriesExhaustedMessage));
    }
  }

  /** At most MaxRetryCount + 1 attempts, and at least one unless the bound
      is negative; the loop stops at the first success or client error. */
  lemma {:induction false} RetryStopsAtFirstSettled(max: int, outcome: nat -> Attempt, i: nat, last: Option<int>, lastError: Option<Exn>)
    requires i <= max + 1
    ensures var (_, n) := RetryFrom(max, outcome, i, last, lastError);
      && n <= max + 1
      && (i <= max ==> n > i)
      && forall j :: i <= j < n - 1 ==> !SettledAt(outcome, j)
    decreases max + 1 - i
  {
    if i <= max {
      match outcome(i)
      case Answered(s) =>
        if !Settles(s) { RetryStopsAtFirstSettled(max, outcome, i + 1, Some(s), lastError); }
      case Threw(e) =>
        if i < max { RetryStopsAtFirstSettled(max, outcome, i + 1, last, Some(e)); }
    }
  }

  /** A server that keeps answering 5xx is asked MaxRetryCount + 1 times,
      and its last answer is returned. */
  lemma {:induction false} ServerErrorsExhaustRetries(max: int, outcome: nat -> Attempt, i: nat, last: Option<int>)
    requires 0 <= max && i <= max
    requires forall j :: i <= j <= max ==> outcome(j).Answered? && 500 <= outcome(j).status
    ensures RetryFrom(max, outcome, i, last, None) == (Ok(outcome(max).status), max + 1)
    decreases max - i
  {
    if i < max {
      ServerErrorsExhaustRetries(max, outcome, i + 1, Some(outcome(i).status));
    }
  }

  /** HttpClient's refusal to send a request message a second time. */
  const ReusedRequestMessage: String :=
    "The request message was already sent. Cannot send the same request message multiple times."

  /** The attempts of the request-based retry loop as written: it hands
      the same request message to every attempt, so only the first one
      reaches the server and each later one is refused. */
  function ReusedRequest(first: Attempt): nat -> Attempt
  {
    i => if i == 0 then first else Threw(Failed(ReusedRequestMessage))
  }

  /** From the second attempt on, every attempt of a reused request is
      refused, and the last refusal escapes the loop. */
  lemma {:induction false} ReusedRequestRefused(max: int, first: Attempt, i: nat, last: Option<int>, lastError: Option<Exn>)
    requires 1 <= i <= max
    ensures RetryFrom(max, ReusedRequest(first), i, last, lastError) == (Err(Failed(ReusedRequestMessage)), max + 1)
    decreases max - i
  {
    if i < max {
      ReusedRequestRefused(max, first, i + 1, last, Some(Failed(ReusedRequestMessage)));
    }
  }

  /** As written, a request-based retry never retries: when the first
      attempt does not settle and a retry is allowed, the loop ends with
      HttpClient's refusal after MaxRetryCount + 1 attempts, whatever the
      server would have answered. A fresh request per attempt instead
      keeps asking the server (ServerErrorsExhaustRetries). */
  lemma ReusedRequestNeverRetries(max: int, first: Attempt)
    requires 1 <= max && !(first.Answered? && Settles(first.status))
    ensures RetryFrom(max, ReusedRequest(first), 0, None, None) == (Err(Failed(ReusedRequestMessage)), max + 1)
  {
    match first
    case Answered(s) =>
      ReusedRequestRefused(max, first, 1, Some(s), None);
    case Threw(e) =>
      ReusedRequestRefused(max, first, 1, None, Some(e));
  }

  /** A first attempt that settles is the only attempt. */
  lemma SettledFirstAttempt(max: int, outcome: nat -> Attempt)
    requires 0 <= max && SettledAt(outcome, 0)
    ensures RetryFrom(max, outcome, 0, None, None) == (Ok(outcome(0).status), 1)
  {
  }

  // ---------------------------------------------------------------------
  // The client object

  class ApiClient {
    /** ApiClientConfig.BaseUrl; empty by default. */
    var baseUrl: String
    var retryOnFailure: bool
    var maxRetryCount: int
    /** The client's own copy of the default headers. */
    var defaultHeaders: map<String, String>
    /** The underlying HttpClient's default request headers: a name maps
        to the values added under it, in order. */
    var requestHeaders: map<String, seq<String>>
    /** The Authorization header's bearer token, if any. */
    var bearerToken: Option<String>

    /** A new client with the default configuration. */
    constructor ()
      ensures baseUrl == [] && !retryOnFailure && maxRetryCount == 3
      ensures defaultHeaders == map[] && requestHeaders == map[] && bearerToken.None?
    {
      baseUrl := [];
      retryOnFailure := false;
      maxRetryCount := 3;
      defaultHeaders := map[];
      requestHeaders := map[];
      bearerToken := None;
    }

    /** A null or blank URL is refused (ArgumentException) and nothing
        changes. Otherwise the URL is stored in normal form, and only then
        handed to the HTTP client as its base address. `accepted` says
        whether that hand-over succeeds: `new Uri` throws for a URL that is
        not absolute, and the client refuses a new base address once it has
        sent a request. A refusal is an error with the new URL already
        stored. */
    method SetBaseUrl(url: Option<String>, accepted: bool) returns (r: Result<(), String>)
      modifies this`baseUrl
      ensures IsNullOrWhiteSpace(url) ==> r.Err? && baseUrl == old(baseUrl)
      ensures !IsNullOrWhiteSpace(url) ==> baseUrl == NormalizeBaseUrl(url.value) && (r.Ok? <==> accepted)
    {
      if IsNullOrWhiteSpace(url) {
        return Err("Base URL cannot be null or empty");
      }
      baseUrl := TrimSlashes(url.value) + "/";
      if !accepted {
        return Err("The base address was refused");
      }
      r := Ok(());
    }

    method ClearBearerToken()
      modifies this`bearerToken
      ensures bearerToken.None?
    {
      bearerToken := None;
    }

    /** A null or blank token clears the Authorization header. */
    method SetBearerToken(token: Option<String>)
      modifies this`bearerToken
      ensures IsNullOrWhiteSpace(token) ==> bearerToken.None?
      ensures !IsNullOrWhiteSpace(token) ==> bearerToken == token
    {
      if IsNullOrWhiteSpace(token) {
        ClearBearerToken();
        return;
      }
      bearerToken := token;
    }

    /** Inserts or overwrites the client's entry; the HttpClient header
        collection gets the value added beside any earlier ones. */
    method AddDefaultHeader(name: String, value: String)
      modifies this`defaultHeaders, this`requestHeaders
      ensures defaultHeaders == old(defaultHeaders)[name := value]
      ensures requestHeaders == old(requestHeaders)[name :=
        (if name in old(requestHeaders) then old(requestHeaders)[name] else []) + [value]]
    {
      if name in defaultHeaders {
        defaultHeaders := defaultHeaders[name := value];
      } else {
        defaultHeaders := defaultHeaders[name := value];
      }
      var values := if name in requestHeaders then requestHeaders[name] else [];
      requestHeaders := requestHeaders[name := values + [value]];
    }

    /** Removes the header from both collections, only if the client has
        it; other headers are untouched. */
    method RemoveDefaultHeader(name: String)
      modifies this`defaultHeaders, this`requestHeaders
      ensures name in old(defaultHeaders) ==>
        defaultHeaders == old(defaultHeaders) - {name} && requestHeaders == old(requestHeaders) - {name}
      ensures name !in old(defaultHeaders) ==>
        defaultHeaders == old(defaultHeaders) && requestHeaders == old(requestHeaders)
    {
      if name in defaultHeaders {
        defaultHeaders := defaultHeaders - {name};
        requestHeaders := requestHeaders - {name};
      }
    }

    /** SendRawAsync / SendUrlAsync: one send, or the retry loop when
        RetryOnFailure is set, then the response envelope. A cancellation
        or time-out gives 408 "Request timeout"; any other exception gives
        its message with code 0; a failed status carries "HTTP Error
        <status>: <msg>" (the status's name and the error body's message
        are parameters), and with ThrowOnError that message is rethrown
        and caught again as "Request failed: ...". */
    method SendRaw(outcome: nat -> Attempt, throwOnError: bool, statusName: int -> String, bodyMsg: String)
      returns (resp: ApiResponse)
      ensures resp.isSuccess ==> IsSuccessStatus(resp.code) && resp.msg.None?
      ensures (if retryOnFailure then RetryFrom(maxRetryCount, outcome, 0, None, None).0 else SendOnce(outcome(0))) == Err(Canceled)
        ==> resp == ApiResponse(TimeoutCode, false, Some(TimeoutMessage))
      ensures var sent := if retryOnFailure then RetryFrom(maxRetryCount, outcome, 0, None, None).0 else SendOnce(outcome(0));
        && (sent.Ok? ==> resp.code == sent.value && resp.isSuccess == IsSuccessStatus(sent.value))
        && (sent.Ok? && !IsSuccessStatus(sent.value) && !throwOnError ==>
              resp.msg == Some(HttpErrorMessage(statusName(sent.value), bodyMsg)))
        && (sent.Ok? && !IsSuccessStatus(sent.value) && throwOnError ==>
              resp.msg == Some("Request failed: " + HttpErrorMessage(statusName(sent.value), bodyMsg)))
        && (sent.Err? && sent.error.Failed? ==> resp == ApiResponse(0, false, Some(sent.error.message)))
    {
      var sent: Result<int, Exn>;
      if retryOnFailure {
        ghost var n, steps;
        sent, n, steps := ExecuteWithRetry(maxRetryCount, outcome);
      } else {
        sent := SendOnce(outcome(0));
      }
      match sent
      case Err(Canceled) =>
        resp := ApiResponse(TimeoutCode, false, Some(TimeoutMessage));
      case Err(Failed(m)) =>
        resp := ApiResponse(0, false, Some(m));
      case Ok(status) =>
        resp := ProcessResponse(status, statusName, bodyMsg);
        if !resp.isSuccess && throwOnError {
          resp := resp.(msg := Some("Request failed: " + resp.msg.value));
        }
    }
  }

  /** A single send without retry. */
  function SendOnce(a: Attempt): (r: Result<int, Exn>)
    ensures r.Ok? <==> a.Answered?
  {
    match a
    case Answered(s) => Ok(s)
    case Threw(e) => Err(e)
  }

  function HttpErrorMessage(name: String, bodyMsg: String): String
  {
    "HTTP Error " + name + ": " + bodyMsg
  }

  /** ProcessResponseAsync's envelope: the status code, success for 2xx,
      and for a failure the error message. */
  function ProcessResponse(status: int, statusName: int -> String, bodyMsg: String): (r: ApiResponse)
    ensures r.code == status && r.isSuccess == IsSuccessStatus(status)
    ensures r.msg.None? <==> r.isSuccess
    ensures !r.isSuccess ==> r.msg == Some(HttpErrorMessage(statusName(status), bodyMsg))
  {
    if IsSuccessStatus(status) then ApiResponse(status, true, None)
    else ApiResponse(status, false, Some(HttpErrorMessage(statusName(status), bodyMsg)))
  }

  /** Two additions under one name: the client keeps the second value, the
      HttpClient sends both. */
  method AddHeaderTwice(c: ApiClient, name: String, v1: String, v2: String)
    requires name !in c.requestHeaders
    modifies c
    ensures name in c.defaultHeaders && c.defaultHeaders[name] == v2
    ensures name in c.requestHeaders && c.requestHeaders[name] == [v1, v2]
  {
    c.AddDefaultHeader(name, v1);
    c.AddDefaultHeader(name, v2);
  }

  // ---------------------------------------------------------------------
  // JsonDateTimeConverter.Read

  /** DateTime.MinValue and the last millisecond of DateTime.MaxValue, in
      milliseconds since the Unix epoch. */
  const MinValue: int := -62135596800000
  const MaxMillis: int := 253402300799999
  /** Integers above this are read as milliseconds. */
  const MillisThreshold: int := 10000000000

  /** The token the reader stands on. A number carries what TryGetInt64
      and TryGetDouble (truncated to long) give. */
  datatype JsonToken =
    | NumberToken(int64: Option<int>, truncatedDouble: Option<int>)
    | StringToken(text: Option<String>)
    | OtherToken

  /** The instant a Unix timestamp denotes, milliseconds above the
      threshold and seconds otherwise; a value DateTimeOffset cannot
      represent throws, and the reader's catch gives MinValue. */
  function FromUnix(t: int): (r: int)
    ensures MinValue <= r <= MaxMillis
    ensures t > MillisThreshold && t <= MaxMillis ==> r == t
    ensures t <= MillisThreshold && MinValue <= t * 1000 <= MaxMillis ==> r == t * 1000
  {
    if t > MillisThreshold then (if t <= MaxMillis then t else MinValue)
    else if MinValue <= t * 1000 <= MaxMillis then t * 1000
    else MinValue
  }

  /** A timestamp in seconds after 1970-04-26 and its value in
      milliseconds are read as the same instant. */
  lemma SecondsAndMillisAgree(s: int)
    requires 10000000 < s <= MillisThreshold
    ensures FromUnix(s) == FromUnix(s * 1000) == s * 1000
  {
  }

  /** The date formats tried, in order, after the general parse. */
  const Formats: seq<String> := [
    "yyyy-MM-dd HH:mm:ss",
    "yyyy-MM-ddTHH:mm:ss.fffZ",
    "yyyy-MM-ddTHH:mm:ssZ",
    "yyyy-MM-ddTHH:mm:ss",
    "yyyy/MM/dd HH:mm:ss",
    "yyyy-MM-dd",
    "MM/dd/yyyy HH:mm:ss",
    "ddd, dd MMM yyyy HH:mm:ss 'GMT'",
    "ddd, dd MMM yyyy HH:mm:ss 'UTC'",
    "yyyy-MM-dd'T'HH:mm:ss.fffK",
    "yyyy-MM-dd'T'HH:mm:ssK"]

  /** Reads a DateTime. The parsers are parameters: DateTime.TryParse,
      long.TryParse and DateTime.TryParseExact with one format. */
  method Read(token: JsonToken, tryParse: String -> Option<int>, tryParseLong: String -> Option<int>,
              tryParseExact: (String, String) -> Option<int>) returns (d: int)
    ensures token.NumberToken? && token.int64.Some? ==> d == FromUnix(token.int64.value)
    ensures token.NumberToken? && token.int64.None? ==>
      d == if token.truncatedDouble.Some? then FromUnix(token.truncatedDouble.value) else MinValue
    ensures token.OtherToken? || (token.StringToken? && IsNullOrEmpty(token.text)) ==> d == MinValue
    ensures token.StringToken? && !IsNullOrEmpty(token.text) ==>
      var s := token.text.value;
      if tryParse(s).Some? then d == tryParse(s).value
      else if tryParseLong(s).Some? then d == FromUnix(tryParseLong(s).value)
      else if exists j :: 0 <= j < |Formats| && tryParseExact(s, Formats[j]).Some? then
        exists j :: 0 <= j < |Formats| && tryParseExact(s, Formats[j]) == Some(d)
          && forall k :: 0 <= k < j ==> tryParseExact(s, Formats[k]).None?
      else d == MinValue
  {
    match token
    case NumberToken(i64, dbl) =>
      if i64.Some? {
        return FromUnix(i64.value);
      } else if dbl.Some? {
        return FromUnix(dbl.value);
      }
      return MinValue;
    case StringToken(text) =>
      if IsNullOrEmpty(text) {
        return MinValue;
      }
      var s := text.value;
      if tryParse(s).Some? {
        return tryParse(s).value;
      }
      if tryParseLong(s).Some? {
        return FromUnix(tryParseLong(s).value);
      }
      var j := 0;
      while j < |Formats|
        invariant 0 <= j <= |Formats|
        invariant forall k :: 0 <= k < j ==> tryParseExact(s, Formats[k]).None?
      {
        if tryParseExact(s, Formats[j]).Some? {
          return tryParseExact(s, Formats[j]).value;
        }
        j := j + 1;
      }
      return MinValue;
    case OtherToken =>
      return MinValue;
  }
}
