/**
 * The unified `apiRequest` helper every page uses to reach the server:
 * URL upgrade, option and header merge, and the choice between returning
 * the body and throwing an error with a message. `fetch` itself is a
 * parameter.
 */
module Api {
  import opened Wrappers
  import opened JsStrings
  import opened JsJson

  /** An absolute `http://` URL becomes `https://` on a page served over https. */
  function UpgradeUrl(url: string, pageProtocol: string): (r: string)
    ensures pageProtocol == "https:" && StartsWith(url, "http://") ==> r == "https://" + url[7..]
    ensures !(pageProtocol == "https:" && StartsWith(url, "http://")) ==> r == url
  {
    if pageProtocol == "https:" && StartsWith(url, "http://") then "https://" + url[7..] else url
  }

  /** On an https page no request leaves as plain `http://`, and upgrading twice is upgrading once. */
  lemma UpgradeUrlSettles(url: string, pageProtocol: string)
    ensures pageProtocol == "https:" ==> !StartsWith(UpgradeUrl(url, pageProtocol), "http://")
    ensures UpgradeUrl(UpgradeUrl(url, pageProtocol), pageProtocol) == UpgradeUrl(url, pageProtocol)
  {
    var r := UpgradeUrl(url, pageProtocol);
    if StartsWith(url, "http://") && pageProtocol == "https:" {
      assert r[4] == 's';
    }
  }

  /** The caller's options: its `headers` object (if any) and its other members. */
  datatype RequestOptions = RequestOptions(headers: Option<map<string, string>>, fields: map<string, string>)

  /** The options handed to `fetch`. */
  datatype FinalOptions = FinalOptions(headers: map<string, string>, fields: map<string, string>)

  const DefaultHeaders: map<string, string> := map["Content-Type" := "application/json", "Accept" := "application/json"]
  const DefaultFields: map<string, string> := map["credentials" := "same-origin"]

  /**
   * `{...defaultOptions, ...options, headers: {...defaultOptions.headers, ...options.headers}}`:
   * the caller wins key by key, and the defaults fill in the rest.
   */
  function MergeOptions(options: RequestOptions): (f: FinalOptions)
    ensures forall h :: h in f.headers <==> h in DefaultHeaders || (options.headers.Some? && h in options.headers.value)
    ensures options.headers.Some? ==> forall h :: h in options.headers.value ==> f.headers[h] == options.headers.value[h]
    ensures forall h :: h in DefaultHeaders && (options.headers.None? || h !in options.headers.value) ==>
      f.headers[h] == DefaultHeaders[h]
    ensures forall k :: k in f.fields <==> k in DefaultFields || k in options.fields
    ensures forall k :: k in options.fields ==> f.fields[k] == options.fields[k]
    ensures "credentials" !in options.fields ==> f.fields["credentials"] == "same-origin"
  {
    FinalOptions(DefaultHeaders + (if options.headers.Some? then options.headers.value else map[]),
                 DefaultFields + options.fields)
  }

  /** What `fetch` produced: a rejection, or a response whose body may fail to parse (None). */
  datatype FetchOutcome =
    | Rejected
    | Received(ok: bool, status: int, contentType: Option<string>, body: Option<Json>)

  const NetworkErrorMessage := "Network error: Unable to connect to server."
  const InvalidJsonMessage := "Invalid JSON response"
  const NonJsonMessage := "Non-JSON response"

  predicate IsJsonType(contentType: Option<string>) {
    contentType.Some? && Includes(contentType.value, "application/json")
  }

  /** The `data` the helper works with once a response has arrived. */
  function ResponseData(contentType: Option<string>, status: int, body: Option<Json>): (data: Json)
    ensures !IsJsonType(contentType) ==> data == JObj(map["error" := JStr(NonJsonMessage), "status" := JNum(status)])
    ensures IsJsonType(contentType) && body.None? ==> data == ErrorBody(InvalidJsonMessage)
    ensures IsJsonType(contentType) && body.Some? ==> data == body.value
  {
    if IsJsonType(contentType) then
      if body.Some? then body.value else ErrorBody(InvalidJsonMessage)
    else
      JObj(map["error" := JStr(NonJsonMessage), "status" := JNum(status)])
  }

  /** The message of the error thrown for a non-ok response: `data.error` if truthy, else the status. */
  function ErrorMessage(data: Json, status: int): (m: string)
    ensures Truthy(data) && Property(data, "error").Some? && Truthy(Property(data, "error").value) ==>
      m == ToJsString(Property(data, "error").value)
    ensures !(Truthy(data) && Property(data, "error").Some? && Truthy(Property(data, "error").value)) ==>
      m == "HTTP " + IntToString(status)
  {
    var error := Property(data, "error");
    if Truthy(data) && error.Some? && Truthy(error.value) then ToJsString(error.value)
    else "HTTP " + IntToString(status)
  }

  /** How a call to `apiRequest` settles. */
  datatype ApiResult = Returned(data: Json) | Thrown(message: string)

  /** `apiRequest(url, options)` on a page served with `pageProtocol`. */
  method ApiRequest(url: string, options: RequestOptions, pageProtocol: string,
                    fetch: (string, FinalOptions) -> FetchOutcome) returns (r: ApiResult)
    ensures var outcome := fetch(UpgradeUrl(url, pageProtocol), MergeOptions(options));
      && (outcome.Rejected? ==> r == Thrown(NetworkErrorMessage))
      && (outcome.Received? && outcome.ok ==>
            r == Returned(ResponseData(outcome.contentType, outcome.status, outcome.body)))
      && (outcome.Received? && !outcome.ok ==>
            r == Thrown(ErrorMessage(ResponseData(outcome.contentType, outcome.status, outcome.body), outcome.status)))
  {
    var target := url;
    if StartsWith(target, "http://") || StartsWith(target, "https://") {
      if pageProtocol == "https:" && StartsWith(target, "http://") {
        target := ReplaceFirst(target, "http://", "https://");
      }
    }
    var finalOptions := MergeOptions(options);
    var response := fetch(target, finalOptions);
    if response.Rejected? {
      return Thrown(NetworkErrorMessage);
    }
    var contentType := if response.contentType.Some? then response.contentType.value else "";
    var data := JNull;
    if Includes(contentType, "application/json") {
      data := if response.body.Some? then response.body.value else ErrorBody(InvalidJsonMessage);
    } else {
      data := JObj(map["error" := JStr(NonJsonMessage), "status" := JNum(response.status)]);
    }
    if !response.ok {
      return Thrown(ErrorMessage(data, response.status));
    }
    r := Returned(data);
  }

  lemma JsonTypeOfFlask()
    ensures IsJsonType(Some("application/json"))
  {
    IncludesAt("application/json", "application/json", 0);
  }

  /** The server's `{"error": message}` answers reach the caller as the thrown message. */
  lemma ServerErrorReachesCaller(status: int, message: string)
    requires message != []
    ensures ErrorMessage(ResponseData(Some("application/json"), status, Some(ErrorBody(message))), status) == message
  {
    JsonTypeOfFlask();
  }

  /** Any non-JSON error page is reported as `Non-JSON response`, never with its status. */
  lemma NonJsonErrorHidesStatus(contentType: Option<string>, status: int, body: Option<Json>)
    requires !IsJsonType(contentType)
    ensures ErrorMessage(ResponseData(contentType, status, body), status) == NonJsonMessage
  {
  }

  /** The `HTTP <status>` message only arises from a parsed JSON body without a truthy `error`. */
  lemma StatusMessageNeedsJsonBody(contentType: Option<string>, status: int, body: Option<Json>)
    requires ErrorMessage(ResponseData(contentType, status, body), status) == "HTTP " + IntToString(status)
    ensures IsJsonType(contentType) && body.Some?
  {
    var m := "HTTP " + IntToString(status);
    assert m[0] == 'H';
  }

  /** What the page's `apiRequest` name refers to. */
  datatype Helper = UnifiedApiRequest | EarlierHelper

  /** Loading the script installs the helper only where none is defined yet. */
  function Install(existing: Option<Helper>): (r: Option<Helper>)
    ensures existing.Some? ==> r == existing
    ensures existing.None? ==> r == Some(UnifiedApiRequest)
  {
    if existing.Some? then existing else Some(UnifiedApiRequest)
  }

  /** Loading the script again changes nothing. */
  lemma InstallIdempotent(existing: Option<Helper>)
    ensures Install(Install(existing)) == Install(existing)
    ensures Install(existing).Some?
  {
  }
}
