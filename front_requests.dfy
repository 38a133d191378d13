/**
 * The requests the React front end sends to the API when it saves a
 * record, and how the API's request parsing reads them back.
 */
module FrontRequests {
  import opened Text
  import opened Values
  import Utilities

  const ApiRoot := "/library/api/"
  const DebugQuery := "?debug=true"

  /** The query string a debugging session adds to every request. */
  function Debug(debugging: bool): (q: string)
    ensures Utilities.QueryTail(q)
  {
    if debugging then DebugQuery else ""
  }

  datatype Verb = Post | Put

  datatype SaveRequest = SaveRequest(verb: Verb, uri: string)

  /** handleSave(): PUT to the record's own URI when it has an id, POST to the collection otherwise. */
  function SaveRequestFor(endpoint: string, id: Value, debugging: bool): (r: SaveRequest)
    ensures r.verb == Put <==> JsTruthy(id)
    ensures StartsWith(r.uri, ApiRoot + endpoint)
  {
    var slug := if JsTruthy(id) then "/" + JsString(id) else "";
    var uri := ApiRoot + endpoint + slug + Debug(debugging);
    assert uri[..|ApiRoot + endpoint|] == ApiRoot + endpoint;
    SaveRequest(if JsTruthy(id) then Put else Post, uri)
  }

  /** A non-empty path segment with no '/' and no '?'. */
  predicate PathPart(s: string) { |s| > 0 && NoneOf(s, "/?") }

  /** A positive numeric id is a truthy value that makes one path segment. */
  lemma NumericIdPathPart(n: int)
    requires n > 0
    ensures JsTruthy(Int(n)) && PathPart(JsString(Int(n)))
  {
    var s := NatToString(n);
    forall k | 0 <= k < |s| ensures s[k] !in "/?" {
      assert IsDigit(s[k]);
    }
  }

  /** An update is routed by the API to the endpoint and the record it names. */
  lemma UpdateRouted(endpoint: string, id: Value, debugging: bool, recordTypes: map<string, Value>)
    requires PathPart(endpoint) && JsTruthy(id) && PathPart(JsString(id))
    ensures var r := Utilities.ParseRequest(SaveRequestFor(endpoint, id, debugging).uri, recordTypes);
      r.Ok? && r.value.endpoint == Str(endpoint) && r.value.recordId == Str(JsString(id))
  {
    var uri := SaveRequestFor(endpoint, id, debugging).uri;
    SaveUri(endpoint, id, debugging);
    Utilities.ApiRequest(endpoint, JsString(id), Debug(debugging), recordTypes);
  }

  /** The URI of a save request, spelled out. */
  lemma SaveUri(endpoint: string, id: Value, debugging: bool)
    ensures JsTruthy(id) ==>
      SaveRequestFor(endpoint, id, debugging).uri == "/library/api/" + endpoint + "/" + JsString(id) + Debug(debugging)
    ensures !JsTruthy(id) ==>
      SaveRequestFor(endpoint, id, debugging).uri == "/library/api/" + endpoint + Debug(debugging)
  {
  }

  /** A creation is routed by the API to the endpoint, with no record id. */
  lemma CreateRouted(endpoint: string, id: Value, debugging: bool, recordTypes: map<string, Value>)
    requires PathPart(endpoint) && !JsTruthy(id)
    ensures var r := Utilities.ParseRequest(SaveRequestFor(endpoint, id, debugging).uri, recordTypes);
      r.Ok? && r.value.endpoint == Str(endpoint) && r.value.recordId == Null
  {
    SaveUri(endpoint, id, debugging);
    Utilities.ApiCollectionRequest(endpoint, Debug(debugging), recordTypes);
  }
}
