/**
 * The session of one API request: the request path and its parts, who
 * the user is (from the session cookie and the account tables), and the
 * authorization decisions the handlers ask for before changing anything.
 */
module Utilities {
  import opened Text
  import opened Values

  const ApiPath := "/library/api"

  // ---------------------------------------------------------------------
  // The request path
  // ---------------------------------------------------------------------

  /** get_request_uri(): only URIs under the API path are served. */
  function GetRequestUri(uri: string): (r: Result<string>)
    ensures r.Ok? <==> StartsWith(uri, ApiPath)
    ensures r.Ok? ==> r.value == uri
    ensures r.Err? ==> r.error == "unsupported URI"
  {
    if StartsWith(uri, ApiPath) then Ok(uri) else Err("unsupported URI")
  }

  /** load_path_segments(): the path before any '?', without '/' at either end, split at '/'. */
  function LoadPathSegments(uri: string): (segments: seq<string>)
    ensures |segments| >= 1
    ensures forall s :: s in segments ==> IndexOf(s, "/") == -1
  {
    var path := Split(uri, "?")[0];
    SplitPartsFree(Trim(path, IsSlash), "/");
    Split(Trim(path, IsSlash), "/")
  }

  /** `$this->path_segments[2]`: the endpoint, null when the path is too short. */
  function Endpoint(segments: seq<string>): (v: Value)
    ensures v == Null <==> |segments| <= 2
    ensures |segments| > 2 ==> v == Str(segments[2])
  {
    if |segments| > 2 then Str(segments[2]) else Null
  }

  /** `$this->path_segments[3] ?? null`: the record id, if the path has one. */
  function RecordId(segments: seq<string>): (v: Value)
    ensures v == Null <==> |segments| <= 3
    ensures |segments| > 3 ==> v == Str(segments[3])
  {
    if |segments| > 3 then Str(segments[3]) else Null
  }

  /** The parts of a request the handlers dispatch on. */
  datatype Request = Request(uri: string, segments: seq<string>, endpoint: Value, recordId: Value, recordType: Value)

  /** The request as the session constructor reads it; the record type comes from the configuration. */
  function ParseRequest(uri: string, recordTypes: map<string, Value>): (r: Result<Request>)
    ensures r.Err? <==> !StartsWith(uri, ApiPath)
    ensures r.Ok? ==>
      r.value.segments == LoadPathSegments(uri)
      && r.value.endpoint == Endpoint(r.value.segments) && r.value.recordId == RecordId(r.value.segments)
      && (r.value.endpoint.Str? && r.value.endpoint.s in recordTypes ==> r.value.recordType == recordTypes[r.value.endpoint.s])
  {
    match GetRequestUri(uri)
    case Err(e) => Err(e)
    case Ok(u) =>
      var segments := LoadPathSegments(u);
      var endpoint := Endpoint(segments);
      var recordType := if endpoint.Str? && endpoint.s in recordTypes then recordTypes[endpoint.s] else Null;
      Ok(Request(u, segments, endpoint, RecordId(segments), recordType))
  }

  /** The query string, if any, starts with its '?'. */
  predicate QueryTail(tail: string) { tail == [] || tail[0] == '?' }

  /**
   * A path made of non-empty parts free of '/' and '?', with or without
   * a query string, is split back into exactly those parts.
   */
  lemma PathSegmentsRoundTrip(parts: seq<string>, tail: string)
    requires |parts| >= 1
    requires forall k :: 0 <= k < |parts| ==> |parts[k]| > 0 && NoneOf(parts[k], "/?")
    requires QueryTail(tail)
    ensures LoadPathSegments("/" + Join(parts, "/") + tail) == parts
  {
    QueryCut(parts, tail);
    SlashesTrimmed(parts);
    forall k | 0 <= k < |parts| ensures NoneOf(parts[k], "/") {
    }
    SplitJoin(parts, "/");
  }

  /** The path before the query string of such a URI is the '/' and the joined parts. */
  lemma QueryCut(parts: seq<string>, tail: string)
    requires forall k :: 0 <= k < |parts| ==> NoneOf(parts[k], "/?")
    requires QueryTail(tail)
    ensures Split("/" + Join(parts, "/") + tail, "?")[0] == "/" + Join(parts, "/")
  {
    var path := "/" + Join(parts, "/");
    JoinFree(parts, "/?");
    assert NoneOf(path, "?") by {
      forall k | 0 <= k < |path| ensures path[k] !in "?" {
        if k > 0 {
          assert path[k] == Join(parts, "/")[k - 1];
        }
      }
    }
    SplitFirst(path, tail, "?");
  }

  /** Trimming the slashes off the '/' and the joined parts leaves the joined parts. */
  lemma SlashesTrimmed(parts: seq<string>)
    requires |parts| >= 1
    requires forall k :: 0 <= k < |parts| ==> |parts[k]| > 0 && NoneOf(parts[k], "/?")
    ensures Trim("/" + Join(parts, "/"), IsSlash) == Join(parts, "/")
  {
    var inner := Join(parts, "/");
    var path := "/" + inner;
    JoinEnds(parts);
    assert path[1..] == inner;
    assert TrimStart(path, IsSlash) == inner;
    TrimOfTrimmed(inner, IsSlash);
  }

  /** Parts free of some characters, joined at '/', contain no other character of them than the '/'. */
  lemma {:induction false} JoinFree(parts: seq<string>, chars: string)
    requires forall k :: 0 <= k < |parts| ==> NoneOf(parts[k], chars)
    ensures forall k :: 0 <= k < |Join(parts, "/")| ==> Join(parts, "/")[k] == '/' || Join(parts, "/")[k] !in chars
    decreases |parts|
  {
    if |parts| >= 2 {
      JoinFree(parts[1..], chars);
    }
  }

  /** A join of non-empty parts free of '/' neither starts nor ends with '/'. */
  lemma {:induction false} JoinEnds(parts: seq<string>)
    requires |parts| >= 1
    requires forall k :: 0 <= k < |parts| ==> |parts[k]| > 0 && NoneOf(parts[k], "/?")
    ensures var s := Join(parts, "/"); |s| > 0 && s[0] != '/' && s[|s| - 1] != '/'
    decreases |parts|
  {
    assert parts[0][0] !in "/?";
    if |parts| >= 2 {
      JoinEnds(parts[1..]);
    }
  }

  lemma JoinApiPath(endpoint: string, id: string)
    ensures Join(["library", "api", endpoint, id], "/") == "library/api/" + endpoint + "/" + id
  {
    JoinCons(endpoint, [id], "/");
    assert [endpoint, id] == [endpoint] + [id];
    JoinCons("api", [endpoint, id], "/");
    assert ["api", endpoint, id] == ["api"] + [endpoint, id];
    JoinCons("library", ["api", endpoint, id], "/");
    assert ["library", "api", endpoint, id] == ["library"] + ["api", endpoint, id];
  }

  lemma WellFormedParts(endpoint: string, id: string)
    requires |endpoint| > 0 && NoneOf(endpoint, "/?") && |id| > 0 && NoneOf(id, "/?")
    ensures var parts := ["library", "api", endpoint, id];
      forall k :: 0 <= k < |parts| ==> |parts[k]| > 0 && NoneOf(parts[k], "/?")
  {
    assert NoneOf("library", "/?");
    assert NoneOf("api", "/?");
  }

  lemma ApiSegments(endpoint: string, id: string, tail: string)
    requires |endpoint| > 0 && NoneOf(endpoint, "/?") && |id| > 0 && NoneOf(id, "/?")
    requires QueryTail(tail)
    ensures LoadPathSegments("/library/api/" + endpoint + "/" + id + tail) == ["library", "api", endpoint, id]
  {
    var parts := ["library", "api", endpoint, id];
    var inner := Join(parts, "/");
    JoinApiPath(endpoint, id);
    WellFormedParts(endpoint, id);
    PathSegmentsRoundTrip(parts, tail);
    SameUri(endpoint, id, tail, inner);
  }

  lemma SameUri(endpoint: string, id: string, tail: string, inner: string)
    requires inner == "library/api/" + endpoint + "/" + id
    ensures "/library/api/" + endpoint + "/" + id + tail == "/" + inner + tail
  {
  }

  /** "/library/api/{endpoint}/{id}" names that endpoint and that record. */
  lemma ApiRequest(endpoint: string, id: string, tail: string, recordTypes: map<string, Value>)
    requires |endpoint| > 0 && NoneOf(endpoint, "/?") && |id| > 0 && NoneOf(id, "/?")
    requires QueryTail(tail)
    ensures var r := ParseRequest("/library/api/" + endpoint + "/" + id + tail, recordTypes);
      r.Ok? && r.value.endpoint == Str(endpoint) && r.value.recordId == Str(id)
  {
    var uri := "/library/api/" + endpoint + "/" + id + tail;
    ApiSegments(endpoint, id, tail);
    assert uri[..|ApiPath|] == ApiPath;
  }

  lemma JoinCollectionPath(endpoint: string)
    ensures Join(["library", "api", endpoint], "/") == "library/api/" + endpoint
  {
    JoinCons("api", [endpoint], "/");
    assert ["api", endpoint] == ["api"] + [endpoint];
    JoinCons("library", ["api", endpoint], "/");
    assert ["library", "api", endpoint] == ["library"] + ["api", endpoint];
  }

  lemma WellFormedCollectionParts(endpoint: string)
    requires |endpoint| > 0 && NoneOf(endpoint, "/?")
    ensures var parts := ["library", "api", endpoint];
      forall k :: 0 <= k < |parts| ==> |parts[k]| > 0 && NoneOf(parts[k], "/?")
  {
    assert NoneOf("library", "/?");
    assert NoneOf("api", "/?");
  }

  lemma SameCollectionUri(endpoint: string, tail: string, inner: string)
    requires inner == "library/api/" + endpoint
    ensures "/library/api/" + endpoint + tail == "/" + inner + tail
  {
  }

  /** "/library/api/{endpoint}" splits into library, api and the endpoint. */
  lemma CollectionSegments(endpoint: string, tail: string)
    requires |endpoint| > 0 && NoneOf(endpoint, "/?")
    requires QueryTail(tail)
    ensures LoadPathSegments("/library/api/" + endpoint + tail) == ["library", "api", endpoint]
  {
    var parts := ["library", "api", endpoint];
    var inner := Join(parts, "/");
    JoinCollectionPath(endpoint);
    WellFormedCollectionParts(endpoint);
    PathSegmentsRoundTrip(parts, tail);
    SameCollectionUri(endpoint, tail, inner);
  }

  /** "/library/api/{endpoint}" names that endpoint and no record. */
  lemma ApiCollectionRequest(endpoint: string, tail: string, recordTypes: map<string, Value>)
    requires |endpoint| > 0 && NoneOf(endpoint, "/?")
    requires QueryTail(tail)
    ensures var r := ParseRequest("/library/api/" + endpoint + tail, recordTypes);
      r.Ok? && r.value.endpoint == Str(endpoint) && r.value.recordId == Null
  {
    var uri := "/library/api/" + endpoint + tail;
    CollectionSegments(endpoint, tail);
    assert uri[..|ApiPath|] == ApiPath;
  }

  // ---------------------------------------------------------------------
  // The user
  // ---------------------------------------------------------------------

  /** The login_session row of a session cookie. */
  datatype SessionRow = SessionRow(user: Value, last: int, closed: Value)

  /** The login_account row of a user name. */
  datatype AccountRow = AccountRow(id: Value, name: Value, fullname: Value, readonly: Value, status: Value, admin: Value)

  /** Two days, in seconds: an idle session older than this has expired. */
  const SessionLifetime := 60 * 60 * 48

  /** What the User constructor writes back to the session table. */
  datatype SessionWrite = NoWrite | CloseStale | Touch(at: int)

  /** The identity a request runs under. */
  datatype Identity = Identity(id: Value, name: Value, fullname: Value, readonly: bool, admin: bool, active: bool)

  /** The anonymous user: read-only, not an administrator, not active. */
  const Anonymous := Identity(Null, Null, Null, true, false, false)

  /** Before any account exists, requests run as the initialization user. */
  const InitUser := Identity(Int(0), Str("[init]"), Str("Database Initialization"), true, true, true)

  /** A session is live when it was not closed and was active within the lifetime. */
  predicate Live(row: SessionRow, now: int) {
    !PhpTruthy(row.closed) && now - row.last <= SessionLifetime
  }

  /**
   * The User constructor's decision: the initialization user when no
   * account exists; for a live session of a known account, that account;
   * otherwise the anonymous user.
   */
  function ResolveUser(initialized: bool, sessionId: Value, now: int,
                       sessions: Value -> SessionRow, accounts: Value -> Option<AccountRow>): (u: Identity)
    ensures !initialized ==> u == InitUser
    ensures initialized && (!PhpTruthy(sessionId) || !Live(sessions(sessionId), now)) ==> u == Anonymous
    ensures u.active && initialized ==>
      PhpTruthy(sessionId) && Live(sessions(sessionId), now)
      && accounts(sessions(sessionId).user).Some?
      && accounts(sessions(sessionId).user).value.status == Str("Active")
  {
    if !initialized then InitUser
    else if !PhpTruthy(sessionId) then Anonymous
    else
      var row := sessions(sessionId);
      if PhpTruthy(row.closed) || now - row.last > SessionLifetime then Anonymous
      else match accounts(row.user)
        case None => Anonymous
        case Some(a) => Identity(a.id, a.name, a.fullname, a.readonly != Int(0), a.admin == Int(1), a.status == Str("Active"))
  }

  /** The write the constructor makes: a stale session is closed, a live one has its last activity moved to now. */
  function SessionUpdate(initialized: bool, sessionId: Value, now: int, sessions: Value -> SessionRow): (w: SessionWrite)
    ensures w == CloseStale <==>
      initialized && PhpTruthy(sessionId) && !PhpTruthy(sessions(sessionId).closed)
      && now - sessions(sessionId).last > SessionLifetime
    ensures w.Touch? ==> w.at == now && initialized && PhpTruthy(sessionId) && Live(sessions(sessionId), now)
  {
    if !initialized || !PhpTruthy(sessionId) then NoWrite
    else
      var row := sessions(sessionId);
      if PhpTruthy(row.closed) then NoWrite
      else if now - row.last > SessionLifetime then CloseStale
      else Touch(now)
  }

  /** A session idle for exactly two days is still live; one second more and it has expired. */
  lemma SessionLifetimeBoundary(user: Value, last: int)
    ensures Live(SessionRow(user, last, Null), last + 172800)
    ensures !Live(SessionRow(user, last, Null), last + 172801)
  {
  }

  /** An account's flags: only the exact 0 makes it writable, only the exact 1 an administrator. */
  lemma AccountFlags(initialized: bool, sessionId: Value, now: int,
                     sessions: Value -> SessionRow, accounts: Value -> Option<AccountRow>)
    requires initialized && PhpTruthy(sessionId) && Live(sessions(sessionId), now)
    requires accounts(sessions(sessionId).user).Some?
    ensures var a := accounts(sessions(sessionId).user).value;
      var u := ResolveUser(initialized, sessionId, now, sessions, accounts);
      u.name == a.name && (u.readonly <==> a.readonly != Int(0)) && (u.admin <==> a.admin == Int(1))
      && (u.active <==> a.status == Str("Active"))
  {
  }

  class User {
    var id: Value
    var name: Value
    var fullname: Value
    var readonly: bool
    var admin: bool
    var active: bool

    /** The user of a request, decided step by step from the session cookie. */
    constructor(initialized: bool, sessionId: Value, now: int,
                sessions: Value -> SessionRow, accounts: Value -> Option<AccountRow>)
      ensures Identity(id, name, fullname, readonly, admin, active)
        == ResolveUser(initialized, sessionId, now, sessions, accounts)
    {
      id := Null;
      name := Null;
      fullname := Null;
      readonly := true;
      admin := false;
      active := false;
      if !initialized {
        id := Int(0);
        name := Str("[init]");
        fullname := Str("Database Initialization");
        active := true;
        admin := true;
      } else if PhpTruthy(sessionId) {
        var row := sessions(sessionId);
        if PhpTruthy(row.closed) {
        } else if now - row.last > SessionLifetime {
        } else {
          var account := accounts(row.user);
          if account.Some? {
            var a := account.value;
            id := a.id;
            name := a.name;
            fullname := a.fullname;
            readonly := a.readonly != Int(0);
            active := a.status == Str("Active");
            admin := a.admin == Int(1);
          }
        }
      }
    }
  }

  // ---------------------------------------------------------------------
  // Authorization
  // ---------------------------------------------------------------------

  datatype Decision = Allowed | Denied(code: int, message: string)

  /**
   * verify_not_readonly(): three checks in order, the first failing one
   * answering: not logged in (401), account closed (403), read-only (403).
   */
  function VerifyNotReadonly(u: Identity): (d: Decision)
    ensures d == Allowed <==> PhpTruthy(u.name) && u.active && !u.readonly
    ensures !PhpTruthy(u.name) ==> d == Denied(401, "Not logged in")
    ensures PhpTruthy(u.name) && !u.active ==> d == Denied(403, "Account closed")
    ensures PhpTruthy(u.name) && u.active && u.readonly ==> d == Denied(403, "Action forbidden")
  {
    if !PhpTruthy(u.name) then Denied(401, "Not logged in")
    else if !u.active then Denied(403, "Account closed")
    else if u.readonly then Denied(403, "Action forbidden")
    else Allowed
  }

  /** verify_is_admin(): anyone but an administrator is refused. */
  function VerifyIsAdmin(u: Identity): (d: Decision)
    ensures d == Allowed <==> u.admin
    ensures d != Allowed ==> d == Denied(403, "Action forbidden")
  {
    if !u.admin then Denied(403, "Action forbidden") else Allowed
  }

  /**
   * Nobody without a live session of an active, writable account passes
   * verify_not_readonly(), once accounts exist.
   */
  lemma OnlyLiveWritersChange(initialized: bool, sessionId: Value, now: int,
                              sessions: Value -> SessionRow, accounts: Value -> Option<AccountRow>)
    requires initialized
    requires VerifyNotReadonly(ResolveUser(initialized, sessionId, now, sessions, accounts)) == Allowed
    ensures PhpTruthy(sessionId) && Live(sessions(sessionId), now)
    ensures var a := accounts(sessions(sessionId).user);
      a.Some? && a.value.status == Str("Active") && a.value.readonly == Int(0) && PhpTruthy(a.value.name)
  {
  }

  /** The anonymous user is refused as not logged in; the initialization user is refused as read-only. */
  lemma DefaultIdentities()
    ensures VerifyNotReadonly(Anonymous) == Denied(401, "Not logged in")
    ensures VerifyNotReadonly(InitUser) == Denied(403, "Action forbidden")
    ensures VerifyIsAdmin(InitUser) == Allowed && VerifyIsAdmin(Anonymous) != Allowed
  {
  }

  /** delete(): logging out without a session only warns. */
  datatype Reply = Reply(status: string, message: string)

  function Logout(sessionId: Value): (r: Reply)
    ensures !PhpTruthy(sessionId) <==> r == Reply("warning", "Not logged in")
    ensures PhpTruthy(sessionId) ==> r == Reply("success", "Logout successful")
  {
    if !PhpTruthy(sessionId) then Reply("warning", "Not logged in") else Reply("success", "Logout successful")
  }
}
