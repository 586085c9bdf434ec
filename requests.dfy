/**
 * The requests the tool sends to the handle server: the session handshake,
 * the page and handle lookups, and the alias rewrite. A request is modelled
 * as a value (verb, URL, headers, JSON body); sending it is not modelled.
 * Every renderer comes with the parser that reads its parts back.
 */
module Requests {
  import opened Wrappers
  import opened Text

  /** A JSON document, before `json.dumps` renders it. */
  datatype Json =
    | JNum(n: int)
    | JStr(s: string)
    | JArr(items: seq<Json>)
    | JObj(fields: seq<(string, Json)>)

  /** What `urllib.request.Request` is given: method, URL, headers in order, and an optional JSON body. */
  datatype Request = Request(verb: string, url: string, headers: seq<(string, string)>, body: Option<Json>)

  /** Header `i` is the first one with the given name. */
  predicate FirstNamed(headers: seq<(string, string)>, name: string, i: int) {
    0 <= i < |headers| && headers[i].0 == name && forall j :: 0 <= j < i ==> headers[j].0 != name
  }

  /** The value of the first header with the given name. */
  function Header(headers: seq<(string, string)>, name: string): (v: Option<string>)
    ensures v.None? <==> forall i :: 0 <= i < |headers| ==> headers[i].0 != name
    ensures v.Some? ==> exists i :: FirstNamed(headers, name, i) && headers[i].1 == v.value
  {
    if headers == [] then None
    else if headers[0].0 == name then
      assert FirstNamed(headers, name, 0);
      Some(headers[0].1)
    else
      var rest := Header(headers[1..], name);
      assert rest.Some? ==> exists i :: FirstNamed(headers, name, i) && headers[i].1 == rest.value by {
        if rest.Some? {
          var i :| FirstNamed(headers[1..], name, i) && headers[1..][i].1 == rest.value;
          assert forall j :: 1 <= j < i + 1 ==> headers[j] == headers[1..][j - 1];
          assert FirstNamed(headers, name, i + 1);
        }
      }
      assert rest.None? ==> forall i :: 1 <= i < |headers| ==> headers[i].0 != name by {
        if rest.None? {
          forall i | 1 <= i < |headers|
            ensures headers[i].0 != name
          {
            assert headers[1..][i - 1] == headers[i];
          }
        }
      }
      rest
  }

  // The Authorization header

  const ClientCertPrefix: string := "Handle clientCert=\"true\", sessionId=\""
  const SessionPrefix: string := "Handle sessionId=\""

  /** Sent once, with the client certificate, to authorize a new session. */
  function ClientCertAuthorization(sessionId: string): (h: string) {
    ClientCertPrefix + sessionId + "\""
  }

  /** Sent with every later request of the session. */
  function SessionAuthorization(sessionId: string): (h: string) {
    SessionPrefix + sessionId + "\""
  }

  /** The scheme an Authorization header uses and the session it names. */
  datatype Authorization = Authorization(clientCert: bool, sessionId: string)

  /** Reads an Authorization header: the quoted session id runs up to the closing quote at the end. */
  function ParseAuthorization(h: string): (a: Option<Authorization>) {
    var c, s := |ClientCertPrefix|, |SessionPrefix|;
    if |h| > c && h[..c] == ClientCertPrefix && h[|h| - 1] == '"' then
      Some(Authorization(true, h[c..|h| - 1]))
    else if |h| > s && h[..s] == SessionPrefix && h[|h| - 1] == '"' then
      Some(Authorization(false, h[s..|h| - 1]))
    else None
  }

  /** Whatever the session id holds, quotes included, the client-certificate header reads back as such. */
  lemma ClientCertAuthorizationRoundTrip(sessionId: string)
    ensures ParseAuthorization(ClientCertAuthorization(sessionId)) == Some(Authorization(true, sessionId))
  {
    var h := ClientCertAuthorization(sessionId);
    var c := |ClientCertPrefix|;
    assert h[..c] == ClientCertPrefix;
    assert h[c..|h| - 1] == sessionId;
  }

  /** The session-only header never reads as a client-certificate one, and gives back its session id. */
  lemma SessionAuthorizationRoundTrip(sessionId: string)
    ensures ParseAuthorization(SessionAuthorization(sessionId)) == Some(Authorization(false, sessionId))
  {
    var h := SessionAuthorization(sessionId);
    var s := |SessionPrefix|;
    assert h[7] == 's' && ClientCertPrefix[7] == 'c';
    assert h[..s] == SessionPrefix;
    assert h[s..|h| - 1] == sessionId;
  }

  /** The scheme and session a request authenticates with, if any. */
  function AuthorizationOf(r: Request): (a: Option<Authorization>) {
    match Header(r.headers, "Authorization")
    case Some(h) => ParseAuthorization(h)
    case None => None
  }

  // The URLs

  /** `{server}/api/handles/{prefix}/{postfix}`: the prefix and postfix are put in as they are. */
  function HandleUrl(server: string, prefix: string, postfix: string): (url: string) {
    server + "/api/handles/" + HandleId(prefix, postfix)
  }

  /** Reads the prefix and postfix back from a handle URL on the given server. */
  function ParseHandleUrl(url: string, server: string): (r: Option<(string, string)>) {
    var head := server + "/api/handles/";
    if |url| < |head| || url[..|head|] != head then None
    else SplitHandle(url[|head|..])
  }

  lemma HandleUrlRoundTrip(server: string, prefix: string, postfix: string)
    requires '/' !in prefix
    ensures ParseHandleUrl(HandleUrl(server, prefix, postfix), server) == Some((prefix, postfix))
  {
    var head := server + "/api/handles/";
    var url := HandleUrl(server, prefix, postfix);
    assert url == head + HandleId(prefix, postfix);
    assert url[..|head|] == head && url[|head|..] == HandleId(prefix, postfix);
    HandleIdRoundTrip(prefix, postfix);
  }

  const AliasQuery: string := "?index=various"

  /** Reads the prefix and alias back from the URL of an alias rewrite. */
  function ParseAliasUrl(url: string, server: string): (r: Option<(string, string)>) {
    var q := |AliasQuery|;
    if |url| < q || url[|url| - q..] != AliasQuery then None
    else ParseHandleUrl(url[..|url| - q], server)
  }

  /** `{server}/api/handles?prefix={prefix}&page={page}&pageSize={size}`. */
  function PageUrl(server: string, prefix: string, page: int, size: int): (url: string) {
    server + "/api/handles?prefix=" + (prefix + "&page=" + (IntToString(page) + "&pageSize=" + IntToString(size)))
  }

  /** Reads `{page}&pageSize={size}`. */
  function ParsePageAndSize(t: string): (r: Option<(int, int)>) {
    var j := FirstIndex(t, '&');
    if j == |t| then None
    else
      var sizePart := t[j + 1..];
      if |sizePart| < 9 || sizePart[..9] != "pageSize=" then None
      else match (ParseInt(t[..j]), ParseInt(sizePart[9..]))
        case (Some(page), Some(size)) => Some((page, size))
        case _ => None
  }

  /** Reads `{prefix}&page={page}&pageSize={size}`; the prefix runs up to the first `&`. */
  function ParsePageQuery(query: string): (r: Option<(string, int, int)>) {
    var i := FirstIndex(query, '&');
    if i == |query| then None
    else
      var rest := query[i + 1..];
      if |rest| < 5 || rest[..5] != "page=" then None
      else match ParsePageAndSize(rest[5..])
        case Some((page, size)) => Some((query[..i], page, size))
        case None => None
  }

  /** Reads the prefix, page and page size back from a page URL on the given server. */
  function ParsePageUrl(url: string, server: string): (r: Option<(string, int, int)>) {
    var head := server + "/api/handles?prefix=";
    if |url| < |head| || url[..|head|] != head then None
    else ParsePageQuery(url[|head|..])
  }

  lemma PageAndSizeRoundTrip(page: int, size: int)
    ensures ParsePageAndSize(IntToString(page) + "&pageSize=" + IntToString(size)) == Some((page, size))
  {
    var p, s := IntToString(page), IntToString(size);
    var sizePart := "pageSize=" + s;
    var t := p + ['&'] + sizePart;
    assert t == IntToString(page) + "&pageSize=" + IntToString(size);
    IntToStringPlain(page);
    FirstIndexAfter(p, '&', sizePart);
    assert t[..|p|] == p && t[|p| + 1..] == sizePart;
    assert sizePart[..9] == "pageSize=" && sizePart[9..] == s;
    IntToStringRoundTrip(page);
    IntToStringRoundTrip(size);
  }

  lemma PageQueryRoundTrip(prefix: string, t: string)
    requires '&' !in prefix
    ensures ParsePageQuery(prefix + "&page=" + t)
         == match ParsePageAndSize(t) case Some((page, size)) => Some((prefix, page, size)) case None => None
  {
    var rest := "page=" + t;
    var query := prefix + ['&'] + rest;
    assert query == prefix + "&page=" + t;
    FirstIndexAfter(prefix, '&', rest);
    assert query[..|prefix|] == prefix && query[|prefix| + 1..] == rest;
    assert rest[..5] == "page=" && rest[5..] == t;
  }

  /** With a prefix free of `&`, the server sees the prefix, page and page size the tool meant. */
  lemma PageUrlRoundTrip(server: string, prefix: string, page: int, size: int)
    requires '&' !in prefix
    ensures ParsePageUrl(PageUrl(server, prefix, page, size), server) == Some((prefix, page, size))
  {
    var head := server + "/api/handles?prefix=";
    var t := IntToString(page) + "&pageSize=" + IntToString(size);
    var query := prefix + "&page=" + t;
    var url := PageUrl(server, prefix, page, size);
    assert url[..|head|] == head && url[|head|..] == query;
    PageQueryRoundTrip(prefix, t);
    PageAndSizeRoundTrip(page, size);
  }

  // The alias body

  /** One entry of a handle record: index, type and `data` with its format and value. */
  datatype HandleValue = HandleValue(index: int, kind: string, format: string, value: string)

  function EncodeValue(v: HandleValue): (j: Json) {
    JObj([("index", JNum(v.index)), ("type", JStr(v.kind)),
          ("data", JObj([("format", JStr(v.format)), ("value", JStr(v.value))]))])
  }

  /** The fields of a JSON object, if they carry exactly the given names in order. */
  predicate Named(j: Json, names: seq<string>) {
    j.JObj? && |j.fields| == |names| && forall i :: 0 <= i < |names| ==> j.fields[i].0 == names[i]
  }

  function DecodeValue(j: Json): (v: Option<HandleValue>) {
    if !Named(j, ["index", "type", "data"]) then None
    else
      var index, kind, data := j.fields[0].1, j.fields[1].1, j.fields[2].1;
      if !(index.JNum? && kind.JStr? && Named(data, ["format", "value"])) then None
      else
        var format, value := data.fields[0].1, data.fields[1].1;
        if format.JStr? && value.JStr? then Some(HandleValue(index.n, kind.s, format.s, value.s))
        else None
  }

  function EncodeValues(vs: seq<HandleValue>): (js: seq<Json>)
    ensures |js| == |vs|
  {
    if vs == [] then [] else [EncodeValue(vs[0])] + EncodeValues(vs[1..])
  }

  function DecodeValues(js: seq<Json>): (decoded: Option<seq<HandleValue>>) {
    if js == [] then Some([])
    else match (DecodeValue(js[0]), DecodeValues(js[1..]))
      case (Some(v), Some(rest)) => Some([v] + rest)
      case _ => None
  }

  /** `{'values': [...]}`: the body of a PUT that replaces handle values. */
  function Body(vs: seq<HandleValue>): (j: Json) {
    JObj([("values", JArr(EncodeValues(vs)))])
  }

  function DecodeBody(j: Json): (vs: Option<seq<HandleValue>>) {
    if Named(j, ["values"]) && j.fields[0].1.JArr? then DecodeValues(j.fields[0].1.items) else None
  }

  lemma {:induction false} ValuesRoundTrip(vs: seq<HandleValue>)
    ensures DecodeValues(EncodeValues(vs)) == Some(vs)
  {
    if vs != [] {
      var js := EncodeValues(vs);
      assert js[0] == EncodeValue(vs[0]) && js[1..] == EncodeValues(vs[1..]);
      ValuesRoundTrip(vs[1..]);
      assert [vs[0]] + vs[1..] == vs;
    }
  }

  /** A body lists exactly the values it was built from, in order. */
  lemma BodyRoundTrip(vs: seq<HandleValue>)
    ensures DecodeBody(Body(vs)) == Some(vs)
  {
    ValuesRoundTrip(vs);
  }

  // The requests

  /** `start_session` first asks for a new session, without any header. */
  function CreateSessionRequest(server: string): (r: Request) {
    Request("POST", server + "/api/sessions", [], None)
  }

  /** `start_session` then authorizes it with the client certificate. */
  function AuthorizeSessionRequest(server: string, sessionId: string): (r: Request) {
    Request("PUT", server + "/api/sessions/this", [("Authorization", ClientCertAuthorization(sessionId))], None)
  }

  /** `delete_session`, run when the command is done. */
  function DeleteSessionRequest(server: string, sessionId: string): (r: Request) {
    Request("DELETE", server + "/api/sessions/this", [("Authorization", SessionAuthorization(sessionId))], None)
  }

  /** `get_page_of_handles`: one page of the handles under the prefix. */
  function PageRequest(server: string, prefix: string, page: int, size: int, sessionId: string): (r: Request) {
    Request("GET", PageUrl(server, prefix, page, size), [("Authorization", SessionAuthorization(sessionId))], None)
  }

  /** `get_handle`: one handle record. */
  function HandleRequest(server: string, prefix: string, postfix: string, sessionId: string): (r: Request) {
    Request("GET", HandleUrl(server, prefix, postfix), [("Authorization", SessionAuthorization(sessionId))], None)
  }

  /** The single value an alias rewrite writes: index 1, type `HS_ALIAS`, pointing at `prefix/target`. */
  function AliasValue(prefix: string, target: string): (v: HandleValue) {
    HandleValue(1, "HS_ALIAS", "string", HandleId(prefix, target))
  }

  /** `rewrite_to_alias`: replace the record of `alias` by one alias value pointing at `target`. */
  function AliasRequest(server: string, prefix: string, alias: string, target: string, sessionId: string): (r: Request) {
    Request("PUT", HandleUrl(server, prefix, alias) + AliasQuery,
            [("Authorization", SessionAuthorization(sessionId)), ("Content-Type", "application/json")],
            Some(Body([AliasValue(prefix, target)])))
  }

  /**
   * Only the authorizing request presents the client certificate scheme; the session
   * is created without authorization, and every later request names the session alone.
   */
  lemma SessionAuthorizations(server: string, prefix: string, postfix: string, target: string,
                              page: int, size: int, sessionId: string)
    ensures AuthorizationOf(CreateSessionRequest(server)).None?
    ensures AuthorizationOf(AuthorizeSessionRequest(server, sessionId)) == Some(Authorization(true, sessionId))
    ensures AuthorizationOf(DeleteSessionRequest(server, sessionId)) == Some(Authorization(false, sessionId))
    ensures AuthorizationOf(PageRequest(server, prefix, page, size, sessionId)) == Some(Authorization(false, sessionId))
    ensures AuthorizationOf(HandleRequest(server, prefix, postfix, sessionId)) == Some(Authorization(false, sessionId))
    ensures AuthorizationOf(AliasRequest(server, prefix, postfix, target, sessionId)) == Some(Authorization(false, sessionId))
  {
    ClientCertAuthorizationRoundTrip(sessionId);
    SessionAuthorizationRoundTrip(sessionId);
  }

  /** A page request, read back by the server, asks for the page and page size the tool meant. */
  lemma PageRequestAsks(server: string, prefix: string, page: int, size: int, sessionId: string)
    requires '&' !in prefix
    ensures ParsePageUrl(PageRequest(server, prefix, page, size, sessionId).url, server) == Some((prefix, page, size))
  {
    PageUrlRoundTrip(server, prefix, page, size);
  }

  /** A handle request names the handle `prefix/postfix`. */
  lemma HandleRequestNames(server: string, prefix: string, postfix: string, sessionId: string)
    requires '/' !in prefix
    ensures ParseHandleUrl(HandleRequest(server, prefix, postfix, sessionId).url, server) == Some((prefix, postfix))
  {
    HandleUrlRoundTrip(server, prefix, postfix);
  }

  /**
   * An alias rewrite is a PUT to the alias handle, sends JSON, and its body holds exactly one
   * value: index 1, an `HS_ALIAS` string whose value splits back into the prefix and the target.
   */
  lemma AliasRequestContents(server: string, prefix: string, alias: string, target: string, sessionId: string)
    requires '/' !in prefix
    ensures var r := AliasRequest(server, prefix, alias, target, sessionId);
      && r.verb == "PUT"
      && ParseAliasUrl(r.url, server) == Some((prefix, alias))
      && Header(r.headers, "Content-Type") == Some("application/json")
      && r.body.Some?
      && DecodeBody(r.body.value) == Some([AliasValue(prefix, target)])
      && var v := AliasValue(prefix, target);
      v.index == 1 && v.kind == "HS_ALIAS" && v.format == "string"
      && SplitHandle(v.value) == Some((prefix, target))
  {
    var r := AliasRequest(server, prefix, alias, target, sessionId);
    var u := HandleUrl(server, prefix, alias);
    var q := |AliasQuery|;
    assert r.url[|r.url| - q..] == AliasQuery && r.url[..|r.url| - q] == u;
    HandleUrlRoundTrip(server, prefix, alias);
    BodyRoundTrip([AliasValue(prefix, target)]);
    HandleIdRoundTrip(prefix, target);
  }
}
