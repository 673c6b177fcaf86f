/** history_transfer_kk/static/history_transfer_callback.php: the page the
    NeLS Storage file picker sends the user back to. It checks the request,
    rebuilds this server's URL to find the Galaxy root, asks Galaxy's
    webhook (with the user's cookies) who the user is and which history is
    current, posts a transfer request to the NeLS portal, and redirects back
    to Galaxy.

    The two HTTP requests are not modelled: the webhook's reply and the
    portal's failure, if any, are parameters, and the model records which
    requests the page makes. */
module TransferCallback {
  import opened Wrappers
  import opened Text

  datatype Action = Import | Export {
    function Name(): string {
      if Import? then "import" else "export"
    }
  }

  /** The entries of `$_SERVER` that `url_origin` reads; `None` is an unset entry. */
  datatype Server = Server(https: Option<string>, protocol: string, port: string,
                           forwardedHost: Option<string>, httpHost: Option<string>,
                           serverName: string, requestUri: string)

  datatype Cookie = Cookie(name: string, value: string)

  /** `$_GET`, `$_POST`, `$_SERVER` and `$_COOKIE` (in the order PHP lists them). */
  datatype Request = Request(query: map<string, string>, form: map<string, string>,
                             server: Server, cookies: seq<Cookie>)

  const MissingAction := "Missing 'action' GET parameter"
  const WrongAction := "Wrong 'action' parameter. Expected 'import' or 'export' but got '"
  const MissingFiles := "Missing 'selectedFiles' POST parameter"

  predicate KnownAction(a: string) { a == "import" || a == "export" }

  /** The checks at the top of the page as written. The wrong-action message
      interpolates `$action`, which is only assigned further down, so PHP
      reads it as null and writes nothing in its place. */
  function ValidateAsWritten(req: Request): (r: Result<Action>)
    ensures r.Ok? <==> "action" in req.query && KnownAction(req.query["action"]) && "selectedFiles" in req.form
    ensures r.Err? ==> r.error == MissingAction || r.error == WrongAction + "'" || r.error == MissingFiles
  {
    if "action" !in req.query then Err(MissingAction)
    else if !KnownAction(req.query["action"]) then Err(WrongAction + "'")
    else if "selectedFiles" !in req.form then Err(MissingFiles)
    else Ok(if req.query["action"] == "import" then Import else Export)
  }

  /** The checks with the wrong-action message naming the action received. */
  function Validate(req: Request): (r: Result<Action>)
    ensures r.Ok? <==> "action" in req.query && KnownAction(req.query["action"]) && "selectedFiles" in req.form
    ensures r.Ok? ==> r.value.Name() == req.query["action"]
    ensures "action" !in req.query ==> r == Err(MissingAction)
    ensures "action" in req.query && !KnownAction(req.query["action"]) ==>
              r == Err(WrongAction + req.query["action"] + "'")
    ensures "action" in req.query && KnownAction(req.query["action"]) && "selectedFiles" !in req.form ==>
              r == Err(MissingFiles)
  {
    if "action" !in req.query then Err(MissingAction)
    else if !KnownAction(req.query["action"]) then Err(WrongAction + req.query["action"] + "'")
    else if "selectedFiles" !in req.form then Err(MissingFiles)
    else Ok(if req.query["action"] == "import" then Import else Export)
  }

  /** As written, every wrong action gets the same message, so the message
      cannot say what was received; the corrected check tells them apart.
      Both accept and reject the same requests. */
  lemma WrongActionMessage(req1: Request, req2: Request)
    requires "action" in req1.query && "action" in req2.query
    requires !KnownAction(req1.query["action"]) && !KnownAction(req2.query["action"])
    requires req1.query["action"] != req2.query["action"]
    ensures ValidateAsWritten(req1) == ValidateAsWritten(req2)
    ensures Validate(req1) != Validate(req2)
  {
    var a1, a2 := req1.query["action"], req2.query["action"];
    assert (WrongAction + a1 + "'")[|WrongAction|..|WrongAction| + |a1|] == a1;
    assert (WrongAction + a2 + "'")[|WrongAction|..|WrongAction| + |a2|] == a2;
  }

  /** The correction changes nothing but that message. */
  lemma ValidateAgrees(req: Request)
    ensures ValidateAsWritten(req).Ok? <==> Validate(req).Ok?
    ensures Validate(req).Ok? ==> ValidateAsWritten(req) == Validate(req)
    ensures !("action" in req.query && !KnownAction(req.query["action"])) ==>
              ValidateAsWritten(req) == Validate(req)
  {
  }

  /** `$ssl`: `HTTPS` is set, not empty, and `on`. */
  predicate Ssl(s: Server) { s.https == Some("on") }

  /** `$protocol`: the lower-cased `SERVER_PROTOCOL` up to its first `/`
      (nothing when there is no `/`, as `substr` with a `false` length
      gives), plus `s` under SSL. */
  function Protocol(s: Server): string {
    var sp := Lower(s.protocol);
    (if '/' in sp then Before(sp, "/") else "") + (if Ssl(s) then "s" else "")
  }

  /** `$port`: empty for the plain port 80 and the SSL port 443, `:port` otherwise. */
  function PortSuffix(s: Server): string {
    if (!Ssl(s) && s.port == "80") || (Ssl(s) && s.port == "443") then "" else ":" + s.port
  }

  /** `$host`: the forwarded host when asked for and set, else `HTTP_HOST`,
      else `SERVER_NAME` with the port suffix. */
  function Host(s: Server, useForwardedHost: bool): string {
    var h := if useForwardedHost && s.forwardedHost.Some? then s.forwardedHost else s.httpHost;
    if h.Some? then h.value else s.serverName + PortSuffix(s)
  }

  /** `url_origin`: the full URL of the current request. */
  function UrlOrigin(s: Server, useForwardedHost: bool): string {
    Protocol(s) + "://" + Host(s, useForwardedHost) + s.requestUri
  }

  /** The default port of the `http` and `https` schemes (sections 4.2.1 and
      4.2.2 of RFC 9110). */
  function DefaultPort(ssl: bool): string {
    if ssl then "443" else "80"
  }

  /** For an `HTTP/<version>` request the scheme is `https` exactly under SSL. */
  lemma HttpScheme(s: Server, version: string, useForwardedHost: bool)
    requires s.protocol == "HTTP/" + version
    ensures UrlOrigin(s, useForwardedHost) ==
              (if Ssl(s) then "https" else "http") + "://" + Host(s, useForwardedHost) + s.requestUri
  {
    HttpProtocolName(version);
    var scheme := if Ssl(s) then "https" else "http";
    assert Protocol(s) == scheme by {
      assert "http" + "s" == "https" && "http" + "" == "http";
    }
  }

  /** The lower-cased `HTTP/<version>` up to its `/` is `http`. */
  lemma HttpProtocolName(version: string)
    ensures '/' in Lower("HTTP/" + version)
    ensures Before(Lower("HTTP/" + version), "/") == "http"
  {
    var v := Lower(version);
    assert Lower("HTTP/") == "http/" by {
      assert LowerChar('H') == 'h' && LowerChar('T') == 't' && LowerChar('P') == 'p' && LowerChar('/') == '/';
    }
    LowerConcat("HTTP/", version);
    assert Lower("HTTP/" + version) == "http" + ['/'] + v;
    BeforeChar("http", '/', v);
    assert Lower("HTTP/" + version)[4] == '/';
  }

  /** A `SERVER_PROTOCOL` without `/` leaves only the SSL `s` as scheme. */
  lemma ProtocolWithoutSlash(s: Server)
    requires '/' !in s.protocol
    ensures Protocol(s) == (if Ssl(s) then "s" else "")
  {
    var sp := Lower(s.protocol);
    forall i | 0 <= i < |sp| ensures sp[i] != '/' {
      assert s.protocol[i] in s.protocol;
    }
  }

  /** Without a host header to use, the host is the server name, and the
      port is written exactly when it is not the scheme's default. */
  lemma DefaultPortElided(s: Server, useForwardedHost: bool)
    requires !(useForwardedHost && s.forwardedHost.Some?) && s.httpHost.None?
    ensures Host(s, useForwardedHost) ==
              s.serverName + (if s.port == DefaultPort(Ssl(s)) then "" else ":" + s.port)
  {
  }

  /** The host header is preferred to the server name, and the forwarded
      host to both, but only when asked for. */
  lemma HostPreference(s: Server, useForwardedHost: bool)
    ensures useForwardedHost && s.forwardedHost.Some? ==> Host(s, useForwardedHost) == s.forwardedHost.value
    ensures !useForwardedHost && s.httpHost.Some? ==> Host(s, useForwardedHost) == s.httpHost.value
    ensures !useForwardedHost ==> Host(s, useForwardedHost) == Host(s.(forwardedHost := None), true)
  {
  }

  /** `$galaxy_root`: the URL before the first `/static/`. */
  function GalaxyRoot(url: string): string {
    Before(url, "/static/")
  }

  /** The root is a prefix of the URL without `/static/` in it; it is the
      whole URL when that has no `/static/`, and is followed by `/static/`
      otherwise. */
  lemma GalaxyRootSpec(url: string)
    ensures GalaxyRoot(url) <= url
    ensures !HasInfix(GalaxyRoot(url), "/static/")
    ensures !HasInfix(url, "/static/") ==> GalaxyRoot(url) == url
    ensures HasInfix(url, "/static/") ==> StartsWith(url[|GalaxyRoot(url)|..], "/static/")
  {
    BeforeFound(url, "/static/");
  }

  /** `$api_url`: Galaxy's webhook for the action. */
  function WebhookUrl(root: string, action: Action): string {
    root + "/api/webhooks/nels_" + action.Name() + "_history/data"
  }

  /** One cookie in the `Cookie:` header. */
  function CookiePair(c: Cookie): string {
    c.name + "=" + c.value + ";"
  }

  /** `$cookies`: `name=value;` for every cookie, in order. It is empty only
      without cookies, so the header is sent exactly when there are some. */
  function CookieHeader(cookies: seq<Cookie>): (r: string)
    ensures r == "" <==> cookies == []
  {
    if cookies == [] then ""
    else CookieHeader(cookies[..|cookies| - 1]) + CookiePair(cookies[|cookies| - 1])
  }

  /** The `foreach` that builds `$cookies`. */
  method CookieString(cookies: seq<Cookie>) returns (r: string)
    ensures r == CookieHeader(cookies)
  {
    r := "";
    for i := 0 to |cookies|
      invariant r == CookieHeader(cookies[..i])
    {
      assert cookies[..i + 1][..i] == cookies[..i];
      r := r + CookiePair(cookies[i]);
    }
    assert cookies[..|cookies|] == cookies;
  }

  lemma {:induction false} CookieHeaderCons(c: Cookie, cookies: seq<Cookie>)
    ensures CookieHeader([c] + cookies) == CookiePair(c) + CookieHeader(cookies)
    decreases |cookies|
  {
    if cookies != [] {
      var init := cookies[..|cookies| - 1];
      assert ([c] + cookies)[..|cookies|] == [c] + init;
      CookieHeaderCons(c, init);
    } else {
      assert [c] + cookies == [c];
      assert [c][..0] == [];
    }
  }

  /** Reading a `Cookie:` header back into cookies. */
  function ParseCookies(s: string): Option<seq<Cookie>>
    decreases |s|
  {
    if s == [] then Some([])
    else
      var name := Before(s, "=");
      if name == s then None
      else
        var rest := s[|name| + 1..];
        var value := Before(rest, ";");
        if value == rest then None
        else match ParseCookies(rest[|value| + 1..])
          case None => None
          case Some(more) => Some([Cookie(name, value)] + more)
  }

  /** Cookies whose names hold no `=` or `;` and whose values hold no `;`. */
  predicate PlainCookies(cookies: seq<Cookie>) {
    forall i :: 0 <= i < |cookies| ==>
      '=' !in cookies[i].name && ';' !in cookies[i].name && ';' !in cookies[i].value
  }

  /** The header holds every cookie, in order, so plain cookies read back. */
  lemma {:induction false} CookieRoundTrip(cookies: seq<Cookie>)
    requires PlainCookies(cookies)
    ensures ParseCookies(CookieHeader(cookies)) == Some(cookies)
    decreases |cookies|
  {
    if cookies != [] {
      var c, more := cookies[0], cookies[1..];
      assert cookies == [c] + more;
      CookieHeaderCons(c, more);
      var tail := CookieHeader(more);
      var s := CookieHeader(cookies);
      assert s == c.name + ['='] + (c.value + ";" + tail);
      BeforeChar(c.name, '=', c.value + ";" + tail);
      var rest := s[|c.name| + 1..];
      assert rest == c.value + [';'] + tail;
      BeforeChar(c.value, ';', tail);
      assert rest[|c.value| + 1..] == tail;
      assert PlainCookies(more) by {
        assert forall i :: 0 <= i < |more| ==> more[i] == cookies[i + 1];
      }
      CookieRoundTrip(more);
    }
  }

  /** `historyfile`: the first of the comma-separated selected files. */
  function ImportFile(selected: string): string {
    Before(selected, ",")
  }

  /** `historyname`: the last `/` segment of the imported file. */
  function ImportName(selected: string): string {
    AfterLast(ImportFile(selected), '/')
  }

  /** Only the first selected file is imported, and its name is its last path
      segment. */
  lemma ImportFileSpec(selected: string)
    ensures ImportFile(selected) <= selected
    ensures ',' !in ImportFile(selected)
    ensures ',' !in selected ==> ImportFile(selected) == selected
    ensures ',' in selected ==> selected[|ImportFile(selected)|] == ','
    ensures '/' !in ImportName(selected)
    ensures var f, n := ImportFile(selected), ImportName(selected);
      |n| <= |f| && f[|f| - |n|..] == n && (|n| < |f| ==> f[|f| - |n| - 1] == '/')
  {
    var f := ImportFile(selected);
    BeforeCharSpec(selected, ',');
    if ',' !in selected {
      BeforeNoChar(selected, ',');
    }
    AfterLastNoSep(f, '/');
    AfterLastSuffix(f, '/');
  }

  /** A field of the form posted to the portal. */
  datatype Param = Param(key: string, value: string)

  /** What the webhook tells about the user and the current history. */
  datatype WebhookData = WebhookData(username: string, userid: string, email: string,
                                     history: string, historyname: string)

  /** `$fields`, in the order the page fills it. */
  function TransferFields(action: Action, data: WebhookData, root: string, selected: string): seq<Param> {
    [Param("action", action.Name()), Param("user", data.username), Param("userid", data.userid),
     Param("username", data.username), Param("email", data.email), Param("galaxy", root)] +
    (if action.Import? then [Param("historyname", ImportName(selected)), Param("historyfile", ImportFile(selected))]
     else [Param("history", data.history), Param("historyname", data.historyname), Param("nels_directory", selected)])
  }

  /** The value posted under `key`, if any. */
  function Lookup(fields: seq<Param>, key: string): Option<string> {
    if fields == [] then None
    else if fields[0].key == key then Some(fields[0].value)
    else Lookup(fields[1..], key)
  }

  predicate DistinctKeys(fields: seq<Param>) {
    forall i, j :: 0 <= i < j < |fields| ==> fields[i].key != fields[j].key
  }

  /** With distinct keys, each key finds its own field. */
  lemma {:induction false} LookupAt(fields: seq<Param>, i: nat)
    requires i < |fields| && DistinctKeys(fields)
    ensures Lookup(fields, fields[i].key) == Some(fields[i].value)
  {
    if i > 0 {
      assert fields[1..][i - 1] == fields[i];
      LookupAt(fields[1..], i - 1);
    }
  }

  /** A key no field carries finds nothing. */
  lemma {:induction false} LookupMissing(fields: seq<Param>, key: string)
    requires forall i :: 0 <= i < |fields| ==> fields[i].key != key
    ensures Lookup(fields, key) == None
  {
    if fields != [] {
      LookupMissing(fields[1..], key);
    }
  }

  /** The keys are distinct; an import names the first selected file and its
      last segment, an export the current history and the selected
      directory verbatim; the user is reported by user name. */
  lemma TransferFieldsSpec(action: Action, data: WebhookData, root: string, selected: string)
    ensures var f := TransferFields(action, data, root, selected);
      (forall i, j :: 0 <= i < j < |f| ==> f[i].key != f[j].key) &&
      Lookup(f, "action") == Some(action.Name()) &&
      Lookup(f, "user") == Some(data.username) &&
      Lookup(f, "galaxy") == Some(root) &&
      (action.Import? ==>
         Lookup(f, "historyfile") == Some(ImportFile(selected)) &&
         Lookup(f, "historyname") == Some(ImportName(selected)) &&
         Lookup(f, "nels_directory") == None && Lookup(f, "history") == None) &&
      (action.Export? ==>
         Lookup(f, "nels_directory") == Some(selected) &&
         Lookup(f, "history") == Some(data.history) &&
         Lookup(f, "historyname") == Some(data.historyname) &&
         Lookup(f, "historyfile") == None)
  {
    var f := TransferFields(action, data, root, selected);
    TransferFieldsDistinct(action, data, root, selected);
    LookupAt(f, 0);
    LookupAt(f, 1);
    LookupAt(f, 5);
    if action.Import? {
      LookupAt(f, 6);
      LookupAt(f, 7);
      LookupMissing(f, "nels_directory");
      LookupMissing(f, "history");
    } else {
      LookupAt(f, 6);
      LookupAt(f, 7);
      LookupAt(f, 8);
      LookupMissing(f, "historyfile");
    }
  }

  lemma TransferFieldsDistinct(action: Action, data: WebhookData, root: string, selected: string)
    ensures DistinctKeys(TransferFields(action, data, root, selected))
  {
  }

  /** The NeLS portal endpoint the transfer is posted to. */
  const PortalUrl := "https://tare.medisin.ntnu.no/nels_portal/api.php"

  /** The requests the page makes. */
  datatype Call = FetchWebhook(url: string, cookie: Option<string>) | PostTransfer(url: string, fields: seq<Param>)

  /** What the user gets back. */
  datatype Page = ErrorPage(message: string) | Redirect(location: string)

  datatype Response = Response(calls: seq<Call>, page: Page)

  /** The whole page: `webhook` is what the webhook request yields (its error
      page message on failure), `portal` the error message of the transfer
      request, if it fails. */
  function Respond(req: Request, webhook: Result<WebhookData>, portal: Option<string>): Response {
    match Validate(req)
    case Err(m) => Response([], ErrorPage(m))
    case Ok(action) =>
      var root := GalaxyRoot(UrlOrigin(req.server, false));
      var cookies := CookieHeader(req.cookies);
      var fetch := FetchWebhook(WebhookUrl(root, action), if cookies == "" then None else Some(cookies));
      match webhook
      case Err(m) => Response([fetch], ErrorPage(m))
      case Ok(data) =>
        var post := PostTransfer(PortalUrl, TransferFields(action, data, root, req.form["selectedFiles"]));
        Response([fetch, post], if portal.Some? then ErrorPage(portal.value) else Redirect(root))
  }

  /** A rejected request makes no call. Otherwise the webhook is asked first,
      with the cookies exactly when there are some, the transfer is posted
      only after the webhook answered, and the user is sent back to the
      Galaxy root exactly when both requests succeeded. */
  lemma RespondSpec(req: Request, webhook: Result<WebhookData>, portal: Option<string>)
    ensures var r := Respond(req, webhook, portal);
      (Validate(req).Err? ==> r == Response([], ErrorPage(Validate(req).error))) &&
      (Validate(req).Ok? ==>
         |r.calls| >= 1 && r.calls[0].FetchWebhook? &&
         r.calls[0].url == WebhookUrl(GalaxyRoot(UrlOrigin(req.server, false)), Validate(req).value) &&
         (r.calls[0].cookie.None? <==> req.cookies == []) &&
         (|r.calls| == 2 <==> webhook.Ok?)) &&
      (r.page.Redirect? <==> Validate(req).Ok? && webhook.Ok? && portal.None?) &&
      (r.page.Redirect? ==> r.page.location == GalaxyRoot(UrlOrigin(req.server, false)))
  {
  }

  /** The page's main block: the `foreach` over the cookies and `$fields`
      filled entry by entry. */
  method Handle(req: Request, webhook: Result<WebhookData>, portal: Option<string>) returns (r: Response)
    ensures r == Respond(req, webhook, portal)
  {
    var valid := Validate(req);
    if valid.Err? {
      return Response([], ErrorPage(valid.error));
    }
    var action := valid.value;
    var url := UrlOrigin(req.server, false);
    var root := GalaxyRoot(url);
    var apiUrl := WebhookUrl(root, action);
    var cookies := CookieString(req.cookies);
    var fetch := FetchWebhook(apiUrl, if cookies == "" then None else Some(cookies));
    if webhook.Err? {
      return Response([fetch], ErrorPage(webhook.error));
    }
    var data := webhook.value;
    var fields := [];
    fields := fields + [Param("action", action.Name())];
    fields := fields + [Param("user", data.username)];
    fields := fields + [Param("userid", data.userid)];
    fields := fields + [Param("username", data.username)];
    fields := fields + [Param("email", data.email)];
    fields := fields + [Param("galaxy", root)];
    var selected := req.form["selectedFiles"];
    if action == Import {
      var file := Before(selected, ",");
      fields := fields + [Param("historyname", AfterLast(file, '/'))];
      fields := fields + [Param("historyfile", file)];
    } else {
      fields := fields + [Param("history", data.history)];
      fields := fields + [Param("historyname", data.historyname)];
      fields := fields + [Param("nels_directory", selected)];
    }
    assert fields == TransferFields(action, data, root, selected);
    var post := PostTransfer(PortalUrl, fields);
    if portal.Some? {
      return Response([fetch, post], ErrorPage(portal.value));
    }
    return Response([fetch, post], Redirect(root));
  }
}
