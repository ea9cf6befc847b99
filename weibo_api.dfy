/** The request layer of the Weibo mobile client: the `{ok, data, msg}`
    envelope check, request construction (URL, query, header merge), the
    liveness probe, the request parameters of each endpoint, and the
    parsing of the values the client reads out of responses (the image
    path rewrite, the `M_WEIBOCN_PARAMS` container ids, the `weibo` tab).
    The transport is an oracle: a request is answered by a `Transport`
    value supplied by the caller. */
module WeiboApi {
  import opened Wrappers
  import opened Text
  import opened JsValue

  const Host: string := "https://m.weibo.cn"
  const ImageAgentHost: string := "https://i1.wp.com/"

  /** Query parameters as handed to `URLSearchParams`, in insertion order;
      their form-urlencoded serialisation is left to the transport. */
  type Query = seq<(string, Json)>

  datatype HttpRequest = HttpRequest(
    verb: string,
    url: string,
    query: Option<Query>,
    headers: map<string, string>,
    timeoutMs: int)

  /** What the transport hands back for a request. */
  datatype Response = Response(statusText: string, body: Json, setCookie: Option<seq<string>>)

  /** The oracle's answer to one request: a response, or a rejected promise
      (network failure, timeout, non-2xx status). */
  datatype Transport = Replied(response: Response) | Rejected(reason: string)

  /** What `request` resolves to: the raw response when it was asked for,
      otherwise the unwrapped `data` of the envelope. */
  datatype Reply = Raw(response: Response) | Data(data: Json)

  // ---------------------------------------------------------------------
  // The envelope
  // ---------------------------------------------------------------------

  predicate OkCode(body: Json) {
    Get(body, "ok") == JNum(0) || Get(body, "ok") == JNum(1)
  }

  /** The envelope check of `request`: a body whose `ok` is neither 0 nor 1
      is refused with `msg` (or "unknown error"); otherwise the payload is
      `data`, or `{}` when `data` is absent or falsy. The payload is
      therefore never falsy. */
  function DecodeEnvelope(body: Json): (r: Result<Json, Exception>)
    ensures r.Success? <==> OkCode(body)
    ensures r.Success? ==> Truthy(r.value)
    ensures r.Success? && Truthy(Get(body, "data")) ==> r.value == Get(body, "data")
    ensures r.Success? && !Truthy(Get(body, "data")) ==> r.value == JObj(map[])
    ensures r.Failure? ==> r.error.DataFetchError? && Truthy(r.error.message)
    ensures r.Failure? && Truthy(Get(body, "msg")) ==> r.error.message == Get(body, "msg")
    ensures r.Failure? && !Truthy(Get(body, "msg")) ==> r.error.message == JStr("unknown error")
  {
    if !OkCode(body) then Failure(DataFetchError(Or(Get(body, "msg"), JStr("unknown error"))))
    else Success(Or(Get(body, "data"), JObj(map[])))
  }

  /** The platform's envelope as a JSON object; absent fields are left out. */
  function Envelope(ok: int, data: Option<Json>, msg: Option<Json>): (body: Json)
    ensures body.JObj? && Get(body, "ok") == JNum(ok)
  {
    JObj(map["ok" := JNum(ok)]
      + (if data.Some? then map["data" := data.value] else map[])
      + (if msg.Some? then map["msg" := msg.value] else map[]))
  }

  /** Decoding an envelope the platform built gives back its payload when
      `ok` is 0 or 1, and its message otherwise. */
  lemma EnvelopeRoundTrip(ok: int, data: Option<Json>, msg: Option<Json>)
    ensures (ok == 0 || ok == 1) && data.Some? && Truthy(data.value) ==>
      DecodeEnvelope(Envelope(ok, data, msg)) == Success(data.value)
    ensures (ok == 0 || ok == 1) && data.None? ==>
      DecodeEnvelope(Envelope(ok, data, msg)) == Success(JObj(map[]))
    ensures ok != 0 && ok != 1 && msg.Some? && Truthy(msg.value) ==>
      DecodeEnvelope(Envelope(ok, data, msg)) == Failure(DataFetchError(msg.value))
    ensures ok != 0 && ok != 1 && msg.None? ==>
      DecodeEnvelope(Envelope(ok, data, msg)) == Failure(DataFetchError(JStr("unknown error")))
  {
    var body := Envelope(ok, data, msg);
    assert data.Some? ==> Get(body, "data") == data.value;
    assert data.None? ==> "data" !in body.fields;
    assert msg.Some? ==> Get(body, "msg") == msg.value;
    assert msg.None? ==> "msg" !in body.fields;
  }

  /** `request`: a rejection is passed on unchanged; with `return_response`
      the response comes back unchecked; otherwise the envelope decides. */
  function Request(reply: Transport, returnResponse: bool): (r: Result<Reply, Exception>)
    ensures reply.Rejected? ==> r == Failure(NetworkError(reply.reason))
    ensures reply.Replied? && returnResponse ==> r == Success(Raw(reply.response))
    ensures reply.Replied? && !returnResponse ==>
      (r.Success? <==> OkCode(reply.response.body))
    ensures reply.Replied? && !returnResponse && r.Failure? ==>
      r.error == DecodeEnvelope(reply.response.body).error
    ensures !returnResponse && r.Success? ==>
      r.value.Data? && r.value.data == DecodeEnvelope(reply.response.body).value && Truthy(r.value.data)
  {
    match reply
    case Rejected(reason) => Failure(NetworkError(reason))
    case Replied(resp) =>
      if returnResponse then Success(Raw(resp))
      else
        match DecodeEnvelope(resp.body)
        case Failure(e) => Failure(e)
        case Success(d) => Success(Data(d))
  }

  // ---------------------------------------------------------------------
  // Building requests
  // ---------------------------------------------------------------------

  /** `{ ...base, ...custom }` when custom headers are given, else `base`. */
  function MergeHeaders(base: map<string, string>, custom: Option<map<string, string>>): (r: map<string, string>)
    ensures custom.None? ==> r == base
    ensures custom.Some? ==> r.Keys == base.Keys + custom.value.Keys
    ensures custom.Some? ==> forall k :: k in custom.value ==> r[k] == custom.value[k]
    ensures custom.Some? ==> forall k :: k in base && k !in custom.value ==> r[k] == base[k]
  {
    if custom.Some? then base + custom.value else base
  }

  /** `get`: a GET of the host plus `uri`, the query given separately, the
      client's headers merged with the custom ones, and the client's timeout
      in milliseconds. */
  function GetRequest(headers: map<string, string>, timeout: int, uri: string,
                      params: Option<Query>, custom: Option<map<string, string>>): (r: HttpRequest)
    ensures r.verb == "GET" && r.url == Host + uri && r.query == params
    ensures r.headers == MergeHeaders(headers, custom)
    ensures r.timeoutMs == timeout * 1000
  {
    HttpRequest("GET", Host + uri, params, MergeHeaders(headers, custom), timeout * 1000)
  }

  /** The first value given for `name` in a query, as `URLSearchParams.get`
      would find it. */
  function QueryValue(q: Option<Query>, name: string): (r: Option<Json>)
    ensures q.None? ==> r.None?
    ensures r.None? && q.Some? ==> forall i :: 0 <= i < |q.value| ==> q.value[i].0 != name
    ensures r.Some? ==> exists i :: 0 <= i < |q.value| && q.value[i] == (name, r.value)
    decreases if q.Some? then |q.value| else 0
  {
    if q.None? || |q.value| == 0 then None
    else if q.value[0].0 == name then Some(q.value[0].1)
    else
      var rest := QueryValue(Some(q.value[1..]), name);
      assert forall i :: 1 <= i < |q.value| ==> q.value[i] == q.value[1..][i - 1];
      rest
  }

  /** A name first given at position `i` reads as the value there. */
  lemma {:induction false} QueryValueAt(q: Query, i: nat, name: string)
    requires i < |q| && q[i].0 == name
    requires forall j :: 0 <= j < i ==> q[j].0 != name
    ensures QueryValue(Some(q), name) == Some(q[i].1)
    decreases i
  {
    if i > 0 {
      QueryValueAt(q[1..], i - 1, name);
    }
  }

  /** The request `pong` sends. */
  function PongRequest(headers: map<string, string>, timeout: int): (r: HttpRequest)
    ensures r.url == Host + "/api/config" && r.query.None? && r.headers == headers
  {
    HttpRequest("GET", Host + "/api/config", None, headers, timeout * 1000)
  }

  /** `pong` never throws: it is true exactly when the reply carries a
      valid envelope whose `data` has a truthy `login`, and false for a
      rejection, a refused envelope or a missing login. */
  function Pong(reply: Transport): (alive: bool)
    ensures alive <==>
      reply.Replied? && OkCode(reply.response.body)
      && Truthy(Get(Get(reply.response.body, "data"), "login"))
  {
    match Request(reply, false)
    case Failure(_) => false
    case Success(r) => Truthy(Get(r.data, "login"))
  }

  /** The request `getNoteByKeyword` sends for one result page. */
  function KeywordRequest(headers: map<string, string>, timeout: int, keyword: string,
                          page: Json, searchType: string): (r: HttpRequest)
    ensures r.url == Host + "/api/container/getIndex" && r.headers == headers
    ensures QueryValue(r.query, "containerid") == Some(JStr("100103type=" + searchType + "&q=" + keyword))
    ensures QueryValue(r.query, "page") == Some(page)
  {
    var q := [("containerid", JStr("100103type=" + searchType + "&q=" + keyword)),
              ("page_type", JStr("searchall")),
              ("page", page)];
    QueryValueAt(q, 0, "containerid");
    QueryValueAt(q, 2, "page");
    GetRequest(headers, timeout, "/api/container/getIndex", Some(q), None)
  }

  /** The query of `getNoteComments`: `max_id` joins the fixed parameters
      only when the cursor compares greater than 0. */
  function CommentsQuery(midId: string, maxId: Json): Query {
    CursorQuery(midId, maxId, GreaterThan(maxId, 0))
  }

  function CursorQuery(midId: string, maxId: Json, send: bool): Query {
    [("id", JStr(midId)), ("mid", JStr(midId)), ("max_id_type", JNum(0))]
    + (if send then [("max_id", maxId)] else [])
  }

  /** The request `getNoteComments` sends, with the note's detail page as
      `Referer` on top of the client's headers. */
  function NoteCommentsRequest(headers: map<string, string>, timeout: int, midId: string, maxId: Json): (r: HttpRequest)
    ensures r.url == Host + "/comments/hotflow"
    ensures r.headers == headers["Referer" := "https://m.weibo.cn/detail/" + midId]
    ensures QueryValue(r.query, "id") == Some(JStr(midId))
    ensures QueryValue(r.query, "mid") == Some(JStr(midId))
  {
    GetRequest(headers, timeout, "/comments/hotflow", Some(CommentsQuery(midId, maxId)),
      Some(headers["Referer" := "https://m.weibo.cn/detail/" + midId]))
  }

  /** `max_id` is sent exactly when the cursor is positive, and then it is
      the cursor itself. */
  lemma CursorSentOnlyWhenPositive(headers: map<string, string>, timeout: int, midId: string, maxId: Json)
    ensures QueryValue(NoteCommentsRequest(headers, timeout, midId, maxId).query, "max_id")
      == if GreaterThan(maxId, 0) then Some(maxId) else None
  {
    CursorSent(midId, maxId, GreaterThan(maxId, 0));
  }

  lemma CursorSent(midId: string, maxId: Json, send: bool)
    ensures QueryValue(Some(CursorQuery(midId, maxId, send)), "max_id") == if send then Some(maxId) else None
  {
    var q := CursorQuery(midId, maxId, send);
    assert q[0].0 != "max_id" && q[1].0 != "max_id" && q[2].0 != "max_id";
    if send {
      QueryValueAt(q, 3, "max_id");
    } else {
      QueryValueAbsent(q, "max_id");
    }
  }

  /** A name the query does not give reads as missing. */
  lemma {:induction false} QueryValueAbsent(q: Query, name: string)
    requires forall j :: 0 <= j < |q| ==> q[j].0 != name
    ensures QueryValue(Some(q), name) == None
    decreases |q|
  {
    if |q| > 0 {
      QueryValueAbsent(q[1..], name);
    }
  }

  /** The request `getNotesByCreator` sends for one timeline page. */
  function CreatorNotesRequest(headers: map<string, string>, timeout: int, creator: string,
                               containerId: string, sinceId: Json): (r: HttpRequest)
    ensures r.url == Host + "/api/container/getIndex" && r.headers == headers
    ensures QueryValue(r.query, "value") == Some(JStr(creator))
    ensures QueryValue(r.query, "containerid") == Some(JStr(containerId))
    ensures QueryValue(r.query, "since_id") == Some(sinceId)
  {
    var q := [("jumpfrom", JStr("weibocom")), ("type", JStr("uid")), ("value", JStr(creator)),
              ("containerid", JStr(containerId)), ("since_id", sinceId)];
    QueryValueAt(q, 2, "value");
    QueryValueAt(q, 3, "containerid");
    QueryValueAt(q, 4, "since_id");
    GetRequest(headers, timeout, "/api/container/getIndex", Some(q), None)
  }

  /** The request `getCreatorInfoById` sends for the creator's profile. */
  function CreatorInfoRequest(headers: map<string, string>, timeout: int, creator: string,
                              fid: string): (r: HttpRequest)
    ensures r.url == Host + "/api/container/getIndex" && r.headers == headers
    ensures QueryValue(r.query, "value") == Some(JStr(creator))
    ensures QueryValue(r.query, "containerid") == Some(JStr(fid))
  {
    var q := [("jumpfrom", JStr("weibocom")), ("type", JStr("uid")), ("value", JStr(creator)),
              ("containerid", JStr(fid))];
    QueryValueAt(q, 2, "value");
    QueryValueAt(q, 3, "containerid");
    GetRequest(headers, timeout, "/api/container/getIndex", Some(q), None)
  }

  // ---------------------------------------------------------------------
  // Image path rewrite
  // ---------------------------------------------------------------------

  /** The image URL with a leading `https://` removed. */
  function StripHttps(url: string): (r: string)
    ensures StartsWith(url, "https://") ==> url == "https://" + r
    ensures !StartsWith(url, "https://") ==> r == url
  {
    if StartsWith(url, "https://") then url[8..] else url
  }

  /** What the loop of `getNoteImage` appends for segment `i`. */
  function PathPiece(segs: seq<string>, i: nat): string
    requires i < |segs|
  {
    if i == 1 then "large/"
    else if i == |segs| - 1 then segs[i]
    else segs[i] + "/"
  }

  /** What the loop has built after its first `n` rounds. */
  function PathPieces(segs: seq<string>, n: nat): string
    requires n <= |segs|
  {
    if n == 0 then "" else PathPieces(segs, n - 1) + PathPiece(segs, n - 1)
  }

  /** The path the image proxy is asked for: the segments joined by `/`
      with segment 1 replaced by `large`, except that with exactly two
      segments the file name is dropped and the path ends in `large/`. */
  function LargeImagePath(segs: seq<string>): string
    requires |segs| >= 1
  {
    if |segs| == 1 then segs[0]
    else if |segs| == 2 then segs[0] + "/large/"
    else Join(segs[1 := "large"], "/")
  }

  /** The loop's result is the closed form. */
  lemma {:induction false} PathPiecesAreLargePath(segs: seq<string>)
    requires |segs| >= 1
    ensures PathPieces(segs, |segs|) == LargeImagePath(segs)
  {
    if |segs| == 1 {
      assert PathPiece(segs, 0) == segs[0];
      assert PathPieces(segs, 1) == "" + segs[0];
    } else if |segs| == 2 {
      assert PathPiece(segs, 0) == segs[0] + "/";
      assert PathPieces(segs, 1) == "" + (segs[0] + "/");
      assert PathPieces(segs, 2) == PathPieces(segs, 1) + "large/";
    } else {
      LongPathPieces(segs);
    }
  }

  lemma {:induction false} LongPathPieces(segs: seq<string>)
    requires |segs| >= 3
    ensures PathPieces(segs, |segs|) == Join(segs[1 := "large"], "/")
  {
    var n := |segs|;
    var t := segs[1 := "large"];
    MiddlePieces(segs, n - 1);
    assert PathPieces(segs, n) == PathPieces(segs, n - 1) + segs[n - 1];
    JoinLast(t[..n - 1], t[n - 1]);
    assert t[..n - 1] + [t[n - 1]] == t;
  }

  /** Before the last round, the loop has written the first `n` segments
      (segment 1 as `large`) each followed by `/`. */
  lemma {:induction false} MiddlePieces(segs: seq<string>, n: nat)
    requires 2 <= n < |segs|
    ensures PathPieces(segs, n) == Join(segs[1 := "large"][..n], "/") + "/"
  {
    var t := segs[1 := "large"];
    if n == 2 {
      assert PathPieces(segs, 1) == segs[0] + "/";
      assert t[..2][1..] == ["large"];
    } else {
      MiddlePieces(segs, n - 1);
      JoinLast(t[..n - 1], t[n - 1]);
      assert t[..n - 1] + [t[n - 1]] == t[..n];
    }
  }

  lemma {:induction false} JoinLast(parts: seq<string>, last: string)
    requires |parts| >= 1
    ensures Join(parts + [last], "/") == Join(parts, "/") + "/" + last
    decreases |parts|
  {
    if |parts| == 1 {
      assert (parts + [last])[1..] == [last];
    } else {
      JoinLast(parts[1..], last);
      assert (parts + [last])[1..] == parts[1..] + [last];
    }
  }

  /** The proxy URL for an image. */
  function ImageUri(imageUrl: string): (r: string)
    ensures StartsWith(r, ImageAgentHost)
  {
    ImageAgentHost + LargeImagePath(Split(StripHttps(imageUrl), '/'))
  }

  /** A typical three-segment image URL keeps its file name and has the
      size segment replaced by `large`. */
  lemma ThreeSegmentImage(host: string, size: string, file: string)
    requires '/' !in host && '/' !in size && '/' !in file
    ensures ImageUri("https://" + host + "/" + size + "/" + file)
      == ImageAgentHost + host + "/large/" + file
  {
    var url := "https://" + host + "/" + size + "/" + file;
    ThreeSegments(host, size, file);
    LargeThreeSegments(host, size, file);
    assert ImageUri(url) == ImageAgentHost + (host + "/large/" + file);
  }

  /** Three segments give the first and last around `large`. */
  lemma LargeThreeSegments(host: string, size: string, file: string)
    ensures LargeImagePath([host, size, file]) == host + "/large/" + file
  {
    assert [host, size, file][1 := "large"] == [host, "large", file];
    JoinThree(host, "large", file, "/");
    assert host + "/" + "large" + "/" + file == host + "/large/" + file;
  }

  /** The segments of a three-segment `https` URL. */
  lemma ThreeSegments(host: string, size: string, file: string)
    requires '/' !in host && '/' !in size && '/' !in file
    ensures Split(StripHttps("https://" + host + "/" + size + "/" + file), '/') == [host, size, file]
  {
    var url := "https://" + host + "/" + size + "/" + file;
    var path := host + "/" + size + "/" + file;
    assert StripHttps(url) == path by {
      assert url[..8] == "https://";
      assert url[8..] == path;
    }
    JoinThree(host, size, file, "/");
    SplitJoin([host, size, file], '/');
  }

  /** With exactly two segments the file name is lost. */
  lemma TwoSegmentImage(host: string, file: string)
    requires '/' !in host && '/' !in file
    ensures ImageUri("https://" + host + "/" + file) == ImageAgentHost + host + "/large/"
  {
    var url := "https://" + host + "/" + file;
    assert StripHttps(url) == host + "/" + file by {
      assert url[..8] == "https://";
      assert url[8..] == host + "/" + file;
    }
    var segs := [host, file];
    assert Join(segs[1..], "/") == file;
    assert Join(segs, "/") == host + "/" + file;
    SplitJoin(segs, '/');
  }

  // ---------------------------------------------------------------------
  // Container ids from the M_WEIBOCN_PARAMS Set-Cookie entry
  // ---------------------------------------------------------------------

  const ContainerFailed: Exception := DataFetchError(JStr("get containerid failed"))

  datatype ContainerInfo = ContainerInfo(fid: string, lfid: string)

  /** `header.split(';')[0].split('=')[1]`; when the first piece has no
      `=` that is `undefined`, which `decodeURIComponent` turns into the
      text "undefined". */
  function ParamsCookieValue(header: string): (r: string)
    ensures '=' !in Split(header, ';')[0] ==> r == "undefined"
  {
    var kv := Split(Split(header, ';')[0], '=');
    SplitLength(Split(header, ';')[0], '=');
    if |kv| >= 2 then kv[1] else "undefined"
  }

  /** One `name=value` pair of form-urlencoded text: the name runs to the
      first `=`, the value is the rest (empty when there is no `=`). */
  function FormPair(piece: string): (p: (string, string))
    ensures '=' !in p.0
  {
    match IndexOf(piece, "=")
    case None =>
      assert forall j :: 0 <= j < |piece| ==> !StartsWith(piece[j..], "=");
      assert forall j :: 0 <= j < |piece| ==> piece[j..][..1] == [piece[j]];
      (piece, "")
    case Some(i) =>
      assert forall j :: 0 <= j < i ==> piece[j..][..1] == [piece[j]];
      (piece[..i], piece[i + 1..])
  }

  /** The pairs `URLSearchParams` reads from a string: a leading `?` is
      dropped, the text is split on `&` and empty pieces are skipped. */
  function FormPairs(pieces: seq<string>): seq<(string, string)>
    decreases |pieces|
  {
    if |pieces| == 0 then []
    else (if pieces[0] == "" then [] else [FormPair(pieces[0])]) + FormPairs(pieces[1..])
  }

  function FormText(s: string): string {
    if StartsWith(s, "?") then s[1..] else s
  }

  /** `new URLSearchParams(s).get(name)`: the value of the first pair with
      that name. Percent-decoding and `+` are not interpreted. */
  function FormGet(s: string, name: string): Option<string> {
    FirstValue(FormPairs(Split(FormText(s), '&')), name)
  }

  function FirstValue(pairs: seq<(string, string)>, name: string): (r: Option<string>)
    ensures r.Some? ==> exists i :: 0 <= i < |pairs| && pairs[i] == (name, r.value)
    ensures r.None? ==> forall i :: 0 <= i < |pairs| ==> pairs[i].0 != name
    decreases |pairs|
  {
    if |pairs| == 0 then None
    else if pairs[0].0 == name then Some(pairs[0].1)
    else
      assert forall i :: 1 <= i < |pairs| ==> pairs[i] == pairs[1..][i - 1];
      FirstValue(pairs[1..], name)
  }

  /** The form-urlencoded text of name/value pairs, without escaping. */
  function FormEncode(pairs: seq<(string, string)>): string {
    Join(seq(|pairs|, i requires 0 <= i < |pairs| => pairs[i].0 + "=" + pairs[i].1), "&")
  }

  predicate PlainPair(p: (string, string)) {
    p.0 != "" && '=' !in p.0 && '&' !in p.0 && '&' !in p.1 && p.0 != "?"
  }

  /** Reading back encoded pairs finds, for every name, the value of its
      first occurrence. */
  lemma FormRoundTrip(pairs: seq<(string, string)>, name: string)
    requires |pairs| >= 1
    requires forall i :: 0 <= i < |pairs| ==> PlainPair(pairs[i])
    requires !StartsWith(pairs[0].0, "?")
    ensures FormGet(FormEncode(pairs), name) == FirstValue(pairs, name)
  {
    var pieces := seq(|pairs|, i requires 0 <= i < |pairs| => pairs[i].0 + "=" + pairs[i].1);
    var s := FormEncode(pairs);
    assert FormText(s) == s by {
      JoinHead(pieces, "&");
      assert s[..|pieces[0]|] == pieces[0];
      assert pieces[0][..|pairs[0].0|] == pairs[0].0;
      assert s[0] == pairs[0].0[0];
      assert s[..1] == [s[0]] && pairs[0].0[..1] == [pairs[0].0[0]];
    }
    forall i | 0 <= i < |pieces| ensures '&' !in pieces[i] {
      assert pieces[i] == pairs[i].0 + "=" + pairs[i].1;
    }
    SplitJoin(pieces, '&');
    FormPairsOfPieces(pairs, pieces);
  }

  lemma JoinHead(parts: seq<string>, sep: string)
    requires |parts| >= 1
    ensures StartsWith(Join(parts, sep), parts[0])
  {
  }

  lemma {:induction false} FormPairsOfPieces(pairs: seq<(string, string)>, pieces: seq<string>)
    requires |pieces| == |pairs|
    requires forall i :: 0 <= i < |pairs| ==> PlainPair(pairs[i]) && pieces[i] == pairs[i].0 + "=" + pairs[i].1
    ensures FormPairs(pieces) == pairs
    decreases |pairs|
  {
    if |pairs| > 0 {
      FormPairsOfPieces(pairs[1..], pieces[1..]);
      var p := pairs[0];
      var piece := pieces[0];
      assert piece != "";
      assert IndexOf(piece, "=") == Some(|p.0|) by {
        IndexOfChar(p.0, '=', p.1);
      }
      assert piece[..|p.0|] == p.0 && piece[|p.0| + 1..] == p.1;
    }
  }

  /** The first occurrence of a character is right after the text before
      it, when that text does not hold the character. */
  lemma {:induction false} IndexOfChar(a: string, c: char, b: string)
    requires c !in a
    ensures IndexOf(a + [c] + b, [c]) == Some(|a|)
    decreases |a|
  {
    var s := a + [c] + b;
    if |a| == 0 {
      assert s[..1] == [c];
    } else {
      assert s[..1] == [a[0]];
      assert s[1..] == a[1..] + [c] + b;
      IndexOfChar(a[1..], c, b);
    }
  }

  /** The first Set-Cookie entry that mentions `M_WEIBOCN_PARAMS=`. */
  function FindParamsHeader(headers: seq<string>): (r: Option<string>)
    ensures r.Some? ==> Contains(r.value, "M_WEIBOCN_PARAMS=") && r.value in headers
    ensures r.Some? ==> exists i ::
      0 <= i < |headers| && headers[i] == r.value
      && forall j :: 0 <= j < i ==> !Contains(headers[j], "M_WEIBOCN_PARAMS=")
    ensures r.None? ==> forall i :: 0 <= i < |headers| ==> !Contains(headers[i], "M_WEIBOCN_PARAMS=")
    decreases |headers|
  {
    if |headers| == 0 then None
    else if Contains(headers[0], "M_WEIBOCN_PARAMS=") then Some(headers[0])
    else
      assert forall i :: 1 <= i < |headers| ==> headers[i] == headers[1..][i - 1];
      FindParamsHeader(headers[1..])
  }

  /** The parsing half of `getCreatorContainerInfo`: no Set-Cookie header
      or no `M_WEIBOCN_PARAMS` entry is a `DataFetchError`; a cookie value
      that `decode` rejects is a `URIError`; otherwise `fid` and `lfid` are
      read from the decoded cookie value, "" when absent. `decode` stands
      for `decodeURIComponent`, `None` for its malformed-escape throw. */
  function ContainerFromSetCookie(setCookie: Option<seq<string>>, decode: string -> Option<string>): (r: Result<ContainerInfo, Exception>)
    ensures (setCookie.None? || FindParamsHeader(setCookie.value).None?) ==> r == Failure(ContainerFailed)
    ensures (setCookie.Some? && FindParamsHeader(setCookie.value).Some?) ==>
      var decoded := decode(ParamsCookieValue(FindParamsHeader(setCookie.value).value));
      && (decoded.None? <==> r.Failure?)
      && (decoded.None? ==> r == Failure(URIError))
      && (decoded.Some? ==> r.Success? && r.value.fid == FormGet(decoded.value, "fid").GetOr("")
                                       && r.value.lfid == FormGet(decoded.value, "lfid").GetOr(""))
  {
    if setCookie.None? then Failure(ContainerFailed)
    else match FindParamsHeader(setCookie.value)
      case None => Failure(ContainerFailed)
      case Some(h) =>
        match decode(ParamsCookieValue(h))
        case None => Failure(URIError)
        case Some(decoded) =>
          Success(ContainerInfo(FormGet(decoded, "fid").GetOr(""), FormGet(decoded, "lfid").GetOr("")))
  }

  /** A Set-Cookie entry carrying `fid` and `lfid` yields them back. */
  lemma ContainerRoundTrip(encoded: string, attrs: string, fid: string, lfid: string,
                           decode: string -> Option<string>)
    requires ';' !in encoded && '=' !in encoded
    requires '&' !in fid && '&' !in lfid
    requires decode(encoded) == Some(FormEncode([("fid", fid), ("lfid", lfid)]))
    ensures ContainerFromSetCookie(Some(["M_WEIBOCN_PARAMS=" + encoded + ";" + attrs]), decode)
      == Success(ContainerInfo(fid, lfid))
  {
    var h := "M_WEIBOCN_PARAMS=" + encoded + ";" + attrs;
    assert StartsWith(h, "M_WEIBOCN_PARAMS=") by {
      assert h[..17] == "M_WEIBOCN_PARAMS=";
    }
    ParamsHeaderFound(h);
    ParamsValueOf(encoded, attrs);
    var pairs := [("fid", fid), ("lfid", lfid)];
    assert "fid"[..1] == "f";
    FormRoundTrip(pairs, "fid");
    FormRoundTrip(pairs, "lfid");
  }

  /** A Set-Cookie entry whose `M_WEIBOCN_PARAMS` value `decodeURIComponent`
      rejects (a malformed escape such as `%E0%A4%A`) makes the parse throw
      a `URIError`. */
  lemma MalformedParamsThrow(encoded: string, attrs: string, decode: string -> Option<string>)
    requires ';' !in encoded && '=' !in encoded
    requires decode(encoded).None?
    ensures ContainerFromSetCookie(Some(["M_WEIBOCN_PARAMS=" + encoded + ";" + attrs]), decode)
      == Failure(URIError)
  {
    var h := "M_WEIBOCN_PARAMS=" + encoded + ";" + attrs;
    assert StartsWith(h, "M_WEIBOCN_PARAMS=") by {
      assert h[..17] == "M_WEIBOCN_PARAMS=";
    }
    ParamsHeaderFound(h);
    ParamsValueOf(encoded, attrs);
  }

  lemma ParamsHeaderFound(h: string)
    requires StartsWith(h, "M_WEIBOCN_PARAMS=")
    ensures FindParamsHeader([h]) == Some(h)
  {
  }

  lemma ParamsValueOf(encoded: string, attrs: string)
    requires ';' !in encoded && '=' !in encoded
    ensures ParamsCookieValue("M_WEIBOCN_PARAMS=" + encoded + ";" + attrs) == encoded
  {
    var name := "M_WEIBOCN_PARAMS";
    var h := "M_WEIBOCN_PARAMS=" + encoded + ";" + attrs;
    assert ';' !in name + "=" + encoded;
    assert h == (name + "=" + encoded) + [';'] + attrs;
    SplitAppend(name + "=" + encoded, ';', attrs);
    assert name + "=" + encoded == name + ['='] + encoded;
    SplitAppend(name, '=', encoded);
    SplitNoSep(encoded, '=');
  }

  // ---------------------------------------------------------------------
  // The `weibo` tab of a profile
  // ---------------------------------------------------------------------

  /** The container id of the first tab whose `tabKey` is "weibo"; a
      `null` or `undefined` tab reached before it throws. */
  function FirstWeiboTab(tabs: seq<Json>): (r: Result<Option<Json>, Exception>)
    ensures r.Failure? ==> r.error == TypeError
    decreases |tabs|
  {
    if |tabs| == 0 then Success(None)
    else if Nullish(tabs[0]) then Failure(TypeError)
    else if Get(tabs[0], "tabKey") == JStr("weibo") then Success(Some(Get(tabs[0], "containerid")))
    else FirstWeiboTab(tabs[1..])
  }

  predicate IsWeiboTab(tab: Json) {
    !Nullish(tab) && Get(tab, "tabKey") == JStr("weibo")
  }

  /** A tab the search passes over. */
  predicate Skipped(tab: Json) {
    !Nullish(tab) && !IsWeiboTab(tab)
  }

  /** Position `i` holds the first weibo tab, with only skipped tabs
      before it. */
  predicate WeiboTabAt(tabs: seq<Json>, i: int) {
    0 <= i < |tabs| && IsWeiboTab(tabs[i]) && forall j :: 0 <= j < i ==> Skipped(tabs[j])
  }

  /** `FirstWeiboTab` finds the first weibo tab, throws exactly when a
      nullish tab comes before any weibo tab, and finds nothing when every
      tab is skipped. */
  lemma {:induction false} FirstWeiboTabIsFirst(tabs: seq<Json>)
    ensures forall i :: WeiboTabAt(tabs, i) ==>
      FirstWeiboTab(tabs) == Success(Some(Get(tabs[i], "containerid")))
    ensures FirstWeiboTab(tabs).Success? && FirstWeiboTab(tabs).value.Some? ==>
      exists i :: WeiboTabAt(tabs, i)
    ensures FirstWeiboTab(tabs) == Success(None) <==>
      forall i :: 0 <= i < |tabs| ==> Skipped(tabs[i])
    decreases |tabs|
  {
    if |tabs| > 0 {
      var rest := tabs[1..];
      FirstWeiboTabIsFirst(rest);
      assert forall j :: 1 <= j < |tabs| ==> tabs[j] == rest[j - 1];
      if Skipped(tabs[0]) {
        forall i | WeiboTabAt(tabs, i)
          ensures FirstWeiboTab(tabs) == Success(Some(Get(tabs[i], "containerid")))
        {
          assert WeiboTabAt(rest, i - 1);
        }
        if FirstWeiboTab(tabs).Success? && FirstWeiboTab(tabs).value.Some? {
          var i :| WeiboTabAt(rest, i);
          assert WeiboTabAt(tabs, i + 1);
        }
      } else if IsWeiboTab(tabs[0]) {
        forall i | WeiboTabAt(tabs, i)
          ensures i == 0
        {
        }
        assert WeiboTabAt(tabs, 0);
      }
    }
  }

  /** The tab handling of `getCreatorInfoById`: only a truthy
      `userRes?.tabsInfo?.tabs` is searched; iterating it throws unless it
      is an array or a string. */
  function WeiboTabOf(userRes: Json): (r: Result<Option<Json>, Exception>)
    ensures !Truthy(Get(Get(userRes, "tabsInfo"), "tabs")) ==> r == Success(None)
    ensures Get(Get(userRes, "tabsInfo"), "tabs").JArr? ==>
      r == FirstWeiboTab(Get(Get(userRes, "tabsInfo"), "tabs").items)
  {
    var tabs := Get(Get(userRes, "tabsInfo"), "tabs");
    if !Truthy(tabs) then Success(None)
    else match Elements(tabs)
      case Failure(e) => Failure(e)
      case Success(ts) => FirstWeiboTab(ts)
  }

  /** `{ ...userRes, ...containerInfo }`: the profile's own properties with
      the two container ids on top. */
  function CreatorInfo(userRes: Json, fid: string, lfid: Json): (r: Json)
    ensures r.JObj? && "fid_container_id" in r.fields && "lfid_container_id" in r.fields
    ensures r.fields["fid_container_id"] == JStr(fid) && r.fields["lfid_container_id"] == lfid
    ensures forall k :: k in OwnEntries(userRes) && k != "fid_container_id" && k != "lfid_container_id" ==>
      k in r.fields && r.fields[k] == OwnEntries(userRes)[k]
  {
    JObj(OwnEntries(userRes)["fid_container_id" := JStr(fid)]["lfid_container_id" := lfid])
  }

  /** What `getCreatorInfoById` makes of the container ids and the
      profile answer: empty ids fail; otherwise the profile's own
      properties with `fid` and, as `lfid`, the first weibo tab's container
      id when there is one, else the cookie's `lfid`. */
  function CreatorProfile(info: ContainerInfo, userReply: Transport): (r: Result<Json, Exception>)
    ensures info.fid == "" || info.lfid == "" ==> r == Failure(ContainerFailed)
    ensures r.Success? ==>
      r.value.JObj? && "fid_container_id" in r.value.fields && r.value.fields["fid_container_id"] == JStr(info.fid)
    ensures userReply.Rejected? && info.fid != "" && info.lfid != "" ==>
      r == Failure(NetworkError(userReply.reason))
  {
    if info.fid == "" || info.lfid == "" then Failure(ContainerFailed)
    else match Request(userReply, false)
      case Failure(e) => Failure(e)
      case Success(reply) =>
        match WeiboTabOf(reply.data)
        case Failure(e) => Failure(e)
        case Success(tab) =>
          Success(CreatorInfo(reply.data, info.fid, if tab.Some? then tab.value else JStr(info.lfid)))
  }

  /** A profile whose tab list holds a weibo tab gets that tab's
      container id as `lfid`; one without tabs keeps the cookie's. */
  lemma ProfileTakesWeiboTab(info: ContainerInfo, userReply: Transport, i: int)
    requires info.fid != "" && info.lfid != ""
    requires Request(userReply, false).Success?
    requires var tabs := Get(Get(Request(userReply, false).value.data, "tabsInfo"), "tabs");
      tabs.JArr? && WeiboTabAt(tabs.items, i)
    ensures var data := Request(userReply, false).value.data;
      var tabs := Get(Get(data, "tabsInfo"), "tabs");
      CreatorProfile(info, userReply) == Success(CreatorInfo(data, info.fid, Get(tabs.items[i], "containerid")))
  {
    var data := Request(userReply, false).value.data;
    FirstWeiboTabIsFirst(Get(Get(data, "tabsInfo"), "tabs").items);
  }

  lemma ProfileWithoutTabs(info: ContainerInfo, userReply: Transport)
    requires info.fid != "" && info.lfid != ""
    requires Request(userReply, false).Success?
    requires !Truthy(Get(Get(Request(userReply, false).value.data, "tabsInfo"), "tabs"))
    ensures CreatorProfile(info, userReply)
      == Success(CreatorInfo(Request(userReply, false).value.data, info.fid, JStr(info.lfid)))
  {
  }
}
