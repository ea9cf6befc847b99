/** The Weibo mobile client as an object: its header map and cookie
    dictionary change in place when the cookies are refreshed, and its
    crawls are loops over local variables, each proved to compute what the
    corresponding state machine of `WeiboCrawl` computes. The browser's
    cookie jar after a visit and the transport's answers are supplied by
    the caller. */
module Client {
  import opened Wrappers
  import opened Text
  import opened JsValue
  import opened CrawlerUtil
  import opened WeiboApi
  import opened WeiboCrawl

  const MissingParams: Exception := PlainError("M_WEIBOCN_PARAMS is not available")

  predicate HasParamsCookie(jar: seq<Cookie>) {
    exists i :: 0 <= i < |jar| && jar[i].name == "M_WEIBOCN_PARAMS"
  }

  class WeiboClient {
    var headers: map<string, string>
    var cookieDict: map<string, string>
    const timeout: int

    /** A missing timeout defaults to 10 seconds. */
    constructor (headers: map<string, string>, cookieDict: map<string, string>, timeout: Option<int>)
      ensures this.headers == headers && this.cookieDict == cookieDict
      ensures this.timeout == timeout.GetOr(10)
    {
      this.headers := headers;
      this.cookieDict := cookieDict;
      this.timeout := timeout.GetOr(10);
    }

    /** `updateCookies`: the creator's page is visited and the jar read
        back; without a `M_WEIBOCN_PARAMS` cookie it fails and changes
        nothing, otherwise the `Cookie` header becomes the jar's header
        string and the dictionary the jar's name-to-last-value map. */
    method UpdateCookies(creatorId: string, jar: seq<Cookie>) returns (r: Result<(), Exception>, visited: string)
      modifies this
      ensures visited == "https://m.weibo.cn/u/" + creatorId
      ensures r.Failure? <==> !HasParamsCookie(jar)
      ensures r.Failure? ==>
        r.error == MissingParams && headers == old(headers) && cookieDict == old(cookieDict)
      ensures r.Success? ==>
        headers == old(headers)["Cookie" := CookieHeader(jar)] && cookieDict == CookieDict(jar)
    {
      visited := "https://m.weibo.cn/u/" + creatorId;
      var cookieStr := Join(Pairs(jar), "; ");
      var found := false;
      var i := 0;
      while i < |jar| && !found
        invariant 0 <= i <= |jar|
        invariant found <==> i > 0 && jar[i - 1].name == "M_WEIBOCN_PARAMS"
        invariant forall j :: 0 <= j < i - 1 ==> jar[j].name != "M_WEIBOCN_PARAMS"
        invariant !found ==> forall j :: 0 <= j < i ==> jar[j].name != "M_WEIBOCN_PARAMS"
      {
        found := jar[i].name == "M_WEIBOCN_PARAMS";
        i := i + 1;
      }
      if !found {
        return Failure(MissingParams), visited;
      }
      headers := headers["Cookie" := cookieStr];
      var dict := map[];
      var k := 0;
      while k < |jar|
        invariant 0 <= k <= |jar|
        invariant dict == CookieDict(jar[..k])
      {
        assert jar[..k + 1][..k] == jar[..k];
        dict := dict[jar[k].name := jar[k].value];
        k := k + 1;
      }
      assert jar[..|jar|] == jar;
      cookieDict := dict;
      r := Success(());
    }

    /** `getCommentsAllSubComments`, one comment at a time. */
    static method GetCommentsAllSubComments(enabled: bool, commentList: seq<Json>)
      returns (found: seq<Json>, delivered: seq<Json>, thrown: Option<Exception>)
      ensures SubScan(found, delivered, thrown) == SubCommentsOf(enabled, commentList)
      ensures enabled && thrown.None? ==>
        delivered == ArrayComments(commentList) && found == Flatten(ArrayComments(commentList))
    {
      found, delivered, thrown := [], [], None;
      if !enabled {
        return;
      }
      var i := 0;
      while i < |commentList|
        invariant 0 <= i <= |commentList|
        invariant SubScan(found, delivered, None) == ScanSubComments(commentList[..i])
      {
        assert commentList[..i + 1][..i] == commentList[..i];
        var comment := commentList[i];
        if Nullish(comment) {
          ScanStaysThrown(commentList, i + 1);
          assert commentList[..|commentList|] == commentList;
          return found, delivered, Some(TypeError);
        }
        var subComments := Get(comment, "comments");
        if Truthy(subComments) && subComments.JArr? {
          delivered := delivered + [subComments];
          found := found + subComments.items;
        }
        i := i + 1;
      }
      assert commentList[..|commentList|] == commentList;
      SubCommentsAreArrayFields(commentList);
    }

    /** `getNoteAllComments`: the crawl computes exactly `CrawlComments`,
        so without sub-comments it stays within the budget, and when it
        does not throw it slept once per page and its result is what the
        callback received, in order. */
    method GetNoteAllComments(noteId: string, maxCount: int, subComments: bool, replies: seq<Transport>)
      returns (run: CommentState)
      ensures run == CrawlComments(CommentCrawl(noteId, maxCount, subComments, headers, timeout), replies)
      ensures !subComments ==> |run.result| <= maxCount || run.result == []
      ensures run.thrown.None? ==> run.sleeps == |run.requests| && run.result == Flatten(run.delivered)
    {
      var cfg := CommentCrawl(noteId, maxCount, subComments, headers, timeout);
      var st := CommentStart;
      var i := 0;
      while !st.isEnd && |st.result| < maxCount
        invariant 0 <= i <= |replies|
        invariant st.thrown.None? && !st.unanswered
        invariant RunComments(cfg, st, replies[i..]) == CrawlComments(cfg, replies)
        decreases |replies| - i
      {
        if i == |replies| {
          run := st.(unanswered := true);
          CommentFacts(cfg, replies, run);
          return;
        }
        assert replies[i..][0] == replies[i] && replies[i..][1..] == replies[i + 1..];
        assert RunComments(cfg, st, replies[i..]) == RunComments(cfg, CommentStep(cfg, st, replies[i]), replies[i + 1..]);
        st := CommentPage(cfg, st, replies[i]);
        i := i + 1;
        if st.thrown.Some? {
          run := st;
          CommentFacts(cfg, replies, run);
          return;
        }
      }
      run := st;
      CommentFacts(cfg, replies, run);
    }

    /** One round of the loop of `getNoteAllComments`: request the page
        after `st.maxId`, cut it to the budget, hand it to the callback,
        sleep, then collect its sub-comments. */
    method CommentPage(cfg: CommentCrawl, st: CommentState, reply: Transport) returns (next: CommentState)
      requires CommentLooping(cfg, st)
      ensures next == CommentStep(cfg, st, reply)
      ensures !next.unanswered
    {
      var requests := st.requests + [NoteCommentsRequest(cfg.headers, cfg.timeout, cfg.noteId, st.maxId)];
      var commentsRes := Request(reply, false);
      if commentsRes.Failure? {
        return st.(requests := requests, thrown := Some(commentsRes.error));
      }
      var data := commentsRes.value.data;
      var maxId := Or(Get(data, "max_id"), JNum(0));
      var isEnd := maxId == JNum(0);
      var cut := Truncate(Or(Get(data, "data"), JArr([])), |st.result|, cfg.maxCount);
      if cut.Failure? {
        return CommentState(st.result, maxId, isEnd, requests, st.delivered, st.sleeps, Some(cut.error), false);
      }
      var commentList := cut.value;
      var delivered := st.delivered + [commentList];
      var sleeps := st.sleeps + 1;
      var pushed := Elements(commentList);
      if pushed.Failure? {
        return CommentState(st.result, maxId, isEnd, requests, delivered, sleeps, Some(pushed.error), false);
      }
      var result := st.result + pushed.value;
      var subFound, subDelivered, subThrown := GetCommentsAllSubComments(cfg.subComments, pushed.value);
      delivered := delivered + subDelivered;
      if subThrown.Some? {
        return CommentState(result, maxId, isEnd, requests, delivered, sleeps, subThrown, false);
      }
      next := CommentState(result + subFound, maxId, isEnd, requests, delivered, sleeps, None, false);
    }

    /** `getNoteImage`: the proxy URL is built segment by segment, and the
        answer is the body when the status text is "OK", `null` otherwise. */
    method GetNoteImage(imageUrl: string, reply: Transport) returns (image: Result<Option<Json>, Exception>, request: HttpRequest)
      ensures request.url == ImageUri(imageUrl) && request.headers == headers && request.query.None?
      ensures reply.Rejected? ==> image == Failure(NetworkError(reply.reason))
      ensures reply.Replied? ==> image == Success(
        if reply.response.statusText == "OK" then Some(reply.response.body) else None)
    {
      var finalPath := ImagePath(imageUrl);
      request := HttpRequest("GET", ImageAgentHost + finalPath, None, headers, timeout * 1000);
      match reply
      case Rejected(reason) =>
        image := Failure(NetworkError(reason));
      case Replied(resp) =>
        if resp.statusText != "OK" {
          image := Success(None);
        } else {
          image := Success(Some(resp.body));
        }
    }

    /** The path loop of `getNoteImage`: segment 1 becomes `large`, every
        segment but the last is followed by `/`. */
    static method ImagePath(imageUrl: string) returns (finalPath: string)
      ensures finalPath == LargeImagePath(Split(StripHttps(imageUrl), '/'))
    {
      var tmp := StripHttps(imageUrl);
      var subUrl := Split(tmp, '/');
      finalPath := "";
      for i := 0 to |subUrl|
        invariant finalPath == PathPieces(subUrl, i)
      {
        assert PathPieces(subUrl, i + 1) == PathPieces(subUrl, i) + PathPiece(subUrl, i);
        if i == 1 {
          finalPath := finalPath + "large/";
        } else if i == |subUrl| - 1 {
          finalPath := finalPath + subUrl[i];
        } else {
          finalPath := finalPath + (subUrl[i] + "/");
        }
      }
      PathPiecesAreLargePath(subUrl);
    }

    /** `getCreatorContainerInfo`: the cookies are refreshed first (a
        failure there ends it before any request); the profile page is
        then requested with the refreshed `Cookie` header and its
        Set-Cookie entries parsed. */
    method GetCreatorContainerInfo(creatorId: string, jar: seq<Cookie>, reply: Transport, decode: string -> Option<string>)
      returns (r: Result<ContainerInfo, Exception>, sent: seq<HttpRequest>)
      modifies this
      ensures !HasParamsCookie(jar) ==>
        r == Failure(MissingParams) && sent == [] && headers == old(headers) && cookieDict == old(cookieDict)
      ensures HasParamsCookie(jar) ==>
        && headers == old(headers)["Cookie" := CookieHeader(jar)] && cookieDict == CookieDict(jar)
        && sent == [GetRequest(headers, timeout, "/u/" + creatorId, None, None)]
        && r == ContainerOfReply(reply, decode)
    {
      var updated, _ := UpdateCookies(creatorId, jar);
      if updated.Failure? {
        return Failure(updated.error), [];
      }
      sent := [GetRequest(headers, timeout, "/u/" + creatorId, None, None)];
      var response := Request(reply, true);
      if response.Failure? {
        return Failure(response.error), sent;
      }
      r := ContainerFromSetCookie(response.value.response.setCookie, decode);
    }

    /** `getCreatorInfoById`: the container ids, then the profile, whose
        tab list is searched for the first weibo tab. */
    method GetCreatorInfoById(creatorId: string, jar: seq<Cookie>, containerReply: Transport,
                              userReply: Transport, decode: string -> Option<string>)
      returns (r: Result<Json, Exception>, sent: seq<HttpRequest>)
      modifies this
      ensures !HasParamsCookie(jar) ==>
        r == Failure(MissingParams) && sent == [] && headers == old(headers) && cookieDict == old(cookieDict)
      ensures HasParamsCookie(jar) ==>
        && headers == old(headers)["Cookie" := CookieHeader(jar)] && cookieDict == CookieDict(jar)
        && r == (match ContainerOfReply(containerReply, decode)
                 case Failure(e) => Failure(e)
                 case Success(info) => CreatorProfile(info, userReply))
      ensures (HasParamsCookie(jar) && ContainerOfReply(containerReply, decode).Success?
        && ContainerOfReply(containerReply, decode).value.fid != ""
        && ContainerOfReply(containerReply, decode).value.lfid != "") ==>
        |sent| == 2 && sent[1] == CreatorInfoRequest(headers, timeout, creatorId,
                                                     ContainerOfReply(containerReply, decode).value.fid)
      ensures HasParamsCookie(jar) ==>
        1 <= |sent| <= 2 && sent[0] == GetRequest(headers, timeout, "/u/" + creatorId, None, None)
      ensures HasParamsCookie(jar) ==>
        (|sent| == 2 <==> ContainerOfReply(containerReply, decode).Success?
                          && ContainerOfReply(containerReply, decode).value.fid != ""
                          && ContainerOfReply(containerReply, decode).value.lfid != "")
    {
      var container, containerSent := GetCreatorContainerInfo(creatorId, jar, containerReply, decode);
      sent := containerSent;
      if container.Failure? {
        return Failure(container.error), sent;
      }
      var info := container.value;
      if info.fid == "" || info.lfid == "" {
        return Failure(ContainerFailed), sent;
      }
      sent := sent + [CreatorInfoRequest(headers, timeout, creatorId, info.fid)];
      var userRes := Request(userReply, false);
      if userRes.Failure? {
        return Failure(userRes.error), sent;
      }
      var data := userRes.value.data;
      var lfid := JStr(info.lfid);
      var tabs := Get(Get(data, "tabsInfo"), "tabs");
      if Truthy(tabs) {
        var iterated := Elements(tabs);
        if iterated.Failure? {
          return Failure(iterated.error), sent;
        }
        var found := FindWeiboTab(iterated.value);
        if found.Failure? {
          return Failure(found.error), sent;
        }
        if found.value.Some? {
          lfid := found.value.value;
        }
      }
      r := Success(CreatorInfo(data, info.fid, lfid));
    }

    /** The tab loop of `getCreatorInfoById`: the first tab keyed "weibo"
        gives the container id; a `null` or `undefined` tab before it
        throws. */
    static method FindWeiboTab(ts: seq<Json>) returns (r: Result<Option<Json>, Exception>)
      ensures r == FirstWeiboTab(ts)
    {
      for k := 0 to |ts|
        invariant FirstWeiboTab(ts) == FirstWeiboTab(ts[k..])
      {
        assert ts[k..][1..] == ts[k + 1..];
        if Nullish(ts[k]) {
          return Failure(TypeError);
        }
        if Get(ts[k], "tabKey") == JStr("weibo") {
          return Success(Some(Get(ts[k], "containerid")));
        }
      }
      assert ts[|ts|..] == [];
      r := Success(None);
    }

    /** `getAllNotesByCreatorId`: the crawl computes exactly
        `CrawlTimeline`, so its result is the filtered pages in fetch order,
        holds only note cards, and it slept once per kept page. */
    method GetAllNotesByCreatorId(creatorId: string, containerId: string, replies: seq<Transport>)
      returns (run: TimelineState)
      ensures run == CrawlTimeline(TimelineCrawl(creatorId, containerId, headers, timeout), replies)
      ensures run.result == Concat(run.delivered)
      ensures forall i :: 0 <= i < |run.result| ==> IsNoteCard(run.result[i])
      ensures run.sleeps == |run.delivered|
    {
      var cfg := TimelineCrawl(creatorId, containerId, headers, timeout);
      var st := TimelineStart;
      var i := 0;
      while st.hasMore
        invariant 0 <= i <= |replies|
        invariant st.thrown.None? && !st.unanswered && !st.broke
        invariant RunTimeline(cfg, st, replies[i..]) == CrawlTimeline(cfg, replies)
        decreases |replies| - i
      {
        if i == |replies| {
          run := st.(unanswered := true);
          TimelineFacts(cfg, replies, run);
          return;
        }
        assert replies[i..][0] == replies[i] && replies[i..][1..] == replies[i + 1..];
        assert RunTimeline(cfg, st, replies[i..]) == RunTimeline(cfg, TimelineStep(cfg, st, replies[i]), replies[i + 1..]);
        st := TimelinePage(cfg, st, replies[i]);
        i := i + 1;
        if st.thrown.Some? || st.broke {
          run := st;
          TimelineFacts(cfg, replies, run);
          return;
        }
      }
      run := st;
      TimelineFacts(cfg, replies, run);
    }

    /** One round of the loop of `getAllNotesByCreatorId`: request the page
        after `st.sinceId`, keep its note cards, hand them to the callback,
        sleep, and compare the count against the reported total. */
    method TimelinePage(cfg: TimelineCrawl, st: TimelineState, reply: Transport) returns (next: TimelineState)
      requires TimelineLooping(st)
      ensures next == TimelineStep(cfg, st, reply)
      ensures !next.unanswered
    {
      var requests := st.requests + [CreatorNotesRequest(cfg.headers, cfg.timeout, cfg.creatorId, cfg.containerId, st.sinceId)];
      var answer := Request(reply, false);
      if answer.Failure? {
        return st.(requests := requests, thrown := Some(answer.error));
      }
      var notesRes := answer.value.data;
      if !Truthy(notesRes) {
        // the `break` on a falsy payload is dead: `Request` never yields one
        assert false;
      }
      var sinceId := Or(Get(Get(notesRes, "cardlistInfo"), "since_id"), JStr("0"));
      var notes := Get(notesRes, "cards");
      if !Truthy(notes) {
        return st.(requests := requests, sinceId := sinceId, broke := true);
      }
      var filtered := if notes.JArr? then FilterNoteCards(notes.items) else Failure(TypeError);
      if filtered.Failure? {
        return st.(requests := requests, sinceId := sinceId, thrown := Some(filtered.error));
      }
      var crawlerTotalCount := st.totalCount + 10;
      var total := Or(Get(Get(notesRes, "cardlistInfo"), "total"), JNum(0));
      next := TimelineState(st.result + filtered.value, GreaterThan(total, crawlerTotalCount), sinceId,
        crawlerTotalCount, requests, st.delivered + [filtered.value], st.sleeps + 1, false, None, false);
    }
  }

  /** What `getCreatorContainerInfo` makes of the profile page's answer. */
  function ContainerOfReply(reply: Transport, decode: string -> Option<string>): (r: Result<ContainerInfo, Exception>)
    ensures reply.Rejected? ==> r == Failure(NetworkError(reply.reason))
    ensures reply.Replied? ==> r == ContainerFromSetCookie(reply.response.setCookie, decode)
  {
    match Request(reply, true)
    case Failure(e) => Failure(e)
    case Success(raw) => ContainerFromSetCookie(raw.response.setCookie, decode)
  }

  /** Once the scan has thrown, later comments change nothing. */
  lemma {:induction false} ScanStaysThrown(list: seq<Json>, n: nat)
    requires 0 < n <= |list| && Nullish(list[n - 1])
    requires ScanSubComments(list[..n - 1]).thrown.None?
    ensures ScanSubComments(list) == ScanSubComments(list[..n - 1]).(thrown := Some(TypeError))
    decreases |list| - n
  {
    assert list[..n][..n - 1] == list[..n - 1];
    if n < |list| {
      ScanStaysThrownFrom(list, n);
    } else {
      assert list[..n] == list;
    }
  }

  lemma {:induction false} ScanStaysThrownFrom(list: seq<Json>, n: nat)
    requires 0 < n <= |list|
    requires ScanSubComments(list[..n]).thrown.Some?
    ensures ScanSubComments(list) == ScanSubComments(list[..n])
    decreases |list| - n
  {
    if n < |list| {
      assert list[..n + 1][..n] == list[..n];
      ScanStaysThrownFrom(list, n + 1);
    } else {
      assert list[..n] == list;
    }
  }

  /** A stopped comment crawl is its own end, and the crawl's facts hold
      of it. */
  lemma CommentFacts(cfg: CommentCrawl, replies: seq<Transport>, run: CommentState)
    requires run == CrawlComments(cfg, replies)
    ensures !cfg.subComments ==> |run.result| <= cfg.maxCount || run.result == []
    ensures run.thrown.None? ==> run.sleeps == |run.requests| && run.result == Flatten(run.delivered)
  {
    if !cfg.subComments {
      CommentsWithinBudget(cfg, CommentStart, replies);
    }
    CommentsLedger(cfg, CommentStart, replies);
  }

  lemma TimelineFacts(cfg: TimelineCrawl, replies: seq<Transport>, run: TimelineState)
    requires run == CrawlTimeline(cfg, replies)
    ensures TimelineLedger(run)
  {
    TimelineResultIsPages(cfg, TimelineStart, replies);
  }
}
