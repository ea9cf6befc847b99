/** The two paginated crawls of the Weibo client as state machines over the
    transport's answers: the comment crawl of a note (a `max_id` cursor, a
    `maxCount` budget with truncation, optional one-level sub-comments) and
    the timeline crawl of a creator (a `since_id` cursor, a `card_type 9`
    filter, a counter that grows by 10 per page against the reported
    total). The k-th answer answers the k-th request; a crawl that needs
    more answers than it is given stops with `unanswered` set, which is an
    artefact of the model, not of the client. The callback and the sleeps
    are recorded rather than performed. */
module WeiboCrawl {
  import opened Wrappers
  import opened JsValue
  import opened WeiboApi
  import Text

  /** The concatenation of what iterating each value gives (nothing for a
      value that is not iterable). */
  function Flatten(vs: seq<Json>): seq<Json>
    decreases |vs|
  {
    if |vs| == 0 then [] else Flatten(vs[..|vs| - 1]) + Iterated(vs[|vs| - 1])
  }

  /** What iterating one value gives. */
  function Iterated(v: Json): seq<Json> {
    if Elements(v).Success? then Elements(v).value else []
  }

  /** Flattening distributes over concatenation. */
  lemma {:induction false} FlattenAppend(vs: seq<Json>, ws: seq<Json>)
    ensures Flatten(vs + ws) == Flatten(vs) + Flatten(ws)
    decreases |ws|
  {
    if |ws| > 0 {
      var init := ws[..|ws| - 1];
      FlattenAppend(vs, init);
      assert (vs + ws)[..|vs + ws| - 1] == vs + init;
      assert (vs + ws)[|vs + ws| - 1] == ws[|ws| - 1];
      assert Flatten(vs + ws) == Flatten(vs + init) + Iterated(ws[|ws| - 1]);
      assert Flatten(ws) == Flatten(init) + Iterated(ws[|ws| - 1]);
    } else {
      assert vs + ws == vs;
    }
  }

  // ---------------------------------------------------------------------
  // Sub-comments
  // ---------------------------------------------------------------------

  /** What the sub-comment scan has produced: the flattened replies, the
      arrays handed to the callback, and the exception if one was thrown. */
  datatype SubScan = SubScan(found: seq<Json>, delivered: seq<Json>, thrown: Option<Exception>)

  /** The loop of `getCommentsAllSubComments` over a list of comments:
      each array-valued `comments` field goes to the callback and is
      appended; reading `comments` of a `null` or `undefined` comment
      throws. */
  function ScanSubComments(list: seq<Json>): SubScan
    decreases |list|
  {
    if |list| == 0 then SubScan([], [], None)
    else
      var prev := ScanSubComments(list[..|list| - 1]);
      var c := list[|list| - 1];
      if prev.thrown.Some? then prev
      else if Nullish(c) then prev.(thrown := Some(TypeError))
      else
        var subs := Get(c, "comments");
        if subs.JArr? then prev.(found := prev.found + subs.items, delivered := prev.delivered + [subs])
        else prev
  }

  /** `getCommentsAllSubComments`: with the feature switched off the result
      is empty and nothing is delivered. */
  function SubCommentsOf(enabled: bool, list: seq<Json>): (r: SubScan)
    ensures !enabled ==> r == SubScan([], [], None)
  {
    if enabled then ScanSubComments(list) else SubScan([], [], None)
  }

  /** The array-valued `comments` fields of a list, front to back. */
  function ArrayComments(list: seq<Json>): seq<Json>
    decreases |list|
  {
    if |list| == 0 then []
    else
      var c := list[|list| - 1];
      ArrayComments(list[..|list| - 1]) + (if Get(c, "comments").JArr? then [Get(c, "comments")] else [])
  }

  /** The scan delivers exactly the array-valued `comments` fields in
      order, and its result is their in-order concatenation; it throws
      exactly when some comment is `null` or `undefined`. */
  lemma SubCommentsAreArrayFields(list: seq<Json>)
    ensures ScanSubComments(list).thrown.Some? <==> exists i :: 0 <= i < |list| && Nullish(list[i])
    ensures ScanSubComments(list).thrown.Some? ==> ScanSubComments(list).thrown == Some(TypeError)
    ensures ScanSubComments(list).thrown.None? ==>
      ScanSubComments(list).delivered == ArrayComments(list)
      && ScanSubComments(list).found == Flatten(ArrayComments(list))
  {
    SubScanThrows(list);
    SubScanDelivers(list);
  }

  lemma {:induction false} SubScanThrows(list: seq<Json>)
    ensures ScanSubComments(list).thrown.Some? <==> exists i :: 0 <= i < |list| && Nullish(list[i])
    ensures ScanSubComments(list).thrown.Some? ==> ScanSubComments(list).thrown == Some(TypeError)
    decreases |list|
  {
    if |list| > 0 {
      var init := list[..|list| - 1];
      SubScanThrows(init);
      assert forall i :: 0 <= i < |init| ==> init[i] == list[i];
    }
  }

  lemma {:induction false} SubScanDelivers(list: seq<Json>)
    ensures ScanSubComments(list).thrown.None? ==>
      ScanSubComments(list).delivered == ArrayComments(list)
      && ScanSubComments(list).found == Flatten(ArrayComments(list))
    decreases |list|
  {
    if |list| > 0 {
      var init := list[..|list| - 1];
      var c := list[|list| - 1];
      SubScanDelivers(init);
      var extra := if Get(c, "comments").JArr? then [Get(c, "comments")] else [];
      FlattenAppend(ArrayComments(init), extra);
    }
  }

  // ---------------------------------------------------------------------
  // The comment crawl
  // ---------------------------------------------------------------------

  /** The fixed inputs of one comment crawl. */
  datatype CommentCrawl = CommentCrawl(
    noteId: string,
    maxCount: int,
    subComments: bool,
    headers: map<string, string>,
    timeout: int)

  /** The loop's variables (`result`, `maxId`, `isEnd`) and what it has
      done so far: the requests sent, the lists handed to the callback,
      the sleeps taken, and the exception that ended it, if any. */
  datatype CommentState = CommentState(
    result: seq<Json>,
    maxId: Json,
    isEnd: bool,
    requests: seq<HttpRequest>,
    delivered: seq<Json>,
    sleeps: nat,
    thrown: Option<Exception>,
    unanswered: bool)

  const CommentStart: CommentState := CommentState([], JNum(-1), false, [], [], 0, None, false)

  /** The loop guard `!isEnd && result.length < maxCount`, for a crawl
      that has neither thrown nor run out of answers. */
  predicate CommentLooping(cfg: CommentCrawl, st: CommentState) {
    st.thrown.None? && !st.unanswered && !st.isEnd && |st.result| < cfg.maxCount
  }

  /** The budget check `result.length + commentList.length > maxCount`
      and, when it holds, `commentList.slice(0, maxCount - result.length)`.
      Arrays and strings are cut to the remaining budget; any other value
      that passes the check has no `slice` to call, which throws. A value
      whose `length` is missing never passes it. */
  function Truncate(list: Json, have: nat, maxCount: int): (page: Result<Json, Exception>)
    requires have < maxCount
    ensures list.JArr? ==> page == Success(JArr(list.items[..if have + |list.items| > maxCount then maxCount - have else |list.items|]))
    ensures list.JStr? ==> page == Success(JStr(list.s[..if have + |list.s| > maxCount then maxCount - have else |list.s|]))
    ensures !list.JArr? && !list.JStr? ==>
      (page.Failure? <==> SumGreaterThan(have, Get(list, "length"), maxCount))
      && (page.Failure? ==> page.error == TypeError)
      && (page.Success? ==> page.value == list)
  {
    var overruns := SumGreaterThan(have, Get(list, "length"), maxCount);
    match list
    case JArr(xs) =>
      NumericSum(have, |xs|, maxCount);
      assert Get(list, "length") == JNum(|xs|) && xs[..|xs|] == xs;
      if overruns then Success(JArr(xs[..maxCount - have])) else Success(list)
    case JStr(s) =>
      NumericSum(have, |s|, maxCount);
      assert Get(list, "length") == JNum(|s|) && s[..|s|] == s;
      if overruns then Success(JStr(s[..maxCount - have])) else Success(list)
    case _ => if overruns then Failure(TypeError) else Success(list)
  }

  /** One round of the loop of `getNoteAllComments`. */
  function CommentStep(cfg: CommentCrawl, st: CommentState, reply: Transport): (next: CommentState)
    requires CommentLooping(cfg, st)
    ensures |next.requests| == |st.requests| + 1 && !next.unanswered
    ensures |next.result| >= |st.result| && next.result[..|st.result|] == st.result
    ensures next.sleeps <= st.sleeps + 1
  {
    var st1 := st.(requests := st.requests + [NoteCommentsRequest(cfg.headers, cfg.timeout, cfg.noteId, st.maxId)]);
    match Request(reply, false)
    case Failure(e) => st1.(thrown := Some(e))
    case Success(r) =>
      var maxId := Or(Get(r.data, "max_id"), JNum(0));
      var st2 := st1.(maxId := maxId, isEnd := maxId == JNum(0));
      match Truncate(Or(Get(r.data, "data"), JArr([])), |st.result|, cfg.maxCount)
      case Failure(e) => st2.(thrown := Some(e))
      case Success(page) =>
        var st3 := st2.(delivered := st2.delivered + [page], sleeps := st2.sleeps + 1);
        match Elements(page)
        case Failure(e) => st3.(thrown := Some(e))
        case Success(items) =>
          var sub := SubCommentsOf(cfg.subComments, items);
          var st4 := st3.(result := st3.result + items, delivered := st3.delivered + sub.delivered);
          if sub.thrown.Some? then st4.(thrown := sub.thrown)
          else st4.(result := st4.result + sub.found)
  }

  /** The loop run to its end over the given answers. */
  function RunComments(cfg: CommentCrawl, st: CommentState, replies: seq<Transport>): (end: CommentState)
    ensures !CommentLooping(cfg, end)
    decreases |replies|
  {
    if !CommentLooping(cfg, st) then st
    else if |replies| == 0 then st.(unanswered := true)
    else RunComments(cfg, CommentStep(cfg, st, replies[0]), replies[1..])
  }

  /** `getNoteAllComments`, from its initial state. */
  function CrawlComments(cfg: CommentCrawl, replies: seq<Transport>): (end: CommentState)
    ensures !CommentLooping(cfg, end)
    ensures CommentLedger(end)
    ensures !cfg.subComments ==> |end.result| <= cfg.maxCount || end.result == []
  {
    CommentsLedger(cfg, CommentStart, replies);
    if !cfg.subComments then
      CommentsWithinBudget(cfg, CommentStart, replies);
      RunComments(cfg, CommentStart, replies)
    else
      RunComments(cfg, CommentStart, replies)
  }

  /** With no budget no request is made and the result is empty. */
  lemma NoBudgetNoRequest(cfg: CommentCrawl, replies: seq<Transport>)
    requires cfg.maxCount <= 0
    ensures CrawlComments(cfg, replies).requests == []
    ensures CrawlComments(cfg, replies).result == []
  {
  }

  /** A run only ever adds requests. */
  lemma {:induction false} RunCommentsExtends(cfg: CommentCrawl, st: CommentState, replies: seq<Transport>)
    ensures |RunComments(cfg, st, replies).requests| >= |st.requests|
    ensures RunComments(cfg, st, replies).requests[..|st.requests|] == st.requests
    decreases |replies|
  {
    if CommentLooping(cfg, st) && |replies| > 0 {
      var next := CommentStep(cfg, st, replies[0]);
      RunCommentsExtends(cfg, next, replies[1..]);
      assert next.requests[..|st.requests|] == st.requests;
    }
  }

  /** The cursor starts at -1, so the first request carries no `max_id`. */
  lemma FirstCommentRequest(cfg: CommentCrawl, replies: seq<Transport>)
    requires cfg.maxCount > 0 && |replies| > 0
    ensures |CrawlComments(cfg, replies).requests| >= 1
    ensures CrawlComments(cfg, replies).requests[0]
      == NoteCommentsRequest(cfg.headers, cfg.timeout, cfg.noteId, JNum(-1))
    ensures QueryValue(CrawlComments(cfg, replies).requests[0].query, "max_id").None?
  {
    var first := NoteCommentsRequest(cfg.headers, cfg.timeout, cfg.noteId, JNum(-1));
    FirstStepRequests(cfg, replies);
    assert CrawlComments(cfg, replies).requests[..1] == [first];
    CursorSentOnlyWhenPositive(cfg.headers, cfg.timeout, cfg.noteId, JNum(-1));
    assert !GreaterThan(JNum(-1), 0);
  }

  lemma FirstStepRequests(cfg: CommentCrawl, replies: seq<Transport>)
    requires cfg.maxCount > 0 && |replies| > 0
    ensures |CrawlComments(cfg, replies).requests| >= 1
    ensures CrawlComments(cfg, replies).requests[..1]
      == [NoteCommentsRequest(cfg.headers, cfg.timeout, cfg.noteId, JNum(-1))]
  {
    var next := CommentStep(cfg, CommentStart, replies[0]);
    CursorOfStep(cfg, CommentStart, replies[0]);
    RunCommentsExtends(cfg, next, replies[1..]);
  }

  /** Each request carries the cursor the previous answer left, and an
      answer without a truthy `max_id` resets the cursor to 0 and ends the
      crawl. */
  lemma CursorOfStep(cfg: CommentCrawl, st: CommentState, reply: Transport)
    requires CommentLooping(cfg, st)
    ensures CommentStep(cfg, st, reply).requests
      == st.requests + [NoteCommentsRequest(cfg.headers, cfg.timeout, cfg.noteId, st.maxId)]
    ensures Request(reply, false).Success? && !Truthy(Get(Request(reply, false).value.data, "max_id")) ==>
      CommentStep(cfg, st, reply).maxId == JNum(0) && CommentStep(cfg, st, reply).isEnd
        && !CommentLooping(cfg, CommentStep(cfg, st, reply))
  {
  }

  /** A page that would overrun the budget is cut to exactly the remaining
      budget, and that cut page is what the callback receives and what is
      appended first. */
  lemma TruncatedPage(cfg: CommentCrawl, st: CommentState, reply: Transport, xs: seq<Json>)
    requires CommentLooping(cfg, st)
    requires Request(reply, false).Success?
    requires Get(Request(reply, false).value.data, "data") == JArr(xs)
    requires |st.result| + |xs| > cfg.maxCount
    ensures var next := CommentStep(cfg, st, reply);
      |next.delivered| > |st.delivered|
      && next.delivered[|st.delivered|] == JArr(xs[..cfg.maxCount - |st.result|])
      && |next.result| >= cfg.maxCount
      && next.result[..cfg.maxCount] == st.result + xs[..cfg.maxCount - |st.result|]
      && (!cfg.subComments ==> |next.result| == cfg.maxCount)
  {
    var next := CommentStep(cfg, st, reply);
    var page := xs[..cfg.maxCount - |st.result|];
    assert Truncate(JArr(xs), |st.result|, cfg.maxCount) == Success(JArr(page));
    assert (st.result + page)[..cfg.maxCount] == st.result + page;
  }

  /** A `data` object whose `length` would overrun the budget has no
      `slice`: the round throws before the callback sees anything and
      before the pause. */
  lemma SliceOfObjectThrows(cfg: CommentCrawl, st: CommentState, reply: Transport, fields: map<string, Json>, n: int)
    requires CommentLooping(cfg, st)
    requires Request(reply, false).Success?
    requires Get(Request(reply, false).value.data, "data") == JObj(fields)
    requires "length" in fields && fields["length"] == JNum(n) && |st.result| + n > cfg.maxCount
    ensures var next := CommentStep(cfg, st, reply);
      next.thrown == Some(TypeError) && next.delivered == st.delivered
      && next.sleeps == st.sleeps && next.result == st.result
  {
    NumericSum(|st.result|, n, cfg.maxCount);
  }

  /** One round without sub-comments never takes the result past the
      budget. */
  lemma StepWithinBudget(cfg: CommentCrawl, st: CommentState, reply: Transport)
    requires CommentLooping(cfg, st) && !cfg.subComments
    ensures |CommentStep(cfg, st, reply).result| <= cfg.maxCount
  {
    match Request(reply, false)
    case Failure(_) =>
    case Success(r) =>
      var list := Or(Get(r.data, "data"), JArr([]));
      match Truncate(list, |st.result|, cfg.maxCount)
      case Failure(_) =>
      case Success(page) =>
        if page.JStr? {
          assert |Elements(page).value| == |page.s|;
        }
  }

  /** Without sub-comments the crawl never collects more than `maxCount`
      comments (nor anything when the budget is not positive). */
  lemma {:induction false} CommentsWithinBudget(cfg: CommentCrawl, st: CommentState, replies: seq<Transport>)
    requires !cfg.subComments
    requires |st.result| <= cfg.maxCount || st.result == []
    ensures |RunComments(cfg, st, replies).result| <= cfg.maxCount
      || RunComments(cfg, st, replies).result == []
    decreases |replies|
  {
    if CommentLooping(cfg, st) && |replies| > 0 {
      StepWithinBudget(cfg, st, replies[0]);
      CommentsWithinBudget(cfg, CommentStep(cfg, st, replies[0]), replies[1..]);
    }
  }

  /** What a crawl that did not throw has kept track of: one sleep per
      answered request, and a result that is the concatenation of
      everything the callback received, in order. */
  predicate CommentLedger(st: CommentState) {
    st.thrown.None? ==> st.sleeps == |st.requests| && st.result == Flatten(st.delivered)
  }

  lemma StepKeepsLedger(cfg: CommentCrawl, st: CommentState, reply: Transport)
    requires CommentLooping(cfg, st) && CommentLedger(st)
    ensures CommentLedger(CommentStep(cfg, st, reply))
  {
    match Request(reply, false)
    case Failure(_) =>
    case Success(r) =>
      match Truncate(Or(Get(r.data, "data"), JArr([])), |st.result|, cfg.maxCount)
      case Failure(_) =>
      case Success(page) =>
        match Elements(page)
        case Failure(_) =>
        case Success(items) =>
          var sub := SubCommentsOf(cfg.subComments, items);
          if sub.thrown.None? {
            FlattenAppend(st.delivered, [page]);
            FlattenAppend(st.delivered + [page], sub.delivered);
            if cfg.subComments {
              SubCommentsAreArrayFields(items);
            }
          }
  }

  /** The whole crawl: when it did not throw it slept once per page,
      including the last, and its result is the in-order concatenation of
      the lists the callback received (pages and, with the feature on,
      sub-comment arrays). */
  lemma {:induction false} CommentsLedger(cfg: CommentCrawl, st: CommentState, replies: seq<Transport>)
    requires CommentLedger(st)
    ensures CommentLedger(RunComments(cfg, st, replies))
    decreases |replies|
  {
    if CommentLooping(cfg, st) && |replies| > 0 {
      StepKeepsLedger(cfg, st, replies[0]);
      CommentsLedger(cfg, CommentStep(cfg, st, replies[0]), replies[1..]);
    }
  }

  // ---------------------------------------------------------------------
  // The timeline crawl
  // ---------------------------------------------------------------------

  predicate IsNoteCard(card: Json) {
    Get(card, "card_type") == JNum(9)
  }

  /** `notes.filter(note => note.card_type === 9)`: reading `card_type`
      of a `null` or `undefined` card throws. */
  function FilterNoteCards(cards: seq<Json>): (r: Result<seq<Json>, Exception>)
    ensures r.Failure? ==> r.error == TypeError
    ensures r.Success? ==> forall i :: 0 <= i < |r.value| ==> IsNoteCard(r.value[i])
    ensures r.Success? ==> |r.value| <= |cards|
    decreases |cards|
  {
    if |cards| == 0 then Success([])
    else if Nullish(cards[0]) then Failure(TypeError)
    else match FilterNoteCards(cards[1..])
      case Failure(e) => Failure(e)
      case Success(rest) => Success((if IsNoteCard(cards[0]) then [cards[0]] else []) + rest)
  }

  /** The filter succeeds exactly when no card is nullish, and it
      distributes over concatenation: the kept cards are the note cards
      of each part, in their original relative order. */
  lemma FilterNoteCardsSplits(a: seq<Json>, b: seq<Json>)
    ensures FilterNoteCards(a + b).Success? <==> FilterNoteCards(a).Success? && FilterNoteCards(b).Success?
    ensures FilterNoteCards(a + b).Success? ==>
      FilterNoteCards(a + b).value == FilterNoteCards(a).value + FilterNoteCards(b).value
  {
    FilterSplitSucceeds(a, b);
    if FilterNoteCards(a + b).Success? {
      FilterSplitKeeps(a, b);
    }
  }

  lemma {:induction false} FilterSplitSucceeds(a: seq<Json>, b: seq<Json>)
    ensures FilterNoteCards(a + b).Success? <==> FilterNoteCards(a).Success? && FilterNoteCards(b).Success?
    decreases |a|
  {
    if |a| == 0 {
      assert a + b == b;
    } else {
      FilterSplitSucceeds(a[1..], b);
      assert (a + b)[1..] == a[1..] + b;
      assert (a + b)[0] == a[0];
    }
  }

  lemma {:induction false} FilterSplitKeeps(a: seq<Json>, b: seq<Json>)
    requires FilterNoteCards(a).Success? && FilterNoteCards(b).Success? && FilterNoteCards(a + b).Success?
    ensures FilterNoteCards(a + b).value == FilterNoteCards(a).value + FilterNoteCards(b).value
    decreases |a|
  {
    if |a| == 0 {
      assert a + b == b;
    } else {
      var c := a[0];
      assert (a + b)[1..] == a[1..] + b;
      assert (a + b)[0] == c;
      FilterSplitKeeps(a[1..], b);
      var keep := if IsNoteCard(c) then [c] else [];
      var tail := FilterNoteCards(a[1..]).value;
      assert FilterNoteCards(a + b).value == keep + FilterNoteCards(a[1..] + b).value;
      assert FilterNoteCards(a).value == keep + tail;
      assert keep + (tail + FilterNoteCards(b).value) == (keep + tail) + FilterNoteCards(b).value;
    }
  }

  lemma {:induction false} FilterNoteCardsTotal(cards: seq<Json>)
    ensures FilterNoteCards(cards).Success? <==> forall i :: 0 <= i < |cards| ==> !Nullish(cards[i])
    decreases |cards|
  {
    if |cards| > 0 {
      FilterNoteCardsTotal(cards[1..]);
      assert forall i :: 1 <= i < |cards| ==> cards[i] == cards[1..][i - 1];
    }
  }

  /** A single card is kept exactly when it is a note card. */
  lemma FilterOneCard(card: Json)
    requires !Nullish(card)
    ensures FilterNoteCards([card]) == Success(if IsNoteCard(card) then [card] else [])
  {
    var cards := [card];
    assert cards[1..] == [];
    assert FilterNoteCards(cards[1..]) == Success([]);
    var kept := if IsNoteCard(card) then [card] else [];
    assert FilterNoteCards(cards) == Success(kept + []);
    assert kept + [] == kept;
  }

  /** Cards of types 9, 2, 9, 4 (say): the two note cards are kept, in
      order. */
  lemma FilterExample(a: Json, x: Json, b: Json, y: Json)
    requires !Nullish(a) && !Nullish(x) && !Nullish(b) && !Nullish(y)
    requires IsNoteCard(a) && !IsNoteCard(x) && IsNoteCard(b) && !IsNoteCard(y)
    ensures FilterNoteCards([a, x, b, y]) == Success([a, b])
  {
    assert [a, x, b, y][1..] == [x, b, y];
    assert [x, b, y][1..] == [b, y];
    assert [b, y][1..] == [y];
    FilterOneCard(y);
    assert [b] + [] == [b] && [] + [b] == [b] && [a] + [b] == [a, b];
    assert FilterNoteCards([b, y]) == Success([b]);
    assert FilterNoteCards([x, b, y]) == Success([b]);
    assert FilterNoteCards([a, x, b, y]) == Success([a, b]);
  }

  /** The fixed inputs of one timeline crawl. */
  datatype TimelineCrawl = TimelineCrawl(
    creatorId: string,
    containerId: string,
    headers: map<string, string>,
    timeout: int)

  /** The loop's variables (`result`, `notesHasMore`, `sinceId`,
      `crawlerTotalCount`) and what it has done: requests, filtered pages
      handed to the callback, sleeps, whether it left through a `break`,
      and the exception that ended it, if any. */
  datatype TimelineState = TimelineState(
    result: seq<Json>,
    hasMore: bool,
    sinceId: Json,
    totalCount: int,
    requests: seq<HttpRequest>,
    delivered: seq<seq<Json>>,
    sleeps: nat,
    broke: bool,
    thrown: Option<Exception>,
    unanswered: bool)

  const TimelineStart: TimelineState := TimelineState([], true, JStr(""), 0, [], [], 0, false, None, false)

  predicate TimelineLooping(st: TimelineState) {
    st.thrown.None? && !st.unanswered && !st.broke && st.hasMore
  }

  /** One round of the loop of `getAllNotesByCreatorId`. The `!notesRes`
      exit is kept although `Request` never yields a falsy payload. */
  function TimelineStep(cfg: TimelineCrawl, st: TimelineState, reply: Transport): (next: TimelineState)
    requires TimelineLooping(st)
    ensures |next.requests| == |st.requests| + 1 && !next.unanswered
    ensures |next.result| >= |st.result| && next.result[..|st.result|] == st.result
    ensures next.sleeps <= st.sleeps + 1
  {
    var st1 := st.(requests := st.requests
      + [CreatorNotesRequest(cfg.headers, cfg.timeout, cfg.creatorId, cfg.containerId, st.sinceId)]);
    match Request(reply, false)
    case Failure(e) => st1.(thrown := Some(e))
    case Success(r) =>
      var res := r.data;
      if !Truthy(res) then st1.(broke := true)
      else
        var info := Get(res, "cardlistInfo");
        var st2 := st1.(sinceId := Or(Get(info, "since_id"), JStr("0")));
        var cards := Get(res, "cards");
        if !Truthy(cards) then st2.(broke := true)
        else if !cards.JArr? then st2.(thrown := Some(TypeError))
        else match FilterNoteCards(cards.items)
          case Failure(e) => st2.(thrown := Some(e))
          case Success(notes) =>
            var count := st2.totalCount + 10;
            st2.(delivered := st2.delivered + [notes], sleeps := st2.sleeps + 1,
                 result := st2.result + notes, totalCount := count,
                 hasMore := GreaterThan(Or(Get(info, "total"), JNum(0)), count))
  }

  function RunTimeline(cfg: TimelineCrawl, st: TimelineState, replies: seq<Transport>): (end: TimelineState)
    ensures !TimelineLooping(end)
    decreases |replies|
  {
    if !TimelineLooping(st) then st
    else if |replies| == 0 then st.(unanswered := true)
    else RunTimeline(cfg, TimelineStep(cfg, st, replies[0]), replies[1..])
  }

  /** `getAllNotesByCreatorId`, from its initial state. */
  function CrawlTimeline(cfg: TimelineCrawl, replies: seq<Transport>): (end: TimelineState)
    ensures !TimelineLooping(end)
    ensures TimelineLedger(end)
  {
    TimelineResultIsPages(cfg, TimelineStart, replies);
    RunTimeline(cfg, TimelineStart, replies)
  }

  function Concat(pages: seq<seq<Json>>): seq<Json>
    decreases |pages|
  {
    if |pages| == 0 then [] else Concat(pages[..|pages| - 1]) + pages[|pages| - 1]
  }

  /** What the timeline crawl keeps track of: its result is the filtered
      pages in fetch order and holds only note cards; it slept once per
      page it kept; its counter is 10 per kept page. */
  predicate TimelineLedger(st: TimelineState) {
    && st.result == Concat(st.delivered)
    && (forall i :: 0 <= i < |st.result| ==> IsNoteCard(st.result[i]))
    && st.sleeps == |st.delivered|
    && st.totalCount == 10 * |st.delivered|
  }

  lemma TimelineStepKeepsLedger(cfg: TimelineCrawl, st: TimelineState, reply: Transport)
    requires TimelineLooping(st) && TimelineLedger(st)
    ensures TimelineLedger(TimelineStep(cfg, st, reply))
  {
    var next := TimelineStep(cfg, st, reply);
    if |next.delivered| > |st.delivered| {
      assert next.delivered[..|next.delivered| - 1] == st.delivered;
    }
  }

  /** The whole timeline crawl keeps its ledger. */
  lemma {:induction false} TimelineResultIsPages(cfg: TimelineCrawl, st: TimelineState, replies: seq<Transport>)
    requires TimelineLedger(st)
    ensures TimelineLedger(RunTimeline(cfg, st, replies))
    decreases |replies|
  {
    if TimelineLooping(st) && |replies| > 0 {
      TimelineStepKeepsLedger(cfg, st, replies[0]);
      TimelineResultIsPages(cfg, TimelineStep(cfg, st, replies[0]), replies[1..]);
    }
  }

  /** An answer whose payload has no truthy `cards` ends the crawl through
      the `break`, with the result collected so far and no sleep. */
  lemma CardlessPageEndsCrawl(cfg: TimelineCrawl, st: TimelineState, reply: Transport)
    requires TimelineLooping(st)
    requires Request(reply, false).Success?
    requires !Truthy(Get(Request(reply, false).value.data, "cards"))
    ensures var next := TimelineStep(cfg, st, reply);
      next.broke && next.thrown.None? && next.result == st.result && next.sleeps == st.sleeps
      && |next.requests| == |st.requests| + 1
  {
  }

  /** An answer the client accepts as one full page whose reported total,
      read as `cardlistInfo.total || 0`, is the number `total`. */
  predicate NotesPage(reply: Transport, total: int) {
    && Request(reply, false).Success?
    && var res := Request(reply, false).value.data;
       && Get(res, "cards").JArr?
       && (forall i :: 0 <= i < |Get(res, "cards").items| ==> !Nullish(Get(res, "cards").items[i]))
       && ToNumeric(Or(Get(Get(res, "cardlistInfo"), "total"), JNum(0))) == Finite(total as real)
  }

  /** How `total || 0` reads the reported total: a missing, null, empty or
      zero total is 0, and a total sent as a number or as its decimal text
      is that number. */
  lemma ReportedTotal(reported: Json, t: int)
    ensures !Truthy(reported) ==> ToNumeric(Or(reported, JNum(0))) == Finite(0.0)
    ensures reported == JNum(t) || reported == JStr(Text.IntToString(t)) ==>
      ToNumeric(Or(reported, JNum(0))) == Finite(t as real)
  {
    if reported == JStr(Text.IntToString(t)) {
      IntStringToNumber(t);
    }
  }

  /** The number of pages a constant reported total calls for:
      max(1, ⌈total / 10⌉). */
  function Pages(total: int): (n: nat)
    ensures n >= 1
  {
    if total <= 10 then 1 else (total + 9) / 10
  }

  /** After `m >= 1` pages the counter is `10 m`, which stays below the
      total exactly while fewer than `Pages(total)` pages have been read. */
  lemma PagesThreshold(m: int, total: int)
    requires m >= 1
    ensures 10 * m < total <==> m < Pages(total)
  {
    if total > 10 {
      var p := (total + 9) / 10;
      assert 10 * p <= total + 9 < 10 * p + 10;
    }
  }

  /** One accepted page adds one request, one sleep and 10 to the counter,
      and leaves more to do exactly while the counter is below the total. */
  lemma PageStep(cfg: TimelineCrawl, st: TimelineState, reply: Transport, total: int)
    requires TimelineLooping(st) && NotesPage(reply, total)
    ensures var next := TimelineStep(cfg, st, reply);
      && next.thrown.None? && !next.broke && !next.unanswered
      && |next.requests| == |st.requests| + 1 && next.sleeps == st.sleeps + 1
      && next.totalCount == st.totalCount + 10
      && next.hasMore == (st.totalCount + 10 < total)
  {
    var res := Request(reply, false).value.data;
    FilterNoteCardsTotal(Get(res, "cards").items);
  }

  lemma {:induction false} PagesFrom(cfg: TimelineCrawl, st: TimelineState, replies: seq<Transport>, total: int, k: nat)
    requires TimelineLooping(st) && st.totalCount == 10 * k && k < Pages(total)
    requires |st.requests| == k && st.sleeps == k
    requires forall i :: 0 <= i < |replies| ==> NotesPage(replies[i], total)
    requires |replies| >= Pages(total) - k
    ensures var end := RunTimeline(cfg, st, replies);
      && end.thrown.None? && !end.broke && !end.unanswered
      && |end.requests| == Pages(total) && end.sleeps == Pages(total)
    decreases |replies|
  {
    var next := TimelineStep(cfg, st, replies[0]);
    PageStep(cfg, st, replies[0], total);
    PagesThreshold(k + 1, total);
    if next.hasMore {
      PagesFrom(cfg, next, replies[1..], total, k + 1);
    }
  }

  /** With a constant reported total T, the crawl fetches exactly
      max(1, ⌈T/10⌉) pages, whatever each page holds, and sleeps after
      each of them. */
  lemma TimelinePageCount(cfg: TimelineCrawl, replies: seq<Transport>, total: int)
    requires forall i :: 0 <= i < |replies| ==> NotesPage(replies[i], total)
    requires |replies| >= Pages(total)
    ensures var end := CrawlTimeline(cfg, replies);
      && end.thrown.None? && !end.broke && !end.unanswered
      && |end.requests| == Pages(total) && end.sleeps == Pages(total)
  {
    PagesFrom(cfg, TimelineStart, replies, total, 0);
  }
}
