/** The platform's three login flows over a browser context: the QR-code
    flow that opens the single-sign-on page, shows the code and polls the
    cookie jar until a logged-in cookie appears, the phone flow (a stub),
    and the cookie-string flow that injects parsed cookies. The browser is
    an oracle: `qrcode` is what the page yields for the code image (`""`
    when none is found), `preScan` is the jar read just after the code is
    shown, and `polls(j)` is the jar the j-th login check reads. */
module WeiboLogin {
  import opened Wrappers
  import opened Text
  import opened JsValue
  import opened CrawlerUtil

  const SsoLoginUrl := "https://passport.weibo.com/sso/signin?entry=miniblog&source=miniblog"
  /** The retry policy of the poll: 600 retries after the first check, a
      fixed 1000 ms between checks (factor 1, minimum = maximum timeout). */
  const MaxRetries := 600
  const Attempts := MaxRetries + 1
  const RetryDelayMs := 1000
  /** The pause after a successful scan, for the page to redirect. */
  const RedirectWaitMs := 5 * 1000
  const InvalidLoginType := "[WeiboLogin.begin] Invalid Login Type. Currently only supported qrcode, phone, cookie."
  const CookieDomain := ".weibo.cn"
  const CookiePath := "/"

  /** A cookie record handed to the browser context. */
  datatype BrowserCookie = BrowserCookie(name: string, value: string, domain: string, path: string)

  /** How a login flow ends: it returns after waiting `waitedMs` in total,
      it terminates the process with an exit code, or it throws. */
  datatype Outcome =
    | Finished(waitedMs: nat)
    | Exited(code: int)
    | Threw(error: Exception)

  /** The browser context as the login flows drive it: the pages it was
      sent to and the batches of cookies added to its jar. */
  class BrowserContext {
    var visited: seq<string>
    var added: seq<set<BrowserCookie>>

    constructor()
      ensures visited == [] && added == []
    {
      visited := [];
      added := [];
    }

    method Goto(url: string)
      modifies this
      ensures visited == old(visited) + [url]
      ensures added == old(added)
    {
      visited := visited + [url];
    }

    method AddCookies(cookies: set<BrowserCookie>)
      modifies this
      ensures added == old(added) + [cookies]
      ensures visited == old(visited)
    {
      added := added + [cookies];
    }
  }

  // ---------------------------------------------------------------------
  // The logged-in decision (checkLoginState)
  // ---------------------------------------------------------------------

  /** `dict[name]` on a record of strings. */
  function Lookup(dict: map<string, string>, name: string): (r: Json)
    ensures r == JUndefined <==> name !in dict
    ensures name in dict ==> r == JStr(dict[name])
  {
    if name in dict then JStr(dict[name]) else JUndefined
  }

  /** The decision read from the cookie dictionary of the jar: a truthy
      `SSOLoginState`, or a truthy `WBPSESS` different from the session
      captured before the scan. */
  predicate LoggedIn(jar: seq<Cookie>, noSession: Json) {
    var dict := CookieDict(jar);
    Truthy(Lookup(dict, "SSOLoginState"))
    || (Truthy(Lookup(dict, "WBPSESS")) && Lookup(dict, "WBPSESS") != noSession)
  }

  /** The same decision where the destructuring binds the first element of
      the converted pair, the `name=value; ...` header string, so that both
      cookie names are read as properties of a string. */
  predicate LoggedInAsWritten(jar: seq<Cookie>, noSession: Json) {
    var bound := JStr(if jar == [] then "" else CookieHeader(jar));
    Truthy(Get(bound, "SSOLoginState"))
    || (Truthy(Get(bound, "WBPSESS")) && Get(bound, "WBPSESS") != noSession)
  }

  /** Reading a cookie name off the header string yields `undefined` for
      every jar, so the check as written never reports a login. */
  lemma LoginStateAsWrittenNeverHolds(jar: seq<Cookie>, noSession: Json)
    ensures !LoggedInAsWritten(jar, noSession)
  {
    assert !IsDigit("SSOLoginState"[0]);
    assert !IsDigit("WBPSESS"[0]);
  }

  /** The intended decision in terms of the jar's dictionary: a non-empty
      `SSOLoginState`, or a non-empty `WBPSESS` other than the captured
      session. */
  lemma LoggedInMeaning(jar: seq<Cookie>, noSession: Json)
    ensures LoggedIn(jar, noSession) <==>
      ("SSOLoginState" in CookieDict(jar) && CookieDict(jar)["SSOLoginState"] != "")
      || ("WBPSESS" in CookieDict(jar) && CookieDict(jar)["WBPSESS"] != ""
          && noSession != JStr(CookieDict(jar)["WBPSESS"]))
  {
  }

  /** A jar holding a non-empty `SSOLoginState` cookie is logged in by the
      intended decision and not by the written one. */
  lemma AsWrittenMissesSsoLogin(noSession: Json)
    ensures LoggedIn([Cookie("SSOLoginState", "1")], noSession)
    ensures !LoggedInAsWritten([Cookie("SSOLoginState", "1")], noSession)
  {
    var jar := [Cookie("SSOLoginState", "1")];
    assert CookieDict(jar) == map["SSOLoginState" := "1"] by {
      assert jar[..0] == [];
    }
    LoginStateAsWrittenNeverHolds(jar, noSession);
  }

  /** The last `SSOLoginState` cookie of the jar, when non-empty, logs in
      whatever the captured session was. */
  lemma {:induction false} SsoCookieLogsIn(jar: seq<Cookie>, i: nat, noSession: Json)
    requires i < |jar| && jar[i].name == "SSOLoginState" && jar[i].value != ""
    requires forall j :: i < j < |jar| ==> jar[j].name != "SSOLoginState"
    ensures LoggedIn(jar, noSession)
  {
    CookieDictLast(jar, i);
  }

  /** A last `WBPSESS` cookie that is non-empty and differs from the
      captured session logs in. */
  lemma {:induction false} NewSessionLogsIn(jar: seq<Cookie>, i: nat, noSession: Json)
    requires i < |jar| && jar[i].name == "WBPSESS" && jar[i].value != ""
    requires forall j :: i < j < |jar| ==> jar[j].name != "WBPSESS"
    requires noSession != JStr(jar[i].value)
    ensures LoggedIn(jar, noSession)
  {
    CookieDictLast(jar, i);
  }

  /** Checked against its own session, a jar without `SSOLoginState` is not
      logged in: an unscanned page never passes. */
  lemma {:induction false} UnchangedSessionIsNotLogin(jar: seq<Cookie>)
    requires forall c :: c in jar ==> c.name != "SSOLoginState"
    ensures !LoggedIn(jar, Lookup(CookieDict(jar), "WBPSESS"))
  {
    CookieDictKeys(jar);
    assert "SSOLoginState" !in CookieDict(jar);
  }

  // ---------------------------------------------------------------------
  // The retry poll (waitForLoginSuccess)
  // ---------------------------------------------------------------------

  /** The index of the first of the `Attempts` checks from `k` on that
      passes, if any. */
  function FirstPass(pass: nat -> bool, k: nat): (r: Option<nat>)
    ensures r.Some? ==> k <= r.value < Attempts && pass(r.value)
    decreases Attempts - k
  {
    if k >= Attempts then None
    else if pass(k) then Some(k)
    else FirstPass(pass, k + 1)
  }

  /** One check of the poll: it passes, or the search moves on. */
  lemma FirstPassStep(pass: nat -> bool, k: nat)
    requires k < Attempts
    ensures FirstPass(pass, k) == if pass(k) then Some(k) else FirstPass(pass, k + 1)
  {
  }

  /** `FirstPass` finds the first passing check, and finds none only when
      every check in range fails. */
  lemma {:induction false} FirstPassIsFirst(pass: nat -> bool, k: nat)
    ensures FirstPass(pass, k).Some? ==> forall j :: k <= j < FirstPass(pass, k).value ==> !pass(j)
    ensures FirstPass(pass, k).None? <==> forall j :: k <= j < Attempts ==> !pass(j)
    decreases Attempts - k
  {
    if k < Attempts && !pass(k) {
      FirstPassIsFirst(pass, k + 1);
    }
  }

  /** The outcomes of the successive login checks against a captured
      session. */
  function Polls(polls: nat -> seq<Cookie>, noSession: Json): nat -> bool {
    (j: nat) => LoggedIn(polls(j), noSession)
  }

  function PollsAsWritten(polls: nat -> seq<Cookie>, noSession: Json): nat -> bool {
    (j: nat) => LoggedInAsWritten(polls(j), noSession)
  }

  /** With the check as written the poll never succeeds, whatever the jar
      becomes. */
  lemma WaitAsWrittenNeverSucceeds(polls: nat -> seq<Cookie>, noSession: Json)
    ensures FirstPass(PollsAsWritten(polls, noSession), 0) == None
  {
    var r := FirstPass(PollsAsWritten(polls, noSession), 0);
    if r.Some? {
      LoginStateAsWrittenNeverHolds(polls(r.value), noSession);
    }
  }

  // ---------------------------------------------------------------------
  // The QR-code flow
  // ---------------------------------------------------------------------

  /** How the QR-code flow ends, given the outcome of each check of the
      poll: without a code image, or when no check passes, the process
      exits with status 1; otherwise it returns after the poll's delays
      and the redirect pause. */
  function QrFlow(qrcode: string, pass: nat -> bool): (r: Outcome)
    ensures qrcode == "" ==> r == Exited(1)
    ensures r.Finished? ==> RedirectWaitMs <= r.waitedMs < RetryDelayMs * Attempts + RedirectWaitMs
    ensures !r.Finished? ==> r == Exited(1)
  {
    if qrcode == "" then Exited(1)
    else
      match FirstPass(pass, 0)
      case None => Exited(1)
      case Some(k) => Finished(RetryDelayMs * k + RedirectWaitMs)
  }

  /** The QR-code flow with the intended check: it returns exactly when a
      code was shown and the jar of some check is logged in against the
      session captured before the scan. */
  function QrOutcome(qrcode: string, preScan: seq<Cookie>, polls: nat -> seq<Cookie>): (r: Outcome)
    ensures r.Finished? <==>
      && qrcode != ""
      && exists j :: 0 <= j < Attempts && LoggedIn(polls(j), Lookup(CookieDict(preScan), "WBPSESS"))
  {
    SomeCheckPasses(polls, Lookup(CookieDict(preScan), "WBPSESS"));
    QrFlow(qrcode, Polls(polls, Lookup(CookieDict(preScan), "WBPSESS")))
  }

  /** The QR-code flow as written: the session is captured with the same
      destructuring as the check, so it too is a property read off the
      header string. */
  function QrOutcomeAsWritten(qrcode: string, preScan: seq<Cookie>, polls: nat -> seq<Cookie>): Outcome {
    var captured := Get(JStr(if preScan == [] then "" else CookieHeader(preScan)), "WBPSESS");
    QrFlow(qrcode, PollsAsWritten(polls, captured))
  }

  /** As written, the QR-code flow exits with status 1 whatever happens,
      even after a successful scan. */
  lemma QrAsWrittenAlwaysExits(qrcode: string, preScan: seq<Cookie>, polls: nat -> seq<Cookie>)
    ensures QrOutcomeAsWritten(qrcode, preScan, polls) == Exited(1)
  {
    var captured := Get(JStr(if preScan == [] then "" else CookieHeader(preScan)), "WBPSESS");
    WaitAsWrittenNeverSucceeds(polls, captured);
  }

  /** The QR-code flow returns exactly when a code was shown and one of the
      checks passes; otherwise it exits with status 1. */
  lemma QrOutcomeMeaning(qrcode: string, preScan: seq<Cookie>, polls: nat -> seq<Cookie>)
    ensures QrOutcome(qrcode, preScan, polls).Finished? <==>
      (qrcode != "" && FirstPass(Polls(polls, Lookup(CookieDict(preScan), "WBPSESS")), 0).Some?)
    ensures QrOutcome(qrcode, preScan, polls).Finished? ==>
      RedirectWaitMs <= QrOutcome(qrcode, preScan, polls).waitedMs < RetryDelayMs * Attempts + RedirectWaitMs
    ensures !QrOutcome(qrcode, preScan, polls).Finished? ==> QrOutcome(qrcode, preScan, polls) == Exited(1)
  {
  }

  /** Some check in range passes exactly when the poll finds one. */
  lemma SomeCheckPasses(polls: nat -> seq<Cookie>, noSession: Json)
    ensures FirstPass(Polls(polls, noSession), 0).Some? <==>
      exists j :: 0 <= j < Attempts && LoggedIn(polls(j), noSession)
  {
    var pass := Polls(polls, noSession);
    FirstPassIsFirst(pass, 0);
    if exists j :: 0 <= j < Attempts && LoggedIn(polls(j), noSession) {
      var j :| 0 <= j < Attempts && LoggedIn(polls(j), noSession);
      assert pass(j);
    }
  }

  /** When nobody scans, every check reads the captured jar again and the
      flow exits with status 1. */
  lemma {:induction false} NoScanExits(qrcode: string, preScan: seq<Cookie>, polls: nat -> seq<Cookie>)
    requires forall j :: polls(j) == preScan
    requires forall c :: c in preScan ==> c.name != "SSOLoginState"
    ensures QrOutcome(qrcode, preScan, polls) == Exited(1)
  {
    var pass := Polls(polls, Lookup(CookieDict(preScan), "WBPSESS"));
    var r := FirstPass(pass, 0);
    if r.Some? {
      assert pass(r.value) == LoggedIn(preScan, Lookup(CookieDict(preScan), "WBPSESS"));
      UnchangedSessionIsNotLogin(preScan);
    }
  }

  // ---------------------------------------------------------------------
  // The cookie-string flow
  // ---------------------------------------------------------------------

  function WeiboCookie(name: string, value: string): BrowserCookie {
    BrowserCookie(name, value, CookieDomain, CookiePath)
  }

  /** The cookies injected for a `k=v; k=v` string: one per entry of the
      parsed dictionary, each on domain `.weibo.cn` and path `/`. */
  function CookiesToAdd(cookieStr: string): (r: set<BrowserCookie>)
    ensures cookieStr == "" ==> r == {}
    ensures forall c :: c in r ==>
      c.domain == CookieDomain && c.path == CookiePath
      && c.name in StrCookieDict(cookieStr) && StrCookieDict(cookieStr)[c.name] == c.value
    ensures forall k :: k in StrCookieDict(cookieStr) ==> WeiboCookie(k, StrCookieDict(cookieStr)[k]) in r
    ensures forall c, d :: c in r && d in r && c.name == d.name ==> c == d
  {
    var dict := StrCookieDict(cookieStr);
    set k | k in dict :: WeiboCookie(k, dict[k])
  }

  /** Logging in with the header string of a jar of plain tokens injects
      exactly the jar's cookies, each under its last value. */
  lemma HeaderLoginInjectsJar(cs: seq<Cookie>)
    requires forall i :: 0 <= i < |cs| ==> PlainToken(cs[i].name) && PlainToken(cs[i].value)
    ensures CookiesToAdd(CookieHeader(cs)) == set k | k in CookieDict(cs) :: WeiboCookie(k, CookieDict(cs)[k])
  {
    CookieRoundTrip(cs);
  }

  // ---------------------------------------------------------------------
  // The login object
  // ---------------------------------------------------------------------

  class WeiboLogin {
    const loginType: string
    const context: BrowserContext
    const loginPhone: string
    const cookieStr: string

    constructor(loginType: string, context: BrowserContext, loginPhone: string, cookieStr: string)
      ensures this.loginType == loginType && this.context == context
      ensures this.loginPhone == loginPhone && this.cookieStr == cookieStr
    {
      this.loginType := loginType;
      this.context := context;
      this.loginPhone := loginPhone;
      this.cookieStr := cookieStr;
    }

    /** Dispatches on the login type; any other type throws. */
    method Begin(qrcode: string, preScan: seq<Cookie>, polls: nat -> seq<Cookie>) returns (outcome: Outcome)
      modifies context
      ensures loginType == "qrcode" ==>
        outcome == QrOutcome(qrcode, preScan, polls)
        && context.visited == old(context.visited) + [SsoLoginUrl]
        && context.added == old(context.added)
      ensures loginType == "phone" ==>
        outcome == Finished(0)
        && context.visited == old(context.visited) && context.added == old(context.added)
      ensures loginType == "cookie" ==>
        outcome == Finished(0)
        && context.visited == old(context.visited)
        && context.added == old(context.added) + [CookiesToAdd(cookieStr)]
      ensures loginType !in {"qrcode", "phone", "cookie"} ==>
        outcome == Threw(PlainError(InvalidLoginType))
        && context.visited == old(context.visited) && context.added == old(context.added)
    {
      if loginType == "qrcode" {
        outcome := LoginByQrcode(qrcode, preScan, polls);
      } else if loginType == "phone" {
        LoginByMobile();
        outcome := Finished(0);
      } else if loginType == "cookie" {
        LoginByCookies();
        outcome := Finished(0);
      } else {
        outcome := Threw(PlainError(InvalidLoginType));
      }
    }

    /** One login check on the jar `jar`: a non-empty `SSOLoginState`
        cookie, or a non-empty `WBPSESS` cookie whose value is not the
        captured session. */
    method CheckLoginState(jar: seq<Cookie>, noSession: Json) returns (loggedIn: bool)
      ensures loggedIn == LoggedIn(jar, noSession)
    {
      var header, dict := ConvertCookies(Some(jar));
      if Truthy(Lookup(dict, "SSOLoginState")) {
        return true;
      }
      var currentWebSession := Lookup(dict, "WBPSESS");
      if Truthy(currentWebSession) && currentWebSession != noSession {
        return true;
      }
      return false;
    }

    /** Polls the jar up to `Attempts` times, 1000 ms apart, and succeeds
        at the first check that passes. */
    method WaitForLoginSuccess(noSession: Json, polls: nat -> seq<Cookie>)
      returns (ok: bool, attempts: nat, waitedMs: nat)
      ensures ok <==> FirstPass(Polls(polls, noSession), 0).Some?
      ensures ok ==> attempts == FirstPass(Polls(polls, noSession), 0).value + 1
      ensures !ok ==> attempts == Attempts
      ensures waitedMs + RetryDelayMs == RetryDelayMs * attempts
    {
      ok, attempts, waitedMs := false, 0, 0;
      ghost var pass := Polls(polls, noSession);
      for k := 0 to Attempts
        invariant attempts == k
        invariant FirstPass(pass, 0) == FirstPass(pass, k)
        invariant waitedMs == if k == 0 then 0 else RetryDelayMs * (k - 1)
      {
        if k > 0 {
          // the fixed pause before each retry
          waitedMs := waitedMs + RetryDelayMs;
        }
        var loggedIn := CheckLoginState(polls(k), noSession);
        attempts := k + 1;
        assert loggedIn == pass(k);
        FirstPassStep(pass, k);
        if loggedIn {
          ok := true;
          return;
        }
      }
    }

    /** Opens the sign-on page; without a code image, or when the poll
        fails, exits with status 1; otherwise waits for the redirect. */
    method LoginByQrcode(qrcode: string, preScan: seq<Cookie>, polls: nat -> seq<Cookie>) returns (outcome: Outcome)
      modifies context
      ensures outcome == QrOutcome(qrcode, preScan, polls)
      ensures context.visited == old(context.visited) + [SsoLoginUrl]
      ensures context.added == old(context.added)
    {
      context.Goto(SsoLoginUrl);
      if qrcode == "" {
        return Exited(1);
      }
      var header, dict := ConvertCookies(Some(preScan));
      var noLoggedInSession := Lookup(dict, "WBPSESS");
      var ok, attempts, waitedMs := WaitForLoginSuccess(noLoggedInSession, polls);
      if !ok {
        return Exited(1);
      }
      outcome := Finished(waitedMs + RedirectWaitMs);
    }

    /** Not implemented by the platform: returns without effect. */
    method LoginByMobile()
    {
    }

    /** Injects the cookies parsed from `cookieStr`. */
    method LoginByCookies()
      modifies context
      ensures context.added == old(context.added) + [CookiesToAdd(cookieStr)]
      ensures context.visited == old(context.visited)
    {
      var cookieDict := ConvertStrCookieToDict(cookieStr);
      var cookiesToAdd := set k | k in cookieDict :: WeiboCookie(k, cookieDict[k]);
      context.AddCookies(cookiesToAdd);
    }
  }
}
