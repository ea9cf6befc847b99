/** The cookie, counter, proxy and HTML helpers of the crawler utilities:
    the conversion of a browser cookie jar into a `Cookie` header plus a
    name-to-value dictionary, the reverse parser of a `k=v; k=v` string,
    the first-number extraction used for interaction counters, the proxy
    record formatting, and the tag stripper. */
module CrawlerUtil {
  import opened Wrappers
  import opened Text

  // ---------------------------------------------------------------------
  // Cookie jar -> header string and dictionary (convertCookies)
  // ---------------------------------------------------------------------

  /** The two fields of a browser cookie that the crawler reads. */
  datatype Cookie = Cookie(name: string, value: string)

  function Pair(c: Cookie): string {
    c.name + "=" + c.value
  }

  function Pairs(cs: seq<Cookie>): seq<string> {
    seq(|cs|, i requires 0 <= i < |cs| => Pair(cs[i]))
  }

  /** The `Cookie` header value of a jar: its `name=value` pairs in jar
      order, joined by `"; "` as in the cookie-string grammar of section
      4.2.1 of RFC 6265. */
  function CookieHeader(cs: seq<Cookie>): string {
    Join(Pairs(cs), "; ")
  }

  /** The dictionary obtained by assigning `dict[name] = value` for the
      cookies in jar order. */
  function CookieDict(cs: seq<Cookie>): map<string, string>
    decreases |cs|
  {
    if |cs| == 0 then map[]
    else CookieDict(cs[..|cs| - 1])[cs[|cs| - 1].name := cs[|cs| - 1].value]
  }

  /** The dictionary has exactly the names of the jar as keys. */
  lemma {:induction false} CookieDictKeys(cs: seq<Cookie>)
    ensures CookieDict(cs).Keys == set c | c in cs :: c.name
    decreases |cs|
  {
    if |cs| > 0 {
      var init := cs[..|cs| - 1];
      CookieDictKeys(init);
      assert cs == init + [cs[|cs| - 1]];
      assert (set c | c in cs :: c.name) == (set c | c in init :: c.name) + {cs[|cs| - 1].name};
    }
  }

  /** Each name maps to the value of its last occurrence in the jar. */
  lemma {:induction false} CookieDictLast(cs: seq<Cookie>, i: nat)
    requires i < |cs|
    requires forall j :: i < j < |cs| ==> cs[j].name != cs[i].name
    ensures cs[i].name in CookieDict(cs) && CookieDict(cs)[cs[i].name] == cs[i].value
    decreases |cs|
  {
    if i < |cs| - 1 {
      CookieDictLast(cs[..|cs| - 1], i);
    }
  }

  /** `convertCookies`: a missing or empty jar gives `["", {}]`; otherwise
      the header string and the dictionary of the jar. */
  method ConvertCookies(cookies: Option<seq<Cookie>>) returns (str: string, dict: map<string, string>)
    ensures cookies.None? || cookies.value == [] ==> str == "" && dict == map[]
    ensures cookies.Some? ==> str == CookieHeader(cookies.value) && dict == CookieDict(cookies.value)
  {
    if cookies.None? || |cookies.value| == 0 {
      return "", map[];
    }
    var cs := cookies.value;
    str := Join(Pairs(cs), "; ");
    dict := map[];
    var i := 0;
    while i < |cs|
      invariant 0 <= i <= |cs|
      invariant dict == CookieDict(cs[..i])
    {
      assert cs[..i + 1][..i] == cs[..i];
      dict := dict[cs[i].name := cs[i].value];
      i := i + 1;
    }
    assert cs[..|cs|] == cs;
  }

  // ---------------------------------------------------------------------
  // "k=v; k=v" string -> dictionary (convertStrCookieToDict)
  // ---------------------------------------------------------------------

  /** What one `;`-separated piece contributes: `k` and `v` are the first
      two `=`-separated parts of the trimmed piece (a missing part is
      `undefined`, which is falsy like `""`), and the piece counts only
      when both are non-empty. Anything after a second `=` is dropped. */
  function PieceEntry(piece: string): (r: Option<(string, string)>)
    ensures r.Some? ==> r.value.0 != "" && r.value.1 != ""
    ensures r.Some? ==> '=' !in r.value.0 && '=' !in r.value.1
  {
    var kv := Split(Trim(piece), '=');
    var k := kv[0];
    var v := if |kv| >= 2 then kv[1] else "";
    if k != "" && v != "" then Some((k, v)) else None
  }

  /** The dictionary filled from the pieces in order; a later piece with
      the same key overwrites an earlier one. */
  function EntriesDict(pieces: seq<string>): map<string, string>
    decreases |pieces|
  {
    if |pieces| == 0 then map[]
    else
      var d := EntriesDict(pieces[..|pieces| - 1]);
      var entry := PieceEntry(pieces[|pieces| - 1]);
      if entry.Some? then d[entry.value.0 := entry.value.1] else d
  }

  /** The dictionary `convertStrCookieToDict` builds from a cookie string. */
  function StrCookieDict(s: string): (r: map<string, string>)
    ensures forall k :: k in r ==>
      k != "" && r[k] != "" && ';' !in k && '=' !in k && ';' !in r[k] && '=' !in r[k]
  {
    if s == "" then map[]
    else
      EntriesTokens(Split(s, ';'));
      EntriesDict(Split(s, ';'))
  }

  /** `convertStrCookieToDict`: the empty string gives `{}`; otherwise the
      pieces between `;` are read in order. */
  method ConvertStrCookieToDict(cookieStr: string) returns (dict: map<string, string>)
    ensures cookieStr == "" ==> dict == map[]
    ensures dict == StrCookieDict(cookieStr)
  {
    dict := map[];
    if cookieStr == "" {
      return;
    }
    var pieces := Split(cookieStr, ';');
    for i := 0 to |pieces|
      invariant dict == EntriesDict(pieces[..i])
    {
      EntriesDictStep(pieces, i);
      var entry := PieceEntry(pieces[i]);
      if entry.Some? {
        dict := dict[entry.value.0 := entry.value.1];
      }
    }
    assert pieces[..|pieces|] == pieces;
  }

  /** Reading one more piece applies that piece's entry. */
  lemma EntriesDictStep(pieces: seq<string>, i: nat)
    requires i < |pieces|
    ensures var entry := PieceEntry(pieces[i]);
      EntriesDict(pieces[..i + 1])
        == if entry.Some? then EntriesDict(pieces[..i])[entry.value.0 := entry.value.1] else EntriesDict(pieces[..i])
  {
    assert pieces[..i + 1][..i] == pieces[..i];
  }

  /** A character absent from a string is absent from every piece of it. */
  lemma {:induction false} SplitAvoids(s: string, sep: char, c: char)
    requires c !in s
    ensures forall i :: 0 <= i < |Split(s, sep)| ==> c !in Split(s, sep)[i]
    decreases |s|
  {
    if |s| > 0 {
      assert c !in s[1..];
      SplitAvoids(s[1..], sep, c);
    }
  }

  lemma TrimAvoids(s: string, c: char)
    requires c !in s
    ensures c !in Trim(s)
  {
    var t := TrimStart(s);
    assert t == s[|s| - |t|..];
    assert c !in t;
    assert TrimEnd(t) == t[..|TrimEnd(t)|];
  }

  /** Every key and value the parser keeps is non-empty and free of `;`
      and `=`. */
  lemma {:induction false} EntriesTokens(pieces: seq<string>)
    requires forall i :: 0 <= i < |pieces| ==> ';' !in pieces[i]
    ensures forall k :: k in EntriesDict(pieces) ==>
      k != "" && EntriesDict(pieces)[k] != ""
      && ';' !in k && '=' !in k && ';' !in EntriesDict(pieces)[k] && '=' !in EntriesDict(pieces)[k]
    decreases |pieces|
  {
    if |pieces| > 0 {
      var last := pieces[|pieces| - 1];
      EntriesTokens(pieces[..|pieces| - 1]);
      TrimAvoids(last, ';');
      SplitAvoids(Trim(last), '=', ';');
    }
  }

  /** A piece `k=v=w` keeps only the text between the first and second
      `=`: `"a=b=c"` gives `a` mapped to `b`. */
  lemma SecondEqualsDropsTail(k: string, v: string, w: string)
    requires k != "" && v != "" && '=' !in k && '=' !in v && '=' !in w
    requires !IsJsSpace(k[0]) && (w == "" || !IsJsSpace(w[|w| - 1]))
    ensures PieceEntry(k + "=" + v + "=" + w) == Some((k, v))
  {
    var p := k + "=" + v + "=" + w;
    assert p[0] == k[0];
    assert p[|p| - 1] == if w == "" then '=' else w[|w| - 1];
    TrimUntouched(p);
    SplitJoin([k, v, w], '=');
    JoinThree(k, v, w, "=");
    assert Split(Trim(p), '=') == [k, v, w];
  }

  // ---------------------------------------------------------------------
  // Round trip between the serialiser and the parser
  // ---------------------------------------------------------------------

  /** A cookie name or value that survives serialisation and parsing: not
      empty, no `;` or `=`, no white space at either end. */
  predicate PlainToken(t: string) {
    t != "" && ';' !in t && '=' !in t && !IsJsSpace(t[0]) && !IsJsSpace(t[|t| - 1])
  }

  /** The pieces `split(";")` yields from a `"; "`-joined list: every piece
      after the first keeps the blank that followed the `;`. */
  function Spaced(ps: seq<string>): seq<string> {
    seq(|ps|, i requires 0 <= i < |ps| => if i == 0 then ps[0] else " " + ps[i])
  }

  lemma {:induction false} JoinSemicolonBlank(ps: seq<string>)
    requires |ps| >= 1
    ensures Join(ps, "; ") == Join(Spaced(ps), ";")
    decreases |ps|
  {
    if |ps| >= 2 {
      var tail := ps[1..];
      JoinSemicolonBlank(tail);
      BlankJoin(tail);
      var sp := Spaced(ps);
      assert sp[1..] == Blanked(tail);
      assert Join(ps, "; ") == ps[0] + "; " + Join(tail, "; ");
      assert Join(sp, ";") == sp[0] + ";" + Join(sp[1..], ";");
    }
  }

  function Blanked(ps: seq<string>): seq<string> {
    seq(|ps|, i requires 0 <= i < |ps| => " " + ps[i])
  }

  lemma BlankJoin(ps: seq<string>)
    requires |ps| >= 1
    ensures " " + Join(Spaced(ps), ";") == Join(Blanked(ps), ";")
  {
    if |ps| >= 2 {
      assert Spaced(ps)[1..] == Blanked(ps)[1..];
    }
  }

  /** Parsing what `convertCookies` serialised gives back its dictionary,
      as long as every name and value is a plain token. */
  lemma {:induction false} CookieRoundTrip(cs: seq<Cookie>)
    requires forall i :: 0 <= i < |cs| ==> PlainToken(cs[i].name) && PlainToken(cs[i].value)
    ensures StrCookieDict(CookieHeader(cs)) == CookieDict(cs)
  {
    if |cs| > 0 {
      var sp := Spaced(Pairs(cs));
      HeaderPieces(cs);
      forall i | 0 <= i < |cs| ensures PieceEntry(sp[i]) == Some((cs[i].name, cs[i].value)) {
        PieceOfPair(cs[i], i != 0);
      }
      EntriesOfPieces(cs, sp, |cs|);
      assert sp[..|cs|] == sp;
      assert cs[..|cs|] == cs;
    }
  }

  /** The header of a non-empty jar of plain tokens is not empty, and
      splitting it at `;` gives its pairs, each but the first behind a
      blank. */
  lemma HeaderPieces(cs: seq<Cookie>)
    requires |cs| > 0
    requires forall i :: 0 <= i < |cs| ==> PlainToken(cs[i].name) && PlainToken(cs[i].value)
    ensures Split(CookieHeader(cs), ';') == Spaced(Pairs(cs))
    ensures CookieHeader(cs) != ""
  {
    var ps := Pairs(cs);
    var sp := Spaced(ps);
    JoinSemicolonBlank(ps);
    forall i | 0 <= i < |sp| ensures ';' !in sp[i] {
      assert ';' !in cs[i].name && ';' !in cs[i].value;
    }
    SplitJoin(sp, ';');
    assert |CookieHeader(cs)| >= |sp[0]| by {
      if |sp| >= 2 {
        assert Join(sp, ";") == sp[0] + ";" + Join(sp[1..], ";");
      }
    }
  }

  lemma PieceOfPair(c: Cookie, blank: bool)
    requires PlainToken(c.name) && PlainToken(c.value)
    ensures PieceEntry(if blank then " " + Pair(c) else Pair(c)) == Some((c.name, c.value))
  {
    PairTrimmed(c, blank);
    PairSplit(c);
  }

  lemma PairTrimmed(c: Cookie, blank: bool)
    requires PlainToken(c.name) && PlainToken(c.value)
    ensures Trim(if blank then " " + Pair(c) else Pair(c)) == Pair(c)
  {
    var p := Pair(c);
    assert p[0] == c.name[0];
    assert p[|p| - 1] == c.value[|c.value| - 1];
    if blank {
      TrimLeadingBlank(p);
    } else {
      TrimUntouched(p);
    }
  }

  lemma PairSplit(c: Cookie)
    requires PlainToken(c.name) && PlainToken(c.value)
    ensures Split(Pair(c), '=') == [c.name, c.value]
  {
    SplitJoin([c.name, c.value], '=');
    assert Join([c.name, c.value], "=") == Pair(c);
  }

  /** Pieces that each parse to the matching cookie fill the same
      dictionary as the cookies. */
  lemma {:induction false} EntriesOfPieces(cs: seq<Cookie>, pieces: seq<string>, n: nat)
    requires |pieces| == |cs| && n <= |cs|
    requires forall i :: 0 <= i < |cs| ==> PieceEntry(pieces[i]) == Some((cs[i].name, cs[i].value))
    ensures EntriesDict(pieces[..n]) == CookieDict(cs[..n])
    decreases n
  {
    if n > 0 {
      EntriesOfPieces(cs, pieces, n - 1);
      assert pieces[..n][..n - 1] == pieces[..n - 1];
      assert cs[..n][..n - 1] == cs[..n - 1];
      assert pieces[..n][n - 1] == pieces[n - 1];
    }
  }

  // ---------------------------------------------------------------------
  // First number in a counter text (matchInteractInfoCount)
  // ---------------------------------------------------------------------

  /** The longest run of digits at the start of `s`. */
  function LeadingDigits(s: string): (r: string)
    ensures |r| <= |s| && r == s[..|r|] && AllDigits(r)
    ensures |r| < |s| ==> !IsDigit(s[|r|])
    decreases |s|
  {
    if |s| > 0 && IsDigit(s[0]) then [s[0]] + LeadingDigits(s[1..]) else ""
  }

  predicate NoDigits(s: string) {
    forall i :: 0 <= i < |s| ==> !IsDigit(s[i])
  }

  /** The first maximal run of digits in `s`: what `s.match(/\d+/)` finds. */
  function FirstDigitRun(s: string): (r: Option<string>)
    ensures r.Some? ==> |r.value| >= 1 && AllDigits(r.value)
    ensures r.None? <==> NoDigits(s)
    decreases |s|
  {
    if |s| == 0 then None
    else if IsDigit(s[0]) then Some(LeadingDigits(s))
    else
      assert forall i :: 1 <= i < |s| ==> s[i] == s[1..][i - 1];
      FirstDigitRun(s[1..])
  }

  /** `matchInteractInfoCount`: 0 for the empty string and for a string
      without digits, otherwise the value of the first run of digits. */
  function MatchInteractInfoCount(countStr: string): (r: nat)
    ensures NoDigits(countStr) ==> r == 0
  {
    if countStr == "" then 0
    else
      match FirstDigitRun(countStr)
      case None => 0
      case Some(ds) => DecimalValue(ds)
  }

  lemma {:induction false} LeadingDigitsOfNumber(d: string, q: string)
    requires AllDigits(d)
    requires |q| > 0 ==> !IsDigit(q[0])
    ensures LeadingDigits(d + q) == d
    decreases |d|
  {
    if |d| > 0 {
      assert (d + q)[1..] == d[1..] + q;
      LeadingDigitsOfNumber(d[1..], q);
      assert [d[0]] + d[1..] == d;
    } else {
      assert d + q == q;
    }
  }

  lemma {:induction false} FirstRunAfterText(p: string, d: string, q: string)
    requires NoDigits(p) && |d| >= 1 && AllDigits(d)
    requires |q| > 0 ==> !IsDigit(q[0])
    ensures FirstDigitRun(p + d + q) == Some(d)
    decreases |p|
  {
    if |p| == 0 {
      assert p + d + q == d + q;
      LeadingDigitsOfNumber(d, q);
    } else {
      assert (p + d + q)[1..] == p[1..] + d + q;
      FirstRunAfterText(p[1..], d, q);
    }
  }

  /** A number written in decimal between digit-free text and text that
      does not continue it with a digit is read back exactly: the counter
      of `"1234 likes"` is 1234. */
  lemma NumberInText(p: string, n: nat, q: string)
    requires NoDigits(p)
    requires |q| > 0 ==> !IsDigit(q[0])
    ensures MatchInteractInfoCount(p + NatToString(n) + q) == n
  {
    FirstRunAfterText(p, NatToString(n), q);
    DecimalRoundTrip(n);
  }

  // ---------------------------------------------------------------------
  // Proxy records (formatProxyInfo)
  // ---------------------------------------------------------------------

  /** A proxy as the proxy pool describes it; `protocol` carries its `://`
      (`"http://"`). */
  datatype ProxyInfo = ProxyInfo(protocol: string, ip: string, port: int, user: Option<string>, password: Option<string>)

  /** The proxy option of the browser. */
  datatype BrowserProxy = BrowserProxy(server: string, username: Option<string>, password: Option<string>)

  datatype Auth = Auth(username: string, password: string)

  /** The proxy option of the HTTP client. */
  datatype HttpProxy = HttpProxy(protocol: string, host: string, port: int, auth: Option<Auth>)

  /** Both `user` and `password` are present and non-empty. */
  predicate HasCredentials(info: ProxyInfo) {
    info.user.Some? && info.user.value != "" && info.password.Some? && info.password.value != ""
  }

  /** `formatProxyInfo`: `[null, null]` for an incomplete proxy; otherwise
      the browser's proxy (with credentials only when both are given) and
      the HTTP client's proxy (the protocol without its `://`). */
  method FormatProxyInfo(info: ProxyInfo) returns (browser: Option<BrowserProxy>, http: Option<HttpProxy>)
    ensures browser.None? <==> info.protocol == "" || info.ip == "" || info.port == 0
    ensures http.None? <==> browser.None?
    ensures browser.Some? ==>
      && browser.value.server == info.protocol + info.ip + ":" + IntToString(info.port)
      && (browser.value.username.Some? <==> HasCredentials(info))
      && (browser.value.password.Some? <==> HasCredentials(info))
      && (HasCredentials(info) ==>
            browser.value.username == info.user && browser.value.password == info.password)
    ensures http.Some? ==>
      && http.value.protocol == ReplaceFirst(info.protocol, "://", "")
      && http.value.host == info.ip
      && http.value.port == info.port
      && (http.value.auth.Some? <==> HasCredentials(info))
      && (HasCredentials(info) ==>
            http.value.auth == Some(Auth(info.user.value, info.password.value)))
  {
    if info.protocol == "" || info.ip == "" || info.port == 0 {
      return None, None;
    }
    var proxy := BrowserProxy(info.protocol + info.ip + ":" + IntToString(info.port), None, None);
    if HasCredentials(info) {
      proxy := proxy.(username := info.user, password := info.password);
    }
    browser := Some(proxy);
    if HasCredentials(info) {
      http := Some(HttpProxy(ReplaceFirst(info.protocol, "://", ""), info.ip, info.port,
                             Some(Auth(info.user.value, info.password.value))));
    } else {
      http := Some(HttpProxy(ReplaceFirst(info.protocol, "://", ""), info.ip, info.port, None));
    }
  }

  /** For a protocol written `scheme://` with a scheme free of `:`, the
      HTTP client's protocol is the bare scheme. */
  lemma SchemeOfProtocol(scheme: string)
    requires ':' !in scheme
    ensures ReplaceFirst(scheme + "://", "://", "") == scheme
  {
    var s := scheme + "://";
    assert StartsWith(s[|scheme|..], "://");
    forall j | 0 <= j < |scheme| ensures !StartsWith(s[j..], "://") {
      assert s[j] == scheme[j];
    }
    var i := IndexOf(s, "://").value;
    assert StartsWith(s[i..], "://");
    assert i == |scheme|;
    assert s[..i] == scheme;
  }

  // ---------------------------------------------------------------------
  // Tag stripping (extractTextFromHtml)
  // ---------------------------------------------------------------------

  /** Whether `s` begins with the lower-case `word` when ASCII letters of
      `s` are compared without case (the `/i` flag). */
  predicate StartsWithNoCase(s: string, word: string) {
    |word| <= |s| && forall i :: 0 <= i < |word| ==> LowerAscii(s[i]) == word[i]
  }

  /** The first index from which `s` begins with `word` without case. */
  function FindNoCase(s: string, word: string): (r: Option<nat>)
    ensures r.Some? ==> r.value + |word| <= |s|
    decreases |s|
  {
    if StartsWithNoCase(s, word) then Some(0)
    else if |s| == 0 then None
    else
      match FindNoCase(s[1..], word)
      case None => None
      case Some(i) => Some(i + 1)
  }

  /** The length of the match of `/<tag[^>]*>[\s\S]*?<\/tag>/i` at the
      start of `s`, or 0: the opening tag ends at the first `>` after
      `<tag`, and the block at the first `</tag>` after that. The test of
      the first character is implied by the case-free comparison, and is
      written out so that text without `<` is seen at once to match
      nothing. */
  function BlockLength(s: string, tag: string): (n: nat)
    ensures n <= |s|
    ensures n > 0 ==> |s| > 0 && s[0] == '<'
  {
    if |s| == 0 || s[0] != '<' || !StartsWithNoCase(s, "<" + tag) then 0
    else
      match IndexOf(s[|tag| + 1..], ">")
      case None => 0
      case Some(j) =>
        var open := |tag| + 1 + j + 1;
        match FindNoCase(s[open..], "</" + tag + ">")
        case None => 0
        case Some(k) => open + k + |tag| + 3
  }

  /** `s.replace(/<tag[^>]*>[\s\S]*?<\/tag>/gi, '')`. */
  function RemoveBlocks(s: string, tag: string): (r: string)
    ensures |r| <= |s|
    decreases |s|
  {
    if |s| == 0 then ""
    else
      var n := BlockLength(s, tag);
      if n > 0 then RemoveBlocks(s[n..], tag) else [s[0]] + RemoveBlocks(s[1..], tag)
  }

  /** The length of the match of `/<[^>]+>/` at the start of `s`, or 0. */
  function TagLength(s: string): (n: nat)
    ensures n <= |s|
    ensures n > 0 ==> s[0] == '<' && n >= 3 && s[n - 1] == '>'
  {
    if |s| >= 2 && s[0] == '<' && s[1] != '>' then
      match IndexOf(s[2..], ">")
      case None => 0
      case Some(j) => j + 3
    else 0
  }

  /** `s.replace(/<[^>]+>/g, '')`. */
  function RemoveTags(s: string): (r: string)
    ensures |r| <= |s|
    decreases |s|
  {
    if |s| == 0 then ""
    else
      var n := TagLength(s);
      if n > 0 then RemoveTags(s[n..]) else [s[0]] + RemoveTags(s[1..])
  }

  /** `extractTextFromHtml`: drop `<script>` and `<style>` blocks, then
      every remaining tag, then trim. */
  function ExtractTextFromHtml(html: string): (r: string)
    ensures html == "" ==> r == ""
    ensures |r| <= |html|
    ensures |r| > 0 ==> !IsJsSpace(r[0]) && !IsJsSpace(r[|r| - 1])
  {
    if html == "" then ""
    else Trim(RemoveTags(RemoveBlocks(RemoveBlocks(html, "script"), "style")))
  }

  lemma {:induction false} RemoveBlocksNoMarkup(s: string, tag: string)
    requires '<' !in s
    ensures RemoveBlocks(s, tag) == s
    decreases |s|
  {
    if |s| > 0 {
      assert '<' !in s[1..];
      RemoveBlocksNoMarkup(s[1..], tag);
      assert [s[0]] + s[1..] == s;
    }
  }

  /** Text without `<` before `s` is kept as it is by a block pass. */
  lemma RemoveBlocksAfterText(p: string, s: string, tag: string)
    requires '<' !in p
    ensures RemoveBlocks(p + s, tag) == p + RemoveBlocks(s, tag)
  {
    var h := p + s;
    RemoveBlocksKeepsText(h, 0, |p|, tag);
    assert h[0..] == h && h[0..|p|] == p && h[|p|..] == s;
  }

  /** The block pass keeps a run `h[j..i]` without `<` as it is. */
  lemma {:induction false} RemoveBlocksKeepsText(h: string, j: nat, i: nat, tag: string)
    requires j <= i <= |h| && forall k :: j <= k < i ==> h[k] != '<'
    ensures RemoveBlocks(h[j..], tag) == h[j..i] + RemoveBlocks(h[i..], tag)
    decreases i - j
  {
    if j < i {
      RemoveBlocksKeepsText(h, j + 1, i, tag);
      RemoveBlocksKeepsChar(h[j..], tag);
      ConsSlice(h, j, i, RemoveBlocks(h[i..], tag));
    } else {
      assert h[j..i] == [];
    }
  }

  lemma ConsSlice(h: string, j: nat, i: nat, tail: string)
    requires j < i <= |h|
    ensures h[j..][0] == h[j] && h[j..][1..] == h[j + 1..]
    ensures [h[j]] + (h[j + 1..i] + tail) == h[j..i] + tail
  {
    assert [h[j]] + h[j + 1..i] == h[j..i];
  }

  /** A character other than `<` is kept by the block pass. */
  lemma RemoveBlocksKeepsChar(s: string, tag: string)
    requires |s| > 0 && s[0] != '<'
    ensures RemoveBlocks(s, tag) == [s[0]] + RemoveBlocks(s[1..], tag)
  {
    assert BlockLength(s, tag) == 0;
  }

  /** A whole block at the front is dropped by the block pass. */
  lemma RemoveBlocksSkipsBlock(s: string, tag: string, n: nat, rest: string)
    requires BlockLength(s, tag) == n > 0 && s[n..] == rest
    ensures RemoveBlocks(s, tag) == RemoveBlocks(rest, tag)
  {
  }

  /** A `<` that does not open a `tag` block is kept by the block pass. */
  lemma RemoveBlocksSkipsLt(s: string, tag: string)
    requires |s| > 0 && s[0] == '<' && !StartsWithNoCase(s, "<" + tag)
    ensures RemoveBlocks(s, tag) == "<" + RemoveBlocks(s[1..], tag)
  {
  }

  /** A lower-case tag name compared without case. */
  predicate LowerWord(w: string) {
    forall i :: 0 <= i < |w| ==> !('A' <= w[i] <= 'Z')
  }

  lemma StartsWithLower(w: string, rest: string)
    requires LowerWord(w)
    ensures StartsWithNoCase(w + rest, w)
  {
    forall i | 0 <= i < |w| ensures LowerAscii((w + rest)[i]) == w[i] {
      assert (w + rest)[i] == w[i];
    }
  }

  /** The closing tag is found right after text that holds no `<`. */
  lemma {:induction false} FindAfterText(x: string, w: string, rest: string)
    requires '<' !in x && |w| > 0 && w[0] == '<' && StartsWithNoCase(rest, w)
    ensures FindNoCase(x + rest, w) == Some(|x|)
    decreases |x|
  {
    if |x| == 0 {
      assert x + rest == rest;
    } else {
      assert (x + rest)[0] == x[0] && LowerAscii(x[0]) != '<';
      assert !StartsWithNoCase(x + rest, w);
      assert (x + rest)[1..] == x[1..] + rest;
      assert '<' !in x[1..];
      FindAfterText(x[1..], w, rest);
    }
  }

  /** `<tag>` opens a block of `tag`: the opening tag ends right there. */
  lemma OpenTagMatches(tag: string, rest: string)
    requires LowerWord(tag)
    ensures var s := "<" + tag + ">" + rest;
      && StartsWithNoCase(s, "<" + tag)
      && IndexOf(s[|tag| + 1..], ">") == Some(0)
      && s[|tag| + 2..] == rest
  {
    var s := "<" + tag + ">" + rest;
    assert LowerWord("<" + tag) by {
      assert forall i :: 1 <= i < |tag| + 1 ==> ("<" + tag)[i] == tag[i - 1];
    }
    assert s == ("<" + tag) + (">" + rest);
    StartsWithLower("<" + tag, ">" + rest);
    assert s[|tag| + 1..] == ">" + rest;
    assert StartsWith(s[|tag| + 1..], ">");
  }

  lemma CloseTagMatches(tag: string, q: string)
    requires LowerWord(tag)
    ensures StartsWithNoCase("</" + tag + ">" + q, "</" + tag + ">")
  {
    var close := "</" + tag + ">";
    assert LowerWord(close) by {
      assert forall i :: 2 <= i < |tag| + 2 ==> close[i] == tag[i - 2];
    }
    StartsWithLower(close, q);
  }

  /** `<tag>x</tag>` with no `<` inside is one whole block match. */
  lemma WholeBlockLength(tag: string, x: string, q: string)
    requires LowerWord(tag) && '<' !in x
    ensures BlockLength(Block(tag, x, q), tag) == |tag| + |x| + |tag| + 5
  {
    var close := "</" + tag + ">";
    var rest := x + (close + q);
    OpenTagMatches(tag, rest);
    CloseTagMatches(tag, q);
    FindAfterText(x, close, close + q);
  }

  /** The pass for `tag` drops a whole `<tag>x</tag>` block and keeps the
      text around it, when neither holds a `<`. */
  lemma BlockDropped(tag: string, p: string, x: string, q: string)
    requires LowerWord(tag) && '<' !in p && '<' !in x && '<' !in q
    ensures RemoveBlocks(p + Block(tag, x, q), tag) == p + q
  {
    RemoveBlocksAfterText(p, Block(tag, x, q), tag);
    WholeBlockRemoved(tag, x, q);
  }

  lemma WholeBlockRemoved(tag: string, x: string, q: string)
    requires LowerWord(tag) && '<' !in x && '<' !in q
    ensures RemoveBlocks(Block(tag, x, q), tag) == q
  {
    WholeBlockLength(tag, x, q);
    BlockTail(tag, x, q);
    RemoveBlocksNoMarkup(q, tag);
    RemoveBlocksSkipsBlock(Block(tag, x, q), tag, |tag| + |x| + |tag| + 5, q);
  }

  /** `<tag>x</tag>q`. */
  function Block(tag: string, x: string, q: string): string {
    "<" + tag + ">" + (x + ("</" + tag + ">" + q))
  }

  lemma BlockTail(tag: string, x: string, q: string)
    ensures |Block(tag, x, q)| >= |tag| + |x| + |tag| + 5
    ensures Block(tag, x, q)[|tag| + |x| + |tag| + 5..] == q
  {
    var close := "</" + tag + ">";
    var b := Block(tag, x, q);
    assert b == ("<" + tag + ">" + x + close) + q;
  }

  /** A `<script>` block between plain text is removed whole, and only the
      surrounding text, trimmed, is left. */
  lemma ScriptBlockDropped(p: string, x: string, q: string)
    requires '<' !in p && '<' !in x && '<' !in q
    ensures ExtractTextFromHtml(p + "<script>" + x + "</script>" + q) == Trim(p + q)
  {
    var html := p + "<script>" + x + "</script>" + q;
    assert html == p + Block("script", x, q);
    BlockDropped("script", p, x, q);
    TextOnlyPasses(p + q);
  }

  /** A `<style>` block between plain text survives the script pass and is
      removed whole by the style pass. */
  lemma StyleBlockDropped(p: string, x: string, q: string)
    requires '<' !in p && '<' !in x && '<' !in q
    ensures ExtractTextFromHtml(p + "<style>" + x + "</style>" + q) == Trim(p + q)
  {
    var b := Block("style", x, q);
    StyleBlockText(p, x, q);
    StyleBlockNotScript(x, q);
    RemoveBlocksAfterText(p, b, "script");
    BlockDropped("style", p, x, q);
    TextOnlyPasses(p + q);
    calc {
      ExtractTextFromHtml(p + b);
      Trim(RemoveTags(RemoveBlocks(RemoveBlocks(p + b, "script"), "style")));
      Trim(RemoveTags(RemoveBlocks(p + b, "style")));
      Trim(RemoveTags(p + q));
      Trim(p + q);
    }
  }

  lemma StyleBlockText(p: string, x: string, q: string)
    ensures p + "<style>" + x + "</style>" + q == p + Block("style", x, q)
  {
    assert "<" + "style" + ">" == "<style>" && "</" + "style" + ">" == "</style>";
  }

  /** The style pass and the tag pass leave text without `<` alone. */
  lemma TextOnlyPasses(s: string)
    requires '<' !in s
    ensures RemoveBlocks(s, "style") == s && RemoveTags(s) == s
  {
    RemoveBlocksNoMarkup(s, "style");
    RemoveTagsNoMarkup(s);
  }

  /** The script pass leaves a `<style>` block as it is. */
  lemma StyleBlockNotScript(x: string, q: string)
    requires '<' !in x && '<' !in q
    ensures RemoveBlocks(Block("style", x, q), "script") == Block("style", x, q)
  {
    var b := Block("style", x, q);
    var c := "</style>" + q;
    var t := "style>" + x;
    assert b == "<" + (t + c);
    NotScriptOpen(b);
    RemoveBlocksSkipsLt(b, "script");
    assert b[1..] == t + c;
    RemoveBlocksAfterText(t, c, "script");
    ClosingStyleNotScript(q);
  }

  lemma NotScriptOpen(b: string)
    requires |b| > 2 && b[2] == 't'
    ensures !StartsWithNoCase(b, "<script")
  {
    assert LowerAscii(b[2]) == 't';
  }

  lemma ClosingStyleNotScript(q: string)
    requires '<' !in q
    ensures RemoveBlocks("</style>" + q, "script") == "</style>" + q
  {
    var c := "</style>" + q;
    assert !StartsWithNoCase(c, "<script") by {
      assert LowerAscii(c[1]) == '/';
    }
    RemoveBlocksSkipsLt(c, "script");
    assert '<' !in c[1..];
    RemoveBlocksNoMarkup(c[1..], "script");
    assert "<" + c[1..] == c;
  }

  lemma {:induction false} RemoveTagsNoMarkup(s: string)
    requires '<' !in s
    ensures RemoveTags(s) == s
    decreases |s|
  {
    if |s| > 0 {
      assert '<' !in s[1..];
      RemoveTagsNoMarkup(s[1..]);
      assert [s[0]] + s[1..] == s;
    }
  }

  /** Text without any `<` comes back merely trimmed. */
  lemma PlainTextIsTrimmed(html: string)
    requires '<' !in html
    ensures ExtractTextFromHtml(html) == Trim(html)
  {
    RemoveBlocksNoMarkup(html, "script");
    RemoveBlocksNoMarkup(html, "style");
    RemoveTagsNoMarkup(html);
  }

  lemma {:induction false} RemoveTagsKeepsNoGt(s: string)
    requires '>' !in s
    ensures '>' !in RemoveTags(s)
    decreases |s|
  {
    if |s| > 0 {
      assert '>' !in s[1..];
      RemoveTagsKeepsNoGt(s[1..]);
    }
  }

  /** No tag survives: no position of the result starts a match of
      `/<[^>]+>/`, so stripping again changes nothing. */
  lemma {:induction false} RemoveTagsLeavesNoTag(s: string)
    ensures forall i :: 0 <= i < |RemoveTags(s)| ==> TagLength(RemoveTags(s)[i..]) == 0
    decreases |s|
  {
    var r := RemoveTags(s);
    if |s| > 0 {
      var n := TagLength(s);
      if n > 0 {
        RemoveTagsLeavesNoTag(s[n..]);
      } else {
        var rest := RemoveTags(s[1..]);
        RemoveTagsLeavesNoTag(s[1..]);
        assert r == [s[0]] + rest;
        forall i | 1 <= i < |r| ensures TagLength(r[i..]) == 0 {
          assert r[i..] == rest[i - 1..];
        }
        if s[0] == '<' && |s| >= 2 {
          if s[1] == '>' {
            assert TagLength(s[1..]) == 0;
            assert r[1] == '>';
          } else {
            assert IndexOf(s[2..], ">").None?;
            assert '>' !in s[2..] by {
              if '>' in s[2..] {
                var k :| 0 <= k < |s[2..]| && s[2..][k] == '>';
                assert StartsWith(s[2..][k..], ">");
              }
            }
            assert TagLength(s[1..]) == 0;
            assert s[1..][1..] == s[2..];
            RemoveTagsKeepsNoGt(s[2..]);
            var tail := RemoveTags(s[2..]);
            assert r == [s[0], s[1]] + tail;
            assert r[2..] == tail;
          }
        }
      }
    }
  }

  /** A tag match found in a prefix is a tag match of the whole. */
  lemma TagOfPrefix(a: string, b: string)
    requires TagLength(a) > 0
    ensures TagLength(a + b) > 0
  {
    var j := IndexOf(a[2..], ">").value;
    assert (a + b)[2..][j..] == a[2..][j..] + b;
    assert StartsWith((a + b)[2..][j..], ">");
  }

  /** No position of `s` starts a match of `/<[^>]+>/`. */
  predicate TagFree(s: string) {
    forall i :: 0 <= i < |s| ==> TagLength(s[i..]) == 0
  }

  /** Trimming tag-free text keeps it tag-free. */
  lemma TrimKeepsTagFree(t: string)
    requires TagFree(t)
    ensures TagFree(Trim(t))
  {
    var u := TrimStart(t);
    TagFreeSuffix(t, |t| - |u|);
    TagFreePrefix(u, |TrimEnd(u)|);
  }

  lemma TagFreeSuffix(t: string, k: nat)
    requires TagFree(t) && k <= |t|
    ensures TagFree(t[k..])
  {
    forall i | 0 <= i < |t[k..]| ensures TagLength(t[k..][i..]) == 0 {
      assert t[k..][i..] == t[k + i..];
    }
  }

  lemma TagFreePrefix(u: string, m: nat)
    requires TagFree(u) && m <= |u|
    ensures TagFree(u[..m])
  {
    forall i | 0 <= i < m ensures TagLength(u[..m][i..]) == 0 {
      assert u[i..] == u[..m][i..] + u[m..];
      if TagLength(u[..m][i..]) > 0 {
        TagOfPrefix(u[..m][i..], u[m..]);
      }
    }
  }

  /** The text `extractTextFromHtml` returns holds no tag: no position of it
      starts a match of `/<[^>]+>/`. */
  lemma ExtractLeavesNoTag(html: string)
    ensures TagFree(ExtractTextFromHtml(html))
  {
    if html != "" {
      var cleaned := RemoveBlocks(RemoveBlocks(html, "script"), "style");
      RemoveTagsLeavesNoTag(cleaned);
      TrimKeepsTagFree(RemoveTags(cleaned));
    }
  }
}
