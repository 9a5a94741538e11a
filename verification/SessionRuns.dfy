/** The session cookie in a browser's jar, through any run of handoffs, logouts,
    time passing, and other sites and paths setting cookies of their own. */
module SessionRuns {
  import opened Text
  import JsonText
  import opened CookieJar
  import opened Session

  // ---- what the browser makes of the two lines ------------------------------------------

  function AdminKey(host: string): Key { Key(COOKIE, host, "/") }

  function AdminCookie(token: string, expiry: int, created: int): Cookie {
    Cookie(token, Some(expiry), true, true, Strict, created)
  }

  function LineAttributes(n: string): seq<string> {
    ["Path" + "=" + "/", "Secure", "HttpOnly", "SameSite" + "=" + "Strict", "Max-Age" + "=" + n]
  }

  function Parsed(n: string): Attributes {
    [("path", "/"), ("secure", ""), ("httponly", ""), ("samesite", "Strict"), ("max-age", n)]
  }

  lemma LiteralNames()
    ensures Lower("Path") == "path" && Lower("Secure") == "secure" && Lower("HttpOnly") == "httponly"
    ensures Lower("SameSite") == "samesite" && Lower("Max-Age") == "max-age"
  {
  }

  lemma FiveParse(a: string, la: string, va: string, b: string, lb: string, c: string, lc: string,
                  d: string, ld: string, vd: string, e: string, le: string, ve: string)
    requires '=' !in a && '=' !in b && '=' !in c && '=' !in d && '=' !in e
    requires Bare(IsWsp, a) && Bare(IsWsp, b) && Bare(IsWsp, c) && Bare(IsWsp, d) && Bare(IsWsp, e)
    requires Bare(IsWsp, va) && Bare(IsWsp, vd) && Bare(IsWsp, ve)
    requires Lower(a) == la && Lower(b) == lb && Lower(c) == lc && Lower(d) == ld && Lower(e) == le
    ensures ParseAttributes(Spaced([a + "=" + va, b, c, d + "=" + vd, e + "=" + ve]))
         == [(la, va), (lb, ""), (lc, ""), (ld, vd), (le, ve)]
  {
    ParseWritten(a, la, va);
    ParseFlag(b, lb);
    ParseFlag(c, lc);
    ParseWritten(d, ld, vd);
    ParseWritten(e, le, ve);
  }

  lemma AttributesParse(n: string)
    requires Bare(IsWsp, n)
    ensures ParseAttributes(Spaced(LineAttributes(n))) == Parsed(n)
  {
    LiteralNames();
    FiveParse("Path", "path", "/", "Secure", "secure", "HttpOnly", "httponly", "SameSite", "samesite", "Strict", "Max-Age", "max-age", n);
  }

  lemma ParsedAttributes(n: string)
    ensures Attribute(Parsed(n), "path") == Some("/") && Attribute(Parsed(n), "secure") == Some("")
    ensures Attribute(Parsed(n), "max-age") == Some(n) && Attribute(Parsed(n), "domain") == None
    ensures Attribute(Parsed(n), "samesite") == Some("Strict")
  {
    AttributeAt(Parsed(n), 3, "samesite");
    AttributeAt(Parsed(n), 0, "path");
    AttributeAt(Parsed(n), 1, "secure");
    AttributeAt(Parsed(n), 4, "max-age");
    AttributeMissing(Parsed(n), "domain");
  }

  lemma LiteralPrefix()
    ensures PrefixAllows(COOKIE, None, true, "/")
    ensures forall domain, secure, path :: PrefixAllows(COOKIE, domain, secure, path) ==> secure && domain.None? && path == "/"
  {
    assert COOKIE[..7] == HOST_PREFIX;
    var h, c := Lower(HOST_PREFIX), Lower(COOKIE);
    assert forall i | 0 <= i < 7 :: c[i] == h[i];
    assert Lower(SECURE_PREFIX)[2] != c[2];
  }

  lemma LiteralStrict()
    ensures Lower("Strict") == "strict"
  {
  }

  lemma DigitsAreBare(n: nat)
    ensures var p := JsonText.PrintNat(n); Bare(IsWsp, p) && ';' !in p
  {
    var p := JsonText.PrintNat(n);
    assert p[0] in p && p[|p| - 1] in p;
  }

  lemma LineParses(token: string, lifetime: nat)
    requires token == "" || CookieSafe(token)
    ensures ParseLine(HandoffLine(token, lifetime)) == Some(SetCookie(COOKIE, token, Parsed(JsonText.PrintNat(lifetime))))
  {
    var n := JsonText.PrintNat(lifetime);
    DigitsAreBare(lifetime);
    AttributesParse(n);
    LineIsJoined(token, lifetime);
    assert token != "" ==> TokenChar(token[0]) && TokenChar(token[|token| - 1]);
    ParseWrittenLine(COOKIE, token, LineAttributes(n));
  }

  lemma ParsedScope(n: string)
    ensures PathOf(Parsed(n)) == "/" && CookieDomainOf(Parsed(n)) == None && PolicyOf(Parsed(n)) == Strict
  {
    ParsedAttributes(n);
    LiteralStrict();
  }

  function AdminScope(lifetime: nat): Scope { Scope(None, true, lifetime, Strict) }

  lemma ParsedAsks(lifetime: nat)
    ensures Asks(Parsed(JsonText.PrintNat(lifetime)), AdminScope(lifetime))
  {
    ParsedAttributes(JsonText.PrintNat(lifetime));
    ParsedScope(JsonText.PrintNat(lifetime));
    DeltaOfPrinted(lifetime);
  }

  lemma LineCarries(token: string, lifetime: nat)
    requires token == "" || CookieSafe(token)
    ensures Carries(HandoffLine(token, lifetime), COOKIE, token, AdminScope(lifetime))
  {
    LineParses(token, lifetime);
    ParsedAsks(lifetime);
  }

  /** The jar after the site answered with such a line. */
  function Answered(jar: Jar, token: string, lifetime: nat, host: string, now: int, from: Initiator): Jar {
    var k := AdminKey(host);
    if from.OtherSiteRequest? then jar
    else if lifetime == 0 then jar - {k}
    else jar[k := AdminCookie(token, now + lifetime, CreatedAt(jar, k, now))]
  }

  lemma AdminLineIsStored(jar: Jar, line: string, token: string, lifetime: nat, host: string, now: int, from: Initiator)
    requires Carries(line, COOKIE, token, AdminScope(lifetime))
    ensures Receive(jar, line, host, true, now, from) == Answered(jar, token, lifetime, host, now, from)
  {
    LiteralPrefix();
    CarriedIsStored(jar, line, COOKIE, token, AdminScope(lifetime), host, true, now, from);
  }

  /** A handoff's line replaces the cookie, with an expiry; logout's removes it; and
      inside another site's page neither does anything. */
  lemma LineIsStored(jar: Jar, token: string, lifetime: nat, host: string, now: int, from: Initiator)
    requires token == "" || CookieSafe(token)
    ensures Receive(jar, HandoffLine(token, lifetime), host, true, now, from) == Answered(jar, token, lifetime, host, now, from)
  {
    LineCarries(token, lifetime);
    AdminLineIsStored(jar, HandoffLine(token, lifetime), token, lifetime, host, now, from);
  }

  // ---- the run -----------------------------------------------------------------------------

  /** The dashboard's host, and what the handoff asks others about. */
  datatype Site = Site(host: string, validNamespace: string -> bool, resolve: string -> Option<Grant>, exp: string -> Option<nat>)

  datatype State = State(jar: Jar, now: nat)

  /** Handoffs and logouts, with who made the request and what the site answers;
      time passing; and cookies set by anyone else, from this host or another. */
  datatype Event =
    | HandOff(from: Initiator, token: string, namespace: string, answer: HandoffAnswer)
    | LogOut(from: Initiator, sameOrigin: bool, line: Option<string>)
    | Tick(seconds: nat)
    | Elsewhere(from: Initiator, setCookie: string, host: string, https: bool)

  /** The site answers as `handoff` and `logout` do. Anyone may set any cookie, but
      on the dashboard's own host nobody else uses the cookie's name. */
  predicate Enabled(site: Site, s: State, e: Event) {
    match e
    case HandOff(_, token, namespace, answer) =>
      answer == Handoff(token, namespace, site.validNamespace, site.resolve, site.exp, s.now)
    case LogOut(_, sameOrigin, line) => line == Logout(sameOrigin)
    case Tick(_) => true
    case Elsewhere(_, line, host, _) =>
      match ParseLine(line)
      case None => true
      case Some(c) => host == site.host ==> c.name != COOKIE
  }

  function Apply(site: Site, s: State, e: Event): State {
    match e
    case HandOff(from, _, _, Opened(line)) => s.(jar := Receive(s.jar, line, site.host, true, s.now, from))
    case HandOff(_, _, _, _) => s
    case LogOut(from, _, Some(line)) => s.(jar := Receive(s.jar, line, site.host, true, s.now, from))
    case LogOut(_, _, None) => s
    case Tick(n) => s.(now := s.now + n)
    case Elsewhere(from, line, host, https) => s.(jar := Receive(s.jar, line, host, https, s.now, from))
  }

  /** The latest successful handoff not followed by a logout. What happens inside
      another site's page is neither. */
  datatype Issue = Issue(token: string, at: nat)

  function Latest(s: State, e: Event, last: Option<Issue>): Option<Issue> {
    match e
    case HandOff(from, token, _, answer) =>
      if answer.Opened? && !from.OtherSiteRequest? then Some(Issue(token, s.now)) else last
    case LogOut(from, sameOrigin, _) => if sameOrigin && !from.OtherSiteRequest? then None else last
    case _ => last
  }

  function Death(site: Site, i: Issue): nat { i.at + RemainingLifetime(site.exp(i.token), i.at) }

  ghost predicate Run(site: Site, s: State, last: Option<Issue>, es: seq<Event>, t: State, latest: Option<Issue>)
    decreases |es|
  {
    if es == [] then s == t && last == latest
    else Enabled(site, s, es[0]) && Run(site, Apply(site, s, es[0]), Latest(s, es[0], last), es[1..], t, latest)
  }

  // ---- the invariant -------------------------------------------------------------------------

  predicate Stored(k: Key, c: Cookie) {
    && k.name != "" && '=' !in k.name && ';' !in k.name && Bare(IsWsp, k.name)
    && ';' !in c.value && Bare(IsWsp, c.value)
    && (k.name == COOKIE ==> c.hostOnly && k.path == "/")
  }

  predicate Holds(site: Site, jar: Jar, last: Option<Issue>) {
    var k := AdminKey(site.host);
    match last
    case None => k !in jar
    case Some(i) => CookieSafe(i.token) && k in jar && jar[k] == AdminCookie(i.token, Death(site, i), jar[k].created)
  }

  ghost predicate Inv(site: Site, s: State, last: Option<Issue>) {
    (forall k | k in s.jar :: Stored(k, s.jar[k])) && Holds(site, s.jar, last)
  }

  /** What others may do to the jar: add or replace a clean cookie of their own, or
      remove one; never the dashboard's. */
  lemma ElsewhereKeeps(site: Site, s: State, last: Option<Issue>, e: Event)
    requires Inv(site, s, last) && e.Elsewhere? && Enabled(site, s, e)
    ensures Inv(site, Apply(site, s, e), last)
  {
    if ParseLine(e.setCookie).Some? {
      ParsedIsClean(e.setCookie);
      LiteralPrefix();
    }
  }

  lemma TokenIsStored(token: string, lifetime: nat, host: string, now: int, created: int)
    requires CookieSafe(token)
    ensures Stored(AdminKey(host), AdminCookie(token, now + lifetime, created))
  {
    assert TokenChar(token[0]) && TokenChar(token[|token| - 1]);
  }

  lemma IssueKeeps(site: Site, jar: Jar, last: Option<Issue>, now: nat, i: Issue, created: int)
    requires Inv(site, State(jar, now), last) && CookieSafe(i.token)
    ensures Inv(site, State(jar[AdminKey(site.host) := AdminCookie(i.token, Death(site, i), created)], now), Some(i))
  {
    TokenIsStored(i.token, RemainingLifetime(site.exp(i.token), i.at), site.host, i.at, created);
  }

  lemma HandOffOpens(site: Site, s: State, e: Event)
    requires e.HandOff? && Enabled(site, s, e) && e.answer.Opened?
    ensures CookieSafe(e.token)
    ensures e.answer.setCookie == HandoffLine(e.token, RemainingLifetime(site.exp(e.token), s.now))
  {
  }

  lemma LineReplaces(site: Site, s: State, token: string, line: string, from: Initiator)
    requires CookieSafe(token)
    requires Carries(line, COOKIE, token, AdminScope(RemainingLifetime(site.exp(token), s.now)))
    ensures Replaces(site, s, token, line, from)
  {
    AdminLineIsStored(s.jar, line, token, RemainingLifetime(site.exp(token), s.now), site.host, s.now, from);
  }

  lemma OpenedReplaces(site: Site, s: State, e: Event)
    requires e.HandOff? && e.answer.Opened? && Enabled(site, s, e)
    ensures Replaces(site, s, e.token, e.answer.setCookie, e.from)
  {
    HandOffOpens(site, s, e);
    LineCarries(e.token, RemainingLifetime(site.exp(e.token), s.now));
    LineReplaces(site, s, e.token, e.answer.setCookie, e.from);
  }

  /** The browser replaces its cookie by this token when it receives this line now,
      but not inside another site's page. */
  predicate Replaces(site: Site, s: State, token: string, line: string, from: Initiator) {
    var k := AdminKey(site.host);
    && CookieSafe(token)
    && Receive(s.jar, line, site.host, true, s.now, from)
       == if from.OtherSiteRequest? then s.jar
          else s.jar[k := AdminCookie(token, Death(site, Issue(token, s.now)), CreatedAt(s.jar, k, s.now))]
  }

  lemma HandOffKeeps(site: Site, s: State, last: Option<Issue>, e: Event)
    requires Inv(site, s, last) && e.HandOff?
    requires e.answer.Opened? ==> Replaces(site, s, e.token, e.answer.setCookie, e.from)
    ensures Inv(site, Apply(site, s, e), Latest(s, e, last))
  {
    if e.answer.Opened? && !e.from.OtherSiteRequest? {
      IssueKeeps(site, s.jar, last, s.now, Issue(e.token, s.now), CreatedAt(s.jar, AdminKey(site.host), s.now));
    }
  }

  lemma LogOutKeeps(site: Site, s: State, last: Option<Issue>, e: Event)
    requires Inv(site, s, last) && e.LogOut? && Enabled(site, s, e)
    ensures Inv(site, Apply(site, s, e), Latest(s, e, last))
  {
    if e.sameOrigin { LineIsStored(s.jar, "", 0, site.host, s.now, e.from); }
  }

  lemma StepKeepsInv(site: Site, s: State, last: Option<Issue>, e: Event)
    requires Inv(site, s, last) && Enabled(site, s, e)
    ensures Inv(site, Apply(site, s, e), Latest(s, e, last))
  {
    match e
    case HandOff(_, _, _, answer) =>
      if answer.Opened? { OpenedReplaces(site, s, e); }
      HandOffKeeps(site, s, last, e);
    case LogOut(_, _, _) => LogOutKeeps(site, s, last, e);
    case Tick(_) =>
    case Elsewhere(_, _, _, _) => ElsewhereKeeps(site, s, last, e);
  }

  lemma {:induction false} RunKeepsInv(site: Site, s: State, last: Option<Issue>, es: seq<Event>, t: State, latest: Option<Issue>)
    requires Inv(site, s, last) && Run(site, s, last, es, t, latest)
    ensures Inv(site, t, latest)
    decreases |es|
  {
    if es != [] {
      StepKeepsInv(site, s, last, es[0]);
      RunKeepsInv(site, Apply(site, s, es[0]), Latest(s, es[0], last), es[1..], t, latest);
    }
  }

  /** Whatever another site does inside its own pages, handing over its own tokens
      among it, leaves the dashboard's cookie alone. */
  lemma FramesChangeNothing(site: Site, s: State, e: Event)
    requires (e.HandOff? || e.LogOut?) && e.from.OtherSiteRequest? && Enabled(site, s, e)
    ensures Apply(site, s, e) == s
  {
    if e.HandOff? {
      if e.answer.Opened? { OpenedReplaces(site, s, e); }
    } else if e.sameOrigin {
      LineIsStored(s.jar, "", 0, site.host, s.now, e.from);
    }
  }

  // ---- the promises ------------------------------------------------------------------------------

  /** The Cookie headers of a request that sends the cookies under `keys`. */
  function Headers(jar: Jar, keys: seq<Key>): seq<string>
    requires forall k | k in keys :: k in jar
  {
    match HeaderOf(jar, keys) case None => [] case Some(h) => [h]
  }

  function Get(jar: Jar, keys: seq<Key>): Request
    requires forall k | k in keys :: k in jar
  {
    Request(false, Headers(jar, keys), Method.Get, false, false)
  }

  /** What the dashboard is sent with a request from there. */
  ghost predicate SentTo(site: Site, s: State, from: Initiator, keys: seq<Key>) {
    Sends(s.jar, site.host, s.now, from, AdminKey(site.host), keys)
  }

  /** Nothing sent to the dashboard but its own cookie has its name. */
  lemma OnlyOwnCookie(site: Site, s: State, last: Option<Issue>, from: Initiator, keys: seq<Key>)
    requires Inv(site, s, last) && SentTo(site, s, from, keys)
    ensures forall k | k in keys && k.name == COOKIE :: k == AdminKey(site.host)
  {
  }

  lemma VisiblePairIsBare(name: string, value: string)
    requires name != "" && Bare(IsWsp, name) && Bare(IsWsp, value) && Visible(name + "=" + value)
    ensures Bare(IsWhite, name + "=" + value)
  {
    var p := name + "=" + value;
    assert p[0] == name[0];
    assert p[|p| - 1] == if value == "" then '=' else value[|value| - 1];
    assert 32 <= p[0] as int < 127 && 32 <= p[|p| - 1] as int < 127;
  }

  lemma BarePairIsNamed(name: string, value: string)
    requires '=' !in name && Bare(IsWhite, name + "=" + value)
    ensures var p := name + "=" + value; (Names(p) <==> name == COOKIE) && (Names(" " + p) <==> name == COOKIE)
  {
    var p := name + "=" + value;
    TrimCore(IsWhite, "", p, "");
    TrimCore(IsWhite, " ", p, "");
    assert "" + p + "" == p && " " + p + "" == " " + p;
    SplitOnceAt(name, '=', value);
  }

  lemma StoredPair(k: Key, c: Cookie)
    requires Stored(k, c) && Visible(k.name + "=" + c.value)
    ensures var p := k.name + "=" + c.value;
            && ';' !in p
            && (Names(p) <==> k.name == COOKIE) && (Names(" " + p) <==> k.name == COOKIE)
  {
    VisiblePairIsBare(k.name, c.value);
    BarePairIsNamed(k.name, c.value);
  }

  lemma PairsAreTame(site: Site, s: State, last: Option<Issue>, keys: seq<Key>)
    requires Inv(site, s, last) && (forall k | k in keys :: k in s.jar) && AllVisible(s.jar, keys)
    ensures var pairs := Pairs(s.jar, keys);
            forall i | 0 <= i < |pairs| ::
              && ';' !in pairs[i] && Visible(pairs[i])
              && (Names(pairs[i]) <==> keys[i].name == COOKIE) && (Names(" " + pairs[i]) <==> keys[i].name == COOKIE)
  {
    forall i | 0 <= i < |keys|
      ensures var p := Pairs(s.jar, keys)[i];
              ';' !in p && Visible(p) && (Names(p) <==> keys[i].name == COOKIE) && (Names(" " + p) <==> keys[i].name == COOKIE)
    {
      assert keys[i] in keys;
      StoredPair(keys[i], s.jar[keys[i]]);
    }
  }

  /** The bearer of a GET that the site itself starts: the latest token, while its
      cookie lives. */
  function Expected(site: Site, latest: Option<Issue>, now: nat): Session.Answer {
    match latest
    case None => Anonymous
    case Some(i) => if now < Death(site, i) then As("Bearer " + i.token) else Anonymous
  }

  lemma OthersAreNamedOtherwise(site: Site, s: State, last: Option<Issue>, from: Initiator, keys: seq<Key>, at: nat)
    requires Inv(site, s, last) && SentTo(site, s, from, keys)
    requires at < |keys| && keys[at] == AdminKey(site.host)
    ensures forall j | 0 <= j < |keys| && j != at :: keys[j].name != COOKIE
  {
    OnlyOwnCookie(site, s, last, from, keys);
    forall j | 0 <= j < |keys| && j != at ensures keys[j].name != COOKIE {
      assert keys[j] in keys;
      assert keys[j] != keys[at];
    }
  }

  lemma OneTokenIsRead(pairs: seq<string>, at: nat, token: string)
    requires CookieSafe(token) && at < |pairs| && pairs[at] == COOKIE + "=" + token
    requires forall i | 0 <= i < |pairs| :: ';' !in pairs[i] && Visible(pairs[i])
    requires forall i | 0 <= i < |pairs| && i != at :: !Names(pairs[i]) && !Names(" " + pairs[i])
    ensures Values(Pieces([Joined(pairs)])) == [token]
  {
    var a, b := pairs[..at], pairs[at + 1..];
    assert pairs == a + [COOKIE + "=" + token] + b;
    JoinedVisible(pairs);
    OnlyLineIsRead([], Joined(pairs), []);
    assert [] + [Joined(pairs)] + [] == [Joined(pairs)];
    SplitJoined(pairs);
    IssuedPair(token);
    LineIsRead(a, COOKIE + "=" + token, b, token);
  }

  lemma SentTokenIsRead(site: Site, s: State, i: Issue, from: Initiator, keys: seq<Key>, at: nat)
    requires Inv(site, s, Some(i)) && SentTo(site, s, from, keys) && AllVisible(s.jar, keys)
    requires at < |keys| && keys[at] == AdminKey(site.host)
    ensures SessionOf(Get(s.jar, keys)) == As("Bearer " + i.token)
  {
    PairsAreTame(site, s, Some(i), keys);
    OthersAreNamedOtherwise(site, s, Some(i), from, keys, at);
    OneTokenIsRead(Pairs(s.jar, keys), at, i.token);
    OneValueIsTheBearer(Get(s.jar, keys), i.token);
  }

  lemma OthersAreAnonymous(pairs: seq<string>)
    requires pairs != [] && Visible(Joined(pairs))
    requires forall i | 0 <= i < |pairs| :: ';' !in pairs[i] && !Names(pairs[i]) && !Names(" " + pairs[i])
    ensures Values(Pieces([Joined(pairs)])) == []
  {
    OnlyLineIsRead([], Joined(pairs), []);
    assert [] + [Joined(pairs)] + [] == [Joined(pairs)];
    SplitJoined(pairs);
    ValuesOfOthers([pairs[0]] + Spaced(pairs[1..]));
  }

  lemma NothingSentIsRead(site: Site, s: State, last: Option<Issue>, from: Initiator, keys: seq<Key>)
    requires Inv(site, s, last) && SentTo(site, s, from, keys) && AllVisible(s.jar, keys)
    requires AdminKey(site.host) !in keys
    ensures SessionOf(Get(s.jar, keys)) == Anonymous
  {
    if keys != [] {
      OnlyOwnCookie(site, s, last, from, keys);
      PairsAreTame(site, s, last, keys);
      var pairs := Pairs(s.jar, keys);
      forall j | 0 <= j < |keys| ensures keys[j].name != COOKIE { assert keys[j] in keys; }
      JoinedVisible(pairs);
      OthersAreAnonymous(pairs);
    }
  }

  /** One cookie that is not visible text takes the whole header with it. */
  lemma HiddenHeaderIsAnonymous(jar: Jar, keys: seq<Key>)
    requires (forall k | k in keys :: k in jar) && !AllVisible(jar, keys)
    ensures SessionOf(Get(jar, keys)) == Anonymous
  {
    HeaderIsText(jar, keys);
    var h := HeaderOf(jar, keys).value;
    assert Headers(jar, keys) == [h] && [h][1..] == [] && Pieces([]) == [];
    assert Pieces([h]) == [];
  }

  /** In every run from an empty jar, whatever else is in the jar and in whatever
      order it is sent: the jar sends at most one cookie of the name, and a plain
      GET is never refused. Its bearer is the token of the latest handoff not
      followed by a logout or its expiry, neither of them inside another site's page, if the site itself started the request
      and every cookie sent is visible text; otherwise there is none. */
  lemma GetCarriesTheLatestToken(site: Site, start: nat, es: seq<Event>, t: State, latest: Option<Issue>,
                                 from: Initiator, keys: seq<Key>)
    requires Run(site, State(map[], start), None, es, t, latest) && SentTo(site, t, from, keys)
    ensures forall k | k in keys && k.name == COOKIE :: k == AdminKey(site.host)
    ensures SessionOf(Get(t.jar, keys)) ==
            if from.OwnSite? && AllVisible(t.jar, keys) then Expected(site, latest, t.now) else Anonymous
  {
    RunKeepsInv(site, State(map[], start), None, es, t, latest);
    OnlyOwnCookie(site, t, latest, from, keys);
    var k := AdminKey(site.host);
    if !AllVisible(t.jar, keys) {
      HiddenHeaderIsAnonymous(t.jar, keys);
    } else if k in keys {
      var at :| 0 <= at < |keys| && keys[at] == k;
      SentTokenIsRead(site, t, latest.value, from, keys, at);
    } else {
      NothingSentIsRead(site, t, latest, from, keys);
    }
  }

  /** A session ends with its lifetime, if time passes and nothing else happens, and
      not a second before. */
  lemma SessionEnds(site: Site, s: State, i: Issue, seconds: nat, keys: seq<Key>)
    requires Inv(site, s, Some(i)) && s.now == i.at
    requires var t := Apply(site, s, Tick(seconds)); SentTo(site, t, OwnSite, keys) && AllVisible(t.jar, keys)
    ensures SessionOf(Get(Apply(site, s, Tick(seconds)).jar, keys)) ==
            if seconds < RemainingLifetime(site.exp(i.token), i.at) then As("Bearer " + i.token) else Anonymous
  {
    var t := Apply(site, s, Tick(seconds));
    var k := AdminKey(site.host);
    if k in keys {
      var at :| 0 <= at < |keys| && keys[at] == k;
      SentTokenIsRead(site, t, i, OwnSite, keys, at);
    } else {
      NothingSentIsRead(site, t, Some(i), OwnSite, keys);
    }
  }

  /** From any state at all, one cookie that the site's own host sets for something
      else can hide the session. */
  lemma OneCookieHidesTheSession(site: Site, s: State) returns (e: Event, keys: seq<Key>)
    ensures e.Elsewhere? && Enabled(site, s, e) && SentTo(site, Apply(site, s, e), OwnSite, keys)
    ensures SessionOf(Get(Apply(site, s, e).jar, keys)) == Anonymous
  {
    e := Elsewhere(OwnSite, Hiding("x"), site.host, true);
    HidingIsStored(s.jar, "x", site.host, s.now);
    assert "x" != COOKIE by { assert |COOKIE| > 1; }
    keys := HidingIsSent(Apply(site, s, e).jar, "x", site.host, s.now, AdminKey(site.host));
    HiddenHeaderIsAnonymous(Apply(site, s, e).jar, keys);
  }

  /** The cookie in the jar dies no later than its token does, or a minute after
      it was issued. */
  lemma CookieNeverOutlivesItsToken(site: Site, start: nat, es: seq<Event>, t: State, latest: Option<Issue>)
    requires Run(site, State(map[], start), None, es, t, latest)
    requires latest.Some? && site.exp(latest.value.token).Some?
    ensures var i, exp := latest.value, site.exp(latest.value.token).value;
            && AdminKey(site.host) in t.jar && t.jar[AdminKey(site.host)].expiry == Some(Death(site, i))
            && Death(site, i) <= if exp > i.at + 60 then exp else i.at + 60
  {
    RunKeepsInv(site, State(map[], start), None, es, t, latest);
    CookieDiesWithItsToken(site.exp(latest.value.token), latest.value.at);
  }
}
