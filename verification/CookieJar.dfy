/** A browser's cookie jar: parsing a Set-Cookie line (section 5.2 of RFC 6265),
    storing it (section 5.3), and the Cookie header of a request (section 5.4),
    with the rules browsers add: SameSite, for sending and for storing, and the name
    prefixes `__Secure-` and `__Host-`. The Expires attribute and path matching are not modelled:
    every cookie studied here has a Max-Age and the path `/`. */
module CookieJar {
  import opened Text
  import JsonText

  predicate IsWsp(c: char) { c == ' ' || c == '\t' }

  function TrimWsp(s: string): string { TrimBy(IsWsp, s) }

  // ---- section 5.2 ---------------------------------------------------------------------

  type Attributes = seq<(string, string)>

  datatype SetCookie = SetCookie(name: string, value: string, attributes: Attributes)

  function ParseAttribute(piece: string): (string, string) {
    match SplitOnce(piece, '=')
    case None => (Lower(TrimWsp(piece)), "")
    case Some((n, v)) => (Lower(TrimWsp(n)), TrimWsp(v))
  }

  function ParseAttributes(pieces: seq<string>): Attributes {
    seq(|pieces|, i requires 0 <= i < |pieces| => ParseAttribute(pieces[i]))
  }

  function ParseLine(line: string): Option<SetCookie> {
    var pieces := Split(line, ';');
    match SplitOnce(pieces[0], '=')
    case None => None
    case Some((n, v)) =>
      if TrimWsp(n) == "" then None else Some(SetCookie(TrimWsp(n), TrimWsp(v), ParseAttributes(pieces[1..])))
  }

  /** The value of the last attribute of this name. */
  function Attribute(attributes: Attributes, name: string): Option<string> {
    if attributes == [] then None
    else
      var last := attributes[|attributes| - 1];
      if last.0 == name then Some(last.1) else Attribute(attributes[..|attributes| - 1], name)
  }

  /** The delta-seconds of Max-Age, if it is well formed. */
  function DeltaSeconds(v: string): Option<int> {
    if v == "" then None
    else if v[0] == '-' then
      var (n, rest) := JsonText.ReadDigits(v[1..], 0);
      if rest == "" then Some(-(n as int)) else None
    else if IsDigit(v[0]) then
      var (n, rest) := JsonText.ReadDigits(v, 0);
      if rest == "" then Some(n) else None
    else None
  }

  // ---- section 5.3 ---------------------------------------------------------------------

  datatype Key = Key(name: string, domain: string, path: string)

  /** SameSite: `Open` stands for None, and for no policy at all. */
  datatype Policy = Strict | Lax | Open

  /** `expiry` is the first second at which the cookie is gone. A cookie that is
      replaced while it lives hands on its time of creation. */
  datatype Cookie = Cookie(value: string, expiry: Option<int>, hostOnly: bool, secure: bool, policy: Policy, created: int)

  type Jar = map<Key, Cookie>

  predicate Live(c: Cookie, now: int) { c.expiry.Some? ==> now < c.expiry.value }

  function CreatedAt(jar: Jar, k: Key, now: int): int { if k in jar && Live(jar[k], now) then jar[k].created else now }

  /** What a request, or the page that came of it, is to the site: its own or its
      user's doing; a whole page that another site sent the user to; or something
      inside another site's page. */
  datatype Initiator = OwnSite | OtherSiteNavigation | OtherSiteRequest

  /** Only cookies without a policy can be set from inside another site's page. */
  predicate Settable(policy: Policy, from: Initiator) { policy.Open? || !from.OtherSiteRequest? }

  function CookieDomainOf(attributes: Attributes): Option<string> {
    match Attribute(attributes, "domain")
    case None => None
    case Some(d) =>
      var d := if d != "" && d[0] == '.' then d[1..] else d;
      if d == "" then None else Some(Lower(d))
  }

  function PathOf(attributes: Attributes): string {
    match Attribute(attributes, "path")
    case Some(p) => if p != "" && p[0] == '/' then p else "/"
    case None => "/"
  }

  /** A host as the URL parser leaves it: a number for its last label makes it an
      IPv4 address, a colon an IPv6 address. */
  predicate IsAddress(host: string) {
    var labels := Split(host, '.');
    var last := labels[|labels| - 1];
    ':' in host || (last != "" && All(IsDigit, last))
  }

  /** Section 5.1.3: an address has no subdomains. */
  predicate DomainMatches(host: string, domain: string) {
    || host == domain
    || (!IsAddress(host) && |host| > |domain| && host[|host| - |domain|..] == domain && host[|host| - |domain| - 1] == '.')
  }

  function PolicyOf(attributes: Attributes): Policy {
    match Attribute(attributes, "samesite")
    case None => Open
    case Some(p) => if Lower(p) == "strict" then Strict else if Lower(p) == "lax" then Lax else Open
  }

  const SECURE_PREFIX := "__Secure-"
  const HOST_PREFIX := "__Host-"

  /** Prefixes are matched without case. */
  predicate Begins(prefix: string, name: string) { Lower(prefix) <= Lower(name) }

  /** What the prefix of a name demands. */
  predicate PrefixAllows(name: string, domain: Option<string>, secure: bool, path: string) {
    && (Begins(SECURE_PREFIX, name) ==> secure)
    && (Begins(HOST_PREFIX, name) ==> secure && domain.None? && path == "/")
  }

  /** Storing what `host` answered such a request with at time `now`, or what a
      script of its page set there. */
  function Store(jar: Jar, cookie: SetCookie, host: string, https: bool, now: int, from: Initiator): Jar {
    var a := cookie.attributes;
    var domain := CookieDomainOf(a);
    var secure := Attribute(a, "secure").Some?;
    var age := match Attribute(a, "max-age") case None => None case Some(v) => DeltaSeconds(v);
    if domain.Some? && !DomainMatches(host, domain.value) then jar
    else if secure && !https then jar
    else if !PrefixAllows(cookie.name, domain, secure, PathOf(a)) then jar
    else if !Settable(PolicyOf(a), from) then jar
    else
      var key := Key(cookie.name, if domain.Some? then domain.value else host, PathOf(a));
      var expiry := if age.Some? then Some(now + age.value) else None;
      if age.Some? && age.value <= 0 then jar - {key}
      else jar[key := Cookie(cookie.value, expiry, domain.None?, secure, PolicyOf(a), CreatedAt(jar, key, now))]
  }

  function Receive(jar: Jar, line: string, host: string, https: bool, now: int, from: Initiator): Jar {
    match ParseLine(line)
    case None => jar
    case Some(c) => Store(jar, c, host, https, now, from)
  }

  /** Attributes that scope a cookie to `domain` or the answering host alone, at
      the root path, for `age` seconds. */
  datatype Scope = Scope(domain: Option<string>, secure: bool, age: int, policy: Policy)

  predicate Asks(attributes: Attributes, scope: Scope) {
    && CookieDomainOf(attributes) == scope.domain && PathOf(attributes) == "/"
    && (Attribute(attributes, "secure").Some? <==> scope.secure)
    && PolicyOf(attributes) == scope.policy
    && match Attribute(attributes, "max-age") case None => false case Some(v) => DeltaSeconds(v) == Some(scope.age)
  }

  predicate Carries(line: string, name: string, value: string, scope: Scope) {
    match ParseLine(line)
    case None => false
    case Some(c) => c.name == name && c.value == value && Asks(c.attributes, scope)
  }

  function ScopedKey(name: string, scope: Scope, host: string): Key {
    Key(name, if scope.domain.Some? then scope.domain.value else host, "/")
  }

  /** Whether a browser keeps a cookie that `host` sets so. */
  predicate Accepted(name: string, scope: Scope, host: string, https: bool, from: Initiator) {
    && (scope.domain.Some? ==> DomainMatches(host, scope.domain.value))
    && (scope.secure ==> https)
    && PrefixAllows(name, scope.domain, scope.secure, "/")
    && Settable(scope.policy, from)
  }

  function ScopedCookie(jar: Jar, k: Key, value: string, scope: Scope, now: int): Cookie {
    Cookie(value, Some(now + scope.age), scope.domain.None?, scope.secure, scope.policy, CreatedAt(jar, k, now))
  }

  lemma AskedIsStored(jar: Jar, c: SetCookie, scope: Scope, host: string, https: bool, now: int, from: Initiator)
    requires Asks(c.attributes, scope)
    ensures var k := ScopedKey(c.name, scope, host);
            Store(jar, c, host, https, now, from) ==
            if !Accepted(c.name, scope, host, https, from) then jar
            else if scope.age <= 0 then jar - {k}
            else jar[k := ScopedCookie(jar, k, c.value, scope, now)]
  {
  }

  /** If it does, the line replaces the one cookie of its name and scope, or removes it. */
  lemma CarriedIsStored(jar: Jar, line: string, name: string, value: string, scope: Scope, host: string, https: bool,
                        now: int, from: Initiator)
    requires Carries(line, name, value, scope)
    ensures var k := ScopedKey(name, scope, host);
            Receive(jar, line, host, https, now, from) ==
            if !Accepted(name, scope, host, https, from) then jar
            else if scope.age <= 0 then jar - {k}
            else jar[k := ScopedCookie(jar, k, value, scope, now)]
  {
    AskedIsStored(jar, ParseLine(line).value, scope, host, https, now, from);
  }

  // ---- section 5.4 ---------------------------------------------------------------------

  predicate Reaches(jar: Jar, k: Key, host: string)
    requires k in jar
  {
    if jar[k].hostOnly then k.domain == host else DomainMatches(host, k.domain)
  }

  predicate Travels(policy: Policy, from: Initiator) {
    match policy
    case Strict => from.OwnSite?
    case Lax => !from.OtherSiteRequest?
    case Open => true
  }

  predicate Sendable(jar: Jar, k: Key, host: string, now: int, from: Initiator) {
    k in jar && Live(jar[k], now) && Reaches(jar, k, host) && Travels(jar[k].policy, from)
  }

  /** The browser sends live cookies that reach the host with such a request, each
      once, in some order; the one under `mine` is among them whenever it can be. */
  ghost predicate Sends(jar: Jar, host: string, now: int, from: Initiator, mine: Key, keys: seq<Key>) {
    && (forall i, j | 0 <= i < j < |keys| :: keys[i] != keys[j])
    && (forall k | k in keys :: Sendable(jar, k, host, now, from))
    && (Sendable(jar, mine, host, now, from) ==> mine in keys)
  }

  /** The order of section 5.4: longer paths first, then older cookies. */
  predicate Ordered(jar: Jar, keys: seq<Key>)
    requires forall k | k in keys :: k in jar
  {
    forall i, j | 0 <= i < j < |keys| ::
      assert keys[i] in keys && keys[j] in keys;
      || |keys[i].path| > |keys[j].path|
      || (|keys[i].path| == |keys[j].path| && jar[keys[i]].created <= jar[keys[j]].created)
  }

  function PairText(jar: Jar, k: Key): string
    requires k in jar
  {
    k.name + "=" + jar[k].value
  }

  function Pairs(jar: Jar, keys: seq<Key>): seq<string>
    requires forall k | k in keys :: k in jar
  {
    seq(|keys|, i requires 0 <= i < |keys| => assert keys[i] in keys; PairText(jar, keys[i]))
  }

  /** Pieces joined by a semicolon and a space. */
  function Joined(pieces: seq<string>): string
    requires pieces != []
  {
    pieces[0] + Tail(pieces[1..])
  }

  function Tail(pieces: seq<string>): string {
    if pieces == [] then "" else "; " + (pieces[0] + Tail(pieces[1..]))
  }

  function HeaderOf(jar: Jar, keys: seq<Key>): Option<string>
    requires forall k | k in keys :: k in jar
  {
    if keys == [] then None else Some(Joined(Pairs(jar, keys)))
  }

  /** What the server gets of the header: nothing, when it has no text. */
  function TextOf(header: Option<string>): Option<string> {
    if header.Some? && Visible(header.value) then header else None
  }

  /** Every cookie sent is visible text. */
  predicate AllVisible(jar: Jar, keys: seq<Key>)
    requires forall k | k in keys :: k in jar
  {
    forall k | k in keys :: Visible(PairText(jar, k))
  }

  lemma VisibleSum(a: string, b: string)
    ensures Visible(a + b) <==> Visible(a) && Visible(b)
  {
    assert forall i | 0 <= i < |a| :: (a + b)[i] == a[i];
    assert forall i | 0 <= i < |b| :: (a + b)[|a| + i] == b[i];
  }

  lemma {:induction false} TailVisible(pieces: seq<string>)
    ensures Visible(Tail(pieces)) <==> forall i | 0 <= i < |pieces| :: Visible(pieces[i])
    decreases |pieces|
  {
    if pieces != [] {
      var rest := pieces[1..];
      TailVisible(rest);
      VisibleSum("; ", pieces[0] + Tail(rest));
      VisibleSum(pieces[0], Tail(rest));
      assert forall i | 0 < i < |pieces| :: pieces[i] == rest[i - 1];
    }
  }

  lemma JoinedVisible(pieces: seq<string>)
    requires pieces != []
    ensures Visible(Joined(pieces)) <==> forall i | 0 <= i < |pieces| :: Visible(pieces[i])
  {
    TailVisible(pieces[1..]);
    VisibleSum(pieces[0], Tail(pieces[1..]));
    assert forall i | 0 < i < |pieces| :: pieces[i] == pieces[1..][i - 1];
  }

  /** The header has a text exactly when every cookie in it is visible. */
  lemma HeaderIsText(jar: Jar, keys: seq<Key>)
    requires keys != [] && forall k | k in keys :: k in jar
    ensures Visible(HeaderOf(jar, keys).value) <==> AllVisible(jar, keys)
  {
    var pairs := Pairs(jar, keys);
    JoinedVisible(pairs);
    if AllVisible(jar, keys) {
      forall i | 0 <= i < |pairs| ensures Visible(pairs[i]) { assert keys[i] in keys; }
    } else {
      var k :| k in keys && !Visible(PairText(jar, k));
      var i :| 0 <= i < |keys| && keys[i] == k;
      assert !Visible(pairs[i]);
    }
  }

  // ---- taking a joined text apart -------------------------------------------------------

  function Spaced(pieces: seq<string>): seq<string> { seq(|pieces|, i requires 0 <= i < |pieces| => " " + pieces[i]) }

  lemma TailCons(x: string, pieces: seq<string>)
    requires pieces != []
    ensures x + Tail(pieces) == x + [';'] + (" " + pieces[0] + Tail(pieces[1..]))
  {
    var t := Tail(pieces[1..]);
    assert "; " == [';'] + " ";
    Assoc([';'], " ", pieces[0] + t);
    Assoc(" ", pieces[0], t);
    Assoc(x, [';'], " " + pieces[0] + t);
  }

  lemma SpacedCons(pieces: seq<string>)
    requires pieces != []
    ensures Spaced(pieces) == [" " + pieces[0]] + Spaced(pieces[1..])
  {
  }

  lemma NotInSum(c: char, a: string, b: string)
    requires c !in a && c !in b
    ensures c !in a + b
  {
  }

  lemma {:induction false} SplitTail(x: string, pieces: seq<string>)
    requires ';' !in x && forall i | 0 <= i < |pieces| :: ';' !in pieces[i]
    ensures Split(x + Tail(pieces), ';') == [x] + Spaced(pieces)
    decreases |pieces|
  {
    if pieces == [] {
      SplitSingle(x, ';');
      assert x + "" == x;
    } else {
      var next, rest := " " + pieces[0], pieces[1..];
      TailCons(x, pieces);
      NotInSum(';', " ", pieces[0]);
      SplitCons(x, ';', next + Tail(rest));
      SplitTail(next, rest);
      SpacedCons(pieces);
    }
  }

  lemma SplitJoined(pieces: seq<string>)
    requires pieces != [] && forall i | 0 <= i < |pieces| :: ';' !in pieces[i]
    ensures Split(Joined(pieces), ';') == [pieces[0]] + Spaced(pieces[1..])
  {
    SplitTail(pieces[0], pieces[1..]);
  }

  lemma TrimWspBare(s: string)
    requires Bare(IsWsp, s)
    ensures TrimWsp(s) == s && TrimWsp(" " + s) == s
  {
    TrimCore(IsWsp, "", s, "");
    TrimCore(IsWsp, " ", s, "");
    assert "" + s + "" == s && " " + s + "" == " " + s;
  }

  /** A written attribute is parsed as its name, in lower case, and its value. */
  lemma ParseWritten(name: string, lower: string, value: string)
    requires '=' !in name && Bare(IsWsp, name) && Bare(IsWsp, value) && Lower(name) == lower
    ensures ParseAttribute(" " + (name + "=" + value)) == (lower, value)
  {
    SplitOnceAt(" " + name, '=', value);
    assert " " + (name + "=" + value) == " " + name + ['='] + value;
    TrimWspBare(name);
    TrimWspBare(value);
  }

  lemma ParseFlag(name: string, lower: string)
    requires '=' !in name && Bare(IsWsp, name) && Lower(name) == lower
    ensures ParseAttribute(" " + name) == (lower, "")
  {
    SplitOnceNone(" " + name, '=');
    TrimWspBare(name);
  }

  /** A written line is parsed as its name, value and attributes. */
  lemma ParseWrittenLine(name: string, value: string, more: seq<string>)
    requires name != "" && '=' !in name && ';' !in name && Bare(IsWsp, name)
    requires ';' !in value && Bare(IsWsp, value)
    requires forall i | 0 <= i < |more| :: ';' !in more[i]
    ensures ParseLine(Joined([name + "=" + value] + more)) == Some(SetCookie(name, value, ParseAttributes(Spaced(more))))
  {
    var pieces := [name + "=" + value] + more;
    SplitJoined(pieces);
    assert pieces[1..] == more;
    SplitOnceAt(name, '=', value);
    TrimWspBare(name);
    TrimWspBare(value);
    var split := Split(Joined(pieces), ';');
    assert split[0] == name + "=" + value && split[1..] == Spaced(more);
  }

  lemma DeltaOfPrinted(n: nat)
    ensures DeltaSeconds(JsonText.PrintNat(n)) == Some(n)
  {
    var p := JsonText.PrintNat(n);
    JsonText.ReadPrintedNat(n, "");
    assert p + "" == p && p[0] in p;
  }

  lemma {:induction false} AttributeAt(attributes: Attributes, i: nat, name: string)
    requires i < |attributes| && attributes[i].0 == name
    requires forall j | i < j < |attributes| :: attributes[j].0 != name
    ensures Attribute(attributes, name) == Some(attributes[i].1)
    decreases |attributes|
  {
    if i < |attributes| - 1 { AttributeAt(attributes[..|attributes| - 1], i, name); }
  }

  lemma {:induction false} AttributeMissing(attributes: Attributes, name: string)
    requires forall j | 0 <= j < |attributes| :: attributes[j].0 != name
    ensures Attribute(attributes, name) == None
    decreases |attributes|
  {
    if attributes != [] { AttributeMissing(attributes[..|attributes| - 1], name); }
  }

  /** Parsing yields a trimmed name and value without the characters it split at. */
  lemma ParsedIsClean(line: string)
    requires ParseLine(line).Some?
    ensures var c := ParseLine(line).value;
            && c.name != "" && '=' !in c.name && ';' !in c.name && Bare(IsWsp, c.name)
            && ';' !in c.value && Bare(IsWsp, c.value)
  {
    var piece := Split(line, ';')[0];
    var (n, v) := SplitOnce(piece, '=').value;
    SplitOnceAvoids(piece, '=', ';');
    TrimAvoids(IsWsp, n, '=');
    TrimAvoids(IsWsp, n, ';');
    TrimAvoids(IsWsp, v, ';');
    var a, b := TrimSplits(IsWsp, n);
    var x, y := TrimSplits(IsWsp, v);
  }

  lemma StoredNameIsParsed(line: string, host: string, https: bool, now: int, from: Initiator, k: Key)
    requires k in Receive(map[], line, host, https, now, from)
    ensures ParseLine(line).Some? && k.name == ParseLine(line).value.name && k.name != ""
  {
    ParsedIsClean(line);
  }

  // ---- a cookie that is not visible text ---------------------------------------------------

  function Hiding(name: string): string { name + "=" + "\U{E9}" }

  lemma HidingIsStored(jar: Jar, name: string, host: string, now: int)
    requires name == "x" || name == "y"
    ensures var k := Key(name, host, "/");
            Receive(jar, Hiding(name), host, true, now, OwnSite) ==
            jar[k := Cookie("\U{E9}", None, true, false, Open, CreatedAt(jar, k, now))]
    ensures ParseLine(Hiding(name)) == Some(SetCookie(name, "\U{E9}", []))
  {
    ParseWrittenLine(name, "\U{E9}", []);
    assert Joined([name + "=" + "\U{E9}"] + []) == Hiding(name);
    assert ParseAttributes(Spaced([])) == [];
    assert !Begins(SECURE_PREFIX, name) && !Begins(HOST_PREFIX, name);
  }

  lemma HidingIsSent(jar: Jar, name: string, host: string, now: int, mine: Key) returns (keys: seq<Key>)
    requires var x := Key(name, host, "/"); x in jar && jar[x] == Cookie("\U{E9}", None, true, false, Open, jar[x].created)
    ensures Sends(jar, host, now, OwnSite, mine, keys) && !AllVisible(jar, keys)
  {
    var x := Key(name, host, "/");
    keys := [x] + if mine != x && Sendable(jar, mine, host, now, OwnSite) then [mine] else [];
    assert x in keys;
    assert PairText(jar, x)[|name| + 1] == '\U{E9}';
  }
}
