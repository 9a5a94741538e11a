/** The dashboard's session cookie: issued by the handoff, read back on every
    request, cleared by logout. */
module Session {
  import opened Text
  import JsonText
  import CookieJar

  const COOKIE := "__Host-heyo-admin"

  predicate TokenChar(c: char) { IsLetter(c) || IsDigit(c) || c == '.' || c == '_' || c == '-' }

  /** `cookie_safe`, and the check `session` makes on the way back in. */
  predicate CookieSafe(token: string) { token != "" && |token| <= 3800 && All(TokenChar, token) }

  // ---- reading ---------------------------------------------------------------------------

  datatype Method = Get | Head | OtherMethod

  /** What `session` looks at. Whether Origin and Host agree is decided elsewhere. */
  datatype Request = Request(authorization: bool, cookies: seq<string>, verb: Method, upgrade: bool, sameOrigin: bool)

  /** `Err(())`, `Ok(None)` and `Ok(Some(bearer))`. */
  datatype Answer = Refused | Anonymous | As(bearer: string)

  /** The pieces of all Cookie headers; a header without a text is passed over. */
  function Pieces(headers: seq<string>): seq<string> {
    if headers == [] then []
    else (if Visible(headers[0]) then Split(headers[0], ';') else []) + Pieces(headers[1..])
  }

  predicate Names(piece: string) {
    var pair := SplitOnce(Trim(piece), '=');
    pair.Some? && pair.value.0 == COOKIE
  }

  function ValueOf(piece: string): string
    requires Names(piece)
  {
    SplitOnce(Trim(piece), '=').value.1
  }

  /** The values of all pairs of the cookie's name, over all Cookie headers. */
  function Values(pieces: seq<string>): seq<string> {
    if pieces == [] then []
    else (if Names(pieces[0]) then [ValueOf(pieces[0])] else []) + Values(pieces[1..])
  }

  function SessionOf(r: Request): Answer {
    var values := Values(Pieces(r.cookies));
    if r.authorization then Anonymous
    else if values == [] then Anonymous
    else if |values| > 1 || !CookieSafe(values[0]) then Refused
    else if (r.verb == OtherMethod || r.upgrade) && !r.sameOrigin then Refused
    else As("Bearer " + values[0])
  }

  // ---- what is read, whatever else the headers hold ---------------------------------------------

  lemma {:induction false} ValuesConcat(a: seq<string>, b: seq<string>)
    ensures Values(a + b) == Values(a) + Values(b)
    decreases |a|
  {
    if a == [] {
      assert a + b == b;
    } else {
      var head := if Names(a[0]) then [ValueOf(a[0])] else [];
      calc {
        Values(a + b);
      == { assert (a + b)[1..] == a[1..] + b; }
        head + Values(a[1..] + b);
      == { ValuesConcat(a[1..], b); }
        head + (Values(a[1..]) + Values(b));
      == { Assoc(head, Values(a[1..]), Values(b)); }
        Values(a) + Values(b);
      }
    }
  }

  lemma {:induction false} PiecesConcat(a: seq<string>, b: seq<string>)
    ensures Pieces(a + b) == Pieces(a) + Pieces(b)
    decreases |a|
  {
    if a == [] {
      assert a + b == b;
    } else {
      var head := if Visible(a[0]) then Split(a[0], ';') else [];
      calc {
        Pieces(a + b);
      == { assert (a + b)[1..] == a[1..] + b; }
        head + Pieces(a[1..] + b);
      == { PiecesConcat(a[1..], b); }
        head + (Pieces(a[1..]) + Pieces(b));
      == { Assoc(head, Pieces(a[1..]), Pieces(b)); }
        Pieces(a) + Pieces(b);
      }
    }
  }

  lemma {:induction false} ValuesOfOthers(pieces: seq<string>)
    requires forall i | 0 <= i < |pieces| :: !Names(pieces[i])
    ensures Values(pieces) == []
  {
    if pieces != [] { ValuesOfOthers(pieces[1..]); }
  }

  /** Exactly one pair of the name, anywhere in the headers, is read as its value. */
  lemma OnlyPairIsRead(before: seq<string>, piece: string, after: seq<string>)
    requires Names(piece)
    requires forall i | 0 <= i < |before| :: !Names(before[i])
    requires forall i | 0 <= i < |after| :: !Names(after[i])
    ensures Values(before + [piece] + after) == [ValueOf(piece)]
  {
    ValuesConcat(before + [piece], after);
    ValuesConcat(before, [piece]);
    ValuesOfOthers(before);
    ValuesOfOthers(after);
    ValuesOfOne(piece);
  }

  lemma ValuesOfOne(piece: string)
    requires Names(piece)
    ensures Values([piece]) == [ValueOf(piece)]
  {
    assert [piece][1..] == [];
  }

  /** A second pair of the name, in the same header or another, is always refused. */
  lemma SecondPairIsRefused(r: Request, i: nat, j: nat)
    requires !r.authorization && i < j < |Pieces(r.cookies)|
    requires Names(Pieces(r.cookies)[i]) && Names(Pieces(r.cookies)[j])
    ensures SessionOf(r) == Refused
  {
    var p := Pieces(r.cookies);
    assert p == p[..i] + [p[i]] + p[i + 1..j] + [p[j]] + p[j + 1..];
    ValuesConcat(p[..i] + [p[i]] + p[i + 1..j] + [p[j]], p[j + 1..]);
    ValuesConcat(p[..i] + [p[i]] + p[i + 1..j], [p[j]]);
    ValuesConcat(p[..i] + [p[i]], p[i + 1..j]);
    ValuesConcat(p[..i], [p[i]]);
    assert [p[i]][1..] == [] && [p[j]][1..] == [];
  }

  // ---- who is let in, exactly --------------------------------------------------------------------

  /** A piece names the cookie when, without blanks around it, it starts with the
      name and an equals sign; blanks between the two are not forgiven. */
  lemma NamesExactly(piece: string)
    ensures Names(piece) <==> COOKIE + "=" <= Trim(piece)
    ensures Names(piece) ==> Trim(piece) == COOKIE + "=" + ValueOf(piece)
  {
    var p := Trim(piece);
    var i := IndexOf(p, '=');
    if COOKIE + "=" <= p {
      assert p == COOKIE + ['='] + p[|COOKIE| + 1..];
      SplitOnceAt(COOKIE, '=', p[|COOKIE| + 1..]);
    }
    if Names(piece) { assert p == p[..i] + "=" + p[i + 1..]; }
  }

  /** The pieces are those between the semicolons of the headers that have a text. */
  lemma {:induction false} PiecesExactly(headers: seq<string>, piece: string)
    ensures piece in Pieces(headers) <==> exists h :: h in headers && Visible(h) && piece in Split(h, ';')
  {
    if headers != [] { PiecesExactly(headers[1..], piece); }
  }

  /** The only piece of the name is the `i`th, and it has this value. */
  predicate OnlyAt(pieces: seq<string>, i: nat, token: string) {
    && i < |pieces| && COOKIE + "=" + token == Trim(pieces[i])
    && forall j | 0 <= j < |pieces| && j != i :: !(COOKIE + "=" <= Trim(pieces[j]))
  }

  /** A request that cannot change anything, or comes from the site itself. */
  predicate Harmless(r: Request) { r.sameOrigin || (r.verb != OtherMethod && !r.upgrade) }

  lemma {:induction false} NoValues(pieces: seq<string>)
    ensures Values(pieces) == [] <==> forall i | 0 <= i < |pieces| :: !Names(pieces[i])
  {
    if pieces != [] {
      NoValues(pieces[1..]);
      assert forall i | 0 < i < |pieces| :: pieces[i] == pieces[1..][i - 1];
    }
  }

  lemma {:induction false} OneValue(pieces: seq<string>) returns (i: nat)
    requires |Values(pieces)| == 1
    ensures OnlyAt(pieces, i, Values(pieces)[0])
  {
    NamesExactly(pieces[0]);
    var rest := pieces[1..];
    if Names(pieces[0]) {
      NoValues(rest);
      i := 0;
      forall j | 0 < j < |pieces| ensures !(COOKIE + "=" <= Trim(pieces[j])) {
        assert pieces[j] == rest[j - 1];
        NamesExactly(rest[j - 1]);
      }
    } else {
      i := OneValue(rest);
      forall j | 0 < j < |pieces| && j != i + 1 ensures !(COOKIE + "=" <= Trim(pieces[j])) {
        assert pieces[j] == rest[j - 1];
      }
      assert pieces[i + 1] == rest[i];
      i := i + 1;
    }
  }

  lemma OnlyAtIsTheValue(pieces: seq<string>, i: nat, token: string)
    requires OnlyAt(pieces, i, token)
    ensures Values(pieces) == [token]
  {
    NamesExactly(pieces[i]);
    forall j | 0 <= j < |pieces| && j != i ensures !Names(pieces[j]) { NamesExactly(pieces[j]); }
    assert pieces == pieces[..i] + [pieces[i]] + pieces[i + 1..];
    OnlyPairIsRead(pieces[..i], pieces[i], pieces[i + 1..]);
    var p := Trim(pieces[i]);
    assert p[|COOKIE| + 1..] == token && p[|COOKIE| + 1..] == ValueOf(pieces[i]);
  }

  /** A request is let in with a token if and only if it has no Authorization, that
      token is safe and in the only pair of the name, and the request is harmless
      or comes from the site itself. */
  lemma LetInExactly(r: Request, token: string)
    ensures SessionOf(r) == As("Bearer " + token) <==>
            !r.authorization && CookieSafe(token) && Harmless(r) && exists i: nat :: OnlyAt(Pieces(r.cookies), i, token)
  {
    var pieces := Pieces(r.cookies);
    if SessionOf(r) == As("Bearer " + token) {
      assert ("Bearer " + token)[7..] == token && ("Bearer " + Values(pieces)[0])[7..] == Values(pieces)[0];
      var i := OneValue(pieces);
    }
    if exists i: nat :: OnlyAt(pieces, i, token) {
      var i: nat :| OnlyAt(pieces, i, token);
      OnlyAtIsTheValue(pieces, i, token);
    }
  }

  /** It is anonymous if and only if it has Authorization, whatever its cookies, or
      no pair of the name. All others are refused: a write or an upgrade from
      another origin is, whatever its token. */
  lemma RefusedExactly(r: Request)
    ensures SessionOf(r) == Anonymous <==>
            r.authorization || forall i | 0 <= i < |Pieces(r.cookies)| :: !(COOKIE + "=" <= Trim(Pieces(r.cookies)[i]))
    ensures !r.sameOrigin && (r.verb == OtherMethod || r.upgrade) ==> SessionOf(r) == Anonymous || SessionOf(r) == Refused
  {
    var pieces := Pieces(r.cookies);
    forall i | 0 <= i < |pieces| ensures Names(pieces[i]) <==> COOKIE + "=" <= Trim(pieces[i]) { NamesExactly(pieces[i]); }
    NoValues(pieces);
  }

  /** The alphabet and the bound: a token of 3800 such characters is the longest. */
  lemma CookieSafeExactly(token: string)
    ensures CookieSafe(token) <==>
            && 0 < |token| < 3801
            && forall c | c in token :: 'a' <= c <= 'z' || 'A' <= c <= 'Z' || '0' <= c <= '9' || c in "._-"
  {
    if CookieSafe(token) {
      forall c | c in token ensures TokenChar(c) { var i :| 0 <= i < |token| && token[i] == c; }
    }
    assert forall i | 0 <= i < |token| :: token[i] in token;
  }

  /** Whoever gets a session has a token the handoff would have issued. */
  lemma SessionsAreCookieSafe(r: Request)
    requires SessionOf(r).As?
    ensures exists token :: CookieSafe(token) && SessionOf(r).bearer == "Bearer " + token
  {
    var token := Values(Pieces(r.cookies))[0];
    assert CookieSafe(token) && SessionOf(r).bearer == "Bearer " + token;
  }

  lemma IssuedPair(token: string)
    requires CookieSafe(token)
    ensures var piece := COOKIE + "=" + token;
            && Names(piece) && ValueOf(piece) == token && Names(" " + piece) && ValueOf(" " + piece) == token
  {
    var piece := COOKIE + "=" + token;
    assert piece[0] == '_' && piece[|piece| - 1] == token[|token| - 1];
    TrimCore(IsWhite, "", piece, "");
    TrimCore(IsWhite, " ", piece, "");
    assert "" + piece + "" == piece && " " + piece + "" == " " + piece;
    SplitOnceAt(COOKIE, '=', token);
  }

  /** A token comes back as the same bearer from any set of Cookie headers in
      which it is the only pair of the name, at any position among others. */
  lemma TokenComesBack(before: seq<string>, a: seq<string>, token: string, b: seq<string>, after: seq<string>, r: Request)
    requires CookieSafe(token)
    requires forall i | 0 <= i < |a| :: ';' !in a[i] && !Names(a[i]) && !Names(" " + a[i])
    requires forall i | 0 <= i < |b| :: ';' !in b[i] && !Names(" " + b[i])
    requires forall i | 0 <= i < |Pieces(before)| :: !Names(Pieces(before)[i])
    requires forall i | 0 <= i < |Pieces(after)| :: !Names(Pieces(after)[i])
    requires var line := CookieJar.Joined(a + [COOKIE + "=" + token] + b);
             Visible(line) && r.cookies == before + [line] + after
    requires !r.authorization && (r.sameOrigin || (r.verb != OtherMethod && !r.upgrade))
    ensures SessionOf(r) == As("Bearer " + token)
  {
    var piece := COOKIE + "=" + token;
    var all := a + [piece] + b;
    assert ';' !in piece;
    CookieJar.SplitJoined(all);
    IssuedPair(token);
    LineIsRead(a, piece, b, token);
    OnlyLineIsRead(before, CookieJar.Joined(all), after);
    OneValueIsTheBearer(r, token);
  }

  lemma OneValueIsTheBearer(r: Request, token: string)
    requires Values(Pieces(r.cookies)) == [token] && CookieSafe(token)
    requires !r.authorization && (r.sameOrigin || (r.verb != OtherMethod && !r.upgrade))
    ensures SessionOf(r) == As("Bearer " + token)
  {
  }

  lemma OnlyLineIsRead(before: seq<string>, line: string, after: seq<string>)
    requires Visible(line)
    requires forall i | 0 <= i < |Pieces(before)| :: !Names(Pieces(before)[i])
    requires forall i | 0 <= i < |Pieces(after)| :: !Names(Pieces(after)[i])
    ensures Values(Pieces(before + [line] + after)) == Values(Split(line, ';'))
  {
    PiecesConcat(before + [line], after);
    PiecesConcat(before, [line]);
    assert [line][1..] == [] && Split(line, ';') + [] == Split(line, ';');
    ValuesConcat(Pieces(before) + Split(line, ';'), Pieces(after));
    ValuesConcat(Pieces(before), Split(line, ';'));
    ValuesOfOthers(Pieces(before));
    ValuesOfOthers(Pieces(after));
  }

  lemma LineIsRead(a: seq<string>, piece: string, b: seq<string>, token: string)
    requires Names(piece) && Names(" " + piece) && ValueOf(piece) == ValueOf(" " + piece) == token
    requires forall i | 0 <= i < |a| :: !Names(a[i]) && !Names(" " + a[i])
    requires forall i | 0 <= i < |b| :: !Names(" " + b[i])
    ensures var all := a + [piece] + b; Values([all[0]] + CookieJar.Spaced(all[1..])) == [token]
  {
    var all := a + [piece] + b;
    var whole := [all[0]] + CookieJar.Spaced(all[1..]);
    if a == [] {
      assert all[0] == piece && all[1..] == b;
      assert whole == [] + [piece] + CookieJar.Spaced(b);
      OnlyPairIsRead([], piece, CookieJar.Spaced(b));
    } else {
      var before := [a[0]] + CookieJar.Spaced(a[1..]);
      assert whole == before + [" " + piece] + CookieJar.Spaced(b);
      OnlyPairIsRead(before, " " + piece, CookieJar.Spaced(b));
    }
  }

  // ---- issuing --------------------------------------------------------------------------------

  datatype Grant = Grant(fleet: bool, namespaces: set<string>)

  predicate GrantOpens(grant: Grant, namespace: string) { grant.fleet || namespace in grant.namespaces }

  function Clamp(n: nat, low: nat, high: nat): nat
    requires low <= high
  {
    if n < low then low else if n > high then high else n
  }

  /** `exp` is the expiry the token claims, if it claims one. */
  function RemainingLifetime(exp: Option<nat>, now: nat): nat {
    var left := match exp case None => 3600 case Some(e) => if e > now then e - now else 0;
    Clamp(left, 60, 86400)
  }

  /** The cookie dies with its token, but a minute after it was issued at the
      earliest and a day after that at the latest; an hour after it when the token
      claims no expiry. */
  lemma CookieDiesWithItsToken(exp: Option<nat>, now: nat)
    ensures 60 <= RemainingLifetime(exp, now) <= 86400
    ensures exp == None ==> RemainingLifetime(exp, now) == 3600
    ensures exp.Some? && now + 60 <= exp.value <= now + 86400 ==> now + RemainingLifetime(exp, now) == exp.value
    ensures exp.Some? && exp.value < now + 60 ==> RemainingLifetime(exp, now) == 60
    ensures exp.Some? && exp.value > now + 86400 ==> RemainingLifetime(exp, now) == 86400
    ensures exp.Some? ==> now + RemainingLifetime(exp, now) <= if exp.value > now + 60 then exp.value else now + 60
  {
  }

  const ATTRIBUTES := "; Path=/; Secure; HttpOnly" + "; SameSite=Strict; Max-Age="

  function HandoffLine(token: string, lifetime: nat): string {
    COOKIE + "=" + token + ATTRIBUTES + JsonText.PrintNat(lifetime)
  }

  /** `logout`: an empty cookie with no time to live, for the site itself only. */
  function Logout(sameOrigin: bool): Option<string> { if sameOrigin then Some(HandoffLine("", 0)) else None }

  datatype HandoffAnswer = Malformed | Expired | NoAccess | Opened(setCookie: string)

  /** `validNamespace` and `resolve` stand for the namespace check and the token's
      lookup with the auth service; `exp` decodes the token's claimed expiry. */
  function Handoff(token: string, namespace: string, validNamespace: string -> bool,
                   resolve: string -> Option<Grant>, exp: string -> Option<nat>, now: nat): HandoffAnswer
  {
    var ns := Trim(namespace);
    if !validNamespace(ns) || !CookieSafe(token) then Malformed
    else match resolve(token)
      case None => Expired
      case Some(grant) =>
        if !GrantOpens(grant, ns) then NoAccess
        else Opened(HandoffLine(token, RemainingLifetime(exp(token), now)))
  }

  /** A handoff opens the dashboard if and only if the namespace is valid, the token
      is safe and known, and its grant covers that namespace or the whole fleet. It
      sets the token then, for the lifetime left, and nothing otherwise. */
  lemma HandoffOpensExactly(token: string, namespace: string, validNamespace: string -> bool,
                            resolve: string -> Option<Grant>, exp: string -> Option<nat>, now: nat)
    ensures var ns, answer := Trim(namespace), Handoff(token, namespace, validNamespace, resolve, exp, now);
            && (answer.Malformed? <==> !validNamespace(ns) || !CookieSafe(token))
            && (answer.Expired? ==> resolve(token) == None)
            && (answer.NoAccess? ==> exists g :: resolve(token) == Some(g) && g.fleet == false && ns !in g.namespaces)
            && (answer.Opened? <==>
                  validNamespace(ns) && CookieSafe(token)
                  && exists g :: resolve(token) == Some(g) && (g.fleet == true || ns in g.namespaces))
            && (answer.Opened? ==>
                  COOKIE + "=" + token + "; " <= answer.setCookie
                  && answer.setCookie == HandoffLine(token, RemainingLifetime(exp(token), now)))
  {
    var ns, answer := Trim(namespace), Handoff(token, namespace, validNamespace, resolve, exp, now);
    if answer.Opened? { LineBegins(token, JsonText.PrintNat(RemainingLifetime(exp(token), now))); }
  }

  lemma LineBegins(token: string, n: string)
    ensures COOKIE + "=" + token + "; " <= COOKIE + "=" + token + ATTRIBUTES + n
  {
    assert ATTRIBUTES[..2] == "; ";
    var p := COOKIE + "=" + token;
    assert (p + ATTRIBUTES + n)[..|p| + 2] == p + "; ";
  }

  // ---- what the browser stores -----------------------------------------------------------------

  lemma LineIsJoined(token: string, lifetime: nat)
    ensures HandoffLine(token, lifetime)
         == CookieJar.Joined([COOKIE + "=" + token] + [
              "Path" + "=" + "/", "Secure", "HttpOnly", "SameSite" + "=" + "Strict", "Max-Age" + "=" + JsonText.PrintNat(lifetime)])
  {
    var n := JsonText.PrintNat(lifetime);
    var p := COOKIE + "=" + token;
    var more := ["Path" + "=" + "/", "Secure", "HttpOnly", "SameSite" + "=" + "Strict", "Max-Age" + "=" + n];
    assert ([p] + more)[1..] == more;
    TailOfFive("Path" + "=" + "/", "Secure", "HttpOnly", "SameSite" + "=" + "Strict", "Max-Age" + "=" + n);
    LiteralAttributes(n);
    Assoc(p, ATTRIBUTES, n);
  }

  lemma TailOfFive(a: string, b: string, c: string, d: string, e: string)
    ensures CookieJar.Tail([a, b, c, d, e]) == "; " + a + "; " + b + "; " + c + "; " + d + "; " + e
  {
    assert [a, b, c, d, e][1..] == [b, c, d, e] && [b, c, d, e][1..] == [c, d, e];
    assert [c, d, e][1..] == [d, e] && [d, e][1..] == [e] && [e][1..] == [];
    assert CookieJar.Tail([e]) == "; " + e;
    assert CookieJar.Tail([d, e]) == "; " + d + "; " + e;
    assert CookieJar.Tail([c, d, e]) == "; " + c + "; " + d + "; " + e;
    assert CookieJar.Tail([b, c, d, e]) == "; " + b + "; " + c + "; " + d + "; " + e;
  }

  lemma LiteralAttributes(n: string)
    ensures ATTRIBUTES + n
         == "; " + ("Path" + "=" + "/") + "; " + "Secure" + "; " + "HttpOnly" + "; " + ("SameSite" + "=" + "Strict") + "; " + ("Max-Age" + "=" + n)
  {
    LiteralAttributesStart();
    Assoc("; Path=/; Secure; HttpOnly", "; " + ("SameSite" + "=" + "Strict"), "; Max-Age=");
    Assoc("; Path=/; Secure; HttpOnly", "; ", "SameSite" + "=" + "Strict");
    assert "; " + ("Max-Age" + "=" + n) == "; Max-Age=" + n;
  }

  lemma LiteralAttributesStart()
    ensures "; Path=/; Secure; HttpOnly" == "; " + ("Path" + "=" + "/") + "; " + "Secure" + "; " + "HttpOnly"
    ensures "; SameSite=Strict; Max-Age=" == "; " + ("SameSite" + "=" + "Strict") + "; Max-Age="
  {
  }
}
