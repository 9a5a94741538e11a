/** Two cookies of the name at once: a host-only one and the fleet's domain-wide
    one. Browsers send the older one first, and the server's loop takes the first. */
module ThemeShadow {
  import opened Text
  import opened CookieJar
  import opened Theme
  import opened ThemeScript
  import opened ThemeRuns
  import opened ThemeLoop

  /** In the order of section 5.4 of RFC 6265, the domain-wide choice `u` is served
      exactly when its cookie is the older of the two, or they agree. */
  lemma ShadowedByAge(f: Fleet, jar: Jar, keys: seq<Key>, hostOnly: nat, wide: nat, t: Theme, u: Theme)
    requires CookieName(f.config.name) && Parted(jar, keys) && AllVisible(jar, keys) && Ordered(jar, keys)
    requires hostOnly < |keys| && wide < |keys| && hostOnly != wide && keys[hostOnly].path == keys[wide].path
    requires keys[hostOnly].name == f.config.name && jar[keys[hostOnly]].value == AsAttr(t)
    requires keys[wide].name == f.config.name && jar[keys[wide]].value == AsAttr(u)
    requires jar[keys[hostOnly]].created != jar[keys[wide]].created
    requires forall i | 0 <= i < |keys| && i != hostOnly && i != wide :: Trim(keys[i].name) != f.config.name
    ensures Served(f, jar, keys) == u <==> jar[keys[wide]].created < jar[keys[hostOnly]].created || t == u
  {
    ShadowedExactly(f, jar, keys, hostOnly, wide, t, u);
  }

  // ---- over a run ---------------------------------------------------------------------------

  /** The jar has a host-only cookie `c` of the name that is older than the fleet's. */
  ghost predicate Shadowed(f: Fleet, s: State, h: Key, c: Cookie) {
    && h.name == f.config.name && h.path == "/" && h != ThemeKey(f)
    && h in s.jar && s.jar[h] == c && ';' !in c.value && c.created < s.now
    && (ThemeKey(f) in s.jar ==> Younger(s.jar[ThemeKey(f)], c))
    && (forall i | i in s.tabs :: TabInv(f, s.tabs[i]))
    && (forall k | k in s.jar && k != ThemeKey(f) && k != h :: Other(f, k, s.jar[k]))
  }

  ghost predicate Younger(a: Cookie, c: Cookie) { c.created < a.created && exists t :: a.value == AsAttr(t) }

  /** It takes no more than that cookie to begin with. */
  lemma ShadowBegins(f: Fleet, h: Key, c: Cookie, now: int)
    requires h.name == f.config.name && h.path == "/" && h != ThemeKey(f) && ';' !in c.value && c.created < now
    ensures Shadowed(f, State(map[h := c], now, map[]), h, c)
  {
  }

  lemma WriteKeepsShadow(f: Fleet, decode: string -> Option<string>, s: State, e: Event, h: Key, c: Cookie)
    requires Usable(f) && Shadowed(f, s, h, c) && (e.Click? || e.Choose?) && Enabled(f, s, e, decode)
    ensures Shadowed(f, Apply(f, s, e, decode), h, c)
  {
    var t := Chosen(s, e, decode);
    WriteReplaces(f, s, e, decode);
    WriteKeepsTab(f, s.tabs[e.tab], t);
    WroteKeepsShadow(f, s, e.tab, t, h, c);
  }

  lemma WroteKeepsShadow(f: Fleet, s: State, i: nat, t: Theme, h: Key, c: Cookie)
    requires Shadowed(f, s, h, c) && i in s.tabs
    ensures Shadowed(f, Wrote(f, s, i, t), h, c)
  {
    WriteKeepsTab(f, s.tabs[i], t);
    var k := ThemeKey(f);
    assert Younger(ThemeCookie(f, t, s.now, CreatedAt(s.jar, k, s.now)), c);
  }

  lemma LoadKeepsShadow(f: Fleet, decode: string -> Option<string>, s: State, e: Event, h: Key, c: Cookie)
    requires Usable(f) && Shadowed(f, s, h, c) && e.Load? && Enabled(f, s, e, decode)
    ensures Shadowed(f, Apply(f, s, e, decode), h, c)
  {
    LoadKeepsTab(f, Served(f, s.jar, e.keys), e.host, e.from);
  }

  lemma ForeignKeepsShadow(f: Fleet, s: State, n: SetCookie, host: string, https: bool, from: Initiator, h: Key, c: Cookie)
    requires Shadowed(f, s, h, c) && Trim(n.name) != f.config.name && Trim(f.config.name) == f.config.name
    requires '=' !in n.name && ';' !in n.name && ';' !in n.value
    ensures Shadowed(f, s.(jar := Store(s.jar, n, host, https, s.now, from)), h, c)
  {
  }

  lemma StepKeepsShadow(f: Fleet, decode: string -> Option<string>, s: State, e: Event, h: Key, c: Cookie)
    requires Usable(f) && Shadowed(f, s, h, c) && Enabled(f, s, e, decode)
    ensures Shadowed(f, Apply(f, s, e, decode), h, c)
  {
    match e
    case Load(_, _, _, _) => LoadKeepsShadow(f, decode, s, e, h, c);
    case Tick(_) =>
    case Elsewhere(line, host, https, from) =>
      TrimOfName(f.config.name);
      if ParseLine(line).Some? {
        ParsedIsClean(line);
        ForeignKeepsShadow(f, s, ParseLine(line).value, host, https, from, h, c);
      }
    case _ => WriteKeepsShadow(f, decode, s, e, h, c);
  }

  lemma {:induction false} RunKeepsShadow(f: Fleet, decode: string -> Option<string>, s: State, last: Option<Write>,
                                          es: seq<Event>, t: State, latest: Option<Write>, h: Key, c: Cookie)
    requires Usable(f) && Shadowed(f, s, h, c) && Run(f, decode, s, last, es, t, latest)
    ensures Shadowed(f, t, h, c)
    decreases |es|
  {
    if es != [] {
      StepKeepsShadow(f, decode, s, es[0], h, c);
      RunKeepsShadow(f, decode, Apply(f, s, es[0], decode), Latest(s, es[0], last, decode), es[1..], t, latest, h, c);
    }
  }

  /** The older host-only cookie shadows every later choice of the fleet: after any
      run, each page load that sends it serves its theme, whatever was chosen last. */
  lemma HostOnlyShadowsEveryChoice(f: Fleet, decode: string -> Option<string>, s: State, last: Option<Write>, es: seq<Event>,
                                   t: State, latest: Option<Write>, h: Key, c: Cookie, u: Theme, keys: seq<Key>)
    requires Usable(f) && Shadowed(f, s, h, c) && c.value == AsAttr(u) && Run(f, decode, s, last, es, t, latest)
    requires h in keys && (forall k | k in keys :: k in t.jar) && Ordered(t.jar, keys) && AllVisible(t.jar, keys)
    ensures Served(f, t.jar, keys) == u
  {
    RunKeepsShadow(f, decode, s, last, es, t, latest, h, c);
    TrimOfName(f.config.name);
    SentAreParted(f, t, h, c, keys);
    var at := FirstOf(keys, h);
    forall i | 0 <= i < at ensures Trim(keys[i].name) != f.config.name {
      assert keys[i] in keys;
      assert keys[i] != h;
      OlderIsFirst(f, t, h, c, keys, i, at);
    }
    FirstSentIsServed(f, t.jar, keys, at, u);
  }

  lemma SentAreParted(f: Fleet, t: State, h: Key, c: Cookie, keys: seq<Key>)
    requires Usable(f) && Shadowed(f, t, h, c) && forall k | k in keys :: k in t.jar
    ensures Parted(t.jar, keys)
  {
    if ThemeKey(f) in t.jar {
      var w :| t.jar[ThemeKey(f)].value == AsAttr(w);
      AttrText(w);
    }
  }

  lemma OlderIsFirst(f: Fleet, t: State, h: Key, c: Cookie, keys: seq<Key>, i: nat, at: nat)
    requires Shadowed(f, t, h, c) && (forall k | k in keys :: k in t.jar) && Ordered(t.jar, keys)
    requires i < at < |keys| && keys[at] == h
    ensures keys[i] != ThemeKey(f)
  {
    assert keys[i] in keys;
  }

  lemma {:induction false} FirstOf(keys: seq<Key>, h: Key) returns (i: nat)
    requires h in keys
    ensures i < |keys| && keys[i] == h && forall j | 0 <= j < i :: keys[j] != h
  {
    if keys[0] == h {
      i := 0;
    } else {
      i := FirstOf(keys[1..], h);
      assert forall j | 0 < j < |keys| :: keys[j] == keys[1..][j - 1];
      i := i + 1;
    }
  }
}
