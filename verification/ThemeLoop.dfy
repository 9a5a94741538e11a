/** Runs of the theme loop: any number of tabs on any hosts of the fleet, page
    loads, clicks, explicit choices, time, and cookies of other names. */
module ThemeLoop {
  import opened Text
  import opened Maps
  import opened CookieJar
  import opened Theme
  import opened ThemeScript
  import opened ThemeRuns

  // ---- cookies of other names are never read as the theme -----------------------------------

  lemma TrimIgnoresSpace(s: string)
    ensures Trim(" " + s) == Trim(s)
  {
    var a, b := TrimSplits(IsWhite, s);
    assert " " + s == (" " + a) + Trim(s) + b;
    TrimCore(IsWhite, " " + a, Trim(s), b);
  }

  /** Trimming a written pair leaves its name the same up to trimming. */
  lemma NameOfPair(n: string, v: string) returns (m: string, w: string)
    requires '=' !in n
    ensures SplitOnce(Trim(n + "=" + v), '=') == Some((m, w)) && Trim(m) == Trim(n)
  {
    var s := n + "=" + v;
    var a, b := TrimSplits(IsWhite, s);
    var core := Trim(s);
    assert s[|n|] == '=';
    assert |a| <= |n| by {
      assert forall i | 0 <= i < |a| :: s[i] == a[i];
    }
    assert |n| < |a| + |core| by {
      assert forall i | |a| + |core| <= i < |s| :: s[i] == b[i - |a| - |core|];
    }
    m := n[|a|..];
    w := core[|m| + 1..];
    assert n == a + m by { assert s[..|n|] == n && s[..|a|] == a; }
    assert core == m + "=" + w by {
      assert forall i | 0 <= i < |core| :: core[i] == s[|a| + i];
    }
    SplitOnceAt(m, '=', w);
    TrimStartDrops(IsWhite, a, m);
  }

  lemma OtherNameIsNotRead(n: string, v: string, name: string)
    requires '=' !in n && Trim(n) != name
    ensures ThemeOfPart(n + "=" + v, name) == None && ThemeOfPart(" " + (n + "=" + v), name) == None
  {
    var m, w := NameOfPair(n, v);
    TrimIgnoresSpace(n + "=" + v);
  }

  lemma OwnPairIsRead(name: string, t: Theme)
    requires CookieName(name)
    ensures ThemeOfPart(name + "=" + AsAttr(t), name) == Some(t) && ThemeOfPart(" " + (name + "=" + AsAttr(t)), name) == Some(t)
  {
    ThemePart(name, t);
    TrimIgnoresSpace(name + "=" + AsAttr(t));
  }

  lemma OneRecognised(parts: seq<string>, at: nat, name: string, t: Theme)
    requires at < |parts| && ThemeOfPart(parts[at], name) == Some(t)
    requires forall i | 0 <= i < |parts| && i != at :: ThemeOfPart(parts[i], name) == None
    ensures Recognised(parts, name) == [t]
  {
    assert parts == parts[..at] + [parts[at]] + parts[at + 1..];
    RecognisedConcat(parts[..at] + [parts[at]], parts[at + 1..], name);
    RecognisedConcat(parts[..at], [parts[at]], name);
    NoneRecognised(parts[..at], name);
    NoneRecognised(parts[at + 1..], name);
    RecognisedCons(parts[at], [], name);
    assert [parts[at]] + [] == [parts[at]];
  }

  // ---- the loop ---------------------------------------------------------------------------------

  /** A page on a host, and the request it came of. */
  datatype Tab = Tab(host: string, from: Initiator, root: Root)

  datatype State = State(jar: Jar, now: int, tabs: map<nat, Tab>)

  datatype Event =
    | Load(tab: nat, host: string, from: Initiator, keys: seq<Key>)
    | Click(tab: nat, cookies: Option<string>, line: string)
    | Choose(tab: nat, word: string, line: string)
    | Tick(seconds: nat)
    | Elsewhere(line: string, origin: string, https: bool, from: Initiator)

  /** The theme the server serves for the cookies sent. */
  function Served(f: Fleet, jar: Jar, keys: seq<Key>): Theme
    requires forall k | k in keys :: k in jar
  {
    FirstOr(Asked(TextOf(HeaderOf(jar, keys)), f.config.name), Dark)
  }

  /** The theme a tab's script writes at this event. */
  function Chosen(s: State, e: Event, decode: string -> Option<string>): Theme
    requires (e.Click? || e.Choose?) && e.tab in s.tabs
  {
    match e
    case Click(i, cookies, _) => Following(CurrentIn(s.tabs[i].root, cookies, decode))
    case Choose(_, word, _) => match OfWord(word) case Some(t) => t case None => Dark
  }

  ghost predicate Enabled(f: Fleet, s: State, e: Event, decode: string -> Option<string>) {
    match e
    case Load(_, host, from, keys) => InFleet(f, host) && Sends(s.jar, host, s.now, from, ThemeKey(f), keys)
    case Tick(_) => true
    case Elsewhere(line, _, _, _) =>
      (match ParseLine(line) case None => true case Some(c) => Trim(c.name) != f.config.name)
    case _ =>
      e.tab in s.tabs &&
      var root := s.tabs[e.tab].root;
      e.line == ThemeLine(NameIn(root), Chosen(s, e, decode), DomainIn(root), f.https)
  }

  ghost function Apply(f: Fleet, s: State, e: Event, decode: string -> Option<string>): State
    requires Enabled(f, s, e, decode)
  {
    match e
    case Load(i, host, from, keys) => s.(tabs := s.tabs[i := Tab(host, from, Stamped(Served(f, s.jar, keys), f.config))])
    case Tick(n) => s.(now := s.now + n)
    case Elsewhere(line, origin, https, from) => s.(jar := Receive(s.jar, line, origin, https, s.now, from))
    case _ =>
      var tab := s.tabs[e.tab];
      var after := tab.(root := tab.root["data-theme" := AsAttr(Chosen(s, e, decode))]);
      s.(jar := Receive(s.jar, e.line, tab.host, f.https, s.now, tab.from), tabs := s.tabs[e.tab := after])
  }

  /** The theme most recently written by any tab that no other site embeds, and when. */
  datatype Write = Write(theme: Theme, at: int)

  function Latest(s: State, e: Event, last: Option<Write>, decode: string -> Option<string>): Option<Write> {
    if (e.Click? || e.Choose?) && e.tab in s.tabs && !s.tabs[e.tab].from.OtherSiteRequest? then
      Some(Write(Chosen(s, e, decode), s.now))
    else last
  }

  /** What a page must be stamped with: that theme, for a year; else the default. */
  function Expected(last: Option<Write>, now: int): Theme {
    match last
    case None => Dark
    case Some(w) => if now < w.at + YEAR then w.theme else Dark
  }

  ghost predicate Run(f: Fleet, decode: string -> Option<string>, s: State, last: Option<Write>, es: seq<Event>, t: State, latest: Option<Write>)
    decreases |es|
  {
    if es == [] then s == t && last == latest
    else
      && Enabled(f, s, es[0], decode)
      && Run(f, decode, Apply(f, s, es[0], decode), Latest(s, es[0], last, decode), es[1..], t, latest)
  }

  // ---- the invariant ---------------------------------------------------------------------------

  ghost predicate TabInv(f: Fleet, tab: Tab) {
    && InFleet(f, tab.host)
    && NameIn(tab.root) == f.config.name && DomainIn(tab.root) == f.config.domain
    && exists t :: Get(tab.root, "data-theme") == Some(AsAttr(t))
  }

  predicate Other(f: Fleet, k: Key, c: Cookie) {
    '=' !in k.name && ';' !in k.name && ';' !in c.value && Trim(k.name) != f.config.name
  }

  predicate Holds(f: Fleet, jar: Jar, last: Option<Write>) {
    match last
    case None => ThemeKey(f) !in jar
    case Some(w) => ThemeKey(f) in jar && jar[ThemeKey(f)] == ThemeCookie(f, w.theme, w.at, jar[ThemeKey(f)].created)
  }

  ghost predicate Inv(f: Fleet, s: State, last: Option<Write>) {
    && (forall i | i in s.tabs :: TabInv(f, s.tabs[i]))
    && (forall k | k in s.jar && k != ThemeKey(f) :: Other(f, k, s.jar[k]))
    && Holds(f, s.jar, last)
  }

  lemma LoadKeepsTab(f: Fleet, t: Theme, host: string, from: Initiator)
    requires Usable(f) && InFleet(f, host)
    ensures TabInv(f, Tab(host, from, Stamped(t, f.config)))
  {
    ScriptReadsServer(t, f.config);
  }

  lemma WordsAreThemes(t: Theme)
    ensures OfWord(AsAttr(t)) == Some(t)
  {
  }

  lemma WriteKeepsTab(f: Fleet, tab: Tab, t: Theme)
    requires TabInv(f, tab)
    ensures TabInv(f, tab.(root := tab.root["data-theme" := AsAttr(t)]))
  {
    assert |"data-theme"| == 10 && |"data-cookie-domain"| == 18 && |"data-cookie-name"| == 16;
    assert Get(tab.root["data-theme" := AsAttr(t)], "data-theme") == Some(AsAttr(t));
  }

  function Shows(s: State, i: nat, t: Theme): map<nat, Tab>
    requires i in s.tabs
  {
    s.tabs[i := s.tabs[i].(root := s.tabs[i].root["data-theme" := AsAttr(t)])]
  }

  /** The state after a tab writes: an embedded one moves alone. */
  function Wrote(f: Fleet, s: State, i: nat, t: Theme): State
    requires i in s.tabs
  {
    var k := ThemeKey(f);
    State(if s.tabs[i].from.OtherSiteRequest? then s.jar else s.jar[k := ThemeCookie(f, t, s.now, CreatedAt(s.jar, k, s.now))],
          s.now, Shows(s, i, t))
  }

  lemma WroteKeeps(f: Fleet, s: State, last: Option<Write>, i: nat, t: Theme)
    requires Inv(f, s, last) && i in s.tabs
    ensures Inv(f, Wrote(f, s, i, t), if s.tabs[i].from.OtherSiteRequest? then last else Some(Write(t, s.now)))
  {
    WriteKeepsTab(f, s.tabs[i], t);
  }

  lemma WriteReplaces(f: Fleet, s: State, e: Event, decode: string -> Option<string>)
    requires Usable(f) && (e.Click? || e.Choose?) && Enabled(f, s, e, decode) && TabInv(f, s.tabs[e.tab])
    ensures Apply(f, s, e, decode) == Wrote(f, s, e.tab, Chosen(s, e, decode))
  {
    LineIsStored(s.jar, f, Chosen(s, e, decode), s.tabs[e.tab].host, s.now, s.tabs[e.tab].from);
  }

  lemma WriteKeeps(f: Fleet, s: State, last: Option<Write>, e: Event, decode: string -> Option<string>)
    requires Usable(f) && Inv(f, s, last) && (e.Click? || e.Choose?) && Enabled(f, s, e, decode)
    ensures Inv(f, Apply(f, s, e, decode), Latest(s, e, last, decode))
  {
    WriteReplaces(f, s, e, decode);
    WroteKeeps(f, s, last, e.tab, Chosen(s, e, decode));
  }

  lemma LoadKeeps(f: Fleet, s: State, last: Option<Write>, e: Event, decode: string -> Option<string>)
    requires Usable(f) && Inv(f, s, last) && e.Load? && Enabled(f, s, e, decode)
    ensures Inv(f, Apply(f, s, e, decode), last)
  {
    LoadKeepsTab(f, Served(f, s.jar, e.keys), e.host, e.from);
    TabIsAdded(f, s, last, e.tab, Tab(e.host, e.from, Stamped(Served(f, s.jar, e.keys), f.config)));
  }

  lemma TabIsAdded(f: Fleet, s: State, last: Option<Write>, i: nat, tab: Tab)
    requires Inv(f, s, last) && TabInv(f, tab)
    ensures Inv(f, s.(tabs := s.tabs[i := tab]), last)
  {
  }

  lemma ElsewhereKeeps(f: Fleet, s: State, last: Option<Write>, e: Event, decode: string -> Option<string>)
    requires Usable(f) && Inv(f, s, last) && e.Elsewhere? && Enabled(f, s, e, decode)
    ensures Inv(f, Apply(f, s, e, decode), last)
  {
    TrimOfName(f.config.name);
    if ParseLine(e.line).Some? {
      ParsedIsClean(e.line);
      ForeignKeeps(f, s.jar, ParseLine(e.line).value, e.origin, e.https, s.now, e.from, last);
    }
  }

  lemma ForeignKeeps(f: Fleet, jar: Jar, c: SetCookie, host: string, https: bool, now: int, from: Initiator, last: Option<Write>)
    requires Trim(c.name) != f.config.name && Trim(f.config.name) == f.config.name
    requires '=' !in c.name && ';' !in c.name && ';' !in c.value
    requires Holds(f, jar, last) && forall k | k in jar && k != ThemeKey(f) :: Other(f, k, jar[k])
    ensures var after := Store(jar, c, host, https, now, from);
            Holds(f, after, last) && forall k | k in after && k != ThemeKey(f) :: Other(f, k, after[k])
  {
  }

  lemma TrimOfName(name: string)
    requires CookieName(name)
    ensures Trim(name) == name
  {
    TrimCore(IsWhite, "", name, "");
    assert "" + name + "" == name;
  }

  lemma StepKeepsInv(f: Fleet, decode: string -> Option<string>, s: State, last: Option<Write>, e: Event)
    requires Usable(f) && Inv(f, s, last) && Enabled(f, s, e, decode)
    ensures Inv(f, Apply(f, s, e, decode), Latest(s, e, last, decode))
  {
    match e
    case Load(_, _, _, _) => LoadKeeps(f, s, last, e, decode);
    case Click(_, _, _) => WriteKeeps(f, s, last, e, decode);
    case Choose(_, _, _) => WriteKeeps(f, s, last, e, decode);
    case Tick(_) =>
    case Elsewhere(_, _, _, _) => ElsewhereKeeps(f, s, last, e, decode);
  }

  lemma {:induction false} RunKeepsInv(f: Fleet, decode: string -> Option<string>, s: State, last: Option<Write>,
                                       es: seq<Event>, t: State, latest: Option<Write>)
    requires Usable(f) && Inv(f, s, last) && Run(f, decode, s, last, es, t, latest)
    ensures Inv(f, t, latest)
    decreases |es|
  {
    if es != [] {
      StepKeepsInv(f, decode, s, last, es[0]);
      RunKeepsInv(f, decode, Apply(f, s, es[0], decode), Latest(s, es[0], last, decode), es[1..], t, latest);
    }
  }

  // ---- the promise ---------------------------------------------------------------------------------

  lemma PairsRead(f: Fleet, s: State, last: Option<Write>, keys: seq<Key>)
    requires Usable(f) && Inv(f, s, last) && forall k | k in keys :: k in s.jar
    ensures var pairs := Pairs(s.jar, keys);
            forall i | 0 <= i < |pairs| ::
              && ';' !in pairs[i]
              && var want := if keys[i] == ThemeKey(f) then Some(last.value.theme) else None;
                 ThemeOfPart(pairs[i], f.config.name) == want && ThemeOfPart(" " + pairs[i], f.config.name) == want
  {
    forall i | 0 <= i < |keys|
      ensures last.Some? || keys[i] != ThemeKey(f)
      ensures var p, want := Pairs(s.jar, keys)[i], if keys[i] == ThemeKey(f) then Some(last.value.theme) else None;
              ';' !in p && ThemeOfPart(p, f.config.name) == want && ThemeOfPart(" " + p, f.config.name) == want
    {
      var k := keys[i];
      assert k in keys;
      if k == ThemeKey(f) {
        OwnPairIsRead(f.config.name, last.value.theme);
        AttrText(last.value.theme);
      } else {
        OtherNameIsNotRead(k.name, s.jar[k].value, f.config.name);
      }
    }
  }

  /** Every page load, on any host of the fleet, whatever else is in the jar and
      in whatever order it is sent, stamps the theme most recently written by any
      tab that no other site embeds; a year after the last write, the default. Two things lose the choice: a
      page that another site embeds, to which the cookie does not travel, and one
      cookie that is not visible text, which takes the whole header with it. */
  lemma LoadStampsTheLatest(f: Fleet, decode: string -> Option<string>, start: int, es: seq<Event>, t: State,
                            latest: Option<Write>, host: string, from: Initiator, keys: seq<Key>)
    requires Usable(f) && Run(f, decode, State(map[], start, map[]), None, es, t, latest)
    requires InFleet(f, host) && Sends(t.jar, host, t.now, from, ThemeKey(f), keys)
    ensures Served(f, t.jar, keys) ==
            if !from.OtherSiteRequest? && AllVisible(t.jar, keys) then Expected(latest, t.now) else Dark
  {
    RunKeepsInv(f, decode, State(map[], start, map[]), None, es, t, latest);
    ServesTheLatest(f, t, latest, host, from, keys);
  }

  lemma HiddenHeaderIsDark(f: Fleet, jar: Jar, keys: seq<Key>)
    requires (forall k | k in keys :: k in jar) && !AllVisible(jar, keys)
    ensures Served(f, jar, keys) == Dark
  {
    HeaderIsText(jar, keys);
  }

  lemma OneIsAsked(pairs: seq<string>, at: nat, name: string, t: Theme)
    requires at < |pairs| && forall i | 0 <= i < |pairs| :: ';' !in pairs[i]
    requires ThemeOfPart(pairs[at], name) == Some(t) && ThemeOfPart(" " + pairs[at], name) == Some(t)
    requires forall i | 0 <= i < |pairs| && i != at ::
               ThemeOfPart(pairs[i], name) == None && ThemeOfPart(" " + pairs[i], name) == None
    ensures Asked(Some(Joined(pairs)), name) == [t]
  {
    SplitJoined(pairs);
    var parts := [pairs[0]] + Spaced(pairs[1..]);
    forall i | 0 <= i < |parts| ensures parts[i] == pairs[i] || parts[i] == " " + pairs[i] { PartAt(pairs, i); }
    OneRecognised(parts, at, name, t);
  }

  lemma PartAt(pairs: seq<string>, i: nat)
    requires i < |pairs|
    ensures ([pairs[0]] + Spaced(pairs[1..]))[i] == if i == 0 then pairs[0] else " " + pairs[i]
  {
  }

  lemma NoneIsAsked(pairs: seq<string>, name: string)
    requires pairs != [] && forall i | 0 <= i < |pairs| :: ';' !in pairs[i]
    requires forall i | 0 <= i < |pairs| :: ThemeOfPart(pairs[i], name) == None && ThemeOfPart(" " + pairs[i], name) == None
    ensures Asked(Some(Joined(pairs)), name) == []
  {
    SplitJoined(pairs);
    var parts := [pairs[0]] + Spaced(pairs[1..]);
    forall i | 0 <= i < |parts| ensures parts[i] == pairs[i] || parts[i] == " " + pairs[i] { PartAt(pairs, i); }
    NoneRecognised(parts, name);
  }

  lemma ServesTheLatest(f: Fleet, t: State, latest: Option<Write>, host: string, from: Initiator, keys: seq<Key>)
    requires Usable(f) && Inv(f, t, latest) && InFleet(f, host) && Sends(t.jar, host, t.now, from, ThemeKey(f), keys)
    ensures Served(f, t.jar, keys) ==
            if !from.OtherSiteRequest? && AllVisible(t.jar, keys) then Expected(latest, t.now) else Dark
  {
    if !AllVisible(t.jar, keys) {
      HiddenHeaderIsDark(f, t.jar, keys);
    } else if ThemeKey(f) in keys {
      OwnIsServed(f, t, latest.value, keys);
    } else {
      NothingIsServed(f, t, latest, keys);
    }
  }

  lemma ServedFromPairs(f: Fleet, jar: Jar, keys: seq<Key>)
    requires keys != [] && (forall k | k in keys :: k in jar) && AllVisible(jar, keys)
    ensures Served(f, jar, keys) == FirstOr(Asked(Some(Joined(Pairs(jar, keys))), f.config.name), Dark)
  {
    HeaderIsText(jar, keys);
  }

  lemma OwnIsServed(f: Fleet, t: State, w: Write, keys: seq<Key>)
    requires Usable(f) && Inv(f, t, Some(w)) && (forall k | k in keys :: k in t.jar) && AllVisible(t.jar, keys)
    requires (forall i, j | 0 <= i < j < |keys| :: keys[i] != keys[j]) && ThemeKey(f) in keys
    ensures Served(f, t.jar, keys) == w.theme
  {
    ServedFromPairs(f, t.jar, keys);
    PairsRead(f, t, Some(w), keys);
    var at :| 0 <= at < |keys| && keys[at] == ThemeKey(f);
    OneIsAsked(Pairs(t.jar, keys), at, f.config.name, w.theme);
  }

  lemma NothingIsServed(f: Fleet, t: State, latest: Option<Write>, keys: seq<Key>)
    requires Usable(f) && Inv(f, t, latest) && (forall k | k in keys :: k in t.jar) && AllVisible(t.jar, keys)
    requires ThemeKey(f) !in keys
    ensures Served(f, t.jar, keys) == Dark
  {
    if keys != [] {
      ServedFromPairs(f, t.jar, keys);
      PairsRead(f, t, latest, keys);
      assert forall i | 0 <= i < |keys| :: keys[i] in keys;
      NoneIsAsked(Pairs(t.jar, keys), f.config.name);
    }
  }

  /** Whatever else has happened, one cookie of another name can hide the choice. */
  lemma OneCookieHidesTheTheme(f: Fleet, decode: string -> Option<string>, s: State, host: string)
    returns (e: Event, keys: seq<Key>)
    requires InFleet(f, host)
    ensures e.Elsewhere? && Enabled(f, s, e, decode)
    ensures Sends(Apply(f, s, e, decode).jar, host, s.now, OwnSite, ThemeKey(f), keys)
    ensures Served(f, Apply(f, s, e, decode).jar, keys) == Dark
  {
    var n := if f.config.name == "x" then "y" else "x";
    HidingIsStored(s.jar, n, host, s.now);
    TrimCore(IsWhite, "", n, "");
    assert "" + n + "" == n;
    e := Elsewhere(Hiding(n), host, true, OwnSite);
    keys := HidingIsSent(Apply(f, s, e, decode).jar, n, host, s.now, ThemeKey(f));
    HiddenHeaderIsDark(f, Apply(f, s, e, decode).jar, keys);
  }

  /** What a tab writes: a known word's theme, else dark; and for a click the theme
      after the one it shows, or, where it shows none, the cookie's, or dark. */
  lemma ChosenExactly(s: State, tab: nat, word: string, line: string, cookies: Option<string>, decode: string -> Option<string>, t: Theme)
    requires tab in s.tabs
    ensures Chosen(s, Choose(tab, word, line), decode) ==
            if word == "light" then Light else if word == "system" then System else Dark
    ensures Get(s.tabs[tab].root, "data-theme") == Some(AsAttr(t)) ==>
              Chosen(s, Click(tab, cookies, line), decode) == if t == Dark then Light else if t == Light then System else Dark
  {
    WordsAreThemes(t);
    assert "light" != "system" && "dark" != "light" by { assert |"light"| == 5 && |"system"| == 6 && |"dark"| == 4; }
  }

  /** A year after the latest choice, if time passes and nothing else happens, every
      page is dark; a second before that it is not yet. */
  lemma ChoiceExpires(f: Fleet, decode: string -> Option<string>, s: State, w: Write, seconds: nat, host: string, keys: seq<Key>)
    requires Usable(f) && Inv(f, s, Some(w)) && s.now == w.at && InFleet(f, host)
    requires var t := Apply(f, s, Tick(seconds), decode);
             Sends(t.jar, host, t.now, OwnSite, ThemeKey(f), keys) && AllVisible(t.jar, keys)
    ensures Served(f, Apply(f, s, Tick(seconds), decode).jar, keys) == if seconds < 365 * 86400 then w.theme else Dark
  {
    var t := Apply(f, s, Tick(seconds), decode);
    ServesTheLatest(f, t, Some(w), host, OwnSite, keys);
  }

  // ---- two cookies of the name --------------------------------------------------------------------

  /** The cookies sent can be told apart by their names. */
  predicate Parted(jar: Jar, keys: seq<Key>) {
    forall k | k in keys :: k in jar && '=' !in k.name && ';' !in k.name && ';' !in jar[k].value
  }

  /** The first cookie of the name that is sent decides. */
  lemma FirstSentIsServed(f: Fleet, jar: Jar, keys: seq<Key>, at: nat, t: Theme)
    requires CookieName(f.config.name) && Parted(jar, keys) && AllVisible(jar, keys)
    requires at < |keys| && keys[at].name == f.config.name && jar[keys[at]].value == AsAttr(t)
    requires forall i | 0 <= i < at :: Trim(keys[i].name) != f.config.name
    ensures Served(f, jar, keys) == t
  {
    var pairs, name := Pairs(jar, keys), f.config.name;
    var parts := [pairs[0]] + Spaced(pairs[1..]);
    forall i | 0 <= i < |pairs| ensures ';' !in pairs[i] { assert keys[i] in keys; }
    ServedFromPairs(f, jar, keys);
    SplitJoined(pairs);
    forall i | 0 <= i <= at ensures ThemeOfPart(parts[i], name) == if i == at then Some(t) else None {
      assert keys[i] in keys;
      PartAt(pairs, i);
      if i == at { OwnPairIsRead(name, t); } else { OtherNameIsNotRead(keys[i].name, jar[keys[i]].value, name); }
    }
    FirstIsFirst(parts, name, at);
  }

  /** When a host-only and a domain-wide cookie of the name are both sent, the
      domain-wide choice `u` is served exactly when its cookie is sent first, or
      the two agree. */
  lemma ShadowedExactly(f: Fleet, jar: Jar, keys: seq<Key>, hostOnly: nat, wide: nat, t: Theme, u: Theme)
    requires CookieName(f.config.name) && Parted(jar, keys) && AllVisible(jar, keys)
    requires hostOnly < |keys| && wide < |keys| && hostOnly != wide
    requires keys[hostOnly].name == f.config.name && jar[keys[hostOnly]].value == AsAttr(t)
    requires keys[wide].name == f.config.name && jar[keys[wide]].value == AsAttr(u)
    requires forall i | 0 <= i < |keys| && i != hostOnly && i != wide :: Trim(keys[i].name) != f.config.name
    ensures Served(f, jar, keys) == u <==> wide < hostOnly || t == u
  {
    if hostOnly < wide {
      FirstSentIsServed(f, jar, keys, hostOnly, t);
    } else {
      FirstSentIsServed(f, jar, keys, wide, u);
    }
  }

  /** A click moves its own tab to the theme after the one it shows, and all others
      unless another site embeds it. */
  lemma ClickMovesOn(f: Fleet, s: State, last: Option<Write>, e: Event, decode: string -> Option<string>, t: Theme)
    requires Usable(f) && Inv(f, s, last) && e.Click? && Enabled(f, s, e, decode)
    requires Get(s.tabs[e.tab].root, "data-theme") == Some(AsAttr(t))
    ensures Latest(s, e, last, decode) ==
            if s.tabs[e.tab].from.OtherSiteRequest? then last else Some(Write(Following(t), s.now))
    ensures Get(Apply(f, s, e, decode).tabs[e.tab].root, "data-theme") == Some(AsAttr(Following(t)))
  {
    WordsAreThemes(t);
  }
}
