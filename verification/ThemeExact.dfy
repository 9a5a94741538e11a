/** The theme loop works exactly for the usable configurations. */
module ThemeExact {
  import opened Text
  import opened CookieJar
  import opened Theme
  import opened ThemeScript
  import opened ThemeRuns
  import opened ThemeLoop

  /** On every page load of every run that another site does not embed, the page
      is stamped as it should be, as long as every other cookie sent is visible. */
  ghost predicate Works(f: Fleet, decode: string -> Option<string>, start: int) {
    forall es, t, latest, host, from, keys ::
      && Run(f, decode, State(map[], start, map[]), None, es, t, latest)
      && InFleet(f, host) && Sends(t.jar, host, t.now, from, ThemeKey(f), keys)
      && !from.OtherSiteRequest? && OthersVisible(f, t.jar, keys) ==>
        Served(f, t.jar, keys) == Expected(latest, t.now)
  }

  predicate OthersVisible(f: Fleet, jar: Jar, keys: seq<Key>)
    requires forall k | k in keys :: k in jar
  {
    forall k | k in keys && k != ThemeKey(f) :: Visible(PairText(jar, k))
  }

  // ---- one page load and one choice, for any configuration ----------------------------------------

  function Home(f: Fleet): string { match f.config.domain case None => f.home case Some(d) => d }

  function FirstTab(f: Fleet): Tab { Tab(Home(f), OwnSite, Stamped(Dark, f.config)) }

  /** What the first tab writes when its user chooses light. */
  function LightLine(f: Fleet): string {
    ThemeLine(NameIn(FirstTab(f).root), Light, DomainIn(FirstTab(f).root), f.https)
  }

  function JarAfter(f: Fleet, start: int): Jar { Receive(map[], LightLine(f), Home(f), f.https, start, OwnSite) }

  lemma LightIsChosen(f: Fleet, decode: string -> Option<string>, start: int) returns (es: seq<Event>, t: State)
    ensures Run(f, decode, State(map[], start, map[]), None, es, t, Some(Write(Light, start)))
    ensures t.jar == JarAfter(f, start) && t.now == start
  {
    var s := State(map[], start, map[]);
    var load, choose := Load(0, Home(f), OwnSite, []), Choose(0, AsAttr(Light), LightLine(f));
    assert Served(f, s.jar, []) == Dark;
    var u := Apply(f, s, load, decode);
    assert u.tabs[0] == FirstTab(f);
    WordsAreThemes(Light);
    assert Chosen(u, choose, decode) == Light;
    t := Apply(f, u, choose, decode);
    es := [load] + [choose];
    assert es[1..] == [choose] && [choose][1..] == [];
    assert Run(f, decode, u, None, [choose], t, Some(Write(Light, start)));
  }

  // ---- what goes wrong without each condition ------------------------------------------------------

  lemma PrefixIsRefused(f: Fleet, start: int)
    requires WellNamed(f) && !Usable(f)
    ensures JarAfter(f, start) == map[]
  {
    ScriptReadsServer(Dark, f.config);
    LineCarries(f, Light);
    CarriedIsStored(map[], LightLine(f), f.config.name, AsAttr(Light), ThemeScope(f.config.domain, f.https), Home(f), f.https, start, OwnSite);
  }

  /** The next page does not show the choice. */
  lemma ChoiceIsLost(f: Fleet, start: int) returns (keys: seq<Key>)
    requires Resolved(f.config) && !Usable(f)
    ensures Sends(JarAfter(f, start), Home(f), start, OwnSite, ThemeKey(f), keys)
    ensures OthersVisible(f, JarAfter(f, start), keys) && Served(f, JarAfter(f, start), keys) == Dark
  {
    var jar, k := JarAfter(f, start), ThemeKey(f);
    keys := if Sendable(jar, k, Home(f), start, OwnSite) then [k] else [];
    if WellNamed(f) {
      PrefixIsRefused(f, start);
    } else if keys != [] {
      StoredNameIsParsed(LightLine(f), Home(f), f.https, start, OwnSite, k);
      if !Readable(f.config.name) {
        UnreadableIsDark(TextOf(HeaderOf(jar, keys)), f.config.name);
      } else {
        VisibleSum(f.config.name + "=", jar[k].value);
        VisibleSum(f.config.name, "=");
        assert k in keys && !Visible(PairText(jar, k));
        HiddenHeaderIsDark(f, jar, keys);
      }
    }
  }

  /** The loop keeps its promise in every run exactly for the usable configurations. */
  lemma LoopWorksExactly(f: Fleet, decode: string -> Option<string>, start: int)
    requires Resolved(f.config)
    ensures Works(f, decode, start) <==> Usable(f)
  {
    if Usable(f) {
      forall es, t, latest, host, from, keys |
        && Run(f, decode, State(map[], start, map[]), None, es, t, latest)
        && InFleet(f, host) && Sends(t.jar, host, t.now, from, ThemeKey(f), keys)
        && !from.OtherSiteRequest? && OthersVisible(f, t.jar, keys)
        ensures Served(f, t.jar, keys) == Expected(latest, t.now)
      {
        RunKeepsInv(f, decode, State(map[], start, map[]), None, es, t, latest);
        OwnIsVisible(f, t, latest, keys);
        LoadStampsTheLatest(f, decode, start, es, t, latest, host, from, keys);
      }
    } else {
      var es, t := LightIsChosen(f, decode, start);
      var keys := ChoiceIsLost(f, start);
      var latest := Some(Write(Light, start));
      assert InFleet(f, Home(f)) && Expected(latest, t.now) == Light;
      assert Run(f, decode, State(map[], start, map[]), None, es, t, latest);
      assert Sends(t.jar, Home(f), t.now, OwnSite, ThemeKey(f), keys);
      assert Served(f, t.jar, keys) != Expected(latest, t.now);
    }
  }

  lemma OwnIsVisible(f: Fleet, t: State, latest: Option<Write>, keys: seq<Key>)
    requires Usable(f) && Inv(f, t, latest) && (forall k | k in keys :: k in t.jar) && OthersVisible(f, t.jar, keys)
    ensures AllVisible(t.jar, keys)
  {
    if latest.Some? {
      AttrText(latest.value.theme);
      VisibleSum(f.config.name, "=");
      VisibleSum(f.config.name + "=", AsAttr(latest.value.theme));
    }
  }
}
