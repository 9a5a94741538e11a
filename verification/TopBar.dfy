/** The shared top bar: written by pushing strings, and meant as markup. */
module TopBar {
  import opened Text
  import opened Html
  import opened HtmlInput

  /** A navigation entry: `(label, href, is_current)`. */
  type Entry = (string, string, bool)

  // ---- the markup that is meant -----------------------------------------------------

  const HEADER := [Open("header", [Written("class", Some("topbar"))])]
  const BRAND := [Open("a", [Written("class", Some("topbar-brand")), Written("href", Some("/"))])]
  const HEYO := [Open("span", []), Content("heyo"), Close("span")]
  const APP := [Open("span", [Written("class", Some("topbar-app"))])]
  const NAV := [Open("nav", [Written("class", Some("topbar-nav"))])]
  const RIGHT := [Open("div", [Written("class", Some("topbar-right"))])]
  const BUTTON := [
    Open("button", [Written("class", Some("theme-toggle")), Written("type", Some("button")), Written("data-theme-toggle", None)])]
  const LABEL := [Open("span", [Written("data-theme-label", None)])]

  function BrandMarkup(app: string): seq<Node> {
    BRAND + HEYO + APP + [Content(app)] + [Close("span")] + [Close("a")]
  }

  function LinkAttributes(e: Entry): seq<Written> {
    if e.2 then [Written("href", Some(e.1)), Written("aria-current", Some("page"))] else [Written("href", Some(e.1))]
  }

  function EntryMarkup(e: Entry): seq<Node> {
    [Open("a", LinkAttributes(e))] + [Content(e.0)] + [Close("a")]
  }

  function NavMarkup(nav: seq<Entry>): seq<Node> {
    if nav == [] then [] else NavMarkup(nav[..|nav| - 1]) + EntryMarkup(nav[|nav| - 1])
  }

  function WhoMarkup(who: Option<string>): seq<Node> {
    match who
    case None => []
    case Some(name) =>
      [Open("span", [Written("class", Some("topbar-user")), Written("title", Some(name))])] + [Content(name)] + [Close("span")]
  }

  function ToggleMarkup(): seq<Node> {
    BUTTON + LABEL + [Content("theme")] + [Close("span")] + [Close("button")]
  }

  /** The bar: one header; the brand with the app's name; one link per entry, in
      order; who is signed in, if anyone; the theme toggle. */
  function Markup(app: string, nav: seq<Entry>, who: Option<string>): seq<Node> {
    HEADER + BrandMarkup(app) + NAV + NavMarkup(nav) + [Close("nav")]
    + RIGHT + WhoMarkup(who) + ToggleMarkup() + ([Close("div")] + [Close("header")])
  }

  // ---- how single tags are spelled ------------------------------------------------------

  lemma SpellOne(name: string, a: string, v: string)
    requires All(Plain, v)
    ensures Write([Open(name, [Written(a, Some(v))])]) == "<" + name + " " + a + "=\"" + v + "\"" + ">"
  {
    EscapePlain(v);
    SpellOneEscaped(name, a, v);
  }

  lemma FlatOne(name: string, a: string, v: string)
    ensures ("<" + name + (" " + (a + ("=\"" + v + "\"")) + "") + ">") + ""
         == "<" + name + " " + a + "=\"" + v + "\"" + ">"
  {
  }

  lemma SpellOneEscaped(name: string, a: string, v: string)
    ensures Write([Open(name, [Written(a, Some(v))])]) == "<" + name + " " + a + "=\"" + Escape(v) + "\"" + ">"
  {
    var w := Written(a, Some(v));
    assert [w][1..] == [];
    assert WriteAttributes([w]) == " " + (a + ("=\"" + Escape(v) + "\"")) + "";
    SpellSingle(Open(name, [w]));
    FlatOne(name, a, Escape(v));
  }

  lemma FlatTwo(name: string, a: string, v: string, b: string, w: string)
    ensures ("<" + name + (" " + (a + ("=\"" + v + "\"")) + (" " + (b + ("=\"" + w + "\"")) + "")) + ">") + ""
         == "<" + name + " " + a + "=\"" + v + "\"" + " " + b + "=\"" + w + "\"" + ">"
  {
  }

  lemma SpellTwo(name: string, a: string, v: string, b: string, w: string)
    ensures Write([Open(name, [Written(a, Some(v)), Written(b, Some(w))])])
         == "<" + name + " " + a + "=\"" + Escape(v) + "\"" + " " + b + "=\"" + Escape(w) + "\"" + ">"
  {
    var x, y := Written(a, Some(v)), Written(b, Some(w));
    assert [x, y][1..] == [y] && [y][1..] == [];
    assert WriteAttributes([y]) == " " + (b + ("=\"" + Escape(w) + "\"")) + "";
    assert WriteAttributes([x, y]) == " " + (a + ("=\"" + Escape(v) + "\"")) + WriteAttributes([y]);
    SpellSingle(Open(name, [x, y]));
    FlatTwo(name, a, Escape(v), b, Escape(w));
  }

  lemma SpellSingle(n: Node)
    ensures Write([n]) == WriteNode(n) + ""
  {
    WriteCons(n, []);
    assert [n] + [] == [n];
  }

  lemma SpellClose(name: string)
    ensures Write([Close(name)]) == "</" + name + ">"
  {
    SpellSingle(Close(name));
    assert WriteNode(Close(name)) + "" == WriteNode(Close(name));
  }

  lemma SpellText(text: string)
    ensures Write([Content(text)]) == Escape(text)
  {
    SpellSingle(Content(text));
    assert Escape(text) + "" == Escape(text);
  }

  lemma SpellPlainTwo(name: string, a: string, v: string, b: string, w: string)
    requires All(Plain, v)
    ensures Write([Open(name, [Written(a, Some(v)), Written(b, Some(w))])])
         == "<" + name + " " + a + "=\"" + v + "\"" + " " + b + "=\"" + Escape(w) + "\"" + ">"
  {
    EscapePlain(v);
    SpellTwo(name, a, v, b, w);
  }

  lemma SpellBothPlain(name: string, a: string, v: string, b: string, w: string)
    requires All(Plain, v) && All(Plain, w)
    ensures Write([Open(name, [Written(a, Some(v)), Written(b, Some(w))])])
         == "<" + name + " " + a + "=\"" + v + "\"" + " " + b + "=\"" + w + "\"" + ">"
  {
    EscapePlain(w);
    SpellPlainTwo(name, a, v, b, w);
  }

  lemma FlatThree(name: string, a: string, v: string, b: string, w: string, c: string)
    ensures ("<" + name + (" " + (a + ("=\"" + v + "\"")) + (" " + (b + ("=\"" + w + "\"")) + (" " + (c + "") + ""))) + ">") + ""
         == "<" + name + " " + a + "=\"" + v + "\"" + " " + b + "=\"" + w + "\"" + " " + c + ">"
  {
  }

  lemma SpellPlainThree(name: string, a: string, v: string, b: string, w: string, c: string)
    requires All(Plain, v) && All(Plain, w)
    ensures Write([Open(name, [Written(a, Some(v)), Written(b, Some(w)), Written(c, None)])])
         == "<" + name + " " + a + "=\"" + v + "\"" + " " + b + "=\"" + w + "\"" + " " + c + ">"
  {
    var x, y, z := Written(a, Some(v)), Written(b, Some(w)), Written(c, None);
    EscapePlain(v);
    EscapePlain(w);
    assert [x, y, z][1..] == [y, z] && [y, z][1..] == [z] && [z][1..] == [];
    assert WriteAttributes([z]) == " " + (c + "") + "";
    assert WriteAttributes([y, z]) == " " + (b + ("=\"" + w + "\"")) + WriteAttributes([z]);
    assert WriteAttributes([x, y, z]) == " " + (a + ("=\"" + v + "\"")) + WriteAttributes([y, z]);
    SpellSingle(Open(name, [x, y, z]));
    FlatThree(name, a, v, b, w, c);
  }

  lemma SpellBare(name: string)
    ensures Write([Open(name, [])]) == "<" + name + ">"
  {
    SpellSingle(Open(name, []));
    assert ("<" + name + "" + ">") + "" == "<" + name + ">";
  }

  lemma SpellBareAttribute(name: string, a: string)
    ensures Write([Open(name, [Written(a, None)])]) == "<" + name + " " + a + ">"
  {
    var x := Written(a, None);
    assert [x][1..] == [];
    assert WriteAttributes([x]) == " " + (a + "") + "";
    SpellSingle(Open(name, [x]));
    assert ("<" + name + (" " + (a + "") + "") + ">") + "" == "<" + name + " " + a + ">";
  }

  lemma SpellPlainText(text: string)
    requires All(Plain, text)
    ensures Write([Content(text)]) == text
  {
    EscapePlain(text);
    SpellText(text);
  }

  lemma SpellThree(a: seq<Node>, b: seq<Node>, c: seq<Node>)
    ensures Write(a + b + c) == Write(a) + Write(b) + Write(c)
  {
    WriteConcat(a, b);
    WriteConcat(a + b, c);
  }

  // ---- how the literals are spelled --------------------------------------------------------

  lemma LiteralHeader()
    ensures "<header class=\"topbar\">" == "<" + "header" + " " + "class" + "=\"" + "topbar" + "\"" + ">"
  {
  }

  lemma SpellHeader()
    ensures Write(HEADER) == "<header class=\"topbar\">"
  {
    SpellOne("header", "class", "topbar");
    LiteralHeader();
  }

  lemma LiteralNav()
    ensures "<nav class=\"topbar-nav\">" == "<" + "nav" + " " + "class" + "=\"" + "topbar-nav" + "\"" + ">"
    ensures "</nav>" == "</" + "nav" + ">"
  {
  }

  lemma SpellNav()
    ensures Write(NAV) == "<nav class=\"topbar-nav\">" && Write([Close("nav")]) == "</nav>"
  {
    SpellOne("nav", "class", "topbar-nav");
    SpellClose("nav");
    LiteralNav();
  }

  lemma LiteralRight()
    ensures "<div class=\"topbar-right\">" == "<" + "div" + " " + "class" + "=\"" + "topbar-right" + "\"" + ">"
  {
  }

  lemma SpellRight()
    ensures Write(RIGHT) == "<div class=\"topbar-right\">"
  {
    SpellOne("div", "class", "topbar-right");
    LiteralRight();
  }

  lemma LiteralEnd()
    ensures "</div></header>" == ("</" + "div" + ">") + ("</" + "header" + ">")
  {
  }

  lemma SpellEnd()
    ensures Write([Close("div")] + [Close("header")]) == "</div></header>"
  {
    WriteConcat([Close("div")], [Close("header")]);
    SpellClose("div");
    SpellClose("header");
    LiteralEnd();
  }

  const BRAND_TEXT := "<a class=\"topbar-brand\" href=\"/\">"
  const HEYO_TEXT := "<span>heyo</span>"
  const APP_TEXT := "<span class=\"topbar-app\">"

  lemma LiteralBrand()
    ensures BRAND_TEXT == "<" + "a" + " " + "class" + "=\"" + "topbar-brand" + "\"" + " " + "href" + "=\"" + "/" + "\"" + ">"
  {
  }

  lemma LiteralApp()
    ensures APP_TEXT == "<" + "span" + " " + "class" + "=\"" + "topbar-app" + "\"" + ">"
    ensures "</span></a>" == ("</" + "span" + ">") + ("</" + "a" + ">")
  {
  }

  lemma LiteralHeyo()
    ensures HEYO_TEXT == ("<" + "span" + ">") + "heyo" + ("</" + "span" + ">")
  {
  }

  lemma LiteralBrandLine()
    ensures "<a class=\"topbar-brand\" href=\"/\"><span>heyo</span><span class=\"topbar-app\">"
         == "<a class=\"topbar-brand\" href=\"/\">" + "<span>heyo</span>" + "<span class=\"topbar-app\">"
  {
  }

  lemma SpellHeyo()
    ensures Write(HEYO) == HEYO_TEXT
  {
    assert HEYO == [Open("span", [])] + [Content("heyo")] + [Close("span")];
    SpellThree([Open("span", [])], [Content("heyo")], [Close("span")]);
    SpellBare("span");
    SpellPlainText("heyo");
    SpellClose("span");
    LiteralHeyo();
  }

  lemma SpellBrandLink()
    ensures Write(BRAND) == BRAND_TEXT
  {
    SpellBothPlain("a", "class", "topbar-brand", "href", "/");
    LiteralBrand();
  }

  lemma SpellApp()
    ensures Write(APP) == APP_TEXT
  {
    SpellOne("span", "class", "topbar-app");
    LiteralApp();
  }

  lemma SpellBrandStart()
    ensures Write(BRAND + HEYO + APP) == "<a class=\"topbar-brand\" href=\"/\"><span>heyo</span><span class=\"topbar-app\">"
  {
    SpellBrandLink();
    SpellHeyo();
    SpellApp();
    SpellThree(BRAND, HEYO, APP);
    LiteralBrandLine();
  }

  function BrandText(app: string): string {
    "<a class=\"topbar-brand\" href=\"/\"><span>heyo</span><span class=\"topbar-app\">" + Escape(app) + "</span></a>"
  }

  lemma SpellBrand(app: string)
    ensures Write(BrandMarkup(app)) == BrandText(app)
  {
    var start := BRAND + HEYO + APP;
    SpellBrandStart();
    SpellText(app);
    SpellClose("span");
    SpellClose("a");
    LiteralApp();
    SpellThree(start, [Content(app)], [Close("span")]);
    WriteConcat(start + [Content(app)] + [Close("span")], [Close("a")]);
    Assoc(Write(start) + Escape(app), Write([Close("span")]), Write([Close("a")]));
  }

  const CURRENT := " aria-current=\"page\""

  lemma LiteralLink(href: string)
    ensures "<a href=\"" + href + "\"" + "" + ">" == "<" + "a" + " " + "href" + "=\"" + href + "\"" + ">"
    ensures "<a href=\"" + href + "\"" + CURRENT + ">"
         == "<" + "a" + " " + "href" + "=\"" + href + "\"" + " " + "aria-current" + "=\"" + "page" + "\"" + ">"
  {
    assert "<a href=\"" == "<" + "a" + " " + "href" + "=\"";
    assert CURRENT == " " + "aria-current" + "=\"" + "page" + "\"";
  }

  function EntryText(e: Entry): string {
    "<a href=\"" + Escape(e.1) + "\"" + (if e.2 then CURRENT else "") + ">" + Escape(e.0) + "</a>"
  }

  lemma SpellEntry(e: Entry)
    ensures Write(EntryMarkup(e)) == EntryText(e)
  {
    var open := Open("a", LinkAttributes(e));
    if e.2 {
      SpellTwo("a", "href", e.1, "aria-current", "page");
      EscapePlain("page");
    } else {
      SpellOneEscaped("a", "href", e.1);
    }
    LiteralLink(Escape(e.1));
    SpellText(e.0);
    SpellLinkEnd();
    SpellThree([open], [Content(e.0)], [Close("a")]);
  }

  lemma SpellLinkEnd()
    ensures Write([Close("a")]) == "</a>"
  {
    SpellClose("a");
    assert "</a>" == "</" + "a" + ">";
  }

  lemma LiteralWho(name: string)
    ensures "<span class=\"topbar-user\" title=\"" + name + "\">"
         == "<" + "span" + " " + "class" + "=\"" + "topbar-user" + "\"" + " " + "title" + "=\"" + name + "\"" + ">"
    ensures "</span>" == "</" + "span" + ">"
  {
    assert "<span class=\"topbar-user\" title=\""
        == "<" + "span" + " " + "class" + "=\"" + "topbar-user" + "\"" + " " + "title" + "=\"";
    assert "\">" == "\"" + ">";
  }

  function WhoText(who: Option<string>): string {
    match who
    case None => ""
    case Some(name) => "<span class=\"topbar-user\" title=\"" + Escape(name) + "\">" + Escape(name) + "</span>"
  }

  lemma SpellWho(who: Option<string>)
    ensures Write(WhoMarkup(who)) == WhoText(who)
  {
    if who.Some? {
      var name := who.value;
      SpellPlainTwo("span", "class", "topbar-user", "title", name);
      LiteralWho(Escape(name));
      SpellText(name);
      SpellClose("span");
      SpellThree([Open("span", [Written("class", Some("topbar-user")), Written("title", Some(name))])], [Content(name)], [Close("span")]);
    }
  }

  // ---- the toggle ----------------------------------------------------------------------------

  const TOGGLE :=
    "<button class=\"theme-toggle\" type=\"button\" data-theme-toggle>" + "<span data-theme-label>theme</span></button>"

  const BUTTON_TEXT := "<button class=\"theme-toggle\" type=\"button\" data-theme-toggle>"
  const LABEL_TEXT := "<span data-theme-label>"

  lemma LiteralButtonHalves()
    ensures "<button class=\"theme-toggle\" type=\"button\" data-theme-toggle>"
         == "<button class=\"theme-toggle\"" + " type=\"button\" data-theme-toggle>"
  {
  }

  lemma LiteralButtonClass()
    ensures "<button class=\"theme-toggle\"" == "<" + "button" + " " + "class" + "=\"" + "theme-toggle" + "\""
  {
  }

  lemma LiteralButtonType()
    ensures " type=\"button\" data-theme-toggle>" == " " + "type" + "=\"" + "button" + "\"" + " " + "data-theme-toggle" + ">"
  {
  }

  lemma JoinTags(a: string, b: string, c: string, d: string, e: string, f: string, g: string, h: string, i: string)
    ensures a + (b + c + d + e + f + g + h + i) == a + b + c + d + e + f + g + h + i
  {
  }

  lemma LiteralButton()
    ensures "<button class=\"theme-toggle\" type=\"button\" data-theme-toggle>"
         == "<" + "button" + " " + "class" + "=\"" + "theme-toggle" + "\"" + " " + "type" + "=\"" + "button"
            + "\"" + " " + "data-theme-toggle" + ">"
  {
    LiteralButtonHalves();
    LiteralButtonClass();
    LiteralButtonType();
    JoinTags("<" + "button" + " " + "class" + "=\"" + "theme-toggle" + "\"",
             " ", "type", "=\"", "button", "\"", " ", "data-theme-toggle", ">");
  }

  lemma SpellButton()
    ensures Write(BUTTON) == BUTTON_TEXT
  {
    SpellPlainThree("button", "class", "theme-toggle", "type", "button", "data-theme-toggle");
    LiteralButton();
  }

  lemma LiteralLabel()
    ensures LABEL_TEXT == "<" + "span" + " " + "data-theme-label" + ">"
    ensures "</span>" == "</" + "span" + ">" && "</button>" == "</" + "button" + ">"
  {
  }

  lemma LiteralToggleLabel()
    ensures "<span data-theme-label>theme</span></button>" == "<span data-theme-label>" + "theme" + "</span>" + "</button>"
  {
  }

  lemma LiteralToggle()
    ensures TOGGLE == BUTTON_TEXT + LABEL_TEXT + "theme" + "</span>" + "</button>"
  {
    LiteralToggleLabel();
    var a, b, c, d, e := BUTTON_TEXT, LABEL_TEXT, "theme", "</span>", "</button>";
    Assoc(a, b, c);
    Assoc(a, b + c, d);
    Assoc(a, b + c + d, e);
  }

  lemma SpellToggle()
    ensures Write(ToggleMarkup()) == TOGGLE
  {
    SpellToggleParts(ToggleMarkup());
    LiteralToggle();
  }

  lemma SpellLabel()
    ensures Write(LABEL) == LABEL_TEXT
    ensures Write([Close("span")]) == "</span>" && Write([Close("button")]) == "</button>"
    ensures Write([Content("theme")]) == "theme"
  {
    SpellPlainText("theme");
    SpellBareAttribute("span", "data-theme-label");
    SpellClose("span");
    SpellClose("button");
    LiteralLabel();
  }

  lemma SpellParts(toggle: seq<Node>, a: string, b: string, c: string, d: string, e: string)
    requires Write(BUTTON) == a && Write(LABEL) == b && Write([Content("theme")]) == c
    requires Write([Close("span")]) == d && Write([Close("button")]) == e && toggle == ToggleMarkup()
    ensures Write(toggle) == a + b + c + d + e
  {
    SpellFive(BUTTON, LABEL, [Content("theme")], [Close("span")], [Close("button")]);
  }

  lemma SpellToggleParts(toggle: seq<Node>)
    requires toggle == ToggleMarkup()
    ensures Write(toggle) == BUTTON_TEXT + LABEL_TEXT + "theme" + "</span>" + "</button>"
  {
    SpellButton();
    SpellLabel();
    SpellParts(toggle, BUTTON_TEXT, LABEL_TEXT, "theme", "</span>", "</button>");
  }

  lemma SpellFive(a: seq<Node>, b: seq<Node>, c: seq<Node>, d: seq<Node>, e: seq<Node>)
    ensures Write(a + b + c + d + e) == Write(a) + Write(b) + Write(c) + Write(d) + Write(e)
  {
    SpellThree(a, b, c);
    SpellThree(a + b + c, d, e);
  }

  // ---- the bar --------------------------------------------------------------------------------

  function BarText(app: string, links: string, who: Option<string>): string {
    "<header class=\"topbar\">" + BrandText(app) + "<nav class=\"topbar-nav\">" + links + "</nav>"
    + "<div class=\"topbar-right\">" + WhoText(who) + TOGGLE + "</div></header>"
  }

  lemma BarIsMarkup(app: string, nav: seq<Entry>, who: Option<string>)
    ensures BarText(app, Write(NavMarkup(nav)), who) == Write(Markup(app, nav, who))
  {
    SpellHeader();
    SpellBrand(app);
    SpellNav();
    SpellRight();
    SpellWho(who);
    SpellToggle();
    SpellEnd();
    var end := [Close("div")] + [Close("header")];
    JoinNine(HEADER, BrandMarkup(app), NAV, NavMarkup(nav), [Close("nav")], RIGHT, WhoMarkup(who), ToggleMarkup(), end);
  }

  lemma JoinNine(a: seq<Node>, b: seq<Node>, c: seq<Node>, d: seq<Node>, e: seq<Node>,
                 f: seq<Node>, g: seq<Node>, h: seq<Node>, i: seq<Node>)
    ensures Write(a + b + c + d + e + f + g + h + i)
         == Write(a) + Write(b) + Write(c) + Write(d) + Write(e) + Write(f) + Write(g) + Write(h) + Write(i)
  {
    SpellThree(a, b, c);
    SpellThree(a + b + c, d, e);
    SpellThree(a + b + c + d + e, f, g);
    SpellThree(a + b + c + d + e + f + g, h, i);
  }

  /** `topbar_html` writes the bar's markup and nothing else. */
  method TopBarHtml(app: string, nav: seq<Entry>, who: Option<string>) returns (s: string)
    ensures s == Write(Markup(app, nav, who))
  {
    s := "<header class=\"topbar\">";
    var escaped := EscapeString(app);
    s := s + ("<a class=\"topbar-brand\" href=\"/\"><span>heyo</span><span class=\"topbar-app\">" + escaped + "</span></a>");
    s := s + "<nav class=\"topbar-nav\">";
    ghost var start := s;
    assert start + "" == start;
    for i := 0 to |nav|
      invariant s == start + Write(NavMarkup(nav[..i]))
    {
      var text := EscapeString(nav[i].0);
      var href := EscapeString(nav[i].1);
      var link := "<a href=\"" + href + "\"" + (if nav[i].2 then CURRENT else "") + ">" + text + "</a>";
      assert link == EntryText(nav[i]);
      SpellNextEntry(start, nav, i);
      s := s + link;
    }
    assert nav[..|nav|] == nav;
    s := s + "</nav>";
    s := s + "<div class=\"topbar-right\">";
    if who.Some? {
      var name := EscapeString(who.value);
      s := s + ("<span class=\"topbar-user\" title=\"" + name + "\">" + name + "</span>");
    } else {
      assert s + "" == s;
    }
    s := s + TOGGLE;
    s := s + "</div></header>";
    BarIsMarkup(app, nav, who);
  }

  lemma SpellNextEntry(start: string, nav: seq<Entry>, i: nat)
    requires i < |nav|
    ensures start + Write(NavMarkup(nav[..i])) + EntryText(nav[i]) == start + Write(NavMarkup(nav[..i + 1]))
  {
    assert nav[..i + 1][..i] == nav[..i];
    SpellEntry(nav[i]);
    WriteConcat(NavMarkup(nav[..i]), EntryMarkup(nav[i]));
    Assoc(start, Write(NavMarkup(nav[..i])), EntryText(nav[i]));
  }

  // ---- tokenizing the bar ------------------------------------------------------------------------

  predicate AllNamed(nodes: seq<Node>) { forall n | n in nodes :: WellNamed(n) }

  lemma {:induction false} NavNamed(nav: seq<Entry>)
    ensures AllNamed(NavMarkup(nav))
  {
    if nav != [] { NavNamed(nav[..|nav| - 1]); }
  }

  lemma BrandNamed(app: string)
    ensures AllNamed(BrandMarkup(app))
  {
    LinkNamed();
    assert AllNamed(HEYO) && AllNamed(APP);
    NamedConcat(BRAND, HEYO, APP);
    NamedConcat(BRAND + HEYO + APP, [Content(app)], [Close("span")]);
    NamedConcat(BRAND + HEYO + APP + [Content(app)] + [Close("span")], [Close("a")], []);
  }

  lemma LinkNamed()
    ensures AllNamed(BRAND)
  {
  }

  lemma HeadNamed()
    ensures AllNamed(HEADER) && AllNamed(NAV) && AllNamed([Close("nav")])
  {
  }

  lemma TailNamed(who: Option<string>)
    ensures AllNamed(RIGHT) && AllNamed(WhoMarkup(who)) && AllNamed([Close("div")] + [Close("header")])
  {
    WhoNamed(who);
  }

  lemma WhoNamed(who: Option<string>)
    ensures AllNamed(WhoMarkup(who))
  {
  }

  lemma NameIsText(s: string)
    requires s != "" && IsLetter(s[0]) && forall i | 0 <= i < |s| :: 'a' <= s[i] <= 'z' || s[i] == '-'
    ensures NameText(s)
  {
  }

  lemma ButtonNamed()
    ensures AllNamed(BUTTON)
  {
    NameIsText("data-theme-toggle");
    assert |"class"| == 5 && |"type"| == 4 && |"data-theme-toggle"| == 17;
  }

  lemma LabelNamed()
    ensures AllNamed(LABEL) && AllNamed([Content("theme")]) && AllNamed([Close("span")]) && AllNamed([Close("button")])
  {
  }

  lemma ToggleNamed()
    ensures AllNamed(ToggleMarkup())
  {
    ButtonNamed();
    LabelNamed();
    NamedConcat(BUTTON, LABEL, [Content("theme")]);
    NamedConcat(BUTTON + LABEL + [Content("theme")], [Close("span")], [Close("button")]);
  }

  lemma NamedConcat(a: seq<Node>, b: seq<Node>, c: seq<Node>)
    requires AllNamed(a) && AllNamed(b) && AllNamed(c)
    ensures AllNamed(a + b + c)
  {
  }

  lemma BarIsWellNamed(app: string, nav: seq<Entry>, who: Option<string>)
    ensures AllNamed(Markup(app, nav, who))
  {
    var end := [Close("div")] + [Close("header")];
    HeadNamed();
    BrandNamed(app);
    NavNamed(nav);
    TailNamed(who);
    ToggleNamed();
    NamedConcat(HEADER, BrandMarkup(app), NAV);
    NamedConcat(HEADER + BrandMarkup(app) + NAV, NavMarkup(nav), [Close("nav")]);
    NamedConcat(HEADER + BrandMarkup(app) + NAV + NavMarkup(nav) + [Close("nav")], RIGHT, WhoMarkup(who));
    NamedConcat(HEADER + BrandMarkup(app) + NAV + NavMarkup(nav) + [Close("nav")] + RIGHT + WhoMarkup(who), ToggleMarkup(), end);
  }

  /** An entry is read as a link with its address, marked as the current page exactly
      when it is, around its label. */
  lemma EntryIsRead(e: Entry)
    ensures Intended(EntryMarkup(e)) ==
            [StartTag("a", [Attribute("href", e.1)] + if e.2 then [Attribute("aria-current", "page")] else [])]
            + Characters(e.0) + [EndTag("a")]
  {
    var open := Open("a", LinkAttributes(e));
    assert EntryMarkup(e) == [open, Content(e.0), Close("a")];
    assert AsGiven(LinkAttributes(e)) == [Attribute("href", e.1)] + if e.2 then [Attribute("aria-current", "page")] else [];
    IntendedThree(open, Content(e.0), Close("a"));
  }

  lemma IntendedThree(a: Node, b: Node, c: Node)
    ensures Intended([a, b, c]) == NodeIntended(a) + NodeIntended(b) + NodeIntended(c)
  {
    assert [a, b, c][1..] == [b, c] && [b, c][1..] == [c] && [c][1..] == [];
    assert Intended([c]) == NodeIntended(c) + [] == NodeIntended(c);
    Assoc(NodeIntended(a), NodeIntended(b), NodeIntended(c));
  }

  // ---- no two texts touch ------------------------------------------------------------------------

  predicate Hedged(nodes: seq<Node>) {
    Fenced(nodes) && (nodes != [] ==> !nodes[0].Content? && !nodes[|nodes| - 1].Content?)
  }

  lemma HedgedSum(a: seq<Node>, b: seq<Node>)
    requires Hedged(a) && Hedged(b)
    ensures Hedged(a + b)
  {
    var s := a + b;
    forall i | 0 < i < |s| ensures !(s[i - 1].Content? && s[i].Content?) {
      if i < |a| {
        assert s[i - 1] == a[i - 1] && s[i] == a[i];
      } else if i > |a| {
        assert s[i - 1] == b[i - 1 - |a|] && s[i] == b[i - |a|];
      } else {
        assert s[i - 1] == a[i - 1] && s[i] == b[0];
      }
    }
    if s != [] {
      assert s[0] == if a != [] then a[0] else b[0];
      assert s[|s| - 1] == if b != [] then b[|b| - 1] else a[|a| - 1];
    }
  }

  lemma {:induction false} HedgedNav(nav: seq<Entry>)
    ensures Hedged(NavMarkup(nav))
  {
    if nav != [] {
      HedgedNav(nav[..|nav| - 1]);
      HedgedSum(NavMarkup(nav[..|nav| - 1]), EntryMarkup(nav[|nav| - 1]));
    }
  }

  lemma HedgedBrand(app: string)
    ensures Hedged(BrandMarkup(app))
  {
    assert Hedged(HEYO) && Hedged(BRAND);
    HedgedSum(BRAND, HEYO);
    HedgedSum(BRAND + HEYO, APP + [Content(app)] + [Close("span")]);
    HedgedSum(BRAND + HEYO + (APP + [Content(app)] + [Close("span")]), [Close("a")]);
    assert BrandMarkup(app) == BRAND + HEYO + (APP + [Content(app)] + [Close("span")]) + [Close("a")];
  }

  lemma BarIsFenced(app: string, nav: seq<Entry>, who: Option<string>)
    ensures Fenced(Markup(app, nav, who))
  {
    var a := HEADER + BrandMarkup(app) + NAV;
    var b := a + NavMarkup(nav) + [Close("nav")];
    var end := [Close("div")] + [Close("header")];
    assert Hedged(HEADER) && Hedged(NAV) && Hedged(RIGHT) && Hedged([Close("nav")]) && Hedged(end);
    assert Hedged(WhoMarkup(who)) && Hedged(ToggleMarkup());
    HedgedBrand(app);
    HedgedNav(nav);
    HedgedSum(HEADER, BrandMarkup(app));
    HedgedSum(HEADER + BrandMarkup(app), NAV);
    HedgedSum(a, NavMarkup(nav));
    HedgedSum(a + NavMarkup(nav), [Close("nav")]);
    HedgedSum(b, RIGHT);
    HedgedSum(b + RIGHT, WhoMarkup(who));
    HedgedSum(b + RIGHT + WhoMarkup(who), ToggleMarkup());
    HedgedSum(b + RIGHT + WhoMarkup(who) + ToggleMarkup(), end);
  }

  /** A browser reads the bar as exactly the tags that are meant, with the app's
      name, the entries and the signed-in name as text and attribute values,
      newlines normalised: none of them can add, remove or change a tag. */
  lemma TopBarTokens(app: string, nav: seq<Entry>, who: Option<string>)
    ensures Tokens(Write(Markup(app, nav, who))) == Meant(NormalNodes(Markup(app, nav, who)))
  {
    BarIsWellNamed(app, nav, who);
    BarIsFenced(app, nav, who);
    PageIsRead(Markup(app, nav, who));
  }

  // ---- when everything is given back ------------------------------------------------------------

  lemma KeptSum(a: seq<Node>, b: seq<Node>)
    ensures AllKept(a + b) <==> AllKept(a) && AllKept(b)
  {
    assert forall n | n in a :: n in a + b;
    assert forall n | n in b :: n in a + b;
  }

  lemma KeptOne(n: Node)
    ensures AllKept([n]) <==> Kept(n)
  {
    assert n in [n];
  }

  lemma KeptHead()
    ensures AllKept(HEADER) && AllKept(NAV) && AllKept(RIGHT) && AllKept(APP)
  {
  }

  lemma KeptBrand(app: string)
    ensures AllKept(BrandMarkup(app)) <==> '\r' !in app
  {
    KeptHead();
    assert AllKept(BRAND) && AllKept(HEYO);
    KeptSum(BRAND, HEYO);
    KeptSum(BRAND + HEYO, APP);
    KeptSum(BRAND + HEYO + APP, [Content(app)]);
    KeptOne(Content(app));
    KeptSum(BRAND + HEYO + APP + [Content(app)], [Close("span")]);
    KeptSum(BRAND + HEYO + APP + [Content(app)] + [Close("span")], [Close("a")]);
  }

  lemma KeptEntry(e: Entry)
    ensures AllKept(EntryMarkup(e)) <==> '\r' !in e.0 && Keepable(e.1)
  {
    var open := Open("a", LinkAttributes(e));
    var href := Written("href", Some(e.1));
    assert href in LinkAttributes(e);
    assert Keepable("page");
    KeptOne(open);
    KeptOne(Content(e.0));
    KeptSum([open], [Content(e.0)]);
    KeptSum([open] + [Content(e.0)], [Close("a")]);
  }

  lemma {:induction false} KeptNav(nav: seq<Entry>)
    ensures AllKept(NavMarkup(nav)) <==> forall e | e in nav :: '\r' !in e.0 && Keepable(e.1)
  {
    if nav != [] {
      var front, last := nav[..|nav| - 1], nav[|nav| - 1];
      KeptNav(front);
      KeptEntry(last);
      KeptSum(NavMarkup(front), EntryMarkup(last));
      assert nav == front + [last];
    }
  }

  lemma KeptWho(who: Option<string>)
    ensures AllKept(WhoMarkup(who)) <==> who.Some? ==> Keepable(who.value)
  {
    if who.Some? {
      var title := Written("title", Some(who.value));
      var open := Open("span", [Written("class", Some("topbar-user")), title]);
      assert title in open.attributes;
      assert Keepable("topbar-user");
      KeptOne(open);
      KeptOne(Content(who.value));
      KeptSum([open], [Content(who.value)]);
      KeptSum([open] + [Content(who.value)], [Close("span")]);
    }
  }

  lemma KeptToggle()
    ensures AllKept(ToggleMarkup())
  {
    assert AllKept(BUTTON) && AllKept(LABEL);
  }

  lemma KeptMarkup(app: string, nav: seq<Entry>, who: Option<string>)
    ensures AllKept(Markup(app, nav, who)) <==>
            AllKept(BrandMarkup(app)) && AllKept(NavMarkup(nav)) && AllKept(WhoMarkup(who))
  {
    var end := [Close("div")] + [Close("header")];
    KeptHead();
    KeptToggle();
    assert AllKept([Close("nav")]) && AllKept(end);
    var a := HEADER + BrandMarkup(app) + NAV;
    var b := a + NavMarkup(nav) + [Close("nav")];
    KeptSum(HEADER, BrandMarkup(app));
    KeptSum(HEADER + BrandMarkup(app), NAV);
    KeptSum(a, NavMarkup(nav));
    KeptSum(a + NavMarkup(nav), [Close("nav")]);
    KeptSum(b, RIGHT);
    KeptSum(b + RIGHT, WhoMarkup(who));
    KeptSum(b + RIGHT + WhoMarkup(who), ToggleMarkup());
    KeptSum(b + RIGHT + WhoMarkup(who) + ToggleMarkup(), end);
  }

  /** Every text and every attribute value comes back exactly as given, if and
      only if there is no carriage return anywhere, and no null character in a
      link or the signed-in name, which are attribute values. */
  lemma BarIsGivenBackExactly(app: string, nav: seq<Entry>, who: Option<string>)
    ensures Tokens(Write(Markup(app, nav, who))) == Intended(Markup(app, nav, who))
       <==> '\r' !in app && (forall e | e in nav :: '\r' !in e.0 && Keepable(e.1)) && (who.Some? ==> Keepable(who.value))
  {
    BarIsWellNamed(app, nav, who);
    BarIsFenced(app, nav, who);
    GivenBackExactly(Markup(app, nav, who));
    KeptMarkup(app, nav, who);
    KeptBrand(app);
    KeptNav(nav);
    KeptWho(who);
  }
}
