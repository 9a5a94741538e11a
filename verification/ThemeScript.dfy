/** The script half of the theme contract: a page's root element, its toggle
    buttons, and `document.cookie`. */
module ThemeScript {
  import opened Text
  import Html
  import HtmlInput
  import CookieDomain
  import opened CookieJar
  import opened Theme

  const ORDER := [Dark, Light, System]

  function Label(t: Theme): string { match t case Dark => "dark" case Light => "light" case System => "auto" }

  /** The theme a word of ORDER stands for. */
  function OfWord(word: string): Option<Theme> {
    if word == AsAttr(Dark) then Some(Dark)
    else if word == AsAttr(Light) then Some(Light)
    else if word == AsAttr(System) then Some(System)
    else None
  }

  /** A button says what the server would read as the theme, and calls it by its
      own word unless that is `system`. */
  lemma LabelsExactly(t: Theme)
    ensures Parse(Label(t)) == Some(t) && (Label(t) == AsAttr(t) <==> t != System)
  {
    AttrText(t);
    CookieDomain.TrimOfBare("auto");
    assert |"auto"| == 4 && |"system"| == 6;
  }

  /** `ORDER.indexOf`. */
  function InOrder(word: string): (r: Option<Theme>)
    ensures r == OfWord(word)
  {
    match word
    case "dark" => Some(Dark)
    case "light" => Some(Light)
    case "system" => Some(System)
    case _ => None
  }

  function Following(t: Theme): Theme { match t case Dark => Light case Light => System case System => Dark }

  // ---- what the script reads off the root element ------------------------------------------

  type Root = map<string, string>

  const DEFAULT_NAME := "heyo_theme"

  function NameIn(root: Root): string {
    if "data-cookie-name" in root && root["data-cookie-name"] != "" then root["data-cookie-name"] else DEFAULT_NAME
  }

  function DomainIn(root: Root): Option<string> {
    if "data-cookie-domain" in root && Trim(root["data-cookie-domain"]) != "" then Some(Trim(root["data-cookie-domain"]))
    else None
  }

  /** The domain is read without the blanks around it, and a blank one not at all. */
  lemma DomainInExactly(root: Root, a: string, d: string, b: string)
    requires All(IsWhite, a) && All(IsWhite, b) && Bare(IsWhite, d)
    requires "data-cookie-domain" in root && root["data-cookie-domain"] == a + d + b
    ensures DomainIn(root) == if d == "" then None else Some(d)
  {
    TrimCore(IsWhite, a, d, b);
  }

  /** The first part of `document.cookie` that begins with the name, without it. */
  function ReadIn(parts: seq<string>, name: string): Option<string> {
    if parts == [] then None
    else if name + "=" <= Trim(parts[0]) then Some(Trim(parts[0])[|name| + 1..])
    else ReadIn(parts[1..], name)
  }

  /** `decode` is decodeURIComponent, where it does not throw. */
  function CurrentIn(root: Root, cookies: Option<string>, decode: string -> Option<string>): Theme {
    match OfWord(if "data-theme" in root then root["data-theme"] else "")
    case Some(t) => t
    case None =>
      match ReadIn(match cookies case None => [] case Some(c) => Split(c, ';'), NameIn(root))
      case None => Dark
      case Some(raw) =>
        match decode(raw)
        case None => Dark
        case Some(word) => match OfWord(word) case Some(t) => t case None => Dark
  }

  // ---- the line the script writes -------------------------------------------------------------

  const YEAR := 31536000

  function MoreParts(domain: Option<string>, https: bool): seq<string> {
    ["path" + "=" + "/", "max-age" + "=" + "31536000", "SameSite" + "=" + "Lax"]
    + ((match domain case None => [] case Some(d) => ["domain" + "=" + d]) + (if https then ["Secure"] else []))
  }

  function LineParts(name: string, t: Theme, domain: Option<string>, https: bool): seq<string> {
    [name + "=" + AsAttr(t)] + MoreParts(domain, https)
  }

  function ThemeLine(name: string, t: Theme, domain: Option<string>, https: bool): string {
    Joined(LineParts(name, t, domain, https))
  }

  // ---- the page ---------------------------------------------------------------------------------

  /** The browser the pages share. */
  class Browser {
    var jar: Jar
    var now: int

    constructor (now: int)
      ensures jar == map[] && this.now == now
    {
      this.jar := map[];
      this.now := now;
    }
  }

  datatype Button = Button(text: string, aria: string, title: string)

  function ButtonFor(t: Theme): Button {
    Button(Label(t), "Theme: " + Label(t) + ". Click to change.", "Theme: " + Label(t))
  }

  /** A page, and the request it came of. */
  class Page {
    const browser: Browser
    const host: string
    const https: bool
    const from: Initiator
    var root: Root
    var buttons: seq<Button>

    constructor (browser: Browser, host: string, https: bool, from: Initiator, root: Root, buttons: seq<Button>)
      ensures this.browser == browser && this.host == host && this.https == https && this.from == from
      ensures this.root == root && this.buttons == buttons
    {
      this.browser := browser;
      this.host := host;
      this.https := https;
      this.from := from;
      this.root := root;
      this.buttons := buttons;
    }

    /** `readCookie`, over the text of `document.cookie`. */
    method ReadCookie(cookies: Option<string>, name: string) returns (r: Option<string>)
      ensures r == ReadIn(match cookies case None => [] case Some(c) => Split(c, ';'), name)
    {
      var parts := if cookies.Some? then Split(cookies.value, ';') else [];
      assert parts[0..] == parts;
      for i := 0 to |parts|
        invariant ReadIn(parts[i..], name) == ReadIn(parts, name)
      {
        assert parts[i..][0] == parts[i] && parts[i..][1..] == parts[i + 1..];
        var p := Trim(parts[i]);
        if name + "=" <= p { return Some(p[|name| + 1..]); }
      }
      return None;
    }

    /** `writeCookie`: the pieces are pushed one after the other, then joined. */
    method WriteCookie(t: Theme)
      modifies browser
      ensures browser.now == old(browser.now)
      ensures browser.jar == Receive(old(browser.jar), ThemeLine(NameIn(root), t, DomainIn(root), https), host, https, browser.now, from)
    {
      var name := NameIn(root);
      var parts := [name + "=" + AsAttr(t)] + ["path" + "=" + "/", "max-age" + "=" + "31536000", "SameSite" + "=" + "Lax"];
      var domain := DomainIn(root);
      if domain.Some? { parts := parts + ["domain" + "=" + domain.value]; }
      if https { parts := parts + ["Secure"]; }
      assert parts == LineParts(name, t, domain, https);
      browser.jar := Receive(browser.jar, Joined(parts), host, https, browser.now, from);
    }

    method Current(cookies: Option<string>, decode: string -> Option<string>) returns (t: Theme)
      ensures t == CurrentIn(root, cookies, decode)
    {
      var attr := InOrder(if "data-theme" in root then root["data-theme"] else "");
      if attr.Some? { return attr.value; }
      var raw := ReadCookie(cookies, NameIn(root));
      if raw.None? { return Dark; }
      var word := decode(raw.value);
      if word.None? { return Dark; }
      var fromCookie := InOrder(word.value);
      t := if fromCookie.Some? then fromCookie.value else Dark;
    }

    /** `apply`: the root attribute, then every toggle button in turn. */
    method Apply(t: Theme)
      modifies this
      ensures root == old(root)["data-theme" := AsAttr(t)]
      ensures |buttons| == |old(buttons)| && forall b | b in buttons :: b == ButtonFor(t)
    {
      root := root["data-theme" := AsAttr(t)];
      var labelled: seq<Button> := [];
      for i := 0 to |buttons|
        invariant |labelled| == i && buttons == old(buttons) && root == old(root)["data-theme" := AsAttr(t)]
        invariant forall b | b in labelled :: b == ButtonFor(t)
      {
        var word := Label(t);
        labelled := labelled + [Button(word, "Theme: " + word + ". Click to change.", "Theme: " + word)];
      }
      buttons := labelled;
    }

    method Next(cookies: Option<string>, decode: string -> Option<string>) returns (t: Theme)
      ensures t == Following(CurrentIn(root, cookies, decode))
    {
      var now := Current(cookies, decode);
      var i := IndexIn(now);
      t := ORDER[(i + 1) % 3];
    }

    /** `set`, where a word outside ORDER means dark. */
    method Set(word: string)
      modifies this, browser
      ensures var t := match OfWord(word) case Some(t) => t case None => Dark;
              && browser.now == old(browser.now)
              && browser.jar == Receive(old(browser.jar), ThemeLine(NameIn(old(root)), t, DomainIn(old(root)), https), host, https, browser.now, from)
              && root == old(root)["data-theme" := AsAttr(t)]
              && |buttons| == |old(buttons)| && forall b | b in buttons :: b == ButtonFor(t)
    {
      var known := InOrder(word);
      var t := if known.Some? then known.value else Dark;
      WriteCookie(t);
      Apply(t);
    }
  }

  function IndexIn(t: Theme): (i: nat)
    ensures i < 3 && ORDER[i] == t
  {
    match t case Dark => 0 case Light => 1 case System => 2
  }

  // ---- the server's attributes, as the script sees them ----------------------------------------------

  function RootOf(attributes: seq<Html.Attribute>): Root {
    if attributes == [] then map[]
    else RootOf(attributes[1..])[attributes[0].name := attributes[0].value]
  }

  /** The attributes a browser reads. */
  function AttributesRead(attributes: seq<Html.Written>): seq<Html.Attribute> {
    Html.Attributes(HtmlInput.NormalAttributes(attributes))
  }

  /** The root element of a page stamped by the server. */
  function Stamped(t: Theme, config: Config): Root {
    RootOf(AttributesRead(RootAttributes(t, AndThenNormalize(config.domain), config.name)))
  }
}
