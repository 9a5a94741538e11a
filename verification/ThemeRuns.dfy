/** The theme loop: pages served with the theme their cookie asks for, and tabs
    that write the cookie, through one jar. */
module ThemeRuns {
  import opened Text
  import opened Maps
  import JsonText
  import Html
  import HtmlInput
  import CookieDomain
  import opened CookieJar
  import opened Theme
  import opened ThemeScript

  // ---- the script reads what the server wrote -----------------------------------------------

  /** A browser reads the stamped `<html>` tag as one tag with the root attributes. */
  lemma StampedTagIsRead(t: Theme, domain: Option<string>, name: string, attrs: string)
    requires " " + attrs == Html.WriteAttributes(RootAttributes(t, domain, name))
    ensures HtmlInput.Tokens("<html " + attrs + ">") == [Html.StartTag("html", AttributesRead(RootAttributes(t, domain, name)))]
  {
    var written := RootAttributes(t, domain, name);
    RootIsWellNamed(t, domain, name);
    HtmlInput.NewlinesTag("html", written);
    var normal := HtmlInput.NormalAttributes(written);
    LiteralHtml(attrs, "<html" + Html.WriteAttributes(written) + ">");
    HtmlInput.NewlinesNode(Html.Open("html", written));
    Html.ReadOpen("html", normal, "");
    FlatTag(Html.WriteAttributes(normal));
    assert Html.Data("") == [];
  }

  lemma LiteralHtml(attrs: string, tag: string)
    requires tag == "<html" + (" " + attrs) + ">"
    ensures tag == "<html " + attrs + ">" == "<" + "html" + (" " + attrs) + ">"
  {
    assert "<html" == "<" + "html" && "<html " == "<html" + " ";
  }

  lemma FlatTag(attributes: string)
    ensures "<" + ("html" + (attributes + (">" + ""))) == "<" + "html" + attributes + ">"
  {
  }

  lemma RootIsWellNamed(t: Theme, domain: Option<string>, name: string)
    ensures Html.WellNamed(Html.Open("html", RootAttributes(t, domain, name)))
  {
    LiteralRootNames();
  }

  lemma LiteralRootNames()
    ensures Html.NameText("data-theme") && Html.NameText("data-cookie-domain") && Html.NameText("data-cookie-name")
    ensures "data-theme" != "data-cookie-domain" && "data-theme" != "data-cookie-name"
    ensures "data-cookie-domain" != "data-cookie-name"
  {
    assert |"data-theme"| == 10 && |"data-cookie-domain"| == 18 && |"data-cookie-name"| == 16;
  }

  lemma RootOfTwo(a: Html.Attribute, b: Html.Attribute)
    ensures RootOf([a]) == map[a.name := a.value]
    ensures a.name != b.name ==> RootOf([a, b]) == map[a.name := a.value, b.name := b.value]
  {
    assert [a][1..] == [] && [a, b][1..] == [b] && [b][1..] == [];
  }

  lemma RootOfThree(a: Html.Attribute, b: Html.Attribute, c: Html.Attribute)
    requires a.name != b.name && a.name != c.name && b.name != c.name
    ensures RootOf([a, b, c]) == map[a.name := a.value, b.name := b.value, c.name := c.value]
  {
    assert [a, b, c][1..] == [b, c];
    RootOfTwo(b, c);
  }

  lemma StampedMeans(t: Theme, domain: Option<string>, name: string)
    ensures var root := RootOf(AttributesRead(RootAttributes(t, domain, name)));
            && Get(root, "data-theme") == Some(HtmlInput.AsRead(AsAttr(t)))
            && Get(root, "data-cookie-domain") == (match domain case None => None case Some(d) => Some(HtmlInput.AsRead(d)))
            && Get(root, "data-cookie-name") == (if name == THEME_COOKIE then None else Some(HtmlInput.AsRead(name)))
  {
    var a := Html.Attribute("data-theme", HtmlInput.AsRead(AsAttr(t)));
    var c := Html.Attribute("data-cookie-name", HtmlInput.AsRead(name));
    LiteralRootNames();
    RootOfTwo(a, c);
    if domain.Some? {
      var b := Html.Attribute("data-cookie-domain", HtmlInput.AsRead(domain.value));
      RootOfTwo(a, b);
      RootOfThree(a, b, c);
    }
    AttributesOfRoot(t, domain, name);
  }

  lemma AttributesOfRoot(t: Theme, domain: Option<string>, name: string)
    ensures AttributesRead(RootAttributes(t, domain, name))
         == [Html.Attribute("data-theme", HtmlInput.AsRead(AsAttr(t)))]
            + (match domain case None => [] case Some(d) => [Html.Attribute("data-cookie-domain", HtmlInput.AsRead(d))])
            + (if name == THEME_COOKIE then [] else [Html.Attribute("data-cookie-name", HtmlInput.AsRead(name))])
  {
  }

  /** A resolved configuration has no domain, or a normalised one. */
  predicate Resolved(config: Config) { AndThenNormalize(config.domain) == config.domain }

  lemma ResolveResolves(domain: Option<string>, name: Option<string>)
    ensures Resolved(Resolve(domain, name))
  {
    if domain.Some? && CookieDomain.Normalize(domain.value).Some? { CookieDomain.NormalizeIsIdempotent(domain.value); }
  }

  lemma DomainCharacters(d: string)
    requires CookieDomain.Normalize(d) == Some(d)
    ensures d != "" && CookieDomain.LabelChar(d[0]) && CookieDomain.LabelChar(d[|d| - 1]) && Lower(d) == d
    ensures forall i | 0 <= i < |d| :: CookieDomain.LabelChar(d[i]) || d[i] == '.'
  {
    CookieDomain.NormalizeIsIdempotent(d);
    CookieDomain.NormalizesExactlyDomains(d);
    var ls :| |ls| >= 2 && CookieDomain.Labels(ls) && d == Join(ls, '.');
    CookieDomain.DomainText(ls);
  }

  lemma LabelTextIsPlain(d: string)
    requires d != "" && CookieDomain.LabelChar(d[0]) && CookieDomain.LabelChar(d[|d| - 1])
    requires forall i | 0 <= i < |d| :: CookieDomain.LabelChar(d[i]) || d[i] == '.'
    ensures All(Html.Plain, d) && HtmlInput.Keepable(d) && ';' !in d && '=' !in d && Bare(IsWsp, d) && Bare(IsWhite, d) && d[0] != '.'
  {
  }

  /** A normalised domain needs no escaping and survives every reading of it. */
  lemma DomainIsPlainText(d: string)
    requires CookieDomain.Normalize(d) == Some(d)
    ensures HtmlInput.AsRead(d) == d && Html.Escape(d) == d && Trim(d) == d && d != "" && Lower(d) == d && ';' !in d
    ensures Bare(IsWsp, d) && d[0] != '.' && '=' !in d
  {
    DomainCharacters(d);
    LabelTextIsPlain(d);
    HtmlInput.AsReadExactly(d);
    Html.EscapePlain(d);
    CookieDomain.TrimOfBare(d);
  }

  /** The script reads back exactly the theme and domain the server stamped, and
      its cookie name exactly when that is not empty and has neither a null
      character nor a carriage return. */
  lemma ScriptReadsServer(t: Theme, config: Config)
    requires Resolved(config)
    ensures var root := Stamped(t, config);
            && Get(root, "data-theme") == Some(AsAttr(t))
            && DomainIn(root) == config.domain
            && (NameIn(root) == config.name <==> config.name != "" && HtmlInput.Keepable(config.name))
  {
    StampedMeans(t, config.domain, config.name);
    AttrIsKept(t);
    if config.domain.Some? { DomainIsPlainText(config.domain.value); }
    NameIsRead(Stamped(t, config), config.name);
  }

  lemma AttrIsKept(t: Theme)
    ensures HtmlInput.AsRead(AsAttr(t)) == AsAttr(t)
  {
    AttrText(t);
    HtmlInput.AsReadExactly(AsAttr(t));
  }

  lemma NameIsRead(root: Root, name: string)
    requires Get(root, "data-cookie-name") == (if name == THEME_COOKIE then None else Some(HtmlInput.AsRead(name)))
    ensures NameIn(root) == name <==> name != "" && HtmlInput.Keepable(name)
  {
    HtmlInput.AsReadExactly(name);
    assert HtmlInput.Keepable(THEME_COOKIE);
  }

  // ---- what the browser makes of the script's line --------------------------------------------

  /** Hosts that share one cookie: all that the domain matches, or one host alone. */
  datatype Fleet = Fleet(config: Config, home: string, https: bool)

  predicate InFleet(f: Fleet, host: string) {
    match f.config.domain case None => host == f.home case Some(d) => DomainMatches(host, d)
  }

  /** A configured name that survives every reading: on the page, in the script's
      line, in a header's text, and in the loop over its parts. */
  predicate WellNamed(f: Fleet) { Resolved(f.config) && CookieName(f.config.name) && Visible(f.config.name) }

  /** A configuration whose cookie a browser keeps, too. */
  predicate Usable(f: Fleet) { WellNamed(f) && PrefixAllows(f.config.name, f.config.domain, f.https, "/") }

  function ThemeKey(f: Fleet): Key {
    Key(f.config.name, match f.config.domain case None => f.home case Some(d) => d, "/")
  }

  function ThemeCookie(f: Fleet, t: Theme, at: int, created: int): Cookie {
    Cookie(AsAttr(t), Some(at + YEAR), f.config.domain.None?, f.https, Lax, created)
  }

  function ThemeScope(domain: Option<string>, https: bool): Scope { Scope(domain, https, YEAR, Lax) }

  lemma LiteralNames()
    ensures Lower("path") == "path" && Lower("max-age") == "max-age" && Lower("SameSite") == "samesite"
    ensures Lower("domain") == "domain" && Lower("Secure") == "secure"
  {
  }

  lemma LiteralYear()
    ensures DeltaSeconds("31536000") == Some(YEAR)
  {
    assert JsonText.PrintNat(3) == "3";
    assert JsonText.PrintNat(31) == "31";
    assert JsonText.PrintNat(315) == "315";
    assert JsonText.PrintNat(3153) == "3153";
    assert JsonText.PrintNat(31536) == "31536" by { assert JsonText.PrintNat(31536) == JsonText.PrintNat(3153) + "6"; }
    assert JsonText.PrintNat(315360) == "315360" by { assert JsonText.PrintNat(315360) == JsonText.PrintNat(31536) + "0"; }
    assert JsonText.PrintNat(3153600) == "3153600" by { assert JsonText.PrintNat(3153600) == JsonText.PrintNat(315360) + "0"; }
    assert JsonText.PrintNat(31536000) == "31536000" by { assert JsonText.PrintNat(31536000) == JsonText.PrintNat(3153600) + "0"; }
    DeltaOfPrinted(31536000);
  }

  // ---- the line is parsed as it was meant -------------------------------------------------------

  function MoreParsed(domain: Option<string>, https: bool): Attributes {
    [("path", "/"), ("max-age", "31536000"), ("samesite", "Lax")]
    + ((match domain case None => [] case Some(d) => [("domain", d)]) + (if https then [("secure", "")] else []))
  }

  lemma ParseThree(a: string, la: string, va: string, b: string, lb: string, vb: string, c: string, lc: string, vc: string)
    requires '=' !in a && '=' !in b && '=' !in c
    requires Bare(IsWsp, a) && Bare(IsWsp, b) && Bare(IsWsp, c) && Bare(IsWsp, va) && Bare(IsWsp, vb) && Bare(IsWsp, vc)
    requires Lower(a) == la && Lower(b) == lb && Lower(c) == lc
    ensures ParseAttributes(Spaced([a + "=" + va, b + "=" + vb, c + "=" + vc])) == [(la, va), (lb, vb), (lc, vc)]
  {
    ParseWritten(a, la, va);
    ParseWritten(b, lb, vb);
    ParseWritten(c, lc, vc);
  }

  lemma ParseAppend(a: seq<string>, b: seq<string>)
    ensures ParseAttributes(Spaced(a + b)) == ParseAttributes(Spaced(a)) + ParseAttributes(Spaced(b))
  {
  }

  lemma ParseOne(a: string, la: string, va: string)
    requires '=' !in a && Bare(IsWsp, a) && Bare(IsWsp, va) && Lower(a) == la
    ensures ParseAttributes(Spaced([a + "=" + va])) == [(la, va)] && ParseAttributes(Spaced([a])) == [(la, "")]
  {
    ParseWritten(a, la, va);
    ParseFlag(a, la);
  }

  lemma MoreParse(domain: Option<string>, https: bool)
    requires domain.Some? ==> Bare(IsWsp, domain.value)
    ensures ParseAttributes(Spaced(MoreParts(domain, https))) == MoreParsed(domain, https)
  {
    LiteralNames();
    ParseThree("path", "path", "/", "max-age", "max-age", "31536000", "SameSite", "samesite", "Lax");
    var d := match domain case None => [] case Some(d) => ["domain" + "=" + d];
    var h := if https then ["Secure"] else [];
    if domain.Some? { ParseOne("domain", "domain", domain.value); }
    if https { ParseOne("Secure", "secure", ""); }
    ParseAppend(d, h);
    ParseAppend(["path" + "=" + "/", "max-age" + "=" + "31536000", "SameSite" + "=" + "Lax"], d + h);
  }

  lemma MoreAttributes(domain: Option<string>, https: bool)
    ensures var a := MoreParsed(domain, https);
            && Attribute(a, "path") == Some("/") && Attribute(a, "max-age") == Some("31536000")
            && Attribute(a, "domain") == domain && (Attribute(a, "secure").Some? <==> https)
            && Attribute(a, "samesite") == Some("Lax")
  {
    AttributeAt(MoreParsed(domain, https), 2, "samesite");
    var a := MoreParsed(domain, https);
    assert "domain" != "secure" by { assert "domain"[0] != "secure"[0]; }
    AttributeAt(a, 0, "path");
    AttributeAt(a, 1, "max-age");
    if domain.Some? { AttributeAt(a, 3, "domain"); } else { AttributeMissing(a, "domain"); }
    if https { AttributeAt(a, |a| - 1, "secure"); } else { AttributeMissing(a, "secure"); }
  }

  lemma LiteralLax()
    ensures Lower("Lax") == "lax" && Lower("Lax") != "strict"
  {
    assert |Lower("Lax")| == 3 && |"strict"| == 6;
  }

  lemma MoreScope(domain: Option<string>, https: bool)
    requires domain.Some? ==> CookieDomain.Normalize(domain.value) == domain
    ensures CookieDomainOf(MoreParsed(domain, https)) == domain && PathOf(MoreParsed(domain, https)) == "/"
    ensures PolicyOf(MoreParsed(domain, https)) == Lax
  {
    MoreAttributes(domain, https);
    LiteralLax();
    if domain.Some? { DomainIsPlainText(domain.value); }
  }

  lemma MorePartsHaveNoSemicolon(domain: Option<string>, https: bool)
    requires domain.Some? ==> ';' !in domain.value
    ensures forall i | 0 <= i < |MoreParts(domain, https)| :: ';' !in MoreParts(domain, https)[i]
  {
  }

  lemma ThemeLineParses(f: Fleet, t: Theme)
    requires WellNamed(f)
    ensures ParseLine(ThemeLine(f.config.name, t, f.config.domain, f.https))
         == Some(SetCookie(f.config.name, AsAttr(t), MoreParsed(f.config.domain, f.https)))
  {
    if f.config.domain.Some? { DomainIsPlainText(f.config.domain.value); }
    MoreParse(f.config.domain, f.https);
    MorePartsHaveNoSemicolon(f.config.domain, f.https);
    AttrText(t);
    ParseWrittenLine(f.config.name, AsAttr(t), MoreParts(f.config.domain, f.https));
  }

  lemma MoreAsks(domain: Option<string>, https: bool)
    requires domain.Some? ==> CookieDomain.Normalize(domain.value) == domain
    ensures Asks(MoreParsed(domain, https), ThemeScope(domain, https))
  {
    MoreScope(domain, https);
    MoreAttributes(domain, https);
    LiteralYear();
  }

  lemma LineCarries(f: Fleet, t: Theme)
    requires WellNamed(f)
    ensures Carries(ThemeLine(f.config.name, t, f.config.domain, f.https), f.config.name, AsAttr(t),
                    ThemeScope(f.config.domain, f.https))
  {
    ThemeLineParses(f, t);
    MoreAsks(f.config.domain, f.https);
  }

  /** Whichever tab of the fleet writes, it writes the one cookie, unless another
      site embeds it: then nothing. */
  lemma LineIsStored(jar: Jar, f: Fleet, t: Theme, host: string, now: int, from: Initiator)
    requires Usable(f) && InFleet(f, host)
    ensures Receive(jar, ThemeLine(f.config.name, t, f.config.domain, f.https), host, f.https, now, from) ==
            if from.OtherSiteRequest? then jar
            else jar[ThemeKey(f) := ThemeCookie(f, t, now, CreatedAt(jar, ThemeKey(f), now))]
  {
    var c := f.config;
    LineCarries(f, t);
    CarriedIsStored(jar, ThemeLine(c.name, t, c.domain, f.https), c.name, AsAttr(t), ThemeScope(c.domain, f.https), host, f.https,
                    now, from);
  }

  /** A tab on a host that the domain does not match, an IP address under a number
      for a domain among them, writes nothing. */
  lemma OutsideIsNotStored(jar: Jar, f: Fleet, t: Theme, host: string, now: int, from: Initiator)
    requires WellNamed(f) && f.config.domain.Some? && !InFleet(f, host)
    ensures Receive(jar, ThemeLine(f.config.name, t, f.config.domain, f.https), host, f.https, now, from) == jar
  {
    var c := f.config;
    LineCarries(f, t);
    CarriedIsStored(jar, ThemeLine(c.name, t, c.domain, f.https), c.name, AsAttr(t), ThemeScope(c.domain, f.https), host, f.https,
                    now, from);
  }
}
