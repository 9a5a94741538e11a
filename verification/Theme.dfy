/** The server half of the theme contract: which theme a Cookie header asks for,
    and the attributes a page is stamped with. */
module Theme {
  import opened Text
  import Html
  import CookieDomain

  datatype Theme = Dark | Light | System

  function AsAttr(t: Theme): string {
    match t
    case Dark => "dark"
    case Light => "light"
    case System => "system"
  }

  function Parse(raw: string): Option<Theme> {
    var s := Trim(raw);
    if s == "dark" then Some(Dark)
    else if s == "light" then Some(Light)
    else if s == "system" || s == "auto" then Some(System)
    else None
  }

  predicate IsQuote(c: char) { c == '\"' }

  // ---- reading the header ----------------------------------------------------------------

  /** The theme one `name=value` part of the header asks for, if it is about the
      cookie and its value is recognised. */
  function ThemeOfPart(part: string, name: string): Option<Theme> {
    match SplitOnce(Trim(part), '=')
    case None => None
    case Some((k, v)) => if Trim(k) == name then Parse(TrimBy(IsQuote, Trim(v))) else None
  }

  function OfPart(part: string, name: string): seq<Theme> {
    match ThemeOfPart(part, name) case Some(t) => [t] case None => []
  }

  /** Every theme the parts ask for, in header order. */
  function Recognised(parts: seq<string>, name: string): seq<Theme> {
    if parts == [] then []
    else
      OfPart(parts[0], name) + Recognised(parts[1..], name)
  }

  function Asked(header: Option<string>, name: string): seq<Theme> {
    match header
    case None => []
    case Some(h) => Recognised(Split(h, ';'), name)
  }

  function FirstOr(ts: seq<Theme>, t: Theme): Theme { if ts == [] then t else ts[0] }

  function LastOr(ts: seq<Theme>, t: Theme): Theme { if ts == [] then t else ts[|ts| - 1] }

  /** The loop of `theme_from_cookie_header` returns at the first recognised value. */
  method ThemeFromCookieHeader(header: Option<string>, name: string) returns (t: Theme)
    ensures t == FirstOr(Asked(header, name), Dark)
  {
    if header.None? { return Dark; }
    var parts := Split(header.value, ';');
    assert parts[0..] == parts;
    for i := 0 to |parts|
      invariant Recognised(parts[i..], name) == Recognised(parts, name)
    {
      assert parts[i..][0] == parts[i] && parts[i..][1..] == parts[i + 1..];
      var part := Trim(parts[i]);
      var pair := SplitOnce(part, '=');
      if pair.None? { continue; }
      if Trim(pair.value.0) == name {
        var parsed := Parse(TrimBy(IsQuote, Trim(pair.value.1)));
        if parsed.Some? { return parsed.value; }
      }
    }
    return Dark;
  }

  lemma RecognisedCons(part: string, parts: seq<string>, name: string)
    ensures Recognised([part] + parts, name) == OfPart(part, name) + Recognised(parts, name)
  {
    assert ([part] + parts)[1..] == parts;
  }

  lemma {:induction false} RecognisedConcat(a: seq<string>, b: seq<string>, name: string)
    ensures Recognised(a + b, name) == Recognised(a, name) + Recognised(b, name)
    decreases |a|
  {
    if a == [] {
      assert a + b == b;
    } else {
      var part, r := a[0], a[1..];
      calc {
        Recognised(a + b, name);
      == { assert a + b == [part] + (r + b); }
        Recognised([part] + (r + b), name);
      == { RecognisedCons(part, r + b, name); }
        OfPart(part, name) + Recognised(r + b, name);
      == { RecognisedConcat(r, b, name); }
        OfPart(part, name) + (Recognised(r, name) + Recognised(b, name));
      == { Assoc(OfPart(part, name), Recognised(r, name), Recognised(b, name)); }
        OfPart(part, name) + Recognised(r, name) + Recognised(b, name);
      == { RecognisedCons(part, r, name); assert [part] + r == a; }
        Recognised(a, name) + Recognised(b, name);
      }
    }
  }

  /** The first recognised value is the one before which none is recognised, and
      the last the one after which none is. */
  lemma FirstAndLast(before: seq<string>, part: string, after: seq<string>, name: string)
    requires ThemeOfPart(part, name).Some?
    ensures var t, all := ThemeOfPart(part, name).value, Recognised(before + [part] + after, name);
            && all != []
            && (Recognised(before, name) == [] ==> FirstOr(all, Dark) == t)
            && (Recognised(after, name) == [] ==> LastOr(all, Dark) == t)
  {
    RecognisedConcat(before + [part], after, name);
    RecognisedConcat(before, [part], name);
    assert [part][1..] == [];
  }

  lemma {:induction false} NoneRecognised(parts: seq<string>, name: string)
    requires forall i | 0 <= i < |parts| :: ThemeOfPart(parts[i], name) == None
    ensures Recognised(parts, name) == []
  {
    if parts != [] { NoneRecognised(parts[1..], name); }
  }

  /** The first, and the last, part of the header with a recognised value. */
  predicate FirstAt(parts: seq<string>, name: string, i: int) {
    0 <= i < |parts| && ThemeOfPart(parts[i], name).Some? && forall h | 0 <= h < i :: ThemeOfPart(parts[h], name) == None
  }

  predicate LastAt(parts: seq<string>, name: string, i: int) {
    0 <= i < |parts| && ThemeOfPart(parts[i], name).Some? && forall h | i < h < |parts| :: ThemeOfPart(parts[h], name) == None
  }

  lemma FirstIsFirst(parts: seq<string>, name: string, i: int)
    requires FirstAt(parts, name, i)
    ensures Recognised(parts, name) != [] && Some(FirstOr(Recognised(parts, name), Dark)) == ThemeOfPart(parts[i], name)
  {
    CutParts(parts, i);
    FirstAndLast(parts[..i], parts[i], parts[i + 1..], name);
    NoneRecognised(parts[..i], name);
  }

  lemma LastIsLast(parts: seq<string>, name: string, i: int)
    requires LastAt(parts, name, i)
    ensures Some(LastOr(Recognised(parts, name), Dark)) == ThemeOfPart(parts[i], name)
  {
    CutParts(parts, i);
    FirstAndLast(parts[..i], parts[i], parts[i + 1..], name);
    NoneRecognised(parts[i + 1..], name);
  }

  lemma CutParts(parts: seq<string>, i: nat)
    requires i < |parts|
    ensures parts == parts[..i] + [parts[i]] + parts[i + 1..]
  {
  }

  lemma {:induction false} FirstExists(parts: seq<string>, name: string) returns (i: nat)
    requires Recognised(parts, name) != []
    ensures FirstAt(parts, name, i)
  {
    if ThemeOfPart(parts[0], name).Some? {
      i := 0;
    } else {
      i := FirstExists(parts[1..], name);
      assert forall h | 0 < h < |parts| :: parts[h] == parts[1..][h - 1];
      i := i + 1;
    }
  }

  lemma {:induction false} LastExists(parts: seq<string>, name: string) returns (i: nat)
    requires Recognised(parts, name) != []
    ensures LastAt(parts, name, i)
  {
    var n := |parts| - 1;
    if ThemeOfPart(parts[n], name).Some? {
      i := n;
    } else {
      CutParts(parts, n);
      RecognisedConcat(parts[..n], [parts[n]], name);
      NoneRecognised([parts[n]], name);
      assert parts[..n] + [parts[n]] == parts;
      i := LastExists(parts[..n], name);
    }
  }

  ghost predicate EndsAgree(parts: seq<string>, name: string) {
    forall i, j | FirstAt(parts, name, i) && LastAt(parts, name, j) ::
      ThemeOfPart(parts[i], name) == ThemeOfPart(parts[j], name)
  }

  lemma FirstWinsWhenEndsAgree(parts: seq<string>, name: string)
    ensures var all := Recognised(parts, name);
            FirstOr(all, Dark) == LastOr(all, Dark) <==> EndsAgree(parts, name)
  {
    forall i | FirstAt(parts, name, i) { FirstIsFirst(parts, name, i); }
    forall j | LastAt(parts, name, j) { LastIsLast(parts, name, j); }
    if Recognised(parts, name) != [] {
      var i := FirstExists(parts, name);
      var j := LastExists(parts, name);
    }
  }

  /** The loop against the comment beside it, which says the last value wins: the
      two agree exactly when the first and the last part with a recognised value
      ask for the same theme. */
  lemma FirstWinsVersusLastWins(header: string, name: string)
    ensures var all := Asked(Some(header), name);
            FirstOr(all, Dark) == LastOr(all, Dark) <==> EndsAgree(Split(header, ';'), name)
  {
    FirstWinsWhenEndsAgree(Split(header, ';'), name);
  }

  /** They differ on any two different themes under one name. */
  lemma CommentAndLoopDiffer(name: string, t: Theme, u: Theme)
    requires CookieName(name) && t != u
    ensures var all := Recognised([name + "=" + AsAttr(t), name + "=" + AsAttr(u)], name);
            FirstOr(all, Dark) == t && LastOr(all, Dark) == u
  {
    ThemePart(name, t);
    ThemePart(name, u);
    RecognisedCons(name + "=" + AsAttr(t), [name + "=" + AsAttr(u)], name);
    RecognisedCons(name + "=" + AsAttr(u), [], name);
    assert [name + "=" + AsAttr(t)] + [name + "=" + AsAttr(u)] == [name + "=" + AsAttr(t), name + "=" + AsAttr(u)];
    assert [name + "=" + AsAttr(u)] + [] == [name + "=" + AsAttr(u)];
  }

  // ---- a cookie written for a theme is read as that theme ------------------------------------

  /** Names that come back from a Cookie header as they went in. */
  predicate CookieName(name: string) { name != "" && Readable(name) }

  predicate Readable(name: string) { Bare(IsWhite, name) && '=' !in name && ';' !in name }

  lemma FoundIsReadable(part: string, name: string)
    requires ';' !in part && ThemeOfPart(part, name).Some?
    ensures Readable(name)
  {
    var k := SplitOnce(Trim(part), '=').value.0;
    TrimAvoids(IsWhite, part, ';');
    SplitOnceAvoids(Trim(part), '=', ';');
    TrimAvoids(IsWhite, k, '=');
    TrimAvoids(IsWhite, k, ';');
    var a, b := TrimSplits(IsWhite, k);
  }

  lemma {:induction false} NoneIsFound(parts: seq<string>, name: string)
    requires !Readable(name) && forall i | 0 <= i < |parts| :: ';' !in parts[i]
    ensures Recognised(parts, name) == []
  {
    if parts != [] {
      if ThemeOfPart(parts[0], name).Some? { FoundIsReadable(parts[0], name); }
      NoneIsFound(parts[1..], name);
    }
  }

  /** Under any other name every page is dark, whatever the browser sends. */
  lemma UnreadableIsDark(header: Option<string>, name: string)
    requires !Readable(name)
    ensures Asked(header, name) == []
  {
    if header.Some? { NoneIsFound(Split(header.value, ';'), name); }
  }

  lemma AttrText(t: Theme)
    ensures var s := AsAttr(t);
            && s != "" && Parse(s) == Some(t) && Bare(IsWhite, s) && Bare(IsQuote, s)
            && (forall i | 0 <= i < |s| :: 'a' <= s[i] <= 'z')
  {
    CookieDomain.TrimOfBare(AsAttr(t));
  }

  lemma ThemePart(name: string, t: Theme)
    requires CookieName(name)
    ensures ThemeOfPart(name + "=" + AsAttr(t), name) == Some(t)
  {
    var v := AsAttr(t);
    var part := name + "=" + v;
    AttrText(t);
    assert part[0] == name[0] && part[|part| - 1] == v[|v| - 1];
    CookieDomain.TrimOfBare(part);
    SplitOnceAt(name, '=', v);
    CookieDomain.TrimOfBare(name);
    CookieDomain.TrimOfBare(v);
    TrimCore(IsQuote, "", v, "");
    assert "" + v + "" == v;
  }

  /** What is recognised: the three words and `auto`, blanks around them or not. */
  lemma ParseExactly(raw: string, t: Theme)
    ensures Parse(raw) == Some(t) <==> Trim(raw) == AsAttr(t) || (t == System && Trim(raw) == "auto")
  {
    assert |"auto"| == 4 && |"dark"| == 4 && |"light"| == 5 && |"system"| == 6;
    assert "auto"[0] != "dark"[0];
  }

  /** Blanks around the name, the value and the word in it do not matter, nor do
      quotes around the value. */
  lemma BlanksAndQuotesDoNotMatter(a: string, name: string, b: string, c: string, q: string, x: string, word: string,
                                   y: string, r: string, d: string, t: Theme)
    requires CookieName(name) && All(IsQuote, q) && All(IsQuote, r) && Parse(word) == Some(t) && Bare(IsWhite, word)
    requires All(IsWhite, a) && All(IsWhite, b) && All(IsWhite, c) && All(IsWhite, d) && All(IsWhite, x) && All(IsWhite, y)
    requires q != "" && r != ""
    ensures ThemeOfPart(a + (name + b + "=" + (c + (q + (x + word + y) + r))) + d, name) == Some(t)
  {
    var inner := x + word + y;
    var v := q + inner + r;
    var left, right := name + b, c + v;
    var core := left + "=" + right;
    TrimCore(IsWhite, x, word, y);
    assert word != "" by { if word == "" { CookieDomain.TrimOfBare(word); } }
    QuotedText(q, inner, r);
    assert core[0] == name[0] && core[|core| - 1] == v[|v| - 1] == r[|r| - 1];
    assert Bare(IsWhite, core) && Bare(IsWhite, v);
    TrimCore(IsWhite, a, core, d);
    SplitOnceAt(left, '=', right);
    TrimCore(IsWhite, "", name, b);
    assert "" + name + b == left;
    TrimCore(IsWhite, c, v, "");
    assert c + v + "" == right;
    TrimCore(IsWhite, x, word, y);
    WordIsBare(word, x, y);
    TrimCore(IsQuote, q, inner, r);
    CookieDomain.TrimOfBare(word);
  }

  lemma QuotedText(q: string, inner: string, r: string)
    requires q != "" && r != "" && All(IsQuote, q) && All(IsQuote, r)
    ensures var v := q + inner + r; v[0] == '\"' && v[|v| - 1] == '\"'
  {
  }

  lemma WordIsBare(word: string, x: string, y: string)
    requires word != "" && Bare(IsWhite, word) && Parse(word).Some? && All(IsWhite, x) && All(IsWhite, y)
    ensures Bare(IsQuote, x + word + y)
  {
    CookieDomain.TrimOfBare(word);
    var s := x + word + y;
    assert s[0] == if x != "" then x[0] else word[0];
    assert s[|s| - 1] == if y != "" then y[|y| - 1] else word[|word| - 1];
  }

  // ---- the attributes of <html> ------------------------------------------------------------

  const THEME_COOKIE := "heyo_theme"

  /** `CookieConfig::resolve`. */
  datatype Config = Config(domain: Option<string>, name: string)

  function AndThenNormalize(domain: Option<string>): Option<string> {
    match domain case None => None case Some(d) => CookieDomain.Normalize(d)
  }

  function Resolve(domain: Option<string>, name: Option<string>): Config {
    Config(AndThenNormalize(domain), match name case None => THEME_COOKIE case Some(n) => n)
  }

  /** Every part of a configuration is used where there is one. */
  lemma ResolveExactly(domain: Option<string>, name: string)
    ensures Resolve(domain, Some(name)).name == name && Resolve(domain, None).name == "heyo_theme"
    ensures domain == None ==> Resolve(domain, Some(name)).domain == None
    ensures domain.Some? ==> Resolve(domain, Some(name)).domain == CookieDomain.Normalize(domain.value)
  {
  }

  function RootAttributes(t: Theme, domain: Option<string>, name: string): seq<Html.Written> {
    [Html.Written("data-theme", Some(AsAttr(t)))]
    + (match domain case None => [] case Some(d) => [Html.Written("data-cookie-domain", Some(d))])
    + (if name == THEME_COOKIE then [] else [Html.Written("data-cookie-name", Some(name))])
  }

  function AttrsText(t: Theme, domain: Option<string>, name: string): string {
    "data-theme=\"" + AsAttr(t) + "\""
    + (match domain case None => "" case Some(d) => " data-cookie-domain=\"" + Html.Escape(d) + "\"")
    + (if name == THEME_COOKIE then "" else " data-cookie-name=\"" + Html.Escape(name) + "\"")
  }

  /** `html_attrs`, interpolated after `<html `. */
  method HtmlAttrs(t: Theme, domain: Option<string>, name: string) returns (s: string)
    ensures " " + s == Html.WriteAttributes(RootAttributes(t, AndThenNormalize(domain), name))
  {
    s := "data-theme=\"" + AsAttr(t) + "\"";
    var d := AndThenNormalize(domain);
    if d.Some? {
      var escaped := Html.EscapeString(d.value);
      s := s + (" data-cookie-domain=\"" + escaped + "\"");
    } else {
      assert s + "" == s;
    }
    if name != THEME_COOKIE {
      var escaped := Html.EscapeString(name);
      s := s + (" data-cookie-name=\"" + escaped + "\"");
    } else {
      assert s + "" == s;
    }
    AttrsAreWritten(t, d, name);
  }

  function Piece(name: string, value: string): string { " " + name + "=\"" + Html.Escape(value) + "\"" }

  lemma PieceIsWritten(name: string, value: string)
    ensures Html.WriteAttributes([Html.Written(name, Some(value))]) == Piece(name, value)
  {
    var w := Html.Written(name, Some(value));
    assert [w][1..] == [];
    FlatPiece(name, Html.Escape(value));
    assert Html.WriteAttributes([w]) == " " + (name + ("=\"" + Html.Escape(value) + "\"")) + "";
  }

  lemma FlatPiece(name: string, value: string)
    ensures " " + (name + ("=\"" + value + "\"")) + "" == " " + name + "=\"" + value + "\""
  {
  }

  lemma LiteralPieces()
    ensures " " + "data-theme=\"" == " " + "data-theme" + "=\""
    ensures " data-cookie-domain=\"" == " " + "data-cookie-domain" + "=\""
    ensures " data-cookie-name=\"" == " " + "data-cookie-name" + "=\""
  {
  }

  lemma FlatTheme(text: string)
    ensures " " + ("data-theme=\"" + text + "\"") == " " + "data-theme" + "=\"" + text + "\""
  {
    LiteralPieces();
    assert " " + ("data-theme=\"" + text + "\"") == " " + "data-theme=\"" + text + "\"";
  }

  lemma ThreePieces(a: seq<Html.Written>, b: seq<Html.Written>, c: seq<Html.Written>)
    ensures Html.WriteAttributes(a + b + c) == Html.WriteAttributes(a) + Html.WriteAttributes(b) + Html.WriteAttributes(c)
  {
    WriteAttributesConcat(a, b);
    WriteAttributesConcat(a + b, c);
  }

  lemma AttrsAreWritten(t: Theme, domain: Option<string>, name: string)
    ensures " " + AttrsText(t, domain, name) == Html.WriteAttributes(RootAttributes(t, domain, name))
  {
    var first := "data-theme=\"" + AsAttr(t) + "\"";
    var second := match domain case None => "" case Some(d) => Piece("data-cookie-domain", d);
    var third := if name == THEME_COOKIE then "" else Piece("data-cookie-name", name);
    AttrIsPlain(t);
    FlatTheme(AsAttr(t));
    LiteralPieces();
    PieceIsWritten("data-theme", AsAttr(t));
    if domain.Some? { PieceIsWritten("data-cookie-domain", domain.value); }
    if name != THEME_COOKIE { PieceIsWritten("data-cookie-name", name); }
    ThreePieces([Html.Written("data-theme", Some(AsAttr(t)))],
                match domain case None => [] case Some(d) => [Html.Written("data-cookie-domain", Some(d))],
                if name == THEME_COOKIE then [] else [Html.Written("data-cookie-name", Some(name))]);
    Assoc(" ", first, second);
    Assoc(" ", first + second, third);
  }

  lemma AttrIsPlain(t: Theme)
    ensures Html.Escape(AsAttr(t)) == AsAttr(t)
  {
    AttrText(t);
    Html.EscapePlain(AsAttr(t));
  }

  lemma {:induction false} WriteAttributesConcat(a: seq<Html.Written>, b: seq<Html.Written>)
    ensures Html.WriteAttributes(a + b) == Html.WriteAttributes(a) + Html.WriteAttributes(b)
    decreases |a|
  {
    if a == [] {
      assert a + b == b;
    } else {
      WriteAttributesConcat(a[1..], b);
      WriteAttributesCons(a[0], a[1..]);
      WriteAttributesCons(a[0], a[1..] + b);
      assert [a[0]] + a[1..] == a;
      Assoc([a[0]], a[1..], b);
      Assoc(" " + Html.WriteAttribute(a[0]), Html.WriteAttributes(a[1..]), Html.WriteAttributes(b));
    }
  }

  lemma WriteAttributesCons(a: Html.Written, rest: seq<Html.Written>)
    ensures Html.WriteAttributes([a] + rest) == " " + Html.WriteAttribute(a) + Html.WriteAttributes(rest)
  {
    assert ([a] + rest)[1..] == rest;
  }
}
