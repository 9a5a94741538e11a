/** HTML escaping, and the tokenizer it is written for: the data, tag and
    double-quoted attribute value states of section 13.2.5 of the HTML Standard.
    Input that leaves those states ends in `Unmodelled`. */
module Html {
  import opened Text

  // ---- escape ---------------------------------------------------------------------

  function EscapeChar(c: char): (r: string)
    ensures r != ""
  {
    match c
    case '&' => "&amp;"
    case '<' => "&lt;"
    case '>' => "&gt;"
    case '\"' => "&quot;"
    case '\'' => "&#39;"
    case _ => [c]
  }

  function Escape(s: string): string {
    if s == "" then "" else EscapeChar(s[0]) + Escape(s[1..])
  }

  lemma EscapeFrom(s: string, i: nat)
    requires i < |s|
    ensures Escape(s[i..]) == EscapeChar(s[i]) + Escape(s[i + 1..])
  {
    assert s[i..][0] == s[i] && s[i..][1..] == s[i + 1..];
  }

  lemma EscapeStep(out: string, s: string, i: nat)
    requires i < |s| && out + Escape(s[i..]) == Escape(s)
    ensures out + EscapeChar(s[i]) + Escape(s[i + 1..]) == Escape(s)
  {
    EscapeFrom(s, i);
    Assoc(out, EscapeChar(s[i]), Escape(s[i + 1..]));
  }

  /** The loop of `escape`. */
  method EscapeString(s: string) returns (out: string)
    ensures out == Escape(s)
  {
    out := "";
    assert s[0..] == s;
    for i := 0 to |s|
      invariant out + Escape(s[i..]) == Escape(s)
    {
      EscapeStep(out, s, i);
      match s[i] {
        case '&' => out := out + "&amp;";
        case '<' => out := out + "&lt;";
        case '>' => out := out + "&gt;";
        case '\"' => out := out + "&quot;";
        case '\'' => out := out + "&#39;";
        case c => out := out + [c];
      }
    }
    assert out + "" == out;
  }

  /** The character at the front of the text, references decoded, and its length
      in the text. Of the named references, those that `escape` writes. */
  function Reference(s: string): (r: (char, nat))
    requires s != ""
    ensures 0 < r.1 <= |s|
  {
    if "&amp;" <= s then ('&', 5)
    else if "&lt;" <= s then ('<', 4)
    else if "&gt;" <= s then ('>', 4)
    else if "&quot;" <= s then ('\"', 6)
    else if "&#39;" <= s then ('\'', 5)
    else (s[0], 1)
  }

  function Unescape(s: string): string {
    if s == "" then ""
    else var (c, n) := Reference(s); [c] + Unescape(s[n..])
  }

  lemma EscapedReference(c: char, t: string)
    ensures var s := EscapeChar(c) + t;
            && s != "" && Reference(s) == (c, |EscapeChar(c)|) && s[|EscapeChar(c)|..] == t
            && s[0] != '<' && s[0] != '\"' && (s[0] == '\0' <==> c == '\0')
  {
    var e := EscapeChar(c);
    var s := e + t;
    assert e <= s;
    if e == [c] { assert s[0] == c; } else { assert s[1] == e[1] && s[2] == e[2]; }
  }

  /** Escaping can be undone, so it is injective. */
  lemma {:induction false} UnescapeEscape(s: string)
    ensures Unescape(Escape(s)) == s
  {
    if s != "" {
      EscapedReference(s[0], Escape(s[1..]));
      UnescapeEscape(s[1..]);
      assert s == [s[0]] + s[1..];
    }
  }

  lemma EscapeIsInjective(a: string, b: string)
    ensures Escape(a) == Escape(b) <==> a == b
  {
    UnescapeEscape(a);
    UnescapeEscape(b);
  }

  predicate Plain(c: char) { c != '&' && c != '<' && c != '>' && c != '\"' && c != '\'' }

  lemma {:induction false} EscapePlain(s: string)
    requires All(Plain, s)
    ensures Escape(s) == s
  {
    if s != "" {
      EscapePlain(s[1..]);
      assert s == [s[0]] + s[1..];
    }
  }

  // ---- the tokenizer -----------------------------------------------------------------

  datatype Attribute = Attribute(name: string, value: string)

  datatype Token =
    | StartTag(name: string, attributes: seq<Attribute>)
    | EndTag(name: string)
    | Character(c: char)
    | Unmodelled

  datatype Tag = Tag(name: string, attributes: seq<Attribute>, end: bool)

  function Emit(tag: Tag): Token { if tag.end then EndTag(tag.name) else StartTag(tag.name, tag.attributes) }

  /** A second attribute of the same name is dropped. */
  function With(tag: Tag, name: string, value: string): Tag {
    if exists a :: a in tag.attributes && a.name == name then tag
    else tag.(attributes := tag.attributes + [Attribute(name, value)])
  }

  const REPLACEMENT := '\U{FFFD}'

  predicate Blank(c: char) { c == '\t' || c == '\n' || c as int == 12 || c == ' ' }

  function NameChar(c: char): char { if c == '\0' then REPLACEMENT else ToLower(c) }

  function Data(s: string): seq<Token>
    decreases |s|, 1
  {
    if s == "" then []
    else if s[0] == '<' then TagOpen(s[1..])
    else var (c, n) := Reference(s); [Character(c)] + Data(s[n..])
  }

  function TagOpen(s: string): seq<Token>
    decreases |s|, 2
  {
    if s != "" && IsLetter(s[0]) then TagName(s, Tag("", [], false))
    else if |s| >= 2 && s[0] == '/' && IsLetter(s[1]) then TagName(s[1..], Tag("", [], true))
    else if s != "" && (s[0] == '/' || s[0] == '!' || s[0] == '?') then [Unmodelled]
    else [Character('<')] + Data(s)
  }

  function TagName(s: string, tag: Tag): seq<Token>
    decreases |s|, 0
  {
    if s == "" then []
    else if s[0] == '>' then [Emit(tag)] + Data(s[1..])
    else if s[0] == '/' then [Unmodelled]
    else if Blank(s[0]) then BeforeName(s[1..], tag)
    else TagName(s[1..], tag.(name := tag.name + [NameChar(s[0])]))
  }

  function BeforeName(s: string, tag: Tag): seq<Token>
    decreases |s|, 1
  {
    if s == "" then []
    else if s[0] == '>' then [Emit(tag)] + Data(s[1..])
    else if s[0] == '/' then [Unmodelled]
    else if Blank(s[0]) then BeforeName(s[1..], tag)
    else AttributeName(s[1..], tag, [NameChar(s[0])])
  }

  function AttributeName(s: string, tag: Tag, name: string): seq<Token>
    decreases |s|, 0
  {
    if s == "" then []
    else if s[0] == '>' then [Emit(With(tag, name, ""))] + Data(s[1..])
    else if s[0] == '/' then [Unmodelled]
    else if s[0] == '=' then BeforeValue(s[1..], tag, name)
    else if Blank(s[0]) then AfterName(s[1..], tag, name)
    else AttributeName(s[1..], tag, name + [NameChar(s[0])])
  }

  function AfterName(s: string, tag: Tag, name: string): seq<Token>
    decreases |s|, 2
  {
    if s == "" then []
    else if s[0] == '=' then BeforeValue(s[1..], tag, name)
    else if Blank(s[0]) then AfterName(s[1..], tag, name)
    else BeforeName(s, With(tag, name, ""))
  }

  function BeforeValue(s: string, tag: Tag, name: string): seq<Token>
    decreases |s|, 0
  {
    if s == "" then []
    else if Blank(s[0]) then BeforeValue(s[1..], tag, name)
    else if s[0] == '\"' then Quoted(s[1..], tag, name, "")
    else [Unmodelled]
  }

  function Quoted(s: string, tag: Tag, name: string, value: string): seq<Token>
    decreases |s|, 0
  {
    if s == "" then []
    else if s[0] == '\"' then AfterValue(s[1..], With(tag, name, value))
    else if s[0] == '\0' then Quoted(s[1..], tag, name, value + [REPLACEMENT])
    else var (c, n) := Reference(s); Quoted(s[n..], tag, name, value + [c])
  }

  function AfterValue(s: string, tag: Tag): seq<Token>
    decreases |s|, 2
  {
    if s == "" then []
    else if s[0] == '>' then [Emit(tag)] + Data(s[1..])
    else if s[0] == '/' then [Unmodelled]
    else BeforeName(s, tag)
  }

  // ---- markup, and how it is written ------------------------------------------------------

  datatype Written = Written(name: string, value: Option<string>)

  datatype Node = Open(name: string, attributes: seq<Written>) | Close(name: string) | Content(text: string)

  function WriteAttribute(a: Written): string {
    a.name + match a.value
             case None => ""
             case Some(v) => "=\"" + Escape(v) + "\""
  }

  function WriteAttributes(attributes: seq<Written>): string {
    if attributes == [] then "" else " " + WriteAttribute(attributes[0]) + WriteAttributes(attributes[1..])
  }

  function WriteNode(n: Node): string {
    match n
    case Open(name, attributes) => "<" + name + WriteAttributes(attributes) + ">"
    case Close(name) => "</" + name + ">"
    case Content(text) => Escape(text)
  }

  function Write(nodes: seq<Node>): string {
    if nodes == [] then "" else WriteNode(nodes[0]) + Write(nodes[1..])
  }

  /** The tokens that are meant. A null character in an attribute value is the one
      thing the tokenizer does not give back. */
  function Meant(nodes: seq<Node>): seq<Token> {
    if nodes == [] then [] else NodeTokens(nodes[0]) + Meant(nodes[1..])
  }

  function NodeTokens(n: Node): seq<Token> {
    match n
    case Open(name, attributes) => [StartTag(name, Attributes(attributes))]
    case Close(name) => [EndTag(name)]
    case Content(text) => Characters(text)
  }

  function Attributes(attributes: seq<Written>): seq<Attribute> {
    seq(|attributes|, i requires 0 <= i < |attributes| =>
      Attribute(attributes[i].name, match attributes[i].value case None => "" case Some(v) => NullSafe(v)))
  }

  function Characters(s: string): seq<Token> { seq(|s|, i requires 0 <= i < |s| => Character(s[i])) }

  function NullSafe(s: string): (r: string)
    ensures |r| == |s|
  {
    seq(|s|, i requires 0 <= i < |s| => if s[i] == '\0' then REPLACEMENT else s[i])
  }

  lemma NullSafeExactly(s: string)
    ensures NullSafe(s) == s <==> '\0' !in s
  {
    if '\0' in s {
      var i :| 0 <= i < |s| && s[i] == '\0';
      assert NullSafe(s)[i] != s[i];
    }
  }

  /** Names as they appear in the shell: lower-case letters and hyphens. */
  predicate NameText(s: string) {
    s != "" && IsLetter(s[0]) && forall i | 0 <= i < |s| :: 'a' <= s[i] <= 'z' || s[i] == '-'
  }

  predicate WellNamed(n: Node) {
    match n
    case Open(name, attributes) =>
      && NameText(name)
      && (forall a | a in attributes :: NameText(a.name))
      && (forall i, j | 0 <= i < j < |attributes| :: attributes[i].name != attributes[j].name)
    case Close(name) => NameText(name)
    case Content(_) => true
  }

  // ---- the tokenizer reads what was written ---------------------------------------------------

  lemma ReadEscaped(c: char, t: string)
    ensures Data(EscapeChar(c) + t) == [Character(c)] + Data(t)
  {
    EscapedReference(c, t);
  }

  lemma {:induction false} ReadText(x: string, t: string)
    ensures Data(Escape(x) + t) == Characters(x) + Data(t)
  {
    if x == "" {
      assert Escape(x) + t == t;
      assert Characters(x) + Data(t) == Data(t);
    } else {
      var u := Escape(x[1..]) + t;
      Assoc(EscapeChar(x[0]), Escape(x[1..]), t);
      ReadEscaped(x[0], u);
      ReadText(x[1..], t);
      CharactersOf(x);
      Assoc([Character(x[0])], Characters(x[1..]), Data(t));
    }
  }

  lemma CharactersOf(x: string)
    requires x != ""
    ensures Characters(x) == [Character(x[0])] + Characters(x[1..])
  {
  }

  lemma NullSafeOf(x: string)
    requires x != ""
    ensures NullSafe(x) == [NullSafe(x)[0]] + NullSafe(x[1..])
  {
  }

  lemma {:induction false} ReadQuoted(x: string, t: string, tag: Tag, name: string, value: string)
    ensures Quoted(Escape(x) + ("\"" + t), tag, name, value) == AfterValue(t, With(tag, name, value + NullSafe(x)))
    decreases |x|
  {
    if x == "" {
      assert Escape(x) + ("\"" + t) == "\"" + t;
      assert value + NullSafe(x) == value;
    } else {
      var u := Escape(x[1..]) + ("\"" + t);
      var safe := NullSafe(x)[0];
      EscapedReference(x[0], u);
      ReadQuoted(x[1..], t, tag, name, value + [safe]);
      Assoc(EscapeChar(x[0]), Escape(x[1..]), "\"" + t);
      NullSafeOf(x);
      Assoc(value, [safe], NullSafe(x[1..]));
    }
  }

  lemma {:induction false} ReadTagName(x: string, t: string, tag: Tag)
    requires forall i | 0 <= i < |x| :: 'a' <= x[i] <= 'z' || x[i] == '-'
    ensures TagName(x + t, tag) == TagName(t, tag.(name := tag.name + x))
    decreases |x|
  {
    if x == "" {
      assert x + t == t && tag.name + x == tag.name;
    } else {
      assert (x + t)[1..] == x[1..] + t;
      ReadTagName(x[1..], t, tag.(name := tag.name + [x[0]]));
      assert tag.name + [x[0]] + x[1..] == tag.name + x;
    }
  }

  lemma {:induction false} ReadAttributeName(x: string, t: string, tag: Tag, name: string)
    requires forall i | 0 <= i < |x| :: 'a' <= x[i] <= 'z' || x[i] == '-'
    ensures AttributeName(x + t, tag, name) == AttributeName(t, tag, name + x)
    decreases |x|
  {
    if x == "" {
      assert x + t == t && name + x == name;
    } else {
      assert (x + t)[1..] == x[1..] + t;
      ReadAttributeName(x[1..], t, tag, name + [x[0]]);
      assert name + [x[0]] + x[1..] == name + x;
    }
  }

  lemma ReadName(x: string, t: string, tag: Tag)
    requires NameText(x)
    ensures BeforeName(x + t, tag) == AttributeName(t, tag, x)
  {
    assert (x + t)[1..] == x[1..] + t;
    ReadAttributeName(x[1..], t, tag, [x[0]]);
    assert [x[0]] + x[1..] == x;
  }

  /** What follows one attribute: the end of the tag, or the next attribute. */
  function Continue(e: string, tag: Tag): seq<Token>
    requires e != ""
  {
    if e[0] == '>' then [Emit(tag)] + Data(e[1..]) else BeforeName(e[1..], tag)
  }

  predicate Separated(e: string) {
    e != "" && (e[0] == '>' || (e[0] == ' ' && |e| > 1 && IsLetter(e[1])))
  }

  function ValueOf(a: Written): string {
    match a.value case None => "" case Some(v) => NullSafe(v)
  }

  lemma ReadBareAttribute(name: string, e: string, tag: Tag)
    requires NameText(name) && Separated(e)
    ensures BeforeName(name + e, tag) == Continue(e, With(tag, name, ""))
  {
    ReadName(name, e, tag);
    if e[0] == ' ' {
      assert AttributeName(e, tag, name) == AfterName(e[1..], tag, name);
    }
  }

  lemma ReadValuedAttribute(name: string, v: string, e: string, tag: Tag)
    requires NameText(name) && Separated(e)
    ensures BeforeName(name + ("=\"" + (Escape(v) + ("\"" + e))), tag) == Continue(e, With(tag, name, NullSafe(v)))
  {
    var q := Escape(v) + ("\"" + e);
    var w := "=\"" + q;
    ReadName(name, w, tag);
    assert w[1..] == "\"" + q && ("\"" + q)[1..] == q;
    assert AttributeName(w, tag, name) == BeforeValue(w[1..], tag, name) == Quoted(q, tag, name, "");
    ReadQuoted(v, e, tag, name, "");
    assert "" + NullSafe(v) == NullSafe(v);
  }

  lemma ReadAttribute(a: Written, e: string, tag: Tag)
    requires NameText(a.name) && Separated(e)
    ensures BeforeName(WriteAttribute(a) + e, tag) == Continue(e, With(tag, a.name, ValueOf(a)))
  {
    match a.value
    case None =>
      assert a.name + "" == a.name;
      ReadBareAttribute(a.name, e, tag);
    case Some(v) =>
      ReadValuedAttribute(a.name, v, e, tag);
      WrittenValue(a.name, Escape(v), e);
  }

  lemma WrittenValue(name: string, v: string, e: string)
    ensures name + ("=\"" + v + "\"") + e == name + ("=\"" + (v + ("\"" + e)))
  {
  }

  function Ending(attributes: seq<Written>, t: string): string { WriteAttributes(attributes) + (">" + t) }

  lemma EndingCons(attributes: seq<Written>, t: string)
    requires attributes != []
    ensures Ending(attributes, t) == " " + (WriteAttribute(attributes[0]) + Ending(attributes[1..], t))
  {
    var a, r := WriteAttribute(attributes[0]), WriteAttributes(attributes[1..]);
    assert (" " + a + r) + (">" + t) == " " + (a + (r + (">" + t)));
  }

  lemma EndingSeparated(attributes: seq<Written>, t: string)
    requires forall a | a in attributes :: NameText(a.name)
    ensures Separated(Ending(attributes, t))
  {
    if attributes != [] {
      EndingCons(attributes, t);
      var a := attributes[0];
      assert a in attributes && WriteAttribute(a)[0] == a.name[0];
    }
  }

  predicate Fresh(tag: Tag, attributes: seq<Written>) {
    && (forall i, j | 0 <= i < j < |attributes| :: attributes[i].name != attributes[j].name)
    && (forall a, i | a in tag.attributes && 0 <= i < |attributes| :: a.name != attributes[i].name)
  }

  lemma AttributesOf(attributes: seq<Written>)
    requires attributes != []
    ensures Attributes(attributes)
         == [Attribute(attributes[0].name, ValueOf(attributes[0]))] + Attributes(attributes[1..])
  {
  }

  /** All attributes of a tag are read back, in order. */
  lemma {:induction false} ReadAttributes(attributes: seq<Written>, t: string, tag: Tag)
    requires (forall a | a in attributes :: NameText(a.name)) && Fresh(tag, attributes)
    ensures Continue(Ending(attributes, t), tag)
         == [Emit(tag.(attributes := tag.attributes + Attributes(attributes)))] + Data(t)
    decreases |attributes|
  {
    if attributes == [] {
      assert Ending(attributes, t) == ">" + t;
      assert tag.attributes + Attributes(attributes) == tag.attributes;
    } else {
      var a, rest := attributes[0], attributes[1..];
      var next := tag.(attributes := tag.attributes + [Attribute(a.name, ValueOf(a))]);
      EndingCons(attributes, t);
      EndingSeparated(rest, t);
      assert a in attributes;
      ReadAttribute(a, Ending(rest, t), tag);
      assert With(tag, a.name, ValueOf(a)) == next;
      ReadAttributes(rest, t, next);
      AttributesOf(attributes);
      Assoc(tag.attributes, [Attribute(a.name, ValueOf(a))], Attributes(rest));
    }
  }

  lemma ReadTagEnd(e: string, tag: Tag)
    requires Separated(e)
    ensures TagName(e, tag) == Continue(e, tag)
  {
  }

  lemma ReadOpen(name: string, attributes: seq<Written>, t: string)
    requires WellNamed(Open(name, attributes))
    ensures Data("<" + (name + Ending(attributes, t))) == [StartTag(name, Attributes(attributes))] + Data(t)
  {
    var e := Ending(attributes, t);
    var tag := Tag("", [], false);
    EndingSeparated(attributes, t);
    assert ("<" + (name + e))[1..] == name + e && (name + e)[0] == name[0];
    ReadTagName(name, e, tag);
    assert "" + name == name;
    ReadTagEnd(e, Tag(name, [], false));
    ReadAttributes(attributes, t, Tag(name, [], false));
    assert [] + Attributes(attributes) == Attributes(attributes);
  }

  /** Of two attributes of one name the first is read. */
  lemma RepeatedNameIsDropped(name: string, attribute: string, v: string, w: string, t: string)
    requires NameText(name) && NameText(attribute)
    ensures Data("<" + (name + Ending([Written(attribute, Some(v)), Written(attribute, Some(w))], t)))
         == [StartTag(name, [Attribute(attribute, NullSafe(v))])] + Data(t)
  {
    var a, b := Written(attribute, Some(v)), Written(attribute, Some(w));
    var tag, one := Tag(name, [], false), Tag(name, [Attribute(attribute, NullSafe(v))], false);
    var e := Ending([a, b], t);
    EndingSeparated([a, b], t);
    assert ("<" + (name + e))[1..] == name + e && (name + e)[0] == name[0];
    ReadTagName(name, e, Tag("", [], false));
    assert "" + name == name;
    ReadTagEnd(e, tag);
    assert [a, b][1..] == [b] && [b][1..] == [];
    EndingCons([a, b], t);
    EndingCons([b], t);
    EndingSeparated([b], t);
    EndingSeparated([], t);
    ReadAttribute(a, Ending([b], t), tag);
    assert With(tag, attribute, NullSafe(v)) == one;
    ReadAttribute(b, Ending([], t), one);
    assert Attribute(attribute, NullSafe(v)) in one.attributes;
    assert With(one, attribute, NullSafe(w)) == one;
    assert Ending([], t) == ">" + t;
  }

  /** Tag names are read without case. */
  lemma {:induction false} ReadTagNameAnyCase(x: string, t: string, tag: Tag)
    requires All(IsLetter, x)
    ensures TagName(x + t, tag) == TagName(t, tag.(name := tag.name + Lower(x)))
    decreases |x|
  {
    if x == "" {
      assert x + t == t && tag.name + Lower(x) == tag.name;
    } else {
      assert IsLetter(x[0]) && (x + t)[1..] == x[1..] + t;
      ReadTagNameAnyCase(x[1..], t, tag.(name := tag.name + [ToLower(x[0])]));
      assert Lower(x) == [ToLower(x[0])] + Lower(x[1..]);
      Assoc(tag.name, [ToLower(x[0])], Lower(x[1..]));
    }
  }

  lemma ReadClose(name: string, t: string)
    requires NameText(name)
    ensures Data("</" + (name + (">" + t))) == [EndTag(name)] + Data(t)
  {
    var e := ">" + t;
    var u := "/" + (name + e);
    assert ("</" + (name + e))[1..] == u;
    assert u[1..] == name + e && u[1] == name[0];
    ReadTagName(name, e, Tag("", [], true));
    assert "" + name == name && e[1..] == t;
  }

  lemma WrittenOpen(a: string, b: string, c: string, t: string)
    ensures (a + b + c + ">") + t == a + (b + (c + (">" + t)))
  {
  }

  lemma ReadNode(n: Node, t: string)
    requires WellNamed(n)
    ensures Data(WriteNode(n) + t) == NodeTokens(n) + Data(t)
  {
    match n
    case Open(name, attributes) =>
      ReadOpen(name, attributes, t);
      WrittenOpen("<", name, WriteAttributes(attributes), t);
    case Close(name) =>
      ReadClose(name, t);
      WrittenOpen("</", name, "", t);
      assert "" + (">" + t) == ">" + t && "</" + name + "" == "</" + name;
    case Content(text) => ReadText(text, t);
  }

  /** Tokenizing written markup yields the tokens that were meant, whatever text
      and attribute values it carries. */
  lemma {:induction false} ReadWritten(nodes: seq<Node>)
    requires forall n | n in nodes :: WellNamed(n)
    ensures Data(Write(nodes)) == Meant(nodes)
  {
    if nodes != [] {
      ReadNode(nodes[0], Write(nodes[1..]));
      ReadWritten(nodes[1..]);
    }
  }

  lemma WriteCons(n: Node, rest: seq<Node>)
    ensures Write([n] + rest) == WriteNode(n) + Write(rest)
  {
    assert ([n] + rest)[1..] == rest;
  }

  lemma {:induction false} WriteConcat(a: seq<Node>, b: seq<Node>)
    ensures Write(a + b) == Write(a) + Write(b)
    decreases |a|
  {
    if a == [] {
      assert a + b == b;
    } else {
      var n, r := a[0], a[1..];
      calc {
        Write(a + b);
      == { assert a + b == [n] + (r + b); }
        Write([n] + (r + b));
      == { WriteCons(n, r + b); }
        WriteNode(n) + Write(r + b);
      == { WriteConcat(r, b); }
        WriteNode(n) + (Write(r) + Write(b));
      == { Assoc(WriteNode(n), Write(r), Write(b)); }
        WriteNode(n) + Write(r) + Write(b);
      }
    }
  }
}
