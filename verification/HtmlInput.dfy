/** From markup to a browser's tokens: newlines are normalised before tokenizing
    (section 13.2.3.5 of the HTML Standard). What is given back exactly. */
module HtmlInput {
  import opened Text
  import opened Html

  /** A carriage return becomes a newline, or vanishes in front of one. */
  function Newlines(s: string): string {
    if s == "" then ""
    else if s[0] != '\r' then [s[0]] + Newlines(s[1..])
    else if |s| > 1 && s[1] == '\n' then Newlines(s[1..])
    else ['\n'] + Newlines(s[1..])
  }

  /** The tokens a browser makes of a text. */
  function Tokens(s: string): seq<Token> { Data(Newlines(s)) }

  lemma {:induction false} NewlinesExactly(s: string)
    ensures '\r' !in Newlines(s) && (Newlines(s) == s <==> '\r' !in s)
  {
    if s != "" {
      NewlinesExactly(s[1..]);
      assert s == [s[0]] + s[1..];
    }
  }

  lemma {:induction false} NewlinesConcat(a: string, b: string)
    requires a == "" || b == "" || a[|a| - 1] != '\r' || b[0] != '\n'
    ensures Newlines(a + b) == Newlines(a) + Newlines(b)
  {
    if a == "" {
      assert a + b == b;
    } else {
      var c, rest := a[0], a[1..];
      NewlinesConcat(rest, b);
      assert a == [c] + rest;
      Assoc([c], rest, b);
      NewlinesCons(c, rest);
      NewlinesCons(c, rest + b);
      if c != '\r' {
        Assoc([c], Newlines(rest), Newlines(b));
      } else {
        assert rest != "" ==> (rest + b)[0] == rest[0];
        Assoc(['\n'], Newlines(rest), Newlines(b));
      }
    }
  }

  lemma NewlinesCons(c: char, s: string)
    ensures Newlines([c] + s) ==
            if c != '\r' then [c] + Newlines(s) else if s != "" && s[0] == '\n' then Newlines(s) else ['\n'] + Newlines(s)
  {
    assert ([c] + s)[1..] == s;
  }

  lemma EscapeFront(x: string)
    ensures x == "" <==> Escape(x) == ""
    ensures x != "" ==> (Escape(x)[0] == '\n' <==> x[0] == '\n')
    ensures x != "" && x[0] != '\r' ==> Newlines(EscapeChar(x[0])) == EscapeChar(x[0])
    ensures x != "" && x[0] != '\r' ==> EscapeChar(x[0])[|EscapeChar(x[0])| - 1] != '\r'
  {
    if x != "" && x[0] != '\r' {
      NewlinesExactly(EscapeChar(x[0]));
    }
  }

  /** Normalising newlines and escaping do not get in each other's way. */
  lemma {:induction false} NewlinesEscape(x: string)
    ensures Newlines(Escape(x)) == Escape(Newlines(x))
  {
    if x != "" {
      var rest := x[1..];
      NewlinesEscape(rest);
      EscapeFront(x);
      EscapeFront(rest);
      if x[0] != '\r' {
        NewlinesConcat(EscapeChar(x[0]), Escape(rest));
        EscapeCons(x[0], Newlines(rest));
      } else {
        assert Escape(x) == ['\r'] + Escape(rest);
        assert Escape(x)[1..] == Escape(rest);
        EscapeCons('\n', Newlines(rest));
      }
    }
  }

  lemma EscapeCons(c: char, t: string)
    ensures Escape([c] + t) == EscapeChar(c) + Escape(t)
  {
    assert ([c] + t)[1..] == t;
  }

  // ---- markup with its newlines normalised ---------------------------------------------------

  function NormalAttributes(attributes: seq<Written>): seq<Written> {
    seq(|attributes|, i requires 0 <= i < |attributes| => Normal(attributes[i]))
  }

  function Normal(a: Written): Written {
    a.(value := match a.value case None => None case Some(v) => Some(Newlines(v)))
  }

  function NormalNode(n: Node): Node {
    match n
    case Open(name, attributes) => Open(name, NormalAttributes(attributes))
    case Close(name) => n
    case Content(text) => Content(Newlines(text))
  }

  function NormalNodes(nodes: seq<Node>): seq<Node> {
    if nodes == [] then [] else [NormalNode(nodes[0])] + NormalNodes(nodes[1..])
  }

  /** No two texts side by side, between which a newline could be torn apart. */
  predicate Fenced(nodes: seq<Node>) {
    forall i | 0 < i < |nodes| :: !(nodes[i - 1].Content? && nodes[i].Content?)
  }

  lemma NoCr(s: string)
    requires '\r' !in s
    ensures Newlines(s) == s
  {
    NewlinesExactly(s);
  }

  lemma NameHasNoCr(name: string)
    requires NameText(name)
    ensures '\r' !in name
  {
  }

  lemma NewlinesValue(a: Written)
    requires NameText(a.name)
    ensures Newlines(" " + WriteAttribute(a)) == " " + WriteAttribute(Normal(a))
    ensures WriteAttribute(a) != "" && WriteAttribute(a)[|WriteAttribute(a)| - 1] != '\r'
  {
    NameHasNoCr(a.name);
    match a.value
    case None =>
      assert a.name + "" == a.name;
      NoCr(" " + a.name);
    case Some(v) =>
      var front := " " + a.name + "=\"";
      NoCr(front);
      NoCr("\"");
      NewlinesConcat(front, Escape(v));
      NewlinesConcat(front + Escape(v), "\"");
      NewlinesEscape(v);
      Flat(a.name, Escape(v));
      Flat(a.name, Escape(Newlines(v)));
  }

  lemma Flat(name: string, v: string)
    ensures " " + (name + ("=\"" + v + "\"")) == " " + name + "=\"" + v + "\""
  {
  }

  lemma {:induction false} NewlinesAttributes(attributes: seq<Written>)
    requires forall a | a in attributes :: NameText(a.name)
    ensures Newlines(WriteAttributes(attributes)) == WriteAttributes(NormalAttributes(attributes))
  {
    if attributes != [] {
      var a, rest := attributes[0], attributes[1..];
      assert a in attributes;
      NewlinesAttributes(rest);
      NewlinesValue(a);
      NewlinesConcat(" " + WriteAttribute(a), WriteAttributes(rest));
      assert NormalAttributes(attributes)[1..] == NormalAttributes(rest);
    }
  }

  lemma NewlinesTag(name: string, attributes: seq<Written>)
    requires NameText(name) && forall a | a in attributes :: NameText(a.name)
    ensures Newlines("<" + name + WriteAttributes(attributes) + ">") == "<" + name + WriteAttributes(NormalAttributes(attributes)) + ">"
  {
    var front := "<" + name;
    NameHasNoCr(name);
    NoCr(front);
    NoCr(">");
    NewlinesAttributes(attributes);
    NewlinesConcat(front, WriteAttributes(attributes));
    NewlinesConcat(front + WriteAttributes(attributes), ">");
  }

  lemma NewlinesNode(n: Node)
    requires WellNamed(n)
    ensures Newlines(WriteNode(n)) == WriteNode(NormalNode(n)) && WellNamed(NormalNode(n))
  {
    match n
    case Open(name, attributes) => NewlinesTag(name, attributes);
    case Close(name) =>
      NameHasNoCr(name);
      NoCr("</" + name + ">");
    case Content(text) => NewlinesEscape(text);
  }

  lemma TagEnds(n: Node)
    requires !n.Content?
    ensures WriteNode(n) != "" && WriteNode(n)[0] == '<' && WriteNode(n)[|WriteNode(n)| - 1] == '>'
  {
  }

  /** Normalising a page normalises each of its texts and values by itself. */
  lemma {:induction false} NewlinesWrite(nodes: seq<Node>)
    requires Fenced(nodes) && forall n | n in nodes :: WellNamed(n)
    ensures Newlines(Write(nodes)) == Write(NormalNodes(nodes))
    ensures forall n | n in NormalNodes(nodes) :: WellNamed(n)
  {
    if nodes != [] {
      var n, rest := nodes[0], nodes[1..];
      assert forall i | 0 < i < |rest| :: rest[i - 1] == nodes[i] && rest[i] == nodes[i + 1];
      NewlinesWrite(rest);
      NewlinesNode(n);
      if rest != [] {
        if n.Content? { TagEnds(rest[0]); } else { TagEnds(n); }
      }
      NewlinesConcat(WriteNode(n), Write(rest));
      WriteCons(NormalNode(n), NormalNodes(rest));
    }
  }

  /** A browser reads a page as the tokens meant, newlines normalised. */
  lemma PageIsRead(nodes: seq<Node>)
    requires Fenced(nodes) && forall n | n in nodes :: WellNamed(n)
    ensures Tokens(Write(nodes)) == Meant(NormalNodes(nodes))
  {
    NewlinesWrite(nodes);
    ReadWritten(NormalNodes(nodes));
  }

  // ---- when everything is given back -----------------------------------------------------------

  /** An attribute value as a browser reads it. */
  function AsRead(v: string): string { NullSafe(Newlines(v)) }

  predicate Keepable(v: string) { '\0' !in v && '\r' !in v }

  lemma AsReadExactly(v: string)
    ensures '\0' !in AsRead(v) && '\r' !in AsRead(v)
    ensures AsRead(v) == v <==> Keepable(v)
  {
    NewlinesExactly(v);
    NullSafeExactly(v);
    assert forall i | 0 <= i < |AsRead(v)| :: AsRead(v)[i] == Newlines(v)[i] || AsRead(v)[i] == REPLACEMENT;
    assert '\0' !in AsRead(v);
  }

  /** The tokens with every text and attribute value just as it was given. */
  function Intended(nodes: seq<Node>): seq<Token> {
    if nodes == [] then [] else NodeIntended(nodes[0]) + Intended(nodes[1..])
  }

  function NodeIntended(n: Node): seq<Token> {
    match n
    case Open(name, attributes) => [StartTag(name, AsGiven(attributes))]
    case Close(name) => [EndTag(name)]
    case Content(text) => Characters(text)
  }

  function AsGiven(attributes: seq<Written>): seq<Attribute> {
    seq(|attributes|, i requires 0 <= i < |attributes| =>
      Attribute(attributes[i].name, match attributes[i].value case None => "" case Some(v) => v))
  }

  predicate Kept(n: Node) {
    match n
    case Open(_, attributes) => forall a | a in attributes && a.value.Some? :: Keepable(a.value.value)
    case Close(_) => true
    case Content(text) => '\r' !in text
  }

  predicate AllKept(nodes: seq<Node>) { forall n | n in nodes :: Kept(n) }

  /** A token without the characters that no token of a browser has. */
  predicate Clean(t: Token) {
    match t
    case StartTag(_, attributes) => forall a | a in attributes :: Keepable(a.value)
    case Character(c) => c != '\r'
    case _ => true
  }

  lemma TokensAreClean(n: Node)
    ensures forall t | t in NodeTokens(NormalNode(n)) :: Clean(t)
  {
    match n
    case Open(name, attributes) =>
      forall a | a in Attributes(NormalAttributes(attributes)) ensures Keepable(a.value) {
        var i :| 0 <= i < |attributes| && Attributes(NormalAttributes(attributes))[i] == a;
        if attributes[i].value.Some? { AsReadExactly(attributes[i].value.value); }
      }
    case Close(_) =>
    case Content(text) => NewlinesExactly(text);
  }

  lemma CleanIsKept(n: Node)
    requires forall t | t in NodeIntended(n) :: Clean(t)
    ensures Kept(n)
  {
    match n
    case Open(name, attributes) =>
      assert Clean(NodeIntended(n)[0]);
      forall a | a in attributes && a.value.Some? ensures Keepable(a.value.value) {
        var i :| 0 <= i < |attributes| && attributes[i] == a;
        assert AsGiven(attributes)[i] in AsGiven(attributes);
      }
    case Close(_) =>
    case Content(text) =>
      forall i | 0 <= i < |text| ensures text[i] != '\r' { assert Clean(Characters(text)[i]); }
  }

  lemma {:induction false} AllTokensAreClean(nodes: seq<Node>)
    ensures forall t | t in Meant(NormalNodes(nodes)) :: Clean(t)
  {
    if nodes != [] {
      TokensAreClean(nodes[0]);
      AllTokensAreClean(nodes[1..]);
      MeantCons(NormalNode(nodes[0]), NormalNodes(nodes[1..]));
    }
  }

  lemma MeantCons(n: Node, rest: seq<Node>)
    ensures Meant([n] + rest) == NodeTokens(n) + Meant(rest)
  {
    assert ([n] + rest)[1..] == rest;
  }

  lemma {:induction false} CleanAreKept(nodes: seq<Node>)
    requires forall t | t in Intended(nodes) :: Clean(t)
    ensures AllKept(nodes)
  {
    if nodes != [] {
      assert forall t | t in NodeIntended(nodes[0]) :: t in Intended(nodes);
      assert forall t | t in Intended(nodes[1..]) :: t in Intended(nodes);
      CleanIsKept(nodes[0]);
      CleanAreKept(nodes[1..]);
    }
  }

  lemma KeptIsIntended(n: Node)
    requires Kept(n)
    ensures NodeTokens(NormalNode(n)) == NodeIntended(n)
  {
    match n
    case Open(name, attributes) =>
      forall i | 0 <= i < |attributes|
        ensures Attributes(NormalAttributes(attributes))[i] == AsGiven(attributes)[i]
      {
        assert attributes[i] in attributes;
        if attributes[i].value.Some? { AsReadExactly(attributes[i].value.value); }
      }
      assert Attributes(NormalAttributes(attributes)) == AsGiven(attributes);
    case Close(_) =>
    case Content(text) => NewlinesExactly(text);
  }

  lemma {:induction false} KeptAreIntended(nodes: seq<Node>)
    requires AllKept(nodes)
    ensures Meant(NormalNodes(nodes)) == Intended(nodes)
  {
    if nodes != [] {
      assert nodes[0] in nodes;
      KeptIsIntended(nodes[0]);
      KeptAreIntended(nodes[1..]);
      MeantCons(NormalNode(nodes[0]), NormalNodes(nodes[1..]));
    }
  }

  /** A browser gives a page back just as it was meant, if and only if no text has
      a carriage return, and no attribute value one or a null character. */
  lemma GivenBackExactly(nodes: seq<Node>)
    requires Fenced(nodes) && forall n | n in nodes :: WellNamed(n)
    ensures Tokens(Write(nodes)) == Intended(nodes) <==> AllKept(nodes)
  {
    PageIsRead(nodes);
    if AllKept(nodes) { KeptAreIntended(nodes); }
    if Meant(NormalNodes(nodes)) == Intended(nodes) {
      AllTokensAreClean(nodes);
      CleanAreKept(nodes);
    }
  }
}
