/** `serde_json::to_vec`: the compact printer with the escapes of section 7 of
    RFC 8259, and a reader for what it prints. The text is a sequence of Unicode
    scalar values; its UTF-8 encoding, which is injective, is not spelled out. */
module JsonText {
  import opened Text
  import opened Json

  // ---- characters and strings ---------------------------------------------------

  const HEX := "0123456789abcdef"

  function EscapeChar(c: char): (r: string)
    ensures r != ""
  {
    if c == '\"' then "\\\""
    else if c == '\\' then "\\\\"
    else if c as int == 8 then "\\b"
    else if c as int == 12 then "\\f"
    else if c == '\n' then "\\n"
    else if c == '\r' then "\\r"
    else if c == '\t' then "\\t"
    else if c as int < 0x20 then "\\u00" + [HEX[c as int / 16], HEX[c as int % 16]]
    else [c]
  }

  function PrintChars(s: string): string {
    if s == "" then "" else EscapeChar(s[0]) + PrintChars(s[1..])
  }

  function Quoted(s: string): string { "\"" + PrintChars(s) + "\"" }

  function HexValue(c: char): Option<nat> {
    if '0' <= c <= '9' then Some(c as int - '0' as int)
    else if 'a' <= c <= 'f' then Some(c as int - 'a' as int + 10)
    else None
  }

  /** One possibly escaped character at the front of `s`, and what follows it. */
  function ReadChar(s: string): (r: Option<(char, string)>)
    ensures r.Some? ==> |r.value.1| < |s|
  {
    if s == "" || s[0] == '\"' || s[0] as int < 0x20 then None
    else if s[0] != '\\' then Some((s[0], s[1..]))
    else if |s| < 2 then None
    else match s[1]
      case '\"' => Some(('\"', s[2..]))
      case '\\' => Some(('\\', s[2..]))
      case 'b' => Some((8 as char, s[2..]))
      case 'f' => Some((12 as char, s[2..]))
      case 'n' => Some(('\n', s[2..]))
      case 'r' => Some(('\r', s[2..]))
      case 't' => Some(('\t', s[2..]))
      case 'u' =>
        if |s| >= 6 && s[2] == '0' && s[3] == '0' && HexValue(s[4]).Some? && HexValue(s[5]).Some? then
          Some(((HexValue(s[4]).value * 16 + HexValue(s[5]).value) as char, s[6..]))
        else None
      case _ => None
  }

  /** The characters up to the closing quote, and what follows it. */
  function ReadChars(s: string): (r: Option<(string, string)>)
    ensures r.Some? ==> |r.value.1| < |s|
    decreases |s|
  {
    if s == "" then None
    else if s[0] == '\"' then Some(("", s[1..]))
    else match ReadChar(s)
      case None => None
      case Some((c, rest)) =>
        match ReadChars(rest)
        case None => None
        case Some((cs, rest')) => Some(([c] + cs, rest'))
  }

  lemma HexRoundTrip(n: nat)
    requires n < 16
    ensures HexValue(HEX[n]) == Some(n)
  {
    if n < 10 { assert HEX[n] == "0123456789"[n]; }
  }

  lemma ReadEscapedChar(c: char, t: string)
    ensures var s := EscapeChar(c) + t; s != "" && s[0] != '\"' && ReadChar(s) == Some((c, t))
  {
    var e := EscapeChar(c);
    var s := e + t;
    assert s[|e|..] == t;
    if c as int < 0x20 && |e| == 6 {
      HexRoundTrip(c as int / 16);
      HexRoundTrip(c as int % 16);
    }
  }

  /** No other spelling of a character is shorter: the two-character escapes are
      used wherever there is one. */
  lemma EscapesAreShortest(c: char, spelling: string)
    requires ReadChar(spelling) == Some((c, ""))
    ensures |EscapeChar(c)| <= |spelling|
  {
  }

  lemma {:induction false} ReadPrintedChars(x: string, t: string)
    ensures ReadChars(PrintChars(x) + "\"" + t) == Some((x, t))
  {
    if x == "" {
      assert PrintChars(x) + "\"" + t == "\"" + t;
    } else {
      var u := PrintChars(x[1..]) + "\"" + t;
      ReadEscapedChar(x[0], u);
      ReadPrintedChars(x[1..], t);
      assert PrintChars(x) + "\"" + t == EscapeChar(x[0]) + u;
      assert x == [x[0]] + x[1..];
    }
  }

  // ---- integers -----------------------------------------------------------------

  function PrintNat(n: nat): (r: string)
    ensures r != "" && forall c | c in r :: IsDigit(c)
  {
    var d := ('0' as int + n % 10) as char;
    if n < 10 then [d] else PrintNat(n / 10) + [d]
  }

  function PrintInt(n: int): string { if n < 0 then "-" + PrintNat(-n) else PrintNat(n) }

  /** The digits at the front of `s`, appended to the number `acc`. */
  function ReadDigits(s: string, acc: nat): (r: (nat, string))
    ensures |r.1| <= |s|
  {
    if s != "" && IsDigit(s[0]) then ReadDigits(s[1..], acc * 10 + (s[0] as int - '0' as int)) else (acc, s)
  }

  lemma {:induction false} ReadPrintedNat(n: nat, t: string)
    ensures ReadDigits(PrintNat(n) + t, 0) == ReadDigits(t, n)
    decreases n
  {
    var d := ('0' as int + n % 10) as char;
    assert ([d] + t)[1..] == t;
    if n >= 10 {
      ReadPrintedNat(n / 10, [d] + t);
      assert PrintNat(n) + t == PrintNat(n / 10) + ([d] + t);
    }
  }

  // ---- values -------------------------------------------------------------------

  function Print(v: Json): string {
    match v
    case Null => "null"
    case Bool(b) => if b then "true" else "false"
    case Num(n) => PrintInt(n)
    case Str(s) => Quoted(s)
    case Arr(xs) => "[" + PrintItems(xs, true)
    case Obj(fs) => "{" + PrintFields(fs, true)
  }

  function PrintItems(xs: List<Json>, first: bool): string {
    match xs
    case Nil => "]"
    case Cons(x, rest) => Comma(first) + (Print(x) + PrintItems(rest, false))
  }

  function PrintFields(fs: List<Field>, first: bool): string {
    match fs
    case Nil => "}"
    case Cons(f, rest) => Comma(first) + (Quoted(f.key) + (":" + (Print(f.value) + PrintFields(rest, false))))
  }

  function Comma(first: bool): string { if first then "" else "," }

  function ReadWord(s: string, word: string, v: Json): (r: Option<(Json, string)>)
    requires word != ""
    ensures r.Some? ==> |r.value.1| < |s|
  {
    if word <= s then Some((v, s[|word|..])) else None
  }

  lemma ReadPrintedWord(word: string, v: Json, t: string)
    requires word != ""
    ensures ReadWord(word + t, word, v) == Some((v, t))
    ensures (word + t)[0] == word[0]
  {
    assert (word + t)[|word|..] == t;
  }

  /** A value at the front of `s`, and what follows it. */
  function Read(s: string): (r: Option<(Json, string)>)
    ensures r.Some? ==> |r.value.1| < |s|
    decreases |s|, 0
  {
    if s == "" then None
    else if s[0] == 'n' then ReadWord(s, "null", Null)
    else if s[0] == 't' then ReadWord(s, "true", Bool(true))
    else if s[0] == 'f' then ReadWord(s, "false", Bool(false))
    else if s[0] == '\"' then
      match ReadChars(s[1..])
      case None => None
      case Some((x, rest)) => Some((Str(x), rest))
    else if s[0] == '[' then
      match ReadItems(s[1..], true)
      case None => None
      case Some((xs, rest)) => Some((Arr(xs), rest))
    else if s[0] == '{' then
      match ReadFields(s[1..], true)
      case None => None
      case Some((fs, rest)) => Some((Obj(fs), rest))
    else if s[0] == '-' then
      if |s| >= 2 && IsDigit(s[1]) then
        var (n, rest) := ReadDigits(s[1..], 0); Some((Num(-(n as int)), rest))
      else None
    else if IsDigit(s[0]) then
      var (n, rest) := ReadDigits(s[1..], s[0] as int - '0' as int); Some((Num(n), rest))
    else None
  }

  function ReadItems(s: string, first: bool): (r: Option<(List<Json>, string)>)
    ensures r.Some? ==> |r.value.1| < |s|
    decreases |s|, 1
  {
    if s == "" then None
    else if s[0] == ']' then Some((Nil, s[1..]))
    else if !first && s[0] != ',' then None
    else match Read(if first then s else s[1..])
      case None => None
      case Some((x, rest)) =>
        match ReadItems(rest, false)
        case None => None
        case Some((xs, rest')) => Some((Cons(x, xs), rest'))
  }

  function ReadFields(s: string, first: bool): (r: Option<(List<Field>, string)>)
    ensures r.Some? ==> |r.value.1| < |s|
    decreases |s|, 1
  {
    if s == "" then None
    else if s[0] == '}' then Some((Nil, s[1..]))
    else if !first && s[0] != ',' then None
    else match ReadField(if first then s else s[1..])
      case None => None
      case Some((f, rest)) =>
        match ReadFields(rest, false)
        case None => None
        case Some((fs, rest')) => Some((Cons(f, fs), rest'))
  }

  function ReadField(s: string): (r: Option<(Field, string)>)
    ensures r.Some? ==> |r.value.1| < |s|
    decreases |s|, 0
  {
    if s == "" || s[0] != '\"' then None
    else match ReadChars(s[1..])
      case None => None
      case Some((key, rest)) =>
        if rest == "" || rest[0] != ':' then None
        else match Read(rest[1..])
          case None => None
          case Some((v, rest')) => Some((Field(key, v), rest'))
  }

  // ---- the reader undoes the printer ----------------------------------------------

  /** What may follow a value without being taken for part of it. */
  predicate Delimited(t: string) { t == "" || !IsDigit(t[0]) }

  lemma QuotedFront(x: string, t: string)
    ensures var s := Quoted(x) + t; s[0] == '\"' && ReadChars(s[1..]) == Some((x, t))
  {
    ReadPrintedChars(x, t);
    assert (Quoted(x) + t)[1..] == PrintChars(x) + "\"" + t;
  }

  lemma ReadPrintedInt(n: int, t: string)
    requires Delimited(t)
    ensures Read(PrintInt(n) + t) == Some((Num(n), t))
  {
    var p := PrintInt(n);
    var s := p + t;
    assert s[0] == p[0];
    if n < 0 {
      var m: nat := -n;
      assert s[1..] == PrintNat(m) + t;
      assert s[1] == PrintNat(m)[0] && PrintNat(m)[0] in PrintNat(m);
      ReadPrintedNat(m, t);
    } else {
      assert p[0] in p;
      ReadPrintedNat(n, t);
      assert ReadDigits(s, 0) == ReadDigits(s[1..], s[0] as int - '0' as int);
    }
  }

  lemma ValueStart(v: Json)
    ensures Print(v) != "" && Print(v)[0] != ']' && Print(v)[0] != '}' && Print(v)[0] != ','
  {
    if v.Num? { assert PrintInt(v.n)[0] == '-' || PrintInt(v.n)[0] in PrintInt(v.n); }
  }

  lemma {:induction false} ReadPrinted(v: Json, t: string)
    requires Delimited(t)
    ensures Read(Print(v) + t) == Some((v, t))
    decreases v
  {
    match v
    case Null => ReadPrintedWord("null", Null, t);
    case Bool(b) => ReadPrintedWord(if b then "true" else "false", v, t);
    case Num(n) => ReadPrintedInt(n, t);
    case Str(x) => ReadQuoted(x, t);
    case Arr(xs) =>
      ReadPrintedItems(xs, true, t);
      ReadBracket(PrintItems(xs, true) + t, xs, t);
      Assoc("[", PrintItems(xs, true), t);
    case Obj(fs) =>
      ReadPrintedFields(fs, true, t);
      ReadBrace(PrintFields(fs, true) + t, fs, t);
      Assoc("{", PrintFields(fs, true), t);
  }

  lemma ReadBracket(s: string, xs: List<Json>, t: string)
    requires ReadItems(s, true) == Some((xs, t))
    ensures Read("[" + s) == Some((Arr(xs), t))
  {
    assert ("[" + s)[1..] == s;
  }

  lemma ReadBrace(s: string, fs: List<Field>, t: string)
    requires ReadFields(s, true) == Some((fs, t))
    ensures Read("{" + s) == Some((Obj(fs), t))
  {
    assert ("{" + s)[1..] == s;
  }

  lemma ReadQuoted(x: string, t: string)
    ensures Read(Quoted(x) + t) == Some((Str(x), t))
  {
    QuotedFront(x, t);
  }

  lemma {:induction false} ReadPrintedItems(xs: List<Json>, first: bool, t: string)
    ensures ReadItems(PrintItems(xs, first) + t, first) == Some((xs, t))
    decreases xs
  {
    match xs
    case Nil =>
    case Cons(x, rest) =>
      var u := PrintItems(rest, false) + t;
      ReadPrinted(x, u);
      ReadPrintedItems(rest, false, t);
      ValueStart(x);
      assert PrintItems(xs, first) + t == Comma(first) + (Print(x) + u);
      ReadItemsStep(Print(x) + u, first, x, u, rest, t);
  }

  lemma ReadItemsStep(s: string, first: bool, x: Json, u: string, xs: List<Json>, t: string)
    requires s != "" && s[0] != ']' && s[0] != ','
    requires Read(s) == Some((x, u)) && ReadItems(u, false) == Some((xs, t))
    ensures ReadItems(Comma(first) + s, first) == Some((Cons(x, xs), t))
  {
    if first {
      assert Comma(first) + s == s;
    } else {
      assert (Comma(first) + s)[1..] == s;
    }
  }

  lemma {:induction false} ReadPrintedFields(fs: List<Field>, first: bool, t: string)
    ensures ReadFields(PrintFields(fs, first) + t, first) == Some((fs, t))
    decreases fs
  {
    match fs
    case Nil =>
    case Cons(f, rest) =>
      var u := PrintFields(rest, false) + t;
      var s := Quoted(f.key) + (":" + (Print(f.value) + u));
      ReadPrinted(f.value, u);
      ReadPrintedFields(rest, false, t);
      ReadPrintedField(f, u);
      FieldsFront(f, rest, first, t);
      ReadFieldsStep(s, first, f, u, rest, t);
  }

  lemma FieldsFront(f: Field, rest: List<Field>, first: bool, t: string)
    ensures PrintFields(Cons(f, rest), first) + t
         == Comma(first) + (Quoted(f.key) + (":" + (Print(f.value) + (PrintFields(rest, false) + t))))
  {
    var v, r, q, c := Print(f.value), PrintFields(rest, false), Quoted(f.key), Comma(first);
    assert (c + (q + (":" + (v + r)))) + t == c + (q + (":" + (v + (r + t))));
  }

  lemma ReadPrintedField(f: Field, u: string)
    requires Read(Print(f.value) + u) == Some((f.value, u))
    ensures ReadField(Quoted(f.key) + (":" + (Print(f.value) + u))) == Some((f, u))
  {
    var w := ":" + (Print(f.value) + u);
    QuotedFront(f.key, w);
    assert w[1..] == Print(f.value) + u;
  }

  lemma ReadFieldsStep(s: string, first: bool, f: Field, u: string, fs: List<Field>, t: string)
    requires s != "" && s[0] == '\"'
    requires ReadField(s) == Some((f, u)) && ReadFields(u, false) == Some((fs, t))
    ensures ReadFields(Comma(first) + s, first) == Some((Cons(f, fs), t))
  {
    if first {
      assert Comma(first) + s == s;
    } else {
      assert (Comma(first) + s)[1..] == s;
    }
  }

  /** The printer has a left inverse, so it is injective. */
  lemma PrintIsInjective(a: Json, b: Json)
    requires Print(a) == Print(b)
    ensures a == b
  {
    ReadPrinted(a, "");
    ReadPrinted(b, "");
    assert Print(a) + "" == Print(b) + "";
  }
}
