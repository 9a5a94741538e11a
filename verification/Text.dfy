/** The string operations of Rust's standard library that the modelled code is
    written with: trimming, splitting and searching. Strings are sequences of
    Unicode scalar values. */
module Text {

  datatype Option<+T> = None | Some(value: T)

  datatype Result<+T, +E> = Ok(value: T) | Err(error: E)

  /** `char::is_whitespace`: the Unicode White_Space property. */
  predicate IsWhite(c: char) {
    var n := c as int;
    || 9 <= n <= 13 || n == 0x20 || n == 0x85 || n == 0xA0 || n == 0x1680
    || 0x2000 <= n <= 0x200A || n == 0x2028 || n == 0x2029
    || n == 0x202F || n == 0x205F || n == 0x3000
  }

  /** `HeaderValue::to_str` gives a text for visible ASCII, blanks and tabs only. */
  predicate Visible(h: string) { forall i | 0 <= i < |h| :: 32 <= h[i] as int < 127 || h[i] == '\t' }

  /** The 25 characters that have the property. */
  lemma IsWhiteExactly(c: char)
    ensures IsWhite(c) <==>
            c as int in {0x9, 0xA, 0xB, 0xC, 0xD, 0x20, 0x85, 0xA0, 0x1680, 0x2000, 0x2001, 0x2002, 0x2003, 0x2004, 0x2005,
                         0x2006, 0x2007, 0x2008, 0x2009, 0x200A, 0x2028, 0x2029, 0x202F, 0x205F, 0x3000}
  {
  }

  /** From the blank to the tilde, and the tab. */
  lemma VisibleExactly(h: string)
    ensures Visible(h) <==> forall c | c in h :: c == '\t' || ' ' <= c <= '~'
  {
    assert forall i | 0 <= i < |h| :: h[i] in h;
    if Visible(h) {
      forall c | c in h ensures c == '\t' || ' ' <= c <= '~' { var i :| 0 <= i < |h| && h[i] == c; }
    }
  }

  predicate IsDigit(c: char) { '0' <= c <= '9' }

  predicate IsLetter(c: char) { 'a' <= c <= 'z' || 'A' <= c <= 'Z' }

  predicate All(p: char -> bool, s: string) { forall i | 0 <= i < |s| :: p(s[i]) }

  function ToLower(c: char): char {
    if 'A' <= c <= 'Z' then (c as int + 32) as char else c
  }

  function Lower(s: string): (r: string)
    ensures |r| == |s| && forall i | 0 <= i < |s| :: r[i] == ToLower(s[i])
  {
    seq(|s|, i requires 0 <= i < |s| => ToLower(s[i]))
  }

  lemma Assoc<T>(a: seq<T>, b: seq<T>, c: seq<T>)
    ensures (a + b) + c == a + (b + c)
  {
  }

  // ---- trimming --------------------------------------------------------------

  function TrimStartBy(p: char -> bool, s: string): string {
    if s != "" && p(s[0]) then TrimStartBy(p, s[1..]) else s
  }

  function TrimEndBy(p: char -> bool, s: string): string {
    if s != "" && p(s[|s| - 1]) then TrimEndBy(p, s[..|s| - 1]) else s
  }

  function TrimBy(p: char -> bool, s: string): string { TrimEndBy(p, TrimStartBy(p, s)) }

  function Trim(s: string): string { TrimBy(IsWhite, s) }

  /** A string that trimming by `p` leaves alone. */
  predicate Bare(p: char -> bool, s: string) {
    s == "" || (!p(s[0]) && !p(s[|s| - 1]))
  }

  lemma {:induction false} TrimStartDrops(p: char -> bool, a: string, s: string)
    requires All(p, a)
    ensures TrimStartBy(p, a + s) == TrimStartBy(p, s)
  {
    if a == "" {
      assert a + s == s;
    } else {
      assert (a + s)[1..] == a[1..] + s;
      TrimStartDrops(p, a[1..], s);
    }
  }

  lemma {:induction false} TrimEndDrops(p: char -> bool, s: string, b: string)
    requires All(p, b)
    ensures TrimEndBy(p, s + b) == TrimEndBy(p, s)
  {
    if b == "" {
      assert s + b == s;
    } else {
      assert (s + b)[..|s + b| - 1] == s + b[..|b| - 1];
      TrimEndDrops(p, s, b[..|b| - 1]);
    }
  }

  /** Trimming finds the one bare core between two borders of `p` characters. */
  lemma TrimCore(p: char -> bool, a: string, s: string, b: string)
    requires All(p, a) && All(p, b) && Bare(p, s)
    ensures TrimBy(p, a + s + b) == s
  {
    assert a + s + b == a + (s + b);
    TrimStartDrops(p, a, s + b);
    if s == "" {
      assert s + b == b + "" && s + b == b;
      TrimStartDrops(p, b, "");
    } else {
      TrimEndDrops(p, s, b);
    }
  }

  lemma {:induction false} TrimStartSplits(p: char -> bool, s: string) returns (a: string)
    ensures s == a + TrimStartBy(p, s) && All(p, a)
    ensures var r := TrimStartBy(p, s); r == "" || !p(r[0])
  {
    if s != "" && p(s[0]) {
      var a' := TrimStartSplits(p, s[1..]);
      a := [s[0]] + a';
      assert s == [s[0]] + s[1..];
    } else {
      a := "";
    }
  }

  lemma {:induction false} TrimEndSplits(p: char -> bool, s: string) returns (b: string)
    ensures s == TrimEndBy(p, s) + b && All(p, b)
    ensures var r := TrimEndBy(p, s); r == "" || !p(r[|r| - 1])
  {
    if s != "" && p(s[|s| - 1]) {
      var b' := TrimEndSplits(p, s[..|s| - 1]);
      b := b' + [s[|s| - 1]];
      assert s == s[..|s| - 1] + [s[|s| - 1]];
    } else {
      b := "";
    }
  }

  /** Every string is a bare core between two borders. */
  lemma TrimSplits(p: char -> bool, s: string) returns (a: string, b: string)
    ensures s == a + TrimBy(p, s) + b && All(p, a) && All(p, b) && Bare(p, TrimBy(p, s))
  {
    a := TrimStartSplits(p, s);
    b := TrimEndSplits(p, TrimStartBy(p, s));
    var m, r := TrimStartBy(p, s), TrimBy(p, s);
    assert m == r + b;
    if r != "" { assert r[0] == m[0]; }
  }

  /** Trimming brings in no character. */
  lemma TrimAvoids(p: char -> bool, s: string, c: char)
    requires c !in s
    ensures c !in TrimBy(p, s)
  {
    var a, b := TrimSplits(p, s);
    var t := TrimBy(p, s);
    forall i | 0 <= i < |t| ensures t[i] != c { assert t[i] == s[|a| + i]; }
  }

  // ---- searching and splitting -------------------------------------------------

  /** The first position of `c`, or the length when it does not occur. */
  function IndexOf(s: string, c: char): (i: nat)
    ensures i <= |s| && c !in s[..i] && (i < |s| ==> s[i] == c)
  {
    if s == "" || s[0] == c then 0 else
      var j := IndexOf(s[1..], c);
      assert s[..j + 1] == [s[0]] + s[1..][..j];
      j + 1
  }

  lemma IndexOfFirst(x: string, c: char, t: string)
    requires c !in x
    ensures IndexOf(x + [c] + t, c) == |x|
  {
    var s := x + [c] + t;
    var i := IndexOf(s, c);
    assert s[|x|] == c && forall j | 0 <= j < |x| :: s[j] == x[j];
    assert forall j | 0 <= j < i :: s[j] == s[..i][j];
  }

  /** `str::split_once`. */
  function SplitOnce(s: string, c: char): Option<(string, string)> {
    var i := IndexOf(s, c);
    if i < |s| then Some((s[..i], s[i + 1..])) else None
  }

  lemma SplitOnceAt(x: string, c: char, t: string)
    requires c !in x
    ensures SplitOnce(x + [c] + t, c) == Some((x, t))
  {
    IndexOfFirst(x, c, t);
    var s := x + [c] + t;
    assert s[..|x|] == x && s[|x| + 1..] == t;
  }

  lemma SplitOnceNone(s: string, c: char)
    requires c !in s
    ensures SplitOnce(s, c) == None
  {
  }

  /** Nor does splitting, and the first half has no separator. */
  lemma SplitOnceAvoids(s: string, c: char, d: char)
    requires SplitOnce(s, c).Some? && d !in s
    ensures var (x, t) := SplitOnce(s, c).value; c !in x && d !in x && d !in t
  {
  }

  /** `str::split`: the pieces between the separators, never an empty list. */
  function Split(s: string, c: char): (r: seq<string>)
    ensures |r| >= 1 && forall i | 0 <= i < |r| :: c !in r[i]
    decreases |s|
  {
    var i := IndexOf(s, c);
    if i == |s| then assert s[..i] == s; [s] else [s[..i]] + Split(s[i + 1..], c)
  }

  function Join(parts: seq<string>, c: char): string
    requires |parts| >= 1
  {
    if |parts| == 1 then parts[0] else parts[0] + [c] + Join(parts[1..], c)
  }

  lemma SplitCons(x: string, c: char, t: string)
    requires c !in x
    ensures Split(x + [c] + t, c) == [x] + Split(t, c)
  {
    IndexOfFirst(x, c, t);
    var s := x + [c] + t;
    assert s[..|x|] == x && s[|x| + 1..] == t;
  }

  lemma SplitSingle(x: string, c: char)
    requires c !in x
    ensures Split(x, c) == [x]
  {
    var i := IndexOf(x, c);
    assert i == |x|;
  }

  /** Splitting undoes joining. */
  lemma {:induction false} SplitJoin(parts: seq<string>, c: char)
    requires |parts| >= 1 && forall i | 0 <= i < |parts| :: c !in parts[i]
    ensures Split(Join(parts, c), c) == parts
  {
    if |parts| == 1 {
      SplitSingle(parts[0], c);
    } else {
      SplitJoin(parts[1..], c);
      SplitCons(parts[0], c, Join(parts[1..], c));
    }
  }

  lemma CutAt(s: string, i: nat)
    requires i < |s|
    ensures s == s[..i] + [s[i]] + s[i + 1..]
  {
  }

  lemma JoinCons(x: string, parts: seq<string>, c: char)
    requires |parts| >= 1
    ensures Join([x] + parts, c) == x + [c] + Join(parts, c)
  {
    assert ([x] + parts)[1..] == parts;
  }

  /** Joining undoes splitting. */
  lemma {:induction false} JoinSplit(s: string, c: char)
    ensures Join(Split(s, c), c) == s
    decreases |s|
  {
    var i := IndexOf(s, c);
    if i < |s| {
      CutAt(s, i);
      SplitCons(s[..i], c, s[i + 1..]);
      JoinSplit(s[i + 1..], c);
      JoinCons(s[..i], Split(s[i + 1..], c), c);
    } else {
      assert s[..i] == s;
    }
  }

  /** Splitting commutes with putting a separator between two texts. */
  lemma {:induction false} SplitConcat(s: string, c: char, t: string)
    ensures Split(s + [c] + t, c) == Split(s, c) + Split(t, c)
    decreases |s|
  {
    var i := IndexOf(s, c);
    if i == |s| {
      assert s[..i] == s;
      SplitCons(s, c, t);
    } else {
      var x, u := s[..i], s[i + 1..];
      CutAt(s, i);
      Regroup(x, [c], u, [c] + t);
      Assoc(u, [c], t);
      SplitCons(x, c, u + [c] + t);
      SplitConcat(u, c, t);
      SplitCons(x, c, u);
      Assoc([x], Split(u, c), Split(t, c));
      Assoc(s, [c], t);
    }
  }

  lemma Regroup<T>(a: seq<T>, b: seq<T>, c: seq<T>, d: seq<T>)
    ensures (a + b + c) + d == a + b + (c + d)
  {
  }

  // ---- order ---------------------------------------------------------------------

  /** Rust's order on strings: lexicographic by code point. */
  predicate Less(a: string, b: string) {
    b != "" && (a == "" || a[0] < b[0] || (a[0] == b[0] && Less(a[1..], b[1..])))
  }

  /** The first difference decides, or being the shorter one. */
  lemma {:induction false} LessExactly(a: string, b: string)
    ensures Less(a, b) <==>
            exists i :: 0 <= i <= |a| && i < |b| && a[..i] == b[..i] && (i == |a| || a[i] as int < b[i] as int)
  {
    if a != "" && b != "" && a[0] == b[0] {
      LessExactly(a[1..], b[1..]);
      if Less(a, b) {
        var i :| 0 <= i <= |a[1..]| && i < |b[1..]| && a[1..][..i] == b[1..][..i] && (i == |a[1..]| || a[1..][i] as int < b[1..][i] as int);
        assert a[..i + 1] == [a[0]] + a[1..][..i] && b[..i + 1] == [b[0]] + b[1..][..i];
        assert a[..i + 1] == b[..i + 1] && (i + 1 == |a| || a[i + 1] as int < b[i + 1] as int);
      }
      if i :| 0 <= i <= |a| && i < |b| && a[..i] == b[..i] && (i == |a| || a[i] as int < b[i] as int) {
        assert i > 0;
        assert a[1..][..i - 1] == a[..i][1..] && b[1..][..i - 1] == b[..i][1..];
        assert i - 1 == |a[1..]| || a[1..][i - 1] as int < b[1..][i - 1] as int;
      }
    } else {
      assert a[..0] == b[..0];
      if i :| 0 <= i <= |a| && i < |b| && a[..i] == b[..i] && (i == |a| || a[i] as int < b[i] as int) {
        if i > 0 { assert a[..i][0] == b[..i][0]; }
      }
    }
  }

  lemma LessIrreflexive(a: string)
    ensures !Less(a, a)
  {
  }

  lemma LessTransitive(a: string, b: string, c: string)
    requires Less(a, b) && Less(b, c)
    ensures Less(a, c)
  {
  }

  lemma {:induction false} LessTotal(a: string, b: string)
    ensures Less(a, b) || a == b || Less(b, a)
  {
    if a != "" && b != "" && a[0] == b[0] {
      LessTotal(a[1..], b[1..]);
      assert a == [a[0]] + a[1..] && b == [b[0]] + b[1..];
    }
  }

  lemma LessAsymmetric(a: string, b: string)
    requires Less(a, b)
    ensures !Less(b, a)
  {
    if Less(b, a) {
      LessTransitive(a, b, a);
      LessIrreflexive(a);
    }
  }
}
