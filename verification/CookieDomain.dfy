/** The canonical form of a cookie domain, and what it accepts. */
module CookieDomain {
  import opened Text

  predicate IsDot(c: char) { c == '.' }

  predicate LabelChar(c: char) { IsLetter(c) || IsDigit(c) || c == '-' }

  /** A label of section 2.3.1 of RFC 1035, as relaxed by section 2.1 of RFC 1123. */
  predicate Label(l: string) {
    1 <= |l| <= 63 && l[0] != '-' && l[|l| - 1] != '-' && All(LabelChar, l)
  }

  predicate Labels(ls: seq<string>) { forall i | 0 <= i < |ls| :: Label(ls[i]) }

  function Core(raw: string): string { TrimBy(IsDot, Trim(raw)) }

  /** `normalize_cookie_domain`. */
  function Normalize(raw: string): Option<string> {
    var d := Core(raw);
    if d == "" || |d| > 253 || '.' !in d then None
    else if Labels(Split(d, '.')) then Some(Lower(d))
    else None
  }

  // ---- what is accepted ---------------------------------------------------------------

  /** Two or more labels with dots between them, at most 253 characters long. */
  ghost predicate Domain(d: string) {
    |d| <= 253 && exists ls :: |ls| >= 2 && Labels(ls) && d == Join(ls, '.')
  }

  /** One to 63 letters, digits and hyphens, with no hyphen at either end. */
  lemma LabelExactly(l: string)
    ensures Label(l) <==>
            && 0 < |l| < 64 && !("-" <= l) && l[|l| - 1..] != "-"
            && forall c | c in l :: 'a' <= c <= 'z' || 'A' <= c <= 'Z' || '0' <= c <= '9' || c == '-'
  {
    if Label(l) {
      forall c | c in l ensures LabelChar(c) { var i :| 0 <= i < |l| && l[i] == c; }
    }
    assert forall i | 0 <= i < |l| :: l[i] in l;
    if l != "" { assert l[|l| - 1..] == [l[|l| - 1]]; }
  }

  lemma LabelHasNoDot(l: string)
    requires Label(l)
    ensures '.' !in l
  {
  }

  lemma ManyPieces(d: string)
    ensures '.' in d <==> |Split(d, '.')| >= 2
  {
  }

  lemma NormalizesExactlyDomains(raw: string)
    ensures Normalize(raw).Some? <==> Domain(Core(raw))
    ensures Normalize(raw).Some? ==> Normalize(raw).value == Lower(Core(raw))
  {
    var d := Core(raw);
    ManyPieces(d);
    JoinSplit(d, '.');
    if Domain(d) {
      var ls :| |ls| >= 2 && Labels(ls) && d == Join(ls, '.');
      forall i | 0 <= i < |ls| ensures '.' !in ls[i] { LabelHasNoDot(ls[i]); }
      SplitJoin(ls, '.');
    }
  }

  // ---- lower case -----------------------------------------------------------------------

  function LowerAll(ls: seq<string>): seq<string> { seq(|ls|, i requires 0 <= i < |ls| => Lower(ls[i])) }

  lemma {:induction false} LowerJoin(ls: seq<string>, c: char)
    requires |ls| >= 1 && ToLower(c) == c
    ensures Lower(Join(ls, c)) == Join(LowerAll(ls), c)
  {
    if |ls| > 1 {
      LowerJoin(ls[1..], c);
      assert LowerAll(ls)[1..] == LowerAll(ls[1..]);
      var a, b := ls[0], Join(ls[1..], c);
      assert Lower(a + [c] + b) == Lower(a) + [c] + Lower(b);
    }
  }

  lemma LowerSplit(d: string)
    ensures Split(Lower(d), '.') == LowerAll(Split(d, '.'))
  {
    var ls := Split(d, '.');
    JoinSplit(d, '.');
    LowerJoin(ls, '.');
    forall i | 0 <= i < |ls| ensures '.' !in LowerAll(ls)[i] {
      assert '.' !in ls[i];
      assert forall j | 0 <= j < |ls[i]| :: LowerAll(ls)[i][j] == ToLower(ls[i][j]) && ls[i][j] != '.';
    }
    SplitJoin(LowerAll(ls), '.');
  }

  lemma LowerLabel(l: string)
    ensures Label(Lower(l)) <==> Label(l)
  {
    if Label(Lower(l)) {
      assert forall i | 0 <= i < |l| :: LabelChar(Lower(l)[i]) && Lower(l)[i] == ToLower(l[i]);
    }
  }

  lemma LowerLabels(ls: seq<string>)
    ensures Labels(LowerAll(ls)) <==> Labels(ls)
  {
    forall i | 0 <= i < |ls| ensures Label(LowerAll(ls)[i]) <==> Label(ls[i]) { LowerLabel(ls[i]); }
  }

  lemma LowerTwice(s: string)
    ensures Lower(Lower(s)) == Lower(s)
  {
  }

  predicate CaseBlind(p: char -> bool, s: string) { forall i | 0 <= i < |s| :: p(ToLower(s[i])) == p(s[i]) }

  lemma LowerSum(a: string, b: string)
    ensures Lower(a + b) == Lower(a) + Lower(b)
  {
  }

  lemma CaseBlindParts(p: char -> bool, a: string, t: string, b: string)
    requires CaseBlind(p, a + t + b)
    ensures CaseBlind(p, a) && CaseBlind(p, t) && CaseBlind(p, b)
  {
    var s := a + t + b;
    assert forall i | 0 <= i < |a| :: s[i] == a[i];
    assert forall i | 0 <= i < |t| :: s[|a| + i] == t[i];
    assert forall i | 0 <= i < |b| :: s[|a| + |t| + i] == b[i];
  }

  lemma AllLower(p: char -> bool, a: string)
    requires All(p, a) && CaseBlind(p, a)
    ensures All(p, Lower(a))
  {
  }

  lemma BareLower(p: char -> bool, t: string)
    requires Bare(p, t) && CaseBlind(p, t)
    ensures Bare(p, Lower(t))
  {
  }

  lemma TrimLower(p: char -> bool, s: string)
    requires CaseBlind(p, s)
    ensures TrimBy(p, Lower(s)) == Lower(TrimBy(p, s))
  {
    var a, b := TrimSplits(p, s);
    var t := TrimBy(p, s);
    CaseBlindParts(p, a, t, b);
    LowerSum(a, t);
    LowerSum(a + t, b);
    AllLower(p, a);
    AllLower(p, b);
    BareLower(p, t);
    TrimCore(p, Lower(a), Lower(t), Lower(b));
  }

  lemma TrimKeepsCaseBlind(p: char -> bool, q: char -> bool, s: string)
    requires CaseBlind(q, s)
    ensures CaseBlind(q, TrimBy(p, s))
  {
    var a, b := TrimSplits(p, s);
    var t := TrimBy(p, s);
    assert forall i | 0 <= i < |t| :: t[i] == s[|a| + i];
  }

  lemma CoreLower(raw: string)
    ensures Core(Lower(raw)) == Lower(Core(raw))
  {
    TrimLower(IsWhite, raw);
    TrimKeepsCaseBlind(IsWhite, IsDot, raw);
    TrimLower(IsDot, Trim(raw));
  }

  /** Case does not matter. */
  lemma CaseDoesNotMatter(raw: string)
    ensures Normalize(Lower(raw)) == Normalize(raw)
  {
    var d := Core(raw);
    CoreLower(raw);
    LowerSplit(d);
    LowerLabels(Split(d, '.'));
    LowerTwice(d);
    assert '.' in d ==> '.' in Lower(d) by {
      if '.' in d { var i :| 0 <= i < |d| && d[i] == '.'; assert Lower(d)[i] == '.'; }
    }
    assert '.' in Lower(d) ==> '.' in d by {
      if '.' in Lower(d) { var i :| 0 <= i < |d| && Lower(d)[i] == '.'; assert d[i] == '.'; }
    }
  }

  // ---- surroundings -----------------------------------------------------------------------

  lemma FiveParts(p: string, x: string, t: string, y: string, q: string)
    ensures p + (x + t + y) + q == (p + x) + t + (y + q)
  {
  }

  /** Blanks around the domain do not matter. */
  lemma BlanksDoNotMatter(a: string, raw: string, b: string)
    requires All(IsWhite, a) && All(IsWhite, b)
    ensures Normalize(a + raw + b) == Normalize(raw)
  {
    var x, y := TrimSplits(IsWhite, raw);
    var t := Trim(raw);
    FiveParts(a, x, t, y, b);
    assert All(IsWhite, a + x) && All(IsWhite, y + b);
    TrimCore(IsWhite, a + x, t, y + b);
  }

  /** Nor do dots at its ends. */
  lemma EndDotsDoNotMatter(p: string, raw: string, q: string)
    requires All(IsDot, p) && All(IsDot, q) && Bare(IsWhite, raw)
    ensures Normalize(p + raw + q) == Normalize(raw)
  {
    var s := p + raw + q;
    if s != "" {
      assert s[0] == '.' || s[0] == raw[0];
      assert s[|s| - 1] == '.' || s[|s| - 1] == raw[|raw| - 1];
    }
    TrimOfBare(s);
    TrimOfBare(raw);
    var x, y := TrimSplits(IsDot, raw);
    var t := TrimBy(IsDot, raw);
    FiveParts(p, x, t, y, q);
    TrimCore(IsDot, p + x, t, y + q);
  }

  lemma TrimOfBare(s: string)
    requires Bare(IsWhite, s)
    ensures Trim(s) == s
  {
    TrimCore(IsWhite, "", s, "");
    assert "" + s + "" == s;
  }

  // ---- idempotence --------------------------------------------------------------------------

  lemma {:induction false} DomainText(ls: seq<string>)
    requires |ls| >= 1 && Labels(ls)
    ensures var d := Join(ls, '.');
            && d != "" && LabelChar(d[0]) && LabelChar(d[|d| - 1])
            && forall i | 0 <= i < |d| :: LabelChar(d[i]) || d[i] == '.'
  {
    assert Label(ls[0]);
    if |ls| > 1 {
      assert forall i | 0 <= i < |ls[1..]| :: ls[1..][i] == ls[i + 1];
      DomainText(ls[1..]);
    }
  }

  lemma DomainIsItsCore(d: string)
    requires Domain(d)
    ensures Core(d) == d && All(c => LabelChar(c) || c == '.', d)
  {
    var ls :| |ls| >= 2 && Labels(ls) && d == Join(ls, '.');
    DomainText(ls);
    TrimOfBare(d);
    TrimCore(IsDot, "", d, "");
    assert "" + d + "" == d;
  }

  /** A normalised domain is its own normal form. */
  lemma NormalizeIsIdempotent(raw: string)
    requires Normalize(raw).Some?
    ensures var d := Normalize(raw).value;
            && Normalize(d) == Some(d) && Lower(d) == d && Core(d) == d
            && All(c => LabelChar(c) || c == '.', d)
  {
    var d := Core(raw);
    NormalizesExactlyDomains(raw);
    DomainIsItsCore(d);
    CaseDoesNotMatter(d);
    CoreLower(d);
    LowerTwice(d);
    NormalizesExactlyDomains(Lower(d));
    assert Normalize(d) == Some(Lower(d));
    DomainIsItsCore(Lower(d));
  }
}
