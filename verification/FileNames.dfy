/** The file a provider object lives in, and the temporary file it is written to
    first. Different keys share a file exactly when one namespace, with the
    separator after it, begins the other. */
module FileNames {
  import opened Text

  predicate SafeChar(c: char) { IsLetter(c) || IsDigit(c) || c == '-' || c == '_' || c == '.' }

  function SafeOf(c: char): char { if SafeChar(c) then c else '_' }

  function Safe(s: string): (r: string)
    ensures |r| == |s| && forall i | 0 <= i < |s| :: r[i] == SafeOf(s[i])
  {
    seq(|s|, i requires 0 <= i < |s| => SafeOf(s[i]))
  }

  const SEPARATOR := "__"
  const SUFFIX := ".json"

  function FileName(namespace: string, name: string): string {
    Safe(namespace) + SEPARATOR + Safe(name) + SUFFIX
  }

  /** `is_valid_namespace`, which validation demands of namespaces and names alike. */
  predicate ValidName(s: string) { s != "" && s != "." && s != ".." && All(SafeChar, s) }

  // ---- extensions, as std::path sees a final path component -------------------------

  /** The last position of `c`, or the length when it does not occur. */
  function LastIndexOf(s: string, c: char): (i: nat)
    ensures i <= |s| && (i < |s| ==> s[i] == c) && forall j | i < j < |s| :: s[j] != c
    ensures i == |s| ==> c !in s
  {
    if s == "" then 0
    else if s[|s| - 1] == c then |s| - 1
    else
      var i := LastIndexOf(s[..|s| - 1], c);
      if i < |s| - 1 then i else |s|
  }

  predicate HasExtension(file: string) {
    var i := LastIndexOf(file, '.');
    file != ".." && 0 < i < |file|
  }

  function Extension(file: string): Option<string> {
    if HasExtension(file) then Some(file[LastIndexOf(file, '.') + 1..]) else None
  }

  function WithExtension(file: string, extension: string): string {
    (if HasExtension(file) then file[..LastIndexOf(file, '.')] else file) + "." + extension
  }

  function TempName(namespace: string, name: string): string {
    WithExtension(FileName(namespace, name), "json.tmp")
  }

  predicate IsJson(file: string) { Extension(file) == Some("json") }

  lemma LastIndexIs(s: string, c: char, k: nat)
    requires k < |s| && s[k] == c && forall j | k < j < |s| :: s[j] != c
    ensures LastIndexOf(s, c) == k
  {
  }

  lemma NoDotAfter(x: string, y: string)
    requires '.' !in y
    ensures var s := x + "." + y;
            |x| < |s| && s[|x|] == '.' && forall j | |x| < j < |s| :: s[j] != '.'
  {
    var s := x + "." + y;
    forall j | |x| < j < |s| ensures s[j] != '.' { assert s[j] == y[j - |x| - 1]; }
  }

  lemma LastDot(x: string, y: string)
    requires '.' !in y
    ensures LastIndexOf(x + "." + y, '.') == |x|
  {
    NoDotAfter(x, y);
    LastIndexIs(x + "." + y, '.', |x|);
  }

  lemma ExtensionOf(x: string, y: string)
    requires '.' !in y && |x| > 1
    ensures Extension(x + "." + y) == Some(y) && WithExtension(x + "." + y, "json.tmp") == x + ".json.tmp"
  {
    LastDot(x, y);
    var s := x + "." + y;
    assert s[|x| + 1..] == y && s[..|x|] == x;
    assert x + "." + "json.tmp" == x + ".json.tmp";
  }

  /** Final files are the ones `load` looks at, temporary files never are, and
      neither can leave the directory. */
  lemma NamesOf(namespace: string, name: string)
    ensures IsJson(FileName(namespace, name))
    ensures TempName(namespace, name) == FileName(namespace, name) + ".tmp"
    ensures !IsJson(TempName(namespace, name))
    ensures '/' !in FileName(namespace, name) && '/' !in TempName(namespace, name)
    ensures FileName(namespace, name) != ".." && TempName(namespace, name) != ".."
  {
    StemNames(Safe(namespace) + SEPARATOR + Safe(name));
    StemHasNoSlash(namespace, name);
  }

  lemma StemHasNoSlash(namespace: string, name: string)
    ensures '/' !in Safe(namespace) + SEPARATOR + Safe(name)
  {
  }

  lemma StemNames(stem: string)
    requires |stem| > 1
    ensures Extension(stem + SUFFIX) == Some("json") && Extension(stem + SUFFIX + ".tmp") == Some("tmp")
    ensures WithExtension(stem + SUFFIX, "json.tmp") == stem + SUFFIX + ".tmp"
  {
    assert stem + SUFFIX == stem + "." + "json";
    ExtensionOf(stem, "json");
    assert stem + SUFFIX + ".tmp" == stem + SUFFIX + "." + "tmp";
    ExtensionOf(stem + SUFFIX, "tmp");
    assert stem + ".json.tmp" == stem + SUFFIX + ".tmp";
  }

  lemma ValidNameExactly(s: string)
    ensures ValidName(s) <==>
            && s !in {"", ".", ".."}
            && forall c | c in s :: 'a' <= c <= 'z' || 'A' <= c <= 'Z' || '0' <= c <= '9' || c in "-_."
  {
    if ValidName(s) {
      forall c | c in s ensures SafeChar(c) { var i :| 0 <= i < |s| && s[i] == c; }
    }
    assert forall i | 0 <= i < |s| :: s[i] in s;
  }

  // ---- when two keys share a file ------------------------------------------------------

  lemma SafeIsIdentity(s: string)
    requires ValidName(s)
    ensures Safe(s) == s
  {
  }

  /** On valid names, the file is the two parts with the separator between them. */
  lemma SameFile(a: string, n: string, b: string, m: string)
    requires ValidName(a) && ValidName(n) && ValidName(b) && ValidName(m)
    ensures FileName(a, n) == FileName(b, m) <==> a + SEPARATOR + n == b + SEPARATOR + m
    ensures TempName(a, n) == TempName(b, m) <==> FileName(a, n) == FileName(b, m)
  {
    SafeIsIdentity(a);
    SafeIsIdentity(n);
    SafeIsIdentity(b);
    SafeIsIdentity(m);
    var x, y := a + SEPARATOR + n, b + SEPARATOR + m;
    CancelSuffix(x, y, SUFFIX);
    NamesOf(a, n);
    NamesOf(b, m);
    CancelSuffix(FileName(a, n), FileName(b, m), ".tmp");
  }

  lemma CancelSuffix(x: string, y: string, z: string)
    ensures x + z == y + z <==> x == y
  {
    if x + z == y + z {
      assert x == (x + z)[..|x|] && y == (y + z)[..|y|];
    }
  }

  /** `a` with the separator after it begins `b` with the separator after it. */
  predicate Extends(a: string, b: string) { a + SEPARATOR <= b + SEPARATOR }

  lemma SharedMeansExtends(a: string, n: string, b: string, m: string)
    requires a + SEPARATOR + n == b + SEPARATOR + m && |a| <= |b|
    ensures Extends(a, b)
  {
    var w := a + SEPARATOR + n;
    assert w[..|a| + 2] == a + SEPARATOR;
    assert w[..|b| + 2] == b + SEPARATOR;
    assert w[..|b| + 2][..|a| + 2] == w[..|a| + 2];
  }

  lemma ExtendsMeansLonger(a: string, b: string)
    requires a != b && Extends(a, b)
    ensures |a| < |b| && b[|a|] == '_'
  {
    CancelSuffix(a, b, SEPARATOR);
    assert (b + SEPARATOR)[..|a| + 2] == a + SEPARATOR;
    assert (b + SEPARATOR)[|a|] == (a + SEPARATOR)[|a|];
  }

  lemma ExtendsMeansShared(a: string, b: string) returns (n: string, m: string)
    requires ValidName(a) && ValidName(b) && a != b && Extends(a, b)
    ensures ValidName(n) && ValidName(m) && FileName(a, n) == FileName(b, m)
  {
    m := "x";
    var w := b + SEPARATOR + m;
    var k := |a| + 2;
    ExtendsMeansLonger(a, b);
    n := w[k..];
    assert n[|n| - 1] == 'x';
    assert w[..k] == (b + SEPARATOR)[..k] == a + SEPARATOR;
    assert a + SEPARATOR + n == w;
    SameFile(a, n, b, m);
  }

  /** Some object of one namespace shares its file with some object of another
      exactly when one of the two extends the other. */
  lemma NamespacesShareFilesIffExtends(a: string, b: string)
    requires ValidName(a) && ValidName(b) && a != b
    ensures (exists n, m :: ValidName(n) && ValidName(m) && FileName(a, n) == FileName(b, m))
       <==> Extends(a, b) || Extends(b, a)
  {
    if n, m :| ValidName(n) && ValidName(m) && FileName(a, n) == FileName(b, m) {
      SameFile(a, n, b, m);
      if |a| <= |b| { SharedMeansExtends(a, n, b, m); } else { SharedMeansExtends(b, m, a, n); }
    }
    if Extends(a, b) {
      var n, m := ExtendsMeansShared(a, b);
    } else if Extends(b, a) {
      var m, n := ExtendsMeansShared(b, a);
      assert FileName(a, n) == FileName(b, m);
    }
  }

  type Key = (string, string)

  function File(k: Key): string { FileName(k.0, k.1) }

  function Temp(k: Key): string { TempName(k.0, k.1) }

  /** Valid namespaces of which none extends another. */
  ghost predicate Apart(namespaces: set<string>) {
    && (forall a | a in namespaces :: ValidName(a))
    && (forall a, b | a in namespaces && b in namespaces && a != b :: !Extends(a, b))
  }

  predicate KeyIn(namespaces: set<string>, k: Key) { k.0 in namespaces && ValidName(k.1) }

  /** Within such namespaces, keys, files and temporary files are one to one. */
  lemma KeysHaveOwnFiles(namespaces: set<string>, k: Key, l: Key)
    requires Apart(namespaces) && KeyIn(namespaces, k) && KeyIn(namespaces, l)
    ensures File(k) == File(l) <==> k == l
    ensures Temp(k) == Temp(l) <==> k == l
    ensures Temp(k) != File(l)
  {
    NamesOf(k.0, k.1);
    NamesOf(l.0, l.1);
    SameFile(k.0, k.1, l.0, l.1);
    if File(k) == File(l) {
      if k.0 != l.0 {
        if |k.0| <= |l.0| { SharedMeansExtends(k.0, k.1, l.0, l.1); } else { SharedMeansExtends(l.0, l.1, k.0, k.1); }
        assert false;
      }
      var w := k.0 + SEPARATOR + k.1;
      assert k.1 == w[|k.0| + 2..] == l.1;
    }
  }

  /** The file of `k` is no file of `l`, unless they are one key. */
  predicate Alone(k: Key, l: Key) { File(l) == File(k) ==> l == k }

  /** Namespaces without underscores are always apart. */
  lemma UnderscoreFreeIsApart(namespaces: set<string>)
    requires forall a | a in namespaces :: ValidName(a) && '_' !in a
    ensures Apart(namespaces)
  {
    forall a, b | a in namespaces && b in namespaces && a != b ensures !Extends(a, b) {
      if Extends(a, b) { ExtendsMeansLonger(a, b); }
    }
  }

  /** The restriction is needed: two valid keys, one file. */
  lemma UnderscoresCollide()
    ensures ValidName("a") && ValidName("b__c") && ValidName("a__b") && ValidName("c")
    ensures FileName("a", "b__c") == FileName("a__b", "c")
  {
    SafeIsIdentity("a");
    SafeIsIdentity("b__c");
    SafeIsIdentity("a__b");
    SafeIsIdentity("c");
  }
}
