/** `prepare`: fill in a creation request, bind it with two nested digests and
    give the operation a fresh identity. */
module Prepare {
  import opened Text
  import opened Maps
  import opened Json
  import opened Canonical

  // ---- objects as serde_json's map edits them --------------------------------------

  function Lookup(fs: List<Field>, key: string): Option<Json> {
    match fs
    case Nil => None
    case Cons(f, rest) => if f.key == key then Some(f.value) else Lookup(rest, key)
  }

  /** `object.entry(key).or_insert(value)`. */
  function OrInsert(fs: List<Field>, key: string, value: Json): List<Field> {
    match fs
    case Nil => Cons(Field(key, value), Nil)
    case Cons(f, rest) => if f.key == key then fs else Cons(f, OrInsert(rest, key, value))
  }

  /** `object.remove(key)`. */
  function Remove(fs: List<Field>, key: string): List<Field> {
    match fs
    case Nil => Nil
    case Cons(f, rest) => if f.key == key then rest else Cons(f, Remove(rest, key))
  }

  lemma {:induction false} LookupMeans(fs: List<Field>, key: string)
    ensures Lookup(fs, key).Some? <==> key in DenoteFields(fs)
    ensures Lookup(fs, key).Some? ==> Denote(Lookup(fs, key).value) == DenoteFields(fs)[key]
  {
    if fs.Cons? { LookupMeans(fs.tail, key); }
  }

  lemma {:induction false} LookupValid(fs: List<Field>, key: string)
    requires ValidFields(fs) && Lookup(fs, key).Some?
    ensures Valid(Lookup(fs, key).value)
  {
    if fs.Cons? && fs.head.key != key { LookupValid(fs.tail, key); }
  }

  function OrElse<T>(a: Option<T>, b: Option<T>): Option<T> { if a.Some? then a else b }

  lemma {:induction false} OrInsertMeans(fs: List<Field>, key: string, value: Json, k: string)
    ensures Get(DenoteFields(OrInsert(fs, key, value)), k)
         == if k == key then OrElse(Get(DenoteFields(fs), k), Some(Denote(value))) else Get(DenoteFields(fs), k)
  {
    if fs.Cons? && fs.head.key != key { OrInsertMeans(fs.tail, key, value, k); }
  }

  lemma {:induction false} OrInsertValid(fs: List<Field>, key: string, value: Json)
    requires ValidFields(fs) && Valid(value)
    ensures ValidFields(OrInsert(fs, key, value)) && Keys(OrInsert(fs, key, value)) == Keys(fs) + {key}
  {
    if fs.Cons? && fs.head.key != key { OrInsertValid(fs.tail, key, value); }
  }

  lemma {:induction false} RemoveValid(fs: List<Field>, key: string)
    requires ValidFields(fs)
    ensures ValidFields(Remove(fs, key)) && Keys(Remove(fs, key)) == Keys(fs) - {key}
  {
    if fs.Cons? && fs.head.key != key { RemoveValid(fs.tail, key); }
  }

  lemma {:induction false} RemoveMeans(fs: List<Field>, key: string, k: string)
    requires ValidFields(fs)
    ensures Get(DenoteFields(Remove(fs, key)), k) == if k == key then None else Get(DenoteFields(fs), k)
  {
    if fs.Cons? && fs.head.key != key { RemoveMeans(fs.tail, key, k); }
  }

  lemma {:induction false} OrInsertPresent(fs: List<Field>, key: string, value: Json)
    requires key in Keys(fs)
    ensures OrInsert(fs, key, value) == fs
  {
    if fs.Cons? && fs.head.key != key { OrInsertPresent(fs.tail, key, value); }
  }

  // ---- filling in a request -------------------------------------------------------

  const REGION := Str("US")
  const IMAGE := Str("ubuntu:24.04")
  const SIZE_CLASS := Str("small")
  const OPEN_PORTS := Arr(Nil)

  function WithDefaults(fs: List<Field>): List<Field> {
    var fs := OrInsert(fs, "region", REGION);
    var fs := OrInsert(fs, "image", IMAGE);
    var fs := OrInsert(fs, "size_class", SIZE_CLASS);
    OrInsert(fs, "open_ports", OPEN_PORTS)
  }

  function Filled(fs: List<Field>): List<Field> {
    var fs := WithDefaults(fs);
    match Lookup(fs, "driver")
    case None => fs
    case Some(driver) => OrInsert(Remove(fs, "driver"), "backend_type", driver)
  }

  /** The default of a field that has one. */
  function Default(key: string): Option<Meaning> {
    if key == "region" then Some(Denote(REGION))
    else if key == "image" then Some(Denote(IMAGE))
    else if key == "size_class" then Some(Denote(SIZE_CLASS))
    else if key == "open_ports" then Some(Denote(OPEN_PORTS))
    else None
  }

  /** What the daemon is asked for under `key`, read off the request as given:
      the explicit field, else its default; `driver` is an alias of
      `backend_type` and never sent. */
  function Effective(m: map<string, Meaning>, key: string): Option<Meaning> {
    if key == "driver" then None
    else if key == "backend_type" then OrElse(Get(m, "backend_type"), Get(m, "driver"))
    else OrElse(Get(m, key), Default(key))
  }

  lemma WithDefaultsMeans(fs: List<Field>, k: string)
    ensures Get(DenoteFields(WithDefaults(fs)), k) == OrElse(Get(DenoteFields(fs), k), Default(k))
  {
    var a := OrInsert(fs, "region", REGION);
    var b := OrInsert(a, "image", IMAGE);
    var c := OrInsert(b, "size_class", SIZE_CLASS);
    OrInsertMeans(fs, "region", REGION, k);
    OrInsertMeans(a, "image", IMAGE, k);
    OrInsertMeans(b, "size_class", SIZE_CLASS, k);
    OrInsertMeans(c, "open_ports", OPEN_PORTS, k);
  }

  lemma WithDefaultsValid(fs: List<Field>)
    requires ValidFields(fs)
    ensures ValidFields(WithDefaults(fs))
  {
    var a := OrInsert(fs, "region", REGION);
    var b := OrInsert(a, "image", IMAGE);
    var c := OrInsert(b, "size_class", SIZE_CLASS);
    OrInsertValid(fs, "region", REGION);
    OrInsertValid(a, "image", IMAGE);
    OrInsertValid(b, "size_class", SIZE_CLASS);
    OrInsertValid(c, "open_ports", OPEN_PORTS);
  }

  lemma FilledValid(fs: List<Field>)
    requires ValidFields(fs)
    ensures ValidFields(Filled(fs))
  {
    var gs := WithDefaults(fs);
    WithDefaultsValid(fs);
    if Lookup(gs, "driver").Some? {
      LookupValid(gs, "driver");
      RemoveValid(gs, "driver");
      OrInsertValid(Remove(gs, "driver"), "backend_type", Lookup(gs, "driver").value);
    }
  }

  /** Filling in sends exactly the effective fields. */
  lemma FilledMeans(fs: List<Field>, k: string)
    requires ValidFields(fs)
    ensures Get(DenoteFields(Filled(fs)), k) == Effective(DenoteFields(fs), k)
  {
    var gs := WithDefaults(fs);
    WithDefaultsValid(fs);
    WithDefaultsMeans(fs, k);
    WithDefaultsMeans(fs, "driver");
    LookupMeans(gs, "driver");
    if Lookup(gs, "driver").Some? {
      RemoveMeans(gs, "driver", k);
      OrInsertMeans(Remove(gs, "driver"), "backend_type", Lookup(gs, "driver").value, k);
    }
  }

  lemma WithDefaultsPresent(fs: List<Field>)
    requires forall k | Default(k).Some? :: k in Keys(fs)
    ensures WithDefaults(fs) == fs
  {
    assert Default("region").Some? && Default("image").Some?;
    assert Default("size_class").Some? && Default("open_ports").Some?;
    OrInsertPresent(fs, "region", REGION);
    OrInsertPresent(fs, "image", IMAGE);
    OrInsertPresent(fs, "size_class", SIZE_CLASS);
    OrInsertPresent(fs, "open_ports", OPEN_PORTS);
  }

  /** A filled-in request is complete: filling it in again changes nothing. */
  lemma FillingIsIdempotent(fs: List<Field>)
    requires ValidFields(fs)
    ensures Filled(Filled(fs)) == Filled(fs)
  {
    var gs := Filled(fs);
    forall k | Default(k).Some? ensures k in Keys(gs) {
      FilledMeans(fs, k);
      assert Get(DenoteFields(gs), k).Some?;
    }
    WithDefaultsPresent(gs);
    FilledMeans(fs, "driver");
    LookupMeans(gs, "driver");
  }

  /** Two requests ask for the same thing: they differ at most in key order, in
      spelling out a default, or in saying `driver` for `backend_type`. */
  ghost predicate SameRequest(fs: List<Field>, gs: List<Field>) {
    forall k :: Effective(DenoteFields(fs), k) == Effective(DenoteFields(gs), k)
  }

  lemma SameRequestIffSameFilling(fs: List<Field>, gs: List<Field>)
    requires ValidFields(fs) && ValidFields(gs)
    ensures SameRequest(fs, gs) <==> Denote(Obj(Filled(fs))) == Denote(Obj(Filled(gs)))
  {
    var m, n := DenoteFields(Filled(fs)), DenoteFields(Filled(gs));
    forall k ensures Get(m, k) == Effective(DenoteFields(fs), k) && Get(n, k) == Effective(DenoteFields(gs), k) {
      FilledMeans(fs, k);
      FilledMeans(gs, k);
    }
    if SameRequest(fs, gs) {
      assert forall k :: Get(m, k) == Get(n, k);
      SameMap(m, n);
    }
  }

  // ---- the two digests -----------------------------------------------------------

  /** Whether a non-blank `s3_archive_key` makes this a restore from an archive. */
  function Kind(fs: List<Field>): string {
    match Lookup(fs, "s3_archive_key")
    case Some(Str(s)) => if Trim(s) != "" then "archive" else "plain"
    case _ => "plain"
  }

  /** Some character of the archive key is not white: a position, not a trimming. */
  predicate NamesArchive(fs: List<Field>) {
    match Lookup(fs, "s3_archive_key")
    case Some(Str(s)) => exists i :: 0 <= i < |s| && !IsWhite(s[i])
    case _ => false
  }

  lemma TrimmedAway(s: string)
    ensures Trim(s) == "" <==> All(IsWhite, s)
  {
    var a, b := TrimSplits(IsWhite, s);
    if Trim(s) == "" {
      assert s == a + b;
    } else {
      assert s[|a|] == Trim(s)[0] && !IsWhite(s[|a|]);
    }
  }

  lemma {:induction false} LookupOrInsert(fs: List<Field>, key: string, value: Json, k: string)
    ensures Lookup(OrInsert(fs, key, value), k) == if k == key && Lookup(fs, k).None? then Some(value) else Lookup(fs, k)
  {
    if fs.Cons? { LookupOrInsert(fs.tail, key, value, k); }
  }

  lemma {:induction false} LookupRemove(fs: List<Field>, key: string, k: string)
    requires k != key
    ensures Lookup(Remove(fs, key), k) == Lookup(fs, k)
  {
    if fs.Cons? { LookupRemove(fs.tail, key, k); }
  }

  lemma FilledLookup(fs: List<Field>, k: string)
    requires Default(k).None? && k != "driver" && k != "backend_type"
    ensures Lookup(Filled(fs), k) == Lookup(fs, k)
  {
    var a := OrInsert(fs, "region", REGION);
    var b := OrInsert(a, "image", IMAGE);
    var c := OrInsert(b, "size_class", SIZE_CLASS);
    var d := OrInsert(c, "open_ports", OPEN_PORTS);
    LookupOrInsert(fs, "region", REGION, k);
    LookupOrInsert(a, "image", IMAGE, k);
    LookupOrInsert(b, "size_class", SIZE_CLASS, k);
    LookupOrInsert(c, "open_ports", OPEN_PORTS, k);
    if Lookup(d, "driver").Some? {
      LookupOrInsert(Remove(d, "driver"), "backend_type", Lookup(d, "driver").value, k);
      LookupRemove(d, "driver", k);
    }
  }

  lemma ArchiveKeyIsNoDefault()
    ensures Default("s3_archive_key").None? && "s3_archive_key" != "driver" && "s3_archive_key" != "backend_type"
  {
    assert |"s3_archive_key"| == 14 && |"region"| == 6 && |"image"| == 5 && |"size_class"| == 10;
    assert |"open_ports"| == 10 && |"driver"| == 6 && |"backend_type"| == 12;
  }

  /** An empty request is filled in with these four fields. */
  lemma DefaultsExactly(k: string)
    ensures Get(DenoteFields(Filled(Nil)), k) ==
            if k == "region" then Some(MStr("US"))
            else if k == "image" then Some(MStr("ubuntu:24.04"))
            else if k == "size_class" then Some(MStr("small"))
            else if k == "open_ports" then Some(MArr(Nil))
            else None
  {
    FilledMeans(Nil, k);
  }

  /** Filling a request in does not change its kind. */
  lemma KindExactly(fs: List<Field>)
    ensures Kind(Filled(fs)) == if NamesArchive(fs) then "archive" else "plain"
  {
    ArchiveKeyIsNoDefault();
    FilledLookup(fs, "s3_archive_key");
    match Lookup(fs, "s3_archive_key") {
      case Some(Str(s)) => TrimmedAway(s);
      case _ =>
    }
  }

  function Pair(k1: string, v1: Json, k2: string, v2: Json): Json {
    Obj(Cons(Field(k1, v1), Cons(Field(k2, v2), Nil)))
  }

  function BackendBinding(fs: List<Field>): Json {
    Pair("kind", Str(Kind(Filled(fs))), "request", Obj(Filled(fs)))
  }

  function BackendDigest(sha: Hash, fs: List<Field>): string { Digest(sha, BackendBinding(fs)) }

  function ScopeBinding(sha: Hash, fs: List<Field>, scope: string): Json {
    Pair("scope", Str(scope), "backendRequestDigest", Str(BackendDigest(sha, fs)))
  }

  function RequestDigest(sha: Hash, fs: List<Field>, scope: string): string {
    Digest(sha, ScopeBinding(sha, fs, scope))
  }

  lemma PairMeans(k1: string, v1: Json, k2: string, v2: Json)
    requires k1 != k2 && Valid(v1) && Valid(v2)
    ensures Valid(Pair(k1, v1, k2, v2))
    ensures Denote(Pair(k1, v1, k2, v2)) == MObj(map[k1 := Denote(v1), k2 := Denote(v2)])
  {
    var tail := Cons(Field(k2, v2), Nil);
    assert Keys(tail) == {k2} && ValidFields(tail);
    assert DenoteFields(tail) == map[k2 := Denote(v2)];
    assert DenoteFields(Cons(Field(k1, v1), tail)) == map[k1 := Denote(v1), k2 := Denote(v2)];
  }

  lemma PairsEqual(k1: string, a1: Meaning, b1: Meaning, k2: string, a2: Meaning, b2: Meaning)
    requires k1 != k2
    ensures MObj(map[k1 := a1, k2 := a2]) == MObj(map[k1 := b1, k2 := b2]) <==> a1 == b1 && a2 == b2
  {
    var m, n := map[k1 := a1, k2 := a2], map[k1 := b1, k2 := b2];
    assert m[k1] == a1 && m[k2] == a2 && n[k1] == b1 && n[k2] == b2;
  }

  lemma BothPairsMean(k1: string, a1: Json, b1: Json, k2: string, a2: Json, b2: Json)
    requires k1 != k2 && Valid(a1) && Valid(a2) && Valid(b1) && Valid(b2)
    ensures Valid(Pair(k1, a1, k2, a2)) && Valid(Pair(k1, b1, k2, b2))
    ensures Denote(Pair(k1, a1, k2, a2)) == Denote(Pair(k1, b1, k2, b2))
       <==> Denote(a1) == Denote(b1) && Denote(a2) == Denote(b2)
  {
    PairMeans(k1, a1, k2, a2);
    PairMeans(k1, b1, k2, b2);
    PairsEqual(k1, Denote(a1), Denote(b1), k2, Denote(a2), Denote(b2));
  }

  lemma KindOfMeaning(fs: List<Field>, gs: List<Field>)
    requires DenoteFields(fs) == DenoteFields(gs)
    ensures Kind(fs) == Kind(gs)
  {
    LookupMeans(fs, "s3_archive_key");
    LookupMeans(gs, "s3_archive_key");
  }

  ghost predicate BackendCollision(sha: Hash, fs: List<Field>, gs: List<Field>) {
    Collision(sha, CanonicalText(BackendBinding(fs)), CanonicalText(BackendBinding(gs)))
  }

  ghost predicate ScopeCollision(sha: Hash, fs: List<Field>, a: string, gs: List<Field>, b: string) {
    Collision(sha, CanonicalText(ScopeBinding(sha, fs, a)), CanonicalText(ScopeBinding(sha, gs, b)))
  }

  /** The backend digest binds the request and its kind, up to a hash collision. */
  lemma BackendDigestBinds(sha: Hash, fs: List<Field>, gs: List<Field>)
    requires ValidFields(fs) && ValidFields(gs)
    ensures BackendDigest(sha, fs) == BackendDigest(sha, gs) <==> SameRequest(fs, gs) || BackendCollision(sha, fs, gs)
    ensures SameRequest(fs, gs) ==> Kind(Filled(fs)) == Kind(Filled(gs))
  {
    BindingsEqual(fs, gs);
    SameRequestSameKind(fs, gs);
    DigestBinds(sha, BackendBinding(fs), BackendBinding(gs));
  }

  lemma SameRequestSameKind(fs: List<Field>, gs: List<Field>)
    requires ValidFields(fs) && ValidFields(gs)
    ensures SameRequest(fs, gs) <==> Denote(Obj(Filled(fs))) == Denote(Obj(Filled(gs)))
    ensures SameRequest(fs, gs) ==> Kind(Filled(fs)) == Kind(Filled(gs))
  {
    SameRequestIffSameFilling(fs, gs);
    if SameRequest(fs, gs) { KindOfMeaning(Filled(fs), Filled(gs)); }
  }

  lemma BindingsEqual(fs: List<Field>, gs: List<Field>)
    requires ValidFields(fs) && ValidFields(gs)
    ensures Valid(BackendBinding(fs)) && Valid(BackendBinding(gs))
    ensures Denote(BackendBinding(fs)) == Denote(BackendBinding(gs))
       <==> Kind(Filled(fs)) == Kind(Filled(gs)) && Denote(Obj(Filled(fs))) == Denote(Obj(Filled(gs)))
  {
    FilledValid(fs);
    FilledValid(gs);
    BothPairsMean("kind", Str(Kind(Filled(fs))), Str(Kind(Filled(gs))), "request", Obj(Filled(fs)), Obj(Filled(gs)));
  }

  /** The request digest binds scope, kind and request through both hashes: two
      runs agree on it exactly when they ask for the same thing in the same
      scope, or exhibit two texts with one hash. */
  lemma RequestDigestBinds(sha: Hash, fs: List<Field>, a: string, gs: List<Field>, b: string)
    requires ValidFields(fs) && ValidFields(gs)
    ensures RequestDigest(sha, fs, a) == RequestDigest(sha, gs, b)
       <==> || ScopeCollision(sha, fs, a, gs, b)
            || (a == b && (SameRequest(fs, gs) || BackendCollision(sha, fs, gs)))
  {
    BackendDigestBinds(sha, fs, gs);
    var x, y := BackendDigest(sha, fs), BackendDigest(sha, gs);
    BothPairsMean("scope", Str(a), Str(b), "backendRequestDigest", Str(x), Str(y));
    DigestBinds(sha, ScopeBinding(sha, fs, a), ScopeBinding(sha, gs, b));
  }

  // ---- the very texts that are hashed ---------------------------------------------------

  lemma PairText(k1: string, v1: Json, k2: string, v2: Json)
    requires Less(k1, k2)
    ensures var text := "{" + JsonText.Quoted(k1) + ":" + CanonicalText(v1) + "," + JsonText.Quoted(k2) + ":" + CanonicalText(v2) + "}";
            CanonicalText(Pair(k1, v1, k2, v2)) == text == CanonicalText(Pair(k2, v2, k1, v1))
  {
    LessAsymmetric(k1, k2);
    var a, b := Field(k1, Sorted(v1)), Field(k2, Sorted(v2));
    SortedPair(k1, v1, k2, v2);
    SortedPair(k2, v2, k1, v1);
    assert Insert(a, Cons(b, Nil)) == Cons(a, Cons(b, Nil));
    assert Insert(b, Nil) == Cons(b, Nil);
    assert Insert(b, Cons(a, Nil)) == Cons(a, Cons(b, Nil));
    PrintedPair(a, b);
    FlatPair(JsonText.Quoted(k1), CanonicalText(v1), JsonText.Quoted(k2), CanonicalText(v2));
  }

  lemma SortedPair(k1: string, v1: Json, k2: string, v2: Json)
    ensures Sorted(Pair(k1, v1, k2, v2)) == Obj(Insert(Field(k1, Sorted(v1)), Cons(Field(k2, Sorted(v2)), Nil)))
  {
    var last := Cons(Field(k2, v2), Nil);
    assert SortedFields(last) == Insert(Field(k2, Sorted(v2)), Nil) == Cons(Field(k2, Sorted(v2)), Nil);
    assert SortedFields(Cons(Field(k1, v1), last)) == Insert(Field(k1, Sorted(v1)), SortedFields(last));
  }

  lemma PrintedPair(a: Field, b: Field)
    ensures JsonText.Print(Obj(Cons(a, Cons(b, Nil)))) ==
            "{" + ("" + (JsonText.Quoted(a.key) + (":" + (JsonText.Print(a.value)
            + ("," + (JsonText.Quoted(b.key) + (":" + (JsonText.Print(b.value) + "}"))))))))
  {
    var last := Cons(b, Nil);
    assert JsonText.PrintFields(last, false) ==
           JsonText.Comma(false) + (JsonText.Quoted(b.key) + (":" + (JsonText.Print(b.value) + JsonText.PrintFields(Nil, false))));
    assert JsonText.PrintFields(Cons(a, last), true) ==
           JsonText.Comma(true) + (JsonText.Quoted(a.key) + (":" + (JsonText.Print(a.value) + JsonText.PrintFields(last, false))));
  }

  lemma FlatPair(k1: string, v1: string, k2: string, v2: string)
    ensures "{" + ("" + (k1 + (":" + (v1 + ("," + (k2 + (":" + (v2 + "}")))))))) == "{" + k1 + ":" + v1 + "," + k2 + ":" + v2 + "}"
  {
  }

  /** A character that JSON text shows as it is. */
  predicate Shown(c: char) { c != '\"' && c != '\\' && c as int >= 0x20 }

  lemma QuotedPlain(s: string)
    requires All(Shown, s)
    ensures JsonText.Quoted(s) == "\"" + s + "\""
  {
    PrintPlain(s);
  }

  lemma {:induction false} PrintPlain(s: string)
    requires All(Shown, s)
    ensures JsonText.PrintChars(s) == s
  {
    if s != "" {
      PrintPlain(s[1..]);
      assert Shown(s[0]) && s == [s[0]] + s[1..];
    }
  }

  lemma ShownWords()
    ensures All(Shown, "kind") && All(Shown, "request") && All(Shown, "scope") && All(Shown, "backendRequestDigest")
  {
  }

  lemma WordsInOrder()
    ensures Less("kind", "request") && Less("backendRequestDigest", "scope")
  {
    assert "kind"[0] < "request"[0] && "backendRequestDigest"[0] < "scope"[0];
  }

  /** The text of an object of two plain keys, whichever is written first. */
  function ObjectText(k1: string, t1: string, k2: string, t2: string): string {
    "{" + ("\"" + k1 + "\"") + ":" + t1 + "," + ("\"" + k2 + "\"") + ":" + t2 + "}"
  }

  lemma PairDigest(sha: Hash, k1: string, v1: Json, k2: string, v2: Json)
    requires Less(k1, k2) && All(Shown, k1) && All(Shown, k2)
    ensures Digest(sha, Pair(k1, v1, k2, v2)) == sha(ObjectText(k1, CanonicalText(v1), k2, CanonicalText(v2)))
    ensures Digest(sha, Pair(k2, v2, k1, v1)) == sha(ObjectText(k1, CanonicalText(v1), k2, CanonicalText(v2)))
  {
    PairText(k1, v1, k2, v2);
    QuotedPlain(k1);
    QuotedPlain(k2);
  }

  /** What the backend digest hashes: kind and request, in this order. */
  lemma BackendDigestText(sha: Hash, fs: List<Field>)
    ensures BackendDigest(sha, fs) ==
            sha(ObjectText("kind", JsonText.Quoted(Kind(Filled(fs))), "request", CanonicalText(Obj(Filled(fs)))))
  {
    ShownWords();
    WordsInOrder();
    PairDigest(sha, "kind", Str(Kind(Filled(fs))), "request", Obj(Filled(fs)));
  }

  /** What the request digest hashes: the backend digest and the scope. */
  lemma RequestDigestText(sha: Hash, fs: List<Field>, scope: string)
    ensures RequestDigest(sha, fs, scope) ==
            sha(ObjectText("backendRequestDigest", JsonText.Quoted(BackendDigest(sha, fs)), "scope", JsonText.Quoted(scope)))
  {
    ShownWords();
    WordsInOrder();
    PairDigest(sha, "backendRequestDigest", Str(BackendDigest(sha, fs)), "scope", Str(scope));
  }

  // ---- operation identities -------------------------------------------------------

  newtype byte = b: int | 0 <= b < 256

  function HexByte(b: byte): string { [JsonText.HEX[b as int / 16], JsonText.HEX[b as int % 16]] }

  /** Two lower-case hex digits per byte. */
  function Hex(bytes: seq<byte>): (r: string)
    ensures |r| == 2 * |bytes|
  {
    if bytes == [] then ""
    else HexByte(bytes[0]) + Hex(bytes[1..])
  }

  function OperationId(nonce: seq<byte>): string { "applb-" + Hex(nonce) }

  /** The characters `request` lets an operation identity have. */
  predicate IdChar(c: char) { IsLetter(c) || IsDigit(c) || c == '-' || c == '_' }

  lemma HexDigit(n: nat)
    requires n < 16
    ensures IsDigit(JsonText.HEX[n]) || 'a' <= JsonText.HEX[n] <= 'f'
  {
    JsonText.HexRoundTrip(n);
  }

  lemma {:induction false} HexIsIdText(bytes: seq<byte>)
    ensures All(IdChar, Hex(bytes))
  {
    if bytes != [] {
      HexDigit(bytes[0] as int / 16);
      HexDigit(bytes[0] as int % 16);
      HexIsIdText(bytes[1..]);
    }
  }

  lemma HexByteInjective(a: byte, b: byte)
    requires HexByte(a) == HexByte(b)
    ensures a == b
  {
    var p, q := a as int, b as int;
    JsonText.HexRoundTrip(p / 16);
    JsonText.HexRoundTrip(p % 16);
    JsonText.HexRoundTrip(q / 16);
    JsonText.HexRoundTrip(q % 16);
    assert HexByte(a)[0] == HexByte(b)[0] && HexByte(a)[1] == HexByte(b)[1];
  }

  lemma {:induction false} HexInjective(a: seq<byte>, b: seq<byte>)
    requires Hex(a) == Hex(b)
    ensures a == b
  {
    if a != [] {
      assert Hex(a)[..2] == HexByte(a[0]) && Hex(b)[..2] == HexByte(b[0]);
      assert Hex(a)[2..] == Hex(a[1..]) && Hex(b)[2..] == Hex(b[1..]);
      HexByteInjective(a[0], b[0]);
      HexInjective(a[1..], b[1..]);
    }
  }

  /** Different nonces give different identities, all of the accepted shape. */
  lemma OperationIdsAreDistinct(a: seq<byte>, b: seq<byte>)
    ensures OperationId(a) == OperationId(b) <==> a == b
    ensures All(IdChar, OperationId(a)) && |OperationId(a)| == 6 + 2 * |a|
  {
    HexIsIdText(a);
    assert OperationId(a)[6..] == Hex(a) && OperationId(b)[6..] == Hex(b);
    if OperationId(a) == OperationId(b) { HexInjective(a, b); }
    forall i | 0 <= i < |OperationId(a)| ensures IdChar(OperationId(a)[i]) {
      if i >= 6 { assert OperationId(a)[i] == Hex(a)[i - 6]; }
    }
  }

  // ---- prepare ---------------------------------------------------------------------

  datatype Intent = Intent(operationId: string, requestDigest: string, backendRequestDigest: string, transport: string)

  datatype Prepared = Prepared(intent: Intent, body: Json)

  datatype Url = Url(scheme: string, username: string, password: Option<string>,
                     query: Option<string>, fragment: Option<string>)

  datatype PrepareError = InvalidTransport | TransportNotPlain | NotAnObject | NoIdentity

  predicate PlainUrl(url: Url) {
    && (url.scheme == "http" || url.scheme == "https")
    && url.username == "" && url.password.None? && url.query.None? && url.fragment.None?
  }

  /** What a successful `prepare` returns for these inputs. */
  function PreparedFor(sha: Hash, fs: List<Field>, transport: string, scope: string, nonce: seq<byte>): Prepared {
    var digest := RequestDigest(sha, fs, scope);
    Prepared(
      Intent(OperationId(nonce), digest, BackendDigest(sha, fs), transport),
      Obj(Cons(Field("requestDigest", Str(digest)),
          Cons(Field("kind", Str(Kind(Filled(fs)))),
          Cons(Field("request", Obj(Filled(fs))), Nil)))))
  }

  /** `parse` is the URL parser, `random` the outcome of drawing 16 random bytes. */
  method Prepare(sha: Hash, parse: string -> Option<Url>, request: Json, transport: string,
                 scope: string, random: Option<seq<byte>>)
    returns (r: Result<Prepared, PrepareError>)
    requires Valid(request)
    ensures var local := "unix:" <= transport;
      r == if !local && parse(transport).None? then Err(InvalidTransport)
           else if !local && !PlainUrl(parse(transport).value) then Err(TransportNotPlain)
           else if !request.Obj? then Err(NotAnObject)
           else if random.None? then Err(NoIdentity)
           else Ok(PreparedFor(sha, request.fields, transport, scope, random.value))
    ensures r == Err(TransportNotPlain) <==>
      && !("unix:" <= transport) && parse(transport).Some?
      && var url := parse(transport).value;
         !((url.scheme == "http" || url.scheme == "https") && url.username == "" && url.password == None
           && url.query == None && url.fragment == None)
    ensures r.Ok? ==>
      && r.value.body.Obj? && r.value.intent.transport == transport
      && Lookup(r.value.body.fields, "kind") == Some(Str(if NamesArchive(request.fields) then "archive" else "plain"))
  {
    if !("unix:" <= transport) {
      match parse(transport) {
        case None => return Err(InvalidTransport);
        case Some(url) => if !PlainUrl(url) { return Err(TransportNotPlain); }
      }
    }
    if !request.Obj? { return Err(NotAnObject); }
    var fields := request.fields;
    fields := OrInsert(fields, "region", REGION);
    fields := OrInsert(fields, "image", IMAGE);
    fields := OrInsert(fields, "size_class", SIZE_CLASS);
    fields := OrInsert(fields, "open_ports", OPEN_PORTS);
    var driver := Lookup(fields, "driver");
    if driver.Some? {
      fields := Remove(fields, "driver");
      fields := OrInsert(fields, "backend_type", driver.value);
    }
    assert fields == Filled(request.fields);
    var kind := Kind(fields);
    var backendDigest := Digest(sha, Pair("kind", Str(kind), "request", Obj(fields)));
    var digest := Digest(sha, Pair("scope", Str(scope), "backendRequestDigest", Str(backendDigest)));
    match random {
      case None => return Err(NoIdentity);
      case Some(nonce) =>
        KindExactly(request.fields);
        var body := Obj(Cons(Field("requestDigest", Str(digest)),
                        Cons(Field("kind", Str(kind)),
                        Cons(Field("request", Obj(fields)), Nil))));
        return Ok(Prepared(Intent(OperationId(nonce), digest, backendDigest, transport), body));
    }
  }
}
