/** What the directory of provider objects means: the map a fresh `load` of it
    yields, whatever order the directory is enumerated in. */
module ProviderFiles {
  import opened Text
  import opened Maps
  import opened FileNames

  type Bytes = seq<bv8>

  datatype SecretRef = SecretRef(namespace: Option<string>, secret: string, key: string, username: Option<string>)

  datatype Jwt = Jwt(secret: Option<SecretRef>, settings: string)

  /** A provider; `identity` stands for the fields that no code here looks into. */
  datatype Spec = Spec(name: string, namespace: string, clientSecret: Option<SecretRef>, jwt: Option<Jwt>, identity: string)

  function KeyOf(spec: Spec): Key { (spec.namespace, spec.name) }

  function Scoped(r: Option<SecretRef>, namespace: string): Option<SecretRef> {
    match r
    case None => None
    case Some(s) => Some(s.(namespace := Some(namespace)))
  }

  /** `normalize`: every secret reference is bound to the provider's namespace. */
  function Normalize(spec: Spec): (r: Spec)
    ensures KeyOf(r) == KeyOf(spec)
  {
    spec.(clientSecret := Scoped(spec.clientSecret, spec.namespace),
          jwt := match spec.jwt
                 case None => None
                 case Some(j) => Some(j.(secret := Scoped(j.secret, spec.namespace))))
  }

  lemma NormalizeIsIdempotent(spec: Spec)
    ensures Normalize(Normalize(spec)) == Normalize(spec)
  {
  }

  /** The JSON codec of a spec, and the part of validation that is not about names. */
  datatype Codec = Codec(encode: Spec -> Bytes, decode: Bytes -> Option<Spec>, identityOk: Spec -> bool)

  ghost predicate RoundTrips(c: Codec) { forall s :: c.decode(c.encode(s)) == Some(s) }

  predicate Validates(c: Codec, spec: Spec) {
    ValidName(spec.name) && ValidName(spec.namespace) && c.identityOk(spec)
  }

  /** What a handler passes to `upsert`: normalised, then validated. */
  predicate Storable(c: Codec, spec: Spec) { Normalize(spec) == spec && Validates(c, spec) }

  type Files = map<string, Bytes>

  /** The object `load` finds in a file, if it can be read, parsed and validated. */
  function Object(c: Codec, files: Files, unreadable: set<string>, file: string): (r: Option<Spec>)
    ensures r.Some? ==> Storable(c, r.value)
  {
    if file !in files || file in unreadable then None
    else match c.decode(files[file])
      case None => None
      case Some(raw) =>
        var spec := Normalize(raw);
        NormalizeIsIdempotent(raw);
        if Validates(c, spec) then Some(spec) else None
  }

  /** A secret reference that can only resolve behind the provider's own wall. */
  predicate BoundTo(r: Option<SecretRef>, namespace: string) { r.Some? ==> r.value.namespace == Some(namespace) }

  predicate Bound(spec: Spec) {
    BoundTo(spec.clientSecret, spec.namespace) && (spec.jwt.Some? ==> BoundTo(spec.jwt.value.secret, spec.namespace))
  }

  /** The two references are to one secret, but perhaps behind different walls. */
  predicate SameSecret(a: Option<SecretRef>, b: Option<SecretRef>) {
    && (a.Some? <==> b.Some?)
    && (a.Some? ==> a.value.secret == b.value.secret && a.value.key == b.value.key && a.value.username == b.value.username)
  }

  /** The two providers differ at most in the walls of their references. */
  predicate SameProvider(a: Spec, b: Spec) {
    && a.name == b.name && a.namespace == b.namespace && a.identity == b.identity
    && SameSecret(a.clientSecret, b.clientSecret) && (a.jwt.Some? <==> b.jwt.Some?)
    && (a.jwt.Some? ==> a.jwt.value.settings == b.jwt.value.settings && SameSecret(a.jwt.value.secret, b.jwt.value.secret))
  }

  /** Binding changes nothing else, and nothing at all where the walls are right. */
  lemma NormalizeBinds(spec: Spec)
    ensures Bound(Normalize(spec)) && SameProvider(Normalize(spec), spec)
    ensures Normalize(spec) == spec <==> Bound(spec)
  {
  }

  /** A file is loaded if and only if it can be read and parsed and, with its
      references bound, has valid names and is otherwise in order. What is loaded is
      bound to its namespace, and else just as it was written. */
  lemma LoadedIsBound(c: Codec, files: Files, unreadable: set<string>, file: string)
    ensures var found := Object(c, files, unreadable, file);
            && (found.Some? ==>
                  && file in files && file !in unreadable && c.decode(files[file]).Some?
                  && Bound(found.value) && SameProvider(found.value, c.decode(files[file]).value)
                  && ValidName(found.value.name) && ValidName(found.value.namespace) && c.identityOk(found.value))
            && (found.None? && file in files && file !in unreadable && c.decode(files[file]).Some? ==>
                  forall spec | Bound(spec) && SameProvider(spec, c.decode(files[file]).value) ::
                    !(ValidName(spec.name) && ValidName(spec.namespace) && c.identityOk(spec)))
  {
    if file in files && c.decode(files[file]).Some? {
      var raw := c.decode(files[file]).value;
      NormalizeBinds(raw);
      forall spec | Bound(spec) && SameProvider(spec, raw) ensures spec == Normalize(raw) { }
    }
  }

  // ---- the loop of `load`, and what it must amount to -------------------------------------

  /** The map and the skip count after looking at these directory entries in turn. */
  function Scan(c: Codec, files: Files, unreadable: set<string>, entries: seq<string>): (map<Key, Spec>, nat) {
    if entries == [] then (map[], 0)
    else
      var (loaded, skipped) := Scan(c, files, unreadable, entries[..|entries| - 1]);
      var file := entries[|entries| - 1];
      if !IsJson(file) then (loaded, skipped)
      else match Object(c, files, unreadable, file)
        case Some(spec) => (loaded[KeyOf(spec) := spec], skipped)
        case None => (loaded, skipped + 1)
  }

  /** `flatten`: a directory entry that could not be read is passed over, uncounted. */
  function Flattened(listing: seq<Option<string>>): seq<string> {
    if listing == [] then []
    else
      var last := listing[|listing| - 1];
      Flattened(listing[..|listing| - 1]) + match last case None => [] case Some(file) => [file]
  }

  lemma ScanNext(c: Codec, files: Files, unreadable: set<string>, listing: seq<Option<string>>, i: nat)
    requires i < |listing|
    ensures var (loaded, skipped) := Scan(c, files, unreadable, Flattened(listing[..i]));
            Scan(c, files, unreadable, Flattened(listing[..i + 1])) ==
            if listing[i].None? || !IsJson(listing[i].value) then (loaded, skipped)
            else match Object(c, files, unreadable, listing[i].value)
              case Some(spec) => (loaded[KeyOf(spec) := spec], skipped)
              case None => (loaded, skipped + 1)
  {
    var before := Flattened(listing[..i]);
    assert listing[..i + 1][..i] == listing[..i];
    if listing[i].Some? {
      assert (before + [listing[i].value])[..|before|] == before;
    } else {
      assert before + [] == before;
    }
  }

  predicate NoDuplicates(s: seq<string>) { forall i, j | 0 <= i < j < |s| :: s[i] != s[j] }

  /** `entries` is one enumeration of the directory. */
  ghost predicate Enumerates(entries: seq<string>, files: Files) {
    NoDuplicates(entries) && forall f :: f in entries <==> f in files
  }

  /** One enumeration, of which some entries may have been passed over. */
  ghost predicate Lists(entries: seq<string>, files: Files) { NoDuplicates(entries) && forall f | f in entries :: f in files }

  /** Every readable object sits under its own file name. */
  ghost predicate OwnNamed(c: Codec, files: Files, unreadable: set<string>) {
    forall f | IsJson(f) && Object(c, files, unreadable, f).Some? ::
      f == File(KeyOf(Object(c, files, unreadable, f).value))
  }

  /** The object under a key, looked up by its file name alone. */
  function Held(c: Codec, files: Files, unreadable: set<string>, k: Key): Option<Spec> {
    match Object(c, files, unreadable, File(k))
    case Some(spec) => if KeyOf(spec) == k then Some(spec) else None
    case None => None
  }

  /** Scanning finds a key exactly when its own file has been looked at. */
  lemma {:induction false} ScanFindsHeld(c: Codec, files: Files, unreadable: set<string>, entries: seq<string>, k: Key)
    requires OwnNamed(c, files, unreadable)
    ensures Get(Scan(c, files, unreadable, entries).0, k)
         == if File(k) in entries then Held(c, files, unreadable, k) else None
  {
    if entries != [] {
      var file := entries[|entries| - 1];
      var rest := entries[..|entries| - 1];
      ScanFindsHeld(c, files, unreadable, rest, k);
      assert entries == rest + [file];
      NamesOf(k.0, k.1);
    }
  }

  /** The map a fresh load yields does not depend on the enumeration: each key
      holds what its own file holds. */
  lemma LoadIsHeld(c: Codec, files: Files, unreadable: set<string>, entries: seq<string>, k: Key)
    requires OwnNamed(c, files, unreadable) && Enumerates(entries, files)
    ensures Get(Scan(c, files, unreadable, entries).0, k) == Held(c, files, unreadable, k)
  {
    ScanFindsHeld(c, files, unreadable, entries, k);
  }

  lemma OrderDoesNotMatter(c: Codec, files: Files, unreadable: set<string>, a: seq<string>, b: seq<string>)
    requires OwnNamed(c, files, unreadable) && Enumerates(a, files) && Enumerates(b, files)
    ensures Scan(c, files, unreadable, a) == Scan(c, files, unreadable, b)
  {
    var m, n := Scan(c, files, unreadable, a).0, Scan(c, files, unreadable, b).0;
    forall k ensures Get(m, k) == Get(n, k) {
      LoadIsHeld(c, files, unreadable, a, k);
      LoadIsHeld(c, files, unreadable, b, k);
    }
    SameMap(m, n);
    ScanCountsSkipped(c, files, unreadable, a);
    ScanCountsSkipped(c, files, unreadable, b);
    assert Bad(c, files, unreadable, a) == Bad(c, files, unreadable, b);
  }

  // ---- counting -----------------------------------------------------------------------------

  function Json(entries: seq<string>): set<string> { set f | f in entries && IsJson(f) }

  function Bad(c: Codec, files: Files, unreadable: set<string>, entries: seq<string>): set<string> {
    set f | f in entries && IsJson(f) && Object(c, files, unreadable, f).None?
  }

  lemma {:induction false} ScanCountsSkipped(c: Codec, files: Files, unreadable: set<string>, entries: seq<string>)
    requires NoDuplicates(entries)
    ensures Scan(c, files, unreadable, entries).1 == |Bad(c, files, unreadable, entries)|
  {
    if entries != [] {
      var file := entries[|entries| - 1];
      var rest := entries[..|entries| - 1];
      ScanCountsSkipped(c, files, unreadable, rest);
      BadOfLast(c, files, unreadable, rest, file);
      assert entries == rest + [file] && file !in rest;
    }
  }

  lemma BadOfLast(c: Codec, files: Files, unreadable: set<string>, rest: seq<string>, file: string)
    ensures Bad(c, files, unreadable, rest + [file]) ==
            Bad(c, files, unreadable, rest)
            + if IsJson(file) && Object(c, files, unreadable, file).None? then {file} else {}
  {
  }

  lemma OneMoreKey(m: map<Key, Spec>, k: Key, spec: Spec)
    ensures |m[k := spec]| == if k in m then |m| else |m| + 1
  {
    assert m[k := spec].Keys == m.Keys + {k};
  }

  lemma JsonOfLast(entries: seq<string>)
    requires entries != [] && NoDuplicates(entries)
    ensures var file := entries[|entries| - 1];
            |Json(entries)| == |Json(entries[..|entries| - 1])| + if IsJson(file) then 1 else 0
  {
    var file := entries[|entries| - 1];
    var rest := entries[..|entries| - 1];
    assert entries == rest + [file] && file !in rest;
    assert Json(entries) == if IsJson(file) then Json(rest) + {file} else Json(rest);
  }

  /** No file is loaded or skipped twice. */
  lemma {:induction false} ScanCountsAtMostFiles(c: Codec, files: Files, unreadable: set<string>, entries: seq<string>)
    requires NoDuplicates(entries)
    ensures var (loaded, skipped) := Scan(c, files, unreadable, entries);
            |loaded| + skipped <= |Json(entries)|
  {
    if entries != [] {
      var file := entries[|entries| - 1];
      ScanCountsAtMostFiles(c, files, unreadable, entries[..|entries| - 1]);
      JsonOfLast(entries);
      var spec := Object(c, files, unreadable, file);
      if spec.Some? {
        OneMoreKey(Scan(c, files, unreadable, entries[..|entries| - 1]).0, KeyOf(spec.value), spec.value);
      }
    }
  }

  /** Where every object sits under its own name, loaded and skipped add up to
      the .json files. */
  lemma {:induction false} ScanCountsFiles(c: Codec, files: Files, unreadable: set<string>, entries: seq<string>)
    requires NoDuplicates(entries) && OwnNamed(c, files, unreadable)
    ensures var (loaded, skipped) := Scan(c, files, unreadable, entries);
            |loaded| + skipped == |Json(entries)|
  {
    if entries != [] {
      var file := entries[|entries| - 1];
      var rest := entries[..|entries| - 1];
      ScanCountsFiles(c, files, unreadable, rest);
      JsonOfLast(entries);
      var spec := Object(c, files, unreadable, file);
      if IsJson(file) && spec.Some? {
        ScanFindsHeld(c, files, unreadable, rest, KeyOf(spec.value));
        OneMoreKey(Scan(c, files, unreadable, rest).0, KeyOf(spec.value), spec.value);
      }
    }
  }

  // ---- writing and removing one object --------------------------------------------------------

  /** How far `persist_one` gets. A failed or interrupted write may leave any
      part of the contents in the temporary file, or not have touched it. */
  datatype PersistIo =
    | MkdirFails
    | EncodeFails
    | WriteStops(left: Option<Bytes>)
    | RenameStops
    | Persists

  function AfterPersist(c: Codec, files: Files, spec: Spec, io: PersistIo): Files {
    var temp := Temp(KeyOf(spec));
    match io
    case MkdirFails => files
    case EncodeFails => files
    case WriteStops(None) => files
    case WriteStops(Some(part)) => files[temp := part]
    case RenameStops => files[temp := c.encode(spec)]
    case Persists => (files - {temp})[File(KeyOf(spec)) := c.encode(spec)]
  }

  function AfterUnlink(files: Files, k: Key, fails: bool): Files { if fails then files else files - {File(k)} }

  /** Which object a key holds after writing another: the old directory or the
      new one, never anything in between, wherever the writing stops. */
  lemma PersistIsAtomic(c: Codec, files: Files, spec: Spec, io: PersistIo)
    requires RoundTrips(c) && Storable(c, spec) && OwnNamed(c, files, {})
    ensures OwnNamed(c, AfterPersist(c, files, spec, io), {})
    ensures forall f | IsJson(f) ::
              Object(c, AfterPersist(c, files, spec, io), {}, f) ==
              if io.Persists? && f == File(KeyOf(spec)) then Some(spec) else Object(c, files, {}, f)
  {
    var k := KeyOf(spec);
    NamesOf(k.0, k.1);
    var after := AfterPersist(c, files, spec, io);
    forall f | IsJson(f)
      ensures Object(c, after, {}, f) == if io.Persists? && f == File(k) then Some(spec) else Object(c, files, {}, f)
    {
      if io.Persists? && f == File(k) {
        assert c.decode(after[f]) == Some(spec);
      } else {
        assert f != Temp(k);
        assert f in after <==> f in files;
      }
    }
  }

  lemma UnlinkTakesOne(c: Codec, files: Files, k: Key, fails: bool)
    requires OwnNamed(c, files, {})
    ensures OwnNamed(c, AfterUnlink(files, k, fails), {})
    ensures forall f ::
              Object(c, AfterUnlink(files, k, fails), {}, f) ==
              if !fails && f == File(k) then None else Object(c, files, {}, f)
  {
  }

  /** Temporary files left behind by any number of crashes are neither loaded nor
      counted, whatever is in them. */
  lemma {:induction false} LeftoversAreInvisible(c: Codec, files: Files, more: Files, unreadable: set<string>, entries: seq<string>)
    requires forall f | f in more :: !IsJson(f)
    ensures Scan(c, files + more, unreadable, entries) ==
            Scan(c, files, unreadable, entries)
  {
    if entries != [] {
      LeftoversAreInvisible(c, files, more, unreadable, entries[..|entries| - 1]);
      var file := entries[|entries| - 1];
      if IsJson(file) {
        assert file !in more;
        assert Object(c, files + more, unreadable, file) == Object(c, files, unreadable, file);
      }
    }
  }
}
