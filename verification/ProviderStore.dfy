/** The provider store: an in-memory map published first, and a directory of one
    file per object written after it. */
module ProviderStore {
  import opened Text
  import opened Maps
  import opened FileNames
  import opened ProviderFiles
  import ProviderList

  datatype IoError = IoError

  /** What readers see, and what is on disk. */
  datatype State = State(memory: map<Key, Spec>, files: Files)

  function Upserted(c: Codec, s: State, spec: Spec, io: PersistIo): State {
    State(s.memory[KeyOf(spec) := spec], AfterPersist(c, s.files, spec, io))
  }

  function Removed(s: State, k: Key, fails: bool): State {
    State(s.memory - {k}, if k in s.memory then AfterUnlink(s.files, k, fails) else s.files)
  }

  function RemoveResult(s: State, k: Key, fails: bool): Result<bool, IoError> {
    if k !in s.memory then Ok(false) else if fails then Err(IoError) else Ok(true)
  }

  /** `listing` is the outcome of reading the directory: nothing changes without one. */
  function Loaded(c: Codec, s: State, listing: Option<seq<Option<string>>>, unreadable: set<string>): State {
    match listing
    case None => s
    case Some(entries) => s.(memory := Scan(c, s.files, unreadable, Flattened(entries)).0)
  }

  /** The directory, with the filesystem calls the store makes on it. */
  class Directory {
    var files: Files

    constructor (files: Files)
      ensures this.files == files
    {
      this.files := files;
    }

    /** `fs::write`, which may stop before or after touching the file. */
    method Write(name: string, contents: Bytes, io: PersistIo) returns (ok: bool)
      modifies this
      ensures ok <==> !io.WriteStops?
      ensures files == if ok then old(files)[name := contents]
                       else if io.left.Some? then old(files)[name := io.left.value] else old(files)
    {
      match io {
        case WriteStops(left) =>
          if left.Some? { files := files[name := left.value]; }
          ok := false;
        case _ =>
          files := files[name := contents];
          ok := true;
      }
    }

    /** `fs::rename` of a file that exists. */
    method Rename(from: string, to: string, io: PersistIo) returns (ok: bool)
      requires from in files && from != to
      modifies this
      ensures ok <==> !io.RenameStops?
      ensures files == if ok then (old(files) - {from})[to := old(files)[from]] else old(files)
    {
      ok := !io.RenameStops?;
      if ok { files := (files - {from})[to := files[from]]; }
    }

    /** `fs::remove_file`, where a missing file counts as removed. */
    method Unlink(name: string, fails: bool) returns (ok: bool)
      modifies this
      ensures ok == !fails
      ensures files == if ok then old(files) - {name} else old(files)
    {
      ok := !fails;
      if ok && name in files { files := files - {name}; }
    }
  }

  class AuthProviderStore {
    var providers: map<Key, Spec>
    const dir: Directory
    const codec: Codec

    /** Every provider is in the map under its own key. */
    predicate Valid()
      reads this
    {
      ProviderList.Keyed(providers)
    }

    constructor (dir: Directory, codec: Codec)
      ensures providers == map[] && this.dir == dir && this.codec == codec && Valid()
    {
      this.providers := map[];
      this.dir := dir;
      this.codec := codec;
    }

    function Now(): State
      reads this, dir
    {
      State(providers, dir.files)
    }

    method Upsert(spec: Spec, io: PersistIo) returns (r: Result<Spec, IoError>)
      requires Valid()
      modifies this, dir
      ensures Valid()
      ensures Now() == Upserted(codec, old(Now()), spec, io)
      ensures r == if io.Persists? then Ok(spec) else Err(IoError)
    {
      var next := providers;
      next := next[KeyOf(spec) := spec];
      providers := next;
      var ok := PersistOne(spec, io);
      r := if ok then Ok(spec) else Err(IoError);
    }

    method PersistOne(spec: Spec, io: PersistIo) returns (ok: bool)
      modifies dir
      ensures dir.files == AfterPersist(codec, old(dir.files), spec, io)
      ensures ok <==> io.Persists?
    {
      if io.MkdirFails? || io.EncodeFails? { return false; }
      var json := codec.encode(spec);
      var path := FileName(spec.namespace, spec.name);
      var tmp := WithExtension(path, "json.tmp");
      NamesOf(spec.namespace, spec.name);
      ok := dir.Write(tmp, json, io);
      if !ok { return; }
      ok := dir.Rename(tmp, path, io);
      assert ok ==> dir.files == (old(dir.files)[tmp := json] - {tmp})[path := json];
    }

    method Remove(namespace: string, name: string, fails: bool) returns (r: Result<bool, IoError>)
      requires Valid()
      modifies this, dir
      ensures Valid()
      ensures Now() == Removed(old(Now()), (namespace, name), fails)
      ensures r == RemoveResult(old(Now()), (namespace, name), fails)
    {
      var next := providers;
      var existed := (namespace, name) in next;
      next := next - {(namespace, name)};
      providers := next;
      if existed {
        var ok := dir.Unlink(FileName(namespace, name), fails);
        if !ok { return Err(IoError); }
      }
      return Ok(existed);
    }

    method Load(listing: Option<seq<Option<string>>>, unreadable: set<string>) returns (loaded: nat, skipped: nat)
      requires Valid()
      modifies this
      ensures Valid()
      ensures Now() == Loaded(codec, old(Now()), listing, unreadable)
      ensures (loaded, skipped) ==
              match listing
              case None => (0, 0)
              case Some(entries) =>
                var (m, n) := Scan(codec, dir.files, unreadable, Flattened(entries)); (|m|, n)
    {
      if listing.None? { return 0, 0; }
      var entries := listing.value;
      var found: map<Key, Spec> := map[];
      skipped := 0;
      for i := 0 to |entries|
        invariant (found, skipped) == Scan(codec, dir.files, unreadable, Flattened(entries[..i])) && ProviderList.Keyed(found)
      {
        ScanNext(codec, dir.files, unreadable, entries, i);
        if entries[i].None? { continue; }
        var file := entries[i].value;
        if !IsJson(file) { continue; }
        match Object(codec, dir.files, unreadable, file) {
          case Some(spec) => found := found[KeyOf(spec) := spec];
          case None => skipped := skipped + 1;
        }
      }
      assert entries[..|entries|] == entries;
      loaded := |found|;
      providers := found;
    }

    /** The providers of the namespace, each once, in ascending order of names;
        `keys` is the order in which the iteration over the map happens to go. */
    method List(namespace: string, keys: seq<Key>) returns (out: seq<Spec>)
      requires Valid() && ProviderList.Iterates(providers, keys)
      ensures ProviderList.Strictly(ProviderList.ByName, out)
      ensures forall s :: s in out <==> Get(s.namespace, s.name) == Some(s) && s.namespace == namespace
    {
      ProviderList.ListOfSorted(providers, keys, namespace);
      out := ProviderList.InNamespace(ProviderList.Values(providers, keys), namespace);
      out := ProviderList.Sort(ProviderList.ByName, out);
    }

    /** All providers, each once, in ascending order of namespaces and names. */
    method ListAll(keys: seq<Key>) returns (out: seq<Spec>)
      requires Valid() && ProviderList.Iterates(providers, keys)
      ensures ProviderList.Strictly(ProviderList.ByKey, out)
      ensures forall s :: s in out <==> Get(s.namespace, s.name) == Some(s)
    {
      ProviderList.ListAllSorted(providers, keys);
      out := ProviderList.Values(providers, keys);
      out := ProviderList.Sort(ProviderList.ByKey, out);
    }

    function Get(namespace: string, name: string): Option<Spec>
      reads this
    {
      Maps.Get(providers, (namespace, name))
    }
  }
}
