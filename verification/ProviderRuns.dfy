/** Memory against a fresh load of the directory, through any run of upserts and
    removals with failing I/O, crashes and restarts. */
module ProviderRuns {
  import opened Text
  import opened Maps
  import opened FileNames
  import opened ProviderFiles
  import opened ProviderStore

  /** A crash inside an upsert leaves the directory as an upsert that stops at
      the same place, and is followed by a restart. */
  datatype Event =
    | Upsert(spec: Spec, io: PersistIo)
    | Remove(key: Key, fails: bool)
    | Restart(listing: Option<seq<Option<string>>>, unreadable: set<string>)

  /** A restart may find some entries, some files or the whole directory unreadable. */
  ghost predicate Enabled(c: Codec, s: State, e: Event) {
    match e
    case Upsert(spec, _) => Storable(c, spec)
    case Remove(_, _) => true
    case Restart(listing, _) => listing.Some? ==> Lists(Flattened(listing.value), s.files)
  }

  function Apply(c: Codec, s: State, e: Event): State {
    match e
    case Upsert(spec, io) => Upserted(c, s, spec, io)
    case Remove(k, fails) => Removed(s, k, fails)
    case Restart(listing, unreadable) => Loaded(c, State(map[], s.files), listing, unreadable)
  }

  /** The files a restart has not read. */
  function Missed(files: Files, listing: Option<seq<Option<string>>>, unreadable: set<string>): set<string> {
    set f | f in files && (listing.None? || f in unreadable || f !in Flattened(listing.value))
  }

  /** The keys of the objects in these files. */
  function KeysIn(c: Codec, files: Files, some: set<string>): set<Key> {
    set f | f in files && f in some && IsJson(f) && Object(c, files, {}, f).Some? :: KeyOf(Object(c, files, {}, f).value)
  }

  /** The keys whose last operation failed: an upsert or an `Ok(true)` removal
      that succeeds clears its key, `Ok(false)` leaves it as it was, and a restart
      leaves the objects that it could not read. */
  function Suspects(c: Codec, s: State, e: Event, suspects: set<Key>): set<Key> {
    match e
    case Upsert(spec, io) => if io.Persists? then suspects - {KeyOf(spec)} else suspects + {KeyOf(spec)}
    case Remove(k, fails) =>
      (match RemoveResult(s, k, fails)
       case Ok(true) => suspects - {k}
       case Ok(false) => suspects
       case Err(_) => suspects + {k})
    case Restart(listing, unreadable) => KeysIn(c, s.files, Missed(s.files, listing, unreadable))
  }

  /** A success clears its key, a failure marks it, and neither touches another. */
  lemma SuspectsExactly(c: Codec, s: State, e: Event, suspects: set<Key>, k: Key)
    ensures e.Upsert? && KeyOf(e.spec) == k ==> (k in Suspects(c, s, e, suspects) <==> !e.io.Persists?)
    ensures e.Remove? && e.key == k && k in s.memory ==> (k in Suspects(c, s, e, suspects) <==> e.fails)
    ensures (e.Upsert? && KeyOf(e.spec) != k) || (e.Remove? && (e.key != k || k !in s.memory)) ==>
              (k in Suspects(c, s, e, suspects) <==> k in suspects)
  {
  }

  ghost predicate Run(c: Codec, s: State, suspects: set<Key>, es: seq<Event>, t: State, left: set<Key>)
    decreases |es|
  {
    if es == [] then s == t && suspects == left
    else Enabled(c, s, es[0]) && Run(c, Apply(c, s, es[0]), Suspects(c, s, es[0], suspects), es[1..], t, left)
  }

  // ---- the invariant, one key at a time -------------------------------------------------------

  /** The file of `k` holds nothing but `k`. */
  predicate Sole(c: Codec, files: Files, k: Key) {
    var held := Object(c, files, {}, File(k));
    held.Some? ==> KeyOf(held.value) == k
  }

  /** The event writes no other object to the file of `k`. */
  predicate Spares(k: Key, e: Event) { e.Upsert? ==> Alone(k, KeyOf(e.spec)) }

  ghost predicate Inv(c: Codec, k: Key, s: State, suspects: set<Key>) {
    && OwnNamed(c, s.files, {}) && Sole(c, s.files, k)
    && (forall l | l in s.memory :: Alone(k, l))
    && (k !in suspects ==> Get(s.memory, k) == Held(c, s.files, {}, k))
  }

  /** What a key holds after an upsert of that key, or of one that does not take
      its file. */
  lemma UpsertHolds(c: Codec, files: Files, spec: Spec, io: PersistIo, k: Key)
    requires RoundTrips(c) && Storable(c, spec) && OwnNamed(c, files, {})
    requires Alone(k, KeyOf(spec)) || Held(c, files, {}, k).None?
    ensures OwnNamed(c, AfterPersist(c, files, spec, io), {})
    ensures Held(c, AfterPersist(c, files, spec, io), {}, k)
         == if io.Persists? && k == KeyOf(spec) then Some(spec) else Held(c, files, {}, k)
    ensures Sole(c, files, k) && Alone(k, KeyOf(spec)) ==> Sole(c, AfterPersist(c, files, spec, io), k)
  {
    PersistIsAtomic(c, files, spec, io);
    NamesOf(k.0, k.1);
  }

  /** What a load holds under a key: what the key's file holds, if it has read that. */
  lemma LoadReads(c: Codec, files: Files, unreadable: set<string>, entries: seq<string>, k: Key)
    requires OwnNamed(c, files, {}) && Lists(entries, files)
    ensures Get(Scan(c, files, unreadable, entries).0, k)
         == if File(k) in entries && File(k) !in unreadable then Held(c, files, {}, k) else None
  {
    ScanFindsHeld(c, files, unreadable, entries, k);
  }

  lemma RestartKeepsInv(c: Codec, k: Key, files: Files, e: Event)
    requires OwnNamed(c, files, {}) && Sole(c, files, k) && e.Restart? && Enabled(c, State(map[], files), e)
    ensures Inv(c, k, Apply(c, State(map[], files), e), Suspects(c, State(map[], files), e, {}))
  {
    NamesOf(k.0, k.1);
    if e.listing.Some? {
      var entries := Flattened(e.listing.value);
      var m := Scan(c, files, e.unreadable, entries).0;
      forall l | l in m ensures Alone(k, l) {
        LoadReads(c, files, e.unreadable, entries, l);
        assert Get(m, l).Some?;
      }
      LoadReads(c, files, e.unreadable, entries, k);
    }
  }

  lemma UpsertKeepsInv(c: Codec, k: Key, s: State, suspects: set<Key>, e: Event)
    requires RoundTrips(c) && Inv(c, k, s, suspects) && e.Upsert? && Enabled(c, s, e) && Spares(k, e)
    ensures Inv(c, k, Apply(c, s, e), Suspects(c, s, e, suspects))
  {
    UpsertHolds(c, s.files, e.spec, e.io, k);
  }

  lemma RemoveKeepsInv(c: Codec, k: Key, s: State, suspects: set<Key>, e: Event)
    requires Inv(c, k, s, suspects) && e.Remove?
    ensures Inv(c, k, Apply(c, s, e), Suspects(c, s, e, suspects))
  {
    UnlinkTakesOne(c, s.files, e.key, e.fails);
  }

  lemma StepKeepsInv(c: Codec, k: Key, s: State, suspects: set<Key>, e: Event)
    requires RoundTrips(c) && Inv(c, k, s, suspects) && Enabled(c, s, e) && Spares(k, e)
    ensures Inv(c, k, Apply(c, s, e), Suspects(c, s, e, suspects))
  {
    match e
    case Upsert(_, _) => UpsertKeepsInv(c, k, s, suspects, e);
    case Remove(_, _) => RemoveKeepsInv(c, k, s, suspects, e);
    case Restart(_, _) => RestartKeepsInv(c, k, s.files, e);
  }

  lemma {:induction false} RunKeepsInv(c: Codec, k: Key, s: State, suspects: set<Key>, es: seq<Event>, t: State, left: set<Key>)
    requires RoundTrips(c) && Inv(c, k, s, suspects) && Run(c, s, suspects, es, t, left)
    requires forall e | e in es :: Spares(k, e)
    ensures Inv(c, k, t, left)
    decreases |es|
  {
    if es != [] {
      assert es[0] in es;
      StepKeepsInv(c, k, s, suspects, es[0]);
      RunKeepsInv(c, k, Apply(c, s, es[0]), Suspects(c, s, es[0], suspects), es[1..], t, left);
    }
  }

  /** From any directory of objects under their own names, after any start and any
      run, memory and every fresh load that can read the file of `k` agree on `k`,
      if no operation on it has failed since it was last put right and no other
      key of the run has its file. */
  lemma MemoryAgreesWithDisk(c: Codec, files: Files, start: Event, es: seq<Event>, t: State, suspects: set<Key>,
                             unreadable: set<string>, again: seq<string>, k: Key)
    requires RoundTrips(c) && OwnNamed(c, files, {}) && Sole(c, files, k)
    requires var s := State(map[], files);
             start.Restart? && Enabled(c, s, start) && Run(c, Apply(c, s, start), Suspects(c, s, start, {}), es, t, suspects)
    requires forall e | e in es :: Spares(k, e)
    requires k !in suspects
    requires Lists(again, t.files) && (File(k) in t.files ==> File(k) in again && File(k) !in unreadable)
    ensures Get(Scan(c, t.files, unreadable, again).0, k) == Get(t.memory, k)
  {
    var s := State(map[], files);
    RestartKeepsInv(c, k, files, start);
    RunKeepsInv(c, k, Apply(c, s, start), Suspects(c, s, start, {}), es, t, suspects);
    LoadReads(c, t.files, unreadable, again, k);
  }

  // ---- whose secrets a provider can name -----------------------------------------------------

  /** Every provider in memory is bound to its own namespace, and under its own key. */
  predicate AllBound(m: map<Key, Spec>) { forall k | k in m :: Bound(m[k]) && KeyOf(m[k]) == k }

  lemma {:induction false} ScanIsBound(c: Codec, files: Files, unreadable: set<string>, entries: seq<string>)
    ensures AllBound(Scan(c, files, unreadable, entries).0)
  {
    if entries != [] {
      ScanIsBound(c, files, unreadable, entries[..|entries| - 1]);
      LoadedIsBound(c, files, unreadable, entries[|entries| - 1]);
    }
  }

  /** In every run, no provider in memory can name another namespace's secret: its
      client secret and its JWT secret are bound to its own, whatever the files and
      the requests said. */
  lemma {:induction false} ProvidersStayBound(c: Codec, s: State, suspects: set<Key>, es: seq<Event>, t: State, left: set<Key>)
    requires AllBound(s.memory) && Run(c, s, suspects, es, t, left)
    ensures AllBound(t.memory)
    decreases |es|
  {
    if es != [] {
      var u := Apply(c, s, es[0]);
      match es[0] {
        case Upsert(spec, _) => NormalizeBinds(spec);
        case Remove(_, _) =>
        case Restart(listing, unreadable) => if listing.Some? { ScanIsBound(c, s.files, unreadable, Flattened(listing.value)); }
      }
      ProvidersStayBound(c, u, Suspects(c, s, es[0], suspects), es[1..], t, left);
    }
  }

  // ---- crashes ------------------------------------------------------------------------------

  /** Wherever an upsert stops, half-written file included, the next load finds
      exactly the old map, or exactly the old map with the new object. */
  lemma CrashIsAllOrNothing(c: Codec, files: Files, spec: Spec, io: PersistIo, before: seq<string>, after: seq<string>)
    requires RoundTrips(c) && Storable(c, spec) && OwnNamed(c, files, {}) && Sole(c, files, KeyOf(spec))
    requires Enumerates(before, files) && Enumerates(after, AfterPersist(c, files, spec, io))
    ensures var was := Scan(c, files, {}, before).0;
            Scan(c, AfterPersist(c, files, spec, io), {}, after).0 ==
            if io.Persists? then was[KeyOf(spec) := spec] else was
  {
    var now := AfterPersist(c, files, spec, io);
    var m, n := Scan(c, files, {}, before).0, Scan(c, now, {}, after).0;
    var want := if io.Persists? then m[KeyOf(spec) := spec] else m;
    forall k ensures Get(n, k) == Get(want, k) {
      UpsertHolds(c, files, spec, io, k);
      LoadIsHeld(c, files, {}, before, k);
      LoadIsHeld(c, now, {}, after, k);
    }
    SameMap(n, want);
  }

  /** Upserts one after the other, each of which may be cut short by a crash. */
  type Attempts = seq<(Spec, PersistIo)>

  function AfterAttempts(c: Codec, files: Files, attempts: Attempts): Files
    decreases |attempts|
  {
    if attempts == [] then files
    else AfterAttempts(c, AfterPersist(c, files, attempts[0].0, attempts[0].1), attempts[1..])
  }

  /** The map with the objects of exactly those upserts that reached their rename. */
  function Survivors(m: map<Key, Spec>, attempts: Attempts): map<Key, Spec>
    decreases |attempts|
  {
    if attempts == [] then m
    else
      var (spec, io) := attempts[0];
      Survivors(if io.Persists? then m[KeyOf(spec) := spec] else m, attempts[1..])
  }

  /** Objects whose files hold nothing else, on disk or among themselves. */
  ghost predicate Separate(c: Codec, files: Files, attempts: Attempts) {
    && (forall a | a in attempts :: Storable(c, a.0) && Sole(c, files, KeyOf(a.0)))
    && (forall a, b | a in attempts && b in attempts :: Alone(KeyOf(a.0), KeyOf(b.0)))
  }

  lemma AttemptKeepsSeparate(c: Codec, files: Files, attempts: Attempts)
    requires RoundTrips(c) && OwnNamed(c, files, {}) && attempts != [] && Separate(c, files, attempts)
    ensures var (spec, io) := attempts[0]; Separate(c, AfterPersist(c, files, spec, io), attempts[1..])
  {
    var (spec, io) := attempts[0];
    assert attempts[0] in attempts;
    forall a | a in attempts[1..] ensures Sole(c, AfterPersist(c, files, spec, io), KeyOf(a.0)) {
      assert a in attempts;
      UpsertHolds(c, files, spec, io, KeyOf(a.0));
    }
  }

  lemma AttemptHolds(c: Codec, files: Files, m: map<Key, Spec>, spec: Spec, io: PersistIo)
    requires RoundTrips(c) && OwnNamed(c, files, {}) && Storable(c, spec) && Sole(c, files, KeyOf(spec))
    requires forall k :: Held(c, files, {}, k) == Get(m, k)
    ensures var now, n := AfterPersist(c, files, spec, io), if io.Persists? then m[KeyOf(spec) := spec] else m;
            OwnNamed(c, now, {}) && forall k :: Held(c, now, {}, k) == Get(n, k)
  {
    var now, n := AfterPersist(c, files, spec, io), if io.Persists? then m[KeyOf(spec) := spec] else m;
    forall k ensures OwnNamed(c, now, {}) && Held(c, now, {}, k) == Get(n, k) { UpsertHolds(c, files, spec, io, k); }
  }

  lemma {:induction false} AttemptsHold(c: Codec, files: Files, m: map<Key, Spec>, attempts: Attempts)
    requires RoundTrips(c) && OwnNamed(c, files, {}) && Separate(c, files, attempts)
    requires forall k :: Held(c, files, {}, k) == Get(m, k)
    ensures OwnNamed(c, AfterAttempts(c, files, attempts), {})
    ensures forall k :: Held(c, AfterAttempts(c, files, attempts), {}, k) == Get(Survivors(m, attempts), k)
    decreases |attempts|
  {
    if attempts != [] {
      var (spec, io) := attempts[0];
      assert attempts[0] in attempts;
      var now, n := AfterPersist(c, files, spec, io), if io.Persists? then m[KeyOf(spec) := spec] else m;
      AttemptHolds(c, files, m, spec, io);
      AttemptKeepsSeparate(c, files, attempts);
      AttemptsHold(c, now, n, attempts[1..]);
    }
  }

  /** However many crashes pile up, with all the temporary files they leave, the
      next load has exactly what the completed upserts put there. */
  lemma CrashesPileUp(c: Codec, files: Files, attempts: Attempts, before: seq<string>, after: seq<string>)
    requires RoundTrips(c) && OwnNamed(c, files, {}) && Separate(c, files, attempts)
    requires Enumerates(before, files) && Enumerates(after, AfterAttempts(c, files, attempts))
    ensures OwnNamed(c, AfterAttempts(c, files, attempts), {})
    ensures Scan(c, AfterAttempts(c, files, attempts), {}, after).0 == Survivors(Scan(c, files, {}, before).0, attempts)
  {
    var m, now := Scan(c, files, {}, before).0, AfterAttempts(c, files, attempts);
    forall k ensures Held(c, files, {}, k) == Get(m, k) { LoadIsHeld(c, files, {}, before, k); }
    AttemptsHold(c, files, m, attempts);
    var n := Scan(c, now, {}, after).0;
    forall k ensures Get(n, k) == Get(Survivors(m, attempts), k) { LoadIsHeld(c, now, {}, after, k); }
    SameMap(n, Survivors(m, attempts));
  }

  /** What stops short of the rename leaves the skip count alone too. */
  lemma CrashSkipsNothingNew(c: Codec, files: Files, spec: Spec, io: PersistIo, before: seq<string>, after: seq<string>)
    requires RoundTrips(c) && Storable(c, spec) && OwnNamed(c, files, {}) && !io.Persists?
    requires Enumerates(before, files) && Enumerates(after, AfterPersist(c, files, spec, io))
    ensures Scan(c, AfterPersist(c, files, spec, io), {}, after).1 == Scan(c, files, {}, before).1
  {
    var now := AfterPersist(c, files, spec, io);
    PersistIsAtomic(c, files, spec, io);
    NamesOf(spec.namespace, spec.name);
    ScanCountsSkipped(c, files, {}, before);
    ScanCountsSkipped(c, now, {}, after);
    assert Bad(c, now, {}, after) == Bad(c, files, {}, before);
  }

  function Retries(k: Key, fails: seq<bool>): seq<Event> { seq(|fails|, i requires 0 <= i < |fails| => Remove(k, fails[i])) }

  lemma {:induction false} RetriesDoNothing(c: Codec, s: State, suspects: set<Key>, k: Key, fails: seq<bool>)
    requires k !in s.memory
    ensures Run(c, s, suspects, Retries(k, fails), s, suspects)
  {
    if fails != [] {
      RetriesDoNothing(c, s, suspects, k, fails[1..]);
      assert Retries(k, fails)[1..] == Retries(k, fails[1..]);
      assert Removed(s, k, fails[0]) == s;
    }
  }

  /** A removal from memory keeps its object away from the next load if and only
      if its unlink succeeded or the key's file held nothing. Retrying does not
      help: every retry answers `Ok(false)` without touching the file, and the key
      stays as suspect as it was. */
  lemma RemovalSticksExactly(c: Codec, s: State, suspects: set<Key>, k: Key, fails: bool, retries: seq<bool>,
                             listing: seq<Option<string>>)
    requires OwnNamed(c, s.files, {}) && k in s.memory && Enumerates(Flattened(listing), Removed(s, k, fails).files)
    ensures var t, left := Removed(s, k, fails), Suspects(c, s, Remove(k, fails), suspects);
            && RemoveResult(s, k, fails) == (if fails then Err(IoError) else Ok(true))
            && k !in t.memory && (k in left <==> fails)
            && (forall f :: RemoveResult(t, k, f) == Ok(false))
            && Run(c, t, left, Retries(k, retries), t, left)
            && (k !in Apply(c, t, Restart(Some(listing), {})).memory <==> !fails || Held(c, s.files, {}, k).None?)
            && (fails ==> Get(Apply(c, t, Restart(Some(listing), {})).memory, k) == Held(c, s.files, {}, k))
  {
    var t := Removed(s, k, fails);
    UnlinkTakesOne(c, s.files, k, fails);
    RetriesDoNothing(c, t, Suspects(c, s, Remove(k, fails), suspects), k, retries);
    LoadIsHeld(c, t.files, {}, Flattened(listing), k);
  }

  /** A provider that memory and directory agreed on comes back as it was. */
  lemma FailedRemovalComesBack(c: Codec, s: State, suspects: set<Key>, k: Key, fails: seq<bool>,
                               listing: seq<Option<string>>)
    requires Inv(c, k, s, suspects) && k in s.memory && k !in suspects && Enumerates(Flattened(listing), s.files)
    ensures var t := Removed(s, k, true);
            && RemoveResult(s, k, true) == Err(IoError)
            && (forall f :: RemoveResult(t, k, f) == Ok(false))
            && Run(c, t, suspects + {k}, Retries(k, fails), t, suspects + {k})
            && k !in t.memory
            && Get(Apply(c, t, Restart(Some(listing), {})).memory, k) == Some(s.memory[k])
  {
    RemovalSticksExactly(c, s, suspects, k, true, fails, listing);
  }

  /** Two objects upserted one after the other are both there after the next load
      exactly when their keys have different files; else only the second is. */
  lemma BothSurviveIffOwnFiles(c: Codec, files: Files, a: Spec, b: Spec, entries: seq<string>)
    requires RoundTrips(c) && OwnNamed(c, files, {}) && Storable(c, a) && Storable(c, b) && KeyOf(a) != KeyOf(b)
    requires Enumerates(entries, AfterPersist(c, AfterPersist(c, files, a, Persists), b, Persists))
    ensures var m := Scan(c, AfterPersist(c, AfterPersist(c, files, a, Persists), b, Persists), {}, entries).0;
            && Get(m, KeyOf(b)) == Some(b)
            && Get(m, KeyOf(a)) == if File(KeyOf(a)) == File(KeyOf(b)) then None else Some(a)
  {
    var one := AfterPersist(c, files, a, Persists);
    var two := AfterPersist(c, one, b, Persists);
    PersistIsAtomic(c, files, a, Persists);
    PersistIsAtomic(c, one, b, Persists);
    NamesOf(KeyOf(a).0, KeyOf(a).1);
    NamesOf(KeyOf(b).0, KeyOf(b).1);
    LoadIsHeld(c, two, {}, entries, KeyOf(a));
    LoadIsHeld(c, two, {}, entries, KeyOf(b));
  }
}
