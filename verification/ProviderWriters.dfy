/** Concurrent upserts and removals of different keys, interleaved at the grain of
    single filesystem calls. Copying and publishing the map is not one step, so a
    publication may drop another writer's key from memory, or bring a removed one
    back; the directory is right in every interleaving. */
module ProviderWriters {
  import opened Text
  import opened Maps
  import opened FileNames
  import opened ProviderFiles

  datatype Job = Put(spec: Spec) | Drop(key: Key)

  function JobKey(job: Job): Key { match job case Put(spec) => KeyOf(spec) case Drop(k) => k }

  /** How far a writer has come. `Absent` has removed nothing, and `Failed` has
      stopped with an I/O error. */
  datatype Progress =
    | Started
    | Copied(next: map<Key, Spec>, existed: bool)
    | Published
    | Writing
    | Written
    | Done
    | Absent
    | Failed

  datatype Writer = Writer(job: Job, at: Progress)

  datatype State = State(memory: map<Key, Spec>, files: Files, writers: seq<Writer>)

  datatype Event =
    | Copy(i: nat)
    | Publish(i: nat)
    | WritePart(i: nat, part: Bytes)
    | WriteAll(i: nat)
    | Rename(i: nat)
    | Unlink(i: nat)
    | Stop(i: nat)

  function KeyAt(s: State, i: nat): Key
    requires i < |s.writers|
  {
    JobKey(s.writers[i].job)
  }

  predicate Enabled(s: State, e: Event) {
    e.i < |s.writers| &&
    var w := s.writers[e.i];
    match e
    case Copy(_) => w.at.Started?
    case Publish(_) => w.at.Copied?
    case WritePart(_, _) => w.job.Put? && (w.at.Published? || w.at.Writing?)
    case WriteAll(_) => w.job.Put? && (w.at.Published? || w.at.Writing?)
    case Rename(_) => w.job.Put? && w.at.Written?
    case Unlink(_) => w.job.Drop? && w.at.Published?
    case Stop(_) => w.at.Published? || w.at.Writing? || w.at.Written?
  }

  function Move(s: State, i: nat, at: Progress): State
    requires i < |s.writers|
  {
    s.(writers := s.writers[i := s.writers[i].(at := at)])
  }

  /** The copy of the map, with the writer's own change to it. */
  function Changed(m: map<Key, Spec>, job: Job): map<Key, Spec> {
    match job case Put(spec) => m[KeyOf(spec) := spec] case Drop(k) => m - {k}
  }

  function Apply(c: Codec, s: State, e: Event): State
    requires Enabled(s, e)
  {
    var job := s.writers[e.i].job;
    var k := JobKey(job);
    match e
    case Copy(i) => Move(s, i, Copied(Changed(s.memory, job), k in s.memory))
    case Publish(i) =>
      var at := s.writers[i].at;
      Move(s.(memory := at.next), i, if job.Drop? && !at.existed then Absent else Published)
    case WritePart(i, part) => Move(s.(files := s.files[Temp(k) := part]), i, Writing)
    case WriteAll(i) => Move(s.(files := s.files[Temp(k) := c.encode(job.spec)]), i, Written)
    case Rename(i) =>
      if Temp(k) !in s.files then Move(s, i, Failed)
      else Move(s.(files := (s.files - {Temp(k)})[File(k) := s.files[Temp(k)]]), i, Done)
    case Unlink(i) => Move(s.(files := s.files - {File(k)}), i, Done)
    case Stop(i) => Move(s, i, Failed)
  }

  ghost predicate Run(c: Codec, s: State, es: seq<Event>, t: State)
    decreases |es|
  {
    if es == [] then s == t else Enabled(s, es[0]) && Run(c, Apply(c, s, es[0]), es[1..], t)
  }

  /** Writers of valid objects and removers, no two of which have the same file. */
  ghost predicate Apt(c: Codec, writers: seq<Writer>) {
    && (forall w | w in writers && w.job.Put? :: Storable(c, w.job.spec))
    && (forall i, j | 0 <= i < j < |writers| :: File(JobKey(writers[i].job)) != File(JobKey(writers[j].job)))
  }

  // ---- the invariant -----------------------------------------------------------------

  /** What a finished writer leaves in its file. */
  function Outcome(c: Codec, job: Job): Option<Bytes> {
    match job case Put(spec) => Some(c.encode(spec)) case Drop(_) => None
  }

  predicate FilesAt(c: Codec, start: Files, s: State, i: nat)
    requires i < |s.writers|
  {
    var k, w := KeyAt(s, i), s.writers[i];
    && Get(s.files, File(k)) == (if w.at.Done? then Outcome(c, w.job) else Get(start, File(k)))
    && (w.at.Written? ==> w.job.Put? && Get(s.files, Temp(k)) == Outcome(c, w.job))
  }

  /** A file that belongs to no writer. */
  predicate Untouched(s: State, f: string) {
    forall i | 0 <= i < |s.writers| :: f != File(KeyAt(s, i)) && f != Temp(KeyAt(s, i))
  }

  /** The published map, and every private copy of it, has whole objects only: the
      one loaded at the start, or the one some writer is putting there. Nothing is
      missing but what someone removes. */
  ghost predicate Whole(start: map<Key, Spec>, writers: seq<Writer>, m: map<Key, Spec>) {
    && (forall k | k in m :: Get(start, k) == Some(m[k]) || (KeyOf(m[k]) == k && Employs(writers, Put(m[k]))))
    && (forall k | k in start :: k in m || Employs(writers, Drop(k)))
  }

  ghost predicate Employs(writers: seq<Writer>, job: Job) { exists w :: w in writers && w.job == job }

  ghost predicate Inv(c: Codec, start: State, s: State) {
    && Apt(c, s.writers)
    && |s.writers| == |start.writers|
    && (forall i | 0 <= i < |s.writers| :: s.writers[i].job == start.writers[i].job)
    && (forall i | 0 <= i < |s.writers| :: FilesAt(c, start.files, s, i))
    && (forall f | Untouched(s, f) :: Get(s.files, f) == Get(start.files, f))
    && Whole(start.memory, start.writers, s.memory)
    && (forall i | 0 <= i < |s.writers| && s.writers[i].at.Copied? ::
          Whole(start.memory, start.writers, s.writers[i].at.next))
    && (forall i | 0 <= i < |s.writers| && s.writers[i].at.Copied? :: ShowsOwn(s.writers[i].at.next, s.writers[i].job))
  }

  /** The map has the writer's own change. */
  predicate ShowsOwn(m: map<Key, Spec>, job: Job) { Get(m, JobKey(job)) == if job.Put? then Some(job.spec) else None }

  lemma NamesApart(c: Codec, s: State, i: nat, j: nat)
    requires Apt(c, s.writers) && i < |s.writers| && j < |s.writers|
    ensures var k, l := KeyAt(s, i), KeyAt(s, j);
            && (i == j <==> File(k) == File(l)) && (i == j <==> Temp(k) == Temp(l))
            && File(k) != Temp(l) && Temp(k) != File(l)
  {
    var k, l := KeyAt(s, i), KeyAt(s, j);
    NamesOf(k.0, k.1);
    NamesOf(l.0, l.1);
    CancelSuffix(File(k), File(l), ".tmp");
  }

  lemma FilesKeep(c: Codec, start: Files, s: State, e: Event, j: nat)
    requires Apt(c, s.writers) && Enabled(s, e) && j < |s.writers|
    requires FilesAt(c, start, s, e.i) && FilesAt(c, start, s, j)
    ensures FilesAt(c, start, Apply(c, s, e), j)
  {
    NamesApart(c, s, e.i, j);
  }

  lemma OthersKeep(c: Codec, s: State, e: Event, f: string)
    requires Enabled(s, e) && Untouched(s, f)
    ensures Get(Apply(c, s, e).files, f) == Get(s.files, f)
  {
    assert f != File(KeyAt(s, e.i)) && f != Temp(KeyAt(s, e.i));
  }

  lemma CopyIsWhole(start: map<Key, Spec>, writers: seq<Writer>, m: map<Key, Spec>, w: Writer)
    requires Whole(start, writers, m) && w in writers
    ensures Whole(start, writers, Changed(m, w.job))
  {
    assert Employs(writers, w.job);
    var n := Changed(m, w.job);
    forall k | k in n ensures Get(start, k) == Some(n[k]) || (KeyOf(n[k]) == k && Employs(writers, Put(n[k]))) {
      if k != JobKey(w.job) { assert n[k] == m[k]; }
    }
  }

  lemma WritersKeep(c: Codec, s: State, e: Event)
    requires Enabled(s, e) && Apt(c, s.writers)
    ensures var t := Apply(c, s, e);
            && |t.writers| == |s.writers| && Apt(c, t.writers)
            && forall i | 0 <= i < |s.writers| :: t.writers[i].job == s.writers[i].job
  {
    var t := Apply(c, s, e);
    forall w | w in t.writers && w.job.Put? ensures Storable(c, w.job.spec) {
      var i :| 0 <= i < |t.writers| && t.writers[i] == w;
      assert s.writers[i] in s.writers;
    }
  }

  lemma MemoryKeeps(c: Codec, start: State, s: State, e: Event)
    requires Inv(c, start, s) && Enabled(s, e)
    ensures var t := Apply(c, s, e);
            && Whole(start.memory, start.writers, t.memory)
            && forall i | 0 <= i < |t.writers| && t.writers[i].at.Copied? ::
                 Whole(start.memory, start.writers, t.writers[i].at.next)
  {
    var t, w := Apply(c, s, e), start.writers[e.i];
    assert w in start.writers && s.writers[e.i].job == w.job;
    assert t.memory == if e.Publish? then s.writers[e.i].at.next else s.memory;
    if e.Copy? {
      CopyIsWhole(start.memory, start.writers, s.memory, w);
      assert t.writers[e.i].at.next == Changed(s.memory, w.job);
    }
    forall i | 0 <= i < |t.writers| && t.writers[i].at.Copied?
      ensures Whole(start.memory, start.writers, t.writers[i].at.next)
    {
      if i != e.i { assert t.writers[i] == s.writers[i]; }
    }
  }

  lemma OwnChangesKeep(c: Codec, start: State, s: State, e: Event)
    requires Inv(c, start, s) && Enabled(s, e)
    ensures var t := Apply(c, s, e);
            forall i | 0 <= i < |t.writers| && t.writers[i].at.Copied? :: ShowsOwn(t.writers[i].at.next, t.writers[i].job)
  {
    var t := Apply(c, s, e);
    forall i | 0 <= i < |t.writers| && t.writers[i].at.Copied? ensures ShowsOwn(t.writers[i].at.next, t.writers[i].job) {
      if i != e.i { assert t.writers[i] == s.writers[i]; }
    }
  }

  lemma StepKeepsInv(c: Codec, start: State, s: State, e: Event)
    requires Inv(c, start, s) && Enabled(s, e)
    ensures Inv(c, start, Apply(c, s, e))
  {
    var t := Apply(c, s, e);
    WritersKeep(c, s, e);
    MemoryKeeps(c, start, s, e);
    OwnChangesKeep(c, start, s, e);
    forall i | 0 <= i < |t.writers| ensures FilesAt(c, start.files, t, i) {
      FilesKeep(c, start.files, s, e, i);
    }
    forall f | Untouched(t, f) ensures Get(t.files, f) == Get(start.files, f) {
      assert forall i | 0 <= i < |s.writers| :: KeyAt(s, i) == KeyAt(t, i);
      assert Untouched(s, f);
      OthersKeep(c, s, e, f);
    }
  }

  lemma {:induction false} RunKeepsInv(c: Codec, start: State, s: State, es: seq<Event>, t: State)
    requires Inv(c, start, s) && Run(c, s, es, t)
    ensures Inv(c, start, t)
    decreases |es|
  {
    if es != [] {
      StepKeepsInv(c, start, s, es[0]);
      RunKeepsInv(c, start, Apply(c, s, es[0]), es[1..], t);
    }
  }

  ghost predicate Begins(c: Codec, s: State) {
    Apt(c, s.writers) && forall w | w in s.writers :: w.at.Started?
  }

  lemma BeginsInv(c: Codec, s: State)
    requires Begins(c, s)
    ensures Inv(c, s, s)
  {
    assert forall i | 0 <= i < |s.writers| :: s.writers[i] in s.writers;
  }

  // ---- the promises -----------------------------------------------------------------------

  ghost predicate Completed(s: State, job: Job) { Writer(job, Done) in s.writers }

  /** The object in a file is the completed writer's, or the one there at the start. */
  lemma ObjectIs(c: Codec, start: State, t: State, f: string)
    requires RoundTrips(c) && Inv(c, start, t) && IsJson(f)
    ensures var now := Object(c, t.files, {}, f);
            || now == Object(c, start.files, {}, f)
            || exists w :: w in t.writers && f == File(JobKey(w.job)) && w.at.Done? && now == (if w.job.Put? then Some(w.job.spec) else None)
  {
    if i :| 0 <= i < |t.writers| && f == File(KeyAt(t, i)) {
      assert FilesAt(c, start.files, t, i) && t.writers[i] in t.writers;
      if t.writers[i].at.Done? && t.writers[i].job.Put? {
        var spec := t.writers[i].job.spec;
        assert Get(t.files, f) == Some(c.encode(spec)) && c.decode(c.encode(spec)) == Some(spec);
      }
    } else {
      forall i | 0 <= i < |t.writers| ensures f != Temp(KeyAt(t, i)) { NamesOf(KeyAt(t, i).0, KeyAt(t, i).1); }
      assert Untouched(t, f);
    }
  }

  lemma DiskStaysOwnNamed(c: Codec, start: State, t: State)
    requires RoundTrips(c) && OwnNamed(c, start.files, {}) && Inv(c, start, t)
    ensures OwnNamed(c, t.files, {})
  {
    forall f | IsJson(f) && Object(c, t.files, {}, f).Some?
      ensures f == File(KeyOf(Object(c, t.files, {}, f).value))
    {
      ObjectIs(c, start, t, f);
    }
  }

  /** A completed writer's file is as it left it. */
  lemma CompletedIsHeld(c: Codec, start: State, t: State, job: Job)
    requires RoundTrips(c) && Inv(c, start, t) && Completed(t, job)
    ensures Held(c, t.files, {}, JobKey(job)) == if job.Put? then Some(job.spec) else None
  {
    NamesOf(JobKey(job).0, JobKey(job).1);
    var i :| 0 <= i < |t.writers| && t.writers[i] == Writer(job, Done);
    assert FilesAt(c, start.files, t, i) && t.writers[i] in t.writers;
    if job.Put? { assert c.decode(c.encode(job.spec)) == Some(job.spec); }
  }

  /** A key whose file no completed writer has is held as at the start. */
  lemma UncompletedIsHeld(c: Codec, start: State, t: State, k: Key)
    requires RoundTrips(c) && Inv(c, start, t)
    requires forall w | w in t.writers && w.at.Done? :: File(JobKey(w.job)) != File(k)
    ensures Held(c, t.files, {}, k) == Held(c, start.files, {}, k)
  {
    NamesOf(k.0, k.1);
    ObjectIs(c, start, t, File(k));
  }

  /** In every interleaving, the directory holds the object of each completed
      upsert and none of each completed removal, and every other key as it was at
      the start. */
  lemma DiskIsExact(c: Codec, start: State, es: seq<Event>, t: State, k: Key)
    requires RoundTrips(c) && Begins(c, start) && OwnNamed(c, start.files, {}) && Run(c, start, es, t)
    ensures OwnNamed(c, t.files, {})
    ensures forall job | Completed(t, job) :: Held(c, t.files, {}, JobKey(job)) == if job.Put? then Some(job.spec) else None
    ensures (forall w | w in t.writers && w.at.Done? :: File(JobKey(w.job)) != File(k)) ==>
              Held(c, t.files, {}, k) == Held(c, start.files, {}, k)
  {
    BeginsInv(c, start);
    RunKeepsInv(c, start, start, es, t);
    DiskStaysOwnNamed(c, start, t);
    forall job | Completed(t, job) { CompletedIsHeld(c, start, t, job); }
    if forall w | w in t.writers && w.at.Done? :: File(JobKey(w.job)) != File(k) { UncompletedIsHeld(c, start, t, k); }
  }

  /** The next load has every completed upsert, even one that memory lost, and no
      completed removal, even one that memory undid. */
  lemma NextLoadRecovers(c: Codec, start: State, es: seq<Event>, t: State, entries: seq<string>, job: Job)
    requires RoundTrips(c) && Begins(c, start) && OwnNamed(c, start.files, {}) && Run(c, start, es, t)
    requires Enumerates(entries, t.files) && Completed(t, job)
    ensures Get(Scan(c, t.files, {}, entries).0, JobKey(job)) == if job.Put? then Some(job.spec) else None
  {
    DiskIsExact(c, start, es, t, JobKey(job));
    LoadIsHeld(c, t.files, {}, entries, JobKey(job));
  }

  /** Readers only ever see whole maps: every object is the one that was there or
      the one its own writer put there, and nothing vanishes but what is removed. */
  lemma ReadersSeeWholeMaps(c: Codec, start: State, es: seq<Event>, t: State)
    requires Begins(c, start) && Run(c, start, es, t)
    ensures Whole(start.memory, start.writers, t.memory)
  {
    BeginsInv(c, start);
    RunKeepsInv(c, start, start, es, t);
  }

  /** A publication shows its own upsert, or no longer its own removal, at once. */
  lemma PublicationShows(c: Codec, start: State, es: seq<Event>, s: State, i: nat)
    requires Begins(c, start) && Run(c, start, es, s) && Enabled(s, Publish(i))
    ensures ShowsOwn(Apply(c, s, Publish(i)).memory, s.writers[i].job)
  {
    BeginsInv(c, start);
    RunKeepsInv(c, start, start, es, s);
  }

  /** A crash may leave any part of the temporary file, and the writer failed. */
  lemma AnyPartMayBeLeft(c: Codec, s: State, i: nat, part: Bytes) returns (es: seq<Event>, t: State)
    requires i < |s.writers| && s.writers[i].job.Put? && s.writers[i].at.Started?
    ensures Run(c, s, es, t) && |t.writers| == |s.writers| && t.writers[i].at.Failed? && Get(t.files, Temp(KeyAt(s, i))) == Some(part)
  {
    var u := Apply(c, s, Copy(i));
    var v := Apply(c, u, Publish(i));
    var w := Apply(c, v, WritePart(i, part));
    t := Apply(c, w, Stop(i));
    RunCons(c, w, Stop(i), [], t);
    var tail: seq<Event> := [Stop(i)] + [];
    RunCons(c, v, WritePart(i, part), tail, t);
    tail := [WritePart(i, part)] + tail;
    RunCons(c, u, Publish(i), tail, t);
    tail := [Publish(i)] + tail;
    RunCons(c, s, Copy(i), tail, t);
    es := [Copy(i)] + tail;
  }

  lemma RunCons(c: Codec, s: State, e: Event, es: seq<Event>, t: State)
    requires Enabled(s, e) && Run(c, Apply(c, s, e), es, t)
    ensures Run(c, s, [e] + es, t)
  {
    assert ([e] + es)[1..] == es;
  }

  // ---- what memory may forget, and what it may bring back ----------------------------------

  /** Any two upserts can race so that both complete and the first key is gone from
      memory. */
  lemma RaceDropsAKey(c: Codec, s: State) returns (es: seq<Event>, t: State)
    requires Begins(c, s) && |s.writers| == 2 && s.writers[0].job.Put? && s.writers[1].job.Put? && KeyAt(s, 0) !in s.memory
    ensures Run(c, s, es, t) && |t.writers| == 2 && t.writers[0].at.Done? && t.writers[1].at.Done? && KeyAt(s, 0) !in t.memory
  {
    assert s.writers[0] in s.writers && s.writers[1] in s.writers;
    NamesApart(c, s, 0, 1);
    var a := Apply(c, s, Copy(0));
    var b := Apply(c, a, Copy(1));
    var d := Apply(c, b, Publish(0));
    var e := Apply(c, d, Publish(1));
    var f := Apply(c, e, WriteAll(0));
    var g := Apply(c, f, Rename(0));
    var tail;
    tail, t := PutFinishes(c, g, 1);
    RunCons(c, f, Rename(0), tail, t);
    tail := [Rename(0)] + tail;
    RunCons(c, e, WriteAll(0), tail, t);
    tail := [WriteAll(0)] + tail;
    RunCons(c, d, Publish(1), tail, t);
    tail := [Publish(1)] + tail;
    RunCons(c, b, Publish(0), tail, t);
    tail := [Publish(0)] + tail;
    RunCons(c, a, Copy(1), tail, t);
    tail := [Copy(1)] + tail;
    RunCons(c, s, Copy(0), tail, t);
    es := [Copy(0)] + tail;
  }

  lemma PutFinishes(c: Codec, s: State, i: nat) returns (es: seq<Event>, t: State)
    requires i < |s.writers| && s.writers[i].job.Put? && s.writers[i].at.Published?
    ensures Run(c, s, es, t) && t.memory == s.memory && t.writers == s.writers[i := Writer(s.writers[i].job, Done)]
    ensures forall f | f != File(KeyAt(s, i)) && f != Temp(KeyAt(s, i)) :: Get(t.files, f) == Get(s.files, f)
  {
    var u := Apply(c, s, WriteAll(i));
    t := Apply(c, u, Rename(i));
    RunCons(c, u, Rename(i), [], t);
    es := [WriteAll(i)] + ([Rename(i)] + []);
    RunCons(c, s, WriteAll(i), [Rename(i)] + [], t);
  }

  /** Any removal can race with an upsert so that both complete, the file is gone,
      and memory has the removed object again. */
  lemma RaceUndoesARemoval(c: Codec, s: State) returns (es: seq<Event>, t: State)
    requires Begins(c, s) && |s.writers| == 2 && s.writers[0].job.Drop? && s.writers[1].job.Put? && KeyAt(s, 0) in s.memory
    ensures Run(c, s, es, t) && |t.writers| == 2 && t.writers[0].at.Done? && t.writers[1].at.Done?
    ensures Get(t.memory, KeyAt(s, 0)) == Get(s.memory, KeyAt(s, 0)) && File(KeyAt(s, 0)) !in t.files
  {
    assert s.writers[0] in s.writers && s.writers[1] in s.writers;
    NamesApart(c, s, 0, 1);
    var a := Apply(c, s, Copy(1));
    var b := Apply(c, a, Copy(0));
    var d := Apply(c, b, Publish(0));
    var e := Apply(c, d, Unlink(0));
    var f := Apply(c, e, Publish(1));
    var tail;
    tail, t := PutFinishes(c, f, 1);
    assert Get(t.files, File(KeyAt(s, 0))) == Get(f.files, File(KeyAt(s, 0)));
    RunCons(c, e, Publish(1), tail, t);
    tail := [Publish(1)] + tail;
    RunCons(c, d, Unlink(0), tail, t);
    tail := [Unlink(0)] + tail;
    RunCons(c, b, Publish(0), tail, t);
    tail := [Publish(0)] + tail;
    RunCons(c, a, Copy(0), tail, t);
    tail := [Copy(0)] + tail;
    RunCons(c, s, Copy(1), tail, t);
    es := [Copy(1)] + tail;
  }

  /** A removal that found no object: it stays so, and its file is left alone. */
  predicate FoundNothing(s: State, i: nat) {
    i < |s.writers| && s.writers[i].job.Drop? && ((s.writers[i].at.Copied? && !s.writers[i].at.existed) || s.writers[i].at.Absent?)
  }

  lemma {:induction false} NothingStaysNothing(c: Codec, s: State, es: seq<Event>, t: State, i: nat)
    requires FoundNothing(s, i) && Run(c, s, es, t)
    ensures FoundNothing(t, i)
    decreases |es|
  {
    if es != [] { NothingStaysNothing(c, Apply(c, s, es[0]), es[1..], t, i); }
  }

  /** Whatever the others do, a remover that copied a map without its key never
      completes, and leaves the file of its key as it was at the start. */
  lemma AbsentTouchesNothing(c: Codec, start: State, es: seq<Event>, s: State, i: nat, more: seq<Event>, t: State)
    requires Begins(c, start) && Run(c, start, es, s) && Enabled(s, Copy(i))
    requires s.writers[i].job.Drop? && KeyAt(s, i) !in s.memory && Run(c, Apply(c, s, Copy(i)), more, t)
    ensures i < |t.writers| && t.writers[i].job == s.writers[i].job && !t.writers[i].at.Done? && !t.writers[i].at.Failed?
    ensures Get(t.files, File(KeyAt(s, i))) == Get(start.files, File(KeyAt(s, i)))
  {
    var u := Apply(c, s, Copy(i));
    BeginsInv(c, start);
    RunKeepsInv(c, start, start, es, s);
    StepKeepsInv(c, start, s, Copy(i));
    RunKeepsInv(c, start, u, more, t);
    NothingStaysNothing(c, u, more, t, i);
    assert FilesAt(c, start.files, t, i) && t.writers[i].job == start.writers[i].job == s.writers[i].job;
  }

  /** A remover that found its object goes on to unlink its file. */
  lemma FoundIsUnlinked(c: Codec, s: State, i: nat) returns (es: seq<Event>, t: State)
    requires Enabled(s, Copy(i)) && s.writers[i].job.Drop? && KeyAt(s, i) in s.memory
    ensures Run(c, s, es, t) && |t.writers| == |s.writers| && t.writers[i].at.Done?
    ensures KeyAt(s, i) !in t.memory && File(KeyAt(s, i)) !in t.files
  {
    var u := Apply(c, s, Copy(i));
    var v := Apply(c, u, Publish(i));
    t := Apply(c, v, Unlink(i));
    RunCons(c, v, Unlink(i), [], t);
    RunCons(c, u, Publish(i), [Unlink(i)] + [], t);
    es := [Copy(i)] + ([Publish(i)] + ([Unlink(i)] + []));
    RunCons(c, s, Copy(i), [Publish(i)] + ([Unlink(i)] + []), t);
  }

  /** Some writer has yet to publish a copy that still has `k`. */
  ghost predicate Stale(s: State, k: Key) {
    exists i :: 0 <= i < |s.writers| && s.writers[i].at.Copied? && k in s.writers[i].at.next
  }

  ghost predicate Puts(s: State, k: Key) { exists i :: 0 <= i < |s.writers| && s.writers[i].job.Put? && KeyAt(s, i) == k }

  lemma StepKeepsGone(c: Codec, s: State, e: Event, k: Key)
    requires k !in s.memory && !Puts(s, k) && !Stale(s, k) && Enabled(s, e)
    ensures var t := Apply(c, s, e); k !in t.memory && !Puts(t, k) && !Stale(t, k)
  {
    var t := Apply(c, s, e);
    forall i | 0 <= i < |t.writers| ensures !(t.writers[i].job.Put? && KeyAt(t, i) == k) {
      assert t.writers[i].job == s.writers[i].job && KeyAt(t, i) == KeyAt(s, i);
    }
    forall i | 0 <= i < |t.writers| && t.writers[i].at.Copied? ensures k !in t.writers[i].at.next {
      if i != e.i { assert t.writers[i] == s.writers[i]; } else { assert KeyAt(s, i) == KeyAt(t, i); }
    }
  }

  lemma {:induction false} GoneStaysGone(c: Codec, s: State, es: seq<Event>, t: State, k: Key)
    requires k !in s.memory && !Puts(s, k) && !Stale(s, k) && Run(c, s, es, t)
    ensures k !in t.memory
    decreases |es|
  {
    if es != [] {
      StepKeepsGone(c, s, es[0], k);
      GoneStaysGone(c, Apply(c, s, es[0]), es[1..], t, k);
    }
  }

  ghost predicate StaysGone(c: Codec, s: State, k: Key) {
    forall es, t :: Run(c, s, es, t) ==> k !in t.memory
  }

  /** Once a removal has been published, its key stays out of memory in every
      continuation if and only if no writer copied the map before and has yet to
      publish its copy. */
  lemma RemovedStaysGoneExactly(c: Codec, s: State, k: Key)
    requires k !in s.memory && !Puts(s, k)
    ensures StaysGone(c, s, k) <==> !Stale(s, k)
  {
    if Stale(s, k) {
      var i :| 0 <= i < |s.writers| && s.writers[i].at.Copied? && k in s.writers[i].at.next;
      var t := Apply(c, s, Publish(i));
      RunCons(c, s, Publish(i), [], t);
      assert t.memory == s.writers[i].at.next;
    } else {
      forall es, t | Run(c, s, es, t) ensures k !in t.memory { GoneStaysGone(c, s, es, t, k); }
    }
  }

  /** Some writer has yet to publish a copy without `k`. */
  ghost predicate Lacking(s: State, k: Key) {
    exists i :: 0 <= i < |s.writers| && s.writers[i].at.Copied? && k !in s.writers[i].at.next
  }

  ghost predicate Drops(s: State, k: Key) { exists i :: 0 <= i < |s.writers| && s.writers[i].job == Drop(k) }

  lemma StepKeepsPresent(c: Codec, s: State, e: Event, k: Key)
    requires k in s.memory && !Drops(s, k) && !Lacking(s, k) && Enabled(s, e)
    ensures var t := Apply(c, s, e); k in t.memory && !Drops(t, k) && !Lacking(t, k)
  {
    var t := Apply(c, s, e);
    forall i | 0 <= i < |t.writers| ensures t.writers[i].job != Drop(k) { assert t.writers[i].job == s.writers[i].job; }
    forall i | 0 <= i < |t.writers| && t.writers[i].at.Copied? ensures k in t.writers[i].at.next {
      if i != e.i { assert t.writers[i] == s.writers[i]; } else { assert t.writers[i].job == s.writers[i].job; }
    }
  }

  lemma {:induction false} PresentStaysPresent(c: Codec, s: State, es: seq<Event>, t: State, k: Key)
    requires k in s.memory && !Drops(s, k) && !Lacking(s, k) && Run(c, s, es, t)
    ensures k in t.memory
    decreases |es|
  {
    if es != [] {
      StepKeepsPresent(c, s, es[0], k);
      PresentStaysPresent(c, Apply(c, s, es[0]), es[1..], t, k);
    }
  }

  ghost predicate StaysPresent(c: Codec, s: State, k: Key) {
    forall es, t :: Run(c, s, es, t) ==> k in t.memory
  }

  /** Likewise, a published upsert that nobody removes stays in memory in every
      continuation if and only if no writer has yet to publish a copy without it. */
  lemma PublishedStaysExactly(c: Codec, s: State, k: Key)
    requires k in s.memory && !Drops(s, k)
    ensures StaysPresent(c, s, k) <==> !Lacking(s, k)
  {
    if Lacking(s, k) {
      var i :| 0 <= i < |s.writers| && s.writers[i].at.Copied? && k !in s.writers[i].at.next;
      var t := Apply(c, s, Publish(i));
      RunCons(c, s, Publish(i), [], t);
      assert t.memory == s.writers[i].at.next;
    } else {
      forall es, t | Run(c, s, es, t) ensures k in t.memory { PresentStaysPresent(c, s, es, t, k); }
    }
  }
}
