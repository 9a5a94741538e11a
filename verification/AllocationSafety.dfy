/** What every run of the allocation protocol keeps. The invariant is stated one
    operation at a time, so that a step is checked against one operation too. */
module AllocationSafety {
  import opened Text
  import opened Json
  import JsonText
  import opened Canonical
  import opened Prepare
  import opened Exchange
  import opened Allocation

  // ---- the invariant ------------------------------------------------------------

  /** The one POST an operation may make. */
  function PostOf(s: State, op: Operation): Message
    requires op in s.drafts
  {
    Post(op, s.drafts[op].body)
  }

  /** Sandbox `id` was made by the POST of `op`, and its receipt carries the
      digests of the intent of `op`. */
  predicate MadeFor(s: State, id: string, op: Operation)
    requires op in s.drafts
  {
    var intent := s.drafts[op].intent;
    && id in s.daemon
    && s.daemon[id] == Sandbox(op, s.drafts[op].body, Receipt(op, id, intent.requestDigest, intent.backendRequestDigest))
  }

  /** A journal entry carries the drafted intent, and either is unresolved or
      holds the accepted receipt of a sandbox made for that intent. */
  predicate EntryInv(s: State, op: Operation, a: Attempt)
    requires op in s.drafts
  {
    && a.intent == s.drafts[op].intent
    && (a.sandbox.None? <==> a.receipt.None?)
    && (a.sandbox.Some? ==>
          && MadeFor(s, a.sandbox.value, op)
          && a.receipt.value == s.daemon[a.sandbox.value].receipt
          && Accepts(a.intent, a.receipt.value))
  }

  predicate Unanswered(a: Attempt) { a.sandbox.None? && a.receipt.None? }

  predicate CallInv(s: State, op: Operation, c: Call)
    requires op in s.drafts && op in s.memory
  {
    match c
    case Drafted(body) => body == s.drafts[op].body && s.posted[op] == 0 && Unanswered(s.memory[op])
    case Cleared(body) => body == s.drafts[op].body && s.posted[op] == 0 && Unanswered(s.memory[op]) && op in s.disk
    case Posting => Unanswered(s.memory[op])
    case Getting => true
    case Recording(before) =>
      && EntryInv(s, op, before) && before.deployment == s.memory[op].deployment
      && s.memory[op].sandbox.Some?
      && (before.sandbox.Some? ==> before == s.memory[op] && op in s.disk && s.disk[op].sandbox == before.sandbox)
      && (op in s.published ==> before.sandbox.Some?)
  }

  /** At most one POST per operation, made only once its intent is on disk, and
      accounted for: in flight, turned into a sandbox, or lost. */
  predicate OpInv(s: State, op: Operation) {
    if op !in s.drafts then
      && op !in s.memory && op !in s.disk && op !in s.calls && op !in s.published
      && s.posted[op] == s.created[op] == s.lost[op] == 0
    else
      && s.drafts[op].intent.operationId == op
      && s.posted[op] <= 1
      && s.posted[op] == s.wire[PostOf(s, op)] + s.created[op] + s.lost[op]
      && (s.posted[op] == 1 ==> op in s.disk)
      && (op in s.memory ==> EntryInv(s, op, s.memory[op]))
      && (op in s.memory && s.memory[op].sandbox.Some? && !(op in s.calls && s.calls[op].Recording?) ==>
            op in s.disk && s.disk[op].sandbox == s.memory[op].sandbox)
      && (op in s.disk ==>
            op in s.memory && EntryInv(s, op, s.disk[op]) && s.disk[op].deployment == s.memory[op].deployment)
      && (op in s.published ==>
            op in s.disk && s.disk[op].sandbox == s.memory[op].sandbox == Some(s.published[op]))
      && (op in s.calls ==> op in s.memory && CallInv(s, op, s.calls[op]))
  }

  /** A POST on the wire carries the body that was prepared. */
  predicate MessageInv(s: State, m: Message) {
    m in s.wire && m.Post? ==> m.operation in s.drafts && m == PostOf(s, m.operation)
  }

  predicate SandboxInv(s: State, id: string) {
    id in s.daemon ==>
      var op := s.daemon[id].operation;
      op in s.drafts && s.created[op] >= 1 && MadeFor(s, id, op)
  }

  predicate SandboxesDiffer(s: State, id: string, id': string) {
    id in s.daemon && id' in s.daemon && s.daemon[id].operation == s.daemon[id'].operation ==> id == id'
  }

  /** The identity is one `request` lets through, and the daemon answers the POST
      of `op` with the digests of its intent. */
  ghost predicate DraftInv(sha: Hash, s: State, op: Operation) {
    op in s.drafts ==>
      && 0 < |op| <= 128 && All(IdChar, op)
      && (forall id ::
        DaemonReceipt(sha, op, id, s.drafts[op].body)
        == Some(Receipt(op, id, s.drafts[op].intent.requestDigest, s.drafts[op].intent.backendRequestDigest)))
  }

  /** An attempt whose outcome is unknown, or would be after a failed save. */
  predicate Open(s: State, op: Operation) {
    op in s.memory &&
      (s.memory[op].sandbox.None?
       || (op in s.calls && s.calls[op].Recording? && s.calls[op].before.sandbox.None?))
  }

  predicate OpenOnDisk(s: State, op: Operation) { op in s.disk && s.disk[op].sandbox.None? }

  predicate SameDeployment(s: State, op: Operation, op': Operation) {
    op in s.memory && op' in s.memory && s.memory[op].deployment == s.memory[op'].deployment
  }

  /** A deployment has at most one attempt with an unknown outcome. */
  predicate PairInv(s: State, op: Operation, op': Operation) {
    op != op' && SameDeployment(s, op, op') ==>
      !(Open(s, op) && Open(s, op')) && !(OpenOnDisk(s, op) && OpenOnDisk(s, op'))
  }

  ghost predicate Inv(sha: Hash, s: State) {
    && (forall op :: OpInv(s, op))
    && (forall op :: DraftInv(sha, s, op))
    && (forall m :: MessageInv(s, m))
    && (forall id :: SandboxInv(s, id))
    && (forall id, id' :: SandboxesDiffer(s, id, id'))
    && (forall op, op' :: PairInv(s, op, op'))
  }

  // ---- the daemon's answer to the prepared body ------------------------------------

  lemma DaemonReads(sha: Hash, op: Operation, id: string, digest: string, kind: string, request: Json)
    ensures
      var body := Obj(Cons(Field("requestDigest", Str(digest)),
                      Cons(Field("kind", Str(kind)), Cons(Field("request", request), Nil))));
      DaemonReceipt(sha, op, id, body)
        == Some(Receipt(op, id, digest, Digest(sha, Pair("kind", Str(kind), "request", request))))
  {
    var third := Cons(Field("request", request), Nil);
    var second := Cons(Field("kind", Str(kind)), third);
    var first := Cons(Field("requestDigest", Str(digest)), second);
    JsonText.ReadPrinted(Obj(first), "");
    assert JsonText.Print(Obj(first)) + "" == JsonText.Print(Obj(first));
    BodyFields(Str(digest), Str(kind), request);
  }

  lemma BodyFields(digest: Json, kind: Json, request: Json)
    ensures
      var fs := Cons(Field("requestDigest", digest), Cons(Field("kind", kind), Cons(Field("request", request), Nil)));
      && Lookup(fs, "requestDigest") == Some(digest) && Lookup(fs, "kind") == Some(kind) && Lookup(fs, "request") == Some(request)
  {
    var third := Cons(Field("request", request), Nil);
    var second := Cons(Field("kind", kind), third);
    assert |"requestDigest"| == 13 && |"request"| == 7 && |"kind"| == 4;
    assert Lookup(third, "request") == Some(request);
    assert Lookup(second, "request") == Some(request) && Lookup(second, "kind") == Some(kind);
  }

  lemma DraftAnswered(sha: Hash, s: State, e: Event, op: Operation)
    requires Enabled(s, e) && Computed(sha, s, e) && DraftInv(sha, s, op)
    ensures DraftInv(sha, Apply(s, e), op)
  {
    if e.Draft? && op == e.prepared.intent.operationId {
      var fs, scope, nonce :|
        ValidFields(fs) && |nonce| == 16 && e.prepared == PreparedFor(sha, fs, s.transport, scope, nonce);
      OperationIdsAreDistinct(nonce, nonce);
      forall id {
        DaemonReads(sha, op, id, RequestDigest(sha, fs, scope), Kind(Filled(fs)), Obj(Filled(fs)));
      }
    }
  }

  // ---- one step, seen from one operation ---------------------------------------------

  lemma DraftKeeps(s: State, e: Event, op: Operation)
    requires e.Draft? && Enabled(s, e) && OpInv(s, op) && MessageInv(s, Post(op, e.prepared.body))
    ensures OpInv(Apply(s, e), op)
  {
  }

  lemma SaveIntentKeeps(s: State, e: Event, op: Operation)
    requires e.SaveIntent? && Enabled(s, e) && OpInv(s, op) && OpInv(s, e.operation)
    ensures OpInv(Apply(s, e), op)
  {
  }

  lemma SubmitKeeps(s: State, e: Event, op: Operation)
    requires e.Submit? && Enabled(s, e) && OpInv(s, op) && OpInv(s, e.operation)
    ensures OpInv(Apply(s, e), op)
  {
    var t := Apply(s, e);
    if MaySend(s.memory[e.operation].intent, s.transport, e.key) {
      var m := PostOf(s, e.operation);
      assert t.wire == s.wire + multiset{m};
      if op == e.operation {
        assert t.posted[op] == 1 && t.wire[m] == s.wire[m] + 1;
      } else if op in s.drafts {
        assert t.wire[PostOf(s, op)] == s.wire[PostOf(s, op)];
      }
    }
  }

  lemma RecoverKeeps(s: State, e: Event, op: Operation)
    requires e.Recover? && Enabled(s, e) && OpInv(s, op)
    ensures OpInv(Apply(s, e), op)
  {
  }

  lemma ReuseKeeps(s: State, e: Event, op: Operation)
    requires e.Reuse? && Enabled(s, e) && OpInv(s, op)
    ensures OpInv(Apply(s, e), op)
  {
  }

  lemma LoseKeeps(s: State, e: Event, op: Operation)
    requires e.Lose? && Enabled(s, e) && OpInv(s, op) && MessageInv(s, e.message)
    ensures OpInv(Apply(s, e), op)
  {
  }

  lemma FailKeeps(s: State, e: Event, op: Operation)
    requires e.Fail? && Enabled(s, e) && OpInv(s, op)
    ensures OpInv(Apply(s, e), op)
  {
  }

  lemma SaveReceiptKeeps(s: State, e: Event, op: Operation)
    requires e.SaveReceipt? && Enabled(s, e) && OpInv(s, op) && OpInv(s, e.operation)
    ensures OpInv(Apply(s, e), op)
  {
    SavedKeeps(s, e.operation, e.ok, e.written, op);
  }

  lemma SavedKeeps(s: State, about: Operation, ok: bool, written: bool, op: Operation)
    requires about in s.calls && about in s.memory && s.calls[about].Recording? && (ok ==> written)
    requires OpInv(s, op) && OpInv(s, about)
    ensures OpInv(Saved(s, about, ok, SaveTo(s, about, written)), op)
  {
    if op == about { SavedKeepsOwn(s, op, ok, written); } else { SavedKeepsOther(s, about, ok, written, op); }
  }

  lemma SavedKeepsOwn(s: State, op: Operation, ok: bool, written: bool)
    requires op in s.calls && op in s.memory && s.calls[op].Recording? && (ok ==> written) && OpInv(s, op)
    ensures OpInv(Saved(s, op, ok, SaveTo(s, op, written)), op)
  {
  }

  lemma SavedKeepsOther(s: State, about: Operation, ok: bool, written: bool, op: Operation)
    requires about in s.calls && about in s.memory && s.calls[about].Recording? && OpInv(s, op) && op != about
    ensures OpInv(Saved(s, about, ok, SaveTo(s, about, written)), op)
  {
    var t := Saved(s, about, ok, SaveTo(s, about, written));
    assert SameButDisk(s, t, op);
    SameButDiskKeeps(s, t, op);
  }

  /** What a save for another operation may change for `op`: its entry on disk may
      become the one in memory. */
  predicate SameButDisk(s: State, t: State, op: Operation) {
    && t.drafts == s.drafts && t.daemon == s.daemon && t.wire == s.wire
    && t.posted == s.posted && t.created == s.created && t.lost == s.lost
    && (op in t.memory <==> op in s.memory) && (op in s.memory ==> t.memory[op] == s.memory[op])
    && (op in t.calls <==> op in s.calls) && (op in s.calls ==> t.calls[op] == s.calls[op])
    && (op in t.published <==> op in s.published) && (op in s.published ==> t.published[op] == s.published[op])
    && (op in s.disk ==> op in t.disk)
    && (op in t.disk ==> (op in s.disk && t.disk[op] == s.disk[op]) || (op in s.memory && t.disk[op] == s.memory[op]))
  }

  lemma SameButDiskKeeps(s: State, t: State, op: Operation)
    requires SameButDisk(s, t, op) && OpInv(s, op)
    ensures OpInv(t, op)
  {
  }

  lemma RestartKeeps(s: State, e: Event, op: Operation)
    requires e.Restart? && Enabled(s, e) && OpInv(s, op)
    ensures OpInv(Apply(s, e), op)
  {
  }

  lemma ArriveAtKeeps(s: State, m: Message, id: string, answer: Option<Receipt>, op: Operation)
    requires m in s.wire && id !in s.daemon && OpInv(s, op) && MessageInv(s, m)
    ensures OpInv(ArriveAt(s, m, id, answer), op)
  {
    var t := ArriveAt(s, m, id, answer);
    if op in s.drafts && m == PostOf(s, op) {
      assert t.wire[m] == s.wire[m] - 1;
    } else if op in s.drafts {
      assert t.wire[PostOf(s, op)] == s.wire[PostOf(s, op)];
      assert m.Post? ==> m.operation != op;
    }
  }

  lemma ArriveKeeps(s: State, e: Event, op: Operation)
    requires e.Arrive? && Enabled(s, e) && OpInv(s, op) && MessageInv(s, e.message)
    ensures OpInv(Apply(s, e), op)
  {
    ArriveAtKeeps(s, e.message, e.id, e.answer, op);
  }

  lemma RecordKeeps(s: State, op: Operation, id: string, before: Attempt)
    requires OpInv(s, op) && op in s.memory && op in s.drafts && MadeFor(s, id, op)
    requires Accepts(s.memory[op].intent, s.daemon[id].receipt)
    requires EntryInv(s, op, before) && before.deployment == s.memory[op].deployment
    requires before.sandbox.Some? ==> before == s.memory[op] && before.sandbox.value == id
    requires op in s.published ==> before.sandbox.Some?
    requires before.sandbox.Some? ==> op in s.disk && s.disk[op].sandbox == before.sandbox
    ensures OpInv(Record(s, op, s.daemon[id].receipt, before), op)
  {
  }

  lemma AcceptedIsOwn(s: State, op: Operation, id: string)
    requires OpInv(s, op) && SandboxInv(s, id) && op in s.memory && id in s.daemon
    requires Accepts(s.memory[op].intent, s.daemon[id].receipt)
    ensures op in s.drafts && MadeFor(s, id, op)
  {
  }

  lemma AnsweredKeeps(s: State, op: Operation, id: string)
    requires op in s.calls && op in s.memory && id in s.daemon && SandboxInv(s, id)
    requires s.calls[op].Posting? || s.calls[op].Getting?
    requires OpInv(s, op)
    ensures OpInv(Answered(s, op, s.daemon[id].receipt), op)
  {
    var a, receipt := s.memory[op], s.daemon[id].receipt;
    if Accepts(a.intent, receipt) {
      AcceptedIsOwn(s, op, id);
      if s.calls[op].Posting? {
        RecordKeeps(s, op, id, a.(sandbox := None, receipt := None));
      } else if a.sandbox == None || a.sandbox.value == id {
        RecordKeeps(s, op, id, a);
      }
    }
  }

  /** What a step must leave alone to leave the invariant of `op` alone. */
  predicate SameFor(s: State, t: State, op: Operation) {
    && t.drafts == s.drafts && t.daemon == s.daemon && t.wire == s.wire
    && t.posted == s.posted && t.created == s.created && t.lost == s.lost
    && t.disk == s.disk && t.published == s.published
    && (op in t.memory <==> op in s.memory) && (op in s.memory ==> t.memory[op] == s.memory[op])
    && (op in t.calls <==> op in s.calls) && (op in s.calls ==> t.calls[op] == s.calls[op])
  }

  lemma SameKeeps(s: State, t: State, op: Operation)
    requires SameFor(s, t, op) && OpInv(s, op)
    ensures OpInv(t, op)
  {
  }

  lemma AnswerKeeps(s: State, e: Event, op: Operation)
    requires e.Answer? && Enabled(s, e) && OpInv(s, op) && SandboxInv(s, e.id) && OpInv(s, e.operation)
    ensures OpInv(Apply(s, e), op)
  {
    if op == e.operation {
      AnsweredKeeps(s, op, e.id);
    } else {
      SameKeeps(s, Apply(s, e), op);
    }
  }

  lemma OperationKeeps(sha: Hash, s: State, e: Event, op: Operation)
    requires Inv(sha, s) && Enabled(s, e)
    ensures OpInv(Apply(s, e), op)
  {
    assert OpInv(s, op);
    match e
    case Draft(_, p) => assert MessageInv(s, Post(op, p.body)); DraftKeeps(s, e, op);
    case SaveIntent(about, _, _) => assert OpInv(s, about); SaveIntentKeeps(s, e, op);
    case Submit(about, _) => assert OpInv(s, about); SubmitKeeps(s, e, op);
    case Recover(_, _) => RecoverKeeps(s, e, op);
    case Reuse(_) => ReuseKeeps(s, e, op);
    case Arrive(m, _, _) => assert MessageInv(s, m); ArriveKeeps(s, e, op);
    case Lose(m) => assert MessageInv(s, m); LoseKeeps(s, e, op);
    case Answer(about, id, _) => assert OpInv(s, about) && SandboxInv(s, id); AnswerKeeps(s, e, op);
    case Fail(_) => FailKeeps(s, e, op);
    case SaveReceipt(about, _, _) => assert OpInv(s, about); SaveReceiptKeeps(s, e, op);
    case Restart(_) => RestartKeeps(s, e, op);
  }

  // ---- one step, seen from the wire, the daemon and a pair of operations ---------------

  lemma SentIsPrepared(s: State, e: Event, m: Message)
    requires Enabled(s, e) && e.Submit? && MessageInv(s, m) && OpInv(s, e.operation)
    ensures MessageInv(Apply(s, e), m)
  {
    if MaySend(s.memory[e.operation].intent, s.transport, e.key) {
      assert Apply(s, e).wire == s.wire + multiset{PostOf(s, e.operation)};
    }
  }

  lemma NoOtherPosts(s: State, e: Event, m: Message)
    requires Enabled(s, e) && !e.Submit? && m.Post?
    ensures Apply(s, e).wire[m] <= s.wire[m]
  {
  }

  lemma MessageKeeps(s: State, e: Event, m: Message)
    requires Enabled(s, e) && MessageInv(s, m)
    requires e.Submit? ==> OpInv(s, e.operation)
    ensures MessageInv(Apply(s, e), m)
  {
    if e.Submit? {
      SentIsPrepared(s, e, m);
    } else if m.Post? {
      NoOtherPosts(s, e, m);
      if m in s.wire { DraftsStay(s, e, m.operation); }
    }
  }

  lemma OnlyArrivalsReachTheDaemon(s: State, e: Event)
    requires Enabled(s, e) && !(e.Arrive? && e.message.Post?)
    ensures Apply(s, e).daemon == s.daemon && Apply(s, e).created == s.created
  {
  }

  lemma DraftsStay(s: State, e: Event, op: Operation)
    requires Enabled(s, e) && op in s.drafts
    ensures op in Apply(s, e).drafts && Apply(s, e).drafts[op] == s.drafts[op]
  {
  }

  lemma ArrivalMakesItsSandbox(sha: Hash, s: State, m: Message, id: string, answer: Option<Receipt>, id': string)
    requires m in s.wire && m.Post? && id !in s.daemon && SandboxInv(s, id')
    requires answer == DaemonReceipt(sha, m.operation, id, m.body)
    requires MessageInv(s, m) && DraftInv(sha, s, m.operation)
    ensures SandboxInv(ArriveAt(s, m, id, answer), id')
  {
    var op := m.operation;
    assert m == PostOf(s, op);
    assert answer == Some(Receipt(op, id, s.drafts[op].intent.requestDigest, s.drafts[op].intent.backendRequestDigest));
  }

  lemma SandboxKeeps(sha: Hash, s: State, e: Event, id: string)
    requires Enabled(s, e) && Computed(sha, s, e) && SandboxInv(s, id)
    requires e.Arrive? ==> MessageInv(s, e.message) && DraftInv(sha, s, e.message.operation)
    ensures SandboxInv(Apply(s, e), id)
  {
    if e.Arrive? && e.message.Post? {
      ArrivalMakesItsSandbox(sha, s, e.message, e.id, e.answer, id);
    } else {
      OnlyArrivalsReachTheDaemon(s, e);
      if id in s.daemon { DraftsStay(s, e, s.daemon[id].operation); }
    }
  }

  /** A second sandbox for an operation would take a second POST. */
  lemma ArrivalIsTheFirst(s: State, m: Message, id: string, answer: Option<Receipt>, a: string, b: string)
    requires m in s.wire && m.Post? && id !in s.daemon && MessageInv(s, m) && OpInv(s, m.operation)
    requires SandboxesDiffer(s, a, b) && SandboxInv(s, a) && SandboxInv(s, b)
    ensures SandboxesDiffer(ArriveAt(s, m, id, answer), a, b)
  {
    var op := m.operation;
    assert s.wire[PostOf(s, op)] >= 1;
    assert s.created[op] == 0;
  }

  lemma DifferKeeps(s: State, e: Event, a: string, b: string)
    requires Enabled(s, e) && SandboxesDiffer(s, a, b) && SandboxInv(s, a) && SandboxInv(s, b)
    requires e.Arrive? ==> MessageInv(s, e.message) && OpInv(s, e.message.operation)
    ensures SandboxesDiffer(Apply(s, e), a, b)
  {
    if e.Arrive? && e.message.Post? {
      ArrivalIsTheFirst(s, e.message, e.id, e.answer, a, b);
    } else {
      OnlyArrivalsReachTheDaemon(s, e);
    }
  }

  /** Only drafting and restarting can leave an outcome open that was not. */
  predicate OpenKept(s: State, t: State, op: Operation)
    requires op in s.memory
  {
    op in t.memory && t.memory[op].deployment == s.memory[op].deployment && (Open(t, op) ==> Open(s, op))
  }

  lemma SendKeepsClosed(s: State, e: Event, op: Operation)
    requires Enabled(s, e) && op in s.memory && (e.Submit? || e.Recover?)
    ensures OpenKept(s, Apply(s, e), op)
  {
    match e
    case Submit(_, _) =>
    case Recover(_, _) =>
  }

  lemma FailKeepsClosed(s: State, e: Event, op: Operation)
    requires Enabled(s, e) && op in s.memory && e.Fail?
    ensures OpenKept(s, Apply(s, e), op)
  {
  }

  lemma AnswerKeepsClosed(s: State, about: Operation, receipt: Receipt, op: Operation)
    requires about in s.calls && about in s.memory && OpInv(s, about) && op in s.memory
    requires s.calls[about].Posting? || s.calls[about].Getting?
    ensures OpenKept(s, Answered(s, about, receipt), op)
  {
  }

  lemma SaveKeepsClosed(s: State, e: Event, op: Operation)
    requires Enabled(s, e) && OpInv(s, op) && op in s.memory
    requires e.SaveIntent? || e.SaveReceipt?
    ensures OpenKept(s, Apply(s, e), op)
  {
  }

  /** Only drafting and restarting can leave an outcome open that was not. */
  lemma OpenKeeps(s: State, e: Event, op: Operation)
    requires Enabled(s, e) && OpInv(s, op) && !e.Restart? && op in s.memory
    requires e.Answer? ==> OpInv(s, e.operation)
    ensures OpenKept(s, Apply(s, e), op)
  {
    if e.Submit? || e.Recover? {
      SendKeepsClosed(s, e, op);
    } else if e.Fail? {
      FailKeepsClosed(s, e, op);
    } else if e.Answer? {
      AnswerKeepsClosed(s, e.operation, s.daemon[e.id].receipt, op);
    } else if e.SaveIntent? || e.SaveReceipt? {
      SaveKeepsClosed(s, e, op);
    }
  }

  predicate Saves(s: State, e: Event, op: Operation) {
    (e.SaveIntent? || e.SaveReceipt?) && e.written && SameDeployment(s, e.operation, op)
  }

  lemma SavesCopyMemory(s: State, e: Event, op: Operation)
    requires Enabled(s, e) && OpInv(s, op) && OpenOnDisk(Apply(s, e), op) && (e.SaveIntent? || e.SaveReceipt?)
    ensures if Saves(s, e, op) then Open(s, op) else OpenOnDisk(s, op)
  {
    assert Apply(s, e).disk == SaveTo(s, e.operation, e.written);
  }

  lemma OnlySavesReachTheDisk(s: State, e: Event)
    requires Enabled(s, e) && !e.SaveIntent? && !e.SaveReceipt?
    ensures Apply(s, e).disk == s.disk
  {
  }

  lemma OpenOnDiskKeeps(s: State, e: Event, op: Operation)
    requires Enabled(s, e) && OpInv(s, op) && OpenOnDisk(Apply(s, e), op)
    ensures if Saves(s, e, op) then Open(s, op) else OpenOnDisk(s, op)
  {
    if e.SaveIntent? || e.SaveReceipt? { SavesCopyMemory(s, e, op); } else { OnlySavesReachTheDisk(s, e); }
  }

  lemma PairKeeps(s: State, e: Event, op: Operation, op': Operation)
    requires Enabled(s, e) && PairInv(s, op, op') && OpInv(s, op) && OpInv(s, op')
    requires e.Answer? ==> OpInv(s, e.operation)
    ensures PairInv(Apply(s, e), op, op')
  {
    var t := Apply(s, e);
    if op != op' && SameDeployment(t, op, op') {
      if e.Restart? {
        assert Open(t, op) ==> OpenOnDisk(s, op);
        assert Open(t, op') ==> OpenOnDisk(s, op');
      } else {
        PairStaysClosed(s, e, op, op');
      }
    }
  }

  lemma PairStaysClosed(s: State, e: Event, op: Operation, op': Operation)
    requires Enabled(s, e) && PairInv(s, op, op') && OpInv(s, op) && OpInv(s, op')
    requires e.Answer? ==> OpInv(s, e.operation)
    requires !e.Restart? && op != op' && SameDeployment(Apply(s, e), op, op')
    ensures PairInv(Apply(s, e), op, op')
  {
    var t := Apply(s, e);
    if op in s.memory { OpenKeeps(s, e, op); }
    if op' in s.memory { OpenKeeps(s, e, op'); }
    if op in s.memory && op' in s.memory {
      if OpenOnDisk(t, op) && OpenOnDisk(t, op') {
        OpenOnDiskKeeps(s, e, op);
        OpenOnDiskKeeps(s, e, op');
      }
    } else {
      assert e.Draft?;
    }
  }

  lemma StepKeepsInv(sha: Hash, s: State, e: Event)
    requires Inv(sha, s) && Enabled(s, e) && Computed(sha, s, e)
    ensures Inv(sha, Apply(s, e))
  {
    var t := Apply(s, e);
    forall op ensures OpInv(t, op) { OperationKeeps(sha, s, e, op); }
    forall op ensures DraftInv(sha, t, op) {
      assert DraftInv(sha, s, op);
      DraftAnswered(sha, s, e, op);
    }
    if e.Submit? { assert OpInv(s, e.operation); }
    if e.Arrive? {
      assert MessageInv(s, e.message) && OpInv(s, e.message.operation) && DraftInv(sha, s, e.message.operation);
    }
    forall m ensures MessageInv(t, m) {
      assert MessageInv(s, m);
      MessageKeeps(s, e, m);
    }
    forall id ensures SandboxInv(t, id) {
      assert SandboxInv(s, id);
      SandboxKeeps(sha, s, e, id);
    }
    forall id, id' ensures SandboxesDiffer(t, id, id') {
      assert SandboxesDiffer(s, id, id') && SandboxInv(s, id) && SandboxInv(s, id');
      DifferKeeps(s, e, id, id');
    }
    forall op, op' ensures PairInv(t, op, op') {
      assert PairInv(s, op, op') && OpInv(s, op) && OpInv(s, op');
      if e.Answer? { assert OpInv(s, e.operation); }
      PairKeeps(s, e, op, op');
    }
  }

  lemma InitInv(sha: Hash, transport: string)
    ensures Inv(sha, Init(transport))
  {
  }

  lemma {:induction false} RunKeepsInv(sha: Hash, s: State, es: seq<Event>, t: State)
    requires Inv(sha, s) && Run(sha, s, es, t)
    ensures Inv(sha, t)
    decreases |es|
  {
    if es != [] {
      StepKeepsInv(sha, s, es[0]);
      RunKeepsInv(sha, Apply(s, es[0]), es[1..], t);
    }
  }
}
