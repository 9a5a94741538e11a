/** The promises of the allocation protocol, over every run from an empty journal. */
module AllocationRuns {
  import opened Text
  import opened Json
  import opened Canonical
  import opened Prepare
  import opened Exchange
  import opened Allocation
  import opened AllocationSafety

  lemma RunInv(sha: Hash, transport: string, es: seq<Event>, t: State)
    requires Run(sha, Init(transport), es, t)
    ensures Inv(sha, t)
  {
    InitInv(sha, transport);
    RunKeepsInv(sha, Init(transport), es, t);
  }

  /** No operation is ever POSTed twice, whatever is lost, delayed or restarted;
      each POST was made with its intent on disk, and is in flight, lost or a
      sandbox. */
  lemma AtMostOnePost(sha: Hash, transport: string, es: seq<Event>, t: State)
    requires Run(sha, Init(transport), es, t)
    ensures forall op :: t.posted[op] <= 1
    ensures forall op | op in t.posted ::
              op in t.disk && op in t.drafts && 1 == t.wire[PostOf(t, op)] + t.created[op] + t.lost[op]
  {
    RunInv(sha, transport, es, t);
    forall op ensures t.posted[op] <= 1 { assert OpInv(t, op); }
    forall op | op in t.posted
      ensures op in t.disk && op in t.drafts && 1 == t.wire[PostOf(t, op)] + t.created[op] + t.lost[op]
    {
      assert OpInv(t, op);
    }
  }

  /** Sandbox `id` is the answer to the intent of attempt `a`. */
  predicate AnswersIntent(t: State, op: Operation, a: Attempt, id: string) {
    && id in t.daemon && t.daemon[id].operation == op && a.intent.operationId == op
    && t.daemon[id].receipt == Receipt(op, id, a.intent.requestDigest, a.intent.backendRequestDigest)
  }

  /** Every sandbox belongs to exactly one durable intent, and every durable
      intent to at most one sandbox, although the daemon makes one per POST. */
  lemma SandboxesMatchIntents(sha: Hash, transport: string, es: seq<Event>, t: State)
    requires Run(sha, Init(transport), es, t)
    ensures forall id | id in t.daemon ::
              var op := t.daemon[id].operation; op in t.disk && AnswersIntent(t, op, t.disk[op], id)
    ensures forall id, id' | id in t.daemon && id' in t.daemon && t.daemon[id].operation == t.daemon[id'].operation ::
              id == id'
  {
    RunInv(sha, transport, es, t);
    forall id | id in t.daemon
      ensures var op := t.daemon[id].operation; op in t.disk && AnswersIntent(t, op, t.disk[op], id)
    {
      assert SandboxInv(t, id) && OpInv(t, t.daemon[id].operation);
    }
    forall id, id' | id in t.daemon && id' in t.daemon && t.daemon[id].operation == t.daemon[id'].operation
      ensures id == id'
    {
      assert SandboxesDiffer(t, id, id');
    }
  }

  /** Whichever daemon-issued receipt the network hands to whichever waiting
      call, a sandbox accepted into memory or journal is the intent's own. */
  lemma AcceptedReceiptsAreOwn(sha: Hash, transport: string, es: seq<Event>, t: State)
    requires Run(sha, Init(transport), es, t)
    ensures forall op | op in t.memory && t.memory[op].sandbox.Some? ::
              AnswersIntent(t, op, t.memory[op], t.memory[op].sandbox.value)
    ensures forall op | op in t.disk && t.disk[op].sandbox.Some? ::
              AnswersIntent(t, op, t.disk[op], t.disk[op].sandbox.value)
    ensures forall op | op in t.published ::
              op in t.disk && t.disk[op].sandbox == Some(t.published[op])
  {
    RunInv(sha, transport, es, t);
    forall op | op in t.memory && t.memory[op].sandbox.Some?
      ensures AnswersIntent(t, op, t.memory[op], t.memory[op].sandbox.value)
    {
      assert OpInv(t, op);
    }
    forall op | op in t.disk && t.disk[op].sandbox.Some?
      ensures AnswersIntent(t, op, t.disk[op], t.disk[op].sandbox.value)
    {
      assert OpInv(t, op);
    }
    forall op | op in t.published ensures op in t.disk && t.disk[op].sandbox == Some(t.published[op]) {
      assert OpInv(t, op);
    }
  }

  /** An answer that could not be saved is forgotten: a sandbox that memory holds,
      while no call is saving it, is on disk. */
  lemma AnswersInMemoryAreSaved(sha: Hash, transport: string, es: seq<Event>, t: State)
    requires Run(sha, Init(transport), es, t)
    ensures forall op | op in t.memory && t.memory[op].sandbox.Some? && !(op in t.calls && t.calls[op].Recording?) ::
              op in t.disk && t.disk[op].sandbox == t.memory[op].sandbox
  {
    RunInv(sha, transport, es, t);
    forall op | op in t.memory && t.memory[op].sandbox.Some? && !(op in t.calls && t.calls[op].Recording?)
      ensures op in t.disk && t.disk[op].sandbox == t.memory[op].sandbox
    {
      assert OpInv(t, op);
    }
  }

  /** A deployment never has two attempts of unknown outcome, in memory or on disk. */
  lemma OneUnknownPerDeployment(sha: Hash, transport: string, es: seq<Event>, t: State, op: Operation, op': Operation)
    requires Run(sha, Init(transport), es, t) && op != op'
    ensures op in t.memory && op' in t.memory && t.memory[op].deployment == t.memory[op'].deployment ==>
              t.memory[op].sandbox.Some? || t.memory[op'].sandbox.Some?
    ensures op in t.disk && op' in t.disk && t.disk[op].deployment == t.disk[op'].deployment ==>
              t.disk[op].sandbox.Some? || t.disk[op'].sandbox.Some?
  {
    RunInv(sha, transport, es, t);
    assert PairInv(t, op, op') && OpInv(t, op) && OpInv(t, op');
  }

  // ---- recovery --------------------------------------------------------------------

  /** The steps of recovery: anything but drafting, dispatching and the arrival of a POST. */
  predicate Recovers(e: Event) { !e.Draft? && !e.Submit? && !(e.Arrive? && e.message.Post?) }

  /** Recovery, however long and however unlucky, never changes the daemon and never POSTs. */
  lemma {:induction false} RecoveryLeavesTheDaemon(sha: Hash, s: State, es: seq<Event>, t: State)
    requires Run(sha, s, es, t) && forall e | e in es :: Recovers(e)
    ensures t.daemon == s.daemon && t.posted == s.posted
    decreases |es|
  {
    if es != [] {
      var e := es[0];
      assert e in es;
      OnlyArrivalsReachTheDaemon(s, e);
      OnlySubmitPosts(s, e);
      RecoveryLeavesTheDaemon(sha, Apply(s, e), es[1..], t);
    }
  }

  lemma OnlySubmitPosts(s: State, e: Event)
    requires Enabled(s, e) && !e.Submit?
    ensures Apply(s, e).posted == s.posted
  {
  }

  predicate HoldsBody(s: State, op: Operation) {
    op in s.calls && (s.calls[op].Drafted? || s.calls[op].Cleared?)
  }

  /** Nobody holds the body of `op`, its POST is not in flight and it has no sandbox. */
  predicate Abandoned(s: State, op: Operation) {
    && op in s.drafts && s.wire[PostOf(s, op)] == 0
    && !HoldsBody(s, op)
    && forall id | id in s.daemon :: s.daemon[id].operation != op
  }

  lemma BodiesAreOnlyDrafted(s: State, e: Event, op: Operation)
    requires Enabled(s, e) && op in s.drafts && HoldsBody(Apply(s, e), op)
    ensures HoldsBody(s, op)
  {
  }

  lemma AbandonedKeeps(s: State, e: Event, op: Operation)
    requires Enabled(s, e) && Abandoned(s, op) && (e.Arrive? ==> MessageInv(s, e.message))
    ensures Abandoned(Apply(s, e), op)
  {
    DraftsStay(s, e, op);
    if HoldsBody(Apply(s, e), op) { BodiesAreOnlyDrafted(s, e, op); }
    if !e.Arrive? { OnlyArrivalsReachTheDaemon(s, e); }
    if !e.Submit? { NoOtherPosts(s, e, PostOf(s, op)); }
  }

  /** An operation whose body was lost with its POST never gets a sandbox: an
      unknown outcome is never retried into a second allocation. */
  lemma {:induction false} AbandonedForever(sha: Hash, s: State, es: seq<Event>, t: State, op: Operation)
    requires Inv(sha, s) && Run(sha, s, es, t) && Abandoned(s, op)
    ensures Abandoned(t, op)
    decreases |es|
  {
    if es != [] {
      if es[0].Arrive? { assert MessageInv(s, es[0].message); }
      AbandonedKeeps(s, es[0], op);
      StepKeepsInv(sha, s, es[0]);
      AbandonedForever(sha, Apply(s, es[0]), es[1..], t, op);
    }
  }

  lemma RunCons(sha: Hash, s: State, e: Event, es: seq<Event>, t: State)
    requires Enabled(s, e) && Computed(sha, s, e) && Run(sha, Apply(s, e), es, t)
    ensures Run(sha, s, [e] + es, t)
  {
    assert ([e] + es)[1..] == es;
  }

  predicate Announced(t: State, op: Operation, id: string) {
    op in t.published && t.published[op] == id && op in t.disk && t.disk[op].sandbox == Some(id)
  }

  /** A recorded receipt is one successful save away from being published. */
  lemma SavePublishes(sha: Hash, s: State, op: Operation, id: string) returns (t: State)
    requires op in s.memory && op in s.calls && s.calls[op].Recording? && s.memory[op].sandbox == Some(id)
    ensures Run(sha, s, [SaveReceipt(op, true, true)], t) && Announced(t, op, id)
  {
    var e := SaveReceipt(op, true, true);
    t := Apply(s, e);
    RunCons(sha, s, e, [], t);
    assert [e] + [] == [e];
  }

  /** With the manager restarted, one GET brings the receipt of sandbox `id`. */
  lemma GetPublishes(sha: Hash, s: State, op: Operation, id: string, key: Option<string>) returns (es: seq<Event>, t: State)
    requires op in s.memory && op !in s.calls && !Settled(s, op) && MaySend(s.memory[op].intent, s.transport, key)
    requires id in s.daemon && Accepts(s.memory[op].intent, s.daemon[id].receipt) && s.daemon[id].receipt.sandboxId == id
    requires s.memory[op].sandbox.Some? ==> s.memory[op].sandbox.value == id
    ensures Run(sha, s, es, t) && Announced(t, op, id) && forall e | e in es :: Recovers(e) && !e.Restart?
  {
    var a, b, c := Recover(op, key), Answer(op, id, 200), SaveReceipt(op, true, true);
    var u := Apply(s, a);
    assert Enabled(u, b);
    var v := Apply(u, b);
    assert v == Record(u, op, s.daemon[id].receipt, u.memory[op]);
    t := SavePublishes(sha, v, op, id);
    RunCons(sha, u, b, [c], t);
    RunCons(sha, s, a, [b] + [c], t);
    es := [a] + ([b] + [c]);
  }

  lemma ReusePublishes(sha: Hash, s: State, op: Operation, id: string) returns (es: seq<Event>, t: State)
    requires op in s.memory && op !in s.calls && Settled(s, op)
    requires s.memory[op].sandbox == Some(id) && s.memory[op].receipt.value.sandboxId == id
    ensures Run(sha, s, es, t) && Announced(t, op, id) && forall e | e in es :: Recovers(e)
  {
    var a, b := Reuse(op), SaveReceipt(op, true, true);
    var u := Apply(s, a);
    t := SavePublishes(sha, u, op, id);
    RunCons(sha, s, a, [b], t);
    es := [a] + [b];
  }

  /** No allocation is ever stranded: from any reachable state, whatever was lost,
      restarting and asking once publishes the sandbox the daemon made. */
  lemma AlwaysRecoverable(sha: Hash, s: State, id: string, key: Option<string>) returns (es: seq<Event>, t: State)
    requires Inv(sha, s) && id in s.daemon && SandboxIdShape(id) && key.Some? && key.value != ""
    ensures Run(sha, s, es, t) && forall e | e in es :: Recovers(e)
    ensures Announced(t, s.daemon[id].operation, id)
  {
    var op := s.daemon[id].operation;
    assert SandboxInv(s, id) && OpInv(s, op) && DraftInv(sha, s, op);
    var restart := Restart(s.drafts[op].intent.transport);
    var u := Apply(s, restart);
    assert op in u.memory && u.memory[op].intent == s.drafts[op].intent;
    if u.memory[op].sandbox.Some? { assert SandboxesDiffer(s, u.memory[op].sandbox.value, id); }
    if Settled(u, op) {
      es, t := ReusePublishes(sha, u, op, id);
    } else {
      es, t := GetPublishes(sha, u, op, id, key);
    }
    RunCons(sha, s, restart, es, t);
    es := [restart] + es;
  }

  /** Nor does it take a restart: when the answer to the POST is lost, one GET by the
      same manager publishes the sandbox. */
  lemma LostAnswerIsRecovered(sha: Hash, s: State, id: string, key: Option<string>) returns (es: seq<Event>, t: State)
    requires Inv(sha, s) && id in s.daemon && SandboxIdShape(id)
    requires var op := s.daemon[id].operation;
             op in s.calls && s.calls[op].Posting? && op in s.memory && MaySend(s.memory[op].intent, s.transport, key)
    ensures Run(sha, s, es, t) && (forall e | e in es :: Recovers(e) && !e.Restart?)
    ensures Announced(t, s.daemon[id].operation, id)
  {
    var op := s.daemon[id].operation;
    assert SandboxInv(s, id) && OpInv(s, op);
    var fail := Fail(op);
    es, t := GetPublishesInPlace(sha, Apply(s, fail), op, id, key);
    RunCons(sha, s, fail, es, t);
    es := [fail] + es;
  }

  lemma GetPublishesInPlace(sha: Hash, s: State, op: Operation, id: string, key: Option<string>) returns (es: seq<Event>, t: State)
    requires op in s.memory && op !in s.calls && s.memory[op].receipt.None? && s.memory[op].sandbox.None?
    requires MaySend(s.memory[op].intent, s.transport, key)
    requires id in s.daemon && Accepts(s.memory[op].intent, s.daemon[id].receipt) && s.daemon[id].receipt.sandboxId == id
    ensures Run(sha, s, es, t) && Announced(t, op, id) && forall e | e in es :: Recovers(e) && !e.Restart?
  {
    es, t := GetPublishes(sha, s, op, id, key);
  }

  // ---- what is never sent, never switched and always forgotten ---------------------------

  /** Without a key, or over another transport than the intent was made for, nothing
      is put on the wire. */
  lemma NothingUnsendableIsSent(s: State, e: Event)
    requires Enabled(s, e) && (e.Submit? || e.Recover?)
    requires e.key == None || e.key == Some("") || s.memory[e.operation].intent.transport != s.transport
    ensures Apply(s, e).wire == s.wire && Apply(s, e).posted == s.posted && Apply(s, e).memory == s.memory
    ensures e.Submit? ==> e.operation !in Apply(s, e).calls
  {
  }

  /** In no state at all does an answer to a GET, or a saved receipt, replace the
      sandbox that memory holds by another. */
  lemma SandboxNeverSwitches(s: State, e: Event)
    requires Enabled(s, e) && (e.Reuse? || (e.Answer? && s.calls[e.operation].Getting?))
    requires s.memory[e.operation].sandbox.Some?
    ensures var op := e.operation;
            op in Apply(s, e).memory && Apply(s, e).memory[op].sandbox == s.memory[op].sandbox
  {
  }

  /** When the receipt of a POST cannot be saved, memory has neither it nor its
      sandbox, whatever it had before. */
  lemma UnsavedAnswerIsForgotten(s: State, op: Operation, id: string, status: int, written: bool)
    requires Enabled(s, Answer(op, id, status)) && s.calls[op].Posting? && Accepts(s.memory[op].intent, s.daemon[id].receipt)
    ensures var t := Apply(s, Answer(op, id, status));
            && Enabled(t, SaveReceipt(op, false, written)) && t.memory[op].receipt == Some(s.daemon[id].receipt)
            && var u := Apply(t, SaveReceipt(op, false, written));
               u.memory[op].sandbox == None && u.memory[op].receipt == None && op !in u.calls && u.published == s.published
  {
    var t := Apply(s, Answer(op, id, status));
    assert t == Record(s, op, s.daemon[id].receipt, s.memory[op].(sandbox := None, receipt := None));
  }

  /** What is published, or about to be, was made over the transport in use. */
  predicate OwnTransport(s: State, op: Operation) {
    && (op in s.published ==> op in s.memory && s.memory[op].intent.transport == s.transport)
    && (Asking(s, op) ==> op in s.memory && s.memory[op].intent.transport == s.transport)
  }

  /** Only a draft makes or changes an intent, and only of a new operation. */
  lemma IntentStays(sha: Hash, s: State, e: Event, op: Operation)
    requires Inv(sha, s) && Enabled(s, e) && Computed(sha, s, e) && op in s.memory && op in Apply(s, e).memory
    ensures Apply(s, e).memory[op].intent == s.memory[op].intent
  {
    StepKeepsInv(sha, s, e);
    assert OpInv(s, op) && OpInv(Apply(s, e), op);
    DraftsStay(s, e, op);
  }

  lemma OwnTransportKeeps(sha: Hash, s: State, e: Event, op: Operation)
    requires Inv(sha, s) && Enabled(s, e) && Computed(sha, s, e) && OwnTransport(s, op)
    ensures OwnTransport(Apply(s, e), op)
  {
    var t := Apply(s, e);
    StepKeepsInv(sha, s, e);
    assert OpInv(s, op) && OpInv(t, op);
    if op in s.memory && op in t.memory { IntentStays(sha, s, e, op); }
    TransportStep(s, e, op);
  }

  lemma TransportStep(s: State, e: Event, op: Operation)
    requires Enabled(s, e) && OwnTransport(s, op) && OpInv(s, op) && OpInv(Apply(s, e), op)
    requires op in s.memory && op in Apply(s, e).memory ==> Apply(s, e).memory[op].intent == s.memory[op].intent
    ensures OwnTransport(Apply(s, e), op)
  {
    if !e.Restart? {
      OnlyRestartsChangeTransport(s, e);
      if op in Apply(s, e).published && op !in s.published { PublishedByASave(s, e, op); }
      if Asking(Apply(s, e), op) && !Asking(s, op) { AskedWithLeave(s, e, op); }
    }
  }

  lemma OnlyRestartsChangeTransport(s: State, e: Event)
    requires Enabled(s, e) && !e.Restart?
    ensures Apply(s, e).transport == s.transport
  {
  }

  lemma PublishedByASave(s: State, e: Event, op: Operation)
    requires Enabled(s, e) && op in Apply(s, e).published && op !in s.published
    ensures e.SaveReceipt? && e.operation == op && op in s.calls && s.calls[op].Recording?
  {
  }

  predicate Asking(s: State, op: Operation) {
    op in s.calls && (s.calls[op].Posting? || s.calls[op].Getting? || s.calls[op].Recording?)
  }

  lemma AskedWithLeave(s: State, e: Event, op: Operation)
    requires Enabled(s, e) && Asking(Apply(s, e), op) && !Asking(s, op)
    ensures op in s.memory && s.memory[op].intent.transport == s.transport
  {
  }

  lemma {:induction false} RunKeepsTransport(sha: Hash, s: State, es: seq<Event>, t: State, op: Operation)
    requires Inv(sha, s) && OwnTransport(s, op) && Run(sha, s, es, t)
    ensures OwnTransport(t, op)
    decreases |es|
  {
    if es != [] {
      OwnTransportKeeps(sha, s, es[0], op);
      StepKeepsInv(sha, s, es[0]);
      RunKeepsTransport(sha, Apply(s, es[0]), es[1..], t, op);
    }
  }

  /** In every run, a published sandbox is one of the daemon now in use. */
  lemma PublishedOverOwnTransport(sha: Hash, transport: string, es: seq<Event>, t: State)
    requires Run(sha, Init(transport), es, t)
    ensures forall op | op in t.published :: op in t.disk && t.disk[op].intent.transport == t.transport
  {
    InitInv(sha, transport);
    RunInv(sha, transport, es, t);
    forall op | op in t.published ensures op in t.disk && t.disk[op].intent.transport == t.transport {
      RunKeepsTransport(sha, Init(transport), es, t, op);
      assert OpInv(t, op);
    }
  }

  // ---- an allocation that goes well ----------------------------------------------------

  /** What an allocation needs: an idle deployment, a new identity from `prepare`,
      and a key to send it with. */
  ghost predicate Ready(sha: Hash, s: State, deployment: string, p: Prepared, key: Option<string>) {
    && Enabled(s, Draft(deployment, p)) && IsPrepared(sha, p, s.transport)
    && key.Some? && key.value != ""
  }

  lemma PreparedMaySend(sha: Hash, p: Prepared, transport: string, key: Option<string>)
    requires IsPrepared(sha, p, transport) && key.Some? && key.value != ""
    ensures MaySend(p.intent, transport, key)
  {
    var fs, scope, nonce :| ValidFields(fs) && |nonce| == 16 && p == PreparedFor(sha, fs, transport, scope, nonce);
    OperationIdsAreDistinct(nonce, nonce);
  }

  /** Drafted, saved and dispatched: the POST is on the wire. */
  lemma DispatchReaches(sha: Hash, s: State, deployment: string, p: Prepared, key: Option<string>)
    returns (es: seq<Event>, t: State)
    requires Ready(sha, s, deployment, p, key)
    ensures Run(sha, s, es, t) && t.daemon == s.daemon
    ensures var op := p.intent.operationId;
            && Post(op, p.body) in t.wire && op in t.calls && t.calls[op].Posting?
            && op in t.memory && t.memory[op].intent == p.intent && op in t.drafts && t.drafts[op] == p
  {
    var op := p.intent.operationId;
    var a, b, c := Draft(deployment, p), SaveIntent(op, true, true), Submit(op, key);
    PreparedMaySend(sha, p, s.transport, key);
    var u := Apply(s, a);
    var v := Apply(u, b);
    t := Apply(v, c);
    assert t == Sent(v, op, p.body);
    RunCons(sha, v, c, [], t);
    RunCons(sha, u, b, [c] + [], t);
    es := [a] + ([b] + ([c] + []));
    RunCons(sha, s, a, [b] + ([c] + []), t);
  }

  /** Arrived, answered and saved: the sandbox is published. */
  lemma AnswerPublishes(sha: Hash, s: State, op: Operation, id: string, body: Json)
    returns (es: seq<Event>, t: State)
    requires Inv(sha, s) && op in s.drafts && s.drafts[op].body == body && Post(op, body) in s.wire
    requires op in s.calls && s.calls[op].Posting? && op in s.memory && s.memory[op].intent == s.drafts[op].intent
    requires id !in s.daemon && SandboxIdShape(id)
    ensures Run(sha, s, es, t) && Announced(t, op, id)
  {
    assert DraftInv(sha, s, op) && OpInv(s, op);
    var m, answer := Post(op, body), DaemonReceipt(sha, op, id, body);
    var a, b, c := Arrive(m, id, answer), Answer(op, id, 202), SaveReceipt(op, true, true);
    var u := Apply(s, a);
    assert u == ArriveAt(s, m, id, answer) && u.daemon[id].receipt == answer.value;
    var v := Apply(u, b);
    assert v == Answered(u, op, answer.value);
    t := SavePublishes(sha, v, op, id);
    RunCons(sha, u, b, [c], t);
    RunCons(sha, s, a, [b] + [c], t);
    es := [a] + ([b] + [c]);
  }

  lemma TailOfConcat(es: seq<Event>, fs: seq<Event>)
    requires es != []
    ensures es + fs != [] && (es + fs)[0] == es[0] && (es + fs)[1..] == es[1..] + fs
  {
  }

  lemma {:induction false} RunConcat(sha: Hash, s: State, es: seq<Event>, t: State, fs: seq<Event>, u: State)
    requires Run(sha, s, es, t) && Run(sha, t, fs, u)
    ensures Run(sha, s, es + fs, u)
    decreases |es|
  {
    if es == [] {
      assert es + fs == fs;
    } else {
      RunConcat(sha, Apply(s, es[0]), es[1..], t, fs, u);
      TailOfConcat(es, fs);
    }
  }

  /** The protocol is not safe by standing still: from every reachable state an
      idle deployment can allocate, with whichever sandbox the daemon picks. */
  lemma AllocationSucceeds(sha: Hash, s: State, deployment: string, p: Prepared, key: Option<string>, id: string)
    returns (es: seq<Event>, t: State)
    requires Inv(sha, s) && Ready(sha, s, deployment, p, key) && id !in s.daemon && SandboxIdShape(id)
    ensures Run(sha, s, es, t) && Announced(t, p.intent.operationId, id)
  {
    var before, u := DispatchReaches(sha, s, deployment, p, key);
    RunKeepsInv(sha, s, before, u);
    var after;
    after, t := AnswerPublishes(sha, u, p.intent.operationId, id, p.body);
    RunConcat(sha, s, before, u, after, t);
    es := before + after;
  }
}
