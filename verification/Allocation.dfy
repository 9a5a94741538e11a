/** Correlated allocation as a protocol over the manager's volatile memory, its
    journal on disk, the network and the daemon. A restart keeps only the disk;
    messages are lost or delayed at will; the daemon makes a new sandbox for
    every POST it receives, so nothing here rests on the daemon deduplicating. */
module Allocation {
  import opened Text
  import opened Json
  import JsonText
  import opened Canonical
  import opened Prepare
  import opened Exchange

  type Operation = string

  /** A journal entry: an intent, and the answer once there is one. */
  datatype Attempt = Attempt(deployment: string, intent: Intent, sandbox: Option<string>, receipt: Option<Receipt>)

  /** How far a running call has come. Only the first two hold a request body,
      and no journal entry does. */
  datatype Call =
    | Drafted(body: Json)          // the intent is in memory, not yet persisted
    | Cleared(body: Json)          // the intent is on disk, not yet dispatched
    | Posting                      // waiting for the answer to the one POST
    | Getting                      // waiting for the answer to a GET
    | Recording(before: Attempt)   // a receipt is in memory, not yet persisted

  datatype Message = Post(operation: Operation, body: Json) | Get(operation: Operation)

  /** A sandbox, with the request it was made for and the receipt it is known by. */
  datatype Sandbox = Sandbox(operation: Operation, body: Json, receipt: Receipt)

  datatype State = State(
    transport: string,
    memory: map<Operation, Attempt>,
    calls: map<Operation, Call>,
    published: map<Operation, string>,
    disk: map<Operation, Attempt>,
    wire: multiset<Message>,
    daemon: map<string, Sandbox>,
    // History only: no step but the choice of a fresh nonce looks at these.
    drafts: map<Operation, Prepared>,
    posted: multiset<Operation>,
    created: multiset<Operation>,
    lost: multiset<Operation>)

  datatype Event =
    | Draft(deployment: string, prepared: Prepared)
    | SaveIntent(operation: Operation, ok: bool, written: bool)
    | Submit(operation: Operation, key: Option<string>)
    | Recover(operation: Operation, key: Option<string>)
    | Reuse(operation: Operation)
    | Arrive(message: Message, id: string, answer: Option<Receipt>)
    | Lose(message: Message)
    | Answer(operation: Operation, id: string, status: int)
    | Fail(operation: Operation)
    | SaveReceipt(operation: Operation, ok: bool, written: bool)
    | Restart(transport: string)

  function Init(transport: string): State {
    State(transport, map[], map[], map[], map[], multiset{}, map[], map[], multiset{}, multiset{}, multiset{})
  }

  // ---- the pieces of a step -----------------------------------------------------

  /** The journal after persisting one deployment: its entries as in memory. */
  function Snapshot(s: State, deployment: string): map<Operation, Attempt> {
    s.disk + map op | op in s.memory && s.memory[op].deployment == deployment :: s.memory[op]
  }

  function SaveTo(s: State, operation: Operation, written: bool): map<Operation, Attempt>
    requires operation in s.memory
  {
    if written then Snapshot(s, s.memory[operation].deployment) else s.disk
  }

  /** A saved receipt that `recover_allocations` uses without asking again. */
  predicate Settled(s: State, operation: Operation)
    requires operation in s.memory
  {
    var a := s.memory[operation];
    a.receipt.Some? && a.intent.transport == s.transport && Accepts(a.intent, a.receipt.value)
  }

  function Drop(s: State, operation: Operation): State { s.(calls := s.calls - {operation}) }

  function Record(s: State, operation: Operation, receipt: Receipt, before: Attempt): (t: State)
    requires operation in s.memory
    ensures t.published == s.published && t.disk == s.disk && t.wire == s.wire && t.daemon == s.daemon
    ensures t.drafts == s.drafts && t.posted == s.posted && t.created == s.created && t.lost == s.lost
  {
    var now := s.memory[operation].(sandbox := Some(receipt.sandboxId), receipt := Some(receipt));
    s.(memory := s.memory[operation := now], calls := s.calls[operation := Recording(before)])
  }

  // ---- what the code and the daemon compute on the way -----------------------------

  /** What the daemon answers to a POST of `body`, which travels as printed text:
      the digest it was sent, and its own digest of the kind and request. */
  function DaemonReceipt(sha: Hash, operation: Operation, id: string, body: Json): Option<Receipt> {
    match JsonText.Read(JsonText.Print(body))
    case Some((Obj(fs), rest)) =>
      (match (Lookup(fs, "requestDigest"), Lookup(fs, "kind"), Lookup(fs, "request"))
       case (Some(Str(digest)), Some(kind), Some(request)) =>
         Some(Receipt(operation, id, digest, Digest(sha, Pair("kind", kind, "request", request))))
       case _ => None)
    case _ => None
  }

  /** What `prepare` may return while the manager talks to `transport`. */
  ghost predicate IsPrepared(sha: Hash, p: Prepared, transport: string) {
    exists fs, scope, nonce ::
      ValidFields(fs) && |nonce| == 16 && p == PreparedFor(sha, fs, transport, scope, nonce)
  }

  /** Drafts come from `prepare`; answers to POSTs come from the daemon. */
  ghost predicate Computed(sha: Hash, s: State, e: Event) {
    match e
    case Draft(_, p) => IsPrepared(sha, p, s.transport)
    case Arrive(Post(op, body), id, answer) => answer == DaemonReceipt(sha, op, id, body)
    case _ => true
  }

  // ---- the steps ------------------------------------------------------------------

  /** `Draft` is enabled only with an identity never drawn before, while the
      deployment has no unresolved attempt and no call running (the change guard). */
  predicate Enabled(s: State, e: Event) {
    match e
    case Draft(deployment, p) =>
      && p.intent.operationId !in s.drafts
      && forall op | op in s.memory && s.memory[op].deployment == deployment ::
           s.memory[op].sandbox.Some? && op !in s.calls
    case SaveIntent(op, ok, written) =>
      op in s.calls && op in s.memory && s.calls[op].Drafted? && (ok ==> written)
    case Submit(op, key) => op in s.calls && op in s.memory && s.calls[op].Cleared?
    case Recover(op, key) => op in s.memory && op !in s.calls && !Settled(s, op)
    case Reuse(op) => op in s.memory && op !in s.calls && Settled(s, op)
    case Arrive(m, id, _) => m in s.wire && id !in s.daemon
    case Lose(m) => m in s.wire
    case Answer(op, id, status) =>
      && op in s.calls && op in s.memory && (s.calls[op].Posting? || s.calls[op].Getting?)
      && id in s.daemon && StatusAccepted(status, s.calls[op].Posting?)
    case Fail(op) => op in s.calls && (s.calls[op].Posting? || s.calls[op].Getting?)
    case SaveReceipt(op, ok, written) =>
      op in s.calls && op in s.memory && s.calls[op].Recording? && (ok ==> written)
    case Restart(_) => true
  }

  function Apply(s: State, e: Event): State
    requires Enabled(s, e)
  {
    match e
    case Draft(deployment, p) =>
      var op := p.intent.operationId;
      s.(memory := s.memory[op := Attempt(deployment, p.intent, None, None)],
         calls := s.calls[op := Drafted(p.body)],
         drafts := s.drafts[op := p])
    case SaveIntent(op, ok, written) =>
      s.(disk := SaveTo(s, op, written),
         calls := if ok then s.calls[op := Cleared(s.calls[op].body)] else s.calls - {op})
    case Submit(op, key) =>
      if MaySend(s.memory[op].intent, s.transport, key) then Sent(s, op, s.calls[op].body) else Drop(s, op)
    case Recover(op, key) =>
      if MaySend(s.memory[op].intent, s.transport, key) then
        s.(wire := s.wire + multiset{Get(op)}, calls := s.calls[op := Getting])
      else s
    case Reuse(op) =>
      var a := s.memory[op];
      if a.sandbox.Some? && a.sandbox.value != a.receipt.value.sandboxId then s
      else Record(s, op, a.receipt.value, a)
    case Arrive(m, id, answer) => ArriveAt(s, m, id, answer)
    case Lose(m) =>
      s.(wire := s.wire - multiset{m},
         lost := if m.Post? then s.lost + multiset{m.operation} else s.lost)
    case Answer(op, id, status) => Answered(s, op, s.daemon[id].receipt)
    case Fail(op) => Drop(s, op)
    case SaveReceipt(op, ok, written) => Saved(s, op, ok, SaveTo(s, op, written))
    case Restart(transport) =>
      s.(transport := transport, memory := s.disk, calls := map[], published := map[])
  }

  /** The body is gone once it is on the wire. */
  function Sent(s: State, op: Operation, body: Json): (t: State)
    ensures t.memory == s.memory && t.published == s.published && t.disk == s.disk && t.daemon == s.daemon
    ensures t.drafts == s.drafts && t.created == s.created && t.lost == s.lost
    ensures t.calls == s.calls[op := Posting]
  {
    s.(wire := s.wire + multiset{Post(op, body)}, calls := s.calls[op := Posting], posted := s.posted + multiset{op})
  }

  /** A GET changes nothing at the daemon; every POST it can read makes a sandbox. */
  function ArriveAt(s: State, m: Message, id: string, answer: Option<Receipt>): (t: State)
    ensures t.memory == s.memory && t.calls == s.calls && t.published == s.published && t.disk == s.disk
    ensures t.drafts == s.drafts && t.posted == s.posted && t.wire == s.wire - multiset{m}
    ensures m.Get? ==> t.daemon == s.daemon && t.created == s.created && t.lost == s.lost
  {
    var s := s.(wire := s.wire - multiset{m});
    match m
    case Get(_) => s
    case Post(op, body) =>
      match answer
      case None => s.(lost := s.lost + multiset{op})
      case Some(receipt) =>
        s.(daemon := s.daemon[id := Sandbox(op, body, receipt)], created := s.created + multiset{op})
  }

  function Answered(s: State, op: Operation, receipt: Receipt): (t: State)
    requires op in s.calls && op in s.memory
    ensures t.published == s.published && t.disk == s.disk && t.wire == s.wire && t.daemon == s.daemon
    ensures t.drafts == s.drafts && t.posted == s.posted && t.created == s.created && t.lost == s.lost
  {
    var a := s.memory[op];
    if !Accepts(a.intent, receipt) then Drop(s, op)
    else if s.calls[op].Posting? then Record(s, op, receipt, a.(sandbox := None, receipt := None))
    else if a.sandbox.Some? && a.sandbox.value != receipt.sandboxId then Drop(s, op)
    else Record(s, op, receipt, a)
  }

  /** Capacity is published only once the receipt is saved; a failed save forgets it. */
  function Saved(s: State, op: Operation, ok: bool, disk: map<Operation, Attempt>): (t: State)
    requires op in s.calls && op in s.memory && s.calls[op].Recording?
    ensures t.disk == disk && t.calls == s.calls - {op}
    ensures t.daemon == s.daemon && t.wire == s.wire && t.drafts == s.drafts
    ensures t.posted == s.posted && t.created == s.created && t.lost == s.lost
  {
    var t := s.(disk := disk, calls := s.calls - {op});
    if !ok then t.(memory := s.memory[op := s.calls[op].before])
    else match s.memory[op].sandbox
      case Some(id) => t.(published := s.published[op := id])
      case None => t
  }

  /** `t` is reached from `s` by the events `es`. */
  ghost predicate Run(sha: Hash, s: State, es: seq<Event>, t: State)
    decreases |es|
  {
    if es == [] then s == t
    else Enabled(s, es[0]) && Computed(sha, s, es[0]) && Run(sha, Apply(s, es[0]), es[1..], t)
  }
}
