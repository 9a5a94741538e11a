/** One authenticated exchange with the daemon: what may be sent, and which
    answer is a receipt for the intent. */
module Exchange {
  import opened Text
  import opened Prepare

  datatype Receipt = Receipt(operationId: string, sandboxId: string, requestDigest: string, backendRequestDigest: string)

  predicate HexLetter(c: char) { IsDigit(c) || 'a' <= c <= 'f' }

  predicate SandboxIdShape(id: string) { |id| == 35 && "sb-" <= id && All(HexLetter, id[3..]) }

  /** `Intent::accepts`. */
  predicate Accepts(intent: Intent, receipt: Receipt) {
    && receipt.operationId == intent.operationId
    && receipt.requestDigest == intent.requestDigest
    && receipt.backendRequestDigest == intent.backendRequestDigest
    && SandboxIdShape(receipt.sandboxId)
  }

  /** The checks that come before anything is put on the wire. */
  predicate MaySend(intent: Intent, transport: string, key: Option<string>) {
    && intent.transport == transport
    && 0 < |intent.operationId| <= 128
    && All(IdChar, intent.operationId)
    && key.Some? && key.value != ""
  }

  /** 200 always; 202 only in answer to a POST. */
  predicate StatusAccepted(status: int, posted: bool) { status == 200 || (posted && status == 202) }

  const LIMIT := 65536

  /** A chunk of the response body, or the connection failing there. */
  datatype Chunk = Data(bytes: seq<byte>) | Broken

  datatype ExchangeError = Unavailable | Incomplete | TooLarge | Undecodable | Mismatch

  /** The number of chunks before the connection fails. */
  function Arrived(chunks: seq<Chunk>): (n: nat)
    ensures n <= |chunks| && (n < |chunks| ==> chunks[n].Broken?)
    ensures forall i | 0 <= i < n :: chunks[i].Data?
  {
    if chunks == [] || chunks[0].Broken? then 0 else 1 + Arrived(chunks[1..])
  }

  function Concat(chunks: seq<Chunk>): seq<byte> {
    if chunks == [] then []
    else
      var last := chunks[|chunks| - 1];
      Concat(chunks[..|chunks| - 1]) + if last.Data? then last.bytes else []
  }

  lemma {:induction false} ConcatGrows(chunks: seq<Chunk>, i: nat, n: nat)
    requires i <= n <= |chunks|
    ensures |Concat(chunks[..i])| <= |Concat(chunks[..n])|
  {
    if i < n {
      ConcatGrows(chunks, i, n - 1);
      assert chunks[..n][..n - 1] == chunks[..n - 1];
    }
  }

  /** The outcome of `request` once the answer starts to arrive: every error, in
      the order the code reports them. */
  function Outcome(intent: Intent, posted: bool, status: int, chunks: seq<Chunk>,
                   decode: seq<byte> -> Option<Receipt>): Result<Receipt, ExchangeError>
  {
    var arrived := chunks[..Arrived(chunks)];
    if !StatusAccepted(status, posted) then Err(Unavailable)
    else if |Concat(arrived)| > LIMIT then Err(TooLarge)
    else if arrived != chunks then Err(Incomplete)
    else match decode(Concat(chunks))
      case None => Err(Undecodable)
      case Some(receipt) => if Accepts(intent, receipt) then Ok(receipt) else Err(Mismatch)
  }

  /** Only 200 brings a receipt, and 202 in answer to a POST, where it is as good. */
  lemma StatusesExactly(intent: Intent, posted: bool, status: int, chunks: seq<Chunk>, decode: seq<byte> -> Option<Receipt>)
    ensures status != 200 && (status != 202 || !posted) ==> Outcome(intent, posted, status, chunks, decode) == Err(Unavailable)
    ensures Outcome(intent, true, 202, chunks, decode) == Outcome(intent, true, 200, chunks, decode)
    ensures Outcome(intent, posted, 200, chunks, decode) == Outcome(intent, !posted, 200, chunks, decode) != Err(Unavailable)
  {
  }

  /** On 200, a body that arrives whole and within 64 KiB is decided by its receipt:
      it is accepted exactly when it decodes to one with the identity and both
      digests of the intent and a sandbox identity of the daemon's shape. */
  lemma AcceptedExactly(intent: Intent, posted: bool, chunks: seq<Chunk>, decode: seq<byte> -> Option<Receipt>, receipt: Receipt)
    ensures Outcome(intent, posted, 200, chunks, decode) == Ok(receipt) <==>
            && (forall chunk | chunk in chunks :: chunk.Data?) && |Concat(chunks)| < 65537
            && decode(Concat(chunks)) == Some(receipt)
            && receipt.operationId == intent.operationId && receipt.requestDigest == intent.requestDigest
            && receipt.backendRequestDigest == intent.backendRequestDigest
            && |receipt.sandboxId| == 35 && receipt.sandboxId[..3] == "sb-"
            && forall c | c in receipt.sandboxId[3..] :: '0' <= c <= '9' || 'a' <= c <= 'f'
  {
    AllArrived(chunks);
    var id := receipt.sandboxId;
    if SandboxIdShape(id) {
      forall c | c in id[3..] ensures HexLetter(c) { var i :| 0 <= i < |id[3..]| && id[3..][i] == c; }
    }
    if |id| == 35 { assert forall i | 0 <= i < |id[3..]| :: id[3..][i] in id[3..]; }
    assert chunks[..|chunks|] == chunks;
  }

  lemma AllArrived(chunks: seq<Chunk>)
    ensures chunks[..Arrived(chunks)] == chunks <==> forall chunk | chunk in chunks :: chunk.Data?
  {
    var n := Arrived(chunks);
    if n == |chunks| {
      forall chunk | chunk in chunks ensures chunk.Data? { var i :| 0 <= i < n && chunks[i] == chunk; }
    } else {
      assert chunks[n] in chunks;
    }
  }

  /** The chunks of a body are put together in the order they come. */
  lemma {:induction false} ConcatAppends(a: seq<Chunk>, b: seq<Chunk>)
    ensures Concat(a + b) == Concat(a) + Concat(b)
    decreases |b|
  {
    if b == [] {
      assert a + b == a;
    } else {
      var front, last := b[..|b| - 1], b[|b| - 1];
      ConcatAppends(a, front);
      assert (a + b)[..|a + b| - 1] == a + front && (a + b)[|a + b| - 1] == last;
      Assoc(Concat(a), Concat(front), if last.Data? then last.bytes else []);
    }
  }

  lemma ConcatOne(bytes: seq<byte>)
    ensures Concat([Data(bytes)]) == bytes
  {
    assert [Data(bytes)][..0] == [];
  }

  /** What may be sent: over the transport the intent was made for, under an identity
      of 1 to 128 letters, digits, hyphens and underscores, and with a key. */
  lemma SentExactly(intent: Intent, transport: string, key: Option<string>)
    ensures MaySend(intent, transport, key) <==>
            && intent.transport == transport && 0 < |intent.operationId| < 129
            && (forall c | c in intent.operationId :: 'a' <= c <= 'z' || 'A' <= c <= 'Z' || '0' <= c <= '9' || c in "-_")
            && (exists k :: key == Some(k) && k != "")
  {
    var id := intent.operationId;
    if All(IdChar, id) {
      forall c | c in id ensures IdChar(c) { var i :| 0 <= i < |id| && id[i] == c; }
    }
    assert forall i | 0 <= i < |id| :: id[i] in id;
    if key.Some? { assert key == Some(key.value); }
  }

  /** The chunk loop of `request` never holds more than the limit, and finds the
      same outcome as looking at the whole body at once. */
  method ReadReceipt(intent: Intent, posted: bool, status: int, chunks: seq<Chunk>,
                     decode: seq<byte> -> Option<Receipt>) returns (r: Result<Receipt, ExchangeError>)
    ensures r == Outcome(intent, posted, status, chunks, decode)
    ensures r.Ok? ==> (status == 200 || (posted && status == 202)) && Accepts(intent, r.value) && |Concat(chunks)| <= LIMIT
  {
    if !StatusAccepted(status, posted) { return Err(Unavailable); }
    ghost var n := Arrived(chunks);
    var bytes: seq<byte> := [];
    for i := 0 to |chunks|
      invariant i <= n
      invariant bytes == Concat(chunks[..i]) && |bytes| <= LIMIT
    {
      match chunks[i] {
        case Broken => return Err(Incomplete);
        case Data(chunk) =>
          assert chunks[..i + 1][..i] == chunks[..i];
          if |bytes| + |chunk| > LIMIT {
            ConcatGrows(chunks, i + 1, n);
            return Err(TooLarge);
          }
          bytes := bytes + chunk;
      }
    }
    assert chunks[..|chunks|] == chunks;
    match decode(bytes) {
      case None => return Err(Undecodable);
      case Some(receipt) =>
        if !Accepts(intent, receipt) { return Err(Mismatch); }
        return Ok(receipt);
    }
  }
}
