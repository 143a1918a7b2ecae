/**
 * Batch dispatch: the recipients are cut into consecutive batches of 20;
 * every recipient of a batch is sent the composed text, each send's
 * rejection is caught and turned into a plain value, the batch is settled
 * with `Promise.allSettled`, and its entries are appended to the results.
 * A one-second pause follows every batch after which users remain.
 *
 * The provider's `sendMessage` is an oracle `send`, from the request it is
 * given to the outcome of that request. The sends of one batch run
 * concurrently, but `Promise.allSettled` lists its entries in the order of
 * the promises it is given, so a batch is an order-preserving map.
 */
module Dispatch {
  import opened Recipients

  /** `batchSize` */
  const BATCH_SIZE: nat := 20

  /** The arguments of one `sendMessage` call. */
  datatype SendRequest = SendRequest(chatId: UserId, text: string, parseMode: string, disableWebPagePreview: bool)

  /** What the provider does with one send: deliver it, or reject it with an error. */
  datatype SendOutcome = Delivered(messageId: int) | Refused(error: string)

  /**
   * The value a send's promise finally holds: the sent message, or the object
   * `{status: 'rejected', reason: err}` that the `.catch` handler builds.
   */
  datatype Value = SentMessage(messageId: int) | RejectionRecord(reason: string)

  /** A settled promise. */
  datatype Promise = Resolved(value: Value) | Failed(reason: string)

  /** One entry of the array `Promise.allSettled` yields. */
  datatype Settlement = Fulfilled(value: Value) | Rejected(reason: string)

  /** `sendMessage`'s promise for a given outcome. */
  function SendPromise(outcome: SendOutcome): Promise
  {
    match outcome
    case Delivered(id) => Resolved(SentMessage(id))
    case Refused(e) => Failed(e)
  }

  /** `.catch(err => ({ status: 'rejected', reason: err }))` */
  function CatchRejection(p: Promise): (q: Promise)
    ensures q.Resolved?
    ensures p.Resolved? ==> q == p
    ensures p.Failed? ==> q.value == RejectionRecord(p.reason)
  {
    match p
    case Resolved(_) => p
    case Failed(e) => Resolved(RejectionRecord(e))
  }

  /** The entry `Promise.allSettled` records for a settled promise. */
  function Settle(p: Promise): Settlement
  {
    match p
    case Resolved(v) => Fulfilled(v)
    case Failed(e) => Rejected(e)
  }

  /** The `status` field of an `allSettled` entry. */
  function Status(s: Settlement): string
  {
    match s
    case Fulfilled(_) => "fulfilled"
    case Rejected(_) => "rejected"
  }

  /** The send to `userId`: always with `parse_mode: 'HTML'` and link previews off. */
  function Request(userId: UserId, text: string): SendRequest
  {
    SendRequest(userId, text, "HTML", true)
  }

  /** The sends issued for `users`, one each, in order. */
  function Requests(users: seq<UserId>, text: string): (reqs: seq<SendRequest>)
    ensures |reqs| == |users|
  {
    seq(|users|, j requires 0 <= j < |users| => Request(users[j], text))
  }

  /** The `allSettled` entry for one user's caught send. */
  function Deliver(userId: UserId, text: string, send: SendRequest -> SendOutcome): Settlement
  {
    Settle(CatchRejection(SendPromise(send(Request(userId, text)))))
  }

  /** The value recorded for a send with the given outcome. */
  function Recorded(outcome: SendOutcome): Value
  {
    match outcome
    case Delivered(id) => SentMessage(id)
    case Refused(e) => RejectionRecord(e)
  }

  /**
   * `Promise.allSettled(batch.map(userId => sendMessage(…).catch(…)))`: one entry
   * per user, in the batch's order, every one fulfilled, holding the message
   * sent or the record of that user's own rejection.
   */
  function SettleBatch(batch: seq<UserId>, text: string, send: SendRequest -> SendOutcome): (results: seq<Settlement>)
    ensures |results| == |batch|
    ensures forall j :: 0 <= j < |batch| ==> results[j] == Fulfilled(Recorded(send(Request(batch[j], text))))
  {
    seq(|batch|, j requires 0 <= j < |batch| => Deliver(batch[j], text, send))
  }

  /** The batches `userIds.slice(i, i + 20)` for `i = 0, 20, 40, …` below `|users|`. */
  function Batches(users: seq<UserId>): seq<seq<UserId>>
    decreases |users|
  {
    if users == [] then []
    else if |users| <= BATCH_SIZE then [users]
    else [users[..BATCH_SIZE]] + Batches(users[BATCH_SIZE..])
  }

  function Flatten(batches: seq<seq<UserId>>): seq<UserId>
  {
    if batches == [] then [] else batches[0] + Flatten(batches[1..])
  }

  function Min(a: int, b: int): int
  {
    if a <= b then a else b
  }

  /** Concatenating the batches in order gives back the users: none lost, reordered or repeated. */
  lemma {:induction false} BatchesFlatten(users: seq<UserId>)
    ensures Flatten(Batches(users)) == users
    decreases |users|
  {
    if |users| > BATCH_SIZE {
      BatchesFlatten(users[BATCH_SIZE..]);
      assert Batches(users)[1..] == Batches(users[BATCH_SIZE..]);
      assert users == users[..BATCH_SIZE] + users[BATCH_SIZE..];
    } else if users != [] {
      assert Batches(users)[1..] == [];
    }
  }

  /**
   * There are ceil(n / 20) batches; every batch but the last has exactly 20
   * users, and the last has between 1 and 20.
   */
  lemma {:induction false} BatchesShape(users: seq<UserId>)
    ensures |Batches(users)| == (|users| + BATCH_SIZE - 1) / BATCH_SIZE
    ensures forall j :: 0 <= j < |Batches(users)| - 1 ==> |Batches(users)[j]| == BATCH_SIZE
    ensures Batches(users) != [] ==> 0 < |Batches(users)[|Batches(users)| - 1]| <= BATCH_SIZE
    decreases |users|
  {
    if |users| > BATCH_SIZE {
      var rest := users[BATCH_SIZE..];
      BatchesShape(rest);
      var bs := Batches(users);
      assert bs == [users[..BATCH_SIZE]] + Batches(rest);
      forall j | 0 <= j < |bs| - 1 ensures |bs[j]| == BATCH_SIZE {
        if j > 0 {
          assert bs[j] == Batches(rest)[j - 1];
        }
      }
    }
  }

  /** Batch number `j` is the contiguous slice starting at `20 * j`. */
  lemma {:induction false} BatchAt(users: seq<UserId>, j: nat)
    requires BATCH_SIZE * j < |users|
    ensures j < |Batches(users)|
    ensures Batches(users)[j] == users[BATCH_SIZE * j..Min(BATCH_SIZE * j + BATCH_SIZE, |users|)]
    decreases |users|
  {
    if j > 0 {
      var rest := users[BATCH_SIZE..];
      assert Batches(users) == [users[..BATCH_SIZE]] + Batches(rest);
      BatchAt(rest, j - 1);
      assert rest[BATCH_SIZE * (j - 1)..Min(BATCH_SIZE * (j - 1) + BATCH_SIZE, |rest|)]
          == users[BATCH_SIZE * j..Min(BATCH_SIZE * j + BATCH_SIZE, |users|)];
    } else {
      BatchesUnfold(users);
    }
  }

  /** Batch number `j` exists exactly when some user sits at position `20 * j` or later. */
  lemma BatchExists(users: seq<UserId>, j: nat)
    ensures j < |Batches(users)| <==> BATCH_SIZE * j < |users|
  {
    BatchesShape(users);
  }

  /** The next batch is the slice of at most 20 at the front; the rest are the batches of what follows. */
  lemma BatchesUnfold(users: seq<UserId>)
    requires users != []
    ensures Batches(users) == [users[..Min(BATCH_SIZE, |users|)]] + Batches(users[Min(BATCH_SIZE, |users|)..])
  {
    if |users| <= BATCH_SIZE {
      assert users[..|users|] == users;
      assert users[|users|..] == [];
    }
  }

  /** One step of the loop: the batch at `i` is the next slice, and the prefix done grows by it. */
  lemma BatchStep(users: seq<UserId>, i: nat)
    requires i < |users|
    ensures Batches(users[i..]) ==
      [users[i..Min(i + BATCH_SIZE, |users|)]] + Batches(users[Min(i + BATCH_SIZE, |users|)..])
    ensures users[..Min(i + BATCH_SIZE, |users|)] == users[..i] + users[i..Min(i + BATCH_SIZE, |users|)]
  {
    var next := Min(i + BATCH_SIZE, |users|);
    BatchesUnfold(users[i..]);
    assert users[i..][..Min(BATCH_SIZE, |users| - i)] == users[i..next];
    assert users[i..][Min(BATCH_SIZE, |users| - i)..] == users[next..];
  }

  /** Settling two runs of users one after the other is settling them together. */
  lemma SettleBatchAppend(a: seq<UserId>, b: seq<UserId>, text: string, send: SendRequest -> SendOutcome)
    ensures SettleBatch(a + b, text, send) == SettleBatch(a, text, send) + SettleBatch(b, text, send)
  {
    assert forall j :: 0 <= j < |b| ==> (a + b)[|a| + j] == b[j];
  }

  lemma RequestsAppend(a: seq<UserId>, b: seq<UserId>, text: string)
    ensures Requests(a + b, text) == Requests(a, text) + Requests(b, text)
  {
    assert forall j :: 0 <= j < |b| ==> (a + b)[|a| + j] == b[j];
  }

  /**
   * The batch loop. Returns the settled entries in recipient order and the
   * sends issued; the ghost outputs are the batches dispatched, whether a
   * pause followed each of them, and the number of pauses.
   */
  method DispatchAll(users: seq<UserId>, text: string, send: SendRequest -> SendOutcome)
    returns (results: seq<Settlement>, sent: seq<SendRequest>, ghost batches: seq<seq<UserId>>,
             ghost paused: seq<bool>, ghost pauses: nat)
    ensures results == SettleBatch(users, text, send)
    ensures sent == Requests(users, text)
    ensures batches == Batches(users)
    ensures |paused| == |batches|
    ensures forall j :: 0 <= j < |batches| ==> (paused[j] <==> j < |batches| - 1)
    ensures pauses == if users == [] then 0 else |batches| - 1
  {
    results, sent, batches, paused, pauses := [], [], [], [], 0;
    var i := 0;
    ghost var done := 0;
    while i < |users|
      invariant done == Min(i, |users|)
      invariant batches + Batches(users[done..]) == Batches(users)
      invariant results == SettleBatch(users[..done], text, send)
      invariant sent == Requests(users[..done], text)
      invariant |paused| == |batches|
      invariant forall j :: 0 <= j < |paused| ==> (paused[j] <==> j < |Batches(users)| - 1)
      invariant pauses == if i < |users| then |batches| else if batches == [] then 0 else |batches| - 1
    {
      var batch := users[i..Min(i + BATCH_SIZE, |users|)];
      BatchStep(users, i);
      SettleBatchAppend(users[..i], batch, text, send);
      RequestsAppend(users[..i], batch, text);
      results := results + SettleBatch(batch, text, send);
      sent := sent + Requests(batch, text);
      assert |Batches(users)| == |batches| + 1 + |Batches(users[Min(i + BATCH_SIZE, |users|)..])|;
      batches := batches + [batch];
      paused := paused + [i + BATCH_SIZE < |users|];
      if i + BATCH_SIZE < |users| {
        pauses := pauses + 1;
      }
      i := i + BATCH_SIZE;
      done := Min(i, |users|);
    }
    assert users[..|users|] == users;
  }

  /** 45 users make three batches of 20, 20 and 5 (so `DispatchAll` pauses between them twice). */
  lemma FortyFiveUsers(users: seq<UserId>)
    requires |users| == 45
    ensures |Batches(users)| == 3
    ensures |Batches(users)[0]| == 20 && |Batches(users)[1]| == 20 && |Batches(users)[2]| == 5
  {
    BatchesShape(users);
    BatchAt(users, 2);
  }

  /** A feed of at most 100 updates gives at most 5 batches, so at most 4 pauses. */
  lemma AtMostFiveBatches(updates: seq<Update>)
    requires |updates| <= 100
    ensures |Batches(Resolve(updates))| <= 5
  {
    ResolveCorrect(updates);
    BatchesShape(Resolve(updates));
  }
}
