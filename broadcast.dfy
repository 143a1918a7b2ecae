/**
 * The HTTP handler: the root URL answers with a description of the API;
 * otherwise the token and message are validated, the token is tried with
 * `getMe`, the recent updates are fetched and resolved to recipients, and
 * the composed message is dispatched in batches. The report counts the
 * `allSettled` entries by status.
 *
 * Because every send's rejection is caught before `allSettled` sees it,
 * every entry is fulfilled: the report's `failed` is always 0 and its
 * `successful` is always the number of users, whatever the provider did.
 */
module Broadcast {
  import opened Wrappers
  import opened Recipients
  import opened Composition
  import opened Dispatch

  /** The fields read from the request body (POST) or query string (otherwise). */
  datatype Params = Params(token: Option<string>, message: Option<string>, parseMode: Option<string>)

  /** The request; `body` or `query` is `None` when that object is undefined or null. */
  datatype HttpRequest = HttpRequest(url: string, httpMethod: string, body: Option<Params>, query: Option<Params>)

  /**
   * The Telegram provider, as far as the handler observes it: whether `getMe`
   * succeeds for a token, the updates `getUpdates` returns (`None` when
   * `deleteWebhook` or `getUpdates` throws), and the outcome of each send.
   */
  datatype Provider = Provider(
    acceptsToken: string -> bool,
    updates: Option<seq<Update>>,
    send: SendRequest -> SendOutcome)

  /** The handler's responses, without timestamps, metadata and timing. */
  datatype Response =
    | ApiInfo
    | MissingParameters
    | InvalidToken
    | NoActiveUsers(totalUsers: nat, successful: nat, failed: nat, parseMode: string)
    | Report(totalUsers: nat, successful: nat, failed: nat, parseMode: string, messageLength: nat, batchSize: nat)
    | BroadcastFailed
    | InternalError

  function StatusCode(r: Response): int
  {
    match r
    case ApiInfo => 200
    case MissingParameters => 400
    case InvalidToken => 401
    case NoActiveUsers(_, _, _, _) => 200
    case Report(_, _, _, _, _, _) => 200
    case BroadcastFailed => 500
    case InternalError => 500
  }

  /** JavaScript truthiness of a string parameter: present and non-empty. */
  predicate Truthy(v: Option<string>)
  {
    v.Some? && v.value != ""
  }

  predicate IsRoot(req: HttpRequest)
  {
    req.url == "/" || req.url == ""
  }

  /** `req.method === 'POST' ? req.body : req.query` */
  function SelectParams(req: HttpRequest): Option<Params>
  {
    if req.httpMethod == "POST" then req.body else req.query
  }

  /** Both required parameters are present and non-empty. */
  predicate HasRequired(p: Params)
  {
    Truthy(p.token) && Truthy(p.message)
  }

  /** The parse mode echoed in the report: the requested one, `'HTML'` when absent. */
  function EchoedParseMode(p: Params): string
  {
    p.parseMode.GetOr("HTML")
  }

  /** The number of entries whose `status` is `status`: `results.filter(r => r.status === status).length`. */
  function CountStatus(results: seq<Settlement>, status: string): (n: nat)
    ensures n <= |results|
  {
    if results == [] then 0
    else (if Status(results[0]) == status then 1 else 0) + CountStatus(results[1..], status)
  }

  function Successful(results: seq<Settlement>): nat
  {
    CountStatus(results, "fulfilled")
  }

  function FailedCount(results: seq<Settlement>): nat
  {
    CountStatus(results, "rejected")
  }

  /** Every entry is either fulfilled or rejected, so the two counts add up to the number of entries. */
  lemma {:induction false} TallyTotal(results: seq<Settlement>)
    ensures Successful(results) + FailedCount(results) == |results|
  {
    if results != [] {
      TallyTotal(results[1..]);
    }
  }

  /** With every entry fulfilled, all are counted successful and none failed. */
  lemma {:induction false} TallyAllFulfilled(results: seq<Settlement>)
    requires forall j :: 0 <= j < |results| ==> results[j].Fulfilled?
    ensures Successful(results) == |results|
    ensures FailedCount(results) == 0
  {
    if results != [] {
      TallyAllFulfilled(results[1..]);
    }
  }

  /** The tally of a dispatch: every user counts as successful, whatever the sends' outcomes. */
  lemma TallyOfDispatch(users: seq<UserId>, text: string, send: SendRequest -> SendOutcome)
    ensures Successful(SettleBatch(users, text, send)) == |users|
    ensures FailedCount(SettleBatch(users, text, send)) == 0
  {
    TallyAllFulfilled(SettleBatch(users, text, send));
  }

  /** The number of entries that hold a caught rejection. */
  function CountRecords(results: seq<Settlement>): nat
  {
    if results == [] then 0
    else (if results[0].Fulfilled? && results[0].value.RejectionRecord? then 1 else 0) + CountRecords(results[1..])
  }

  /** The number of the users whose send the provider refused. */
  function CountRefused(users: seq<UserId>, text: string, send: SendRequest -> SendOutcome): nat
  {
    if users == [] then 0
    else (if send(Request(users[0], text)).Refused? then 1 else 0) + CountRefused(users[1..], text, send)
  }

  /**
   * The refusals are not lost: the results hold one rejection record per
   * refused send. The tally looks at the entries' `status`, not at these.
   */
  lemma {:induction false} RefusalsRecorded(users: seq<UserId>, text: string, send: SendRequest -> SendOutcome)
    ensures CountRecords(SettleBatch(users, text, send)) == CountRefused(users, text, send)
  {
    if users != [] {
      RefusalsRecorded(users[1..], text, send);
      assert SettleBatch(users, text, send)[1..] == SettleBatch(users[1..], text, send);
    }
  }

  /**
   * Even when the provider refuses every send, the report counts every user
   * as successful and none as failed, and each entry holds a rejection record.
   */
  lemma AllRefusedStillSuccessful(users: seq<UserId>, text: string, send: SendRequest -> SendOutcome)
    requires forall r :: send(r).Refused?
    ensures var results := SettleBatch(users, text, send);
      && CountRecords(results) == |users|
      && Successful(results) == |users|
      && FailedCount(results) == 0
  {
    RefusalsRecorded(users, text, send);
    TallyOfDispatch(users, text, send);
    AllRefusedCount(users, text, send);
  }

  lemma {:induction false} AllRefusedCount(users: seq<UserId>, text: string, send: SendRequest -> SendOutcome)
    requires forall r :: send(r).Refused?
    ensures CountRefused(users, text, send) == |users|
  {
    if users != [] {
      AllRefusedCount(users[1..], text, send);
    }
  }

  /**
   * The handler. `sent` lists the `sendMessage` calls in the order they are
   * issued; the ghost `pauses` counts the one-second waits between batches.
   */
  method Handle(req: HttpRequest, provider: Provider)
    returns (response: Response, sent: seq<SendRequest>, ghost pauses: nat)
    // the root URL is answered before any parameter is read
    ensures IsRoot(req) ==> response == ApiInfo && sent == [] && pauses == 0
    // destructuring an undefined parameter object throws; the outer handler answers 500
    ensures !IsRoot(req) && SelectParams(req).None? ==> response == InternalError && sent == [] && pauses == 0
    // a missing or empty token or message is rejected before any provider call
    ensures !IsRoot(req) && SelectParams(req).Some? && !HasRequired(SelectParams(req).value) ==>
      response == MissingParameters && sent == [] && pauses == 0
    // validated parameters from here on
    ensures !IsRoot(req) && SelectParams(req).Some? && HasRequired(SelectParams(req).value) ==>
      var p := SelectParams(req).value;
      && (!provider.acceptsToken(p.token.value) ==> response == InvalidToken && sent == [] && pauses == 0)
      && (provider.acceptsToken(p.token.value) && provider.updates.None? ==>
            response == BroadcastFailed && sent == [] && pauses == 0)
      && (provider.acceptsToken(p.token.value) && provider.updates.Some? ==>
            var users := Resolve(provider.updates.value);
            && (users == [] ==>
                  response == NoActiveUsers(0, 0, 0, EchoedParseMode(p)) && sent == [] && pauses == 0)
            && (users != [] ==>
                  && response == Report(|users|, |users|, 0, EchoedParseMode(p), |p.message.value| + 108, BATCH_SIZE)
                  && sent == Requests(users, Compose(p.message.value))
                  && pauses == |Batches(users)| - 1))
    // the status code of each branch
    ensures StatusCode(response) == 400 <==>
      !IsRoot(req) && SelectParams(req).Some? && !HasRequired(SelectParams(req).value)
    ensures StatusCode(response) == 401 <==>
      !IsRoot(req) && SelectParams(req).Some? && HasRequired(SelectParams(req).value) &&
      !provider.acceptsToken(SelectParams(req).value.token.value)
    ensures StatusCode(response) == 500 <==>
      !IsRoot(req) &&
      (SelectParams(req).None? ||
       (HasRequired(SelectParams(req).value) && provider.acceptsToken(SelectParams(req).value.token.value) &&
        provider.updates.None?))
    ensures StatusCode(response) in {200, 400, 401, 500}
    // only a report sends anything, and its counts add up
    ensures sent != [] ==> response.Report? && |sent| == response.totalUsers
    ensures response.Report? ==> response.successful + response.failed == response.totalUsers
  {
    sent, pauses := [], 0;
    if IsRoot(req) {
      return ApiInfo, sent, pauses;
    }
    var params := SelectParams(req);
    if params.None? {
      return InternalError, sent, pauses;
    }
    var p := params.value;
    if !HasRequired(p) {
      return MissingParameters, sent, pauses;
    }
    if !provider.acceptsToken(p.token.value) {
      return InvalidToken, sent, pauses;
    }
    if provider.updates.None? {
      return BroadcastFailed, sent, pauses;
    }
    var users := Resolve(provider.updates.value);
    if |users| == 0 {
      return NoActiveUsers(0, 0, 0, EchoedParseMode(p)), sent, pauses;
    }
    var fullMessage := Compose(p.message.value);
    var results;
    ghost var batches, paused;
    results, sent, batches, paused, pauses := DispatchAll(users, fullMessage, provider.send);
    TallyOfDispatch(users, fullMessage, provider.send);
    response := Report(|users|, Successful(results), FailedCount(results), EchoedParseMode(p), |fullMessage|, BATCH_SIZE);
  }

  /**
   * Every send of a broadcast carries the same composed text and
   * `parse_mode: 'HTML'`, whatever parse mode was requested, and there is
   * exactly one send per resolved user.
   */
  lemma UniformSends(users: seq<UserId>, message: string)
    ensures var sent := Requests(users, Compose(message));
      && |sent| == |users|
      && forall j :: 0 <= j < |sent| ==>
           && sent[j].chatId == users[j]
           && sent[j].text == Compose(message)
           && sent[j].parseMode == "HTML"
           && sent[j].disableWebPagePreview
  {
  }

  /** Each resolved user is sent to exactly once. */
  lemma OneSendPerUser(updates: seq<Update>, message: string, x: UserId)
    requires x in Resolve(updates)
    ensures var sent := Requests(Resolve(updates), Compose(message));
      exists j :: 0 <= j < |sent| && sent[j].chatId == x && forall k :: 0 <= k < |sent| && sent[k].chatId == x ==> k == j
  {
    var users := Resolve(updates);
    var sent := Requests(users, Compose(message));
    var j :| 0 <= j < |users| && users[j] == x;
    assert sent[j].chatId == x;
    forall k | 0 <= k < |sent| && sent[k].chatId == x ensures k == j {
      assert users[k] == x;
    }
  }
}
