/**
 * The per-request retry state machines of the Graph API layer:
 * `create_user_api_call` posts a user and, on request, chains one
 * `create_auth_method_api_call` that posts the user's phone method.
 *
 * Each attempt sends one request and reads one response. The network is a
 * finite sequence of responses: attempt `i` reads `rs[i]`. When the sequence
 * runs out before the machine stops, the run is `Unfinished`; that is the
 * modelling horizon, since the Rust loops have no attempt cap. Requests, log
 * records and sleeps are recorded as a trace of events, and
 * `std::process::exit` and a failing `unwrap` end the run with an outcome.
 *
 * The functions `AuthRun` and `UserRun` state what a whole run does, one
 * attempt per recursive call; the methods are the Rust loops themselves and are
 * proved to produce exactly those runs.
 */
module GraphApi {
  import opened Wrappers
  import opened RetryAfter

  /**
   * The parts of a user request body the machines look at: the correlation key
   * (`identities[0].issuerAssignedId`, which every log record carries), the two
   * auth-method fields, and everything else, carried along unchanged.
   */
  datatype RequestBody = RequestBody(
    correlationKey: string,
    authMethodType: Option<string>,
    authMethodValue: Option<string>,
    attributes: string)

  /** The body of the dependent phone-method request. */
  datatype AuthMethodBody = AuthMethodBody(phoneNumber: string, phoneType: string)

  datatype Payload = User(user: RequestBody) | Phone(phone: AuthMethodBody)

  /** What `response.json()` and `get("id").and_then(as_str)` make of a response body. */
  datatype ResponseBody = Unparseable | Json(id: Option<string>)

  /** One response: a transport error, or a status with its optional `Retry-After` octets and its body. */
  datatype Response =
    | TransportError
    | Status(code: nat, retryAfter: Option<seq<byte>>, body: ResponseBody)

  datatype Level = Info | Warn | Error

  /** Which log record was written; the text around it is not modelled. */
  datatype Note =
    | Completed(status: nat)
    | CreatedPatching(status: nat)
    | IdMissing
    | JsonInvalid
    | Exiting(status: nat)
    | Waiting(secs: nat)
    | RetryAfterInvalid
    | StatusFailed(status: nat)
    | TransportFailed
    | AuthMethodCreated(status: nat)

  datatype Event =
    | Send(endpoint: string, payload: Payload)
    | Sleep(secs: nat)
    | Log(level: Level, key: string, note: Note)

  /** How a run ends: the function returns, the process exits, an `unwrap` panics, or the responses run out. */
  datatype Outcome = Returned | Exited(exitCode: int) | Panicked | Unfinished

  /** The events of a run, how it ended, and the index of the first response it did not read. */
  datatype Run = Run(trace: seq<Event>, outcome: Outcome, next: nat)

  /** How one response steers both loops; a success keeps its body for the `id` lookup. */
  datatype Verdict =
    | Success(status: nat, body: ResponseBody)
    | Unauthorized(status: nat)
    | RetryAfterDelay(secs: nat)
    | BadRetryAfter
    | Failed(status: nat)
    | Unreachable

  /** `StatusCode::is_success`. */
  predicate IsSuccess(code: nat) {
    200 <= code <= 299
  }

  /**
   * The branch order both loops share: 2xx, then 401 or 403, then 429 with a
   * usable `Retry-After`, then 429 without one, then any other status; a
   * transport error is the `Err` arm.
   */
  function Classify(resp: Response): (v: Verdict)
    ensures v.Success? <==> resp.Status? && IsSuccess(resp.code)
    ensures v.Unauthorized? <==> resp.Status? && (resp.code == 401 || resp.code == 403)
    ensures v.RetryAfterDelay? <==> resp.Status? && resp.code == 429 && RetryAfterSeconds(resp.retryAfter).Some?
    ensures v.RetryAfterDelay? ==> v.secs == RetryAfterSeconds(resp.retryAfter).value
    ensures v.BadRetryAfter? <==> resp.Status? && resp.code == 429 && RetryAfterSeconds(resp.retryAfter).None?
    ensures v.Unreachable? <==> resp.TransportError?
    ensures v.Success? || v.Unauthorized? || v.Failed? ==> v.status == resp.code
    ensures v.Success? ==> v.body == resp.body
  {
    match resp
    case TransportError => Unreachable
    case Status(code, retryAfter, body) =>
      if IsSuccess(code) then Success(code, body)
      else if code == 401 || code == 403 then Unauthorized(code)
      else if code == 429 then
        match RetryAfterSeconds(retryAfter)
        case Some(secs) => RetryAfterDelay(secs)
        case None => BadRetryAfter
      else Failed(code)
  }

  /** What each response of the network means to the loops, in order. */
  function Verdicts(rs: seq<Response>): (vs: seq<Verdict>)
    ensures |vs| == |rs|
  {
    if rs == [] then [] else [Classify(rs[0])] + Verdicts(rs[1..])
  }

  /** Verdict `k` is what response `k` means. */
  lemma {:induction false} VerdictAt(rs: seq<Response>, k: nat)
    requires k < |rs|
    ensures Verdicts(rs)[k] == Classify(rs[k])
  {
    if k > 0 {
      VerdictAt(rs[1..], k - 1);
    }
  }

  /** Clearing the auth-method fields, as each primary attempt does before sending. */
  function Strip(body: RequestBody): (r: RequestBody)
    ensures r.authMethodType.None? && r.authMethodValue.None?
    ensures r.correlationKey == body.correlationKey && r.attributes == body.attributes
  {
    body.(authMethodType := None, authMethodValue := None)
  }

  /** The dependent endpoint, `{endpoint}/{id}/authentication/phoneMethods`. */
  function AuthEndpoint(endpoint: string, id: string): (r: string)
    ensures |r| > |endpoint| && r[..|endpoint|] == endpoint
  {
    endpoint + "/" + id + "/authentication" + "/phoneMethods"
  }

  /** A trace followed by a run. */
  function Then(prefix: seq<Event>, run: Run): Run {
    Run(prefix + run.trace, run.outcome, run.next)
  }

  /**
   * The phone-method request built from `body` at the top of each attempt: both
   * auth fields are unwrapped, and the number is the auth-method value.
   */
  function PhoneBody(body: RequestBody): (pb: AuthMethodBody)
    requires body.authMethodType.Some? && body.authMethodValue.Some?
    ensures pb.phoneNumber == body.authMethodValue.value && pb.phoneType == "mobile"
  {
    AuthMethodBody(body.authMethodValue.value, "mobile")
  }

  /**
   * What one attempt amounts to: its events, and whether the loop goes round
   * again (`Continue`), ends (`Stop`), or hands over to the dependent call for
   * the new user's `id` (`Chain`, primary loop only).
   */
  datatype Step =
    | Continue(events: seq<Event>)
    | Stop(events: seq<Event>, outcome: Outcome)
    | Chain(events: seq<Event>, id: string)

  /**
   * The records that follow the request when the response is not a success,
   * the same in both loops: 401/403 is logged as the process exiting, 429 with
   * a readable delay as a wait followed by the sleep, 429 without one, any
   * other status and a transport failure as an error.
   */
  function Reaction(key: string, v: Verdict): (es: seq<Event>)
    requires !v.Success?
    ensures |es| > 0 && es[0].Log? && forall k :: 0 <= k < |es| ==> !es[k].Send?
  {
    match v
    case Unauthorized(code) => [Log(Error, key, Exiting(code))]
    case RetryAfterDelay(secs) => [Log(Warn, key, Waiting(secs)), Sleep(secs)]
    case BadRetryAfter => [Log(Error, key, RetryAfterInvalid)]
    case Failed(code) => [Log(Error, key, StatusFailed(code))]
    case Unreachable => [Log(Error, key, TransportFailed)]
  }

  /** How an attempt that does not go round again ends the call: 401/403 exits with status 0, all else returns. */
  function Ending(v: Verdict): (o: Outcome)
    ensures o.Exited? <==> v.Unauthorized?
    ensures o.Exited? ==> o.exitCode == 0
    ensures o != Panicked && o != Unfinished
  {
    if v.Unauthorized? then Exited(0) else Returned
  }

  /** The records one attempt of `create_auth_method_api_call` writes after its request. */
  function AuthRecords(key: string, v: Verdict): (es: seq<Event>)
    ensures |es| > 0 && es[0].Log? && forall k :: 0 <= k < |es| ==> !es[k].Send?
  {
    if v.Success? then [Log(Info, key, AuthMethodCreated(v.status))] else Reaction(key, v)
  }

  /**
   * One attempt of `create_auth_method_api_call`, whose auth fields are
   * present, getting response `v`: only a 429 with a readable delay goes round
   * again.
   */
  function AuthAttempt(endpoint: string, body: RequestBody, v: Verdict): (st: Step)
    requires body.authMethodType.Some? && body.authMethodValue.Some?
    ensures !st.Chain?
  {
    var events := [Send(endpoint, Phone(PhoneBody(body)))] + AuthRecords(body.correlationKey, v);
    if v.RetryAfterDelay? then Continue(events) else Stop(events, Ending(v))
  }

  /** What `create_auth_method_api_call` does from attempt `i` on, the responses meaning `vs`. */
  function AuthRun(endpoint: string, body: RequestBody, vs: seq<Verdict>, i: nat): (r: Run)
    requires i <= |vs|
    ensures i <= r.next <= |vs|
    decreases |vs| - i
  {
    if body.authMethodType.None? || body.authMethodValue.None? then Run([], Panicked, i)
    else if i == |vs| then Run([], Unfinished, i)
    else
      match AuthAttempt(endpoint, body, vs[i])
      case Continue(events) => Then(events, AuthRun(endpoint, body, vs, i + 1))
      case Stop(events, outcome) => Run(events, outcome, i + 1)
  }

  /**
   * Where the primary loop takes the body it hands to the dependent call:
   * `AsWritten` clones it at the top of every attempt, after earlier attempts
   * have already cleared its auth fields; `Hoisted` keeps the body the function
   * was called with.
   */
  datatype Variant = AsWritten | Hoisted

  /** The body saved for the dependent call at the top of an attempt that starts with `body`. */
  function Saved(variant: Variant, saved: RequestBody, body: RequestBody): RequestBody {
    if variant == AsWritten then body else saved
  }

  /**
   * The records one attempt of `create_user_api_call` writes after its
   * request: a success is logged as done, or, when the auth method is to be
   * patched, as created, followed by an error for a body that is not JSON and
   * a warning for JSON without an `id`.
   */
  function UserRecords(key: string, patch: bool, v: Verdict): (es: seq<Event>)
    ensures |es| > 0 && es[0].Log? && forall k :: 0 <= k < |es| ==> !es[k].Send?
  {
    if !v.Success? then Reaction(key, v)
    else if !patch then [Log(Info, key, Completed(v.status))]
    else
      [Log(Info, key, CreatedPatching(v.status))]
      + (match v.body
         case Unparseable => [Log(Error, key, JsonInvalid)]
         case Json(None) => [Log(Warn, key, IdMissing)]
         case Json(Some(_)) => [])
  }

  /**
   * One attempt of `create_user_api_call` sending `sent` and getting response
   * `v`: a 429 with a readable delay goes round again, a success carrying an
   * `id` hands over to the dependent call when `patch` is set, and everything
   * else ends the call.
   */
  function UserAttempt(endpoint: string, sent: RequestBody, patch: bool, v: Verdict): (st: Step)
    ensures |st.events| > 0 && st.events[0] == Send(endpoint, User(sent))
  {
    var events := [Send(endpoint, User(sent))] + UserRecords(sent.correlationKey, patch, v);
    if v.RetryAfterDelay? then Continue(events)
    else if patch && v.Success? && v.body.Json? && v.body.id.Some? then Chain(events, v.body.id.value)
    else Stop(events, Ending(v))
  }

  /**
   * What `create_user_api_call` does from attempt `i` on, where `body` is the
   * current (mutated) body and `saved` the one the `Hoisted` variant keeps.
   */
  function UserRun(variant: Variant, endpoint: string, saved: RequestBody, body: RequestBody, patch: bool,
                   vs: seq<Verdict>, i: nat): (r: Run)
    requires i <= |vs|
    ensures i <= r.next <= |vs|
    decreases |vs| - i
  {
    if i == |vs| then Run([], Unfinished, i)
    else
      var original := Saved(variant, saved, body);
      var sent := Strip(body);
      match UserAttempt(endpoint, sent, patch, vs[i])
      case Continue(events) => Then(events, UserRun(variant, endpoint, original, sent, patch, vs, i + 1))
      case Stop(events, outcome) => Run(events, outcome, i + 1)
      case Chain(events, id) => Then(events, AuthRun(AuthEndpoint(endpoint, id), original, vs, i + 1))
  }

  /** A call of `create_user_api_call` with `body`: the loop starts at the first response. */
  function UserCall(variant: Variant, endpoint: string, body: RequestBody, patch: bool, rs: seq<Response>): Run {
    UserRun(variant, endpoint, body, body, patch, Verdicts(rs), 0)
  }

  lemma ThenNothing(run: Run)
    ensures Then([], run) == run
  {
    assert [] + run.trace == run.trace;
  }

  lemma ThenThen(a: seq<Event>, b: seq<Event>, run: Run)
    ensures Then(a + b, run) == Then(a, Then(b, run))
  {
    assert (a + b) + run.trace == a + (b + run.trace);
  }

  /** One pass of the dependent loop, as the loop invariant needs it. */
  lemma AuthRunStep(endpoint: string, body: RequestBody, vs: seq<Verdict>, i: nat, trace: seq<Event>)
    requires i < |vs| && body.authMethodType.Some? && body.authMethodValue.Some?
    ensures var st := AuthAttempt(endpoint, body, vs[i]);
            if st.Continue? then Then(trace + st.events, AuthRun(endpoint, body, vs, i + 1))
                                 == Then(trace, AuthRun(endpoint, body, vs, i))
            else Run(trace + st.events, st.outcome, i + 1) == Then(trace, AuthRun(endpoint, body, vs, i))
  {
    var st := AuthAttempt(endpoint, body, vs[i]);
    ThenThen(trace, st.events, AuthRun(endpoint, body, vs, i + 1));
  }

  /**
   * `create_auth_method_api_call` reading responses from `start` on: each pass
   * unwraps both auth fields, sends the phone body and reads one response;
   * a usable 429 sleeps and goes round again, anything else leaves the loop.
   */
  method CreateAuthMethodApiCall(endpoint: string, body: RequestBody, rs: seq<Response>, start: nat)
      returns (trace: seq<Event>, outcome: Outcome, next: nat)
    requires start <= |rs|
    ensures Run(trace, outcome, next) == AuthRun(endpoint, body, Verdicts(rs), start)
  {
    ghost var vs := Verdicts(rs);
    trace := [];
    next := start;
    ThenNothing(AuthRun(endpoint, body, vs, start));
    while true
      invariant next <= |rs|
      invariant Then(trace, AuthRun(endpoint, body, vs, next)) == AuthRun(endpoint, body, vs, start)
      decreases |rs| - next
    {
      if body.authMethodType.None? || body.authMethodValue.None? {
        outcome := Panicked;
        return;
      }
      if next == |rs| {
        outcome := Unfinished;
        return;
      }
      var v := Classify(rs[next]);
      VerdictAt(rs, next);
      var st := AuthAttempt(endpoint, body, v);
      AuthRunStep(endpoint, body, vs, next, trace);
      trace := trace + st.events;
      next := next + 1;
      if !st.Continue? {
        outcome := st.outcome;
        return;
      }
    }
  }

  /** A primary attempt that goes round again adds its events in front of the rest of the run. */
  lemma UserContinues(variant: Variant, endpoint: string, saved: RequestBody, body: RequestBody, patch: bool,
                      vs: seq<Verdict>, i: nat, st: Step, trace: seq<Event>)
    requires i < |vs| && st == UserAttempt(endpoint, Strip(body), patch, vs[i]) && st.Continue?
    ensures Then(trace + st.events, UserRun(variant, endpoint, Saved(variant, saved, body), Strip(body), patch, vs, i + 1))
         == Then(trace, UserRun(variant, endpoint, saved, body, patch, vs, i))
  {
    ThenThen(trace, st.events, UserRun(variant, endpoint, Saved(variant, saved, body), Strip(body), patch, vs, i + 1));
  }

  /** A primary attempt that stops ends the run with its events. */
  lemma UserStops(variant: Variant, endpoint: string, saved: RequestBody, body: RequestBody, patch: bool,
                  vs: seq<Verdict>, i: nat, st: Step, trace: seq<Event>)
    requires i < |vs| && st == UserAttempt(endpoint, Strip(body), patch, vs[i]) && st.Stop?
    ensures Run(trace + st.events, st.outcome, i + 1) == Then(trace, UserRun(variant, endpoint, saved, body, patch, vs, i))
  {
  }

  /** A primary attempt that hands over is followed by the dependent call on the saved body. */
  lemma UserChains(variant: Variant, endpoint: string, saved: RequestBody, body: RequestBody, patch: bool,
                   vs: seq<Verdict>, i: nat, st: Step, trace: seq<Event>)
    requires i < |vs| && st == UserAttempt(endpoint, Strip(body), patch, vs[i]) && st.Chain?
    ensures Then(trace + st.events, AuthRun(AuthEndpoint(endpoint, st.id), Saved(variant, saved, body), vs, i + 1))
         == Then(trace, UserRun(variant, endpoint, saved, body, patch, vs, i))
  {
    ThenThen(trace, st.events, AuthRun(AuthEndpoint(endpoint, st.id), Saved(variant, saved, body), vs, i + 1));
  }

  /** The top of one pass of the primary loop: save the body, clear its auth fields, post it and read response `next`. */
  method UserPass(variant: Variant, endpoint: string, original: RequestBody, current: RequestBody, patch: bool,
                  rs: seq<Response>, next: nat)
      returns (st: Step, originalBody: RequestBody, sent: RequestBody)
    requires next < |rs|
    ensures originalBody == Saved(variant, original, current) && sent == Strip(current)
    ensures st == UserAttempt(endpoint, sent, patch, Verdicts(rs)[next])
  {
    originalBody := if variant == AsWritten then current else original;
    sent := Strip(current);
    VerdictAt(rs, next);
    st := UserAttempt(endpoint, sent, patch, Classify(rs[next]));
  }

  /**
   * `create_user_api_call`: each pass saves the body for the dependent call,
   * clears the auth fields of `body` in place, posts it and reads one response.
   * A usable 429 sleeps and goes round again; a success with `patch` and an
   * `id` runs the dependent call on the saved body; anything else leaves the
   * loop. With `AsWritten` the body is cloned inside the loop, as `api.rs`
   * does; with `Hoisted` it is cloned once, before the loop.
   */
  method CreateUserApiCall(variant: Variant, endpoint: string, body: RequestBody, patch: bool, rs: seq<Response>)
      returns (trace: seq<Event>, outcome: Outcome, next: nat)
    ensures Run(trace, outcome, next) == UserCall(variant, endpoint, body, patch, rs)
  {
    ghost var vs := Verdicts(rs);
    var current := body;
    var original := body;
    trace := [];
    next := 0;
    ThenNothing(UserCall(variant, endpoint, body, patch, rs));
    while true
      invariant next <= |rs|
      invariant Then(trace, UserRun(variant, endpoint, original, current, patch, vs, next))
             == UserCall(variant, endpoint, body, patch, rs)
      decreases |rs| - next
    {
      if next == |rs| {
        outcome := Unfinished;
        return;
      }
      var st, originalBody, sent := UserPass(variant, endpoint, original, current, patch, rs, next);
      if st.Continue? {
        UserContinues(variant, endpoint, original, current, patch, vs, next, st, trace);
        trace := trace + st.events;
        original, current := originalBody, sent;
        next := next + 1;
      } else if st.Stop? {
        UserStops(variant, endpoint, original, current, patch, vs, next, st, trace);
        trace := trace + st.events;
        outcome := st.outcome;
        next := next + 1;
        return;
      } else {
        var authEndpoint := AuthEndpoint(endpoint, st.id);
        UserChains(variant, endpoint, original, current, patch, vs, next, st, trace);
        var authTrace, authOutcome, authNext := CreateAuthMethodApiCall(authEndpoint, originalBody, rs, next + 1);
        ThenThen(trace, st.events, AuthRun(authEndpoint, originalBody, vs, next + 1));
        trace := trace + st.events + authTrace;
        outcome := authOutcome;
        next := authNext;
        return;
      }
    }
  }
}
