/**
 * What the two retry state machines promise, proved about the runs `AuthRun`
 * and `UserRun` that their loops are proved to produce.
 */
module GraphApiProperties {
  import opened Wrappers
  import opened RetryAfter
  import opened GraphApi

  /** The number of requests in a trace. */
  function SendCount(t: seq<Event>): (n: nat)
    ensures n <= |t|
    decreases |t|
  {
    if t == [] then 0 else (if t[0].Send? then 1 else 0) + SendCount(t[1..])
  }

  lemma {:induction false} SendCountConcat(a: seq<Event>, b: seq<Event>)
    ensures SendCount(a + b) == SendCount(a) + SendCount(b)
    decreases |a|
  {
    if a != [] {
      var h := if a[0].Send? then 1 else 0;
      calc {
        SendCount(a + b);
        { assert (a + b)[0] == a[0]; assert (a + b)[1..] == a[1..] + b; }
        h + SendCount(a[1..] + b);
        { SendCountConcat(a[1..], b); }
        h + SendCount(a[1..]) + SendCount(b);
      }
    } else {
      assert a + b == b;
    }
  }

  /** Every request in `t` is `ev`. */
  predicate SendsAre(t: seq<Event>, ev: Event) {
    forall k :: 0 <= k < |t| && t[k].Send? ==> t[k] == ev
  }

  /** Every user request in `t` is `ev`. */
  predicate UserSendsAre(t: seq<Event>, ev: Event) {
    forall k :: 0 <= k < |t| && t[k].Send? && t[k].payload.User? ==> t[k] == ev
  }

  /** Every request in `t` posts a phone method. */
  predicate OnlyPhoneSends(t: seq<Event>) {
    forall k :: 0 <= k < |t| && t[k].Send? ==> t[k].payload.Phone?
  }

  lemma SendsAreConcat(a: seq<Event>, b: seq<Event>, ev: Event)
    requires SendsAre(a, ev) && SendsAre(b, ev)
    ensures SendsAre(a + b, ev)
  {
    forall k | 0 <= k < |a + b| && (a + b)[k].Send? ensures (a + b)[k] == ev {
      if k >= |a| { assert (a + b)[k] == b[k - |a|]; }
    }
  }

  lemma UserSendsAreConcat(a: seq<Event>, b: seq<Event>, ev: Event)
    requires UserSendsAre(a, ev) && UserSendsAre(b, ev)
    ensures UserSendsAre(a + b, ev)
  {
    forall k | 0 <= k < |a + b| && (a + b)[k].Send? && (a + b)[k].payload.User? ensures (a + b)[k] == ev {
      if k >= |a| { assert (a + b)[k] == b[k - |a|]; }
    }
  }

  lemma OnlyPhoneSendsConcat(a: seq<Event>, b: seq<Event>)
    requires OnlyPhoneSends(a) && OnlyPhoneSends(b)
    ensures OnlyPhoneSends(a + b)
  {
    forall k | 0 <= k < |a + b| && (a + b)[k].Send? ensures (a + b)[k].payload.Phone? {
      if k >= |a| { assert (a + b)[k] == b[k - |a|]; }
    }
  }

  /** The request of one attempt is the first event of the attempt and the only request in it. */
  lemma AttemptSendsOnce(st: Step, send: Event)
    requires |st.events| > 0 && st.events[0] == send && send.Send?
    requires forall k :: 1 <= k < |st.events| ==> !st.events[k].Send?
    ensures SendCount(st.events) == 1 && SendsAre(st.events, send)
  {
    var t := st.events;
    assert SendCount(t[1..]) == 0 by {
      NoSends(t[1..]);
    }
  }

  lemma {:induction false} NoSends(t: seq<Event>)
    requires forall k :: 0 <= k < |t| ==> !t[k].Send?
    ensures SendCount(t) == 0
    decreases |t|
  {
    if t != [] {
      NoSends(t[1..]);
    }
  }

  /** One attempt of the dependent loop sends its phone request once and nothing else. */
  lemma AuthAttemptShape(endpoint: string, body: RequestBody, v: Verdict)
    requires body.authMethodType.Some? && body.authMethodValue.Some?
    ensures var st := AuthAttempt(endpoint, body, v);
            var send := Send(endpoint, Phone(PhoneBody(body)));
            SendCount(st.events) == 1 && SendsAre(st.events, send) && st.events[0] == send
  {
    var st := AuthAttempt(endpoint, body, v);
    AttemptSendsOnce(st, Send(endpoint, Phone(PhoneBody(body))));
  }

  /** One attempt of the primary loop sends the stripped body once, and nothing else. */
  lemma UserAttemptShape(endpoint: string, sent: RequestBody, patch: bool, v: Verdict)
    ensures var st := UserAttempt(endpoint, sent, patch, v);
            var send := Send(endpoint, User(sent));
            SendCount(st.events) == 1 && SendsAre(st.events, send) && st.events[0] == send
  {
    var st := UserAttempt(endpoint, sent, patch, v);
    AttemptSendsOnce(st, Send(endpoint, User(sent)));
  }

  /** A body missing either auth field makes the dependent loop panic before it sends anything. */
  lemma MissingAuthFieldPanics(endpoint: string, body: RequestBody, vs: seq<Verdict>, i: nat)
    requires i <= |vs| && (body.authMethodType.None? || body.authMethodValue.None?)
    ensures AuthRun(endpoint, body, vs, i) == Run([], Panicked, i)
  {
  }

  /** The dependent loop sends one request per response it reads. */
  lemma {:induction false} AuthRunCount(endpoint: string, body: RequestBody, vs: seq<Verdict>, i: nat)
    requires i <= |vs|
    ensures SendCount(AuthRun(endpoint, body, vs, i).trace) == AuthRun(endpoint, body, vs, i).next - i
    decreases |vs| - i
  {
    if HasAuthFields(body) && i < |vs| {
      var st := AuthAttempt(endpoint, body, vs[i]);
      AuthAttemptShape(endpoint, body, vs[i]);
      if st.Continue? {
        var rest := AuthRun(endpoint, body, vs, i + 1);
        AuthRunCount(endpoint, body, vs, i + 1);
        SendCountConcat(st.events, rest.trace);
      }
    }
  }

  /**
   * Every request of the dependent loop is the phone body built from the
   * auth-method value, and a body with both auth fields never panics.
   */
  lemma {:induction false} AuthRunSends(endpoint: string, body: RequestBody, vs: seq<Verdict>, i: nat)
    requires i <= |vs| && HasAuthFields(body)
    ensures var r := AuthRun(endpoint, body, vs, i);
            SendsAre(r.trace, Send(endpoint, Phone(AuthMethodBody(body.authMethodValue.value, "mobile"))))
            && r.outcome != Panicked
    decreases |vs| - i
  {
    if i < |vs| {
      var send := Send(endpoint, Phone(PhoneBody(body)));
      var st := AuthAttempt(endpoint, body, vs[i]);
      AuthAttemptShape(endpoint, body, vs[i]);
      if st.Continue? {
        var rest := AuthRun(endpoint, body, vs, i + 1);
        AuthRunSends(endpoint, body, vs, i + 1);
        SendsAreConcat(st.events, rest.trace, send);
      }
    }
  }

  /** Whatever the body, the dependent loop only ever posts phone methods. */
  lemma AuthRunOnlyPhone(endpoint: string, body: RequestBody, vs: seq<Verdict>, i: nat)
    requires i <= |vs|
    ensures OnlyPhoneSends(AuthRun(endpoint, body, vs, i).trace)
  {
    if HasAuthFields(body) {
      AuthRunSends(endpoint, body, vs, i);
    }
  }

  /** The primary loop sends one request per response it reads, the dependent call's included. */
  lemma {:induction false} UserRunCount(variant: Variant, endpoint: string, saved: RequestBody, body: RequestBody,
                                        patch: bool, vs: seq<Verdict>, i: nat)
    requires i <= |vs|
    ensures var r := UserRun(variant, endpoint, saved, body, patch, vs, i);
            SendCount(r.trace) == r.next - i
    decreases |vs| - i
  {
    if i < |vs| {
      var sent := Strip(body);
      var original := Saved(variant, saved, body);
      var st := UserAttempt(endpoint, sent, patch, vs[i]);
      assert SendCount(st.events) == 1 by {
        UserAttemptShape(endpoint, sent, patch, vs[i]);
      }
      match st
      case Continue(events) => {
        var rest := UserRun(variant, endpoint, original, sent, patch, vs, i + 1);
        assert SendCount(events + rest.trace) == 1 + rest.next - (i + 1) by {
          UserRunCount(variant, endpoint, original, sent, patch, vs, i + 1);
          SendCountConcat(events, rest.trace);
        }
      }
      case Stop(events, _) => {
      }
      case Chain(events, id) => {
        var rest := AuthRun(AuthEndpoint(endpoint, id), original, vs, i + 1);
        assert SendCount(events + rest.trace) == 1 + rest.next - (i + 1) by {
          AuthRunCount(AuthEndpoint(endpoint, id), original, vs, i + 1);
          SendCountConcat(events, rest.trace);
        }
      }
    }
  }

  /**
   * Every user request of the primary loop is the body with its auth fields
   * cleared: the same request on every attempt.
   */
  lemma {:induction false} UserRunSends(variant: Variant, endpoint: string, saved: RequestBody, body: RequestBody,
                                        patch: bool, vs: seq<Verdict>, i: nat)
    requires i <= |vs|
    ensures UserSendsAre(UserRun(variant, endpoint, saved, body, patch, vs, i).trace, Send(endpoint, User(Strip(body))))
    decreases |vs| - i
  {
    if i < |vs| {
      var sent := Strip(body);
      var send := Send(endpoint, User(sent));
      var original := Saved(variant, saved, body);
      var st := UserAttempt(endpoint, sent, patch, vs[i]);
      UserAttemptShape(endpoint, sent, patch, vs[i]);
      assert UserSendsAre(st.events, send);
      match st
      case Continue(events) => {
        UserRunSends(variant, endpoint, original, sent, patch, vs, i + 1);
        assert Strip(sent) == sent;
        UserSendsAreConcat(events, UserRun(variant, endpoint, original, sent, patch, vs, i + 1).trace, send);
      }
      case Stop(events, _) => {
      }
      case Chain(events, id) => {
        var rest := AuthRun(AuthEndpoint(endpoint, id), original, vs, i + 1);
        AuthRunOnlyPhone(AuthEndpoint(endpoint, id), original, vs, i + 1);
        assert UserSendsAre(rest.trace, send);
        UserSendsAreConcat(events, rest.trace, send);
      }
    }
  }

  /** A request body with both auth fields in place. */
  predicate HasAuthFields(body: RequestBody) {
    body.authMethodType.Some? && body.authMethodValue.Some?
  }

  /**
   * A 2xx ends the primary loop: without `patch` after that single request; with
   * it, whatever follows is the dependent call, so the primary request is never
   * sent again.
   */
  lemma SuccessEndsPrimary(variant: Variant, endpoint: string, saved: RequestBody, body: RequestBody,
                           patch: bool, vs: seq<Verdict>, i: nat)
    requires i < |vs| && vs[i].Success?
    ensures var r := UserRun(variant, endpoint, saved, body, patch, vs, i);
            r.trace[0] == Send(endpoint, User(Strip(body)))
            && OnlyPhoneSends(r.trace[1..])
            && (!patch ==> r.outcome == Returned && r.next == i + 1 && SendCount(r.trace) == 1)
  {
    var r := UserRun(variant, endpoint, saved, body, patch, vs, i);
    var sent := Strip(body);
    var st := UserAttempt(endpoint, sent, patch, vs[i]);
    UserAttemptShape(endpoint, sent, patch, vs[i]);
    assert OnlyPhoneSends(st.events[1..]);
    if st.Chain? {
      var rest := AuthRun(AuthEndpoint(endpoint, st.id), Saved(variant, saved, body), vs, i + 1);
      AuthRunOnlyPhone(AuthEndpoint(endpoint, st.id), Saved(variant, saved, body), vs, i + 1);
      assert r.trace[1..] == st.events[1..] + rest.trace;
      OnlyPhoneSendsConcat(st.events[1..], rest.trace);
    }
  }

  /** A 2xx ends the dependent loop after its single request. */
  lemma SuccessEndsDependent(endpoint: string, body: RequestBody, vs: seq<Verdict>, i: nat)
    requires i < |vs| && vs[i].Success? && HasAuthFields(body)
    ensures var r := AuthRun(endpoint, body, vs, i);
            r.outcome == Returned && r.next == i + 1 && SendCount(r.trace) == 1
  {
    AuthAttemptShape(endpoint, body, vs[i]);
  }

  /** The one error record a loop writes before it stops on a response that is neither a success nor a usable 429. */
  function ErrorNote(v: Verdict): (n: Note)
    requires !v.Success? && !v.RetryAfterDelay?
    ensures n.Exiting? <==> v.Unauthorized?
    ensures n == RetryAfterInvalid <==> v.BadRetryAfter?
    ensures n.StatusFailed? <==> v.Failed?
    ensures n == TransportFailed <==> v.Unreachable?
  {
    match v
    case Unauthorized(code) => Exiting(code)
    case BadRetryAfter => RetryAfterInvalid
    case Failed(code) => StatusFailed(code)
    case Unreachable => TransportFailed
  }

  /**
   * 401 or 403, a 429 without a usable `Retry-After`, any other status and a
   * transport error all end either loop after the one request and one error
   * record naming the case: the process exits with code 0 on 401 or 403, and
   * the function returns otherwise.
   */
  lemma StopsAfterOneRequest(variant: Variant, endpoint: string, saved: RequestBody, body: RequestBody,
                             patch: bool, vs: seq<Verdict>, i: nat)
    requires i < |vs|
    requires var v := vs[i]; !v.Success? && !v.RetryAfterDelay?
    ensures var r := UserRun(variant, endpoint, saved, body, patch, vs, i);
            r.next == i + 1 && SendCount(r.trace) == 1
            && r.trace == [Send(endpoint, User(Strip(body))), Log(Error, body.correlationKey, ErrorNote(vs[i]))]
            && r.outcome == (if vs[i].Unauthorized? then Exited(0) else Returned)
    ensures HasAuthFields(body) ==>
              var r := AuthRun(endpoint, body, vs, i);
              r.next == i + 1 && SendCount(r.trace) == 1
              && r.trace == [Send(endpoint, Phone(PhoneBody(body))), Log(Error, body.correlationKey, ErrorNote(vs[i]))]
              && r.outcome == (if vs[i].Unauthorized? then Exited(0) else Returned)
  {
    UserAttemptShape(endpoint, Strip(body), patch, vs[i]);
    if HasAuthFields(body) {
      AuthAttemptShape(endpoint, body, vs[i]);
    }
  }

  /**
   * A 429 with a usable `Retry-After` of `secs`: the primary loop logs, sleeps
   * `secs` seconds and sends the identical request again.
   */
  lemma RetryResendsSameRequest(variant: Variant, endpoint: string, saved: RequestBody, body: RequestBody,
                                patch: bool, vs: seq<Verdict>, i: nat)
    requires i + 1 < |vs| && vs[i].RetryAfterDelay?
    ensures var r := UserRun(variant, endpoint, saved, body, patch, vs, i);
            var secs := vs[i].secs;
            |r.trace| >= 4 && r.trace[0] == Send(endpoint, User(Strip(body)))
            && r.trace[1] == Log(Warn, body.correlationKey, Waiting(secs))
            && r.trace[2] == Sleep(secs) && r.trace[3] == r.trace[0]
  {
    var sent := Strip(body);
    var rest := UserRun(variant, endpoint, Saved(variant, saved, body), sent, patch, vs, i + 1);
    UserAttemptShape(endpoint, Strip(sent), patch, vs[i + 1]);
    assert Strip(sent) == sent;
    assert rest.trace[0] == Send(endpoint, User(sent));
  }

  /** The same for the dependent loop: it sleeps and resends the same phone request. */
  lemma RetryResendsSamePhone(endpoint: string, body: RequestBody, vs: seq<Verdict>, i: nat)
    requires i + 1 < |vs| && vs[i].RetryAfterDelay? && HasAuthFields(body)
    ensures var r := AuthRun(endpoint, body, vs, i);
            var secs := vs[i].secs;
            |r.trace| >= 4 && r.trace[0] == Send(endpoint, Phone(PhoneBody(body)))
            && r.trace[1] == Log(Warn, body.correlationKey, Waiting(secs))
            && r.trace[2] == Sleep(secs) && r.trace[3] == r.trace[0]
  {
    AuthAttemptShape(endpoint, body, vs[i + 1]);
  }

  /**
   * There is no attempt cap: while every response is a usable 429 the primary
   * loop keeps resending, one request per response, and only the end of the
   * responses ends the run.
   */
  lemma {:induction false} NoAttemptCap(variant: Variant, endpoint: string, saved: RequestBody, body: RequestBody,
                                        patch: bool, vs: seq<Verdict>, i: nat)
    requires i <= |vs|
    requires forall j :: i <= j < |vs| ==> vs[j].RetryAfterDelay?
    ensures var r := UserRun(variant, endpoint, saved, body, patch, vs, i);
            r.outcome == Unfinished && r.next == |vs| && SendCount(r.trace) == |vs| - i
            && SendsAre(r.trace, Send(endpoint, User(Strip(body))))
    decreases |vs| - i
  {
    if i < |vs| {
      var sent := Strip(body);
      var send := Send(endpoint, User(sent));
      var st := UserAttempt(endpoint, sent, patch, vs[i]);
      var original := Saved(variant, saved, body);
      var rest := UserRun(variant, endpoint, original, sent, patch, vs, i + 1);
      UserAttemptShape(endpoint, sent, patch, vs[i]);
      NoAttemptCap(variant, endpoint, original, sent, patch, vs, i + 1);
      assert Strip(sent) == sent;
      SendCountConcat(st.events, rest.trace);
      SendsAreConcat(st.events, rest.trace, send);
    }
  }

  /** The same for the dependent loop. */
  lemma {:induction false} NoAttemptCapDependent(endpoint: string, body: RequestBody, vs: seq<Verdict>, i: nat)
    requires i <= |vs| && HasAuthFields(body)
    requires forall j :: i <= j < |vs| ==> vs[j].RetryAfterDelay?
    ensures var r := AuthRun(endpoint, body, vs, i);
            r.outcome == Unfinished && r.next == |vs| && SendCount(r.trace) == |vs| - i
    decreases |vs| - i
  {
    if i < |vs| {
      var st := AuthAttempt(endpoint, body, vs[i]);
      AuthAttemptShape(endpoint, body, vs[i]);
      NoAttemptCapDependent(endpoint, body, vs, i + 1);
      SendCountConcat(st.events, AuthRun(endpoint, body, vs, i + 1).trace);
    }
  }

  /**
   * `r` ends in an exit only with code 0, right after a 401 or 403 (the last
   * response read, from attempt `i` on), and nothing follows the exit record.
   */
  predicate ExitsOnlyOnUnauthorized(r: Run, vs: seq<Verdict>, i: nat, key: string) {
    r.outcome.Exited? ==>
      r.outcome.exitCode == 0 && i < r.next <= |vs| && vs[r.next - 1].Unauthorized?
      && |r.trace| > 0 && r.trace[|r.trace| - 1] == Log(Error, key, Exiting(vs[r.next - 1].status))
  }

  lemma ExitsAfterPrefix(prefix: seq<Event>, rest: Run, vs: seq<Verdict>, i: nat, key: string)
    requires ExitsOnlyOnUnauthorized(rest, vs, i + 1, key)
    ensures ExitsOnlyOnUnauthorized(Then(prefix, rest), vs, i, key)
  {
    if rest.outcome.Exited? {
      var t := prefix + rest.trace;
      assert t[|t| - 1] == rest.trace[|rest.trace| - 1];
    }
  }

  /** An attempt that stops with an exit read a 401 or 403 and logged it last. */
  lemma AttemptExit(st: Step, send: Event, key: string, v: Verdict, vs: seq<Verdict>, i: nat)
    requires i < |vs| && vs[i] == v && st.Stop? && st.outcome == Ending(v)
    requires v.Unauthorized? ==> st.events == [send] + Reaction(key, v)
    ensures ExitsOnlyOnUnauthorized(Run(st.events, st.outcome, i + 1), vs, i, key)
  {
  }

  lemma {:induction false} AuthExitOnlyOnUnauthorized(endpoint: string, body: RequestBody, vs: seq<Verdict>, i: nat)
    requires i <= |vs|
    ensures ExitsOnlyOnUnauthorized(AuthRun(endpoint, body, vs, i), vs, i, body.correlationKey)
    decreases |vs| - i
  {
    if HasAuthFields(body) && i < |vs| {
      var st := AuthAttempt(endpoint, body, vs[i]);
      if st.Continue? {
        AuthExitOnlyOnUnauthorized(endpoint, body, vs, i + 1);
        ExitsAfterPrefix(st.events, AuthRun(endpoint, body, vs, i + 1), vs, i, body.correlationKey);
      } else {
        AttemptExit(st, Send(endpoint, Phone(PhoneBody(body))), body.correlationKey, vs[i], vs, i);
      }
    }
  }

  /**
   * The process exits only with code 0, only right after a 401 or 403 (to the
   * request whose response was read last), and nothing follows the exit record.
   */
  lemma {:induction false} UserExitOnlyOnUnauthorized(variant: Variant, endpoint: string, saved: RequestBody,
                                                      body: RequestBody, patch: bool, vs: seq<Verdict>, i: nat)
    requires i <= |vs| && saved.correlationKey == body.correlationKey
    ensures ExitsOnlyOnUnauthorized(UserRun(variant, endpoint, saved, body, patch, vs, i), vs, i, body.correlationKey)
    decreases |vs| - i
  {
    if i < |vs| {
      var sent := Strip(body);
      var original := Saved(variant, saved, body);
      var key := body.correlationKey;
      var st := UserAttempt(endpoint, sent, patch, vs[i]);
      match st
      case Continue(events) => {
        var rest := UserRun(variant, endpoint, original, sent, patch, vs, i + 1);
        UserExitOnlyOnUnauthorized(variant, endpoint, original, sent, patch, vs, i + 1);
        ExitsAfterPrefix(events, rest, vs, i, key);
      }
      case Stop(_, _) => {
        AttemptExit(st, Send(endpoint, User(sent)), key, vs[i], vs, i);
      }
      case Chain(events, id) => {
        var rest := AuthRun(AuthEndpoint(endpoint, id), original, vs, i + 1);
        AuthExitOnlyOnUnauthorized(AuthEndpoint(endpoint, id), original, vs, i + 1);
        ExitsAfterPrefix(events, rest, vs, i, key);
      }
    }
  }

  /**
   * On a 2xx with `patch` and a string `id`, the primary loop logs and hands
   * over to the dependent loop on `{endpoint}/{id}/authentication/phoneMethods`
   * with the saved body; the dependent loop's outcome is the call's outcome.
   */
  lemma DependentCall(variant: Variant, endpoint: string, saved: RequestBody, body: RequestBody,
                      vs: seq<Verdict>, i: nat, id: string)
    requires i < |vs| && vs[i].Success? && vs[i].body == Json(Some(id))
    ensures UserRun(variant, endpoint, saved, body, true, vs, i)
         == Then([Send(endpoint, User(Strip(body))), Log(Info, body.correlationKey, CreatedPatching(vs[i].status))],
                 AuthRun(endpoint + "/" + id + "/authentication/phoneMethods", Saved(variant, saved, body), vs, i + 1))
  {
    assert AuthEndpoint(endpoint, id) == endpoint + "/" + id + "/authentication/phoneMethods";
  }

  /** On a 2xx with `patch` but no string `id`, or a body that is not JSON, no dependent request is made. */
  lemma NoIdNoDependentCall(variant: Variant, endpoint: string, saved: RequestBody, body: RequestBody,
                            vs: seq<Verdict>, i: nat)
    requires i < |vs| && vs[i].Success?
    requires !vs[i].body.Json? || vs[i].body.id.None?
    ensures var r := UserRun(variant, endpoint, saved, body, true, vs, i);
            r.outcome == Returned && r.next == i + 1 && SendCount(r.trace) == 1
            && r.trace[|r.trace| - 1].Log?
            && r.trace[|r.trace| - 1].note == (if vs[i].body.Json? then IdMissing else JsonInvalid)
  {
    UserAttemptShape(endpoint, Strip(body), true, vs[i]);
  }

  /**
   * As written, a retry before the success is fatal to the dependent call: the
   * body saved at the top of the second attempt already had its auth fields
   * cleared by the first, so the dependent loop's `unwrap` panics, whatever
   * the original body held.
   */
  lemma AsWrittenPanicsAfterRetry(endpoint: string, saved: RequestBody, body: RequestBody,
                                  vs: seq<Verdict>, i: nat, id: string)
    requires i + 1 < |vs| && vs[i].RetryAfterDelay?
    requires vs[i + 1].Success? && vs[i + 1].body == Json(Some(id))
    ensures UserRun(AsWritten, endpoint, saved, body, true, vs, i).outcome == Panicked
  {
    var sent := Strip(body);
    assert Saved(AsWritten, sent, sent) == sent;
  }

  /**
   * With the body saved once, before the loop, the dependent loop always gets
   * the caller's auth fields, so the `unwrap` never panics.
   */
  lemma {:induction false} HoistedNeverPanics(endpoint: string, saved: RequestBody, body: RequestBody,
                                              patch: bool, vs: seq<Verdict>, i: nat)
    requires i <= |vs| && HasAuthFields(saved)
    ensures UserRun(Hoisted, endpoint, saved, body, patch, vs, i).outcome != Panicked
    decreases |vs| - i
  {
    if i < |vs| {
      var sent := Strip(body);
      match UserAttempt(endpoint, sent, patch, vs[i])
      case Continue(_) => {
        HoistedNeverPanics(endpoint, saved, sent, patch, vs, i + 1);
      }
      case Stop(_, _) => {
      }
      case Chain(_, id) => {
        AuthRunSends(AuthEndpoint(endpoint, id), saved, vs, i + 1);
      }
    }
  }

  /** Every phone request in `t` posts `pb`. */
  predicate PhoneSendsAre(t: seq<Event>, pb: AuthMethodBody) {
    forall k :: 0 <= k < |t| && t[k].Send? && t[k].payload.Phone? ==> t[k].payload.phone == pb
  }

  lemma PhoneSendsAreConcat(a: seq<Event>, b: seq<Event>, pb: AuthMethodBody)
    requires PhoneSendsAre(a, pb) && PhoneSendsAre(b, pb)
    ensures PhoneSendsAre(a + b, pb)
  {
    forall k | 0 <= k < |a + b| && (a + b)[k].Send? && (a + b)[k].payload.Phone?
      ensures (a + b)[k].payload.phone == pb
    {
      if k >= |a| { assert (a + b)[k] == b[k - |a|]; }
    }
  }

  /** With the body saved once, before the loop, every phone request carries the caller's auth-method value. */
  lemma {:induction false} HoistedPhoneNumber(endpoint: string, saved: RequestBody, body: RequestBody,
                                              patch: bool, vs: seq<Verdict>, i: nat)
    requires i <= |vs| && HasAuthFields(saved)
    ensures PhoneSendsAre(UserRun(Hoisted, endpoint, saved, body, patch, vs, i).trace,
                          AuthMethodBody(saved.authMethodValue.value, "mobile"))
    decreases |vs| - i
  {
    var pb := AuthMethodBody(saved.authMethodValue.value, "mobile");
    if i < |vs| {
      var sent := Strip(body);
      var st := UserAttempt(endpoint, sent, patch, vs[i]);
      assert PhoneSendsAre(st.events, pb) by {
        UserAttemptShape(endpoint, sent, patch, vs[i]);
      }
      match st
      case Continue(events) => {
        HoistedPhoneNumber(endpoint, saved, sent, patch, vs, i + 1);
        PhoneSendsAreConcat(events, UserRun(Hoisted, endpoint, saved, sent, patch, vs, i + 1).trace, pb);
      }
      case Stop(_, _) => {
      }
      case Chain(events, id) => {
        var rest := AuthRun(AuthEndpoint(endpoint, id), saved, vs, i + 1);
        assert PhoneSendsAre(rest.trace, pb) by {
          AuthRunSends(AuthEndpoint(endpoint, id), saved, vs, i + 1);
        }
        PhoneSendsAreConcat(events, rest.trace, pb);
      }
    }
  }

  /** Without a retry before the first response's verdict, the two variants behave the same. */
  lemma VariantsAgreeWithoutRetry(endpoint: string, body: RequestBody, patch: bool, rs: seq<Response>)
    requires |rs| > 0 && !Classify(rs[0]).RetryAfterDelay?
    ensures UserCall(AsWritten, endpoint, body, patch, rs) == UserCall(Hoisted, endpoint, body, patch, rs)
  {
  }

  /**
   * The finding on concrete responses: a 429 asking for one second, then a 201
   * with `id` "u1", then a 201 for the phone method. As written the dependent
   * call panics; with the body saved before the loop it posts the caller's
   * number and returns.
   */
  lemma RetryThenCreatedExample(endpoint: string, body: RequestBody, id: string)
    requires HasAuthFields(body)
    ensures var rs := [Status(429, Some([0x31]), Unparseable), Status(201, None, Json(Some(id))),
                       Status(201, None, Json(None))];
            UserCall(AsWritten, endpoint, body, true, rs).outcome == Panicked
            && UserCall(Hoisted, endpoint, body, true, rs).outcome == Returned
            && UserCall(Hoisted, endpoint, body, true, rs).trace[|UserCall(Hoisted, endpoint, body, true, rs).trace| - 2]
               == Send(AuthEndpoint(endpoint, id), Phone(AuthMethodBody(body.authMethodValue.value, "mobile")))
  {
    var rs := [Status(429, Some([0x31]), Unparseable), Status(201, None, Json(Some(id))),
               Status(201, None, Json(None))];
    var vs := Verdicts(rs);
    assert vs == [RetryAfterDelay(1), Success(201, Json(Some(id))), Success(201, Json(None))] by {
      OneSecondExample();
      VerdictAt(rs, 0);
      VerdictAt(rs, 1);
      VerdictAt(rs, 2);
    }
    AsWrittenPanicsAfterRetry(endpoint, body, body, vs, 0, id);
    var sent := Strip(body);
    var ep := AuthEndpoint(endpoint, id);
    var auth := AuthRun(ep, body, vs, 2);
    assert auth == Run([Send(ep, Phone(PhoneBody(body))), Log(Info, body.correlationKey, AuthMethodCreated(201))],
                       Returned, 3);
    assert UserRun(Hoisted, endpoint, body, sent, true, vs, 1)
        == Then([Send(endpoint, User(sent)), Log(Info, sent.correlationKey, CreatedPatching(201))], auth);
  }

  /**
   * The retry test: a 429 asking for one second, then a 200. The request is
   * sent, the wait is logged and slept, the identical request is sent again,
   * and the call returns after reading both responses.
   */
  lemma RetryThenSuccessExample(variant: Variant, endpoint: string, body: RequestBody)
    ensures var rs := [Status(429, Some([0x31]), Unparseable), Status(200, None, Json(None))];
            var send := Send(endpoint, User(Strip(body)));
            var key := body.correlationKey;
            UserCall(variant, endpoint, body, false, rs)
              == Run([send, Log(Warn, key, Waiting(1)), Sleep(1), send, Log(Info, key, Completed(200))], Returned, 2)
  {
    var rs := [Status(429, Some([0x31]), Unparseable), Status(200, None, Json(None))];
    var vs := Verdicts(rs);
    assert vs == [RetryAfterDelay(1), Success(200, Json(None))] by {
      OneSecondExample();
      VerdictAt(rs, 0);
      VerdictAt(rs, 1);
    }
    var sent := Strip(body);
    assert Strip(sent) == sent;
    var send := Send(endpoint, User(sent));
    var key := body.correlationKey;
    var second := UserRun(variant, endpoint, Saved(variant, body, body), sent, false, vs, 1);
    assert second == Run([send, Log(Info, key, Completed(200))], Returned, 2);
    assert UserRun(variant, endpoint, body, body, false, vs, 0)
        == Then([send, Log(Warn, key, Waiting(1)), Sleep(1)], second);
  }

  /** The invalid-header test: `Retry-After: invalid_value` on a 429 means one request and no retry. */
  lemma InvalidRetryAfterExample(variant: Variant, endpoint: string, body: RequestBody, patch: bool,
                                 header: string, more: seq<Response>)
    requires header == "invalid" + "_value"
    ensures var rs := [Status(429, Some(Octets(header)), Unparseable)] + more;
            var r := UserCall(variant, endpoint, body, patch, rs);
            r.outcome == Returned && r.next == 1 && SendCount(r.trace) == 1
            && r.trace == [Send(endpoint, User(Strip(body))), Log(Error, body.correlationKey, RetryAfterInvalid)]
  {
    var rs := [Status(429, Some(Octets(header)), Unparseable)] + more;
    assert Verdicts(rs)[0] == BadRetryAfter by {
      InvalidValueExample(header);
    }
    StopsAfterOneRequest(variant, endpoint, body, body, patch, Verdicts(rs), 0);
  }

  /** The success test: a 200 without `patch` is one request, one record, and a return. */
  lemma SuccessExample(variant: Variant, endpoint: string, body: RequestBody, more: seq<Response>)
    ensures var rs := [Status(200, None, Json(None))] + more;
            UserCall(variant, endpoint, body, false, rs)
              == Run([Send(endpoint, User(Strip(body))), Log(Info, body.correlationKey, Completed(200))], Returned, 1)
  {
    var rs := [Status(200, None, Json(None))] + more;
    VerdictAt(rs, 0);
  }

  /**
   * The tests for a 429 without `Retry-After`, a 400, a 500 and an unreachable
   * server: one request, no retry, and the function returns.
   */
  lemma FailingResponseExample(variant: Variant, endpoint: string, body: RequestBody, patch: bool,
                               first: Response, more: seq<Response>)
    requires first == Status(429, None, Unparseable) || first == Status(400, None, Unparseable)
             || first == Status(500, None, Unparseable) || first == TransportError
    ensures var r := UserCall(variant, endpoint, body, patch, [first] + more);
            r.outcome == Returned && r.next == 1 && SendCount(r.trace) == 1
            && r.trace == [Send(endpoint, User(Strip(body))), Log(Error, body.correlationKey, ErrorNote(Classify(first)))]
  {
    var rs := [first] + more;
    VerdictAt(rs, 0);
    StopsAfterOneRequest(variant, endpoint, body, body, patch, Verdicts(rs), 0);
  }
}
