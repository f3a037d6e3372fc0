/** The authenticated HTTP client (src/lib/api.ts): a request interceptor that attaches the
    stored access token, and a response interceptor that, on an authorization failure, asks
    the refresh endpoint for a new access token and re-issues the request.

    The remote service is a script: `replies` lists the answers to the successive attempts
    at the request, `refreshReplies` the answers to the successive refresh calls. When the
    script runs out before the request settles, the outcome is `Pending`. */
module Api {
  import opened Wrappers
  import opened Session

  const BaseUrl := "http://ec2-13-60-216-152.eu-north-1.compute.amazonaws.com:3000/api"
  const Authorization := "Authorization"
  const Unauthorized := 401

  /** The credentials `Bearer <token>` of section 2.1 of RFC 6750. */
  function Bearer(token: string): string { "Bearer " + token }

  datatype Config = Config(verb: string, url: string, headers: map<string, string>, data: string)

  /** `config.headers.Authorization = Bearer <token>`. */
  function WithBearer(config: Config, token: string): (r: Config)
    ensures r.verb == config.verb && r.url == config.url && r.data == config.data
    ensures Authorization in r.headers && r.headers[Authorization] == Bearer(token)
    ensures forall h :: h != Authorization ==>
      (h in r.headers <==> h in config.headers) && (h in r.headers ==> r.headers[h] == config.headers[h])
  {
    config.(headers := config.headers[Authorization := Bearer(token)])
  }

  /** The request interceptor: the request carries `Bearer <accessToken>` exactly when the
      stored access token is a non-empty string; otherwise it goes out as it was. */
  function AttachToken(storage: map<string, string>, config: Config): (r: Config)
    ensures r.verb == config.verb && r.url == config.url && r.data == config.data
    ensures forall h :: h != Authorization ==>
      (h in r.headers <==> h in config.headers) && (h in r.headers ==> r.headers[h] == config.headers[h])
    ensures HasNonEmpty(storage, AccessTokenKey) ==>
      Authorization in r.headers && r.headers[Authorization] == Bearer(storage[AccessTokenKey])
    ensures !HasNonEmpty(storage, AccessTokenKey) ==> r == config
  {
    if HasNonEmpty(storage, AccessTokenKey) then WithBearer(config, storage[AccessTokenKey]) else config
  }

  /** A 2xx answer. */
  datatype Response = Response(status: int, data: string)

  /** A rejected request: the HTTP status when the server answered, and the request config
      when the error carries one. */
  datatype HttpError = HttpError(status: Option<int>, config: Option<Config>, message: string)

  /** How the server or the network rejects one attempt: the HTTP status when the server
      answered, whether the error carries a request config, and the message. */
  datatype Rejection = Rejection(status: Option<int>, hasConfig: bool, message: string)

  /** What the server does with one attempt. */
  datatype Reply = Answered(response: Response) | Errored(rejection: Rejection)

  /** The error a rejected attempt raises: its `config` is the config of that attempt, as it
      left the request interceptor. */
  function ErrorOf(r: Rejection, attempt: Config): HttpError
  {
    HttpError(r.status, if r.hasConfig then Some(attempt) else None, r.message)
  }

  /** The rejections the response interceptor answers with a refresh: 401 with a config. */
  predicate Refreshable(r: Rejection)
  {
    r.status == Some(Unauthorized) && r.hasConfig
  }

  /** What the refresh call yields: a new access token, or a failure (a rejected call or an
      unusable answer). */
  datatype RefreshReply = Refreshed(token: string) | RefreshFailed(reason: string)

  datatype Failure = HttpFailure(error: HttpError) | RefreshError(reason: string)

  datatype Outcome = Resolved(response: Response) | Rejected(failure: Failure) | Pending

  /** The response interceptor's guard: status 401 and an original request config. The
      `_retry` flag that would bound the refreshes is commented out in the source. */
  predicate ShouldRefresh(e: HttpError)
  {
    e.status == Some(Unauthorized) && e.config.Some?
  }

  /** The credentials sent to the refresh endpoint: the stored refresh token, or the text
      `null` that a template literal makes of a missing one. */
  function RefreshCredentials(storage: map<string, string>): (r: string)
    ensures RefreshTokenKey in storage ==> r == Bearer(storage[RefreshTokenKey])
    ensures RefreshTokenKey !in storage ==> r == Bearer("null")
  {
    Bearer(GetItem(storage, RefreshTokenKey).GetOr("null"))
  }

  /** The transitions of the response interceptor on an error. */
  datatype Transition =
    | RejectUnchanged(error: HttpError)            // not a refreshable failure
    | AwaitRefresh                                 // refresh issued, no answer in the script
    | RefreshAndRetry(token: string, retry: Config) // store the token, re-issue the request
    | ClearAndRedirect(reason: string)             // clear the session, go to the login page

  /** The response interceptor as a transition relation over the error's status, the
      presence of its config, and the outcome of the refresh call (`None`: not answered). */
  function OnError(e: HttpError, refresh: Option<RefreshReply>): (t: Transition)
    ensures t.RejectUnchanged? <==> !ShouldRefresh(e)
    ensures t.RejectUnchanged? ==> t.error == e
    ensures t.AwaitRefresh? <==> ShouldRefresh(e) && refresh.None?
    ensures t.RefreshAndRetry? <==> ShouldRefresh(e) && refresh.Some? && refresh.value.Refreshed?
    ensures t.RefreshAndRetry? ==>
      t.token == refresh.value.token && t.retry == WithBearer(e.config.value, refresh.value.token)
    ensures t.ClearAndRedirect? <==> ShouldRefresh(e) && refresh.Some? && refresh.value.RefreshFailed?
    ensures t.ClearAndRedirect? ==> t.reason == refresh.value.reason
  {
    if !ShouldRefresh(e) then RejectUnchanged(e)
    else match refresh
      case None => AwaitRefresh
      case Some(Refreshed(token)) => RefreshAndRetry(token, WithBearer(e.config.value, token))
      case Some(RefreshFailed(reason)) => ClearAndRedirect(reason)
  }

  /** What a transition does to the tab, in order. */
  function EffectsOf(t: Transition): seq<Effect>
  {
    match t
    case RefreshAndRetry(token, _) => [StoreItem(AccessTokenKey, token)]
    case ClearAndRedirect(_) => [ClearItems, SetHref(LoginPath)]
    case _ => []
  }

  /** The response interceptor acting on the tab. `refreshRequest` is the credentials of the
      refresh call it issues, if it issues one. */
  method ResponseInterceptor(b: Browser, e: HttpError, refresh: Option<RefreshReply>)
    returns (t: Transition, refreshRequest: Option<string>)
    modifies b
    ensures t == OnError(e, refresh)
    ensures refreshRequest == if ShouldRefresh(e) then Some(RefreshCredentials(old(b.storage))) else None
    ensures t.RefreshAndRetry? ==>
      b.storage == old(b.storage)[AccessTokenKey := t.token] && b.location == old(b.location)
    ensures t.ClearAndRedirect? ==> b.storage == map[] && b.location == LoginPath
    ensures !t.RefreshAndRetry? && !t.ClearAndRedirect? ==>
      b.storage == old(b.storage) && b.location == old(b.location)
    ensures b.trace == old(b.trace) + EffectsOf(t)
  {
    if e.status == Some(Unauthorized) && e.config.Some? {
      var refreshToken := GetItem(b.storage, RefreshTokenKey);
      refreshRequest := Some(Bearer(refreshToken.GetOr("null")));
      match refresh
      case None =>
        t := AwaitRefresh;
      case Some(Refreshed(token)) =>
        b.SetItem(AccessTokenKey, token);
        t := RefreshAndRetry(token, WithBearer(e.config.value, token));
      case Some(RefreshFailed(reason)) =>
        b.Clear();
        b.AssignLocation(LoginPath);
        t := ClearAndRedirect(reason);
    } else {
      refreshRequest := None;
      t := RejectUnchanged(e);
    }
  }

  /** Everything one call through the client observably does. */
  datatype Exchange = Exchange(
    outcome: Outcome,
    storage: map<string, string>,
    location: string,
    effects: seq<Effect>,      // effects on the tab, in order
    sent: seq<Config>,         // the attempts as they went out, after the request interceptor
    refreshes: seq<string>)    // the credentials of each refresh call

  /** Specification of a call: attempt, and on each refreshable failure refresh and attempt
      again, with no bound on the number of rounds. The re-issued request is returned from the
      interceptor rather than awaited in it, so a failure of the retry is not caught there. */
  function Run(storage: map<string, string>, location: string, config: Config,
               replies: seq<Reply>, refreshReplies: seq<RefreshReply>): (x: Exchange)
    decreases |replies|
  {
    if replies == [] then Exchange(Pending, storage, location, [], [], [])
    else
      var attempt := AttachToken(storage, config);
      match replies[0]
      case Answered(response) => Exchange(Resolved(response), storage, location, [], [attempt], [])
      case Errored(r) =>
        var t := OnError(ErrorOf(r, attempt), FirstOf(refreshReplies));
        if t.RefreshAndRetry? then
          Prefixed(EffectsOf(t), [attempt], [RefreshCredentials(storage)],
                   Run(storage[AccessTokenKey := t.token], location, t.retry, replies[1..], refreshReplies[1..]))
        else Settle(storage, location, attempt, t)
  }

  /** The next refresh answer in the script, if any. */
  function FirstOf(refreshReplies: seq<RefreshReply>): Option<RefreshReply>
  {
    if refreshReplies == [] then None else Some(refreshReplies[0])
  }

  /** How a call ends after an attempt whose error the interceptor does not retry. */
  function Settle(storage: map<string, string>, location: string, attempt: Config, t: Transition): Exchange
    requires !t.RefreshAndRetry?
  {
    match t
    case RejectUnchanged(err) =>
      Exchange(Rejected(HttpFailure(err)), storage, location, [], [attempt], [])
    case AwaitRefresh =>
      Exchange(Pending, storage, location, [], [attempt], [RefreshCredentials(storage)])
    case ClearAndRedirect(reason) =>
      Exchange(Rejected(RefreshError(reason)), map[], LoginPath, EffectsOf(t), [attempt],
               [RefreshCredentials(storage)])
  }

  /** `x` preceded by what happened before it. */
  function Prefixed(effects: seq<Effect>, sent: seq<Config>, refreshes: seq<string>, x: Exchange): Exchange
  {
    x.(effects := effects + x.effects, sent := sent + x.sent, refreshes := refreshes + x.refreshes)
  }

  /** `Run` unfolded once on its first reply. */
  lemma RunUnfold(storage: map<string, string>, location: string, config: Config,
                  replies: seq<Reply>, refreshReplies: seq<RefreshReply>)
    requires replies != []
    ensures var attempt := AttachToken(storage, config);
      replies[0].Answered? ==>
        Run(storage, location, config, replies, refreshReplies)
          == Exchange(Resolved(replies[0].response), storage, location, [], [attempt], [])
    ensures replies[0].Errored? ==>
      var attempt := AttachToken(storage, config);
      var t := OnError(ErrorOf(replies[0].rejection, attempt), FirstOf(refreshReplies));
      && (!t.RefreshAndRetry? ==>
            Run(storage, location, config, replies, refreshReplies) == Settle(storage, location, attempt, t))
      && (t.RefreshAndRetry? ==>
            Run(storage, location, config, replies, refreshReplies)
              == Prefixed(EffectsOf(t), [attempt], [RefreshCredentials(storage)],
                          Run(storage[AccessTokenKey := t.token], location, t.retry,
                              replies[1..], refreshReplies[1..])))
  {
  }

  /** How the call ends when the interceptor does not retry: its outcome. */
  function Settled(t: Transition): (o: Outcome)
    requires !t.RefreshAndRetry?
  {
    match t
    case RejectUnchanged(err) => Rejected(HttpFailure(err))
    case AwaitRefresh => Pending
    case ClearAndRedirect(reason) => Rejected(RefreshError(reason))
  }

  lemma SettleParts(storage: map<string, string>, location: string, attempt: Config, t: Transition)
    requires !t.RefreshAndRetry?
    ensures var x := Settle(storage, location, attempt, t);
      && x.outcome == Settled(t) && x.effects == EffectsOf(t) && x.sent == [attempt]
      && x.refreshes == (if t.RejectUnchanged? then [] else [RefreshCredentials(storage)])
      && (t.ClearAndRedirect? ==> x.storage == map[] && x.location == LoginPath)
      && (!t.ClearAndRedirect? ==> x.storage == storage && x.location == location)
  {
  }

  /** One round of a call: the attempt passes the request interceptor and goes out, and on a
      failure the response interceptor acts. `done` unless the interceptor re-issues the
      request, as `next`; `effects` is what the round did to the tab. */
  method Round(b: Browser, config: Config, replies: seq<Reply>, refreshReplies: seq<RefreshReply>)
    returns (done: bool, outcome: Outcome, attempt: Config, refreshes: seq<string>, next: Config,
             ghost effects: seq<Effect>)
    requires replies != []
    modifies b
    ensures b.trace == old(b.trace) + effects
    ensures var x := Run(old(b.storage), old(b.location), config, replies, refreshReplies);
      done ==>
        && outcome == x.outcome && b.storage == x.storage && b.location == x.location
        && effects == x.effects && [attempt] == x.sent && refreshes == x.refreshes
    ensures !done ==>
      |refreshReplies| >= 1 &&
      Run(old(b.storage), old(b.location), config, replies, refreshReplies)
        == Prefixed(effects, [attempt], refreshes,
                    Run(b.storage, b.location, next, replies[1..], refreshReplies[1..]))
  {
    ghost var st, loc := b.storage, b.location;
    RunUnfold(st, loc, config, replies, refreshReplies);
    attempt := AttachToken(b.storage, config);
    next := config;
    if replies[0].Answered? {
      done, outcome, refreshes, effects := true, Resolved(replies[0].response), [], [];
      return;
    }
    var refresh := if |refreshReplies| > 0 then Some(refreshReplies[0]) else None;
    assert refresh == FirstOf(refreshReplies);
    var t, request := ResponseInterceptor(b, ErrorOf(replies[0].rejection, attempt), refresh);
    refreshes := if request.Some? then [request.value] else [];
    effects := EffectsOf(t);
    if !t.RefreshAndRetry? {
      SettleParts(st, loc, attempt, t);
      done, outcome := true, Settled(t);
      return;
    }
    done, outcome, next := false, Pending, t.retry;
  }

  /** One call through the client. A round that the response interceptor re-issues goes
      through the client again, as the interceptor's own call of the client does; a call whose
      script of replies has run out stays pending. */
  method Send(b: Browser, config: Config, replies: seq<Reply>, refreshReplies: seq<RefreshReply>)
    returns (outcome: Outcome, sent: seq<Config>, refreshes: seq<string>)
    modifies b
    ensures var x := Run(old(b.storage), old(b.location), config, replies, refreshReplies);
      && outcome == x.outcome
      && b.storage == x.storage && b.location == x.location
      && b.trace == old(b.trace) + x.effects
      && sent == x.sent && refreshes == x.refreshes
    decreases |replies|
  {
    if replies == [] {
      outcome, sent, refreshes := Pending, [], [];
      return;
    }
    var done, o, attempt, rs, next;
    ghost var e;
    done, o, attempt, rs, next, e := Round(b, config, replies, refreshReplies);
    if done {
      outcome, sent, refreshes := o, [attempt], rs;
      return;
    }
    ghost var before := b.trace;
    var more, moreRefreshes;
    outcome, more, moreRefreshes := Send(b, next, replies[1..], refreshReplies[1..]);
    sent, refreshes := [attempt] + more, rs + moreRefreshes;
    AppendAssoc(old(b.trace), e, b.trace[|before|..]);
  }

  lemma AppendAssoc<T>(a: seq<T>, b: seq<T>, c: seq<T>)
    ensures (a + b) + c == a + (b + c)
  {
  }

  // ---------------------------------------------------------------- properties of a call

  /** The first reply decides when it is an answer or a non-refreshable error: the answer is
      passed through, the error is rejected as it is, and the tab is left alone either way. */
  lemma FirstReplyDecides(storage: map<string, string>, location: string, config: Config,
                          replies: seq<Reply>, refreshReplies: seq<RefreshReply>)
    requires replies != []
    requires replies[0].Answered? || !Refreshable(replies[0].rejection)
    ensures var x := Run(storage, location, config, replies, refreshReplies);
      && x.outcome == (if replies[0].Answered? then Resolved(replies[0].response)
                       else Rejected(HttpFailure(ErrorOf(replies[0].rejection, AttachToken(storage, config)))))
      && x.storage == storage && x.location == location && x.effects == []
      && x.sent == [AttachToken(storage, config)] && x.refreshes == []
  {
  }

  /** `n` copies of `x`. */
  function Repeat<T>(x: T, n: nat): (r: seq<T>)
    ensures |r| == n && forall i :: 0 <= i < n ==> r[i] == x
  {
    if n == 0 then [] else [x] + Repeat(x, n - 1)
  }

  /** There is no bound on the refreshes one call makes: a request answered `n` times with 401
      while every refresh succeeds refreshes `n` times, and succeeds on attempt `n + 1`. */
  lemma {:induction false} RefreshesUnbounded(storage: map<string, string>, location: string,
                                              config: Config, e: Rejection, token: string,
                                              response: Response, n: nat)
    requires Refreshable(e)
    ensures var x := Run(storage, location, config,
                         Repeat(Errored(e), n) + [Answered(response)], Repeat(Refreshed(token), n));
      && x.outcome == Resolved(response)
      && |x.refreshes| == n && |x.sent| == n + 1
      && x.effects == Repeat(StoreItem(AccessTokenKey, token), n)
    decreases n
  {
    var replies := Repeat(Errored(e), n) + [Answered(response)];
    if n > 0 {
      assert replies[0] == Errored(e);
      assert replies[1..] == Repeat(Errored(e), n - 1) + [Answered(response)];
      assert Repeat(Refreshed(token), n)[1..] == Repeat(Refreshed(token), n - 1);
      RefreshesUnbounded(storage[AccessTokenKey := token], location,
                         WithBearer(AttachToken(storage, config), token),
                         e, token, response, n - 1);
    } else {
      assert replies == [Answered(response)];
    }
  }

  /** What a call does to the session: a failed refresh clears every key and sends the tab to
      the login page, and is the only way the call rejects with a refresh error; otherwise the
      location stays and every key but the access token keeps its value. A failure of a
      re-issued request therefore never clears the session. */
  lemma {:induction false} SessionAfterCall(storage: map<string, string>, location: string,
                                            config: Config, replies: seq<Reply>,
                                            refreshReplies: seq<RefreshReply>)
    ensures var x := Run(storage, location, config, replies, refreshReplies);
      && (ClearItems in x.effects <==> x.outcome.Rejected? && x.outcome.failure.RefreshError?)
      && (x.outcome.Rejected? && x.outcome.failure.RefreshError? ==>
            x.storage == map[] && x.location == LoginPath)
      && (!(x.outcome.Rejected? && x.outcome.failure.RefreshError?) ==>
            x.location == location
            && forall k :: k != AccessTokenKey ==> GetItem(x.storage, k) == GetItem(storage, k))
    decreases |replies|
  {
    if replies != [] && replies[0].Errored? {
      var t := OnError(ErrorOf(replies[0].rejection, AttachToken(storage, config)), FirstOf(refreshReplies));
      if t.RefreshAndRetry? {
        var st := storage[AccessTokenKey := t.token];
        SessionAfterCall(st, location, t.retry, replies[1..], refreshReplies[1..]);
        var rest := Run(st, location, t.retry, replies[1..], refreshReplies[1..]);
        assert ClearItems in [StoreItem(AccessTokenKey, t.token)] + rest.effects <==> ClearItems in rest.effects;
        forall k | k != AccessTokenKey
          ensures GetItem(st, k) == GetItem(storage, k)
        {
        }
      }
    }
  }

  /** A refresh call is made only for a reply with status 401 and a request config: the k-th
      refresh answers the k-th attempt, every attempt before the last was refreshed and then
      retried, and no call consumes more replies than the script holds. */
  lemma {:induction false} RefreshOnlyOnUnauthorized(storage: map<string, string>, location: string,
                                                     config: Config, replies: seq<Reply>,
                                                     refreshReplies: seq<RefreshReply>)
    ensures var x := Run(storage, location, config, replies, refreshReplies);
      && |x.sent| <= |replies|
      && |x.refreshes| <= |x.sent|
      && |x.sent| - 1 <= |refreshReplies|
      && (forall k :: 0 <= k < |x.refreshes| ==> replies[k].Errored? && Refreshable(replies[k].rejection))
      && (forall k :: 0 <= k < |x.sent| - 1 ==>
            replies[k].Errored? && Refreshable(replies[k].rejection) && refreshReplies[k].Refreshed?)
    decreases |replies|
  {
    if replies != [] && replies[0].Errored? {
      var t := OnError(ErrorOf(replies[0].rejection, AttachToken(storage, config)), FirstOf(refreshReplies));
      if t.RefreshAndRetry? {
        var st := storage[AccessTokenKey := t.token];
        RefreshOnlyOnUnauthorized(st, location, t.retry, replies[1..], refreshReplies[1..]);
        var rest := Run(st, location, t.retry, replies[1..], refreshReplies[1..]);
        var x := Run(storage, location, config, replies, refreshReplies);
        assert x.sent == [AttachToken(storage, config)] + rest.sent;
        assert x.refreshes == [RefreshCredentials(storage)] + rest.refreshes;
        forall k | 1 <= k < |x.refreshes|
          ensures replies[k].Errored? && Refreshable(replies[k].rejection)
        {
          assert replies[k] == replies[1..][k - 1];
        }
        forall k | 1 <= k < |x.sent| - 1
          ensures replies[k].Errored? && Refreshable(replies[k].rejection) && refreshReplies[k].Refreshed?
        {
          assert replies[k] == replies[1..][k - 1];
          assert refreshReplies[k] == refreshReplies[1..][k - 1];
        }
      }
    }
  }

  /** The k-th attempt of a call (k >= 1) is a re-issue after the (k-1)-th refresh, which
      succeeded, and it carries `Bearer <token>` for that refresh's token, whatever the token. */
  lemma {:induction false} RetryCarriesRefreshedToken(storage: map<string, string>, location: string,
                                                      config: Config, replies: seq<Reply>,
                                                      refreshReplies: seq<RefreshReply>, k: nat)
    requires 1 <= k < |Run(storage, location, config, replies, refreshReplies).sent|
    ensures k - 1 < |refreshReplies| && refreshReplies[k - 1].Refreshed?
    ensures var attempt := Run(storage, location, config, replies, refreshReplies).sent[k];
      Authorization in attempt.headers && attempt.headers[Authorization] == Bearer(refreshReplies[k - 1].token)
    decreases |replies|, 1
  {
    if Retries(replies, refreshReplies) {
      RetryStep(storage, location, config, replies, refreshReplies, k);
    } else {
      RunSettles(storage, location, config, replies, refreshReplies);
      assert false;
    }
  }

  /** The step of `RetryCarriesRefreshedToken` past a first attempt that was re-issued. */
  lemma {:induction false} RetryStep(storage: map<string, string>, location: string,
                                     config: Config, replies: seq<Reply>,
                                     refreshReplies: seq<RefreshReply>, k: nat)
    requires Retries(replies, refreshReplies)
    requires 1 <= k < |Run(storage, location, config, replies, refreshReplies).sent|
    ensures k - 1 < |refreshReplies| && refreshReplies[k - 1].Refreshed?
    ensures var attempt := Run(storage, location, config, replies, refreshReplies).sent[k];
      Authorization in attempt.headers && attempt.headers[Authorization] == Bearer(refreshReplies[k - 1].token)
    decreases |replies|, 0
  {
    var x := Run(storage, location, config, replies, refreshReplies);
    var token := refreshReplies[0].token;
    var st, retry := storage[AccessTokenKey := token], WithBearer(AttachToken(storage, config), token);
    RunRetries(storage, location, config, replies, refreshReplies);
    var rest := Run(st, location, retry, replies[1..], refreshReplies[1..]);
    assert x.sent == [AttachToken(storage, config)] + rest.sent;
    ConsIndex(AttachToken(storage, config), rest.sent, k);
    if k == 1 {
      FirstSent(st, location, retry, replies[1..], refreshReplies[1..]);
      RetryHeader(storage, AttachToken(storage, config), token);
    } else {
      RetryCarriesRefreshedToken(st, location, retry, replies[1..], refreshReplies[1..], k - 1);
      ConsIndex(refreshReplies[0], refreshReplies[1..], k - 1);
      assert refreshReplies == [refreshReplies[0]] + refreshReplies[1..];
    }
  }

  /** The re-issued request leaves the request interceptor with the refreshed token: it finds
      that token stored, or, for an empty token, leaves the header the response interceptor
      wrote. */
  lemma RetryHeader(storage: map<string, string>, attempt: Config, token: string)
    ensures var sent := AttachToken(storage[AccessTokenKey := token], WithBearer(attempt, token));
      Authorization in sent.headers && sent.headers[Authorization] == Bearer(token)
  {
  }

  lemma ConsIndex<T>(a: T, s: seq<T>, k: nat)
    requires 1 <= k <= |s|
    ensures ([a] + s)[k] == s[k - 1]
  {
  }

  /** The first attempt of a call is the request as the request interceptor leaves it. */
  lemma FirstSent(storage: map<string, string>, location: string, config: Config,
                  replies: seq<Reply>, refreshReplies: seq<RefreshReply>)
    requires |Run(storage, location, config, replies, refreshReplies).sent| >= 1
    ensures Run(storage, location, config, replies, refreshReplies).sent[0] == AttachToken(storage, config)
  {
  }

  /** Every attempt of a call is the caller's request: the interceptors only ever change its
      `Authorization` header, so each re-issue sends the verb, URL, body and other headers of
      the request that failed, which are those of the original request. */
  lemma {:induction false} AttemptsAreTheRequest(storage: map<string, string>, location: string,
                                                 config: Config, replies: seq<Reply>,
                                                 refreshReplies: seq<RefreshReply>)
    ensures var x := Run(storage, location, config, replies, refreshReplies);
      forall k :: 0 <= k < |x.sent| ==> SameRequest(x.sent[k], config)
    decreases |replies|
  {
    var x := Run(storage, location, config, replies, refreshReplies);
    var attempt := AttachToken(storage, config);
    if Retries(replies, refreshReplies) {
      var token := refreshReplies[0].token;
      var retry := WithBearer(attempt, token);
      RunRetries(storage, location, config, replies, refreshReplies);
      var rest := Run(storage[AccessTokenKey := token], location, retry, replies[1..], refreshReplies[1..]);
      AttemptsAreTheRequest(storage[AccessTokenKey := token], location, retry, replies[1..], refreshReplies[1..]);
      assert x.sent == [attempt] + rest.sent;
      InterceptorsKeepRequest(storage, config, token);
      InterceptorsKeepRequest(storage, attempt, token);
      SameRequestsCons(attempt, retry, rest.sent, config);
    } else {
      RunSettles(storage, location, config, replies, refreshReplies);
      InterceptorsKeepRequest(storage, config, "");
    }
  }

  /** The first reply is a refreshable failure and the first refresh succeeds. */
  predicate Retries(replies: seq<Reply>, refreshReplies: seq<RefreshReply>)
  {
    && replies != [] && replies[0].Errored? && Refreshable(replies[0].rejection)
    && refreshReplies != [] && refreshReplies[0].Refreshed?
  }

  /** `Run` when the first attempt is refreshed and re-issued. */
  lemma RunRetries(storage: map<string, string>, location: string, config: Config,
                   replies: seq<Reply>, refreshReplies: seq<RefreshReply>)
    requires Retries(replies, refreshReplies)
    ensures var attempt, token := AttachToken(storage, config), refreshReplies[0].token;
      Run(storage, location, config, replies, refreshReplies)
        == Prefixed([StoreItem(AccessTokenKey, token)], [attempt], [RefreshCredentials(storage)],
                    Run(storage[AccessTokenKey := token], location, WithBearer(attempt, token),
                        replies[1..], refreshReplies[1..]))
  {
  }

  /** `Run` when the first attempt is not re-issued: at most that attempt is sent. */
  lemma RunSettles(storage: map<string, string>, location: string, config: Config,
                   replies: seq<Reply>, refreshReplies: seq<RefreshReply>)
    requires !Retries(replies, refreshReplies)
    ensures Run(storage, location, config, replies, refreshReplies).sent
      == if replies == [] then [] else [AttachToken(storage, config)]
  {
  }

  /** `a` is the request `c` up to its `Authorization` header. */
  predicate SameRequest(a: Config, c: Config)
  {
    && a.verb == c.verb && a.url == c.url && a.data == c.data
    && a.headers - {Authorization} == c.headers - {Authorization}
  }

  lemma SameRequestsCons(a: Config, m: Config, s: seq<Config>, c: Config)
    requires SameRequest(a, c) && SameRequest(m, c)
    requires forall k :: 0 <= k < |s| ==> SameRequest(s[k], m)
    ensures forall k :: 0 <= k < |[a] + s| ==> SameRequest(([a] + s)[k], c)
  {
  }

  /** Both interceptors keep the request apart from its `Authorization` header. */
  lemma InterceptorsKeepRequest(storage: map<string, string>, config: Config, token: string)
    ensures SameRequest(WithBearer(config, token), config)
    ensures SameRequest(AttachToken(storage, config), config)
  {
    var m := config.headers;
    assert m[Authorization := Bearer(token)] - {Authorization} == m - {Authorization};
    if HasNonEmpty(storage, AccessTokenKey) {
      assert m[Authorization := Bearer(storage[AccessTokenKey])] - {Authorization} == m - {Authorization};
    }
  }

  /** A refresh that succeeds followed by a failure of the re-issued request that the
      interceptor does not refresh (any status but 401, or a 401 without a config): that
      failure, the error of the second attempt, reaches the caller unchanged, the new token
      stays stored and nothing is cleared, because the retry is returned, not awaited, inside
      the `try`. */
  lemma RetryFailureEscapes(storage: map<string, string>, location: string, config: Config,
                            e: Rejection, token: string, e2: Rejection)
    requires Refreshable(e) && !Refreshable(e2)
    ensures var x := Run(storage, location, config, [Errored(e), Errored(e2)], [Refreshed(token)]);
      && |x.sent| == 2 && x.outcome == Rejected(HttpFailure(ErrorOf(e2, x.sent[1])))
      && x.storage == storage[AccessTokenKey := token] && x.location == location
      && x.effects == [StoreItem(AccessTokenKey, token)]
      && |x.refreshes| == 1
  {
    var replies := [Errored(e), Errored(e2)];
    assert replies[1..] == [Errored(e2)];
    assert [Refreshed(token)][1..] == [];
  }

  /** After the session is cleared (sign-out or a failed refresh) requests go out without
      credentials, and a refresh would send `Bearer null`, until a new login stores a token. */
  lemma ClearedSessionSendsNoCredentials(config: Config)
    ensures AttachToken(map[], config) == config
    ensures RefreshCredentials(map[]) == Bearer("null")
  {
  }

  /** `authApi.getUserProfile`: the entrepreneur endpoint exactly for the type
      `ENTREPRENEUR`, the investor endpoint for every other text. */
  function ProfileEndpoint(userType: string): (r: string)
    ensures r == "/entrepreneur" <==> userType == "ENTREPRENEUR"
    ensures r == "/entrepreneur" || r == "/investor"
  {
    if userType == "ENTREPRENEUR" then "/entrepreneur" else "/investor"
  }

  /** `referralApi.getReferralList`: the email is appended to the path as it is, unencoded. */
  function ReferralPath(email: string): (r: string)
    ensures |r| == |"/referral/"| + |email|
    ensures r[..|"/referral/"|] == "/referral/" && r[|"/referral/"|..] == email
  {
    "/referral/" + email
  }
}
