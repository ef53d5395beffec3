/** The Authorization header a re-issued request actually leaves with.

    A replay is sent through `client(config)`, so it passes the request
    interceptor of the client whose handler ran the refresh again. That
    interceptor holds the token captured when the client was created and, when
    that token is non-empty, overwrites the fresh `Bearer <new>` header the
    coordinator has just written. This module states the header as the code
    dispatches it and, beside it, the header an interceptor reading the live
    store token would send. */
module ReplayHeader {
  import opened Wrappers
  import opened Http
  import AuthSlice
  import opened RefreshCoordinator

  /** The header of a re-issued request after the dispatching client's request
      interceptor has run, as written. */
  function DispatchedAuthorization(a: Action): (h: Option<string>)
    requires a.Reissue?
    ensures a.client != "" ==> h == Some(Bearer(a.client))
    ensures a.client == "" ==> h == AuthorizationOf(a.config)
  {
    AuthorizationOf(Attach(a.client, a.config))
  }

  /** As written: every replay of a successful refresh leaves with the token the
      triggering client captured whenever that token is non-empty, and with the
      new token only when the client was created with an empty token. */
  lemma ReplayHeaderAsWritten(s: System, token: string)
    requires Inv(s.refresh) && s.refresh.refreshing
    ensures var captured := s.refresh.trigger.value.client;
      forall a :: a in Step(s, RefreshOk(token)).actions && a.Reissue? ==>
        DispatchedAuthorization(a) == Some(Bearer(if captured != "" then captured else token))
  {
    RefreshSuccessReplays(s, token);
  }

  /** The discrepancy on a concrete input: a client created with the expired
      token "old" triggers a refresh that returns "new"; the replay of the
      triggering request still leaves with "Bearer old". */
  lemma StaleReplayWitness()
    ensures var cfg := Config("/document/deleteAllDocuments", None, false);
      var err := AxiosError(Some(cfg), Some(Response(403, Some(Body(Some(ExpiredMessage))))));
      var s0 := System(Idle, AuthSlice.AuthState("old", map[]));
      var s1 := Step(s0, Failed(7, "old", err)).next;
      var r := Step(s1, RefreshOk("new"));
      && r.actions[|r.actions| - 1].Reissue?
      && r.actions[|r.actions| - 1].caller == 7
      && AuthorizationOf(r.actions[|r.actions| - 1].config) == Some("Bearer new")
      && DispatchedAuthorization(r.actions[|r.actions| - 1]) == Some("Bearer old")
      && r.next.auth.token == "new"
  {
    var cfg := Config("/document/deleteAllDocuments", None, false);
    var err := AxiosError(Some(cfg), Some(Response(403, Some(Body(Some(ExpiredMessage))))));
    assert ShouldRefresh(err);
    var s0 := System(Idle, AuthSlice.AuthState("old", map[]));
    var t := Trigger(7, MarkRetry(cfg), "old");
    var s1 := Step(s0, Failed(7, "old", err)).next;
    assert s1.refresh == RefreshState(true, Some(t), []);
    var r := Step(s1, RefreshOk("new"));
    var last := Reissue(7, SetBearer(t.config, "new"), "old");
    assert r.actions == [StoreToken("new")] + [] + [last];
    assert Bearer("new") == "Bearer new";
    assert Bearer("old") == "Bearer old";
  }

  /** The request interceptor as evidently intended: attach the token the store
      holds when the request is dispatched rather than the one captured when the
      client was created. */
  function AttachLive(auth: AuthSlice.AuthState, c: Config): (r: Config)
    ensures auth.token != "" ==> AuthorizationOf(r) == Some(Bearer(auth.token))
    ensures auth.token == "" ==> r == c
    ensures SameExceptAuthorization(c, r)
  {
    Attach(auth.token, c)
  }

  /** Corrected: with the live-token interceptor, every replay of a successful
      refresh leaves with `Bearer <new token>`, whatever token the triggering
      client captured. */
  lemma ReplayHeaderCorrected(s: System, token: string)
    requires Inv(s.refresh) && s.refresh.refreshing
    ensures var r := Step(s, RefreshOk(token));
      forall a :: a in r.actions && a.Reissue? ==>
        AuthorizationOf(AttachLive(r.next.auth, a.config)) == Some(Bearer(token))
  {
    RefreshSuccessReplays(s, token);
  }
}
