/** The single-flight refresh-and-replay protocol of the authenticated client's
    response interceptor, as a deterministic state machine.

    JavaScript runs the interceptor on one thread, so every interceptor call and
    every completion of the refresh call is one atomic step. The module-level
    `isRefreshing` flag and `failedRequests` queue are the RefreshState; the
    handler that started the refresh stays suspended on the refresh call, and its
    closure (the triggering request and the token its client captured) is the
    `trigger`. Each step yields the next state and the actions it emits, in the
    order the code performs them. */
module RefreshCoordinator {
  import opened Wrappers
  import opened Http
  import AuthSlice

  /** A request that failed with token expiry while a refresh was in flight,
      waiting with its promise's resolve/reject held for `caller`. */
  datatype Entry = Entry(caller: nat, config: Config)

  /** The suspended handler that started the refresh: its caller, its request
      (already marked retried) and the token captured by its client. */
  datatype Trigger = Trigger(caller: nat, config: Config, client: string)

  datatype RefreshState = RefreshState(refreshing: bool, trigger: Option<Trigger>, queue: seq<Entry>)

  /** The shared coordinator state together with the auth store it writes. */
  datatype System = System(refresh: RefreshState, auth: AuthSlice.AuthState)

  /** Why a caller's promise was rejected. */
  datatype Reason = Original(err: AxiosError) | RefreshFailed(refreshError: string)

  datatype Event =
    | Succeeded(caller: nat)
    | Failed(caller: nat, client: string, err: AxiosError)
    | RefreshOk(token: string)
    | RefreshErr(refreshError: string)

  /** What a step does to the outside world. `Reissue` sends `config` again
      through the request interceptor of the client that captured `client`. */
  datatype Action =
    | Deliver(caller: nat)
    | StartRefresh
    | Enqueue(caller: nat)
    | StoreToken(token: string)
    | Reissue(caller: nat, config: Config, client: string)
    | Reject(caller: nat, reason: Reason)

  datatype Outcome = Outcome(next: System, actions: seq<Action>)

  const Idle: RefreshState := RefreshState(false, None, [])

  /** What the protocol keeps true between steps: the flag is set exactly while a
      handler is suspended on the refresh, nothing waits when no refresh runs,
      the suspended request carries the retry mark and no waiting request does. */
  predicate Inv(r: RefreshState) {
    && r.refreshing == r.trigger.Some?
    && (!r.refreshing ==> r.queue == [])
    && (r.trigger.Some? ==> r.trigger.value.config.retry)
    && (forall i :: 0 <= i < |r.queue| ==> !r.queue[i].config.retry)
  }

  /** The callers waiting in a queue, front first. */
  function QueueCallers(q: seq<Entry>): (r: seq<nat>)
    ensures |r| == |q|
  {
    if q == [] then [] else [q[0].caller] + QueueCallers(q[1..])
  }

  /** Re-issues every queued request, front first, each with the new bearer
      header, through the triggering handler's client. */
  function ReplayQueue(q: seq<Entry>, token: string, client: string): (r: seq<Action>)
    ensures |r| == |q|
    ensures forall i :: 0 <= i < |q| ==>
      r[i] == Reissue(q[i].caller, SetBearer(q[i].config, token), client)
  {
    if q == [] then []
    else [Reissue(q[0].caller, SetBearer(q[0].config, token), client)] + ReplayQueue(q[1..], token, client)
  }

  /** Rejects every queued request, front first, with the same reason. */
  function RejectQueue(q: seq<Entry>, reason: Reason): (r: seq<Action>)
    ensures |r| == |q|
    ensures forall i :: 0 <= i < |q| ==> r[i] == Reject(q[i].caller, reason)
  {
    if q == [] then [] else [Reject(q[0].caller, reason)] + RejectQueue(q[1..], reason)
  }

  /** One atomic step of the interceptor. */
  function Step(s: System, e: Event): (r: Outcome)
    ensures Inv(s.refresh) ==> Inv(r.next.refresh)
    ensures s.refresh.refreshing ==> StartRefresh !in r.actions
  {
    match e
    case Succeeded(c) => Outcome(s, [Deliver(c)])
    case Failed(c, client, err) =>
      if !ShouldRefresh(err) then
        Outcome(s, [Reject(c, Original(err))])
      else if !s.refresh.refreshing then
        var t := Trigger(c, MarkRetry(err.config.value), client);
        Outcome(s.(refresh := RefreshState(true, Some(t), s.refresh.queue)), [StartRefresh])
      else
        var q := s.refresh.queue + [Entry(c, err.config.value)];
        Outcome(s.(refresh := s.refresh.(queue := q)), [Enqueue(c)])
    case RefreshOk(token) =>
      (match s.refresh.trigger
       case None => Outcome(s, [])
       case Some(t) =>
         var replays := ReplayQueue(s.refresh.queue, token, t.client);
         var last := Reissue(t.caller, SetBearer(t.config, token), t.client);
         Outcome(System(Idle, AuthSlice.SetToken(s.auth, token)), [StoreToken(token)] + replays + [last]))
    case RefreshErr(x) =>
      match s.refresh.trigger
      case None => Outcome(s, [])
      case Some(t) =>
        var rejects := RejectQueue(s.refresh.queue, RefreshFailed(x));
        Outcome(s.(refresh := Idle), rejects + [Reject(t.caller, RefreshFailed(x))])
  }

  /** A sequence of events processed one at a time. */
  function Run(s: System, evs: seq<Event>): Outcome
    decreases |evs|
  {
    if evs == [] then Outcome(s, [])
    else
      var first := Step(s, evs[0]);
      var rest := Run(first.next, evs[1..]);
      Outcome(rest.next, first.actions + rest.actions)
  }

  /** The callers whose promise an action sequence settles (re-issue or reject),
      in order. */
  function Settled(acts: seq<Action>): seq<nat>
  {
    if acts == [] then []
    else if acts[0].Reissue? || acts[0].Reject? then [acts[0].caller] + Settled(acts[1..])
    else Settled(acts[1..])
  }

  /** The number of refresh calls an action sequence starts. */
  function Starts(acts: seq<Action>): nat
  {
    if acts == [] then 0
    else (if acts[0].StartRefresh? then 1 else 0) + Starts(acts[1..])
  }

  /** The number of refresh completions among the events. */
  function Completions(evs: seq<Event>): nat
  {
    if evs == [] then 0
    else (if evs[0].RefreshOk? || evs[0].RefreshErr? then 1 else 0) + Completions(evs[1..])
  }

  function Flag(b: bool): nat {
    if b then 1 else 0
  }

  /** The callers of a run of failure events, in order. */
  function FailureCallers(evs: seq<Event>): (r: seq<nat>)
    requires forall i :: 0 <= i < |evs| ==> evs[i].Failed?
    ensures |r| == |evs|
    ensures forall i :: 0 <= i < |evs| ==> r[i] == evs[i].caller
  {
    if evs == [] then [] else [evs[0].caller] + FailureCallers(evs[1..])
  }

  // ---------------------------------------------------------------------------
  // One step at a time

  /** A successful response passes through to its caller untouched. */
  lemma SuccessPassesThrough(s: System, caller: nat)
    ensures Step(s, Succeeded(caller)) == Outcome(s, [Deliver(caller)])
  {
  }

  /** A failure that is not eligible for refresh is rejected with the original
      error itself and changes nothing. */
  lemma BypassRejectsUnchanged(s: System, caller: nat, client: string, err: AxiosError)
    requires !ShouldRefresh(err)
    ensures Step(s, Failed(caller, client, err)) == Outcome(s, [Reject(caller, Original(err))])
  {
  }

  /** The three reasons a failure is passed through: not an expiry, already
      retried, or aimed at the refresh endpoint. */
  lemma BypassCases(s: System, caller: nat, client: string, err: AxiosError)
    requires
      || !IsAuthError(err.response)
      || err.config.None?
      || err.config.value.retry
      || err.config.value.url == RefreshPath
    ensures Step(s, Failed(caller, client, err)).next == s
    ensures Step(s, Failed(caller, client, err)).actions == [Reject(caller, Original(err))]
  {
  }

  /** From idle, an expiry failure raises the flag, marks its own request as
      retried, suspends on exactly one refresh and leaves the caller pending. */
  lemma IdleExpiryStartsRefresh(s: System, caller: nat, client: string, err: AxiosError)
    requires Inv(s.refresh) && !s.refresh.refreshing
    requires ShouldRefresh(err)
    ensures var r := Step(s, Failed(caller, client, err));
      && r.actions == [StartRefresh]
      && r.next.refresh.refreshing
      && r.next.refresh.trigger == Some(Trigger(caller, MarkRetry(err.config.value), client))
      && r.next.refresh.trigger.value.config.retry
      && r.next.refresh.queue == []
      && r.next.auth == s.auth
      && Settled(r.actions) == []
  {
  }

  /** While a refresh runs, an expiry failure starts nothing, joins the back of
      the queue unmarked, and leaves its caller pending. */
  lemma RefreshingExpiryEnqueues(s: System, caller: nat, client: string, err: AxiosError)
    requires s.refresh.refreshing
    requires ShouldRefresh(err)
    ensures var r := Step(s, Failed(caller, client, err));
      && r.actions == [Enqueue(caller)]
      && Starts(r.actions) == 0
      && Settled(r.actions) == []
      && r.next.refresh.refreshing
      && r.next.refresh.trigger == s.refresh.trigger
      && r.next.refresh.queue == s.refresh.queue + [Entry(caller, err.config.value)]
      && !r.next.refresh.queue[|r.next.refresh.queue| - 1].config.retry
      && r.next.auth == s.auth
  {
  }

  /** On refresh success: the token is stored first, then every queued request is
      re-issued in queue order, then the triggering request, each carrying the new
      bearer header; the coordinator returns to idle with an empty queue. */
  lemma RefreshSuccessReplays(s: System, token: string)
    requires Inv(s.refresh) && s.refresh.refreshing
    ensures var q := s.refresh.queue;
      var t := s.refresh.trigger.value;
      var r := Step(s, RefreshOk(token));
      && |r.actions| == |q| + 2
      && r.actions[0] == StoreToken(token)
      && (forall i :: 0 <= i < |q| ==>
            r.actions[i + 1] == Reissue(q[i].caller, SetBearer(q[i].config, token), t.client))
      && r.actions[|q| + 1] == Reissue(t.caller, SetBearer(t.config, token), t.client)
      && (forall a :: a in r.actions ==> !a.Reject?)
      && (forall a :: a in r.actions && a.Reissue? ==> AuthorizationOf(a.config) == Some(Bearer(token)))
      && r.next.refresh == Idle
      && r.next.auth == AuthSlice.SetToken(s.auth, token)
  {
    var q := s.refresh.queue;
    var t := s.refresh.trigger.value;
    var r := Step(s, RefreshOk(token));
    forall a | a in r.actions && a.Reissue?
      ensures AuthorizationOf(a.config) == Some(Bearer(token))
    {
      var k :| 0 <= k < |r.actions| && r.actions[k] == a;
      if 1 <= k <= |q| {
        assert a == Reissue(q[k - 1].caller, SetBearer(q[k - 1].config, token), t.client);
      }
    }
  }

  /** On refresh failure: every queued request and then the triggering one are
      rejected with the refresh's own error, nothing is re-issued, the store is
      untouched and the coordinator returns to idle. */
  lemma RefreshFailureRejectsAll(s: System, x: string)
    requires Inv(s.refresh) && s.refresh.refreshing
    ensures var q := s.refresh.queue;
      var t := s.refresh.trigger.value;
      var r := Step(s, RefreshErr(x));
      && |r.actions| == |q| + 1
      && (forall i :: 0 <= i < |q| ==> r.actions[i] == Reject(q[i].caller, RefreshFailed(x)))
      && r.actions[|q|] == Reject(t.caller, RefreshFailed(x))
      && (forall a :: a in r.actions ==> a == Reject(a.caller, RefreshFailed(x)))
      && r.next.refresh == Idle
      && r.next.auth == s.auth
  {
  }

  lemma {:induction false} SettledAppend(a: seq<Action>, b: seq<Action>)
    ensures Settled(a + b) == Settled(a) + Settled(b)
    decreases |a|
  {
    if a != [] {
      assert (a + b)[0] == a[0];
      assert (a + b)[1..] == a[1..] + b;
      SettledAppend(a[1..], b);
    } else {
      assert a + b == b;
    }
  }

  lemma {:induction false} SettledReplay(q: seq<Entry>, token: string, client: string)
    ensures Settled(ReplayQueue(q, token, client)) == QueueCallers(q)
    decreases |q|
  {
    if q != [] {
      var rest := ReplayQueue(q[1..], token, client);
      var head := Reissue(q[0].caller, SetBearer(q[0].config, token), client);
      assert ReplayQueue(q, token, client) == [head] + rest;
      assert ([head] + rest)[1..] == rest;
      SettledReplay(q[1..], token, client);
    }
  }

  lemma {:induction false} SettledReject(q: seq<Entry>, reason: Reason)
    ensures Settled(RejectQueue(q, reason)) == QueueCallers(q)
    decreases |q|
  {
    if q != [] {
      var rest := RejectQueue(q[1..], reason);
      assert RejectQueue(q, reason) == [Reject(q[0].caller, reason)] + rest;
      assert ([Reject(q[0].caller, reason)] + rest)[1..] == rest;
      SettledReject(q[1..], reason);
    }
  }

  /** Whichever way the refresh ends, each waiting caller and the triggering
      caller are settled exactly once, queued callers first in queue order. */
  lemma {:induction false} CompletionSettlesEachOnce(s: System, e: Event)
    requires Inv(s.refresh) && s.refresh.refreshing
    requires e.RefreshOk? || e.RefreshErr?
    ensures Settled(Step(s, e).actions) == QueueCallers(s.refresh.queue) + [s.refresh.trigger.value.caller]
    ensures Step(s, e).next.refresh == Idle
  {
    var q := s.refresh.queue;
    var t := s.refresh.trigger.value;
    if e.RefreshOk? {
      var replays := ReplayQueue(q, e.token, t.client);
      var last := Reissue(t.caller, SetBearer(t.config, e.token), t.client);
      SettledAppend([StoreToken(e.token)] + replays, [last]);
      SettledAppend([StoreToken(e.token)], replays);
      SettledReplay(q, e.token, t.client);
      assert Settled([last]) == [t.caller];
    } else {
      var rejects := RejectQueue(q, RefreshFailed(e.refreshError));
      SettledAppend(rejects, [Reject(t.caller, RefreshFailed(e.refreshError))]);
      SettledReject(q, RefreshFailed(e.refreshError));
    }
  }

  /** After a successful refresh, the re-issued triggering request carries the
      retry mark and so is never refreshed for again, while every re-issued
      queued request does not: should its replay fail with expiry once more, it
      is eligible to start a fresh refresh. */
  lemma ReplayedRetryMarks(s: System, token: string, client: string, resp: Response)
    requires Inv(s.refresh) && s.refresh.refreshing
    requires IsAuthError(Some(resp))
    ensures var q := s.refresh.queue;
      var r := Step(s, RefreshOk(token));
      && !ShouldRefresh(AxiosError(Some(r.actions[|q| + 1].config), Some(resp)))
      && (forall i :: 1 <= i <= |q| && r.actions[i].config.url != RefreshPath ==>
            ShouldRefresh(AxiosError(Some(r.actions[i].config), Some(resp))))
  {
    RefreshSuccessReplays(s, token);
  }

  // ---------------------------------------------------------------------------
  // Runs of events

  lemma {:induction false} StartsAppend(a: seq<Action>, b: seq<Action>)
    ensures Starts(a + b) == Starts(a) + Starts(b)
    decreases |a|
  {
    if a != [] {
      assert (a + b)[0] == a[0];
      assert (a + b)[1..] == a[1..] + b;
      StartsAppend(a[1..], b);
    } else {
      assert a + b == b;
    }
  }

  lemma {:induction false} StartsAbsent(a: seq<Action>)
    requires StartRefresh !in a
    ensures Starts(a) == 0
    decreases |a|
  {
    if a != [] {
      assert a[0] != StartRefresh;
      assert forall x :: x in a[1..] ==> x in a;
      StartsAbsent(a[1..]);
    }
  }

  /** One step never starts a refresh while another is in flight: it starts one
      only by raising the flag, and lowers the flag only on a completion. */
  lemma StepSingleFlight(s: System, e: Event)
    requires Inv(s.refresh)
    ensures var r := Step(s, e);
      Starts(r.actions) + Flag(s.refresh.refreshing) <= Completions([e]) + Flag(r.next.refresh.refreshing)
  {
    var r := Step(s, e);
    assert Completions([e]) == (if e.RefreshOk? || e.RefreshErr? then 1 else 0) + Completions([]);
    if e.Failed? && ShouldRefresh(e.err) && !s.refresh.refreshing {
      assert r.actions == [StartRefresh];
      assert Starts(r.actions) == 1 + Starts([]);
    } else {
      assert StartRefresh !in r.actions;
      StartsAbsent(r.actions);
    }
  }

  /** Single flight over any run: the refreshes started, plus the one in flight at
      the outset, never exceed the refreshes completed plus the one in flight at
      the end. */
  lemma {:induction false} RunSingleFlight(s: System, evs: seq<Event>)
    requires Inv(s.refresh)
    ensures Inv(Run(s, evs).next.refresh)
    ensures Starts(Run(s, evs).actions) + Flag(s.refresh.refreshing)
         <= Completions(evs) + Flag(Run(s, evs).next.refresh.refreshing)
    decreases |evs|
  {
    if evs != [] {
      var first := Step(s, evs[0]);
      StepSingleFlight(s, evs[0]);
      RunSingleFlight(first.next, evs[1..]);
      StartsAppend(first.actions, Run(first.next, evs[1..]).actions);
      assert Completions(evs) == Completions([evs[0]]) + Completions(evs[1..]);
    }
  }

  /** The queue entries a run of expiry failures creates, in arrival order. */
  function Waiting(evs: seq<Event>): (r: seq<Entry>)
    requires forall i :: 0 <= i < |evs| ==> evs[i].Failed? && ShouldRefresh(evs[i].err)
    ensures |r| == |evs|
  {
    if evs == [] then []
    else
      assert ShouldRefresh(evs[0].err);
      [Entry(evs[0].caller, evs[0].err.config.value)] + Waiting(evs[1..])
  }

  lemma {:induction false} WaitingCallers(evs: seq<Event>)
    requires forall i :: 0 <= i < |evs| ==> evs[i].Failed? && ShouldRefresh(evs[i].err)
    ensures QueueCallers(Waiting(evs)) == FailureCallers(evs)
    decreases |evs|
  {
    if evs != [] {
      var w := Waiting(evs);
      assert w[1..] == Waiting(evs[1..]);
      WaitingCallers(evs[1..]);
    }
  }

  /** While a refresh is in flight, a run of expiry failures starts nothing,
      settles nobody and appends one entry per failure to the queue, in arrival
      order. */
  lemma {:induction false} RunWhileRefreshing(s: System, evs: seq<Event>)
    requires Inv(s.refresh) && s.refresh.refreshing
    requires forall i :: 0 <= i < |evs| ==> evs[i].Failed? && ShouldRefresh(evs[i].err)
    ensures var r := Run(s, evs);
      && Starts(r.actions) == 0
      && Settled(r.actions) == []
      && r.next.refresh == s.refresh.(queue := s.refresh.queue + Waiting(evs))
      && r.next.auth == s.auth
      && Inv(r.next.refresh)
    decreases |evs|
  {
    if evs == [] {
      assert s.refresh.queue + [] == s.refresh.queue;
    } else {
      var e := evs[0];
      var q1 := s.refresh.queue + [Entry(e.caller, e.err.config.value)];
      var first := Step(s, e);
      EnqueueStep(s, e);
      assert Inv(first.next.refresh);
      assert Starts(first.actions) == 0 + Starts([]);
      RunWhileRefreshing(first.next, evs[1..]);
      var rest := Run(first.next, evs[1..]);
      assert Run(s, evs) == Outcome(rest.next, first.actions + rest.actions);
      StartsAppend(first.actions, rest.actions);
      SettledAppend(first.actions, rest.actions);
      assert q1 + Waiting(evs[1..]) == s.refresh.queue + Waiting(evs);
    }
  }

  lemma EnqueueStep(s: System, e: Event)
    requires s.refresh.refreshing
    requires e.Failed? && ShouldRefresh(e.err)
    ensures Step(s, e) == Outcome(System(s.refresh.(queue := s.refresh.queue + [Entry(e.caller, e.err.config.value)]), s.auth), [Enqueue(e.caller)])
  {
  }

  lemma {:induction false} QueueCallersAppend(a: seq<Entry>, b: seq<Entry>)
    ensures QueueCallers(a + b) == QueueCallers(a) + QueueCallers(b)
    decreases |a|
  {
    if a == [] {
      assert a + b == b;
    } else {
      assert (a + b)[0] == a[0];
      assert (a + b)[1..] == a[1..] + b;
      QueueCallersAppend(a[1..], b);
    }
  }

  /** Single flight and FIFO replay for one episode: N >= 1 expiry failures that
      arrive while idle start exactly one refresh; when it succeeds, the later N-1
      callers are re-issued in arrival order and the first caller last. */
  lemma EpisodeReplayOrder(s: System, evs: seq<Event>, token: string)
    requires Inv(s.refresh) && !s.refresh.refreshing
    requires |evs| >= 1
    requires forall i :: 0 <= i < |evs| ==> evs[i].Failed? && ShouldRefresh(evs[i].err)
    ensures Starts(Run(s, evs).actions) == 1
    ensures Settled(Run(s, evs + [RefreshOk(token)]).actions) == FailureCallers(evs[1..]) + [evs[0].caller]
    ensures Run(s, evs + [RefreshOk(token)]).next.refresh == Idle
  {
    var e := evs[0];
    var first := Step(s, e);
    IdleExpiryStartsRefresh(s, e.caller, e.client, e.err);
    assert Starts(first.actions) == 1 + Starts([]);
    RunWhileRefreshing(first.next, evs[1..]);
    WaitingCallers(evs[1..]);
    var mid := Run(first.next, evs[1..]);
    assert mid.next.refresh.queue == Waiting(evs[1..]);
    assert Run(s, evs) == Outcome(mid.next, first.actions + mid.actions);
    StartsAppend(first.actions, mid.actions);

    RunAppend(s, evs, [RefreshOk(token)]);
    var fin := Step(mid.next, RefreshOk(token));
    assert Run(mid.next, [RefreshOk(token)]) == Outcome(fin.next, fin.actions + []);
    CompletionSettlesEachOnce(mid.next, RefreshOk(token));
    SettledAppend(first.actions + mid.actions, fin.actions + []);
    SettledAppend(first.actions, mid.actions);
    assert fin.actions + [] == fin.actions;
  }

  /** Running two event sequences back to back is running their concatenation. */
  lemma {:induction false} RunAppend(s: System, a: seq<Event>, b: seq<Event>)
    ensures Run(s, a + b).next == Run(Run(s, a).next, b).next
    ensures Run(s, a + b).actions == Run(s, a).actions + Run(Run(s, a).next, b).actions
    decreases |a|
  {
    if a == [] {
      assert a + b == b;
    } else {
      var first := Step(s, a[0]);
      assert (a + b)[0] == a[0];
      assert (a + b)[1..] == a[1..] + b;
      RunAppend(first.next, a[1..], b);
    }
  }
}
