/** One browser tab's token handling (single-flight refresh, one retry) running against the server's
    rotation, under any interleaving of calls, responses and other clients. */
module AuthClient {
  import opened Options
  import opened AuthServer

  /** Where one `apiFetch` call stands between two of its `await`s. */
  datatype Phase =
    | Waiting(withAuth: bool)   // its first request is out
    | Awaiting                  // it got a 401 and waits for the shared refresh
    | Granted(refreshed: bool)  // the refresh is over; the call has not gone on yet
    | Retrying                  // its second request is out
    | Done(unauthorized: bool)

  /** What a tab sends to the API and hears, in order: requests with their `authorization` header,
      responses, the end of a refresh (an answer or a network error), the promise of a refresh resolving,
      and sign-ins and sign-outs taking effect. */
  datatype Note =
    | Sent(call: nat, withAuth: bool, access: Option<nat>)
    | Got(call: nat, unauthorized: bool)
    | Answered(reply: Reply)
    | Broken
    | Settled
    | SignedIn(token: nat)
    | SignedOut

  /** The module variables of a tab. An access token is named by the session it was issued with. `settled`
      is what the refresh ended with while its `finally` has not run; a rejected refresh ends its callers
      with an error, as `false` does. */
  datatype Tab = Tab(
    accessToken: Option<nat>, stored: Option<nat>, inFlight: bool, settled: Option<bool>, calls: seq<Phase>,
    log: seq<Note>)

  /** A tab after a step, and the refresh request the step sent. */
  datatype Outgoing = Outgoing(tab: Tab, request: Option<nat>)

  function WithSession(tab: Tab, token: Option<nat>): Tab {
    tab.(accessToken := token, stored := token)
  }

  function Noted(tab: Tab, note: Note): Tab {
    tab.(log := tab.log + [note])
  }

  function Fetched(tab: Tab, withAuth: bool): Tab {
    Noted(tab, Sent(|tab.calls|, withAuth, if withAuth then tab.accessToken else None))
      .(calls := tab.calls + [Waiting(withAuth)])
  }

  function RefreshStarted(tab: Tab): Outgoing {
    if tab.inFlight then Outgoing(tab, None)
    else if tab.stored.None? then Outgoing(tab.(inFlight := true, settled := Some(false)), None)
    else Outgoing(tab.(inFlight := true), tab.stored)
  }

  predicate NeedsRefresh(tab: Tab, k: nat, unauthorized: bool)
    requires k < |tab.calls|
  {
    unauthorized && tab.calls[k] == Waiting(true) && tab.stored.Some?
  }

  function Responded(tab: Tab, k: nat, unauthorized: bool): Outgoing
    requires k < |tab.calls|
  {
    var noted := Noted(tab, Got(k, unauthorized));
    if NeedsRefresh(tab, k, unauthorized) then RefreshStarted(noted.(calls := tab.calls[k := Awaiting]))
    else Outgoing(noted.(calls := tab.calls[k := Done(unauthorized)]), None)
  }

  function RefreshAnswered(tab: Tab, reply: Reply): Tab {
    match reply
    case Tokens(token) => WithSession(Noted(tab, Answered(reply)), Some(token)).(settled := Some(true))
    case _ => WithSession(Noted(tab, Answered(reply)), None).(settled := Some(false))
  }

  /** `fetch` rejects: the stored token stays. */
  function RefreshBroken(tab: Tab): Tab {
    Noted(tab, Broken).(settled := Some(false))
  }

  function RefreshOver(tab: Tab): Tab
    requires tab.settled.Some?
  {
    Noted(tab, Settled).(inFlight := false, settled := None,
         calls := seq(|tab.calls|, k requires 0 <= k < |tab.calls| =>
                        if tab.calls[k].Awaiting? then Granted(tab.settled.value) else tab.calls[k]))
  }

  function Resumed(tab: Tab, k: nat): Tab
    requires k < |tab.calls| && tab.calls[k].Granted?
  {
    if tab.calls[k].refreshed then Noted(tab, Sent(k, true, tab.accessToken)).(calls := tab.calls[k := Retrying])
    else tab.(calls := tab.calls[k := Done(true)])
  }

  function SessionBegun(tab: Tab, token: nat): Tab {
    WithSession(Noted(tab, SignedIn(token)), Some(token))
  }

  function SessionEnded(tab: Tab): Tab {
    WithSession(Noted(tab, SignedOut), None)
  }

  // ----- the client as the source writes it --------------------------------------------------------

  class ApiClient {
    var accessToken: Option<nat>
    var stored: Option<nat>
    var refreshInFlight: bool
    var settled: Option<bool>
    var calls: seq<Phase>
    var log: seq<Note>

    constructor (stored: Option<nat>)
      ensures Snapshot() == Tab(None, stored, false, None, [], [])
    {
      this.stored := stored;
      accessToken, refreshInFlight, settled, calls, log := None, false, None, [], [];
    }

    function Snapshot(): Tab
      reads this
    {
      Tab(accessToken, stored, refreshInFlight, settled, calls, log)
    }

    method SetSession(token: Option<nat>)
      modifies this
      ensures Snapshot() == WithSession(old(Snapshot()), token)
    {
      accessToken := token;
      stored := token;
    }

    method Fetch(withAuth: bool)
      modifies this
      ensures Snapshot() == Fetched(old(Snapshot()), withAuth)
    {
      log := log + [Sent(|calls|, withAuth, if withAuth then accessToken else None)];
      calls := calls + [Waiting(withAuth)];
    }

    method RefreshSession() returns (request: Option<nat>)
      modifies this
      ensures Outgoing(Snapshot(), request) == RefreshStarted(old(Snapshot()))
    {
      request := None;
      if !refreshInFlight {
        refreshInFlight := true;
        if stored.None? {
          settled := Some(false);
          return;
        }
        request := stored;
      }
    }

    /** A response of `apiFetch`'s first or second request arrives. */
    method OnResponse(k: nat, unauthorized: bool) returns (request: Option<nat>)
      requires k < |calls| && (calls[k].Waiting? || calls[k].Retrying?)
      modifies this
      ensures Outgoing(Snapshot(), request) == Responded(old(Snapshot()), k, unauthorized)
    {
      request := None;
      log := log + [Got(k, unauthorized)];
      if unauthorized && calls[k] == Waiting(true) && stored.Some? {
        calls := calls[k := Awaiting];
        request := RefreshSession();
      } else {
        calls := calls[k := Done(unauthorized)];
      }
    }

    method OnRefreshReply(reply: Reply)
      modifies this
      ensures Snapshot() == RefreshAnswered(old(Snapshot()), reply)
    {
      log := log + [Answered(reply)];
      if !reply.Tokens? {
        SetSession(None);
        settled := Some(false);
        return;
      }
      SetSession(Some(reply.token));
      settled := Some(true);
    }

    method OnRefreshError()
      modifies this
      ensures Snapshot() == RefreshBroken(old(Snapshot()))
    {
      log := log + [Broken];
      settled := Some(false);
    }

    /** `finally`, and the promise the waiting calls share resolving. */
    method OnSettled()
      requires settled.Some?
      modifies this
      ensures Snapshot() == RefreshOver(old(Snapshot()))
    {
      log := log + [Settled];
      refreshInFlight := false;
      var before := calls;
      for k := 0 to |calls|
        invariant |calls| == |before| && settled == old(settled)
        invariant accessToken == old(accessToken) && stored == old(stored) && !refreshInFlight
        invariant log == old(log) + [Settled]
        invariant forall j :: 0 <= j < k ==> calls[j] == if before[j].Awaiting? then Granted(settled.value) else before[j]
        invariant forall j :: k <= j < |calls| ==> calls[j] == before[j]
      {
        if calls[k].Awaiting? {
          calls := calls[k := Granted(settled.value)];
        }
      }
      settled := None;
    }

    method Resume(k: nat)
      requires k < |calls| && calls[k].Granted?
      modifies this
      ensures Snapshot() == Resumed(old(Snapshot()), k)
    {
      if calls[k].refreshed {
        log := log + [Sent(k, true, accessToken)];
        calls := calls[k := Retrying];
      } else {
        calls := calls[k := Done(true)];
      }
    }

    /** The end of `login` and `register`. */
    method OnSignedIn(token: nat)
      modifies this
      ensures Snapshot() == SessionBegun(old(Snapshot()), token)
    {
      log := log + [SignedIn(token)];
      SetSession(Some(token));
    }

    /** The end of `logout`. */
    method OnSignedOut()
      modifies this
      ensures Snapshot() == SessionEnded(old(Snapshot()))
    {
      log := log + [SignedOut];
      SetSession(None);
    }
  }

  // ----- tab, network and server together ----------------------------------------------------------

  datatype Message = Ask(token: nat) | Answer(token: nat, reply: Reply)

  /** `wire` is the refresh traffic, `arriving` the tokens of sign-in responses on their way, `leaving`
      the token of a logout under way, `mine` every token the tab ever had or is about to get. */
  datatype World = World(
    sessions: seq<Session>, tab: Tab, wire: seq<Message>, arriving: set<nat>, leaving: Option<nat>, mine: set<nat>)

  datatype Action =
    | Call(withAuth: bool)
    | Respond(k: nat, unauthorized: bool)
    | Continue(k: nat)
    | Serve(i: nat, active: bool, now: int)  // the server handles a refresh request
    | Deliver(i: nat)                        // its answer reaches the tab
    | Unreachable(i: nat)                    // a request never reaches the server
    | Lose(i: nat)                           // an answer never reaches the tab
    | Settle
    | SignIn(user: nat, now: int)            // the server handles a login or registration of the tab
    | Welcome(token: nat)                    // its response reaches the tab
    | LeaveStart
    | LeaveServe(now: int)
    | LeaveEnd
    | Other(op: Op)                          // a call of any other client

  predicate Enabled(w: World, a: Action) {
    match a
    case Call(_) => true
    case Respond(k, _) => k < |w.tab.calls| && (w.tab.calls[k].Waiting? || w.tab.calls[k].Retrying?)
    case Continue(k) => k < |w.tab.calls| && w.tab.calls[k].Granted?
    case Serve(i, _, _) => i < |w.wire| && w.wire[i].Ask?
    case Deliver(i) => i < |w.wire| && w.wire[i].Answer?
    case Unreachable(i) => i < |w.wire| && w.wire[i].Ask?
    case Lose(i) => i < |w.wire| && w.wire[i].Answer?
    case Settle => w.tab.settled.Some?
    case SignIn(_, _) => true
    case Welcome(token) => token in w.arriving
    case LeaveStart => w.leaving.None?
    case LeaveServe(_) => w.leaving.Some?
    case LeaveEnd => w.leaving.Some?
    case Other(_) => true
  }

  function Without(wire: seq<Message>, i: nat): seq<Message>
    requires i < |wire|
  {
    wire[..i] + wire[i + 1..]
  }

  function Served(w: World, i: nat, active: bool, now: int, ttl: nat): Outcome
    requires i < |w.wire| && w.wire[i].Ask?
  {
    After(w.sessions, Refresh(w.wire[i].token, active, now), ttl)
  }

  function Step(w: World, a: Action, ttl: nat): World
    requires Enabled(w, a)
  {
    match a
    case Call(withAuth) => w.(tab := Fetched(w.tab, withAuth))
    case Respond(k, unauthorized) =>
      var out := Responded(w.tab, k, unauthorized);
      w.(tab := out.tab, wire := if out.request.Some? then w.wire + [Ask(out.request.value)] else w.wire)
    case Continue(k) => w.(tab := Resumed(w.tab, k))
    case Serve(i, active, now) =>
      var r := Served(w, i, active, now, ttl);
      w.(sessions := r.sessions, wire := w.wire[i := Answer(w.wire[i].token, r.reply)],
         mine := if r.reply.Tokens? then w.mine + {r.reply.token} else w.mine)
    case Deliver(i) => w.(tab := RefreshAnswered(w.tab, w.wire[i].reply), wire := Without(w.wire, i))
    case Unreachable(i) => w.(tab := RefreshBroken(w.tab), wire := Without(w.wire, i))
    case Lose(i) => w.(tab := RefreshBroken(w.tab), wire := Without(w.wire, i))
    case Settle => w.(tab := RefreshOver(w.tab))
    case SignIn(user, now) =>
      w.(sessions := After(w.sessions, Login(Some(user), now), ttl).sessions,
         arriving := w.arriving + {|w.sessions|}, mine := w.mine + {|w.sessions|})
    case Welcome(token) => w.(tab := SessionBegun(w.tab, token), arriving := w.arriving - {token})
    case LeaveStart =>
      if w.tab.stored.None? then w.(tab := SessionEnded(w.tab)) else w.(leaving := w.tab.stored)
    case LeaveServe(now) => w.(sessions := After(w.sessions, Logout(w.leaving.value, now), ttl).sessions)
    case LeaveEnd => w.(tab := SessionEnded(w.tab), leaving := None)
    case Other(op) => w.(sessions := After(w.sessions, op, ttl).sessions)
  }

  /** What the single-flight argument needs of the surroundings: no answer gets lost, a logout and a
      refresh of the tab do not overlap, nobody else presents the tab's tokens, and nobody presents a
      revoked token of the tab's user. Sign-ins may overlap with everything. */
  predicate Orderly(w: World, a: Action)
    requires Enabled(w, a)
  {
    match a
    case Lose(_) => false
    case LeaveStart => !w.tab.inFlight
    case Respond(k, unauthorized) => NeedsRefresh(w.tab, k, unauthorized) ==> w.leaving.None?
    case Other(Refresh(token, _, _)) =>
      token !in w.mine &&
      (token < |w.sessions| && w.sessions[token].revoked.Some? ==>
        forall t :: t in w.mine && t < |w.sessions| ==> w.sessions[t].user != w.sessions[token].user)
    case Other(Logout(token, _)) => token !in w.mine
    case _ => true
  }

  function RunAll(w: World, actions: seq<Action>, ttl: nat): Option<World>
    decreases |actions|
  {
    if actions == [] then Some(w)
    else if !Enabled(w, actions[0]) then None
    else RunAll(Step(w, actions[0], ttl), actions[1..], ttl)
  }

  predicate AllOrderly(w: World, actions: seq<Action>, ttl: nat)
    decreases |actions|
  {
    actions == [] ||
    (Enabled(w, actions[0]) && Orderly(w, actions[0]) && AllOrderly(Step(w, actions[0], ttl), actions[1..], ttl))
  }

  /** A page just loaded: nothing in progress, and a stored token, if any, that is live. */
  predicate Loaded(w: World) {
    && w.tab == Tab(None, w.tab.stored, false, None, [], [])
    && w.wire == [] && w.arriving == {} && w.leaving.None?
    && (w.tab.stored.Some? ==> Live(w.sessions, w.tab.stored.value))
    && w.mine == if w.tab.stored.Some? then {w.tab.stored.value} else {}
  }

  /** The tab's own bookkeeping: one refresh at most, and nobody waits without one. */
  predicate SingleFlight(w: World) {
    && |w.wire| + (if w.tab.settled.Some? then 1 else 0) == (if w.tab.inFlight then 1 else 0)
    && (forall k :: 0 <= k < |w.tab.calls| && w.tab.calls[k].Awaiting? ==> w.tab.inFlight)
    && (w.leaving.Some? ==> !w.tab.inFlight)
  }

  /** A stored token may be revoked only between the server's act and the tab hearing of it. */
  predicate StoredFresh(w: World) {
    w.tab.stored.Some? ==>
      var t := w.tab.stored.value;
      && t in w.mine && t !in w.arriving
      && (Live(w.sessions, t) || w.leaving == Some(t) || (|w.wire| == 1 && w.wire[0].Answer? && w.wire[0].token == t))
  }

  predicate WireFresh(w: World) {
    |w.wire| == 1 ==>
      match w.wire[0]
      case Ask(t) => t in w.mine && t !in w.arriving && Live(w.sessions, t)
      case Answer(_, Tokens(t)) => t in w.mine && t !in w.arriving && Live(w.sessions, t)
      case Answer(_, reply) => reply != Rejected(Reused) && reply != Rejected(Invalid)
  }

  predicate Safe(w: World) {
    && (forall t :: t in w.mine ==> t < |w.sessions|)
    && (forall t :: t in w.arriving ==> t in w.mine && Live(w.sessions, t))
    && (w.leaving.Some? ==> w.leaving.value in w.mine && w.leaving.value !in w.arriving)
    && SingleFlight(w) && StoredFresh(w) && WireFresh(w)
  }

  lemma OthersKeepMine(w: World, op: Op, ttl: nat, t: nat)
    requires Orderly(w, Other(op)) && t in w.mine && t < |w.sessions|
    ensures var after := After(w.sessions, op, ttl).sessions;
      t < |after| && (Live(w.sessions, t) ==> Live(after, t))
  {}

  lemma OtherSafe(w: World, op: Op, ttl: nat)
    requires Safe(w) && Orderly(w, Other(op))
    ensures Safe(Step(w, Other(op), ttl))
  {
    hide After, Orderly;
    forall t | t in w.mine
      ensures var after := After(w.sessions, op, ttl).sessions;
        t < |after| && (Live(w.sessions, t) ==> Live(after, t))
    {
      OthersKeepMine(w, op, ttl, t);
    }
  }

  lemma ServeSafe(w: World, i: nat, active: bool, now: int, ttl: nat)
    requires Safe(w) && Enabled(w, Serve(i, active, now))
    ensures Safe(Step(w, Serve(i, active, now), ttl))
    ensures Live(w.sessions, w.wire[i].token)
  {
    hide After;
    assert i == 0 && |w.wire| == 1;
    RefreshSucceeds(w.sessions, w.wire[0].token, active, now, ttl);
    RefreshOfLive(w.sessions, w.wire[0].token, active, now, ttl);
  }

  lemma RefreshOfLive(ss: seq<Session>, token: nat, active: bool, now: int, ttl: nat)
    requires Live(ss, token)
    ensures var r := After(ss, Refresh(token, active, now), ttl);
      && r.reply != Rejected(Reused) && r.reply != Rejected(Invalid) && r.reply != LoggedOut && |r.sessions| >= |ss|
      && forall t: nat :: t != token && Live(ss, t) ==> Live(r.sessions, t)
  {}

  lemma RespondSafe(w: World, k: nat, unauthorized: bool, ttl: nat)
    requires Safe(w) && Enabled(w, Respond(k, unauthorized)) && Orderly(w, Respond(k, unauthorized))
    ensures Safe(Step(w, Respond(k, unauthorized), ttl))
  {}

  lemma CallsSafe(w: World, a: Action, ttl: nat)
    requires Safe(w) && Enabled(w, a) && (a.Call? || a.Continue? || a.Settle?)
    ensures Safe(Step(w, a, ttl))
  {}

  lemma TabSafe(w: World, a: Action, ttl: nat)
    requires Safe(w) && Enabled(w, a) && Orderly(w, a)
    requires !a.Other? && !a.Serve? && !a.Respond? && !a.Call? && !a.Continue? && !a.Settle?
    ensures Safe(Step(w, a, ttl))
  {}

  lemma StepSafe(w: World, a: Action, ttl: nat)
    requires Safe(w) && Enabled(w, a) && Orderly(w, a)
    ensures Safe(Step(w, a, ttl))
  {
    hide Safe, Step, Orderly;
    match a
    case Other(op) => OtherSafe(w, op, ttl);
    case Serve(i, active, now) => ServeSafe(w, i, active, now, ttl);
    case Respond(k, unauthorized) => RespondSafe(w, k, unauthorized, ttl);
    case Call(_) | Continue(_) | Settle => CallsSafe(w, a, ttl);
    case _ => TabSafe(w, a, ttl);
  }

  lemma {:induction false} RunSafe(w: World, actions: seq<Action>, ttl: nat)
    requires Safe(w) && AllOrderly(w, actions, ttl)
    ensures RunAll(w, actions, ttl).Some? && Safe(RunAll(w, actions, ttl).value)
    decreases |actions|
  {
    hide Safe, Step, Orderly, Enabled;
    if actions != [] {
      StepSafe(w, actions[0], ttl);
      RunSafe(Step(w, actions[0], ttl), actions[1..], ttl);
    }
  }

  /** The composition: however calls, 401s and answers interleave, a refresh request the server handles
      carries a live token, so reuse detection does not fire, and no second one is under way. */
  lemma NeverReused(w: World, actions: seq<Action>, i: nat, active: bool, now: int, ttl: nat)
    requires Loaded(w) && AllOrderly(w, actions, ttl)
    ensures RunAll(w, actions, ttl).Some?
    ensures var end := RunAll(w, actions, ttl).value;
      |end.wire| <= 1 &&
      (Enabled(end, Serve(i, active, now)) ==>
         && Live(end.sessions, end.wire[i].token)
         && var reply := Served(end, i, active, now, ttl).reply;
            reply != Rejected(Reused) && reply != Rejected(Invalid))
  {
    hide After, Orderly, Step;
    RunSafe(w, actions, ttl);
    var end := RunAll(w, actions, ttl).value;
    if Enabled(end, Serve(i, active, now)) {
      ServeSafe(end, i, active, now, ttl);
      RefreshOfLive(end.sessions, end.wire[i].token, active, now, ttl);
    }
  }

  /** With nothing in progress, the stored token is live: the tab has not lost its session. */
  lemma StaysSignedIn(w: World, actions: seq<Action>, ttl: nat)
    requires Loaded(w) && AllOrderly(w, actions, ttl)
    ensures RunAll(w, actions, ttl).Some?
    ensures var end := RunAll(w, actions, ttl).value;
      end.wire == [] && end.leaving.None? && end.tab.stored.Some? ==> Live(end.sessions, end.tab.stored.value)
  {
    hide After, Orderly, Step;
    RunSafe(w, actions, ttl);
  }

  /** A waiting call always has a refresh to wait for, and that refresh can take its next step. */
  lemma NeverStuck(w: World, actions: seq<Action>, k: nat, ttl: nat)
    requires Loaded(w) && AllOrderly(w, actions, ttl)
    ensures RunAll(w, actions, ttl).Some?
    ensures var end := RunAll(w, actions, ttl).value;
      k < |end.tab.calls| && end.tab.calls[k].Awaiting? ==>
        Enabled(end, Serve(0, true, 0)) || Enabled(end, Deliver(0)) || Enabled(end, Settle)
  {
    hide After, Orderly, Step;
    RunSafe(w, actions, ttl);
  }

  // ----- each assumption is needed -----------------------------------------------------------------

  const TTL := 100

  /** A page loaded by a user whose first token was logged out and whose second is live. */
  function Page(): World {
    World([Session(0, 100, Some(0), None), Session(0, 100, None, None)], Tab(None, Some(1), false, None, [], []),
          [], {}, None, {1})
  }

  predicate OrderlyExcept(w: World, actions: seq<Action>, i: int)
    decreases |actions|
  {
    actions == [] ||
    (Enabled(w, actions[0]) && (Orderly(w, actions[0]) <==> i != 0) &&
     OrderlyExcept(Step(w, actions[0], TTL), actions[1..], i - 1))
  }

  /** From a loaded page, with every action but the `i`-th orderly, the server comes to take the tab's
      refresh request for a replayed token. */
  predicate Trips(actions: seq<Action>, i: nat) {
    var end := RunAll(Page(), actions, TTL);
    Loaded(Page()) && OrderlyExcept(Page(), actions, i) &&
    end.Some? && |end.value.wire| == 1 && end.value.wire[0].Ask? &&
    Served(end.value, 0, true, 9, TTL).reply == Rejected(Reused)
  }

  /** Two tabs on one stored token: the other tab's refresh comes first. */
  lemma SecondTabTrips()
    ensures Trips([Call(true), Respond(0, true), Other(Refresh(1, true, 5))], 2)
  {}

  /** A logout started while the refresh is out. */
  lemma LogoutDuringRefreshTrips()
    ensures Trips([Call(true), Respond(0, true), LeaveStart, LeaveServe(5)], 2)
  {}

  /** A late 401 that starts a refresh while a logout is under way. */
  lemma RefreshDuringLogoutTrips()
    ensures Trips([Call(true), LeaveStart, LeaveServe(5), Respond(0, true)], 3)
  {}

  /** Someone replays an older token of the same user: the tab's live session goes with the rest. */
  lemma ReplayElsewhereTrips()
    ensures Trips([Call(true), Respond(0, true), Other(Refresh(0, true, 5))], 2)
  {}

  /** Someone else logs the tab's token out. */
  lemma LogoutElsewhereTrips()
    ensures Trips([Call(true), Respond(0, true), Other(Logout(1, 5))], 2)
  {}

  lemma Unroll(w: World, a: Action, rest: seq<Action>, i: int)
    requires Enabled(w, a)
    ensures RunAll(w, [a] + rest, TTL) == RunAll(Step(w, a, TTL), rest, TTL)
    ensures OrderlyExcept(w, [a] + rest, i) <==>
      (Orderly(w, a) <==> i != 0) && OrderlyExcept(Step(w, a, TTL), rest, i - 1)
  {
    hide Step, Orderly;
    assert ([a] + rest)[1..] == rest;
  }

  lemma {:induction false} RunOn(w: World, front: seq<Action>, rest: seq<Action>, i: int)
    requires RunAll(w, front, TTL).Some?
    ensures RunAll(w, front + rest, TTL) == RunAll(RunAll(w, front, TTL).value, rest, TTL)
    ensures OrderlyExcept(w, front + rest, i) <==>
      OrderlyExcept(w, front, i) && OrderlyExcept(RunAll(w, front, TTL).value, rest, i - |front|)
    decreases |front|
  {
    if front == [] {
      assert front + rest == rest;
    } else {
      hide Step, Orderly, OrderlyExcept;
      var a, more := front[0], front[1..];
      CanStart(w, front);
      assert front == [a] + more && front + rest == [a] + (more + rest);
      Unroll(w, a, more, i);
      Unroll(w, a, more + rest, i);
      RunOn(Step(w, a, TTL), more, rest, i - 1);
    }
  }

  lemma CanStart(w: World, actions: seq<Action>)
    requires actions != [] && RunAll(w, actions, TTL).Some?
    ensures Enabled(w, actions[0])
  {}

  /** The tab with the refresh answered by the server and the answer on its way. */
  function Rotated(): World {
    World([Session(0, 100, Some(0), None), Session(0, 100, Some(5), Some(2)), Session(0, 5 + TTL, None, None)],
          Tab(None, Some(1), true, None, [Awaiting], [Sent(0, true, None), Got(0, true)]),
          [Answer(1, Tokens(2))], {}, None, {1, 2})
  }

  function LostFront(): seq<Action> {
    [Call(true), Respond(0, true), Serve(0, true, 5)]
  }

  function LostRest(): seq<Action> {
    [Lose(0), Settle, Call(true), Respond(1, true)]
  }

  lemma LostAnswerStarts()
    ensures RunAll(Page(), LostFront(), TTL) == Some(Rotated()) && OrderlyExcept(Page(), LostFront(), 3)
  {
    var end := RunAll(Page(), LostFront(), TTL);
    assert end.Some? && end.value.sessions == Rotated().sessions;
    assert end.value.tab.log == Rotated().tab.log && end.value.tab.calls == Rotated().tab.calls;
    assert end.value.wire == Rotated().wire && end.value.mine == Rotated().mine;
  }

  lemma LostAnswerEnds()
    ensures var end := RunAll(Rotated(), LostRest(), TTL);
      && OrderlyExcept(Rotated(), LostRest(), 0)
      && end.Some? && |end.value.wire| == 1 && end.value.wire[0].Ask?
      && Served(end.value, 0, true, 9, TTL).reply == Rejected(Reused)
  {}

  /** The answer is lost: the tab keeps the token the server has already rotated and asks again. */
  lemma LostAnswerTrips()
    ensures Trips(LostFront() + LostRest(), 3)
  {
    hide RunAll, OrderlyExcept, Served, Rotated, LostRest;
    LostAnswerStarts();
    LostAnswerEnds();
    RunOn(Page(), LostFront(), LostRest(), 3);
    assert |LostFront()| == 3;
  }
}
