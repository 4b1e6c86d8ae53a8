/** What a tab's calls send and how they end, told from the log of its requests, responses and refreshes
    alone, under any interleaving. */
module AuthRetry {
  import opened Options
  import opened AuthServer
  import opened AuthClient

  /** The token a tab holds after the log: that of the last refresh answer, sign-in or sign-out, or the one
      it started with. */
  function Holding(start: Option<nat>, log: seq<Note>): Option<nat> {
    if log == [] then start
    else
      match log[|log| - 1]
      case Answered(Tokens(t)) => Some(t)
      case Answered(_) => None
      case SignedIn(t) => Some(t)
      case SignedOut => None
      case _ => Holding(start, log[..|log| - 1])
  }

  /** Whether the last refresh that ended was answered with tokens. */
  function LastEnd(log: seq<Note>): Option<bool> {
    if log == [] then None
    else
      match log[|log| - 1]
      case Answered(reply) => Some(reply.Tokens?)
      case Broken => Some(false)
      case _ => LastEnd(log[..|log| - 1])
  }

  predicate SentBy(n: Note, k: nat) {
    n.Sent? && n.call == k
  }

  predicate GotBy(n: Note, k: nat) {
    n.Got? && n.call == k
  }

  /** How many requests the call has sent. */
  function Sends(log: seq<Note>, k: nat): nat {
    if log == [] then 0 else Sends(log[..|log| - 1], k) + if SentBy(log[|log| - 1], k) then 1 else 0
  }

  predicate Authed(log: seq<Note>, k: nat) {
    exists q: nat :: 0 <= q < |log| && SentBy(log[q], k) && log[q].withAuth
  }

  /** The call's first response, at `p`, is `unauthorized` or not. */
  predicate FirstGot(log: seq<Note>, k: nat, unauthorized: bool, p: nat) {
    p < |log| && log[p] == Got(k, unauthorized) && forall i :: 0 <= i < p ==> !GotBy(log[i], k)
  }

  /** The first response was a 401 to an authed call while a token was stored. */
  predicate Refused(log: seq<Note>, start: Option<nat>, k: nat, p: nat) {
    FirstGot(log, k, true, p) && Authed(log, k) && Holding(start, log[..p]).Some?
  }

  /** The next refresh to be over after `p` is over at `s`. */
  predicate OverAt(log: seq<Note>, p: nat, s: nat) {
    p < s < |log| && log[s] == Settled && forall i :: p < i < s ==> log[i] != Settled
  }

  /** The call waited for that refresh, which was answered with tokens or not. */
  predicate WaitedFor(log: seq<Note>, start: Option<nat>, k: nat, p: nat, s: nat, tokens: bool) {
    Refused(log, start, k, p) && OverAt(log, p, s) && LastEnd(log[..s]) == Some(tokens)
  }

  /** The call sent its request again at `q`, with the access token the tab held then. */
  predicate SentAgain(log: seq<Note>, k: nat, s: nat, q: nat) {
    s < q < |log| && log[q] == Sent(k, true, Holding(None, log[..q]))
  }

  /** The call's second response, after its second request, was `unauthorized` or not. */
  ghost predicate EndsSecond(log: seq<Note>, k: nat, s: nat, unauthorized: bool) {
    exists q: nat, r: nat :: SentAgain(log, k, s, q) && q < r < |log| && log[r] == Got(k, unauthorized)
  }

  ghost predicate Told(log: seq<Note>, start: Option<nat>, k: nat, phase: Phase) {
    match phase
    case Waiting(withAuth) =>
      Sends(log, k) == 1 && (Authed(log, k) <==> withAuth) && forall i :: 0 <= i < |log| ==> !GotBy(log[i], k)
    case Awaiting =>
      Sends(log, k) == 1 && exists p: nat :: Refused(log, start, k, p) && forall i :: p < i < |log| ==> log[i] != Settled
    case Granted(tokens) =>
      Sends(log, k) == 1 && exists p: nat, s: nat :: WaitedFor(log, start, k, p, s, tokens)
    case Retrying =>
      Sends(log, k) == 2 && exists p: nat, s: nat, q: nat :: WaitedFor(log, start, k, p, s, true) && SentAgain(log, k, s, q)
    case Done(u) =>
      || (Sends(log, k) == 1 && exists p: nat :: FirstGot(log, k, u, p) && !Refused(log, start, k, p))
      || (Sends(log, k) == 1 && u && exists p: nat, s: nat :: WaitedFor(log, start, k, p, s, false))
      || (Sends(log, k) == 2 && exists p: nat, s: nat :: WaitedFor(log, start, k, p, s, true) && EndsSecond(log, k, s, u))
  }

  /** Every request carries the access token the tab holds at that point. */
  ghost predicate Headers(log: seq<Note>) {
    forall q :: 0 <= q < |log| && log[q].Sent? ==>
      log[q].access == if log[q].withAuth then Holding(None, log[..q]) else None
  }

  ghost predicate AllTold(w: World, start: Option<nat>) {
    var tab := w.tab;
    && tab.stored == Holding(start, tab.log) && tab.accessToken == Holding(None, tab.log)
    && |w.wire| + (if tab.settled.Some? then 1 else 0) == (if tab.inFlight then 1 else 0)
    && (tab.settled.Some? ==> LastEnd(tab.log) == tab.settled)
    && (forall k: nat :: k < |tab.calls| ==> Told(tab.log, start, k, tab.calls[k]))
    && (forall i :: 0 <= i < |tab.log| ==>
          (tab.log[i].Sent? || tab.log[i].Got? ==> tab.log[i].call < |tab.calls|))
    && Headers(tab.log)
  }

  // ----- one more note -----------------------------------------------------------------------------

  lemma HoldingMore(start: Option<nat>, log: seq<Note>, n: Note)
    ensures Holding(start, log + [n]) ==
      match n
      case Answered(Tokens(t)) => Some(t)
      case Answered(_) => None
      case SignedIn(t) => Some(t)
      case SignedOut => None
      case _ => Holding(start, log)
  {
    assert (log + [n])[..|log|] == log;
  }

  lemma LastEndMore(log: seq<Note>, n: Note)
    ensures LastEnd(log + [n]) ==
      match n
      case Answered(reply) => Some(reply.Tokens?)
      case Broken => Some(false)
      case _ => LastEnd(log)
  {
    assert (log + [n])[..|log|] == log;
  }

  lemma SendsMore(log: seq<Note>, n: Note, k: nat)
    ensures Sends(log + [n], k) == Sends(log, k) + if SentBy(n, k) then 1 else 0
  {
    assert (log + [n])[..|log|] == log;
  }

  lemma {:induction false} NoSends(log: seq<Note>, k: nat)
    requires forall i :: 0 <= i < |log| ==> !SentBy(log[i], k)
    ensures Sends(log, k) == 0
  {
    if log != [] {
      NoSends(log[..|log| - 1], k);
    }
  }

  lemma AuthedMore(log: seq<Note>, n: Note, k: nat)
    ensures Authed(log + [n], k) <==> Authed(log, k) || (SentBy(n, k) && n.withAuth)
  {
    if Authed(log, k) {
      var q: nat :| 0 <= q < |log| && SentBy(log[q], k) && log[q].withAuth;
      assert (log + [n])[q] == log[q];
    }
    if SentBy(n, k) && n.withAuth {
      assert (log + [n])[|log|] == n;
    }
  }

  lemma FirstGotMore(log: seq<Note>, n: Note, k: nat, u: bool, p: nat)
    requires FirstGot(log, k, u, p)
    ensures FirstGot(log + [n], k, u, p)
  {}

  lemma RefusedMore(log: seq<Note>, n: Note, start: Option<nat>, k: nat, p: nat)
    requires FirstGot(log, k, true, p) && !(SentBy(n, k) && n.withAuth && !Authed(log, k))
    ensures Refused(log + [n], start, k, p) <==> Refused(log, start, k, p)
  {
    AuthedMore(log, n, k);
    assert (log + [n])[..p] == log[..p];
  }

  lemma WaitedMore(log: seq<Note>, n: Note, start: Option<nat>, k: nat, p: nat, s: nat, tokens: bool)
    requires WaitedFor(log, start, k, p, s, tokens)
    ensures WaitedFor(log + [n], start, k, p, s, tokens)
  {
    hide Holding, LastEnd, Authed, FirstGot;
    FirstGotMore(log, n, k, true, p);
    AuthedMore(log, n, k);
    assert (log + [n])[..p] == log[..p] && (log + [n])[..s] == log[..s];
  }

  lemma AgainMore(log: seq<Note>, n: Note, k: nat, s: nat, q: nat)
    requires SentAgain(log, k, s, q)
    ensures SentAgain(log + [n], k, s, q)
  {
    assert (log + [n])[..q] == log[..q];
  }

  lemma SecondMore(log: seq<Note>, n: Note, k: nat, s: nat, u: bool)
    requires EndsSecond(log, k, s, u)
    ensures EndsSecond(log + [n], k, s, u)
  {
    hide SentAgain;
    var q: nat, r: nat :| SentAgain(log, k, s, q) && q < r < |log| && log[r] == Got(k, u);
    AgainMore(log, n, k, s, q);
    assert (log + [n])[r] == Got(k, u);
  }

  lemma HeadersMore(log: seq<Note>, n: Note)
    requires Headers(log) && (n.Sent? ==> n.access == if n.withAuth then Holding(None, log) else None)
    ensures Headers(log + [n])
  {
    hide Holding;
    var more := log + [n];
    forall q: nat | 0 <= q < |more| && more[q].Sent?
      ensures more[q].access == if more[q].withAuth then Holding(None, more[..q]) else None
    {
      if q < |log| {
        assert more[..q] == log[..q];
      } else {
        assert more[..q] == log;
      }
    }
  }

  /** A note that is not about the call leaves what is told of it, unless the call waits and a refresh is
      over. */
  lemma ToldMore(log: seq<Note>, n: Note, start: Option<nat>, k: nat, phase: Phase)
    requires Told(log, start, k, phase) && !SentBy(n, k) && !GotBy(n, k) && (phase.Awaiting? ==> n != Settled)
    ensures Told(log + [n], start, k, phase)
  {
    hide WaitedFor, Refused, FirstGot, SentAgain, Authed;
    SendsMore(log, n, k);
    AuthedMore(log, n, k);
    match phase {
      case Waiting(_) =>
      case Awaiting =>
        var p: nat :| Refused(log, start, k, p) && forall i :: p < i < |log| ==> log[i] != Settled;
        StillRefused(log, n, start, k, p);
      case Granted(tokens) =>
        var p: nat, s: nat :| WaitedFor(log, start, k, p, s, tokens);
        WaitedMore(log, n, start, k, p, s, tokens);
      case Retrying =>
        var p: nat, s: nat, q: nat :| WaitedFor(log, start, k, p, s, true) && SentAgain(log, k, s, q);
        WaitedMore(log, n, start, k, p, s, true);
        AgainMore(log, n, k, s, q);
      case Done(u) => DoneMore(log, n, start, k, u);
    }
  }

  lemma StillRefused(log: seq<Note>, n: Note, start: Option<nat>, k: nat, p: nat)
    requires Refused(log, start, k, p)
    ensures Refused(log + [n], start, k, p) && p < |log|
  {
    FirstGotMore(log, n, k, true, p);
    RefusedMore(log, n, start, k, p);
  }

  lemma NotRefusedMore(log: seq<Note>, n: Note, start: Option<nat>, k: nat, u: bool, p: nat)
    requires FirstGot(log, k, u, p) && !Refused(log, start, k, p) && !SentBy(n, k)
    ensures FirstGot(log + [n], k, u, p) && !Refused(log + [n], start, k, p)
  {
    FirstGotMore(log, n, k, u, p);
    if u {
      RefusedMore(log, n, start, k, p);
    }
  }

  lemma DoneMore(log: seq<Note>, n: Note, start: Option<nat>, k: nat, u: bool)
    requires Told(log, start, k, Done(u)) && !SentBy(n, k) && !GotBy(n, k)
    ensures Told(log + [n], start, k, Done(u))
  {
    hide WaitedFor, Refused, FirstGot, EndsSecond, Authed;
    SendsMore(log, n, k);
    if p: nat :| FirstGot(log, k, u, p) && !Refused(log, start, k, p) && Sends(log, k) == 1 {
      NotRefusedMore(log, n, start, k, u, p);
    } else if p: nat, s: nat :| WaitedFor(log, start, k, p, s, false) && Sends(log, k) == 1 && u {
      WaitedMore(log, n, start, k, p, s, false);
    } else {
      var p: nat, s: nat :| WaitedFor(log, start, k, p, s, true) && EndsSecond(log, k, s, u);
      WaitedMore(log, n, start, k, p, s, true);
      SecondMore(log, n, k, s, u);
    }
  }

  // ----- one step ----------------------------------------------------------------------------------

  /** All calls but `k` are told alike after a note about `k` or about none. */
  lemma OthersTold(tab: Tab, n: Note, start: Option<nat>, k: nat)
    requires forall j: nat :: j < |tab.calls| ==> Told(tab.log, start, j, tab.calls[j])
    requires n != Settled && (n.Sent? || n.Got? ==> n.call == k)
    ensures forall j: nat :: j < |tab.calls| && j != k ==> Told(tab.log + [n], start, j, tab.calls[j])
    ensures !n.Sent? && !n.Got? ==> forall j: nat :: j < |tab.calls| ==> Told(tab.log + [n], start, j, tab.calls[j])
  {
    hide Told;
    forall j: nat | j < |tab.calls| && (j != k || (!n.Sent? && !n.Got?)) ensures Told(tab.log + [n], start, j, tab.calls[j]) {
      ToldMore(tab.log, n, start, j, tab.calls[j]);
    }
  }

  lemma FirstRequest(log: seq<Note>, start: Option<nat>, k: nat, withAuth: bool, access: Option<nat>)
    requires forall i :: 0 <= i < |log| ==> !SentBy(log[i], k) && !GotBy(log[i], k)
    ensures Told(log + [Sent(k, withAuth, access)], start, k, Waiting(withAuth))
  {
    NoSends(log, k);
    SendsMore(log, Sent(k, withAuth, access), k);
    AuthedMore(log, Sent(k, withAuth, access), k);
  }

  lemma CallTells(w: World, start: Option<nat>, withAuth: bool, ttl: nat)
    requires AllTold(w, start)
    ensures AllTold(Step(w, Call(withAuth), ttl), start)
  {
    hide Told, Headers, Holding, LastEnd;
    var k := |w.tab.calls|;
    var n := Sent(k, withAuth, if withAuth then w.tab.accessToken else None);
    HoldingMore(start, w.tab.log, n);
    HoldingMore(None, w.tab.log, n);
    LastEndMore(w.tab.log, n);
    OthersTold(w.tab, n, start, k);
    FirstRequest(w.tab.log, start, k, withAuth, n.access);
    HeadersMore(w.tab.log, n);
  }

  /** The first response of a call. */
  lemma FirstResponse(log: seq<Note>, start: Option<nat>, k: nat, withAuth: bool, u: bool)
    requires Told(log, start, k, Waiting(withAuth))
    ensures var more, refused := log + [Got(k, u)], u && withAuth && Holding(start, log).Some?;
      Told(more, start, k, if refused then Awaiting else Done(u))
  {
    hide Holding;
    var more := log + [Got(k, u)];
    SendsMore(log, Got(k, u), k);
    AuthedMore(log, Got(k, u), k);
    assert more[..|log|] == log;
    assert FirstGot(more, k, u, |log|);
    if u {
      assert Refused(more, start, k, |log|) <==> withAuth && Holding(start, log).Some?;
    }
  }

  lemma SecondResponse(log: seq<Note>, start: Option<nat>, k: nat, u: bool)
    requires Told(log, start, k, Retrying)
    ensures Told(log + [Got(k, u)], start, k, Done(u))
  {
    hide WaitedFor, SentAgain;
    var n := Got(k, u);
    SendsMore(log, n, k);
    var p: nat, s: nat, q: nat :| WaitedFor(log, start, k, p, s, true) && SentAgain(log, k, s, q);
    WaitedMore(log, n, start, k, p, s, true);
    AgainMore(log, n, k, s, q);
    AgainInside(log, k, s, q);
    assert (log + [n])[|log|] == Got(k, u);
  }

  lemma AgainInside(log: seq<Note>, k: nat, s: nat, q: nat)
    requires SentAgain(log, k, s, q)
    ensures q < |log|
  {}

  lemma RespondTells(w: World, start: Option<nat>, k: nat, u: bool, ttl: nat)
    requires AllTold(w, start) && Enabled(w, Respond(k, u))
    ensures AllTold(Step(w, Respond(k, u), ttl), start)
  {
    hide Told, Headers, Holding, LastEnd, FirstGot;
    var n := Got(k, u);
    HoldingMore(start, w.tab.log, n);
    HoldingMore(None, w.tab.log, n);
    LastEndMore(w.tab.log, n);
    OthersTold(w.tab, n, start, k);
    HeadersMore(w.tab.log, n);
    match w.tab.calls[k] {
      case Waiting(withAuth) => FirstResponse(w.tab.log, start, k, withAuth, u);
      case _ => SecondResponse(w.tab.log, start, k, u);
    }
  }

  lemma SecondRequest(log: seq<Note>, start: Option<nat>, k: nat, access: Option<nat>)
    requires Told(log, start, k, Granted(true)) && access == Holding(None, log)
    ensures Told(log + [Sent(k, true, access)], start, k, Retrying)
  {
    hide WaitedFor, Holding;
    var n := Sent(k, true, access);
    SendsMore(log, n, k);
    var p: nat, s: nat :| WaitedFor(log, start, k, p, s, true);
    WaitedMore(log, n, start, k, p, s, true);
    WaitedInside(log, start, k, p, s, true);
    assert (log + [n])[..|log|] == log;
    assert SentAgain(log + [n], k, s, |log|);
  }

  lemma WaitedInside(log: seq<Note>, start: Option<nat>, k: nat, p: nat, s: nat, tokens: bool)
    requires WaitedFor(log, start, k, p, s, tokens)
    ensures p < s < |log|
  {}

  lemma GivesUp(log: seq<Note>, start: Option<nat>, k: nat)
    requires Told(log, start, k, Granted(false))
    ensures Told(log, start, k, Done(true))
  {
    hide WaitedFor;
  }

  lemma ContinueTells(w: World, start: Option<nat>, k: nat, ttl: nat)
    requires AllTold(w, start) && Enabled(w, Continue(k))
    ensures AllTold(Step(w, Continue(k), ttl), start)
  {
    hide Told, Headers, Holding, LastEnd;
    if w.tab.calls[k].refreshed {
      var n := Sent(k, true, w.tab.accessToken);
      HoldingMore(start, w.tab.log, n);
      HoldingMore(None, w.tab.log, n);
      LastEndMore(w.tab.log, n);
      OthersTold(w.tab, n, start, k);
      HeadersMore(w.tab.log, n);
      SecondRequest(w.tab.log, start, k, w.tab.accessToken);
    } else {
      GivesUp(w.tab.log, start, k);
    }
  }

  lemma RefreshOverTells(log: seq<Note>, start: Option<nat>, k: nat, tokens: bool)
    requires Told(log, start, k, Awaiting) && LastEnd(log) == Some(tokens)
    ensures Told(log + [Settled], start, k, Granted(tokens))
  {
    hide LastEnd, Refused;
    var p: nat :| Refused(log, start, k, p) && forall i :: p < i < |log| ==> log[i] != Settled;
    SendsMore(log, Settled, k);
    StillRefused(log, Settled, start, k, p);
    assert (log + [Settled])[..|log|] == log;
    assert OverAt(log + [Settled], p, |log|);
    assert WaitedFor(log + [Settled], start, k, p, |log|, tokens);
  }

  lemma SettleTells(w: World, start: Option<nat>, ttl: nat)
    requires AllTold(w, start) && Enabled(w, Settle)
    ensures AllTold(Step(w, Settle, ttl), start)
  {
    hide Told, Headers, Holding, LastEnd;
    HoldingMore(start, w.tab.log, Settled);
    HoldingMore(None, w.tab.log, Settled);
    HeadersMore(w.tab.log, Settled);
    var after := Step(w, Settle, ttl).tab;
    forall k: nat | k < |w.tab.calls| ensures Told(after.log, start, k, after.calls[k]) {
      if w.tab.calls[k].Awaiting? {
        RefreshOverTells(w.tab.log, start, k, w.tab.settled.value);
      } else {
        ToldMore(w.tab.log, Settled, start, k, w.tab.calls[k]);
      }
    }
  }

  /** What a quiet step does to the tab: it notes `n`, and the tab then holds what `n` says. */
  predicate Quiet(before: World, after: World, n: Note) {
    var b, a := before.tab, after.tab;
    && !n.Sent? && !n.Got? && n != Settled && a.log == b.log + [n]
    && a.calls == b.calls && a.inFlight == b.inFlight
    && (n.Answered? || n.Broken? ==> before.wire != [] && |after.wire| == |before.wire| - 1)
    && (!n.Answered? && !n.Broken? ==> after.wire == before.wire && a.settled == b.settled)
    && match n
       case Answered(Tokens(t)) => a.stored == a.accessToken == Some(t) && a.settled == Some(true)
       case Answered(_) => a.stored == a.accessToken == None && a.settled == Some(false)
       case SignedIn(t) => a.stored == a.accessToken == Some(t)
       case SignedOut => a.stored == a.accessToken == None
       case _ => a.stored == b.stored && a.accessToken == b.accessToken && a.settled == Some(false)
  }

  lemma QuietKeeps(w: World, start: Option<nat>, after: World, n: Note)
    requires AllTold(w, start) && Quiet(w, after, n)
    ensures AllTold(after, start)
  {
    hide Told, Headers, Holding, LastEnd;
    HoldingMore(start, w.tab.log, n);
    HoldingMore(None, w.tab.log, n);
    LastEndMore(w.tab.log, n);
    OthersTold(w.tab, n, start, 0);
    HeadersMore(w.tab.log, n);
  }

  /** Everything else notes at most the end of a refresh, a sign-in or a sign-out. */
  lemma QuietTells(w: World, start: Option<nat>, a: Action, ttl: nat)
    requires AllTold(w, start) && Enabled(w, a)
    requires !a.Call? && !a.Respond? && !a.Continue? && !a.Settle?
    ensures AllTold(Step(w, a, ttl), start)
  {
    hide After;
    var after := Step(w, a, ttl);
    if after.tab.log != w.tab.log {
      QuietStep(w, a, ttl);
      QuietKeeps(w, start, after, after.tab.log[|w.tab.log|]);
    } else {
      SilentStep(w, a, ttl);
      SilentKeeps(w, start, after);
    }
  }

  lemma QuietStep(w: World, a: Action, ttl: nat)
    requires Enabled(w, a) && !a.Call? && !a.Respond? && !a.Continue? && !a.Settle?
    requires Step(w, a, ttl).tab.log != w.tab.log
    ensures |Step(w, a, ttl).tab.log| == |w.tab.log| + 1
    ensures Quiet(w, Step(w, a, ttl), Step(w, a, ttl).tab.log[|w.tab.log|])
  {
    hide After;
  }

  lemma SilentStep(w: World, a: Action, ttl: nat)
    requires Enabled(w, a) && !a.Call? && !a.Respond? && !a.Continue? && !a.Settle?
    requires Step(w, a, ttl).tab.log == w.tab.log
    ensures Step(w, a, ttl).tab == w.tab && |Step(w, a, ttl).wire| == |w.wire|
  {
    hide After;
    var log := Step(w, a, ttl).tab.log;
    assert a.Deliver? || a.Unreachable? || a.Lose? || a.Welcome? || a.LeaveEnd? ==> |log| == |w.tab.log| + 1;
  }

  lemma SilentKeeps(w: World, start: Option<nat>, after: World)
    requires AllTold(w, start) && after.tab == w.tab && |after.wire| == |w.wire|
    ensures AllTold(after, start)
  {}

  lemma StepTells(w: World, start: Option<nat>, a: Action, ttl: nat)
    requires AllTold(w, start) && Enabled(w, a)
    ensures AllTold(Step(w, a, ttl), start)
  {
    hide AllTold, Step;
    match a {
      case Call(withAuth) => CallTells(w, start, withAuth, ttl);
      case Respond(k, u) => RespondTells(w, start, k, u, ttl);
      case Continue(k) => ContinueTells(w, start, k, ttl);
      case Settle => SettleTells(w, start, ttl);
      case _ => QuietTells(w, start, a, ttl);
    }
  }

  lemma {:induction false} RunTells(w: World, start: Option<nat>, actions: seq<Action>, ttl: nat)
    requires AllTold(w, start) && RunAll(w, actions, ttl).Some?
    ensures AllTold(RunAll(w, actions, ttl).value, start)
    decreases |actions|
  {
    hide AllTold, Step, Enabled;
    if actions != [] {
      StepTells(w, start, actions[0], ttl);
      RunTells(Step(w, actions[0], ttl), start, actions[1..], ttl);
    }
  }

  // ----- what calls send and how they end ----------------------------------------------------------

  /** Whatever happens, a call sends its request once or twice, and every request of the tab carries the
      access token of the last refresh or sign-in that took effect before it. */
  lemma RequestsSent(w: World, actions: seq<Action>, k: nat, ttl: nat)
    requires Loaded(w) && RunAll(w, actions, ttl).Some? && k < |RunAll(w, actions, ttl).value.tab.calls|
    ensures var log := RunAll(w, actions, ttl).value.tab.log;
      1 <= Sends(log, k) <= 2 && Headers(log)
  {
    hide Holding, Sends;
    LoadedTold(w);
    RunTells(w, w.tab.stored, actions, ttl);
    var tab := RunAll(w, actions, ttl).value.tab;
    assert Told(tab.log, w.tab.stored, k, tab.calls[k]);
  }

  lemma LoadedTold(w: World)
    requires Loaded(w)
    ensures AllTold(w, w.tab.stored)
  {}

  lemma SameFirst(log: seq<Note>, k: nat, u: bool, p: nat, v: bool, r: nat)
    requires FirstGot(log, k, u, p) && FirstGot(log, k, v, r)
    ensures p == r && u == v
  {
    if p < r {
      assert GotBy(log[p], k);
    } else if r < p {
      assert GotBy(log[r], k);
    }
  }

  lemma SameWait(log: seq<Note>, start: Option<nat>, k: nat, p: nat, s: nat, a: bool, p': nat, s': nat, b: bool)
    requires WaitedFor(log, start, k, p, s, a) && WaitedFor(log, start, k, p', s', b)
    ensures p == p' && s == s' && a == b
  {
    SameFirst(log, k, true, p, true, p');
  }

  lemma DoneTold(log: seq<Note>, start: Option<nat>, k: nat, u: bool)
    requires Told(log, start, k, Done(u))
    ensures forall p: nat, s: nat :: WaitedFor(log, start, k, p, s, true) ==> Sends(log, k) == 2 && EndsSecond(log, k, s, u)
    ensures forall p: nat, s: nat :: WaitedFor(log, start, k, p, s, false) ==> Sends(log, k) == 1 && u
    ensures forall p: nat, v :: FirstGot(log, k, v, p) && !Refused(log, start, k, p) ==> Sends(log, k) == 1 && u == v
  {
    hide EndsSecond, Sends, FirstGot, Refused, WaitedFor;
    if p: nat :| FirstGot(log, k, u, p) && !Refused(log, start, k, p) && Sends(log, k) == 1 {
      forall p': nat, s: nat, b | WaitedFor(log, start, k, p', s, b) ensures false {
        WaitedFirst(log, start, k, p', s, b);
        SameFirst(log, k, u, p, true, p');
      }
      forall p': nat, v | FirstGot(log, k, v, p') ensures v == u {
        SameFirst(log, k, u, p, v, p');
      }
    } else if p: nat, s: nat :| WaitedFor(log, start, k, p, s, false) && Sends(log, k) == 1 && u {
      WaitedOnce(log, start, k, p, s, false);
    } else {
      var p: nat, s: nat :| WaitedFor(log, start, k, p, s, true) && EndsSecond(log, k, s, u) && Sends(log, k) == 2;
      WaitedOnce(log, start, k, p, s, true);
    }
  }

  lemma WaitedFirst(log: seq<Note>, start: Option<nat>, k: nat, p: nat, s: nat, b: bool)
    requires WaitedFor(log, start, k, p, s, b)
    ensures FirstGot(log, k, true, p) && Refused(log, start, k, p)
  {}

  /** A call that waited waited once, and every first response of it is that 401. */
  lemma WaitedOnce(log: seq<Note>, start: Option<nat>, k: nat, p: nat, s: nat, b: bool)
    requires WaitedFor(log, start, k, p, s, b)
    ensures forall p': nat, s': nat, b' :: WaitedFor(log, start, k, p', s', b') ==> s' == s && b' == b
    ensures forall p': nat, v :: FirstGot(log, k, v, p') ==> Refused(log, start, k, p')
  {
    hide FirstGot, Refused, WaitedFor;
    WaitedFirst(log, start, k, p, s, b);
    forall p': nat, s': nat, b' | WaitedFor(log, start, k, p', s', b') ensures s' == s && b' == b {
      SameWait(log, start, k, p, s, b, p', s', b');
    }
    forall p': nat, v | FirstGot(log, k, v, p') ensures Refused(log, start, k, p') {
      SameFirst(log, k, true, p, v, p');
    }
  }

  /** How a finished call went. If its first response was a 401, it was authed and a token was stored, it
      waited for the refresh that was over next: after one answered with tokens it sent its request once
      more, with the access token then held, and ended with that second response; after any other end it
      sent nothing more and ended unauthorized. In every other case its first response was its last. */
  lemma CallsEnd(w: World, actions: seq<Action>, k: nat, ttl: nat)
    requires Loaded(w) && RunAll(w, actions, ttl).Some?
    requires var tab := RunAll(w, actions, ttl).value.tab; k < |tab.calls| && tab.calls[k].Done?
    ensures var tab, start := RunAll(w, actions, ttl).value.tab, w.tab.stored;
      var log, u := tab.log, tab.calls[k].unauthorized;
      && (forall p: nat, s: nat :: WaitedFor(log, start, k, p, s, true) ==> Sends(log, k) == 2 && EndsSecond(log, k, s, u))
      && (forall p: nat, s: nat :: WaitedFor(log, start, k, p, s, false) ==> Sends(log, k) == 1 && u)
      && (forall p: nat, v :: FirstGot(log, k, v, p) && !Refused(log, start, k, p) ==> Sends(log, k) == 1 && u == v)
  {
    LoadedTold(w);
    RunTells(w, w.tab.stored, actions, ttl);
    var tab := RunAll(w, actions, ttl).value.tab;
    DoneTold(tab.log, w.tab.stored, k, tab.calls[k].unauthorized);
  }

  /** A call that waited for a refresh that is over can go on at once: it is over itself, retrying, or its
      next step is to send its request again or to give up. */
  lemma WaitersGoOn(w: World, actions: seq<Action>, k: nat, p: nat, s: nat, tokens: bool, ttl: nat)
    requires Loaded(w) && RunAll(w, actions, ttl).Some?
    requires var tab := RunAll(w, actions, ttl).value.tab;
      k < |tab.calls| && WaitedFor(tab.log, w.tab.stored, k, p, s, tokens)
    ensures var end := RunAll(w, actions, ttl).value;
      && (end.tab.calls[k].Done? || end.tab.calls[k].Retrying? || Enabled(end, Continue(k)))
      && (Enabled(end, Continue(k)) ==>
            var next := Step(end, Continue(k), ttl).tab;
            if tokens then next.calls[k] == Retrying && next.log == end.tab.log + [Sent(k, true, end.tab.accessToken)]
            else next.calls[k] == Done(true) && next.log == end.tab.log)
  {
    hide Holding, Sends, LastEnd;
    LoadedTold(w);
    RunTells(w, w.tab.stored, actions, ttl);
    var tab := RunAll(w, actions, ttl).value.tab;
    assert Told(tab.log, w.tab.stored, k, tab.calls[k]);
    WaitingPhase(tab.log, w.tab.stored, k, p, s, tokens, tab.calls[k]);
  }

  lemma WaitingPhase(log: seq<Note>, start: Option<nat>, k: nat, p: nat, s: nat, tokens: bool, phase: Phase)
    requires Told(log, start, k, phase) && WaitedFor(log, start, k, p, s, tokens)
    ensures phase.Done? || phase.Retrying? || phase == Granted(tokens)
  {
    hide Holding, Sends, LastEnd, Authed;
    assert GotBy(log[p], k);
    if phase.Awaiting? {
      StillWaits(log, start, k, p, s, tokens);
    } else if phase.Granted? {
      var p': nat, s': nat :| WaitedFor(log, start, k, p', s', phase.refreshed);
      SameWait(log, start, k, p, s, tokens, p', s', phase.refreshed);
    }
  }

  /** The refresh of a call that still waits is not over. */
  lemma StillWaits(log: seq<Note>, start: Option<nat>, k: nat, p: nat, s: nat, tokens: bool)
    requires Told(log, start, k, Awaiting)
    ensures !WaitedFor(log, start, k, p, s, tokens)
  {
    var r: nat :| Refused(log, start, k, r) && forall i :: r < i < |log| ==> log[i] != Settled;
    if WaitedFor(log, start, k, p, s, tokens) {
      SameFirst(log, k, true, p, true, r);
    }
  }
}
