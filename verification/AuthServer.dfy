/** Refresh-token sessions on the server: single-use tokens, rotation, and replay taken as compromise. */
module AuthServer {
  import opened Options

  /** One `auth_sessions` row. Token generation is fresh and hashing injective, so a token is named by
      how many were generated before it, and the row found by its hash is the one at that index. */
  datatype Session = Session(user: nat, expires: int, revoked: Option<int>, rotatedTo: Option<nat>)

  datatype Reason = Unsupported | BadCredentials | Invalid | Reused | Expired | Unavailable

  datatype Reply = Tokens(token: nat) | Rejected(reason: Reason) | LoggedOut

  /** One API call. What the auth provider answers (`user`), whether the account still exists and is
      active, and the clock come from outside. */
  datatype Op =
    | Register(supported: bool, user: Option<nat>, now: int)
    | Login(user: Option<nat>, now: int)
    | Refresh(token: nat, active: bool, now: int)
    | Logout(token: nat, now: int)

  datatype Outcome = Outcome(sessions: seq<Session>, reply: Reply)

  predicate Live(ss: seq<Session>, token: nat) {
    token < |ss| && ss[token].revoked.None?
  }

  function Revoke(s: Session, when: int): Session {
    if s.revoked.None? then s.(revoked := Some(when)) else s
  }

  function RevokedAll(ss: seq<Session>, user: nat, when: int): seq<Session> {
    seq(|ss|, i requires 0 <= i < |ss| => if ss[i].user == user then Revoke(ss[i], when) else ss[i])
  }

  function Issued(ss: seq<Session>, user: nat, parent: Option<nat>, now: int, ttl: nat): seq<Session>
    requires parent.Some? ==> parent.value < |ss|
  {
    var added := ss + [Session(user, now + ttl, None, None)];
    if parent.None? then added
    else added[parent.value := ss[parent.value].(revoked := Some(now), rotatedTo := Some(|ss|))]
  }

  function SignedIn(ss: seq<Session>, user: Option<nat>, now: int, ttl: nat): Outcome {
    if user.None? then Outcome(ss, Rejected(BadCredentials))
    else Outcome(Issued(ss, user.value, None, now, ttl), Tokens(|ss|))
  }

  function Refreshed(ss: seq<Session>, token: nat, active: bool, now: int, ttl: nat): Outcome {
    if token >= |ss| then Outcome(ss, Rejected(Invalid))
    else if ss[token].revoked.Some? then Outcome(RevokedAll(ss, ss[token].user, now), Rejected(Reused))
    else if ss[token].expires <= now then Outcome(ss, Rejected(Expired))
    else if !active then Outcome(ss, Rejected(Unavailable))
    else Outcome(Issued(ss, ss[token].user, Some(token), now, ttl), Tokens(|ss|))
  }

  function After(ss: seq<Session>, op: Op, ttl: nat): Outcome {
    match op
    case Register(supported, user, now) =>
      if !supported then Outcome(ss, Rejected(Unsupported)) else SignedIn(ss, user, now, ttl)
    case Login(user, now) => SignedIn(ss, user, now, ttl)
    case Refresh(token, active, now) => Refreshed(ss, token, active, now, ttl)
    case Logout(token, now) =>
      Outcome(if token < |ss| then ss[token := Revoke(ss[token], now)] else ss, LoggedOut)
  }

  // ----- the service as the source writes it -------------------------------------------------------

  class TokenServer {
    var sessions: seq<Session>
    const ttl: nat

    constructor (ttl: nat)
      ensures sessions == [] && this.ttl == ttl
    {
      this.ttl := ttl;
      sessions := [];
    }

    method Register(supported: bool, user: Option<nat>, now: int) returns (reply: Reply)
      modifies this
      ensures Outcome(sessions, reply) == After(old(sessions), Op.Register(supported, user, now), ttl)
    {
      if !supported {
        return Rejected(Unsupported);
      }
      if user.None? {
        return Rejected(BadCredentials);
      }
      var token := Issue(user.value, None, now);
      return Tokens(token);
    }

    method Login(user: Option<nat>, now: int) returns (reply: Reply)
      modifies this
      ensures Outcome(sessions, reply) == After(old(sessions), Op.Login(user, now), ttl)
    {
      if user.None? {
        return Rejected(BadCredentials);
      }
      var token := Issue(user.value, None, now);
      return Tokens(token);
    }

    method Refresh(token: nat, active: bool, now: int) returns (reply: Reply)
      modifies this
      ensures Outcome(sessions, reply) == After(old(sessions), Op.Refresh(token, active, now), ttl)
    {
      if token >= |sessions| {
        return Rejected(Invalid);
      }
      var row := sessions[token];
      if row.revoked.Some? {
        RevokeAll(row.user, now);
        return Rejected(Reused);
      }
      if row.expires <= now {
        return Rejected(Expired);
      }
      if !active {
        return Rejected(Unavailable);
      }
      var next := Issue(row.user, Some(token), now);
      return Tokens(next);
    }

    method Logout(token: nat, now: int)
      modifies this
      ensures Outcome(sessions, LoggedOut) == After(old(sessions), Op.Logout(token, now), ttl)
    {
      if token < |sessions| && sessions[token].revoked.None? {
        sessions := sessions[token := sessions[token].(revoked := Some(now))];
      }
    }

    method Issue(user: nat, parent: Option<nat>, now: int) returns (token: nat)
      requires parent.Some? ==> parent.value < |sessions|
      modifies this
      ensures sessions == Issued(old(sessions), user, parent, now, ttl) && token == |old(sessions)|
    {
      token := |sessions|;
      sessions := sessions + [Session(user, now + ttl, None, None)];
      if parent.Some? {
        var row := sessions[parent.value];
        sessions := sessions[parent.value := row.(revoked := Some(now), rotatedTo := Some(token))];
      }
    }

    method RevokeAll(user: nat, when: int)
      modifies this
      ensures sessions == RevokedAll(old(sessions), user, when)
    {
      var before := sessions;
      for i := 0 to |sessions|
        invariant |sessions| == |before|
        invariant forall j :: 0 <= j < i ==> sessions[j] == RevokedAll(before, user, when)[j]
        invariant forall j :: i <= j < |sessions| ==> sessions[j] == before[j]
      {
        if sessions[i].user == user && sessions[i].revoked.None? {
          sessions := sessions[i := sessions[i].(revoked := Some(when))];
        }
      }
    }
  }

  // ----- whole histories ---------------------------------------------------------------------------

  /** The sessions after a history of calls. */
  function RunFrom(ss: seq<Session>, ops: seq<Op>, ttl: nat): seq<Session> {
    if ops == [] then ss else After(RunFrom(ss, ops[..|ops| - 1], ttl), ops[|ops| - 1], ttl).sessions
  }

  function Run(ops: seq<Op>, ttl: nat): seq<Session> {
    RunFrom([], ops, ttl)
  }

  predicate Linked(ss: seq<Session>, i: nat) {
    i < |ss| && ss[i].rotatedTo.Some?
  }

  /** Links lead forward, inside one user, from revoked sessions, and no two lead to the same one. */
  ghost predicate Chained(ss: seq<Session>) {
    && (forall i: nat :: Linked(ss, i) ==>
          var next := ss[i].rotatedTo.value;
          i < next < |ss| && ss[next].user == ss[i].user && ss[i].revoked.Some?)
    && (forall i: nat, j: nat :: Linked(ss, i) && Linked(ss, j) && i != j ==> ss[i].rotatedTo != ss[j].rotatedTo)
  }

  lemma IssueChains(ss: seq<Session>, user: nat, parent: Option<nat>, now: int, ttl: nat)
    requires Chained(ss)
    requires parent.Some? ==> parent.value < |ss| && ss[parent.value].user == user && ss[parent.value].revoked.None?
    ensures Chained(Issued(ss, user, parent, now, ttl))
  {
    var after := Issued(ss, user, parent, now, ttl);
    forall i: nat | Linked(after, i)
      ensures (parent == Some(i) && after[i].rotatedTo == Some(|ss|)) || (Linked(ss, i) && after[i] == ss[i])
    {}
  }

  lemma RevokeChains(ss: seq<Session>, after: seq<Session>)
    requires Chained(ss) && |after| == |ss|
    requires forall i: nat :: i < |ss| ==> after[i] == ss[i] || exists when :: after[i] == Revoke(ss[i], when)
    ensures Chained(after)
  {
    forall i: nat | Linked(after, i)
      ensures Linked(ss, i) && after[i].rotatedTo == ss[i].rotatedTo && after[i].user == ss[i].user
    {}
  }

  lemma StepChains(ss: seq<Session>, op: Op, ttl: nat)
    requires Chained(ss)
    ensures Chained(After(ss, op, ttl).sessions)
  {
    hide Chained;
    match op
    case Register(_, user, now) => if user.Some? { IssueChains(ss, user.value, None, now, ttl); }
    case Login(user, now) => if user.Some? { IssueChains(ss, user.value, None, now, ttl); }
    case Refresh(token, active, now) =>
      if token < |ss| {
        var user := ss[token].user;
        if ss[token].revoked.Some? {
          forall i: nat | i < |ss|
            ensures RevokedAll(ss, user, now)[i] == ss[i] || RevokedAll(ss, user, now)[i] == Revoke(ss[i], now)
          {}
          RevokeChains(ss, RevokedAll(ss, user, now));
        } else {
          IssueChains(ss, user, Some(token), now, ttl);
        }
      }
    case Logout(token, now) =>
      if token < |ss| {
        var after := ss[token := Revoke(ss[token], now)];
        assert after[token] == Revoke(ss[token], now);
        RevokeChains(ss, after);
      }
  }

  /** Whatever the history, the links form chains. */
  lemma {:induction false} ReachableChained(ops: seq<Op>, ttl: nat)
    ensures Chained(Run(ops, ttl))
  {
    if ops != [] {
      ReachableChained(ops[..|ops| - 1], ttl);
      StepChains(Run(ops[..|ops| - 1], ttl), ops[|ops| - 1], ttl);
    }
  }

  /** The sessions a token leads to, itself first. */
  ghost function Chain(ss: seq<Session>, i: nat): (c: seq<nat>)
    requires Chained(ss) && i < |ss|
    ensures c != [] && c[0] == i
    decreases |ss| - i
  {
    if Linked(ss, i) then [i] + Chain(ss, ss[i].rotatedTo.value) else [i]
  }

  ghost function Tip(ss: seq<Session>, i: nat): nat
    requires Chained(ss) && i < |ss|
  {
    Chain(ss, i)[|Chain(ss, i)| - 1]
  }

  ghost predicate IsChain(ss: seq<Session>, c: seq<nat>, user: nat) {
    && (forall k :: 0 <= k < |c| ==> c[k] < |ss| && ss[c[k]].user == user)
    && (forall k :: 0 <= k < |c| - 1 ==>
          c[k] < c[k + 1] && ss[c[k]].rotatedTo == Some(c[k + 1]) && !Live(ss, c[k]))
  }

  lemma LinkForward(ss: seq<Session>, i: nat)
    requires Chained(ss) && Linked(ss, i)
    ensures i < ss[i].rotatedTo.value < |ss| && ss[i].revoked.Some?
  {}

  lemma LongerChain(ss: seq<Session>, i: nat, d: seq<nat>)
    requires Chained(ss) && Linked(ss, i) && d != [] && d[0] == ss[i].rotatedTo.value && IsChain(ss, d, ss[i].user)
    ensures IsChain(ss, [i] + d, ss[i].user)
  {
    hide Chained;
    var c := [i] + d;
    LinkForward(ss, i);
    assert c[0] == i && forall k :: 1 <= k < |c| ==> c[k] == d[k - 1];
  }

  /** A chain climbs, belongs to one user, and only its tip can be unrevoked. */
  lemma {:induction false} ChainShape(ss: seq<Session>, i: nat)
    requires Chained(ss) && i < |ss|
    ensures IsChain(ss, Chain(ss, i), ss[i].user) && !Linked(ss, Tip(ss, i)) && i <= Tip(ss, i)
    decreases |ss| - i
  {
    hide IsChain;
    if Linked(ss, i) {
      var next := ss[i].rotatedTo.value;
      ChainShape(ss, next);
      LongerChain(ss, i, Chain(ss, next));
      assert Tip(ss, i) == Tip(ss, next);
    } else {
      Alone(ss, i);
    }
  }

  lemma Alone(ss: seq<Session>, i: nat)
    requires i < |ss|
    ensures IsChain(ss, [i], ss[i].user)
  {}

  /** Two chains that meet are one: the later token lies on the earlier one's chain. */
  lemma {:induction false} ChainsDisjoint(ss: seq<Session>, i: nat, j: nat)
    requires Chained(ss) && i <= j < |ss| && Tip(ss, i) == Tip(ss, j)
    ensures j in Chain(ss, i)
    decreases |ss| - i, |ss| - j
  {
    ChainShape(ss, i);
    ChainShape(ss, j);
    if i != j {
      if Linked(ss, j) {
        var up := ss[j].rotatedTo.value;
        assert Tip(ss, up) == Tip(ss, j);
        ChainsDisjoint(ss, i, up);
        var c := Chain(ss, i);
        var k :| 0 <= k < |c| && c[k] == up;
        assert k > 0;
        assert Linked(ss, c[k - 1]) && ss[c[k - 1]].rotatedTo == Some(up);
      } else {
        assert Tip(ss, i) == j;
      }
    }
  }

  // ----- single use --------------------------------------------------------------------------------

  predicate Redeems(ss: seq<Session>, op: Op, token: nat, ttl: nat) {
    op.Refresh? && op.token == token && After(ss, op, ttl).reply.Tokens?
  }

  /** How often the history exchanged a token for a new one. */
  function Redemptions(ops: seq<Op>, token: nat, ttl: nat): nat {
    if ops == [] then 0
    else
      var before, op := ops[..|ops| - 1], ops[|ops| - 1];
      Redemptions(before, token, ttl) + if Redeems(Run(before, ttl), op, token, ttl) then 1 else 0
  }

  lemma RedeemStep(ss: seq<Session>, op: Op, token: nat, ttl: nat)
    requires Chained(ss)
    ensures Linked(After(ss, op, ttl).sessions, token) <==> Linked(ss, token) || Redeems(ss, op, token, ttl)
    ensures Redeems(ss, op, token, ttl) ==> !Linked(ss, token)
  {}

  /** A token is redeemed at most once, and exactly those with a link were. */
  lemma {:induction false} RedeemedOnce(ops: seq<Op>, token: nat, ttl: nat)
    ensures Redemptions(ops, token, ttl) == if Linked(Run(ops, ttl), token) then 1 else 0
  {
    if ops != [] {
      var before := ops[..|ops| - 1];
      RedeemedOnce(before, token, ttl);
      ReachableChained(before, ttl);
      RedeemStep(Run(before, ttl), ops[|ops| - 1], token, ttl);
    }
  }

  /** A refresh succeeds exactly for a known, unrevoked, unexpired token of an active account. It then
      appends a live session of the same user that expires the lifetime from now, revokes the presented one
      now and links it to the new one, and changes no other row. */
  lemma RefreshSucceeds(ss: seq<Session>, token: nat, active: bool, now: int, ttl: nat)
    ensures var r := After(ss, Refresh(token, active, now), ttl);
      && (r.reply.Tokens? <==> Live(ss, token) && ss[token].expires > now && active)
      && (r.reply.Tokens? ==>
            && r.reply.token == |ss| && |r.sessions| == |ss| + 1
            && r.sessions[|ss|] == Session(ss[token].user, now + ttl, None, None)
            && r.sessions[token] == Session(ss[token].user, ss[token].expires, Some(now), Some(|ss|))
            && forall i: nat :: i < |ss| && i != token ==> r.sessions[i] == ss[i])
      && (!r.reply.Tokens? && r.reply != Rejected(Reused) ==> r.sessions == ss)
  {}

  /** Why a refresh is refused: an unknown token, a revoked one, an expired one, or an account that is gone
      or inactive, the first that applies. */
  lemma RefreshRefused(ss: seq<Session>, token: nat, active: bool, now: int, ttl: nat)
    ensures var reply := After(ss, Refresh(token, active, now), ttl).reply;
      && (reply == Rejected(Invalid) <==> token >= |ss|)
      && (reply == Rejected(Reused) <==> token < |ss| && ss[token].revoked.Some?)
      && (reply == Rejected(Expired) <==> Live(ss, token) && ss[token].expires <= now)
      && (reply == Rejected(Unavailable) <==> Live(ss, token) && ss[token].expires > now && !active)
  {}

  /** A registration or login that the provider accepts appends one live session of that user that expires
      the lifetime from now; one it does not accept changes nothing. */
  lemma SignInIssues(ss: seq<Session>, op: Op, ttl: nat)
    requires op.Register? || op.Login?
    ensures var r := After(ss, op, ttl);
      if op.user.Some? && (op.Register? ==> op.supported) then
        r.sessions == ss + [Session(op.user.value, op.now + ttl, None, None)] && r.reply == Tokens(|ss|)
      else
        r.sessions == ss && r.reply == Rejected(if op.Register? && !op.supported then Unsupported else BadCredentials)
  {}

  /** A logout revokes the presented session now if it is live, and changes nothing else. */
  lemma LogoutRevokes(ss: seq<Session>, token: nat, now: int, ttl: nat)
    ensures var r := After(ss, Logout(token, now), ttl);
      && r.reply == LoggedOut && |r.sessions| == |ss|
      && forall i: nat :: i < |ss| ==>
           r.sessions[i] == if i == token && Live(ss, i) then ss[i].(revoked := Some(now)) else ss[i]
  {}

  // ----- how many can be live ----------------------------------------------------------------------

  function Tips(ss: seq<Session>, user: nat): nat {
    if ss == [] then 0
    else
      var last := ss[|ss| - 1];
      Tips(ss[..|ss| - 1], user) + if last.user == user && last.rotatedTo.None? then 1 else 0
  }

  function LiveCount(ss: seq<Session>, user: nat): nat {
    if ss == [] then 0
    else
      var last := ss[|ss| - 1];
      LiveCount(ss[..|ss| - 1], user) + if last.user == user && last.revoked.None? then 1 else 0
  }

  predicate SignsIn(op: Op, user: nat) {
    (op.Register? && op.supported && op.user == Some(user)) || (op.Login? && op.user == Some(user))
  }

  function SignIns(ops: seq<Op>, user: nat): nat {
    if ops == [] then 0 else SignIns(ops[..|ops| - 1], user) + if SignsIn(ops[|ops| - 1], user) then 1 else 0
  }

  lemma {:induction false} TipsUpdate(ss: seq<Session>, i: nat, s: Session, user: nat)
    requires i < |ss| && s.user == ss[i].user
    ensures Tips(ss[i := s], user) ==
      Tips(ss, user)
        - (if ss[i].user == user && ss[i].rotatedTo.None? then 1 else 0)
        + (if ss[i].user == user && s.rotatedTo.None? then 1 else 0)
  {
    var n := |ss| - 1;
    if i < n {
      TipsUpdate(ss[..n], i, s, user);
      assert ss[i := s][..n] == ss[..n][i := s];
    } else {
      assert ss[i := s][..n] == ss[..n];
    }
  }

  lemma {:induction false} TipsSame(a: seq<Session>, b: seq<Session>, user: nat)
    requires |a| == |b|
    requires forall i :: 0 <= i < |a| ==> a[i].user == b[i].user && a[i].rotatedTo == b[i].rotatedTo
    ensures Tips(a, user) == Tips(b, user)
  {
    if a != [] {
      TipsSame(a[..|a| - 1], b[..|b| - 1], user);
    }
  }

  lemma TipsMore(ss: seq<Session>, s: Session, user: nat)
    ensures Tips(ss + [s], user) == Tips(ss, user) + if s.user == user && s.rotatedTo.None? then 1 else 0
  {
    assert (ss + [s])[..|ss|] == ss;
  }

  lemma TipsStep(ss: seq<Session>, op: Op, user: nat, ttl: nat)
    requires Chained(ss)
    ensures Tips(After(ss, op, ttl).sessions, user) == Tips(ss, user) + if SignsIn(op, user) then 1 else 0
  {
    hide Tips;
    var after := After(ss, op, ttl);
    if after.reply.Tokens? {
      var added := ss + [after.sessions[|ss|]];
      TipsMore(ss, after.sessions[|ss|], user);
      if op.Refresh? {
        TipsUpdate(added, op.token, after.sessions[op.token], user);
        assert added[op.token := after.sessions[op.token]] == after.sessions;
      }
    } else {
      TipsSame(ss, after.sessions, user);
    }
  }

  /** Every sign-in starts one chain and nothing else does. */
  lemma {:induction false} TipsAreSignIns(ops: seq<Op>, user: nat, ttl: nat)
    ensures Tips(Run(ops, ttl), user) == SignIns(ops, user)
  {
    if ops != [] {
      var before := ops[..|ops| - 1];
      TipsAreSignIns(before, user, ttl);
      ReachableChained(before, ttl);
      TipsStep(Run(before, ttl), ops[|ops| - 1], user, ttl);
    }
  }

  lemma {:induction false} LiveAreTips(ss: seq<Session>, user: nat)
    requires forall i: nat :: Linked(ss, i) ==> ss[i].revoked.Some?
    ensures LiveCount(ss, user) <= Tips(ss, user)
  {
    if ss != [] {
      var n := |ss| - 1;
      forall i: nat | Linked(ss[..n], i) ensures ss[..n][i].revoked.Some? {
        assert Linked(ss, i);
      }
      LiveAreTips(ss[..n], user);
      assert Linked(ss, n) ==> ss[n].revoked.Some?;
    }
  }

  /** Unrevoked sessions never outnumber registrations plus logins. */
  lemma LiveBounded(ops: seq<Op>, user: nat, ttl: nat)
    ensures LiveCount(Run(ops, ttl), user) <= SignIns(ops, user)
  {
    ReachableChained(ops, ttl);
    TipsAreSignIns(ops, user, ttl);
    LiveAreTips(Run(ops, ttl), user);
  }

  // ----- revocation --------------------------------------------------------------------------------

  ghost predicate NoneLive(ss: seq<Session>, user: nat) {
    forall i: nat :: i < |ss| && ss[i].user == user ==> ss[i].revoked.Some?
  }

  /** Presenting a revoked token leaves its user with no live session; other users' rows, and every
      link, stay as they were. */
  lemma ReuseRevokesUser(ss: seq<Session>, token: nat, active: bool, now: int, ttl: nat)
    requires token < |ss| && ss[token].revoked.Some?
    ensures var r := After(ss, Refresh(token, active, now), ttl);
      && r.reply == Rejected(Reused) && |r.sessions| == |ss|
      && NoneLive(r.sessions, ss[token].user)
      && forall i: nat :: i < |ss| ==>
           r.sessions[i] == if ss[i].user == ss[token].user && Live(ss, i) then ss[i].(revoked := Some(now)) else ss[i]
  {}

  /** A revocation is final and keeps its first time; rows never disappear or change user. */
  lemma {:induction false} RevocationIsFinal(ss: seq<Session>, ops: seq<Op>, ttl: nat)
    ensures var now := RunFrom(ss, ops, ttl);
      |now| >= |ss| && forall i: nat :: i < |ss| ==>
        now[i].user == ss[i].user && (ss[i].revoked.Some? ==> now[i].revoked == ss[i].revoked)
  {
    if ops != [] {
      RevocationIsFinal(ss, ops[..|ops| - 1], ttl);
    }
  }

  /** A user without live sessions stays so, and no token of theirs is redeemed, until they sign in. */
  lemma {:induction false} LockedOut(ss: seq<Session>, ops: seq<Op>, user: nat, ttl: nat)
    requires NoneLive(ss, user) && forall op :: op in ops ==> !SignsIn(op, user)
    ensures NoneLive(RunFrom(ss, ops, ttl), user)
    ensures forall k: nat, t: nat :: k < |ops| && Redeems(RunFrom(ss, ops[..k], ttl), ops[k], t, ttl) ==>
      RunFrom(ss, ops[..k], ttl)[t].user != user
  {
    if ops != [] {
      var n := |ops| - 1;
      var before := ops[..n];
      LockedOut(ss, before, user, ttl);
      assert ops[n] in ops;
      forall k: nat, t: nat | k < |ops| && Redeems(RunFrom(ss, ops[..k], ttl), ops[k], t, ttl)
        ensures RunFrom(ss, ops[..k], ttl)[t].user != user
      {
        if k < n {
          assert before[..k] == ops[..k] && before[k] == ops[k];
        } else {
          assert ops[..k] == before;
        }
      }
    }
  }
}
