/** Refresh-token rotation in the manner of section 4.14.2 of RFC 9700: each session keeps a
    linear chain of single-use tokens, and presenting a spent token revokes the session. */
module RefreshRotation {
  import opened Prelude

  datatype User = User(active: bool, tokenVersion: nat)
  datatype Session = Session(user: string, active: bool, idle: int, absolute: int, agent: Option<string>,
                             lastSeen: Option<int>)
  datatype Token = Token(session: nat, hash: string, parent: Option<nat>, replacedBy: Option<nat>,
                         usedAt: Option<int>, expires: int, revokedAt: Option<int>, reuseAt: Option<int>)

  /** Lifetimes in seconds, of any value, and the hash of secrets and user agents. */
  datatype Settings = Settings(idleTtl: int, absoluteTtl: int, grace: int, digest: string -> string)

  /** The three tables. Sessions and tokens take their ids from one counter, so ids are never reused. */
  datatype World = World(users: map<string, User>, sessions: map<nat, Session>, tokens: map<nat, Token>, now: int,
                         nextId: nat)

  datatype Cookie = Cookie(token: nat, secret: string)

  datatype Op =
    | Login(user: string, agent: string, secret: string)
    | Refresh(cookie: Option<Cookie>, agent: string, secret: string)
    | Logout(session: nat)
    | LogoutAll(user: string)
    | SetUser(user: string, active: bool)
    | Tick(seconds: nat)

  datatype Reply = Issued(session: nat, token: nat) | Rotated(token: nat) | Race | Invalid | Done

  function AgentHash(cfg: Settings, agent: string): Option<string> {
    if agent != "" then Some(cfg.digest(agent)) else None
  }

  function Min(a: int, b: int): int {
    if a <= b then a else b
  }

  /** `_create_session_result` */
  function LoginStep(cfg: Settings, w: World, user: string, agent: string, secret: string): (World, Reply) {
    if user !in w.users || !w.users[user].active then (w, Invalid)
    else
      var absolute := w.now + cfg.absoluteTtl;
      var idle := Min(w.now + cfg.idleTtl, absolute);
      var session, token := w.nextId, w.nextId + 1;
      (w.(sessions := w.sessions[session := Session(user, true, idle, absolute, AgentHash(cfg, agent), None)],
          tokens := w.tokens[token := Token(session, cfg.digest(secret), None, None, None, idle, None, None)],
          nextId := w.nextId + 2),
       Issued(session, token))
  }

  function RevokedToken(t: Token, now: int): Token {
    if t.revokedAt.None? then t.(revokedAt := Some(now)) else t
  }

  /** `revoke_session` and `revoke_all_user_sessions`: the sessions and all their tokens. */
  function Revoke(w: World, ids: set<nat>): World {
    w.(sessions := map s | s in w.sessions :: if s in ids then w.sessions[s].(active := false) else w.sessions[s],
       tokens := map t | t in w.tokens ::
         if w.tokens[t].session in ids then RevokedToken(w.tokens[t], w.now) else w.tokens[t])
  }

  function ActiveSessions(w: World, user: string): set<nat> {
    set s | s in w.sessions && w.sessions[s].user == user && w.sessions[s].active
  }

  /** The presented cookie names a stored token and its secret. */
  predicate Verified(cfg: Settings, w: World, cookie: Option<Cookie>) {
    cookie.Some? && cookie.value.token in w.tokens
      && cfg.digest(cookie.value.secret) == w.tokens[cookie.value.token].hash
  }

  /** Token and session are live: the session is active, nothing is revoked or expired. */
  predicate Live(w: World, token: nat) {
    && token in w.tokens
    && var t := w.tokens[token];
    && t.session in w.sessions && w.sessions[t.session].active
    && t.revokedAt.None? && w.now < t.expires && w.now < w.sessions[t.session].idle
    && w.now < w.sessions[t.session].absolute
  }

  /** A spent token within the grace period, presented by the same agent: a race of one client with itself. */
  predicate WithinGrace(cfg: Settings, w: World, token: nat, agent: string)
    requires token in w.tokens && w.tokens[token].usedAt.Some? && w.tokens[token].session in w.sessions
  {
    w.now - w.tokens[token].usedAt.value <= cfg.grace
      && AgentHash(cfg, agent) == w.sessions[w.tokens[token].session].agent
  }

  /** The state after a rotation of `token`. */
  function Rotate(cfg: Settings, w: World, token: nat, secret: string): World
    requires token in w.tokens && w.tokens[token].session in w.sessions
  {
    var t := w.tokens[token];
    var session := w.sessions[t.session];
    var expiry := Min(w.now + cfg.idleTtl, session.absolute);
    w.(tokens := w.tokens[w.nextId := Token(t.session, cfg.digest(secret), Some(token), None, None, expiry, None, None)]
                         [token := t.(usedAt := Some(w.now), replacedBy := Some(w.nextId))],
       sessions := w.sessions[t.session := session.(lastSeen := Some(w.now), idle := expiry)],
       nextId := w.nextId + 1)
  }

  function RefreshStep(cfg: Settings, w: World, cookie: Option<Cookie>, agent: string, secret: string): (World, Reply) {
    if !Verified(cfg, w, cookie) || !Live(w, cookie.value.token) then (w, Invalid)
    else
      var token := cookie.value.token;
      var t := w.tokens[token];
      if t.usedAt.Some? then
        if WithinGrace(cfg, w, token, agent) then (w, Race)
        else (Revoke(w.(tokens := w.tokens[token := t.(reuseAt := Some(w.now))]), {t.session}), Invalid)
      else
        var user := w.sessions[t.session].user;
        if user !in w.users || !w.users[user].active then (w, Invalid)
        else (Rotate(cfg, w, token, secret), Rotated(w.nextId))
  }

  function Step(cfg: Settings, w: World, op: Op): (World, Reply) {
    match op
    case Login(user, agent, secret) => LoginStep(cfg, w, user, agent, secret)
    case Refresh(cookie, agent, secret) => RefreshStep(cfg, w, cookie, agent, secret)
    case Logout(session) => (Revoke(w, {session}), Done)
    case LogoutAll(user) =>
      if user !in w.users || !w.users[user].active then (w, Done)
      else (Revoke(w.(users := w.users[user := w.users[user].(tokenVersion := w.users[user].tokenVersion + 1)]),
                   ActiveSessions(w, user)), Done)
    case SetUser(user, active) =>
      (w.(users := w.users[user := User(active, if user in w.users then w.users[user].tokenVersion else 1)]), Done)
    case Tick(seconds) => (w.(now := w.now + seconds), Done)
  }

  function Run(cfg: Settings, w: World, ops: seq<Op>): World {
    if ops == [] then w else Step(cfg, Run(cfg, w, ops[..|ops| - 1]), ops[|ops| - 1]).0
  }

  predicate Initial(w: World) {
    w.sessions == map[] && w.tokens == map[]
  }

  // ---------------------------------------------------------------- the chain of a session

  /** Ids in use are below the counter, and every token belongs to a session. */
  ghost predicate WellFormed(w: World) {
    && (forall s | s in w.sessions :: s < w.nextId)
    && (forall t | t in w.tokens :: t < w.nextId && w.tokens[t].session in w.sessions)
  }

  /** Link `i` of the chain: its neighbours, and the expiry that never falls. */
  predicate LinkOk(w: World, sid: nat, chain: seq<nat>, i: nat)
    requires i < |chain|
  {
    && chain[i] in w.tokens
    && var t := w.tokens[chain[i]];
    && t.session == sid
    && t.parent == (if i == 0 then None else Some(chain[i - 1]))
    && t.replacedBy == (if i + 1 < |chain| then Some(chain[i + 1]) else None)
    && t.usedAt.Some? == (i + 1 < |chain|)
    && (i + 1 < |chain| ==> chain[i + 1] in w.tokens && t.expires <= w.tokens[chain[i + 1]].expires)
  }

  /** `chain` lists the tokens of session `sid`, oldest first: one linear chain whose last token
      alone is unused and expires with the session. */
  ghost predicate SessionOk(cfg: Settings, w: World, sid: nat, chain: seq<nat>) {
    && sid in w.sessions && chain != []
    && (forall t :: t in chain <==> t in w.tokens && w.tokens[t].session == sid)
    && (forall i, j | 0 <= i < j < |chain| :: chain[i] != chain[j])
    && (forall i | 0 <= i < |chain| :: LinkOk(w, sid, chain, i))
    && (forall t | t in chain && t in w.tokens :: w.tokens[t].revokedAt.None? <==> w.sessions[sid].active)
    && w.tokens[chain[|chain| - 1]].expires == w.sessions[sid].idle <= w.sessions[sid].absolute
    && w.sessions[sid].idle <= Min(w.now + cfg.idleTtl, w.sessions[sid].absolute)
  }

  /** The chain after one more operation. */
  function NextChain(cfg: Settings, w: World, op: Op, sid: nat, chain: seq<nat>): seq<nat> {
    var reply := Step(cfg, w, op).1;
    if reply.Rotated? && op.Refresh? && op.cookie.Some? && op.cookie.value.token in chain then chain + [reply.token]
    else chain
  }

  /** Only the last link is unused. */
  lemma UnusedIsLast(cfg: Settings, w: World, sid: nat, chain: seq<nat>, token: nat)
    requires SessionOk(cfg, w, sid, chain) && token in chain
    ensures token in w.tokens && (w.tokens[token].usedAt.None? <==> token == chain[|chain| - 1])
  {
    var i :| 0 <= i < |chain| && chain[i] == token;
    assert LinkOk(w, sid, chain, i) && LinkOk(w, sid, chain, |chain| - 1);
  }

  lemma RotateExtends(cfg: Settings, w: World, sid: nat, chain: seq<nat>, secret: string)
    requires WellFormed(w) && SessionOk(cfg, w, sid, chain)
    requires Live(w, chain[|chain| - 1])
    ensures SessionOk(cfg, Rotate(cfg, w, chain[|chain| - 1], secret), sid, chain + [w.nextId])
  {
    var last := |chain| - 1;
    assert LinkOk(w, sid, chain, last);
    var w' := Rotate(cfg, w, chain[last], secret);
    assert w.nextId !in w.tokens;
    var chain' := chain + [w.nextId];
    forall k | 0 <= k < |chain'| ensures LinkOk(w', sid, chain', k) {
      if k < |chain| {
        assert LinkOk(w, sid, chain, k) && chain'[k] == chain[k];
      }
    }
  }

  lemma RotateElsewhere(cfg: Settings, w: World, sid: nat, chain: seq<nat>, token: nat, secret: string)
    requires WellFormed(w) && SessionOk(cfg, w, sid, chain)
    requires token in w.tokens && w.tokens[token].session in w.sessions && token !in chain
    ensures SessionOk(cfg, Rotate(cfg, w, token, secret), sid, chain)
  {
    var w' := Rotate(cfg, w, token, secret);
    assert w.nextId !in w.tokens;
    forall t | t in chain ensures t in w.tokens && t in w'.tokens && w'.tokens[t] == w.tokens[t] {
    }
    forall k | 0 <= k < |chain| ensures LinkOk(w', sid, chain, k) {
      assert LinkOk(w, sid, chain, k) && chain[k] in chain;
      assert k + 1 < |chain| ==> chain[k + 1] in chain;
    }
  }

  lemma RevokeKeepsChain(cfg: Settings, w: World, sid: nat, chain: seq<nat>, ids: set<nat>)
    requires SessionOk(cfg, w, sid, chain)
    ensures SessionOk(cfg, Revoke(w, ids), sid, chain)
  {
    var w' := Revoke(w, ids);
    forall k | 0 <= k < |chain| ensures LinkOk(w', sid, chain, k) {
      assert LinkOk(w, sid, chain, k);
    }
  }

  /** A token that was presented again is marked; nothing the chain depends on changes. */
  lemma MarkKeepsChain(cfg: Settings, w: World, sid: nat, chain: seq<nat>, token: nat)
    requires SessionOk(cfg, w, sid, chain) && token in w.tokens
    ensures SessionOk(cfg, w.(tokens := w.tokens[token := w.tokens[token].(reuseAt := Some(w.now))]), sid, chain)
  {
    var w' := w.(tokens := w.tokens[token := w.tokens[token].(reuseAt := Some(w.now))]);
    forall k | 0 <= k < |chain| ensures LinkOk(w', sid, chain, k) {
      assert LinkOk(w, sid, chain, k);
    }
  }

  lemma OtherTablesKeepChain(cfg: Settings, w: World, w': World, sid: nat, chain: seq<nat>)
    requires SessionOk(cfg, w, sid, chain)
    requires sid in w'.sessions && w'.sessions[sid] == w.sessions[sid] && w.now <= w'.now
    requires forall t | t in w.tokens :: t in w'.tokens && w'.tokens[t] == w.tokens[t]
    requires forall t | t in w'.tokens && w'.tokens[t].session == sid :: t in w.tokens
    ensures SessionOk(cfg, w', sid, chain)
  {
    forall k | 0 <= k < |chain| ensures LinkOk(w', sid, chain, k) {
      assert LinkOk(w, sid, chain, k);
    }
  }

  lemma RefreshKeepsChain(cfg: Settings, w: World, op: Op, sid: nat, chain: seq<nat>)
    requires op.Refresh? && WellFormed(w) && SessionOk(cfg, w, sid, chain)
    ensures SessionOk(cfg, Step(cfg, w, op).0, sid, NextChain(cfg, w, op, sid, chain))
  {
    hide SessionOk, Rotate, Revoke, WellFormed;
    if Verified(cfg, w, op.cookie) && Live(w, op.cookie.value.token) {
      var token := op.cookie.value.token;
      if w.tokens[token].usedAt.Some? {
        MarkKeepsChain(cfg, w, sid, chain, token);
        RevokeKeepsChain(cfg, w.(tokens := w.tokens[token := w.tokens[token].(reuseAt := Some(w.now))]), sid, chain,
                         {w.tokens[token].session});
      } else if token in chain {
        UnusedIsLast(cfg, w, sid, chain, token);
        assert chain != [];
        RotateExtends(cfg, w, sid, chain, op.secret);
      } else {
        RotateElsewhere(cfg, w, sid, chain, token, op.secret);
      }
    }
  }

  lemma LoginElsewhere(cfg: Settings, w: World, op: Op, sid: nat, chain: seq<nat>)
    requires op.Login? && WellFormed(w) && SessionOk(cfg, w, sid, chain)
    ensures SessionOk(cfg, Step(cfg, w, op).0, sid, chain)
  {
    var w' := Step(cfg, w, op).0;
    assert sid in w'.sessions && w'.sessions[sid] == w.sessions[sid];
    hide SessionOk;
    OtherTablesKeepChain(cfg, w, w', sid, chain);
  }

  lemma LogoutAllKeepsChain(cfg: Settings, w: World, op: Op, sid: nat, chain: seq<nat>)
    requires op.LogoutAll? && sid in w.sessions && SessionOk(cfg, w, sid, chain)
    ensures SessionOk(cfg, Step(cfg, w, op).0, sid, chain)
  {
    hide SessionOk, Revoke;
    if op.user in w.users && w.users[op.user].active {
      var w' := w.(users := w.users[op.user := w.users[op.user].(tokenVersion := w.users[op.user].tokenVersion + 1)]);
      OtherTablesKeepChain(cfg, w, w', sid, chain);
      RevokeKeepsChain(cfg, w', sid, chain, ActiveSessions(w, op.user));
    }
  }

  lemma StepKeepsChain(cfg: Settings, w: World, op: Op, sid: nat, chain: seq<nat>)
    requires WellFormed(w) && sid in w.sessions && SessionOk(cfg, w, sid, chain)
    ensures SessionOk(cfg, Step(cfg, w, op).0, sid, NextChain(cfg, w, op, sid, chain))
  {
    hide SessionOk, WellFormed, RefreshStep, LoginStep, Revoke;
    match op
    case Refresh(_, _, _) => RefreshKeepsChain(cfg, w, op, sid, chain);
    case Logout(session) => RevokeKeepsChain(cfg, w, sid, chain, {session});
    case LogoutAll(_) => LogoutAllKeepsChain(cfg, w, op, sid, chain);
    case Login(_, _, _) => LoginElsewhere(cfg, w, op, sid, chain);
    case SetUser(_, _) => OtherTablesKeepChain(cfg, w, Step(cfg, w, op).0, sid, chain);
    case Tick(_) => OtherTablesKeepChain(cfg, w, Step(cfg, w, op).0, sid, chain);
  }

  lemma StepWellFormed(cfg: Settings, w: World, op: Op)
    requires WellFormed(w)
    ensures WellFormed(Step(cfg, w, op).0)
    ensures w.sessions.Keys <= Step(cfg, w, op).0.sessions.Keys
  {
  }

  /** A new session starts with a chain of one. */
  lemma LoginStartsChain(cfg: Settings, w: World, op: Op)
    requires op.Login? && WellFormed(w) && Step(cfg, w, op).1.Issued?
    ensures SessionOk(cfg, Step(cfg, w, op).0, w.nextId, [w.nextId + 1])
    ensures Step(cfg, w, op).0.sessions.Keys == w.sessions.Keys + {w.nextId}
  {
    var w', chain := Step(cfg, w, op).0, [w.nextId + 1];
    assert LinkOk(w', w.nextId, chain, 0);
    assert forall t | t in w.tokens :: w.tokens[t].session != w.nextId;
  }

  /** Every session of every reachable state has its chain. */
  lemma {:induction false} RunHasChains(cfg: Settings, w: World, ops: seq<Op>, sid: nat) returns (chain: seq<nat>)
    requires Initial(w) && sid in Run(cfg, w, ops).sessions
    ensures SessionOk(cfg, Run(cfg, w, ops), sid, chain)
  {
    var last := |ops| - 1;
    var before := Run(cfg, w, ops[..last]);
    RunWellFormed(cfg, w, ops[..last]);
    if sid in before.sessions {
      chain := RunHasChains(cfg, w, ops[..last], sid);
      hide SessionOk, Step, WellFormed;
      StepKeepsChain(cfg, before, ops[last], sid, chain);
      chain := NextChain(cfg, before, ops[last], sid, chain);
    } else {
      LoginStartsChain(cfg, before, ops[last]);
      chain := [before.nextId + 1];
    }
  }

  lemma {:induction false} RunWellFormed(cfg: Settings, w: World, ops: seq<Op>)
    requires Initial(w)
    ensures WellFormed(Run(cfg, w, ops))
  {
    if ops != [] {
      RunWellFormed(cfg, w, ops[..|ops| - 1]);
      StepWellFormed(cfg, Run(cfg, w, ops[..|ops| - 1]), ops[|ops| - 1]);
    }
  }

  /** In every reachable state a session has exactly one unused token. */
  lemma ExactlyOneUnused(cfg: Settings, w: World, ops: seq<Op>, sid: nat) returns (tail: nat)
    requires Initial(w) && sid in Run(cfg, w, ops).sessions
    ensures var w' := Run(cfg, w, ops);
      forall t :: t == tail <==> t in w'.tokens && w'.tokens[t].session == sid && w'.tokens[t].usedAt.None?
    ensures var w' := Run(cfg, w, ops);
      tail in w'.tokens && w'.tokens[tail].expires == w'.sessions[sid].idle <= w'.sessions[sid].absolute
  {
    var chain := RunHasChains(cfg, w, ops, sid);
    var w' := Run(cfg, w, ops);
    hide Run;
    tail := chain[|chain| - 1];
    forall t | t in chain ensures t in w'.tokens && (w'.tokens[t].usedAt.None? <==> t == tail) {
      UnusedIsLast(cfg, w', sid, chain, t);
    }
    assert tail in chain;
  }

  /** Parent and replaced-by are inverse to each other in every reachable state. */
  lemma ParentInvertsReplacement(cfg: Settings, w: World, ops: seq<Op>, a: nat, b: nat)
    requires Initial(w)
    requires var w' := Run(cfg, w, ops); a in w'.tokens && b in w'.tokens
    ensures var w' := Run(cfg, w, ops);
      w'.tokens[a].replacedBy == Some(b) <==> w'.tokens[b].parent == Some(a)
  {
    var w' := Run(cfg, w, ops);
    RunWellFormed(cfg, w, ops);
    assert w'.tokens[a].session in w'.sessions && w'.tokens[b].session in w'.sessions;
    var chainA := RunHasChains(cfg, w, ops, w'.tokens[a].session);
    var chainB := RunHasChains(cfg, w, ops, w'.tokens[b].session);
    hide Run;
    LinksInverse(cfg, w', w'.tokens[a].session, chainA, w'.tokens[b].session, chainB, a, b);
  }

  lemma LinksInverse(cfg: Settings, w: World, sidA: nat, chainA: seq<nat>, sidB: nat, chainB: seq<nat>, a: nat, b: nat)
    requires SessionOk(cfg, w, sidA, chainA) && SessionOk(cfg, w, sidB, chainB) && a in chainA && b in chainB
    requires a in w.tokens && b in w.tokens
    ensures w.tokens[a].replacedBy == Some(b) <==> w.tokens[b].parent == Some(a)
  {
    var i :| 0 <= i < |chainA| && chainA[i] == a;
    var j :| 0 <= j < |chainB| && chainB[j] == b;
    assert LinkOk(w, sidA, chainA, i) && LinkOk(w, sidB, chainB, j);
    if w.tokens[a].replacedBy == Some(b) {
      assert LinkOk(w, sidA, chainA, i + 1);
    }
    if w.tokens[b].parent == Some(a) {
      assert LinkOk(w, sidB, chainB, j - 1);
    }
  }

  // ---------------------------------------------------------------- reuse, revocation, expiry

  /** A refresh succeeds if and only if it presents the live, unused token of its session with the
      right secret while the user is active; that token is the end of the chain. */
  lemma RotatesExactly(cfg: Settings, w: World, op: Op, sid: nat, chain: seq<nat>)
    requires op.Refresh? && op.cookie.Some? && SessionOk(cfg, w, sid, chain)
    requires op.cookie.value.token in chain
    ensures Step(cfg, w, op).1.Rotated? <==>
      && op.cookie.value.token == chain[|chain| - 1] && Verified(cfg, w, op.cookie)
      && w.sessions[sid].active && w.now < w.sessions[sid].idle
      && w.sessions[sid].user in w.users && w.users[w.sessions[sid].user].active
  {
    UnusedIsLast(cfg, w, sid, chain, op.cookie.value.token);
    assert chain[|chain| - 1] in chain;
    hide Rotate, Revoke;
  }

  /** What happens to a session over one step: revoked stays revoked, the idle expiry never falls,
      the absolute expiry never moves. */
  lemma StepSession(cfg: Settings, w: World, op: Op, sid: nat, chain: seq<nat>)
    requires WellFormed(w) && sid in w.sessions && SessionOk(cfg, w, sid, chain)
    ensures var w' := Step(cfg, w, op).0;
      && sid in w'.sessions && (w'.sessions[sid].active ==> w.sessions[sid].active)
      && w.sessions[sid].idle <= w'.sessions[sid].idle && w'.sessions[sid].absolute == w.sessions[sid].absolute
      && w.now <= w'.now
  {
    hide LinkOk;
  }

  /** Over any number of steps. */
  lemma {:induction false} RunSession(cfg: Settings, w: World, ops: seq<Op>, more: seq<Op>, sid: nat)
    requires Initial(w) && sid in Run(cfg, w, ops).sessions
    ensures var w', w'' := Run(cfg, w, ops), Run(cfg, w, ops + more);
      && sid in w''.sessions && (w''.sessions[sid].active ==> w'.sessions[sid].active)
      && w'.sessions[sid].idle <= w''.sessions[sid].idle && w''.sessions[sid].absolute == w'.sessions[sid].absolute
      && w'.now <= w''.now
  {
    if more == [] {
      assert ops + more == ops;
    } else {
      var front := more[..|more| - 1];
      assert (ops + more)[..|ops + more| - 1] == ops + front;
      RunSession(cfg, w, ops, front, sid);
      RunWellFormed(cfg, w, ops + front);
      var chain := RunHasChains(cfg, w, ops + front, sid);
      hide SessionOk, WellFormed, Step;
      StepSession(cfg, Run(cfg, w, ops + front), more[|more| - 1], sid, chain);
    }
  }

  /** The operation revokes the session: it logs it or its user out, or presents a verified, still live,
      already spent token of it, outside the grace period or from another agent. */
  predicate Revokes(cfg: Settings, w: World, op: Op, sid: nat) {
    sid in w.sessions &&
    match op
    case Refresh(cookie, agent, _) =>
      && Verified(cfg, w, cookie) && Live(w, cookie.value.token) && w.tokens[cookie.value.token].session == sid
      && w.tokens[cookie.value.token].usedAt.Some? && !WithinGrace(cfg, w, cookie.value.token, agent)
    case Logout(session) => session == sid
    case LogoutAll(user) => user == w.sessions[sid].user && user in w.users && w.users[user].active
    case _ => false
  }

  ghost predicate RevokedAt(cfg: Settings, w: World, ops: seq<Op>, sid: nat, k: nat)
    requires k < |ops|
  {
    Revokes(cfg, Run(cfg, w, ops[..k]), ops[k], sid)
  }

  lemma StepRevokes(cfg: Settings, w: World, op: Op, sid: nat)
    requires WellFormed(w) && sid in w.sessions
    ensures var w' := Step(cfg, w, op).0;
      sid in w'.sessions && (!w'.sessions[sid].active <==> !w.sessions[sid].active || Revokes(cfg, w, op, sid))
  {
  }

  /** A session of a run is revoked if and only if some operation revoked it: nothing else ends a session. */
  lemma {:induction false} RevokedExactly(cfg: Settings, w: World, ops: seq<Op>, sid: nat)
    requires Initial(w) && sid in Run(cfg, w, ops).sessions
    ensures !Run(cfg, w, ops).sessions[sid].active <==> exists k | 0 <= k < |ops| :: RevokedAt(cfg, w, ops, sid, k)
  {
    var last := |ops| - 1;
    var front := ops[..last];
    var before := Run(cfg, w, front);
    RunWellFormed(cfg, w, front);
    forall k | 0 <= k < last ensures RevokedAt(cfg, w, ops, sid, k) <==> RevokedAt(cfg, w, front, sid, k) {
      assert front[..k] == ops[..k];
    }
    assert RevokedAt(cfg, w, ops, sid, last) <==> Revokes(cfg, before, ops[last], sid);
    if sid in before.sessions {
      RevokedExactly(cfg, w, front, sid);
      hide RevokedAt, Step, WellFormed;
      StepRevokes(cfg, before, ops[last], sid);
    } else {
      LoginStartsChain(cfg, before, ops[last]);
      forall k | 0 <= k < last ensures !RevokedAt(cfg, w, ops, sid, k) {
        assert ops[..k] + ops[k..last] == front;
        if sid in Run(cfg, w, ops[..k]).sessions {
          RunSession(cfg, w, ops[..k], ops[k..last], sid);
        }
      }
    }
  }

  /** Once a session is revoked, or its absolute expiry has passed, no refresh with any of its
      tokens ever succeeds again, whatever happens in between. */
  lemma DeadForGood(cfg: Settings, w: World, ops: seq<Op>, more: seq<Op>, op: Op, sid: nat)
    requires Initial(w) && sid in Run(cfg, w, ops).sessions
    requires var w' := Run(cfg, w, ops); !w'.sessions[sid].active || w'.sessions[sid].absolute <= w'.now
    requires op.Refresh? && op.cookie.Some?
    requires var w'' := Run(cfg, w, ops + more);
      op.cookie.value.token in w''.tokens && w''.tokens[op.cookie.value.token].session == sid
    ensures Step(cfg, Run(cfg, w, ops + more), op) == (Run(cfg, w, ops + more), Invalid)
  {
    RunSession(cfg, w, ops, more, sid);
    hide Run;
  }

  /** A token that was rotated is never rotated again: tokens are single-use in every run. */
  lemma SingleUse(cfg: Settings, w: World, ops: seq<Op>, first: Op, more: seq<Op>, second: Op)
    requires Initial(w)
    requires first.Refresh? && second.Refresh? && first.cookie.Some? && second.cookie.Some?
    requires first.cookie.value.token == second.cookie.value.token
    requires Step(cfg, Run(cfg, w, ops), first).1.Rotated?
    ensures !Step(cfg, Run(cfg, w, ops + [first] + more), second).1.Rotated?
  {
    var token := first.cookie.value.token;
    assert (ops + [first])[..|ops|] == ops;
    RunWellFormed(cfg, w, ops);
    assert token in Run(cfg, w, ops + [first]).tokens && Run(cfg, w, ops + [first]).tokens[token].usedAt.Some?;
    UsedStaysUsed(cfg, w, ops + [first], more, token);
  }

  lemma StepToken(cfg: Settings, w: World, op: Op, id: nat)
    requires WellFormed(w) && id in w.tokens
    ensures var w' := Step(cfg, w, op).0;
      && id in w'.tokens && w'.tokens[id].session == w.tokens[id].session
      && w'.tokens[id].hash == w.tokens[id].hash && w'.tokens[id].expires == w.tokens[id].expires
      && (w'.tokens[id].usedAt.Some? <==>
            || w.tokens[id].usedAt.Some?
            || (op.Refresh? && op.cookie.Some? && op.cookie.value.token == id && Step(cfg, w, op).1.Rotated?))
      && (w.tokens[id].usedAt.Some? ==> w'.tokens[id].usedAt == w.tokens[id].usedAt)
  {
  }

  lemma {:induction false} UsedStaysUsed(cfg: Settings, w: World, ops: seq<Op>, more: seq<Op>, token: nat)
    requires Initial(w) && token in Run(cfg, w, ops).tokens && Run(cfg, w, ops).tokens[token].usedAt.Some?
    ensures token in Run(cfg, w, ops + more).tokens
    ensures Run(cfg, w, ops + more).tokens[token].usedAt == Run(cfg, w, ops).tokens[token].usedAt
  {
    if more == [] {
      assert ops + more == ops;
    } else {
      var front := more[..|more| - 1];
      assert (ops + more)[..|ops + more| - 1] == ops + front;
      UsedStaysUsed(cfg, w, ops, front, token);
      RunWellFormed(cfg, w, ops + front);
      hide Step, WellFormed;
      StepToken(cfg, Run(cfg, w, ops + front), more[|more| - 1], token);
    }
  }

  // ---------------------------------------------------------------- what a grant is worth

  /** Operation `k` rotates the token. */
  predicate SpentAt(cfg: Settings, w: World, ops: seq<Op>, k: nat, id: nat)
    requires k < |ops|
  {
    ops[k].Refresh? && ops[k].cookie.Some? && ops[k].cookie.value.token == id
    && Step(cfg, Run(cfg, w, ops[..k]), ops[k]).1.Rotated?
  }

  /** A token keeps its session, hash and expiry, and is used exactly once it was rotated. */
  lemma {:induction false} TokenKept(cfg: Settings, w: World, ops: seq<Op>, more: seq<Op>, id: nat)
    requires Initial(w) && id in Run(cfg, w, ops).tokens
    ensures id in Run(cfg, w, ops + more).tokens
    ensures var t, t' := Run(cfg, w, ops).tokens[id], Run(cfg, w, ops + more).tokens[id];
      && t'.session == t.session && t'.hash == t.hash && t'.expires == t.expires
      && (t'.usedAt.Some? <==>
            t.usedAt.Some? || exists k | |ops| <= k < |ops + more| :: SpentAt(cfg, w, ops + more, k, id))
  {
    if more == [] {
      assert ops + more == ops;
    } else {
      var last := |more| - 1;
      var front := more[..last];
      assert (ops + more)[..|ops + more| - 1] == ops + front;
      forall k | |ops| <= k < |ops + front|
        ensures SpentAt(cfg, w, ops + more, k, id) <==> SpentAt(cfg, w, ops + front, k, id)
      {
        assert (ops + more)[..k] == (ops + front)[..k];
      }
      TokenKept(cfg, w, ops, front, id);
      RunWellFormed(cfg, w, ops + front);
      hide Step, WellFormed;
      StepToken(cfg, Run(cfg, w, ops + front), more[last], id);
      assert SpentAt(cfg, w, ops + more, |ops| + last, id) <==>
        more[last].Refresh? && more[last].cookie.Some? && more[last].cookie.value.token == id
        && Step(cfg, Run(cfg, w, ops + front), more[last]).1.Rotated?;
    }
  }

  /** An unused token that is in the table once is good for a rotation for as long as it says, and
      no longer: until it is rotated, its session or user ends, or its expiry comes. */
  lemma CookieWorks(cfg: Settings, w: World, ops: seq<Op>, more: seq<Op>, id: nat, next: Op)
    requires Initial(w) && id in Run(cfg, w, ops).tokens && Run(cfg, w, ops).tokens[id].usedAt.None?
    requires next.Refresh? && next.cookie.Some? && next.cookie.value.token == id
    ensures var t, w' := Run(cfg, w, ops).tokens[id], Run(cfg, w, ops + more);
      && t.session in w'.sessions
      && (Step(cfg, w', next).1.Rotated? <==>
            && cfg.digest(next.cookie.value.secret) == t.hash && w'.now < t.expires
            && w'.sessions[t.session].active
            && w'.sessions[t.session].user in w'.users && w'.users[w'.sessions[t.session].user].active
            && !exists k | |ops| <= k < |ops + more| :: SpentAt(cfg, w, ops + more, k, id))
  {
    var w' := Run(cfg, w, ops + more);
    var sid := Run(cfg, w, ops).tokens[id].session;
    TokenKept(cfg, w, ops, more, id);
    RunWellFormed(cfg, w, ops + more);
    assert id in w'.tokens && w'.tokens[id].session in w'.sessions;
    var chain := RunHasChains(cfg, w, ops + more, sid);
    hide Run, Step, SpentAt;
    assert id in chain;
    UnusedIsLast(cfg, w', sid, chain, id);
    RotatesExactly(cfg, w', next, sid, chain);
  }

  /** What a rotation grants: with the new id and secret the session can be refreshed again at every
      moment before the smaller of the idle time from now and the session's absolute expiry. */
  lemma RotationGrants(cfg: Settings, w: World, ops: seq<Op>, op: Op, more: seq<Op>, next: Op)
    requires Initial(w) && op.Refresh? && next.Refresh? && op.cookie.Some?
    requires Step(cfg, Run(cfg, w, ops), op).1.Rotated?
    requires next.cookie == Some(Cookie(Step(cfg, Run(cfg, w, ops), op).1.token, op.secret))
    ensures var w0, w' := Run(cfg, w, ops), Run(cfg, w, ops + [op] + more);
      && op.cookie.value.token in w0.tokens && w0.tokens[op.cookie.value.token].session in w0.sessions
      && var sid := w0.tokens[op.cookie.value.token].session;
      && sid in w'.sessions
      && (Step(cfg, w', next).1.Rotated? <==>
            && w'.now < w0.now + cfg.idleTtl && w'.now < w0.sessions[sid].absolute
            && w'.sessions[sid].active
            && w'.sessions[sid].user in w'.users && w'.users[w'.sessions[sid].user].active
            && !exists k | |ops| < k < |ops + [op] + more| ::
                 SpentAt(cfg, w, ops + [op] + more, k, next.cookie.value.token))
  {
    assert (ops + [op])[..|ops|] == ops;
    RunWellFormed(cfg, w, ops);
    var w1 := Run(cfg, w, ops + [op]);
    assert w1 == Step(cfg, Run(cfg, w, ops), op).0;
    hide SpentAt;
    CookieWorks(cfg, w, ops + [op], more, next.cookie.value.token, next);
  }

  /** What a login grants, likewise. */
  lemma LoginGrants(cfg: Settings, w: World, ops: seq<Op>, op: Op, more: seq<Op>, next: Op)
    requires Initial(w) && op.Login? && next.Refresh?
    requires Step(cfg, Run(cfg, w, ops), op).1.Issued?
    requires next.cookie == Some(Cookie(Step(cfg, Run(cfg, w, ops), op).1.token, op.secret))
    ensures var w0, w' := Run(cfg, w, ops), Run(cfg, w, ops + [op] + more);
      && var sid := Step(cfg, w0, op).1.session;
      && sid in w'.sessions
      && (Step(cfg, w', next).1.Rotated? <==>
            && w'.now < w0.now + cfg.idleTtl && w'.now < w0.now + cfg.absoluteTtl
            && w'.sessions[sid].active
            && w'.sessions[sid].user in w'.users && w'.users[w'.sessions[sid].user].active
            && !exists k | |ops| < k < |ops + [op] + more| ::
                 SpentAt(cfg, w, ops + [op] + more, k, next.cookie.value.token))
  {
    assert (ops + [op])[..|ops|] == ops;
    RunWellFormed(cfg, w, ops);
    var w1 := Run(cfg, w, ops + [op]);
    assert w1 == Step(cfg, Run(cfg, w, ops), op).0;
    hide SpentAt;
    CookieWorks(cfg, w, ops + [op], more, next.cookie.value.token, next);
  }

  // ---------------------------------------------------------------- the service

  /** The three tables with the methods of the service; each method is one committed transaction. */
  class AuthService {
    const cfg: Settings
    var users: map<string, User>
    var sessions: map<nat, Session>
    var tokens: map<nat, Token>
    var now: int
    var nextId: nat
    ghost const start: World
    ghost var ops: seq<Op>

    ghost function View(): World
      reads this
    {
      World(users, sessions, tokens, now, nextId)
    }

    ghost predicate Valid()
      reads this
    {
      Initial(start) && View() == Run(cfg, start, ops)
    }

    constructor (cfg: Settings, users: map<string, User>, now: int)
      ensures Valid() && this.cfg == cfg && ops == []
    {
      this.cfg, this.users, this.now := cfg, users, now;
      sessions, tokens, nextId, ops := map[], map[], 0, [];
      start := World(users, map[], map[], now, 0);
    }

    ghost method Record(op: Op)
      requires Initial(start) && View() == Step(cfg, Run(cfg, start, ops), op).0
      modifies this`ops
      ensures Valid() && ops == old(ops) + [op]
    {
      assert (ops + [op])[..|ops|] == ops;
      ops := ops + [op];
    }

    method LogIn(user: string, agent: string, secret: string) returns (reply: Reply)
      requires Valid()
      modifies this
      ensures Valid() && ops == old(ops) + [Login(user, agent, secret)]
      ensures (View(), reply) == Step(cfg, old(View()), Login(user, agent, secret))
      ensures users == old(users) && now == old(now)
      ensures reply.Issued? <==> user in users && users[user].active
      ensures !reply.Issued? ==> reply == Invalid && sessions == old(sessions) && tokens == old(tokens)
      ensures reply.Issued? ==>
        && reply.session !in old(sessions) && reply.token !in old(tokens)
        && var idle := if cfg.idleTtl <= cfg.absoluteTtl then now + cfg.idleTtl else now + cfg.absoluteTtl;
        && sessions == old(sessions)[reply.session := Session(user, true, idle, now + cfg.absoluteTtl,
             if agent == "" then None else Some(cfg.digest(agent)), None)]
        && tokens == old(tokens)[reply.token := Token(reply.session, cfg.digest(secret), None, None, None, idle, None,
             None)]
    {
      RunWellFormed(cfg, start, ops);
      hide Run;
      reply := Create(user, agent, secret);
      Record(Login(user, agent, secret));
    }

    /** `login` past the password check, with `_create_session_result` */
    method Create(user: string, agent: string, secret: string) returns (reply: Reply)
      modifies this`sessions, this`tokens, this`nextId
      ensures (View(), reply) == LoginStep(cfg, old(View()), user, agent, secret)
    {
      if user in users && users[user].active {
        var absolute := now + cfg.absoluteTtl;
        var idle := Min(now + cfg.idleTtl, absolute);
        var session := nextId;
        sessions := sessions[session := Session(user, true, idle, absolute, AgentHash(cfg, agent), None)];
        var token := nextId + 1;
        tokens := tokens[token := Token(session, cfg.digest(secret), None, None, None, idle, None, None)];
        nextId := nextId + 2;
        reply := Issued(session, token);
      } else {
        reply := Invalid;
      }
    }

    method RevokeSessions(ids: set<nat>)
      modifies this`sessions, this`tokens
      ensures View() == Revoke(old(View()), ids)
    {
      sessions := map s | s in sessions :: if s in ids then sessions[s].(active := false) else sessions[s];
      tokens := map t | t in tokens ::
        if tokens[t].session in ids && tokens[t].revokedAt.None? then tokens[t].(revokedAt := Some(now)) else tokens[t];
    }

    /** `refresh` */
    method Rotation(cookie: Option<Cookie>, agent: string, secret: string) returns (reply: Reply)
      requires Valid()
      modifies this
      ensures Valid() && ops == old(ops) + [Refresh(cookie, agent, secret)]
      ensures (View(), reply) == Step(cfg, old(View()), Refresh(cookie, agent, secret))
      ensures users == old(users) && now == old(now)
      ensures reply.Rotated? <==>
        && cookie.Some? && cookie.value.token in old(tokens)
        && var t := old(tokens)[cookie.value.token];
        && t.hash == cfg.digest(cookie.value.secret)
        && t.usedAt.None? && t.revokedAt.None? && now < t.expires
        && t.session in old(sessions)
        && var s := old(sessions)[t.session];
        && s.active && now < s.idle && now < s.absolute && s.user in users && users[s.user].active
      ensures reply.Rotated? ==>
        && reply.token !in old(tokens)
        && var id := cookie.value.token;
        && var t := old(tokens)[id];
        && var s := old(sessions)[t.session];
        && var expiry := if now + cfg.idleTtl <= s.absolute then now + cfg.idleTtl else s.absolute;
        && sessions == old(sessions)[t.session := s.(idle := expiry, lastSeen := Some(now))]
        && tokens == old(tokens)[id := t.(usedAt := Some(now), replacedBy := Some(reply.token))]
             [reply.token := Token(t.session, cfg.digest(secret), Some(id), None, None, expiry, None, None)]
      ensures reply == Race <==>
        && cookie.Some? && cookie.value.token in old(tokens)
        && var t := old(tokens)[cookie.value.token];
        && t.hash == cfg.digest(cookie.value.secret)
        && t.usedAt.Some? && now - t.usedAt.value <= cfg.grace && t.revokedAt.None? && now < t.expires
        && t.session in old(sessions)
        && var s := old(sessions)[t.session];
        && s.active && now < s.idle && now < s.absolute
        && s.agent == if agent == "" then None else Some(cfg.digest(agent))
      ensures reply.Rotated? || reply == Race || reply == Invalid
      ensures !reply.Rotated? && (sessions != old(sessions) || tokens != old(tokens)) <==>
        && reply == Invalid && cookie.Some? && cookie.value.token in old(tokens)
        && var t := old(tokens)[cookie.value.token];
        && t.hash == cfg.digest(cookie.value.secret)
        && t.usedAt.Some? && t.revokedAt.None? && now < t.expires
        && t.session in old(sessions)
        && var s := old(sessions)[t.session];
        && s.active && now < s.idle && now < s.absolute
      ensures !reply.Rotated? && (sessions != old(sessions) || tokens != old(tokens)) ==>
        && var id := cookie.value.token;
        && var sid := old(tokens)[id].session;
        && sessions == old(sessions)[sid := old(sessions)[sid].(active := false)]
        && tokens.Keys == old(tokens).Keys
        && forall k | k in tokens ::
             tokens[k] == old(tokens)[k].(
               reuseAt := if k == id then Some(now) else old(tokens)[k].reuseAt,
               revokedAt := if old(tokens)[k].session == sid && old(tokens)[k].revokedAt.None? then Some(now)
                            else old(tokens)[k].revokedAt)
    {
      RunWellFormed(cfg, start, ops);
      hide Run;
      reply := Present(cookie, agent, secret);
      Record(Refresh(cookie, agent, secret));
    }

    method Present(cookie: Option<Cookie>, agent: string, secret: string) returns (reply: Reply)
      requires WellFormed(View())
      modifies this
      ensures (View(), reply) == RefreshStep(cfg, old(View()), cookie, agent, secret)
      ensures ops == old(ops)
    {
      if cookie.None? {
        return Invalid;
      }
      var id := cookie.value.token;
      if id !in tokens || cfg.digest(cookie.value.secret) != tokens[id].hash {
        return Invalid;
      }
      var token := tokens[id];
      var session := sessions[token.session];
      if !session.active || token.revokedAt.Some? || token.expires <= now || session.idle <= now
         || session.absolute <= now {
        return Invalid;
      }
      if token.usedAt.Some? {
        var age := now - token.usedAt.value;
        if age <= cfg.grace && AgentHash(cfg, agent) == session.agent {
          return Race;
        }
        tokens := tokens[id := token.(reuseAt := Some(now))];
        RevokeSessions({token.session});
        return Invalid;
      }
      if session.user !in users || !users[session.user].active {
        return Invalid;
      }
      var replacement := nextId;
      nextId := nextId + 1;
      var refreshedExpiry := Min(now + cfg.idleTtl, session.absolute);
      var rotated := Token(token.session, cfg.digest(secret), Some(id), None, None, refreshedExpiry, None, None);
      tokens := tokens[replacement := rotated];
      tokens := tokens[id := token.(usedAt := Some(now), replacedBy := Some(replacement))];
      sessions := sessions[token.session := session.(lastSeen := Some(now), idle := refreshedExpiry)];
      return Rotated(replacement);
    }

    method LogOut(session: nat)
      requires Valid()
      modifies this
      ensures Valid() && ops == old(ops) + [Logout(session)]
      ensures View() == Step(cfg, old(View()), Logout(session)).0
      ensures users == old(users) && now == old(now) && nextId == old(nextId)
      ensures sessions.Keys == old(sessions).Keys && tokens.Keys == old(tokens).Keys
      ensures forall s | s in sessions ::
        sessions[s] == old(sessions)[s].(active := old(sessions)[s].active && s != session)
      ensures forall t | t in tokens ::
        tokens[t] == old(tokens)[t].(
          revokedAt := if old(tokens)[t].session == session && old(tokens)[t].revokedAt.None? then Some(now)
                       else old(tokens)[t].revokedAt)
    {
      RevokeSessions({session});
      Record(Logout(session));
    }

    method LogOutAll(user: string)
      requires Valid()
      modifies this
      ensures Valid() && ops == old(ops) + [LogoutAll(user)]
      ensures View() == Step(cfg, old(View()), LogoutAll(user)).0
      ensures now == old(now) && nextId == old(nextId)
      ensures !(user in old(users) && old(users)[user].active) ==>
        users == old(users) && sessions == old(sessions) && tokens == old(tokens)
      ensures user in old(users) && old(users)[user].active ==>
        && users == old(users)[user := User(true, old(users)[user].tokenVersion + 1)]
        && sessions.Keys == old(sessions).Keys && tokens.Keys == old(tokens).Keys
        && (forall s | s in sessions ::
              sessions[s] == old(sessions)[s].(active := old(sessions)[s].active && old(sessions)[s].user != user))
        && forall t | t in tokens ::
             && tokens[t].session in sessions
             && var ended := old(sessions)[tokens[t].session].active && !sessions[tokens[t].session].active;
             tokens[t] == old(tokens)[t].(
               revokedAt := if ended && old(tokens)[t].revokedAt.None? then Some(now) else old(tokens)[t].revokedAt)
    {
      RunWellFormed(cfg, start, ops);
      if user in users && users[user].active {
        users := users[user := users[user].(tokenVersion := users[user].tokenVersion + 1)];
        RevokeSessions(set s | s in sessions && sessions[s].user == user && sessions[s].active);
      }
      Record(LogoutAll(user));
    }

    method Wait(seconds: nat)
      requires Valid()
      modifies this
      ensures Valid() && ops == old(ops) + [Tick(seconds)] && View() == old(View()).(now := old(now) + seconds)
    {
      now := now + seconds;
      Record(Tick(seconds));
    }
  }
}
