/** Assessment submission as a leased, fenced protocol: workers claim an attempt under a fresh
    token, and only the holder of the latest token may finalise or fail it, however the steps of
    different workers and the clock interleave. */
module AssessmentLease {
  import opened Prelude

  /** The unique index of the attempts table. */
  datatype Key = Key(assessment: string, user: string, request: string)

  datatype Status = Active | Grading | Failed | Graded | ReviewRequired | Submitted
  datatype Assessment = Assessment(user: string, status: Status, score: Option<int>)
  datatype Response = Response(key: Key, review: bool, score: int)

  datatype Attempt = Attempt(
    hash: string, status: Status, token: Option<nat>, lease: Option<int>, count: nat, response: Option<Response>)

  /** Both limits are at least 1. */
  type Positive = n: nat | n >= 1 witness 1
  datatype Config = Config(leaseSeconds: Positive, maxAttempts: Positive)

  datatype State = State(assessments: map<string, Assessment>, attempts: map<Key, Attempt>, now: int, nextToken: nat)

  /** `pick` is the attempt the query for a grading attempt of the assessment happens to return.
      Finalise and fail carry whatever claim the worker holds, however old. */
  datatype Op =
    | SetClock(now: int)
    | Claim(key: Key, hash: string, pick: Option<Key>)
    | Finalize(key: Key, token: nat, contextHash: string, review: bool, score: int)
    | Fail(key: Key, token: nat)

  datatype Reply =
    | Claimed(token: nat)
    | Replayed(response: Response)
    | Finalized(response: Response)
    | FailedClaim
    | NotFound
    | Conflict
    | InProgress
    | Exhausted
    | AlreadySubmitted
    | LeaseLost
    | Ignored

  predicate Final(status: Status) {
    status in {Graded, ReviewRequired}
  }

  predicate LeaseExpired(lease: Option<int>, now: int) {
    lease.None? || lease.value <= now
  }

  predicate HeldBy(s: State, key: Key, token: nat) {
    && key in s.attempts && key.assessment in s.assessments
    && s.attempts[key].status == Grading && s.attempts[key].token == Some(token)
  }

  /** The attempt exists, carries the same payload and is neither answered nor leased to anybody. */
  predicate Reclaims(s: State, key: Key, hash: string) {
    && key.assessment in s.assessments && s.assessments[key.assessment].user == key.user
    && key in s.attempts && s.attempts[key].hash == hash
    && !(Final(s.attempts[key].status) && s.attempts[key].response.Some?)
    && !(s.attempts[key].status == Grading && !LeaseExpired(s.attempts[key].lease, s.now))
  }

  function SetStatus(s: State, assessment: string, status: Status): State
    requires assessment in s.assessments
  {
    s.(assessments := s.assessments[assessment := s.assessments[assessment].(status := status)])
  }

  /** The branch for a known request id. */
  function ClaimKnown(cfg: Config, s: State, key: Key, hash: string): (State, Reply)
    requires key in s.attempts && key.assessment in s.assessments
  {
    var a := s.attempts[key];
    if a.hash != hash then (s, Conflict)
    else if Final(a.status) && a.response.Some? then (s, Replayed(a.response.value))
    else if a.status == Grading && !LeaseExpired(a.lease, s.now) then (s, InProgress)
    else if a.count >= cfg.maxAttempts then
      (SetStatus(s, key.assessment, Active).(attempts := s.attempts[key := a.(status := Failed)]), Exhausted)
    else
      (SetStatus(s, key.assessment, Grading).(
         attempts := s.attempts[key := a.(status := Grading, token := Some(s.nextToken),
                                          lease := Some(s.now + cfg.leaseSeconds), count := a.count + 1)],
         nextToken := s.nextToken + 1),
       Claimed(s.nextToken))
  }

  /** The branch for a new request id. */
  function ClaimNew(cfg: Config, s: State, key: Key, hash: string, pick: Option<Key>): (State, Reply)
    requires key.assessment in s.assessments
  {
    var assessment := s.assessments[key.assessment];
    if assessment.status in {Graded, ReviewRequired, Submitted} then (s, AlreadySubmitted)
    else if pick.Some? && pick.value in s.attempts && s.attempts[pick.value].status == Grading
            && !LeaseExpired(s.attempts[pick.value].lease, s.now) then (s, InProgress)
    else if assessment.status != Active then (s, AlreadySubmitted)
    else
      (SetStatus(s, key.assessment, Grading).(
         attempts :=
           s.attempts[key := Attempt(hash, Grading, Some(s.nextToken), Some(s.now + cfg.leaseSeconds), 1, None)],
         nextToken := s.nextToken + 1),
       Claimed(s.nextToken))
  }

  /** One locked transaction. */
  function Step(cfg: Config, s: State, op: Op): (State, Reply) {
    match op
    case SetClock(now) => (s.(now := now), Ignored)
    case Claim(key, hash, pick) =>
      if key.assessment !in s.assessments || s.assessments[key.assessment].user != key.user then (s, NotFound)
      else if key in s.attempts then ClaimKnown(cfg, s, key, hash)
      else ClaimNew(cfg, s, key, hash, pick)
    case Finalize(key, token, contextHash, review, score) =>
      if !HeldBy(s, key, token) then (s, LeaseLost)
      else if s.attempts[key].hash != contextHash then (s, Conflict)
      else
        var response := Response(key, review, score);
        var status := if review then ReviewRequired else Graded;
        (s.(assessments :=
             s.assessments[key.assessment := s.assessments[key.assessment].(status := status, score := Some(score))],
            attempts := s.attempts[key := s.attempts[key].(status := status, token := None, lease := None,
                                                           response := Some(response))]),
         Finalized(response))
    case Fail(key, token) =>
      if HeldBy(s, key, token) then
        (SetStatus(s, key.assessment, Active).(
           attempts := s.attempts[key := s.attempts[key].(status := Failed, token := None, lease := None)]),
         FailedClaim)
      else (s, Ignored)
  }

  /** The query for a grading attempt returns one of them if there is one. */
  ghost predicate LegalPick(s: State, op: Op) {
    op.Claim? ==>
      match op.pick
      case Some(k) => k in s.attempts && k.assessment == op.key.assessment && s.attempts[k].status == Grading
      case None => forall k | k in s.attempts && k.assessment == op.key.assessment :: s.attempts[k].status != Grading
  }

  /** The history: every transaction with its reply. */
  datatype Entry = Entry(op: Op, reply: Reply)
  type Log = seq<Entry>

  function Run(cfg: Config, s: State, ops: seq<Op>): (State, Log) {
    if ops == [] then (s, []) else
      var (s', log) := Run(cfg, s, ops[..|ops| - 1]);
      var op := ops[|ops| - 1];
      var (s'', reply) := Step(cfg, s', op);
      (s'', log + [Entry(op, reply)])
  }

  predicate Issues(e: Entry, key: Key) {
    e.op.Claim? && e.op.key == key && e.reply.Claimed?
  }

  predicate Finalizes(e: Entry, key: Key) {
    e.op.Finalize? && e.op.key == key && e.reply.Finalized?
  }

  /** The tokens handed out for an attempt, oldest first. */
  function Tokens(log: Log, key: Key): seq<nat> {
    if log == [] then [] else
      var last := log[|log| - 1];
      Tokens(log[..|log| - 1], key) + if Issues(last, key) then [last.reply.token] else []
  }

  /** The finalisations of an attempt, oldest first. */
  function Finals(log: Log, key: Key): seq<(nat, Response)> {
    if log == [] then [] else
      var last := log[|log| - 1];
      Finals(log[..|log| - 1], key) + if Finalizes(last, key) then [(last.op.token, last.reply.response)] else []
  }

  /** What the row of an attempt says about its history. */
  ghost predicate RowOk(cfg: Config, s: State, log: Log, key: Key) {
    var tokens, finals := Tokens(log, key), Finals(log, key);
    && (forall i | 0 <= i < |tokens| :: tokens[i] < s.nextToken)
    && (forall i, j | 0 <= i < j < |tokens| :: tokens[i] < tokens[j])
    && (key !in s.attempts ==> tokens == [] && finals == [])
    && (key in s.attempts ==>
          var a := s.attempts[key];
          && key.assessment in s.assessments
          && 1 <= a.count == |tokens| && a.count <= cfg.maxAttempts
          && a.status in {Grading, Failed, Graded, ReviewRequired}
          && (a.token.Some? ==> a.token.value == tokens[|tokens| - 1])
          && (a.status == Grading ==> a.token.Some?)
          && (if Final(a.status) then
                && a.token.None?
                && |finals| == 1 && finals[0].0 == tokens[|tokens| - 1]
                && a.response == Some(finals[0].1)
              else a.response.None? && finals == []))
  }

  lemma LogStep(log: Log, e: Entry, key: Key)
    ensures Tokens(log + [e], key) == Tokens(log, key) + if Issues(e, key) then [e.reply.token] else []
    ensures Finals(log + [e], key) ==
      Finals(log, key) + if Finalizes(e, key) then [(e.op.token, e.reply.response)] else []
  {
    assert (log + [e])[..|log|] == log;
  }

  /** An operation leaves the row and the history of every other attempt alone. */
  lemma OthersUntouched(cfg: Config, s: State, op: Op, key: Key)
    requires op.SetClock? || op.key != key
    ensures var s' := Step(cfg, s, op).0;
      && (key in s'.attempts <==> key in s.attempts) && (key in s.attempts ==> s'.attempts[key] == s.attempts[key])
      && s.nextToken <= s'.nextToken && s'.assessments.Keys == s.assessments.Keys
  {
  }

  lemma KnownRowOk(cfg: Config, s: State, log: Log, op: Op)
    requires op.Claim? && op.key in s.attempts && RowOk(cfg, s, log, op.key)
    ensures RowOk(cfg, Step(cfg, s, op).0, log + [Entry(op, Step(cfg, s, op).1)], op.key)
  {
    LogStep(log, Entry(op, Step(cfg, s, op).1), op.key);
    hide Tokens, Finals, HeldBy, LeaseExpired, ClaimNew;
  }

  lemma NewRowOk(cfg: Config, s: State, log: Log, op: Op)
    requires op.Claim? && op.key !in s.attempts && RowOk(cfg, s, log, op.key)
    ensures RowOk(cfg, Step(cfg, s, op).0, log + [Entry(op, Step(cfg, s, op).1)], op.key)
  {
    LogStep(log, Entry(op, Step(cfg, s, op).1), op.key);
    hide Tokens, Finals, HeldBy, LeaseExpired, ClaimKnown;
  }

  lemma EndRowOk(cfg: Config, s: State, log: Log, op: Op)
    requires (op.Finalize? || op.Fail?) && RowOk(cfg, s, log, op.key)
    ensures RowOk(cfg, Step(cfg, s, op).0, log + [Entry(op, Step(cfg, s, op).1)], op.key)
  {
    LogStep(log, Entry(op, Step(cfg, s, op).1), op.key);
    hide Tokens, Finals, ClaimKnown, ClaimNew;
  }

  lemma OtherRowOk(cfg: Config, s: State, log: Log, op: Op, key: Key)
    requires (op.SetClock? || op.key != key) && RowOk(cfg, s, log, key)
    ensures RowOk(cfg, Step(cfg, s, op).0, log + [Entry(op, Step(cfg, s, op).1)], key)
  {
    hide Step, Tokens, Finals;
    LogStep(log, Entry(op, Step(cfg, s, op).1), key);
    OthersUntouched(cfg, s, op, key);
  }

  lemma StepRowOk(cfg: Config, s: State, log: Log, op: Op, key: Key)
    requires RowOk(cfg, s, log, key)
    ensures RowOk(cfg, Step(cfg, s, op).0, log + [Entry(op, Step(cfg, s, op).1)], key)
  {
    hide Step, RowOk;
    if op.SetClock? || op.key != key {
      OtherRowOk(cfg, s, log, op, key);
    } else {
      if op.Claim? {
        if op.key in s.attempts {
          KnownRowOk(cfg, s, log, op);
        } else {
          NewRowOk(cfg, s, log, op);
        }
      } else {
        EndRowOk(cfg, s, log, op);
      }
    }
  }

  /** Before any submission. */
  predicate Initial(s: State) {
    s.attempts == map[]
  }

  /** Under every interleaving each attempt's row agrees with its history. */
  lemma {:induction false} RunRowOk(cfg: Config, s: State, ops: seq<Op>, key: Key)
    requires Initial(s)
    ensures RowOk(cfg, Run(cfg, s, ops).0, Run(cfg, s, ops).1, key)
  {
    if ops != [] {
      var last := |ops| - 1;
      RunRowOk(cfg, s, ops[..last], key);
      hide Run, Step, RowOk;
      var (before, log) := Run(cfg, s, ops[..last]);
      StepRowOk(cfg, before, log, ops[last], key);
    }
  }

  lemma {:induction false} FinalsHold(log: Log, key: Key, i: nat)
    requires i < |log| && Finalizes(log[i], key)
    ensures (log[i].op.token, log[i].reply.response) in Finals(log, key)
  {
    if i < |log| - 1 {
      FinalsHold(log[..|log| - 1], key, i);
    }
  }

  lemma {:induction false} FinalsOrdered(log: Log, key: Key, i: nat, j: nat)
    requires i < j < |log| && Finalizes(log[i], key) && Finalizes(log[j], key)
    ensures |Finals(log, key)| >= 2
  {
    if j < |log| - 1 {
      FinalsOrdered(log[..|log| - 1], key, i, j);
    } else {
      FinalsHold(log[..|log| - 1], key, i);
    }
  }

  /** An attempt is finalised at most once, in every run. */
  lemma FinalisedAtMostOnce(cfg: Config, s: State, ops: seq<Op>, key: Key, i: nat, j: nat)
    requires Initial(s)
    requires var log := Run(cfg, s, ops).1; i < |log| && j < |log| && Finalizes(log[i], key) && Finalizes(log[j], key)
    ensures i == j
  {
    RunRowOk(cfg, s, ops, key);
    hide Run;
    var log := Run(cfg, s, ops).1;
    if i < j {
      FinalsOrdered(log, key, i, j);
    } else if j < i {
      FinalsOrdered(log, key, j, i);
    }
  }

  /** ... and by the holder of the last token that is ever issued for it. */
  lemma FinalisedByLatest(cfg: Config, s: State, ops: seq<Op>, key: Key, i: nat)
    requires Initial(s)
    requires var log := Run(cfg, s, ops).1; i < |log| && Finalizes(log[i], key)
    ensures var log := Run(cfg, s, ops).1;
      var tokens := Tokens(log, key);
      tokens != [] && log[i].op.token == tokens[|tokens| - 1]
  {
    RunRowOk(cfg, s, ops, key);
    hide Run;
    FinalsHold(Run(cfg, s, ops).1, key, i);
  }

  /** A stale worker changes nothing: with any token but the latest one issued for the attempt,
      neither finalising nor failing has an effect. */
  lemma StaleWorkersAreFenced(cfg: Config, s: State, log: Log, op: Op)
    requires (op.Finalize? || op.Fail?) && RowOk(cfg, s, log, op.key)
    requires var tokens := Tokens(log, op.key); tokens == [] || op.token != tokens[|tokens| - 1]
    ensures Step(cfg, s, op) == (s, if op.Finalize? then LeaseLost else Ignored)
  {
    hide Tokens, Finals;
  }

  /** A finalised attempt answers every further submission from its stored response (or reports a
      payload conflict) without any change, and no other operation touches it. */
  lemma FinalisedNeverChanges(cfg: Config, s: State, log: Log, op: Op, key: Key)
    requires RowOk(cfg, s, log, key) && key in s.attempts && Final(s.attempts[key].status)
    ensures key in Step(cfg, s, op).0.attempts && Step(cfg, s, op).0.attempts[key] == s.attempts[key]
    ensures op.Claim? && op.key == key && s.assessments[key.assessment].user == key.user ==>
      Step(cfg, s, op) == (s, if op.hash == s.attempts[key].hash then Replayed(Finals(log, key)[0].1) else Conflict)
  {
    hide Tokens, Finals;
  }

  lemma {:induction false} FinalisedForGood(cfg: Config, s: State, ops: seq<Op>, more: seq<Op>, key: Key)
    requires Initial(s)
    requires var s' := Run(cfg, s, ops).0; key in s'.attempts && Final(s'.attempts[key].status)
    ensures var s', s'' := Run(cfg, s, ops).0, Run(cfg, s, ops + more).0;
      key in s''.attempts && s''.attempts[key] == s'.attempts[key]
  {
    if more == [] {
      assert ops + more == ops;
    } else {
      var front := more[..|more| - 1];
      assert (ops + more)[..|ops + more| - 1] == ops + front;
      FinalisedForGood(cfg, s, ops, front, key);
      RunRowOk(cfg, s, ops + front, key);
      hide Run, Step, RowOk;
      FinalisedNeverChanges(cfg, Run(cfg, s, ops + front).0, Run(cfg, s, ops + front).1, more[|more| - 1], key);
    }
  }

  /** While the lease of an attempt runs, nobody else is given a token for it; the number of
      tokens never passes the configured maximum. */
  lemma LeaseIsExclusive(cfg: Config, s: State, log: Log, op: Op)
    requires op.Claim? && RowOk(cfg, s, log, op.key) && Step(cfg, s, op).1.Claimed?
    ensures op.key in s.attempts ==>
      s.attempts[op.key].status == Failed || LeaseExpired(s.attempts[op.key].lease, s.now)
    ensures |Tokens(log, op.key)| < cfg.maxAttempts
  {
    hide Tokens, Finals;
  }

  lemma {:induction false} TokensBelow(cfg: Config, s: State, ops: seq<Op>, i: nat)
    requires i < |ops|
    ensures |Run(cfg, s, ops).1| == |ops|
    ensures Run(cfg, s, ops).1[i].reply.Claimed? ==> Run(cfg, s, ops).1[i].reply.token < Run(cfg, s, ops).0.nextToken
  {
    var last := |ops| - 1;
    if last > 0 {
      TokensBelow(cfg, s, ops[..last], if i < last then i else 0);
    } else {
      assert ops[..last] == [];
    }
  }

  /** A token is issued once in a run, to one attempt. */
  lemma {:induction false} TokensAreFresh(cfg: Config, s: State, ops: seq<Op>, i: nat, j: nat)
    requires i < j < |ops|
    ensures |Run(cfg, s, ops).1| == |ops|
    ensures var log := Run(cfg, s, ops).1;
      log[i].reply.Claimed? && log[j].reply.Claimed? ==> log[i].reply.token < log[j].reply.token
  {
    var last := |ops| - 1;
    TokensBelow(cfg, s, ops[..last], i);
    if j < last {
      TokensAreFresh(cfg, s, ops[..last], i, j);
    }
  }

  // ---------------------------------------------------------------- several attempts of one assessment

  /** The attempt is being graded or was graded. */
  predicate Occupies(s: State, key: Key) {
    key in s.attempts && (s.attempts[key].status == Grading || Final(s.attempts[key].status))
  }

  /** At most one attempt of an assessment is being graded or was graded, and none while it is open. */
  ghost predicate OneAtATime(s: State) {
    && (forall a, b | Occupies(s, a) && Occupies(s, b) && a.assessment == b.assessment :: a == b)
    && (forall a | Occupies(s, a) && a.assessment in s.assessments :: s.assessments[a.assessment].status != Active)
  }

  /** A known request is taken up again although another attempt of the assessment is being graded
      or was graded: the branch for known requests does not look. */
  ghost predicate Interferes(s: State, op: Op) {
    op.Claim? && Reclaims(s, op.key, op.hash) &&
    exists k | k != op.key && k.assessment == op.key.assessment :: Occupies(s, k)
  }

  lemma ClaimKeepsOne(cfg: Config, s: State, op: Op)
    requires OneAtATime(s) && op.Claim?
    ensures OneAtATime(Step(cfg, s, op).0) <==> !Interferes(s, op)
  {
    var s' := Step(cfg, s, op).0;
    if k :| Reclaims(s, op.key, op.hash) && k != op.key && k.assessment == op.key.assessment && Occupies(s, k) {
      assert Occupies(s', k);
      assert Occupies(s', op.key) || s'.assessments[k.assessment].status == Active;
    } else {
      forall k | k != op.key && Occupies(s', k) ensures Occupies(s, k) {
      }
    }
  }

  lemma OthersKeepOne(cfg: Config, s: State, op: Op)
    requires OneAtATime(s) && !op.Claim?
    ensures OneAtATime(Step(cfg, s, op).0)
  {
    var s' := Step(cfg, s, op).0;
    forall k | Occupies(s', k) ensures Occupies(s, k) {
    }
  }

  /** Exactly the interfering reclaims break the discipline of one attempt at a time. */
  lemma OneAtATimeUnlessInterfering(cfg: Config, s: State, op: Op)
    requires OneAtATime(s)
    ensures OneAtATime(Step(cfg, s, op).0) <==> !Interferes(s, op)
  {
    hide OneAtATime, Step;
    if op.Claim? {
      ClaimKeepsOne(cfg, s, op);
    } else {
      OthersKeepOne(cfg, s, op);
    }
  }

  ghost predicate NoInterference(cfg: Config, s: State, ops: seq<Op>) {
    forall i | 0 <= i < |ops| :: !Interferes(Run(cfg, s, ops[..i]).0, ops[i])
  }

  /** Without interference an assessment is finalised through at most one attempt. */
  lemma {:induction false} OneFinalPerAssessment(cfg: Config, s: State, ops: seq<Op>)
    requires Initial(s) && NoInterference(cfg, s, ops)
    ensures OneAtATime(Run(cfg, s, ops).0)
    ensures var s' := Run(cfg, s, ops).0;
      forall a, b | a in s'.attempts && b in s'.attempts && a.assessment == b.assessment
                    && Final(s'.attempts[a].status) && Final(s'.attempts[b].status) :: a == b
  {
    if ops != [] {
      var last := |ops| - 1;
      assert forall i | 0 <= i < last :: ops[..last][..i] == ops[..i];
      OneFinalPerAssessment(cfg, s, ops[..last]);
      assert !Interferes(Run(cfg, s, ops[..last]).0, ops[last]);
      OneAtATimeUnlessInterfering(cfg, Run(cfg, s, ops[..last]).0, ops[last]);
    }
  }

  const START := State(map["quiz" := Assessment("learner", Active, None)], map[], 0, 0)
  const FIRST := Key("quiz", "learner", "first")
  const SECOND := Key("quiz", "learner", "second")

  /** Grading of the first request fails, a second request is claimed, and while it is graded the
      first one is submitted again. */
  const RACE := [
    Claim(FIRST, "a", None), Fail(FIRST, 0), Claim(SECOND, "b", None), Claim(FIRST, "a", Some(SECOND)),
    Finalize(FIRST, 2, "a", false, 40), Finalize(SECOND, 1, "b", false, 90)]

  lemma RunStep(cfg: Config, s: State, ops: seq<Op>, n: nat)
    requires n < |ops|
    ensures Run(cfg, s, ops[..n + 1]).0 == Step(cfg, Run(cfg, s, ops[..n]).0, ops[n]).0
  {
    assert ops[..n + 1][..n] == ops[..n];
  }

  const QUIZ_BUSY := map["quiz" := Assessment("learner", Grading, None)]
  const FIRST_FAILED := Attempt("a", Failed, None, None, 1, None)
  const SECOND_CLAIMED := Attempt("b", Grading, Some(1), Some(60), 1, None)
  const HALFWAY := State(QUIZ_BUSY, map[FIRST := FIRST_FAILED, SECOND := SECOND_CLAIMED], 0, 2)

  lemma RaceFirstHalf()
    ensures Run(Config(60, 3), START, RACE[..3]).0 == HALFWAY
    ensures forall i | 0 <= i < 3 :: LegalPick(Run(Config(60, 3), START, RACE[..i]).0, RACE[i])
  {
    var cfg := Config(60, 3);
    assert RACE[..0] == [];
    RunStep(cfg, START, RACE, 0);
    RunStep(cfg, START, RACE, 1);
    RunStep(cfg, START, RACE, 2);
    assert Run(cfg, START, RACE[..0]).0 == START;
  }

  const LATE :=
    State(QUIZ_BUSY, map[FIRST := Attempt("a", Grading, Some(2), Some(60), 2, None), SECOND := SECOND_CLAIMED], 0, 3)

  lemma RaceReclaims()
    ensures Step(Config(60, 3), HALFWAY, RACE[3]).0 == LATE
    ensures LegalPick(HALFWAY, RACE[3])
  {
  }

  /** Both workers finalise, the first request's first. */
  lemma RaceFinishes()
    ensures var s := Step(Config(60, 3), Step(Config(60, 3), LATE, RACE[4]).0, RACE[5]).0;
      && FIRST in s.attempts && SECOND in s.attempts && "quiz" in s.assessments
      && s.attempts[FIRST].status == Graded && s.attempts[SECOND].status == Graded
      && s.attempts[FIRST].response == Some(Response(FIRST, false, 40))
      && s.assessments["quiz"].score == Some(90)
  {
  }

  lemma RaceSecondHalf()
    ensures var s := Run(Config(60, 3), START, RACE).0;
      && FIRST in s.attempts && SECOND in s.attempts && "quiz" in s.assessments
      && s.attempts[FIRST].status == Graded && s.attempts[SECOND].status == Graded
      && s.attempts[FIRST].response == Some(Response(FIRST, false, 40))
      && s.assessments["quiz"].score == Some(90)
  {
    hide Run, Step;
    var cfg := Config(60, 3);
    RaceFirstHalf();
    RaceReclaims();
    RunStep(cfg, START, RACE, 3);
    RunStep(cfg, START, RACE, 4);
    RunStep(cfg, START, RACE, 5);
    RaceFinishes();
    assert RACE[..6] == RACE;
  }

  lemma RaceIsLegal(i: nat)
    requires i < |RACE|
    ensures LegalPick(Run(Config(60, 3), START, RACE[..i]).0, RACE[i])
  {
    RaceFirstHalf();
    hide Run;
    if i == 3 {
      RaceReclaims();
    }
  }

  /** So at most once holds per attempt only: one assessment can be finalised twice, the later
      score replacing the earlier one. */
  lemma AssessmentFinalisedTwice()
    ensures exists cfg, ops: seq<Op> :: var s := Run(cfg, START, ops).0;
      && FIRST in s.attempts && SECOND in s.attempts && FIRST.assessment == SECOND.assessment
      && s.attempts[FIRST].status == Graded && s.attempts[SECOND].status == Graded
      && forall i | 0 <= i < |ops| :: LegalPick(Run(cfg, START, ops[..i]).0, ops[i])
  {
    RaceSecondHalf();
    hide Run, LegalPick;
    forall i | 0 <= i < |RACE| ensures LegalPick(Run(Config(60, 3), START, RACE[..i]).0, RACE[i]) {
      RaceIsLegal(i);
    }
  }

  // ---------------------------------------------------------------- the service

  /** The rows of both tables, with the service methods that lock and change them. */
  class SubmissionService {
    const cfg: Config
    var assessments: map<string, Assessment>
    var attempts: map<Key, Attempt>
    var now: int
    var nextToken: nat
    ghost const start: State
    ghost var ops: seq<Op>

    ghost function View(): State
      reads this
    {
      State(assessments, attempts, now, nextToken)
    }

    /** The state is what the history makes of the initial one. */
    ghost predicate Valid()
      reads this
    {
      Initial(start) && View() == Run(cfg, start, ops).0
    }

    constructor (cfg: Config, assessments: map<string, Assessment>, now: int)
      ensures Valid() && this.cfg == cfg && ops == [] && this.assessments == assessments
    {
      this.cfg, this.assessments, this.now := cfg, assessments, now;
      attempts, nextToken, ops := map[], 0, [];
      start := State(assessments, map[], now, 0);
    }

    /** `active_attempt`: some attempt of the assessment that is being graded, if there is one. */
    method ActiveAttempt(assessment: string) returns (pick: Option<Key>)
      ensures match pick
        case Some(k) => k in attempts && k.assessment == assessment && attempts[k].status == Grading
        case None => forall k | k in attempts && k.assessment == assessment :: attempts[k].status != Grading
    {
      var candidates := set k | k in attempts && k.assessment == assessment && attempts[k].status == Grading;
      if candidates == {} {
        assert forall k | k in attempts && k.assessment == assessment && attempts[k].status == Grading ::
          k in candidates;
        return None;
      }
      var k :| k in candidates;
      return Some(k);
    }

    /** `_claim_submission` */
    method ClaimSubmission(key: Key, hash: string) returns (reply: Reply, ghost op: Op)
      requires Valid()
      modifies this
      ensures Valid() && ops == old(ops) + [op]
      ensures op.Claim? && op.key == key && op.hash == hash && LegalPick(old(View()), op)
      ensures (View(), reply) == Step(cfg, old(View()), op)
      ensures now == old(now)
      ensures match op.pick
        case Some(k) => k in old(attempts) && k.assessment == key.assessment && old(attempts)[k].status == Grading
        case None => forall k | k in old(attempts) && k.assessment == key.assessment ::
          old(attempts)[k].status != Grading
      ensures reply == NotFound <==>
        key.assessment !in old(assessments) || old(assessments)[key.assessment].user != key.user
      ensures reply != NotFound && key in old(attempts) ==>
        var a := old(attempts)[key];
        var answered := a.status in {Graded, ReviewRequired} && a.response.Some?;
        var running := a.status == Grading && a.lease.Some? && now < a.lease.value;
        && (reply == Conflict <==> a.hash != hash)
        && (reply.Replayed? <==> a.hash == hash && answered)
        && (reply.Replayed? ==> reply.response == a.response.value)
        && (reply == InProgress <==> a.hash == hash && !answered && running)
        && (reply.Claimed? <==> a.hash == hash && !answered && !running && a.count < cfg.maxAttempts)
        && (reply == Exhausted <==> a.hash == hash && !answered && !running && a.count >= cfg.maxAttempts)
      ensures reply != NotFound && key !in old(attempts) ==>
        var status := old(assessments)[key.assessment].status;
        var running := op.pick.Some? && old(attempts)[op.pick.value].lease.Some?
                       && now < old(attempts)[op.pick.value].lease.value;
        && (reply == InProgress <==> status !in {Graded, ReviewRequired, Submitted} && running)
        && (reply.Claimed? <==> status == Active && !running)
        && (reply == AlreadySubmitted <==>
              status in {Graded, ReviewRequired, Submitted} || (status != Active && !running))
      ensures reply.Claimed? ==>
        && reply.token == old(nextToken) && nextToken == old(nextToken) + 1
        && assessments ==
          old(assessments)[key.assessment := old(assessments)[key.assessment].(status := Grading)]
        && attempts == old(attempts)[key := Attempt(hash, Grading, Some(reply.token), Some(now + cfg.leaseSeconds),
             if key in old(attempts) then old(attempts)[key].count + 1 else 1,
             if key in old(attempts) then old(attempts)[key].response else None)]
      ensures reply == Exhausted ==>
        && assessments == old(assessments)[key.assessment := old(assessments)[key.assessment].(status := Active)]
        && attempts == old(attempts)[key := old(attempts)[key].(status := Failed)]
      ensures reply != Exhausted && !reply.Claimed? ==> assessments == old(assessments) && attempts == old(attempts)
    {
      var pick := ActiveAttempt(key.assessment);
      op := Claim(key, hash, pick);
      ops := ops + [op];
      hide Run;
      reply := Answer(key, hash, pick);
    }

    /** The branches of `_claim_submission`, given the attempt that the query returned. */
    method Answer(key: Key, hash: string, pick: Option<Key>) returns (reply: Reply)
      requires LegalPick(View(), Claim(key, hash, pick))
      modifies this`attempts, this`assessments, this`nextToken
      ensures (View(), reply) == Step(cfg, old(View()), Claim(key, hash, pick))
    {
      if key.assessment !in assessments || assessments[key.assessment].user != key.user {
        return NotFound;
      }
      if key in attempts {
        var existing := attempts[key];
        if existing.hash != hash {
          return Conflict;
        }
        if Final(existing.status) && existing.response.Some? {
          return Replayed(existing.response.value);
        }
        if existing.status == Grading && !LeaseExpired(existing.lease, now) {
          return InProgress;
        }
        if existing.count >= cfg.maxAttempts {
          attempts := attempts[key := existing.(status := Failed)];
          assessments := assessments[key.assessment := assessments[key.assessment].(status := Active)];
          return Exhausted;
        }
        reply := Reclaim(key);
        return;
      }
      if assessments[key.assessment].status in {Graded, ReviewRequired, Submitted} {
        return AlreadySubmitted;
      }
      if pick.Some? && attempts[pick.value].status == Grading && !LeaseExpired(attempts[pick.value].lease, now) {
        return InProgress;
      }
      if assessments[key.assessment].status != Active {
        return AlreadySubmitted;
      }
      reply := CreateClaim(key, hash);
    }

    /** `reclaim_claim`: a fresh token and lease, one attempt more. */
    method Reclaim(key: Key) returns (reply: Reply)
      requires key in attempts && key.assessment in assessments
      modifies this`attempts, this`assessments, this`nextToken
      ensures reply == Claimed(old(nextToken)) && nextToken == old(nextToken) + 1
      ensures attempts == old(attempts)[key := old(attempts)[key].(
        status := Grading, token := Some(old(nextToken)), lease := Some(now + cfg.leaseSeconds),
        count := old(attempts)[key].count + 1)]
      ensures assessments == old(assessments)[key.assessment := old(assessments)[key.assessment].(status := Grading)]
    {
      var token := nextToken;
      nextToken := nextToken + 1;
      var attempt := attempts[key];
      attempt := attempt.(status := Grading);
      attempt := attempt.(token := Some(token));
      attempt := attempt.(lease := Some(now + cfg.leaseSeconds));
      attempt := attempt.(count := attempt.count + 1);
      attempts := attempts[key := attempt];
      assessments := assessments[key.assessment := assessments[key.assessment].(status := Grading)];
      reply := Claimed(token);
    }

    /** `create_claim` */
    method CreateClaim(key: Key, hash: string) returns (reply: Reply)
      requires key !in attempts && key.assessment in assessments
      modifies this`attempts, this`assessments, this`nextToken
      ensures reply == Claimed(old(nextToken)) && nextToken == old(nextToken) + 1
      ensures attempts ==
        old(attempts)[key := Attempt(hash, Grading, Some(old(nextToken)), Some(now + cfg.leaseSeconds), 1, None)]
      ensures assessments == old(assessments)[key.assessment := old(assessments)[key.assessment].(status := Grading)]
    {
      var token := nextToken;
      nextToken := nextToken + 1;
      attempts := attempts[key := Attempt(hash, Grading, Some(token), Some(now + cfg.leaseSeconds), 1, None)];
      assessments := assessments[key.assessment := assessments[key.assessment].(status := Grading)];
      reply := Claimed(token);
    }

    /** The lock, the token check and the terminal writes of `_finalize_submission`. */
    method FinalizeSubmission(key: Key, token: nat, contextHash: string, review: bool, score: int)
      returns (reply: Reply)
      requires Valid()
      modifies this
      ensures Valid() && ops == old(ops) + [Finalize(key, token, contextHash, review, score)]
      ensures (View(), reply) == Step(cfg, old(View()), Finalize(key, token, contextHash, review, score))
      ensures now == old(now)
      ensures reply in {LeaseLost, Conflict, Finalized(Response(key, review, score))}
      ensures reply != LeaseLost <==>
        && key in old(attempts) && key.assessment in old(assessments)
        && old(attempts)[key].status == Grading && old(attempts)[key].token == Some(token)
      ensures reply != LeaseLost ==> (reply.Finalized? <==> old(attempts)[key].hash == contextHash)
      ensures reply.Finalized? ==>
        && assessments == old(assessments)[key.assessment := old(assessments)[key.assessment].(
             status := if review then ReviewRequired else Graded, score := Some(score))]
        && attempts == old(attempts)[key := old(attempts)[key].(
             status := if review then ReviewRequired else Graded, token := None, lease := None,
             response := Some(reply.response))]
      ensures !reply.Finalized? ==> assessments == old(assessments) && attempts == old(attempts)
    {
      ops := ops + [Finalize(key, token, contextHash, review, score)];
      hide Run;
      if key !in attempts || key.assessment !in assessments || attempts[key].status != Grading
         || attempts[key].token != Some(token) {
        return LeaseLost;
      }
      if attempts[key].hash != contextHash {
        return Conflict;
      }
      var status := if review then ReviewRequired else Graded;
      var assessment, attempt := assessments[key.assessment], attempts[key];
      assessment := assessment.(status := status);
      assessment := assessment.(score := Some(score));
      attempt := attempt.(status := status);
      attempt := attempt.(lease := None);
      attempt := attempt.(token := None);
      var response := Response(key, review, score);
      attempt := attempt.(response := Some(response));
      assessments, attempts := assessments[key.assessment := assessment], attempts[key := attempt];
      return Finalized(response);
    }

    /** `_fail_claim` */
    method FailClaim(key: Key, token: nat) returns (reply: Reply)
      requires Valid()
      modifies this
      ensures Valid() && ops == old(ops) + [Fail(key, token)]
      ensures (View(), reply) == Step(cfg, old(View()), Fail(key, token))
      ensures now == old(now) && reply in {FailedClaim, Ignored}
      ensures reply == FailedClaim <==>
        && key in old(attempts) && key.assessment in old(assessments)
        && old(attempts)[key].status == Grading && old(attempts)[key].token == Some(token)
      ensures reply == FailedClaim ==>
        && assessments == old(assessments)[key.assessment := old(assessments)[key.assessment].(status := Active)]
        && attempts == old(attempts)[key := old(attempts)[key].(status := Failed, token := None, lease := None)]
      ensures reply == Ignored ==> assessments == old(assessments) && attempts == old(attempts)
    {
      ops := ops + [Fail(key, token)];
      hide Run;
      if key in attempts && key.assessment in assessments && attempts[key].status == Grading
         && attempts[key].token == Some(token) {
        attempts := attempts[key := attempts[key].(status := Failed, token := None, lease := None)];
        assessments := assessments[key.assessment := assessments[key.assessment].(status := Active)];
        return FailedClaim;
      }
      return Ignored;
    }

    method SetNow(time: int)
      requires Valid()
      modifies this
      ensures Valid() && ops == old(ops) + [SetClock(time)] && View() == old(View()).(now := time)
    {
      ops := ops + [SetClock(time)];
      now := time;
    }

    /** What a reader can rely on about any attempt of a live service. */
    lemma History(key: Key)
      requires Valid()
      ensures RowOk(cfg, View(), Run(cfg, start, ops).1, key)
      ensures |Finals(Run(cfg, start, ops).1, key)| <= 1
    {
      RunRowOk(cfg, start, ops, key);
      hide Run, Tokens, Finals;
    }
  }
}
