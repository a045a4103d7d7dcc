/** The per-key action queue of the learning provider: calls for one key are chained behind each
    other, and a busy flag covers them from the first to the last. Every turn of the event loop is
    one step: a call, a queued action that begins, one that settles, and the `finally` clean-up. */
module BusyQueue {
  import opened Prelude

  /** `Settled`: the promise is resolved or rejected; `Cleaned`: the caller's `finally` has run too. */
  datatype Phase = Waiting | Running | Settled | Cleaned

  /** `previous` is the promise the action was chained to, `epoch` the identity it was called under. */
  datatype Action = Action(key: string, previous: Option<nat>, epoch: int, phase: Phase)

  datatype State = State(actions: seq<Action>, busyActions: map<string, nat>, busyKeys: set<string>,
                         busy: set<string>, epoch: int)

  /** `gated`: the goal bootstrap failed and the key needs it. An action may resolve or reject. */
  datatype Op =
    | Call(key: string, queueIfBusy: bool, gated: bool)
    | Begin(id: nat)
    | Settle(id: nat, rejected: bool)
    | CleanUp(id: nat)
    | NewIdentity

  predicate Done(a: Action) {
    a.phase in {Settled, Cleaned}
  }

  predicate Accepts(s: State, op: Op)
    requires op.Call?
  {
    !op.gated && (op.key in s.busyActions ==> op.queueIfBusy)
  }

  /** The promise the action is chained to has settled, one way or the other. */
  predicate CanBegin(s: State, id: nat) {
    && id < |s.actions| && s.actions[id].phase == Waiting
    && match s.actions[id].previous
       case None => true
       case Some(p) => p < |s.actions| && Done(s.actions[p])
  }

  function SetPhase(s: State, id: nat, phase: Phase): State
    requires id < |s.actions|
  {
    s.(actions := s.actions[id := s.actions[id].(phase := phase)])
  }

  /** One turn; an operation that is not enabled changes nothing. */
  function Step(s: State, op: Op): State {
    match op
    case Call(key, _, _) =>
      if !Accepts(s, op) then s
      else
        var previous := if key in s.busyActions then Some(s.busyActions[key]) else None;
        State(s.actions + [Action(key, previous, s.epoch, Waiting)], s.busyActions[key := |s.actions|],
              s.busyKeys + {key}, if key in s.busyKeys then s.busy else s.busy + {key}, s.epoch)
    case Begin(id) =>
      if CanBegin(s, id) then SetPhase(s, id, if s.actions[id].epoch == s.epoch then Running else Settled) else s
    case Settle(id, _) =>
      if id < |s.actions| && s.actions[id].phase == Running then SetPhase(s, id, Settled) else s
    case CleanUp(id) =>
      if id < |s.actions| && s.actions[id].phase == Settled then
        var s' := SetPhase(s, id, Cleaned);
        var key := s.actions[id].key;
        if key in s.busyActions && s.busyActions[key] == id then
          s'.(busyActions := s.busyActions - {key}, busyKeys := s.busyKeys - {key}, busy := s.busy - {key})
        else s'
      else s
    case NewIdentity => s.(epoch := s.epoch + 1)
  }

  const IDLE := State([], map[], {}, {}, 0)

  function Run(ops: seq<Op>): State {
    if ops == [] then IDLE else Step(Run(ops[..|ops| - 1]), ops[|ops| - 1])
  }

  /** Actions of one key begin in the order of their calls, one after the other has settled. */
  ghost predicate InOrder(s: State, i: nat, j: nat)
    requires i < j < |s.actions|
  {
    s.actions[i].key == s.actions[j].key && s.actions[j].phase != Waiting ==> Done(s.actions[i])
  }

  /** Action `j` is chained to the action of its key called right before it, or they are all over. */
  ghost predicate Chained(s: State, j: nat)
    requires j < |s.actions|
  {
    match s.actions[j].previous
    case None => forall i | 0 <= i < j && s.actions[i].key == s.actions[j].key :: Done(s.actions[i])
    case Some(p) => p < j && s.actions[p].key == s.actions[j].key
                    && forall i | p < i < j :: s.actions[i].key != s.actions[j].key
  }

  /** What the three refs hold for a key: the last action called, as long as it is not cleaned up. */
  ghost predicate Tracked(s: State, key: string) {
    && (key in s.busyActions <==> key in s.busyKeys) && (key in s.busyKeys <==> key in s.busy)
    && (key in s.busyActions ==>
          var id := s.busyActions[key];
          && id < |s.actions| && s.actions[id].key == key && s.actions[id].phase != Cleaned
          && forall i | id < i < |s.actions| :: s.actions[i].key != key)
    && (key !in s.busyActions ==> forall i | 0 <= i < |s.actions| && s.actions[i].key == key :: Done(s.actions[i]))
  }

  ghost predicate Sound(s: State) {
    && (forall i, j | 0 <= i < j < |s.actions| :: InOrder(s, i, j))
    && (forall j | 0 <= j < |s.actions| :: Chained(s, j))
    && (forall key :: Tracked(s, key))
  }

  lemma CallIsSound(s: State, op: Op)
    requires Sound(s) && op.Call?
    ensures Sound(Step(s, op))
  {
    var s' := Step(s, op);
    forall i, j | 0 <= i < j < |s'.actions| ensures InOrder(s', i, j) {
      if j < |s.actions| {
        assert InOrder(s, i, j);
      }
    }
    forall j | 0 <= j < |s'.actions| ensures Chained(s', j) {
      if j < |s.actions| {
        assert Chained(s, j);
      } else {
        assert Tracked(s, op.key);
      }
    }
    forall key ensures Tracked(s', key) {
      assert Tracked(s, key);
    }
  }

  /** An action that moves on keeps the order if everything called before it for its key is over. */
  lemma PhaseIsSound(s: State, id: nat, phase: Phase)
    requires Sound(s) && id < |s.actions| && phase != Waiting
    requires Done(s.actions[id]) ==> phase in {Settled, Cleaned}
    requires forall i | 0 <= i < id && s.actions[i].key == s.actions[id].key :: Done(s.actions[i])
    requires phase == Cleaned ==> s.actions[id].key !in s.busyActions || s.busyActions[s.actions[id].key] != id
    ensures Sound(SetPhase(s, id, phase))
  {
    var s' := SetPhase(s, id, phase);
    forall i, j | 0 <= i < j < |s'.actions| ensures InOrder(s', i, j) {
      assert InOrder(s, i, j);
    }
    forall j | 0 <= j < |s'.actions| ensures Chained(s', j) {
      assert Chained(s, j);
    }
    forall key ensures Tracked(s', key) {
      assert Tracked(s, key);
    }
  }

  /** Everything called before a started action, or before one that may begin, is over. */
  lemma EarlierAreDone(s: State, id: nat)
    requires Sound(s) && id < |s.actions| && (s.actions[id].phase != Waiting || CanBegin(s, id))
    ensures forall i | 0 <= i < id && s.actions[i].key == s.actions[id].key :: Done(s.actions[i])
  {
    assert Chained(s, id);
    forall i | 0 <= i < id && s.actions[i].key == s.actions[id].key ensures Done(s.actions[i]) {
      assert InOrder(s, i, id);
      if s.actions[id].phase == Waiting && s.actions[id].previous.Some? {
        var p := s.actions[id].previous.value;
        if i < p {
          assert InOrder(s, i, p);
        }
      }
    }
  }

  lemma CleanUpIsSound(s: State, id: nat)
    requires Sound(s) && id < |s.actions| && s.actions[id].phase == Settled
    ensures Sound(Step(s, CleanUp(id)))
  {
    EarlierAreDone(s, id);
    var key := s.actions[id].key;
    if key in s.busyActions && s.busyActions[key] == id {
      var s' := Step(s, CleanUp(id));
      forall i, j | 0 <= i < j < |s'.actions| ensures InOrder(s', i, j) {
        assert InOrder(s, i, j);
      }
      forall j | 0 <= j < |s'.actions| ensures Chained(s', j) {
        assert Chained(s, j);
      }
      forall k ensures Tracked(s', k) {
        assert Tracked(s, k);
      }
    } else {
      PhaseIsSound(s, id, Cleaned);
    }
  }

  lemma StepIsSound(s: State, op: Op)
    requires Sound(s)
    ensures Sound(Step(s, op))
  {
    hide Sound, CanBegin;
    match op
    case Call(_, _, _) => CallIsSound(s, op);
    case Begin(id) =>
      if CanBegin(s, id) {
        BeginFacts(s, id);
        EarlierAreDone(s, id);
        PhaseIsSound(s, id, if s.actions[id].epoch == s.epoch then Running else Settled);
      }
    case Settle(id, _) =>
      if id < |s.actions| && s.actions[id].phase == Running {
        EarlierAreDone(s, id);
        PhaseIsSound(s, id, Settled);
      }
    case CleanUp(id) =>
      if id < |s.actions| && s.actions[id].phase == Settled {
        CleanUpIsSound(s, id);
      }
    case NewIdentity => IdentityIsSound(s);
  }

  lemma BeginFacts(s: State, id: nat)
    requires CanBegin(s, id)
    ensures id < |s.actions| && s.actions[id].phase == Waiting
  {
  }

  lemma IdentityIsSound(s: State)
    requires Sound(s)
    ensures Sound(Step(s, NewIdentity))
  {
    var s' := Step(s, NewIdentity);
    forall i, j | 0 <= i < j < |s'.actions| ensures InOrder(s', i, j) {
      assert InOrder(s, i, j);
    }
    forall j | 0 <= j < |s'.actions| ensures Chained(s', j) {
      assert Chained(s, j);
    }
    forall key ensures Tracked(s', key) {
      assert Tracked(s, key);
    }
  }

  lemma {:induction false} RunIsSound(ops: seq<Op>)
    ensures Sound(Run(ops))
  {
    if ops != [] {
      RunIsSound(ops[..|ops| - 1]);
      StepIsSound(Run(ops[..|ops| - 1]), ops[|ops| - 1]);
    }
  }

  /** At every moment of every run at most one action of a key is running. */
  lemma OneRunning(ops: seq<Op>, i: nat, j: nat)
    requires var a := Run(ops).actions;
      i < |a| && j < |a| && a[i].key == a[j].key && a[i].phase == Running && a[j].phase == Running
    ensures i == j
  {
    RunIsSound(ops);
    hide Run;
    var s := Run(ops);
    if i < j {
      Ordered(s, i, j);
    } else if j < i {
      Ordered(s, j, i);
    }
  }

  lemma Ordered(s: State, i: nat, j: nat)
    requires Sound(s) && i < j < |s.actions| && s.actions[i].key == s.actions[j].key
    ensures s.actions[j].phase != Waiting ==> Done(s.actions[i])
  {
    assert InOrder(s, i, j);
  }

  /** Queued actions run in the order of their calls: whoever has begun, everything called earlier
      for the same key has settled. */
  lemma FirstInFirstOut(ops: seq<Op>, i: nat, j: nat)
    requires var a := Run(ops).actions; i < j < |a| && a[i].key == a[j].key && a[j].phase != Waiting
    ensures Done(Run(ops).actions[i])
  {
    RunIsSound(ops);
    hide Run;
    assert InOrder(Run(ops), i, j);
  }

  /** The flag is set exactly while the last accepted action of the key has not been cleaned up; in
      particular it is set while any accepted action has not settled. */
  lemma FlagCoversTheQueue(ops: seq<Op>, key: string)
    ensures var s := Run(ops);
      key in s.busy <==> exists i | 0 <= i < |s.actions| ::
        s.actions[i].key == key && s.actions[i].phase != Cleaned &&
        forall j | i < j < |s.actions| :: s.actions[j].key != key
    ensures var s := Run(ops);
      key !in s.busy ==> forall i | 0 <= i < |s.actions| && s.actions[i].key == key :: Done(s.actions[i])
  {
    RunHasCleaned(ops, key);
    RunIsSound(ops);
    hide Run;
    assert Tracked(Run(ops), key);
  }

  /** When a key is not busy its last action has been cleaned up. */
  ghost predicate LastCleaned(s: State, key: string) {
    key !in s.busyActions ==> forall i | 0 <= i < |s.actions| && s.actions[i].key == key
                                         && (forall j | i < j < |s.actions| :: s.actions[j].key != key) ::
                                s.actions[i].phase == Cleaned
  }

  lemma {:induction false} RunHasCleaned(ops: seq<Op>, key: string)
    ensures LastCleaned(Run(ops), key)
  {
    if ops != [] {
      var s := Run(ops[..|ops| - 1]);
      RunHasCleaned(ops[..|ops| - 1], key);
      RunIsSound(ops[..|ops| - 1]);
      assert Tracked(s, key);
      hide Sound, Tracked;
      StepHasCleaned(s, ops[|ops| - 1], key);
    }
  }

  lemma StepHasCleaned(s: State, op: Op, key: string)
    requires LastCleaned(s, key) && Tracked(s, key)
    ensures LastCleaned(Step(s, op), key)
  {
    var s' := Step(s, op);
    if key !in s'.busyActions {
      forall i | 0 <= i < |s'.actions| && s'.actions[i].key == key
        && (forall j | i < j < |s'.actions| :: s'.actions[j].key != key)
        ensures s'.actions[i].phase == Cleaned
      {
        if op.Call? && Accepts(s, op) {
          assert s'.actions[|s.actions|].key == op.key;
          assert forall j | i < j < |s.actions| :: s.actions[j] == s'.actions[j];
        } else {
          assert forall j | i < j < |s.actions| :: s.actions[j].key == s'.actions[j].key;
        }
      }
    }
  }

  /** The queue cannot get stuck: the oldest action of a key that is not over is running or may begin. */
  lemma QueueMovesOn(ops: seq<Op>, i: nat)
    requires i < |Run(ops).actions| && !Done(Run(ops).actions[i])
    requires forall k | 0 <= k < i && Run(ops).actions[k].key == Run(ops).actions[i].key :: Done(Run(ops).actions[k])
    ensures Run(ops).actions[i].phase == Running || CanBegin(Run(ops), i)
  {
    RunIsSound(ops);
    hide Run;
    assert Chained(Run(ops), i);
  }

  // ---------------------------------------------------------------- draining

  /** How many turns an action still takes, at most. */
  function TurnsLeft(phase: Phase): nat {
    match phase
    case Waiting => 3
    case Running => 2
    case Settled => 1
    case Cleaned => 0
  }

  function Load(actions: seq<Action>, key: string): nat {
    if actions == [] then 0
    else
      var last := |actions| - 1;
      Load(actions[..last], key) + if actions[last].key == key then TurnsLeft(actions[last].phase) else 0
  }

  /** The turn moves an action of the key on. */
  predicate Works(s: State, op: Op, key: string) {
    match op
    case Begin(id) => CanBegin(s, id) && s.actions[id].key == key
    case Settle(id, _) => id < |s.actions| && s.actions[id].key == key && s.actions[id].phase == Running
    case CleanUp(id) => id < |s.actions| && s.actions[id].key == key && s.actions[id].phase == Settled
    case _ => false
  }

  /** The turns after the first `start` ones that moved an action of the key on. */
  function Turns(ops: seq<Op>, start: nat, key: string): nat
    requires start <= |ops|
  {
    if |ops| == start then 0
    else
      var before := ops[..|ops| - 1];
      Turns(before, start, key) + if Works(Run(before), ops[|ops| - 1], key) then 1 else 0
  }

  lemma {:induction false} LoadChange(actions: seq<Action>, id: nat, phase: Phase, key: string)
    requires id < |actions|
    ensures Load(actions[id := actions[id].(phase := phase)], key)
         == Load(actions, key) + if actions[id].key == key then TurnsLeft(phase) - TurnsLeft(actions[id].phase) else 0
    decreases |actions|
  {
    var last, changed := |actions| - 1, actions[id := actions[id].(phase := phase)];
    if id == last {
      assert changed[..last] == actions[..last];
    } else {
      LoadChange(actions[..last], id, phase, key);
      assert changed[..last] == actions[..last][id := actions[id].(phase := phase)];
    }
  }

  lemma StepLoad(s: State, op: Op, key: string)
    requires op.Call? && op.key == key ==> !Accepts(s, op)
    ensures Load(Step(s, op).actions, key) + (if Works(s, op, key) then 1 else 0) <= Load(s.actions, key)
  {
    hide Load;
    match op
    case Call(_, _, _) =>
      if Accepts(s, op) {
        LoadGrows(s.actions, Step(s, op).actions[|s.actions|], key);
      }
    case Begin(id) =>
      if CanBegin(s, id) {
        LoadChange(s.actions, id, Step(s, op).actions[id].phase, key);
      }
    case Settle(id, _) =>
      if id < |s.actions| && s.actions[id].phase == Running {
        LoadChange(s.actions, id, Settled, key);
      }
    case CleanUp(id) =>
      if id < |s.actions| && s.actions[id].phase == Settled {
        LoadChange(s.actions, id, Cleaned, key);
      }
    case NewIdentity =>
  }

  lemma LoadGrows(actions: seq<Action>, a: Action, key: string)
    ensures Load(actions + [a], key) == Load(actions, key) + if a.key == key then TurnsLeft(a.phase) else 0
  {
    assert (actions + [a])[..|actions|] == actions;
  }

  /** No call of the key is accepted after the first `start` turns. */
  ghost predicate Uncalled(ops: seq<Op>, start: nat, key: string) {
    forall k | start <= k < |ops| && ops[k].Call? && ops[k].key == key :: !Accepts(Run(ops[..k]), ops[k])
  }

  /** While no call of the key is accepted, its actions take at most three turns each. */
  lemma {:induction false} TurnsAreBounded(ops: seq<Op>, start: nat, key: string)
    requires start <= |ops| && Uncalled(ops, start, key)
    ensures Turns(ops, start, key) + Load(Run(ops).actions, key) <= Load(Run(ops[..start]).actions, key)
    decreases |ops|
  {
    if |ops| == start {
      assert ops[..start] == ops;
    } else {
      var before := ops[..|ops| - 1];
      assert forall k | start <= k < |before| :: before[..k] == ops[..k] && before[k] == ops[k];
      TurnsAreBounded(before, start, key);
      assert before[..start] == ops[..start];
      StepLoad(Run(before), ops[|ops| - 1], key);
    }
  }

  /** As long as the key is busy one of its actions can move on. */
  lemma BusyWorks(ops: seq<Op>, key: string) returns (op: Op)
    requires var s := Run(ops); key in s.busy || key in s.busyKeys || key in s.busyActions
    ensures Works(Run(ops), op, key)
  {
    RunIsSound(ops);
    var s := Run(ops);
    assert Tracked(s, key);
    var id := s.busyActions[key];
    if s.actions[id].phase == Settled {
      return CleanUp(id);
    }
    assert !Done(s.actions[id]);
    hide Run, Sound, Tracked;
    var i := OldestOpen(s, id);
    QueueMovesOn(ops, i);
    op := if s.actions[i].phase == Running then Settle(i, false) else Begin(i);
  }

  lemma {:induction false} OldestOpen(s: State, id: nat) returns (i: nat)
    requires id < |s.actions| && !Done(s.actions[id])
    ensures i < |s.actions| && s.actions[i].key == s.actions[id].key && !Done(s.actions[i])
    ensures forall k | 0 <= k < i && s.actions[k].key == s.actions[i].key :: Done(s.actions[k])
    decreases id
  {
    if k: nat :| k < id && s.actions[k].key == s.actions[id].key && !Done(s.actions[k]) {
      i := OldestOpen(s, k);
    } else {
      i := id;
    }
  }

  /** The queue of a key drains unless further calls are accepted: it takes a bounded number of turns, and when
      none is left to take, all three refs have forgotten the key. */
  lemma QueueDrains(ops: seq<Op>, start: nat, key: string)
    requires start <= |ops| && Uncalled(ops, start, key)
    ensures Turns(ops, start, key) <= Load(Run(ops[..start]).actions, key)
    ensures (Turns(ops, start, key) == Load(Run(ops[..start]).actions, key)
             || !(exists op :: Works(Run(ops), op, key))) ==>
      var s := Run(ops); key !in s.busy && key !in s.busyKeys && key !in s.busyActions
  {
    TurnsAreBounded(ops, start, key);
    var s := Run(ops);
    if key in s.busy || key in s.busyKeys || key in s.busyActions {
      var op := BusyWorks(ops, key);
      hide Run;
      StepLoad(s, op, key);
    }
  }

  // ---------------------------------------------------------------- identities

  lemma {:induction false} EpochsOnlyGrow(ops: seq<Op>)
    ensures forall a | a in Run(ops).actions :: a.epoch <= Run(ops).epoch
  {
    if ops != [] {
      EpochsOnlyGrow(ops[..|ops| - 1]);
    }
  }

  /** An action called under an identity that is gone, and not begun by then, never runs, whatever comes. */
  lemma {:induction false} StaleActionsNeverRun(ops: seq<Op>, now: nat, id: nat)
    requires now <= |ops| && id < |Run(ops[..now]).actions|
    requires var s := Run(ops[..now]); s.actions[id].phase == Waiting && s.actions[id].epoch != s.epoch
    ensures id < |Run(ops).actions| && Run(ops).actions[id].phase != Running
    ensures Run(ops).actions[id].epoch < Run(ops).epoch
    decreases |ops|
  {
    if |ops| == now {
      assert ops[..now] == ops;
      EpochsOnlyGrow(ops);
    } else {
      assert ops[..|ops| - 1][..now] == ops[..now];
      StaleActionsNeverRun(ops[..|ops| - 1], now, id);
    }
  }

  // ---------------------------------------------------------------- the provider

  /** The refs and the busy flags of the provider, and the promises made so far. */
  class LearningProvider {
    var actions: seq<Action>
    var busyActions: map<string, nat>
    var busyKeys: set<string>
    var busy: set<string>
    var identityEpoch: int
    ghost var ops: seq<Op>

    ghost function View(): State
      reads this
    {
      State(actions, busyActions, busyKeys, busy, identityEpoch)
    }

    ghost predicate Valid()
      reads this
    {
      View() == Run(ops)
    }

    constructor ()
      ensures Valid() && ops == []
    {
      actions, busyActions, busyKeys, busy, identityEpoch, ops := [], map[], {}, {}, 0, [];
    }

    ghost method Record(op: Op)
      requires View() == Step(Run(ops), op)
      modifies this`ops
      ensures Valid() && ops == old(ops) + [op]
    {
      assert (ops + [op])[..|ops|] == ops;
      ops := ops + [op];
    }

    /** `runBusy` up to its first `await`; the result is None when the call is dropped. */
    method RunBusy(key: string, queueIfBusy: bool, gated: bool) returns (queued: Option<nat>)
      requires Valid()
      modifies this
      ensures Valid() && ops == old(ops) + [Call(key, queueIfBusy, gated)]
      ensures queued.None? <==> gated || (key in old(busyActions) && !queueIfBusy)
      ensures queued.None? ==> View() == old(View())
      ensures queued.Some? ==>
        && queued == Some(old(|actions|)) && identityEpoch == old(identityEpoch)
        && actions == old(actions) + [Action(key, if key in old(busyActions) then Some(old(busyActions)[key]) else None,
                                             identityEpoch, Waiting)]
        && busyActions == old(busyActions)[key := queued.value]
        && busyKeys == old(busyKeys) + {key} && busy == old(busy) + {key}
    {
      RunIsSound(ops);
      assert Tracked(View(), key);
      hide Run, Sound, Tracked;
      if gated {
        queued := None;
      } else if key in busyActions && !queueIfBusy {
        queued := None;
      } else {
        var previousAction := if key in busyActions then Some(busyActions[key]) else None;
        if key !in busyKeys {
          busyKeys := busyKeys + {key};
          busy := busy + {key};
        }
        queued := Some(|actions|);
        actions := actions + [Action(key, previousAction, identityEpoch, Waiting)];
        busyActions := busyActions[key := queued.value];
        assert busyKeys == old(busyKeys) + {key};
      }
      Record(Call(key, queueIfBusy, gated));
    }

    /** `execute`, once the previous promise has settled: a stale identity resolves at once. */
    method Execute(id: nat)
      requires Valid() && CanBegin(View(), id)
      modifies this
      ensures Valid() && ops == old(ops) + [Begin(id)]
      ensures actions == old(actions)[id := old(actions)[id].(
        phase := if old(actions)[id].epoch == identityEpoch then Running else Settled)]
      ensures View().(actions := old(actions)) == old(View())
    {
      if actions[id].epoch != identityEpoch {
        actions := actions[id := actions[id].(phase := Settled)];
      } else {
        actions := actions[id := actions[id].(phase := Running)];
      }
      Record(Begin(id));
    }

    /** The action resolves or rejects; either way its promise has settled. */
    method ActionEnds(id: nat, rejected: bool)
      requires Valid() && id < |actions| && actions[id].phase == Running
      modifies this
      ensures Valid() && ops == old(ops) + [Settle(id, rejected)]
      ensures View() == old(View()).(actions := old(actions)[id := old(actions)[id].(phase := Settled)])
    {
      actions := actions[id := actions[id].(phase := Settled)];
      Record(Settle(id, rejected));
    }

    /** The `finally` block: only the last accepted action of the key clears the flag. */
    method Finally(id: nat)
      requires Valid() && id < |actions| && actions[id].phase == Settled
      modifies this
      ensures Valid() && ops == old(ops) + [CleanUp(id)]
      ensures actions[id].key in busy <==>
        actions[id].key in old(busyActions) && old(busyActions)[actions[id].key] != id
      ensures actions == old(actions)[id := old(actions)[id].(phase := Cleaned)] && identityEpoch == old(identityEpoch)
      ensures var key := actions[id].key;
        if key in old(busyActions) && old(busyActions)[key] == id then
          busyActions == old(busyActions) - {key} && busyKeys == old(busyKeys) - {key} && busy == old(busy) - {key}
        else busyActions == old(busyActions) && busyKeys == old(busyKeys) && busy == old(busy)
    {
      RunIsSound(ops);
      var key := actions[id].key;
      assert Tracked(View(), key);
      hide Run, Sound;
      actions := actions[id := actions[id].(phase := Cleaned)];
      if key in busyActions && busyActions[key] == id {
        busyActions := busyActions - {key};
        busyKeys := busyKeys - {key};
        busy := busy - {key};
      }
      Record(CleanUp(id));
    }

    method ChangeIdentity()
      requires Valid()
      modifies this
      ensures Valid() && ops == old(ops) + [NewIdentity]
      ensures View() == old(View()).(epoch := old(identityEpoch) + 1)
    {
      identityEpoch := identityEpoch + 1;
      Record(NewIdentity);
    }
  }
}
