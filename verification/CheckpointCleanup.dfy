/** Checkpoint clean-up under nested transactions: archiving a thread records an intent in the
    open transaction frame, a released savepoint hands its intents to its parent, a rollback drops
    them, and the commit of the root schedules them. The hooks are proved against a database
    that keeps a snapshot per savepoint, and then against the fate of each archive in the whole run. */
module CheckpointCleanup {
  import opened Prelude

  type Runtime = nat
  datatype Status = Live | Archived
  type Rows = map<string, Status>
  type Intents = map<string, Runtime>

  /** What a session can be asked to do. `busy` is the answer of the query for active runs, and
      `runtime` the checkpoint runtime in force. Rollback closes frame `k` and all inside it. */
  datatype Op =
    | Archive(thread: string, busy: bool, runtime: Option<Runtime>)
    | Savepoint
    | Release
    | RollbackTo(k: nat)
    | Commit
    | RollbackAll
    | Close

  /** An archive that went through; `at` is its position in the run. */
  datatype Event = Event(thread: string, runtime: Option<Runtime>, at: nat)

  /** The reference database: each open frame has the rows it started from and the archives pending in it. */
  datatype Frame = Frame(snapshot: Rows, pending: seq<Event>)
  datatype World = World(rows: Rows, frames: seq<Frame>, landed: seq<seq<Event>>)

  predicate Accepts(rows: Rows, op: Op)
    requires op.Archive?
  {
    op.thread in rows && !(rows[op.thread] == Live && op.busy)
  }

  /** A session without a transaction begins one on first use. */
  function Begun(w: World): (b: World)
    ensures b.frames != []
  {
    if w.frames == [] then w.(frames := [Frame(w.rows, [])]) else w
  }

  function AllPending(frames: seq<Frame>): seq<Event> {
    if frames == [] then [] else AllPending(frames[..|frames| - 1]) + frames[|frames| - 1].pending
  }

  function Step(w: World, op: Op, at: nat): World {
    match op
    case Archive(thread, _, runtime) =>
      var b := Begun(w);
      var top := |b.frames| - 1;
      if Accepts(w.rows, op) then
        b.(rows := b.rows[thread := Archived],
           frames := b.frames[top := b.frames[top].(pending := b.frames[top].pending + [Event(thread, runtime, at)])])
      else b
    case Savepoint =>
      var b := Begun(w);
      b.(frames := b.frames + [Frame(b.rows, [])])
    case Release =>
      if |w.frames| < 2 then w else
        var n := |w.frames| - 2;
        w.(frames := w.frames[..n] + [w.frames[n].(pending := w.frames[n].pending + w.frames[n + 1].pending)])
    case RollbackTo(k) =>
      if k < |w.frames| then w.(rows := w.frames[k].snapshot, frames := w.frames[..k]) else w
    case Commit => w.(frames := [], landed := w.landed + [AllPending(w.frames)])
    case RollbackAll => if w.frames == [] then w else w.(rows := w.frames[0].snapshot, frames := [])
    case Close => if w.frames == [] then w else w.(rows := w.frames[0].snapshot, frames := [])
  }

  function Run(rows: Rows, ops: seq<Op>): World {
    if ops == [] then World(rows, [], [])
    else Step(Run(rows, ops[..|ops| - 1]), ops[|ops| - 1], |ops| - 1)
  }

  /** The rows an outside reader sees. */
  function Durable(w: World): Rows {
    if w.frames == [] then w.rows else w.frames[0].snapshot
  }

  // ---------------------------------------------------------------- the database side

  function Applied(rows: Rows, events: seq<Event>): Rows {
    if events == [] then rows
    else Applied(rows, events[..|events| - 1])[events[|events| - 1].thread := Archived]
  }

  lemma {:induction false} AppliedConcat(rows: Rows, a: seq<Event>, b: seq<Event>)
    ensures Applied(rows, a + b) == Applied(Applied(rows, a), b)
  {
    if b == [] {
      assert a + b == a;
    } else {
      assert (a + b)[..|a + b| - 1] == a + b[..|b| - 1];
      AppliedConcat(rows, a, b[..|b| - 1]);
    }
  }

  lemma {:induction false} AppliedKeeps(rows: Rows, events: seq<Event>)
    ensures rows.Keys <= Applied(rows, events).Keys
    ensures forall t | t in rows && rows[t] == Archived :: Applied(rows, events)[t] == Archived
    ensures forall e | e in events :: e.thread in Applied(rows, events) && Applied(rows, events)[e.thread] == Archived
    ensures forall t | t in Applied(rows, events) ::
      (t in rows && Applied(rows, events)[t] == rows[t]) || exists e | e in events :: e.thread == t
  {
    if events != [] {
      var last := events[|events| - 1];
      AppliedKeeps(rows, events[..|events| - 1]);
      assert events == events[..|events| - 1] + [last];
      assert last in events;
    }
  }

  /** What frame `k` sees after its own pending archives: the snapshot of the next frame, or the current rows. */
  function After(w: World, k: nat): Rows
    requires k < |w.frames|
  {
    if k + 1 < |w.frames| then w.frames[k + 1].snapshot else w.rows
  }

  /** Pending archives are exactly the difference between consecutive snapshots, and every
      archive that landed is archived for good. */
  ghost predicate Consistent(w: World) {
    && (forall k | 0 <= k < |w.frames| :: After(w, k) == Applied(w.frames[k].snapshot, w.frames[k].pending))
    && (forall b, e | b in w.landed && e in b :: e.thread in Durable(w) && Durable(w)[e.thread] == Archived)
  }

  lemma {:induction false} AllPendingSpans(w: World, n: nat)
    requires n <= |w.frames| && w.frames != []
    requires forall k | 0 <= k < |w.frames| :: After(w, k) == Applied(w.frames[k].snapshot, w.frames[k].pending)
    ensures Applied(w.frames[0].snapshot, AllPending(w.frames[..n])) ==
      if n == 0 then w.frames[0].snapshot else After(w, n - 1)
  {
    if n > 0 {
      AllPendingSpans(w, n - 1);
      assert w.frames[..n][..n - 1] == w.frames[..n - 1];
      AppliedConcat(w.frames[0].snapshot, AllPending(w.frames[..n - 1]), w.frames[n - 1].pending);
    }
  }

  lemma CommitSpans(w: World)
    requires Consistent(w)
    ensures w.rows == Applied(Durable(w), AllPending(w.frames))
  {
    if w.frames != [] {
      AllPendingSpans(w, |w.frames|);
      assert w.frames[..|w.frames|] == w.frames;
    }
  }

  lemma ReleaseConsistent(w: World, at: nat)
    requires Consistent(w) && |w.frames| >= 2
    ensures Consistent(Step(w, Release, at))
  {
    var n := |w.frames| - 2;
    AppliedConcat(w.frames[n].snapshot, w.frames[n].pending, w.frames[n + 1].pending);
    var w' := Step(w, Release, at);
    assert After(w, n) == w.frames[n + 1].snapshot && After(w, n + 1) == w.rows;
    forall k | 0 <= k < |w'.frames|
      ensures After(w', k) == Applied(w'.frames[k].snapshot, w'.frames[k].pending)
    {
      if k < n {
        assert After(w', k) == After(w, k);
      }
    }
  }

  lemma BegunConsistent(w: World)
    requires Consistent(w)
    ensures Consistent(Begun(w))
  {
  }

  /** The innermost frame takes one more archive. */
  lemma PushConsistent(b: World, e: Event)
    requires Consistent(b) && b.frames != []
    ensures var top := |b.frames| - 1;
      Consistent(b.(rows := b.rows[e.thread := Archived],
                    frames := b.frames[top := b.frames[top].(pending := b.frames[top].pending + [e])]))
  {
    var top := |b.frames| - 1;
    var w' := b.(rows := b.rows[e.thread := Archived],
                 frames := b.frames[top := b.frames[top].(pending := b.frames[top].pending + [e])]);
    assert After(b, top) == b.rows;
    OneMoreApplied(b.frames[top].snapshot, b.frames[top].pending, e);
    hide Applied;
    assert Durable(w') == Durable(b) || top == 0;
    forall k | 0 <= k < |w'.frames|
      ensures After(w', k) == Applied(w'.frames[k].snapshot, w'.frames[k].pending)
    {
      if k < top {
        assert After(w', k) == After(b, k);
      }
    }
  }

  lemma OneMoreApplied(rows: Rows, events: seq<Event>, e: Event)
    ensures Applied(rows, events + [e]) == Applied(rows, events)[e.thread := Archived]
  {
    assert (events + [e])[..|events|] == events;
  }

  lemma ArchiveConsistent(w: World, op: Op, at: nat)
    requires Consistent(w) && op.Archive?
    ensures Consistent(Step(w, op, at))
  {
    hide Consistent;
    BegunConsistent(w);
    if Accepts(w.rows, op) {
      PushConsistent(Begun(w), Event(op.thread, op.runtime, at));
    }
  }

  lemma CommitConsistent(w: World, at: nat)
    requires Consistent(w)
    ensures Consistent(Step(w, Commit, at))
  {
    CommitSpans(w);
    AppliedKeeps(Durable(w), AllPending(w.frames));
  }

  lemma SavepointConsistent(w: World, at: nat)
    requires Consistent(w)
    ensures Consistent(Step(w, Savepoint, at))
  {
    var b, w' := Begun(w), Step(w, Savepoint, at);
    assert Applied(b.rows, []) == b.rows;
    forall k | 0 <= k < |b.frames| ensures After(w', k) == After(b, k) && b.frames[k] == w'.frames[k] {
    }
  }

  lemma RollbackConsistent(w: World, k: nat, at: nat)
    requires Consistent(w)
    ensures Consistent(Step(w, RollbackTo(k), at))
  {
    var w' := Step(w, RollbackTo(k), at);
    forall j | 0 <= j < |w'.frames| ensures After(w', j) == After(w, j) {
    }
  }

  lemma StepConsistent(w: World, op: Op, at: nat)
    requires Consistent(w)
    ensures Consistent(Step(w, op, at))
  {
    match op
    case Archive(_, _, _) => ArchiveConsistent(w, op, at);
    case Savepoint => SavepointConsistent(w, at);
    case Release =>
      if |w.frames| >= 2 {
        ReleaseConsistent(w, at);
      }
    case RollbackTo(k) => RollbackConsistent(w, k, at);
    case Commit => CommitConsistent(w, at);
    case RollbackAll => RollbackConsistent(w, 0, at);
    case Close => RollbackConsistent(w, 0, at);
  }

  lemma {:induction false} RunConsistent(rows: Rows, ops: seq<Op>)
    ensures Consistent(Run(rows, ops))
  {
    if ops != [] {
      RunConsistent(rows, ops[..|ops| - 1]);
      StepConsistent(Run(rows, ops[..|ops| - 1]), ops[|ops| - 1], |ops| - 1);
    }
  }

  // ---------------------------------------------------------------- the fate of one archive

  /** Pending in the frame with this index, committed for good, or rolled back. */
  datatype Fate = Open(level: nat) | Landed | Lost

  /** How one more operation changes the fate of an archive when `depth` frames are open. It
      mentions neither rows nor intents. */
  function NextFate(f: Fate, depth: nat, op: Op): Fate {
    if !f.Open? then f
    else match op
      case Release => if depth >= 2 && f.level == depth - 1 then Open(depth - 2) else f
      case RollbackTo(k) => if k < depth && k <= f.level then Lost else f
      case Commit => Landed
      case RollbackAll => Lost
      case Close => Lost
      case _ => f
  }

  function NextDepth(depth: nat, op: Op): nat {
    match op
    case Archive(_, _, _) => if depth == 0 then 1 else depth
    case Savepoint => if depth == 0 then 2 else depth + 1
    case Release => if depth < 2 then depth else depth - 1
    case RollbackTo(k) => if k < depth then k else depth
    case _ => 0
  }

  function Depth(ops: seq<Op>): nat {
    if ops == [] then 0 else NextDepth(Depth(ops[..|ops| - 1]), ops[|ops| - 1])
  }

  lemma StepDepth(w: World, op: Op, at: nat)
    ensures |Step(w, op, at).frames| == NextDepth(|w.frames|, op)
  {
    hide AllPending;
  }

  lemma {:induction false} DepthIsFrames(rows: Rows, ops: seq<Op>)
    ensures |Run(rows, ops).frames| == Depth(ops)
  {
    if ops != [] {
      hide Step, NextDepth;
      DepthIsFrames(rows, ops[..|ops| - 1]);
      StepDepth(Run(rows, ops[..|ops| - 1]), ops[|ops| - 1], |ops| - 1);
    }
  }

  /** The fate, after all of `ops`, of the archive at position `i`. */
  function FateOf(ops: seq<Op>, i: nat): Fate
    requires i < |ops| && ops[i].Archive?
  {
    if i == |ops| - 1 then Open(Depth(ops) - 1)
    else NextFate(FateOf(ops[..|ops| - 1], i), Depth(ops[..|ops| - 1]), ops[|ops| - 1])
  }

  /** The archive at position `i` found its thread, archived already or without an active run. */
  predicate Happened(rows: Rows, ops: seq<Op>, i: nat) {
    i < |ops| && ops[i].Archive? &&
    var now := Run(rows, ops[..i]).rows;
    ops[i].thread in now && (ops[i].busy ==> now[ops[i].thread] == Archived)
  }

  function EventAt(ops: seq<Op>, i: nat): Event
    requires i < |ops| && ops[i].Archive?
  {
    Event(ops[i].thread, ops[i].runtime, i)
  }

  ghost predicate HasLanded(w: World, e: Event) {
    exists b | b in w.landed :: e in b
  }

  /** Event `e` sits exactly where fate `f` says. */
  ghost predicate Sits(w: World, e: Event, f: Fate) {
    && (f.Open? ==> f.level < |w.frames|)
    && (forall k | 0 <= k < |w.frames| :: e in w.frames[k].pending <==> f == Open(k))
    && (HasLanded(w, e) <==> f == Landed)
  }

  lemma {:induction false} InAllPending(frames: seq<Frame>, e: Event)
    ensures e in AllPending(frames) <==> exists k | 0 <= k < |frames| :: e in frames[k].pending
  {
    if frames != [] {
      InAllPending(frames[..|frames| - 1], e);
      var last := |frames| - 1;
      if e in frames[last].pending {
        assert 0 <= last < |frames|;
      } else if e in AllPending(frames[..last]) {
        var k :| 0 <= k < last && e in frames[..last][k].pending;
        assert frames[k] == frames[..last][k];
      } else {
        forall k | 0 <= k < |frames| ensures e !in frames[k].pending {
          assert k < last ==> frames[k] == frames[..last][k];
        }
      }
    }
  }

  lemma CommitSits(w: World, at: nat, e: Event, f: Fate)
    requires Sits(w, e, f)
    ensures Sits(Step(w, Commit, at), e, NextFate(f, |w.frames|, Commit))
  {
    InAllPending(w.frames, e);
    var w', batch := Step(w, Commit, at), AllPending(w.frames);
    assert batch in w'.landed;
    assert forall b :: b in w'.landed <==> b in w.landed || b == batch;
  }

  lemma ReleaseSits(w: World, at: nat, e: Event, f: Fate)
    requires Sits(w, e, f) && |w.frames| >= 2
    ensures Sits(Step(w, Release, at), e, NextFate(f, |w.frames|, Release))
  {
    var w', f' := Step(w, Release, at), NextFate(f, |w.frames|, Release);
    assert HasLanded(w', e) <==> HasLanded(w, e);
    hide HasLanded;
    var n := |w.frames| - 2;
    assert e in w'.frames[n].pending <==> e in w.frames[n].pending || e in w.frames[n + 1].pending;
    forall k | 0 <= k < |w'.frames| ensures e in w'.frames[k].pending <==> f' == Open(k) {
      assert k < n ==> w'.frames[k] == w.frames[k];
    }
  }

  lemma StepSits(w: World, op: Op, at: nat, e: Event, f: Fate)
    requires Sits(w, e, f) && e.at != at
    ensures Sits(Step(w, op, at), e, NextFate(f, |w.frames|, op))
  {
    if op.Commit? {
      CommitSits(w, at, e, f);
    } else if op.Release? && |w.frames| >= 2 {
      ReleaseSits(w, at, e, f);
    } else {
      var w', f' := Step(w, op, at), NextFate(f, |w.frames|, op);
      assert HasLanded(w', e) <==> HasLanded(w, e);
      hide HasLanded, AllPending;
      assert f'.Open? ==> f'.level < |w'.frames|;
      forall k | 0 <= k < |w'.frames| ensures e in w'.frames[k].pending <==> f' == Open(k) {
      }
    }
  }

  /** `e` stems from an archive of the run. */
  predicate Stems(rows: Rows, ops: seq<Op>, e: Event) {
    Happened(rows, ops, e.at) && e == EventAt(ops, e.at)
  }

  ghost predicate InPending(w: World, e: Event) {
    exists k | 0 <= k < |w.frames| :: e in w.frames[k].pending
  }

  /** Everything pending or landed stems from an archive of the run. */
  ghost predicate Known(rows: Rows, ops: seq<Op>, w: World) {
    forall e | InPending(w, e) || HasLanded(w, e) :: Stems(rows, ops, e)
  }

  lemma StemsBefore(rows: Rows, ops: seq<Op>, e: Event)
    requires ops != [] && Stems(rows, ops[..|ops| - 1], e)
    ensures Stems(rows, ops, e) && e.at < |ops| - 1
  {
    assert ops[..|ops| - 1][..e.at] == ops[..e.at];
  }

  /** An operation brings no event but the one it archives. */
  lemma StepBrings(w: World, op: Op, at: nat, e: Event)
    requires InPending(Step(w, op, at), e) || HasLanded(Step(w, op, at), e)
    ensures InPending(w, e) || HasLanded(w, e)
      || (op.Archive? && Accepts(w.rows, op) && e == Event(op.thread, op.runtime, at))
  {
    var w' := Step(w, op, at);
    if op.Commit? {
      InAllPending(w.frames, e);
    }
    if InPending(w', e) {
      var k :| 0 <= k < |w'.frames| && e in w'.frames[k].pending;
      assert k < |w.frames| && e in w.frames[k].pending ==> InPending(w, e);
      assert k + 1 < |w.frames| && e in w.frames[k + 1].pending ==> InPending(w, e);
    }
  }

  lemma {:induction false} RunKnown(rows: Rows, ops: seq<Op>)
    ensures Known(rows, ops, Run(rows, ops))
  {
    if ops != [] {
      var last := |ops| - 1;
      var w := Run(rows, ops[..last]);
      RunKnown(rows, ops[..last]);
      hide Step, InPending, HasLanded;
      forall e | InPending(Run(rows, ops), e) || HasLanded(Run(rows, ops), e) ensures Stems(rows, ops, e) {
        StepBrings(w, ops[last], last, e);
        if InPending(w, e) || HasLanded(w, e) {
          StemsBefore(rows, ops, e);
        }
      }
    }
  }

  /** The archive just made sits in the innermost frame and nowhere else. */
  lemma NewEventSits(rows: Rows, before: seq<Op>, w: World, op: Op)
    requires Known(rows, before, w) && op.Archive? && Accepts(w.rows, op)
    ensures Sits(Step(w, op, |before|), Event(op.thread, op.runtime, |before|),
                 Open(|Step(w, op, |before|).frames| - 1))
  {
    var e := Event(op.thread, op.runtime, |before|);
    assert !Stems(rows, before, e);
    assert !InPending(w, e) && !HasLanded(w, e);
    var w' := Step(w, op, |before|);
    assert w'.landed == w.landed;
    assert !HasLanded(w', e) by { hide Step; }
  }

  lemma RunUnfolds(rows: Rows, ops: seq<Op>)
    requires ops != []
    ensures Run(rows, ops) == Step(Run(rows, ops[..|ops| - 1]), ops[|ops| - 1], |ops| - 1)
  {
  }

  lemma FateUnfolds(ops: seq<Op>, i: nat)
    requires i < |ops| - 1 && ops[i].Archive?
    ensures ops[..|ops| - 1][i] == ops[i]
    ensures FateOf(ops, i) == NextFate(FateOf(ops[..|ops| - 1], i), Depth(ops[..|ops| - 1]), ops[|ops| - 1])
  {
  }

  lemma HappenedBefore(rows: Rows, ops: seq<Op>, i: nat)
    requires i < |ops| - 1 && Happened(rows, ops, i)
    ensures Happened(rows, ops[..|ops| - 1], i) && EventAt(ops, i) == EventAt(ops[..|ops| - 1], i)
  {
    assert ops[..|ops| - 1][..i] == ops[..i];
  }

  lemma JustHappened(rows: Rows, ops: seq<Op>)
    requires ops != [] && Happened(rows, ops, |ops| - 1)
    ensures Sits(Run(rows, ops), EventAt(ops, |ops| - 1), FateOf(ops, |ops| - 1))
  {
    hide Step, Sits, Known, Depth;
    var last := |ops| - 1;
    RunKnown(rows, ops[..last]);
    DepthIsFrames(rows, ops);
    RunUnfolds(rows, ops);
    NewEventSits(rows, ops[..last], Run(rows, ops[..last]), ops[last]);
  }

  /** In every run each archive sits where its fate says. */
  lemma {:induction false} RunSits(rows: Rows, ops: seq<Op>, i: nat)
    requires Happened(rows, ops, i)
    ensures Sits(Run(rows, ops), EventAt(ops, i), FateOf(ops, i))
    decreases |ops|
  {
    hide Step, Sits, Run, FateOf, Depth, NextFate, Accepts;
    var last := |ops| - 1;
    if i == last {
      JustHappened(rows, ops);
    } else {
      var before, w := ops[..last], Run(rows, ops[..last]);
      HappenedBefore(rows, ops, i);
      RunSits(rows, before, i);
      DepthIsFrames(rows, before);
      RunUnfolds(rows, ops);
      FateUnfolds(ops, i);
      StepSits(w, ops[last], last, EventAt(ops, i), FateOf(before, i));
    }
  }

  // ---------------------------------------------------------------- the hooks

  /** The intents that a list of archives amounts to: the last runtime given for each thread. */
  function Fold(events: seq<Event>): Intents {
    if events == [] then map[] else
      var last := events[|events| - 1];
      var before := Fold(events[..|events| - 1]);
      if last.runtime.Some? then before[last.thread := last.runtime.value] else before
  }

  lemma {:induction false} FoldConcat(a: seq<Event>, b: seq<Event>)
    ensures Fold(a + b) == Fold(a) + Fold(b)
  {
    if b == [] {
      assert a + b == a;
    } else {
      assert (a + b)[..|a + b| - 1] == a + b[..|b| - 1];
      FoldConcat(a, b[..|b| - 1]);
    }
  }

  lemma {:induction false} FoldKeys(events: seq<Event>, thread: string)
    ensures thread in Fold(events) <==> exists e | e in events :: e.thread == thread && e.runtime.Some?
  {
    if events != [] {
      var last := events[|events| - 1];
      FoldKeys(events[..|events| - 1], thread);
      assert events == events[..|events| - 1] + [last];
      assert last in events;
    }
  }

  /** The calls of `schedule_thread_deletion`. */
  type Calls = set<(string, Runtime)>

  function CallsOf(landed: seq<seq<Event>>): Calls {
    if landed == [] then {} else CallsOf(landed[..|landed| - 1]) + Fold(landed[|landed| - 1]).Items
  }

  lemma {:induction false} CallsFor(landed: seq<seq<Event>>, thread: string)
    ensures (exists r :: (thread, r) in CallsOf(landed))
      <==> exists b, e | b in landed && e in b :: e.thread == thread && e.runtime.Some?
  {
    if landed != [] {
      var last := landed[|landed| - 1];
      CallsFor(landed[..|landed| - 1], thread);
      FoldKeys(last, thread);
      assert landed == landed[..|landed| - 1] + [last];
      assert last in landed;
      assert thread in Fold(last) ==> (thread, Fold(last)[thread]) in Fold(last).Items;
    }
  }

  function Registered(registry: map<nat, Intents>, id: nat): Intents {
    if id in registry then registry[id] else map[]
  }

  /** The registry holds, under each open transaction, exactly the intents pending in its frame. */
  ghost predicate Registers(stack: seq<nat>, registry: map<nat, Intents>, frames: seq<Frame>) {
    && |stack| == |frames|
    && (forall i, j | 0 <= i < j < |stack| :: stack[i] != stack[j])
    && (forall k | 0 <= k < |stack| :: Registered(registry, stack[k]) == Fold(frames[k].pending))
    && (forall id | id in registry :: id in stack && registry[id] != map[])
  }

  /** A released savepoint's intents override those its parent holds for the same thread. */
  function MergedUp(registry: map<nat, Intents>, id: nat, parent: nat): map<nat, Intents> {
    var rest := registry - {id};
    var committed := Registered(registry, id);
    if committed == map[] then rest else rest[parent := Registered(rest, parent) + committed]
  }

  lemma RegistersNewFrame(stack: seq<nat>, registry: map<nat, Intents>, frames: seq<Frame>, id: nat, rows: Rows)
    requires Registers(stack, registry, frames) && id !in stack
    ensures Registers(stack + [id], registry, frames + [Frame(rows, [])])
  {
  }

  lemma RegistersArchive(stack: seq<nat>, registry: map<nat, Intents>, frames: seq<Frame>, e: Event)
    requires Registers(stack, registry, frames) && stack != []
    ensures var top := |frames| - 1;
      var frames' := frames[top := frames[top].(pending := frames[top].pending + [e])];
      Registers(stack, if e.runtime.None? then registry
                       else registry[stack[top] := Registered(registry, stack[top])[e.thread := e.runtime.value]],
                       frames')
  {
    var top := |frames| - 1;
    var pending := frames[top].pending + [e];
    assert pending[..|pending| - 1] == frames[top].pending && pending[|pending| - 1] == e;
    if e.runtime.Some? {
      assert stack[top] in stack;
      assert e.thread in Registered(registry, stack[top])[e.thread := e.runtime.value];
    }
  }

  lemma RegistersPop(stack: seq<nat>, registry: map<nat, Intents>, frames: seq<Frame>)
    requires Registers(stack, registry, frames) && stack != []
    ensures Registers(stack[..|stack| - 1], registry - {stack[|stack| - 1]}, frames[..|frames| - 1])
  {
    hide Fold;
    var top := |stack| - 1;
    assert stack == stack[..top] + [stack[top]];
    forall id | id in registry && id != stack[top] ensures id in stack[..top] {
      assert id in stack;
    }
  }

  /** Below the released savepoint nothing changes; its parent now holds both sets of intents. */
  lemma ReleasedIntents(stack: seq<nat>, registry: map<nat, Intents>, frames: seq<Frame>, k: nat)
    requires Registers(stack, registry, frames) && |stack| >= 2 && k < |stack| - 1
    ensures var n := |frames| - 2;
      Registered(MergedUp(registry, stack[n + 1], stack[n]), stack[k])
      == Fold(if k < n then frames[k].pending else frames[n].pending + frames[n + 1].pending)
  {
    var n := |frames| - 2;
    FoldConcat(frames[n].pending, frames[n + 1].pending);
    assert stack[k] != stack[n + 1] && (k < n ==> stack[k] != stack[n]);
    assert Registered(registry, stack[k]) == Fold(frames[k].pending);
    assert Registered(registry, stack[n + 1]) == Fold(frames[n + 1].pending);
    hide Registers, Fold;
    MergedIntents(registry, stack[n + 1], stack[n], stack[k]);
  }

  lemma MergedIntents(registry: map<nat, Intents>, id: nat, parent: nat, other: nat)
    requires other != id && parent != id
    ensures Registered(MergedUp(registry, id, parent), other)
      == if other == parent then Registered(registry, parent) + Registered(registry, id)
         else Registered(registry, other)
  {
    assert Registered(registry, parent) + map[] == Registered(registry, parent);
  }

  lemma ReleasedIds(stack: seq<nat>, registry: map<nat, Intents>, frames: seq<Frame>, id: nat)
    requires Registers(stack, registry, frames) && |stack| >= 2
    requires id in MergedUp(registry, stack[|stack| - 1], stack[|stack| - 2])
    ensures id in stack[..|stack| - 1] && MergedUp(registry, stack[|stack| - 1], stack[|stack| - 2])[id] != map[]
  {
    hide Fold;
    var n := |stack| - 2;
    assert stack[n] in stack[..n + 1];
    var committed := Registered(registry, stack[n + 1]);
    if id != stack[n] {
      assert id in registry && id in stack && id != stack[n + 1];
    } else if committed != map[] {
      var t :| t in committed;
      assert t in MergedUp(registry, stack[n + 1], stack[n])[id];
    }
  }

  lemma RegistersRelease(stack: seq<nat>, registry: map<nat, Intents>, frames: seq<Frame>)
    requires Registers(stack, registry, frames) && |stack| >= 2
    ensures var n := |frames| - 2;
      Registers(stack[..n + 1], MergedUp(registry, stack[n + 1], stack[n]),
                frames[..n] + [frames[n].(pending := frames[n].pending + frames[n + 1].pending)])
  {
    hide Fold, MergedUp, Registered;
    var n := |frames| - 2;
    forall k | 0 <= k < |stack| - 1
      ensures Registered(MergedUp(registry, stack[n + 1], stack[n]), stack[k])
           == Fold(if k < n then frames[k].pending else frames[n].pending + frames[n + 1].pending)
    {
      ReleasedIntents(stack, registry, frames, k);
    }
    var merged := MergedUp(registry, stack[n + 1], stack[n]);
    forall id | id in merged ensures id in stack[..n + 1] && merged[id] != map[] {
      ReleasedIds(stack, registry, frames, id);
    }
  }

  /** The fields of a session, as a value. */
  datatype View = View(stack: seq<nat>, nextId: nat, intents: Option<map<nat, Intents>>, rows: Rows,
                       snapshots: seq<Rows>, scheduled: Calls)

  function RegistryOf(intents: Option<map<nat, Intents>>): map<nat, Intents> {
    if intents.Some? then intents.value else map[]
  }

  /** `_discard_empty_intent_registry`: an empty registry leaves no entry in `session.info`. */
  function Stored(registry: map<nat, Intents>): Option<map<nat, Intents>> {
    if registry == map[] then None else Some(registry)
  }

  ghost predicate SnapshotsOf(snapshots: seq<Rows>, frames: seq<Frame>) {
    |snapshots| == |frames| && forall k | 0 <= k < |snapshots| :: snapshots[k] == frames[k].snapshot
  }

  /** The session agrees with the reference database `w`. */
  ghost predicate Matches(v: View, w: World) {
    && Registers(v.stack, RegistryOf(v.intents), w.frames)
    && v.intents != Some(map[])
    && (forall k | 0 <= k < |v.stack| :: v.stack[k] < v.nextId)
    && v.rows == w.rows
    && SnapshotsOf(v.snapshots, w.frames)
    && v.scheduled == CallsOf(w.landed)
  }

  lemma MatchesShape(v: View, w: World)
    requires Matches(v, w)
    ensures |v.stack| == |v.snapshots| == |w.frames| && v.rows == w.rows
  {
  }

  lemma MatchesBegin(v: View, w: World)
    requires Matches(v, w)
    ensures Matches(v.(stack := v.stack + [v.nextId], snapshots := v.snapshots + [v.rows], nextId := v.nextId + 1),
                    w.(frames := w.frames + [Frame(w.rows, [])]))
  {
    RegistersNewFrame(v.stack, RegistryOf(v.intents), w.frames, v.nextId, w.rows);
    hide Registers;
  }

  lemma MatchesArchive(v: View, w: World, e: Event)
    requires Matches(v, w) && v.stack != []
    ensures var top := |w.frames| - 1;
      var registry := RegistryOf(v.intents);
      |v.stack| == |w.frames| &&
      Matches(v.(rows := v.rows[e.thread := Archived],
                 intents := if e.runtime.None? then v.intents
                            else Some(registry[v.stack[top] :=
                              Registered(registry, v.stack[top])[e.thread := e.runtime.value]])),
              w.(rows := w.rows[e.thread := Archived],
                 frames := w.frames[top := w.frames[top].(pending := w.frames[top].pending + [e])]))
  {
    RegistersArchive(v.stack, RegistryOf(v.intents), w.frames, e);
    MatchesShape(v, w);
    hide Registers;
    if e.runtime.Some? {
      assert v.stack[|v.stack| - 1] in RegistryOf(v.intents)[v.stack[|v.stack| - 1] := map[]];
    }
  }

  /** The innermost frame goes; the rows become what the database makes of them. */
  lemma MatchesPop(v: View, w: World, rows: Rows)
    requires Matches(v, w) && v.stack != []
    ensures var top := |v.stack| - 1;
      |v.snapshots| == |w.frames| == top + 1 && v.snapshots[top] == w.frames[top].snapshot &&
      Matches(v.(stack := v.stack[..top], snapshots := v.snapshots[..top], rows := rows,
                 intents := Stored(RegistryOf(v.intents) - {v.stack[top]})),
              w.(rows := rows, frames := w.frames[..top]))
  {
    MatchesShape(v, w);
    RegistersPop(v.stack, RegistryOf(v.intents), w.frames);
    hide Registers;
    StoredRegistry(RegistryOf(v.intents) - {v.stack[|v.stack| - 1]});
  }

  lemma MatchesRelease(v: View, w: World)
    requires Matches(v, w) && |v.stack| >= 2
    ensures var top := |v.stack| - 1;
      |v.snapshots| == top + 1 &&
      Matches(v.(stack := v.stack[..top], snapshots := v.snapshots[..top],
                 intents := Stored(MergedUp(RegistryOf(v.intents), v.stack[top], v.stack[top - 1]))),
              Step(w, Release, 0))
  {
    MatchesShape(v, w);
    var top := |v.stack| - 1;
    RegistersRelease(v.stack, RegistryOf(v.intents), w.frames);
    hide Registers, MergedUp;
    StoredRegistry(MergedUp(RegistryOf(v.intents), v.stack[top], v.stack[top - 1]));
  }

  lemma MatchesCommit(v: View, w: World)
    requires Matches(v, w) && |v.stack| == 1
    ensures Matches(v.(stack := [], snapshots := [], intents := None,
                       scheduled := v.scheduled + Registered(RegistryOf(v.intents), v.stack[0]).Items),
                    Step(w, Commit, 0))
  {
    assert w.frames == [] + [w.frames[0]];
    assert AllPending(w.frames) == w.frames[0].pending;
  }

  lemma StoredRegistry(registry: map<nat, Intents>)
    ensures RegistryOf(Stored(registry)) == registry && Stored(registry) != Some(map[])
  {
  }

  /** Closing a transaction whose intents are already gone changes nothing. */
  lemma EndIsIdle(registry: map<nat, Intents>, id: nat)
    requires id !in registry
    ensures Stored(RegistryOf(Stored(registry)) - {id}) == Stored(registry)
  {
    assert registry - {id} == registry;
  }

  /** With only the root open, the registry holds nothing but the root's intents. */
  lemma RootIsLast(v: View, w: World)
    requires Matches(v, w) && v.stack != []
    ensures |v.stack| == 1 ==> Stored(RegistryOf(v.intents) - {v.stack[0]}) == None
    ensures forall id :: Stored(RegistryOf(None) - {id}) == None
  {
    if |v.stack| == 1 {
      assert forall id | id in RegistryOf(v.intents) :: id in v.stack && id == v.stack[0];
      assert RegistryOf(v.intents) - {v.stack[0]} == map[];
    }
    assert forall id :: RegistryOf(None) - {id} == map[];
  }

  lemma MergedUpDrops(v: View, w: World)
    requires Matches(v, w) && |v.stack| >= 2
    ensures var top := |v.stack| - 1; v.stack[top] !in MergedUp(RegistryOf(v.intents), v.stack[top], v.stack[top - 1])
  {
  }

  function Intent(intents: Option<map<nat, Intents>>, id: nat, thread: string): Option<Runtime> {
    var held := Registered(RegistryOf(intents), id);
    if thread in held then Some(held[thread]) else None
  }

  function FoldedAt(events: seq<Event>, thread: string): Option<Runtime> {
    var held := Fold(events);
    if thread in held then Some(held[thread]) else None
  }

  lemma FoldedConcat(a: seq<Event>, b: seq<Event>, thread: string)
    ensures FoldedAt(a + b, thread) == if FoldedAt(b, thread).Some? then FoldedAt(b, thread) else FoldedAt(a, thread)
  {
    FoldConcat(a, b);
  }

  lemma IntentAt(v: View, w: World, k: nat, thread: string)
    requires Matches(v, w) && k < |w.frames|
    ensures |v.stack| == |w.frames| && Intent(v.intents, v.stack[k], thread) == FoldedAt(w.frames[k].pending, thread)
  {
    assert Registered(RegistryOf(v.intents), v.stack[k]) == Fold(w.frames[k].pending);
  }

  /** The runtime a commit of the first `n` frames would use for the thread: the innermost intent for it. */
  function Due(v: View, n: nat, thread: string): Option<Runtime>
    requires n <= |v.stack|
  {
    if n == 0 then None
    else if Intent(v.intents, v.stack[n - 1], thread).Some? then Intent(v.intents, v.stack[n - 1], thread)
    else Due(v, n - 1, thread)
  }

  lemma {:induction false} DueIs(v: View, w: World, n: nat, thread: string)
    requires Matches(v, w) && n <= |w.frames| == |v.stack|
    ensures Due(v, n, thread) == FoldedAt(AllPending(w.frames[..n]), thread)
  {
    if n > 0 {
      DueIs(v, w, n - 1, thread);
      IntentAt(v, w, n - 1, thread);
      assert w.frames[..n][..n - 1] == w.frames[..n - 1];
      FoldedConcat(AllPending(w.frames[..n - 1]), w.frames[n - 1].pending, thread);
    }
  }

  /** A commit schedules, for every thread, what is due for it. */
  lemma CommitSchedules(v: View, w: World, v': View, at: nat)
    requires Matches(v, w) && Matches(v', Step(w, Commit, at))
    ensures |v.stack| == |w.frames|
    ensures forall t, r :: (t, r) in v'.scheduled <==> (t, r) in v.scheduled || Due(v, |v.stack|, t) == Some(r)
  {
    MatchesShape(v, w);
    assert w.frames[..|w.frames|] == w.frames;
    var batch, landed := AllPending(w.frames), Step(w, Commit, at).landed;
    assert landed[..|landed| - 1] == w.landed && landed[|landed| - 1] == batch;
    assert v'.scheduled == CallsOf(w.landed) + Fold(batch).Items;
    forall t, r ensures (t, r) in Fold(batch).Items <==> Due(v, |v.stack|, t) == Some(r) {
      DueIs(v, w, |v.stack|, t);
    }
  }

  lemma NothingIntended(v: View, w: World)
    requires Matches(v, w) && w.frames == []
    ensures v.intents == None && v.stack == [] && v.snapshots == []
  {
    var registry := RegistryOf(v.intents);
    assert forall id | id in registry :: id in v.stack;
    assert registry == map[];
  }

  /** The same landed archives mean the same scheduled deletions. */
  lemma SameScheduled(v: View, w: World, v': View, w': World)
    requires Matches(v, w) && Matches(v', w')
    ensures w'.landed == w.landed ==> v'.scheduled == v.scheduled
  {
    hide Registers, SnapshotsOf;
  }

  /** What a rollback to frame `k` leaves: the rows that frame started from, and the intents of the outer frames. */
  lemma RollbackLands(v: View, w: World, k: nat, v': View, at: nat)
    requires Matches(v, w) && k < |w.frames| && Matches(v', Step(w, RollbackTo(k), at))
    ensures |v.stack| == |v.snapshots| == |w.frames| && |v'.stack| == k
    ensures v'.rows == v.snapshots[k] && v'.snapshots == v.snapshots[..k] && v'.scheduled == v.scheduled
    ensures forall j, t | 0 <= j < k :: Intent(v'.intents, v'.stack[j], t) == Intent(v.intents, v.stack[j], t)
  {
    var w' := Step(w, RollbackTo(k), at);
    forall j, t | 0 <= j < k
      ensures |v'.stack| == k && Intent(v'.intents, v'.stack[j], t) == Intent(v.intents, v.stack[j], t)
    {
      IntentAt(v, w, j, t);
      IntentAt(v', w', j, t);
    }
    hide Intent, Fold, Registered;
  }

  /** What a released savepoint leaves: its intents go to its parent, over those the parent had. */
  lemma ReleaseLands(v: View, w: World, v': View, at: nat)
    requires Matches(v, w) && |w.frames| >= 2 && Matches(v', Step(w, Release, at))
    ensures |v.stack| == |w.frames| && |v'.stack| == |v.stack| - 1 && v'.rows == v.rows && v'.scheduled == v.scheduled
    ensures forall j, t | 0 <= j < |v'.stack| :: HandedDown(v, v', j, t)
  {
    hide Intent, FoldedAt, Registers;
    var n, w' := |w.frames| - 2, Step(w, Release, at);
    MatchesShape(v, w);
    MatchesShape(v', w');
    forall j, t | 0 <= j < |v'.stack| ensures HandedDown(v, v', j, t) {
      IntentAt(v, w, j, t);
      IntentAt(v, w, n + 1, t);
      IntentAt(v', w', j, t);
      FoldedConcat(w.frames[n].pending, w.frames[n + 1].pending, t);
    }
  }

  /** Frame `j` holds what it held; the parent of the released savepoint holds what that one held as well. */
  ghost predicate HandedDown(v: View, v': View, j: nat, thread: string)
    requires j < |v'.stack| == |v.stack| - 1
  {
    var top := |v.stack| - 1;
    Intent(v'.intents, v'.stack[j], thread) ==
      if j == top - 1 && Intent(v.intents, v.stack[top], thread).Some? then Intent(v.intents, v.stack[top], thread)
      else Intent(v.intents, v.stack[j], thread)
  }

  class CleanupSession {
    var stack: seq<nat>
    var nextId: nat
    var intents: Option<map<nat, Intents>>
    var rows: Rows
    var snapshots: seq<Rows>
    var scheduled: Calls
    ghost const initial: Rows
    ghost var log: seq<Op>

    ghost function Seen(): View
      reads this
    {
      View(stack, nextId, intents, rows, snapshots, scheduled)
    }

    /** The session agrees with the reference database after the same operations. */
    ghost predicate Valid()
      reads this
    {
      Matches(Seen(), Run(initial, log))
    }

    ghost function Innermost(): nat
      requires stack != []
      reads this
    {
      stack[|stack| - 1]
    }

    /** The runtime that is to delete the checkpoints of the thread once transaction `id` commits. */
    ghost function IntentOf(id: nat, thread: string): Option<Runtime>
      reads this
    {
      Intent(intents, id, thread)
    }

    constructor (rows: Rows)
      ensures Valid() && initial == rows && log == []
    {
      this.rows, initial := rows, rows;
      stack, nextId, intents, snapshots, scheduled, log := [], 0, None, [], {}, [];
    }

    /** for thread_id, runtime in committed.items(): runtime.schedule_thread_deletion(thread_id) */
    method ScheduleAll(committed: Intents)
      modifies this`scheduled
      ensures scheduled == old(scheduled) + committed.Items
    {
      var left := committed.Keys;
      while left != {}
        invariant left <= committed.Keys
        invariant scheduled == old(scheduled) + set t | t in committed && t !in left :: (t, committed[t])
        decreases left
      {
        var thread :| thread in left;
        left := left - {thread};
        scheduled := scheduled + {(thread, committed[thread])};
      }
      forall p | p in committed.Items ensures p in (set t | t in committed && t !in left :: (t, committed[t])) {
        assert p.0 in committed && p == (p.0, committed[p.0]);
      }
    }

    /** `_delete_committed_checkpoint_threads` */
    method AfterCommit()
      requires stack != []
      modifies this`intents, this`scheduled
      ensures intents == if |stack| == 1 then Stored(RegistryOf(old(intents)) - {stack[0]})
                         else Stored(MergedUp(RegistryOf(old(intents)), stack[|stack| - 1], stack[|stack| - 2]))
      ensures scheduled == if |stack| == 1 then old(scheduled) + Registered(RegistryOf(old(intents)), stack[0]).Items
                           else old(scheduled)
    {
      var registry, top := RegistryOf(intents), |stack| - 1;
      var committed := if stack[top] in registry then registry[stack[top]] else map[];
      registry := registry - {stack[top]};
      if top > 0 {
        if committed != map[] {
          var parent := stack[top - 1];
          if parent !in registry {
            registry := registry[parent := map[]];
          }
          registry := registry[parent := registry[parent] + committed];
        }
        assert registry == MergedUp(RegistryOf(old(intents)), stack[top], stack[top - 1]);
        intents := Stored(registry);
        return;
      }
      intents := Stored(registry);
      ScheduleAll(committed);
    }

    /** `_discard_rolled_back_checkpoint_cleanup` */
    method AfterRollback()
      requires stack != []
      modifies this`intents
      ensures intents == if |stack| >= 2 then Stored(RegistryOf(old(intents)) - {stack[|stack| - 1]}) else None
    {
      if |stack| > 1 {
        intents := Stored(RegistryOf(intents) - {stack[|stack| - 1]});
        return;
      }
      intents := None;
    }

    /** `_discard_ended_checkpoint_cleanup`, fired when transaction `id` closes. */
    method AfterTransactionEnd(id: nat)
      modifies this`intents
      ensures intents == Stored(RegistryOf(old(intents)) - {id})
    {
      intents := Stored(RegistryOf(intents) - {id});
    }

    method Begin(ghost w: World)
      requires Matches(Seen(), w)
      modifies this`stack, this`nextId, this`snapshots
      ensures Matches(Seen(), w.(frames := w.frames + [Frame(w.rows, [])]))
      ensures snapshots == old(snapshots) + [rows] && |stack| == |old(stack)| + 1 && stack[..|old(stack)|] == old(stack)
    {
      MatchesBegin(Seen(), w);
      hide Matches;
      stack, snapshots, nextId := stack + [nextId], snapshots + [rows], nextId + 1;
    }

    method EnsureBegun(ghost w: World)
      requires Matches(Seen(), w)
      modifies this`stack, this`nextId, this`snapshots
      ensures Matches(Seen(), Begun(w)) && stack != []
      ensures if old(stack) == [] then snapshots == [rows] && |stack| == 1
              else stack == old(stack) && snapshots == old(snapshots)
    {
      MatchesShape(Seen(), w);
      hide Matches;
      if stack == [] {
        assert w.frames + [Frame(w.rows, [])] == [Frame(w.rows, [])];
        Begin(w);
        MatchesShape(Seen(), Begun(w));
      }
    }

    /** Close the innermost transaction without its own rollback, as an enclosing rollback does. */
    method CloseInnermost(ghost w: World)
      requires Matches(Seen(), w) && stack != []
      modifies this`stack, this`snapshots, this`intents
      ensures Matches(Seen(), w.(frames := w.frames[..|w.frames| - 1]))
    {
      hide Matches, RegistryOf, Stored;
      MatchesShape(Seen(), w);
      MatchesPop(Seen(), w, rows);
      var id := stack[|stack| - 1];
      stack, snapshots := stack[..|stack| - 1], snapshots[..|snapshots| - 1];
      AfterTransactionEnd(id);
    }

    /** ROLLBACK TO the innermost savepoint, or ROLLBACK of the root. */
    method RollbackInnermost(ghost w: World)
      requires Matches(Seen(), w) && stack != []
      modifies this
      ensures |w.frames| == old(|stack|) && log == old(log)
      ensures Matches(Seen(), w.(rows := w.frames[|w.frames| - 1].snapshot, frames := w.frames[..|w.frames| - 1]))
    {
      hide Matches, RegistryOf, Stored;
      MatchesShape(Seen(), w);
      MatchesPop(Seen(), w, w.frames[|w.frames| - 1].snapshot);
      var id := stack[|stack| - 1];
      EndIsIdle(RegistryOf(intents) - {id}, id);
      RootIsLast(Seen(), w);
      rows := snapshots[|snapshots| - 1];
      AfterRollback();
      stack, snapshots := stack[..|stack| - 1], snapshots[..|snapshots| - 1];
      AfterTransactionEnd(id);
    }

    /** RELEASE of the innermost savepoint. */
    method ReleaseInnermost(ghost w: World)
      requires Matches(Seen(), w) && |stack| >= 2
      modifies this
      ensures Matches(Seen(), Step(w, Release, 0)) && log == old(log)
    {
      hide Matches, RegistryOf, Stored, MergedUp, Step;
      MatchesRelease(Seen(), w);
      MergedUpDrops(Seen(), w);
      var id := stack[|stack| - 1];
      EndIsIdle(MergedUp(RegistryOf(intents), id, stack[|stack| - 2]), id);
      AfterCommit();
      stack, snapshots := stack[..|stack| - 1], snapshots[..|snapshots| - 1];
      AfterTransactionEnd(id);
    }

    /** COMMIT of the root transaction. */
    method CommitRoot(ghost w: World)
      requires Matches(Seen(), w) && |stack| == 1
      modifies this
      ensures Matches(Seen(), Step(w, Commit, 0)) && log == old(log)
    {
      hide Matches, RegistryOf, Stored, Step;
      MatchesCommit(Seen(), w);
      RootIsLast(Seen(), w);
      var id := stack[0];
      AfterCommit();
      stack, snapshots := [], [];
      AfterTransactionEnd(id);
    }

    /** `archive_thread`: the row changes, and the intent goes to the innermost open frame. */
    method ArchiveThread(thread: string, busy: bool, runtime: Option<Runtime>) returns (ok: bool)
      requires Valid()
      modifies this
      ensures Valid() && log == old(log) + [Archive(thread, busy, runtime)]
      ensures ok == (thread in old(rows) && !(old(rows)[thread] == Live && busy))
      ensures rows == if ok then old(rows)[thread := Archived] else old(rows)
      ensures scheduled == old(scheduled) && stack != []
      ensures old(stack) != [] ==> stack == old(stack) && snapshots == old(snapshots)
      ensures forall id, t ::
        IntentOf(id, t) == if ok && runtime.Some? && id == Innermost()
          && t == thread then runtime else old(IntentOf(id, t))
      ensures !ok ==> intents == old(intents)
    {
      ghost var op, w, at := Archive(thread, busy, runtime), Run(initial, log), |log|;
      LogGrows(initial, log, op);
      hide Run, Matches;
      EnsureBegun(w);
      log := log + [op];
      MatchesShape(Seen(), Begun(w));
      if thread !in rows || (rows[thread] == Live && busy) {
        return false;
      }
      MatchesArchive(Seen(), Begun(w), Event(thread, runtime, at));
      rows := rows[thread := Archived];
      if runtime.Some? {
        var registry, transaction := RegistryOf(intents), stack[|stack| - 1];
        intents := Some(registry[transaction := Registered(registry, transaction)[thread := runtime.value]]);
      }
      return true;
    }

    method BeginNested()
      requires Valid()
      modifies this
      ensures Valid() && log == old(log) + [Savepoint]
      ensures rows == old(rows) && intents == old(intents) && scheduled == old(scheduled)
      ensures snapshots == (if old(stack) == [] then [rows] else old(snapshots)) + [rows]
    {
      ghost var w := Run(initial, log);
      LogGrows(initial, log, Savepoint);
      hide Run, Matches;
      EnsureBegun(w);
      Begin(Begun(w));
      log := log + [Savepoint];
    }

    method ReleaseSavepoint()
      requires Valid()
      modifies this
      ensures Valid() && log == old(log) + [Release]
      ensures rows == old(rows) && scheduled == old(scheduled)
      ensures |old(stack)| < 2 ==> stack == old(stack) && intents == old(intents)
      ensures |old(stack)| >= 2 ==>
        |stack| == |old(stack)| - 1 && forall j, t | 0 <= j < |stack| :: HandedDown(old(Seen()), Seen(), j, t)
    {
      ghost var w := Run(initial, log);
      ghost var before := Seen();
      LogGrows(initial, log, Release);
      hide Run, Matches;
      MatchesShape(Seen(), w);
      if |stack| >= 2 {
        ReleaseInnermost(w);
        ReleaseLands(before, w, Seen(), 0);
      }
      log := log + [Release];
    }

    /** Roll back frame `k`: the frames inside it are closed first. */
    method RollbackFrame(k: nat)
      requires Valid()
      modifies this
      ensures Valid() && log == old(log) + [RollbackTo(k)] && scheduled == old(scheduled)
      ensures k >= |old(stack)| ==> rows == old(rows) && stack == old(stack) && intents == old(intents)
      ensures k < |old(stack)| == |old(snapshots)| ==> rows == old(snapshots)[k] && |stack| == k
      ensures k < |old(stack)| ==> forall j, t | 0 <= j < k == |stack| ::
        Intent(intents, stack[j], t) == Intent(old(intents), old(stack)[j], t)
    {
      ghost var w := Run(initial, log);
      ghost var before := Seen();
      LogGrows(initial, log, RollbackTo(k));
      hide Run, Matches;
      MatchesShape(Seen(), w);
      if k < |stack| {
        ghost var n := |stack|;
        assert w.frames[..n] == w.frames && w.(frames := w.frames[..n]) == w;
        while |stack| > k + 1
          invariant k + 1 <= n <= |w.frames| && |stack| == n
          invariant Matches(Seen(), w.(frames := w.frames[..n])) && log == old(log)
          decreases |stack|
        {
          CloseInnermost(w.(frames := w.frames[..n]));
          assert w.frames[..n][..n - 1] == w.frames[..n - 1];
          n := n - 1;
          MatchesShape(Seen(), w.(frames := w.frames[..n]));
        }
        RollbackInnermost(w.(frames := w.frames[..n]));
        assert w.frames[..n][..n - 1] == w.frames[..k];
        RollbackLands(before, w, k, Seen(), |log|);
      }
      log := log + [RollbackTo(k)];
    }

    /** `Session.commit`: every open savepoint is released into its parent, then the root commits. */
    method CommitAll()
      requires Valid()
      modifies this
      ensures Valid() && log == old(log) + [Commit] && stack == []
      ensures rows == old(rows) && intents == None
      ensures forall t, r :: (t, r) in scheduled <==>
        (t, r) in old(scheduled) || Due(old(Seen()), |old(stack)|, t) == Some(r)
    {
      ghost var w, before := Run(initial, log), Seen();
      LogGrows(initial, log, Commit);
      hide Run, Matches;
      EnsureBegun(w);
      ghost var v := Begun(w);
      BegunPending(w);
      MatchesShape(Seen(), v);
      while |stack| > 1
        invariant stack != [] && |stack| == |v.frames|
        invariant Matches(Seen(), v) && log == old(log)
        invariant v.rows == w.rows && v.landed == w.landed && AllPending(v.frames) == AllPending(w.frames)
        decreases |stack|
      {
        ReleaseInnermost(v);
        ReleaseKeepsPending(v);
        v := Step(v, Release, 0);
        MatchesShape(Seen(), v);
      }
      CommitRoot(v);
      MatchesShape(Seen(), Step(v, Commit, 0));
      NothingIntended(Seen(), Step(v, Commit, 0));
      CommitSchedules(before, w, Seen(), 0);
      log := log + [Commit];
    }

    /** `Session.rollback`: every open frame is rolled back, innermost first. */
    method RollbackToRoot()
      requires Valid()
      modifies this
      ensures Valid() && log == old(log) + [RollbackAll] && stack == []
      ensures intents == None && scheduled == old(scheduled)
      ensures rows == if old(snapshots) == [] then old(rows) else old(snapshots)[0]
    {
      ghost var w, before := Run(initial, log), Seen();
      LogGrows(initial, log, RollbackAll);
      hide Run, Matches;
      MatchesShape(Seen(), w);
      ghost var n := |stack|;
      ghost var v := w;
      assert w.frames[..n] == w.frames;
      while stack != []
        invariant 0 <= n <= |w.frames| && |stack| == n
        invariant Matches(Seen(), v) && log == old(log)
        invariant v.frames == w.frames[..n] && v.landed == w.landed
        invariant v.rows == if n == |w.frames| then w.rows else w.frames[n].snapshot
        decreases |stack|
      {
        RollbackInnermost(v);
        n := n - 1;
        assert v.frames[..n] == w.frames[..n];
        v := v.(rows := v.frames[n].snapshot, frames := v.frames[..n]);
        MatchesShape(Seen(), v);
      }
      NothingIntended(Seen(), v);
      SameScheduled(before, w, Seen(), v);
      SnapshotZeroIfAny(before, w);
      MatchesShape(Seen(), v);
      log := log + [RollbackAll];
    }

    /** `Session.close`: the frames end without a rollback hook, and the connection forgets the changes. */
    method CloseSession()
      requires Valid()
      modifies this
      ensures Valid() && log == old(log) + [Close] && stack == []
      ensures intents == None && scheduled == old(scheduled)
      ensures rows == if old(snapshots) == [] then old(rows) else old(snapshots)[0]
    {
      ghost var w, before := Run(initial, log), Seen();
      LogGrows(initial, log, Close);
      hide Run, Matches;
      MatchesShape(Seen(), w);
      if stack != [] {
        ghost var n := |stack|;
        var durable := snapshots[0];
        SnapshotZero(Seen(), w);
        assert w.frames[..n] == w.frames && w.(frames := w.frames[..n]) == w;
        while |stack| > 1
          invariant 1 <= n <= |w.frames| && |stack| == n
          invariant Matches(Seen(), w.(frames := w.frames[..n])) && log == old(log)
          decreases |stack|
        {
          CloseInnermost(w.(frames := w.frames[..n]));
          assert w.frames[..n][..n - 1] == w.frames[..n - 1];
          n := n - 1;
          MatchesShape(Seen(), w.(frames := w.frames[..n]));
        }
        MatchesPop(Seen(), w.(frames := w.frames[..n]), durable);
        assert w.frames[..n][..n - 1] == [];
        var id := stack[0];
        rows, stack, snapshots := durable, stack[..0], snapshots[..0];
        AfterTransactionEnd(id);
      }
      NothingIntended(Seen(), Step(w, Close, 0));
      SameScheduled(before, w, Seen(), Step(w, Close, 0));
      SnapshotZeroIfAny(before, w);
      log := log + [Close];
    }

    /** What the hooks of a live session have scheduled so far, in terms of its history alone. */
    lemma ScheduledSoFar(thread: string)
      requires Valid()
      ensures (exists r :: (thread, r) in scheduled) <==> exists i :: CommittedCleanup(initial, log, thread, i)
    {
      ScheduledExactly(initial, log, thread);
      MatchesCalls(Seen(), Run(initial, log));
    }
  }

  lemma MatchesCalls(v: View, w: World)
    requires Matches(v, w)
    ensures v.scheduled == CallsOf(w.landed)
  {
  }

  lemma LogGrows(rows: Rows, log: seq<Op>, op: Op)
    ensures Run(rows, log + [op]) == Step(Run(rows, log), op, |log|)
  {
    assert (log + [op])[..|log|] == log;
  }

  lemma BegunPending(w: World)
    ensures AllPending(Begun(w).frames) == AllPending(w.frames)
  {
    assert [Frame(w.rows, [])][..0] == [];
  }

  lemma ReleaseKeepsPending(w: World)
    requires |w.frames| >= 2
    ensures AllPending(Step(w, Release, 0).frames) == AllPending(w.frames)
  {
    var n, frames' := |w.frames| - 2, Step(w, Release, 0).frames;
    assert frames'[..n] == w.frames[..n] && w.frames[..n + 1][..n] == w.frames[..n];
  }

  lemma SnapshotZeroIfAny(v: View, w: World)
    requires Matches(v, w)
    ensures |v.snapshots| == |w.frames| && (w.frames != [] ==> v.snapshots[0] == w.frames[0].snapshot)
      && v.rows == w.rows
  {
  }

  lemma SnapshotZero(v: View, w: World)
    requires Matches(v, w) && v.stack != []
    ensures |v.snapshots| == |w.frames| == |v.stack| && v.snapshots[0] == w.frames[0].snapshot
  {
  }

  // ---------------------------------------------------------------- main results

  predicate IsArchived(rows: Rows, thread: string) {
    thread in rows && rows[thread] == Archived
  }

  ghost predicate LandedFor(w: World, thread: string) {
    exists e | HasLanded(w, e) :: e.thread == thread
  }

  lemma {:induction false} AppliedArchives(rows: Rows, events: seq<Event>, thread: string)
    ensures IsArchived(Applied(rows, events), thread)
      <==> IsArchived(rows, thread) || exists e | e in events :: e.thread == thread
  {
    AppliedKeeps(rows, events);
  }

  lemma CommitLands(w: World, at: nat, e: Event)
    ensures HasLanded(Step(w, Commit, at), e) <==> HasLanded(w, e) || e in AllPending(w.frames)
  {
    var batch := AllPending(w.frames);
    assert batch in Step(w, Commit, at).landed;
    assert forall b :: b in Step(w, Commit, at).landed <==> b in w.landed || b == batch;
  }

  lemma OtherwiseDurableStays(w: World, op: Op, at: nat)
    requires !op.Commit?
    ensures Durable(Step(w, op, at)) == Durable(w) && Step(w, op, at).landed == w.landed
  {
  }

  lemma CommitLandsFor(w: World, at: nat, thread: string)
    requires Consistent(w)
    ensures IsArchived(Durable(Step(w, Commit, at)), thread)
      <==> IsArchived(Durable(w), thread) || exists e | e in AllPending(w.frames) :: e.thread == thread
    ensures LandedFor(Step(w, Commit, at), thread)
      <==> LandedFor(w, thread) || exists e | e in AllPending(w.frames) :: e.thread == thread
  {
    CommitSpans(w);
    AppliedArchives(Durable(w), AllPending(w.frames), thread);
    hide Consistent, IsArchived, HasLanded, AllPending, Applied;
    forall e ensures HasLanded(Step(w, Commit, at), e) <==> HasLanded(w, e) || e in AllPending(w.frames) {
      CommitLands(w, at, e);
    }
  }

  lemma OtherwiseLandedStays(w: World, op: Op, at: nat, thread: string)
    requires !op.Commit?
    ensures Durable(Step(w, op, at)) == Durable(w) && LandedFor(Step(w, op, at), thread) == LandedFor(w, thread)
  {
    OtherwiseDurableStays(w, op, at);
    hide Step, Durable;
    assert forall e :: HasLanded(Step(w, op, at), e) <==> HasLanded(w, e);
  }

  lemma {:induction false} DurableFromLanded(rows: Rows, ops: seq<Op>, thread: string)
    ensures IsArchived(Durable(Run(rows, ops)), thread) <==>
      IsArchived(rows, thread) || LandedFor(Run(rows, ops), thread)
  {
    hide Step, IsArchived, HasLanded, AllPending, Consistent;
    if ops == [] {
      NothingLanded(rows, thread);
    } else {
      hide Run, Durable, LandedFor;
      var last := |ops| - 1;
      var w := Run(rows, ops[..last]);
      RunUnfolds(rows, ops);
      DurableFromLanded(rows, ops[..last], thread);
      if ops[last].Commit? {
        RunConsistent(rows, ops[..last]);
        CommitLandsFor(w, last, thread);
      } else {
        OtherwiseLandedStays(w, ops[last], last, thread);
      }
    }
  }

  lemma NothingLanded(rows: Rows, thread: string)
    ensures Durable(Run(rows, [])) == rows && !LandedFor(Run(rows, []), thread)
  {
  }

  /** The archive at position `j` has not been rolled back by the first `n` operations. */
  ghost predicate Survives(ops: seq<Op>, n: nat, j: nat) {
    j < n <= |ops| && ops[j].Archive? && FateOf(ops[..n], j) != Lost
  }

  /** The archive at position `i` goes through: its thread exists and, if it has an active run, is archived
      already. Like the fate of an archive this depends on the operations only, not on rows on the way. */
  ghost predicate GoesThrough(rows: Rows, ops: seq<Op>, i: nat)
    decreases i, 1
  {
    i < |ops| && ops[i].Archive? && ops[i].thread in rows && (ops[i].busy ==> ArchivedBy(rows, ops, i, ops[i].thread))
  }

  /** After the first `n` operations the session finds the thread archived. */
  ghost predicate ArchivedBy(rows: Rows, ops: seq<Op>, n: nat, thread: string)
    decreases n, 0
  {
    IsArchived(rows, thread) ||
    exists j: nat | j < n :: GoesThrough(rows, ops, j) && Survives(ops, n, j) && ops[j].thread == thread
  }

  ghost predicate HasThreads(w: World, threads: set<string>) {
    w.rows.Keys == threads && forall k | 0 <= k < |w.frames| :: w.frames[k].snapshot.Keys == threads
  }

  lemma StepKeepsThreads(w: World, op: Op, at: nat, threads: set<string>)
    requires HasThreads(w, threads)
    ensures HasThreads(Step(w, op, at), threads)
  {
    hide AllPending;
    var w' := Step(w, op, at);
    forall k | 0 <= k < |w'.frames| ensures w'.frames[k].snapshot.Keys == threads {
    }
  }

  lemma {:induction false} RunKeepsThreads(rows: Rows, ops: seq<Op>)
    ensures HasThreads(Run(rows, ops), rows.Keys)
  {
    if ops != [] {
      RunKeepsThreads(rows, ops[..|ops| - 1]);
      StepKeepsThreads(Run(rows, ops[..|ops| - 1]), ops[|ops| - 1], |ops| - 1, rows.Keys);
    }
  }

  /** The rows the session sees are archived through an archive that landed or is still pending. */
  lemma RowsFromEvents(rows: Rows, ops: seq<Op>, thread: string)
    ensures var w := Run(rows, ops);
      IsArchived(w.rows, thread) <==>
        IsArchived(rows, thread) || exists e | InPending(w, e) || HasLanded(w, e) :: e.thread == thread
  {
    hide Run, IsArchived, HasLanded, Applied, AllPending;
    var w := Run(rows, ops);
    RunConsistent(rows, ops);
    CommitSpans(w);
    AppliedArchives(Durable(w), AllPending(w.frames), thread);
    DurableFromLanded(rows, ops, thread);
    forall e ensures e in AllPending(w.frames) <==> InPending(w, e) {
      InAllPending(w.frames, e);
    }
  }

  lemma SitsSomewhere(w: World, e: Event, f: Fate)
    requires Sits(w, e, f)
    ensures InPending(w, e) || HasLanded(w, e) <==> f != Lost
  {
    assert f.Open? ==> e in w.frames[f.level].pending;
  }

  lemma RowsFromFates(rows: Rows, ops: seq<Op>, thread: string)
    ensures IsArchived(Run(rows, ops).rows, thread) <==>
      || IsArchived(rows, thread)
      || exists j: nat | j < |ops| :: Happened(rows, ops, j) && Survives(ops, |ops|, j) && ops[j].thread == thread
  {
    hide Run, IsArchived, HasLanded, InPending, FateOf, Happened, Sits;
    var w := Run(rows, ops);
    RowsFromEvents(rows, ops, thread);
    RunKnown(rows, ops);
    assert ops[..|ops|] == ops;
    if e :| (InPending(w, e) || HasLanded(w, e)) && e.thread == thread {
      HappenedShape(rows, ops, e.at);
      RunSits(rows, ops, e.at);
      SitsSomewhere(w, e, FateOf(ops, e.at));
      assert Happened(rows, ops, e.at) && Survives(ops, |ops|, e.at) && ops[e.at].thread == thread;
    }
    if j: nat :| j < |ops| && Happened(rows, ops, j) && Survives(ops, |ops|, j) && ops[j].thread == thread {
      HappenedShape(rows, ops, j);
      RunSits(rows, ops, j);
      SitsSomewhere(w, EventAt(ops, j), FateOf(ops, j));
    }
  }

  lemma HappenedShape(rows: Rows, ops: seq<Op>, i: nat)
    requires Happened(rows, ops, i)
    ensures i < |ops| && ops[i].Archive?
  {
  }

  /** Which archives go through, told from the operations alone. */
  lemma {:induction false} GoesThroughExactly(rows: Rows, ops: seq<Op>, i: nat)
    ensures Happened(rows, ops, i) <==> GoesThrough(rows, ops, i)
    decreases i
  {
    if i < |ops| && ops[i].Archive? {
      RunKeepsThreads(rows, ops[..i]);
      RowsFromFates(rows, ops[..i], ops[i].thread);
      forall j: nat | j < i
        ensures Happened(rows, ops[..i], j) <==> GoesThrough(rows, ops, j)
        ensures Survives(ops[..i], i, j) <==> Survives(ops, i, j)
        ensures ops[..i][j] == ops[j]
      {
        assert ops[..i][..j] == ops[..j] && ops[..i][..i] == ops[..i];
        GoesThroughExactly(rows, ops, j);
      }
    }
  }

  /** The archive of `thread` at position `i` was committed all the way to the root. */
  ghost predicate Committed(rows: Rows, ops: seq<Op>, thread: string, i: nat) {
    GoesThrough(rows, ops, i) && ops[i].thread == thread && FateOf(ops, i) == Landed
  }

  /** Such an archive, made while a checkpoint runtime was in force. */
  ghost predicate CommittedCleanup(rows: Rows, ops: seq<Op>, thread: string, i: nat) {
    Committed(rows, ops, thread, i) && ops[i].runtime.Some?
  }

  lemma LandedMeansCommitted(rows: Rows, ops: seq<Op>, e: Event)
    ensures HasLanded(Run(rows, ops), e) <==>
      e.at < |ops| && Committed(rows, ops, e.thread, e.at) && e == EventAt(ops, e.at)
  {
    RunKnown(rows, ops);
    GoesThroughExactly(rows, ops, e.at);
    hide Run, Accepts, FateOf, Sits;
    if e.at < |ops| && Happened(rows, ops, e.at) && e == EventAt(ops, e.at) {
      RunSits(rows, ops, e.at);
      SitsLanded(Run(rows, ops), e, FateOf(ops, e.at));
    }
  }

  lemma SitsLanded(w: World, e: Event, f: Fate)
    requires Sits(w, e, f)
    ensures HasLanded(w, e) <==> f == Landed
  {
  }

  /** What an outside reader sees: a thread is archived if and only if it was to begin with or some
      archive of it survived every savepoint and was committed. */
  lemma DurableExactly(rows: Rows, ops: seq<Op>, thread: string)
    ensures IsArchived(Durable(Run(rows, ops)), thread)
      <==> IsArchived(rows, thread) || exists i :: Committed(rows, ops, thread, i)
  {
    DurableFromLanded(rows, ops, thread);
    hide Run, IsArchived, Durable, Committed, HasLanded;
    var w := Run(rows, ops);
    if i: nat :| Committed(rows, ops, thread, i) {
      CommittedIsEvent(rows, ops, thread, i);
      LandedMeansCommitted(rows, ops, EventAt(ops, i));
    }
    if e :| HasLanded(w, e) && e.thread == thread {
      LandedMeansCommitted(rows, ops, e);
    }
  }

  lemma CommittedIsEvent(rows: Rows, ops: seq<Op>, thread: string, i: nat)
    requires Committed(rows, ops, thread, i)
    ensures i < |ops| && ops[i].Archive? && EventAt(ops, i).thread == thread && EventAt(ops, i).at == i
    ensures CommittedCleanup(rows, ops, thread, i) <==> EventAt(ops, i).runtime.Some?
  {
  }

  /** A deletion is scheduled for exactly the threads with a committed archive made while a
      checkpoint runtime was in force; a rolled-back archive never schedules one. */
  lemma ScheduledExactly(rows: Rows, ops: seq<Op>, thread: string)
    ensures (exists r :: (thread, r) in CallsOf(Run(rows, ops).landed))
      <==> exists i :: CommittedCleanup(rows, ops, thread, i)
  {
    var w := Run(rows, ops);
    CallsFor(w.landed, thread);
    if i: nat :| CommittedCleanup(rows, ops, thread, i) {
      hide Run, CallsOf, Committed;
      CommittedIsEvent(rows, ops, thread, i);
      LandedMeansCommitted(rows, ops, EventAt(ops, i));
      var b :| b in w.landed && EventAt(ops, i) in b;
    }
    if b, e :| b in w.landed && e in b && e.thread == thread && e.runtime.Some? {
      hide Run, CallsOf, Committed, CommittedCleanup;
      assert HasLanded(w, e);
      LandedMeansCommitted(rows, ops, e);
      CommittedIsEvent(rows, ops, thread, e.at);
      assert CommittedCleanup(rows, ops, thread, e.at);
    }
  }

  /** Only durably archived threads are ever scheduled. */
  lemma ScheduledIsDurable(rows: Rows, ops: seq<Op>, thread: string, r: Runtime)
    requires (thread, r) in CallsOf(Run(rows, ops).landed)
    ensures IsArchived(Durable(Run(rows, ops)), thread)
  {
    ScheduledExactly(rows, ops, thread);
    DurableExactly(rows, ops, thread);
    hide Run, IsArchived, Durable, Committed, CallsOf;
    var i: nat :| CommittedCleanup(rows, ops, thread, i);
    assert Committed(rows, ops, thread, i);
  }

  /** `reconcile_archived_checkpoint_threads`: every archived thread of the table is scheduled. */
  method Reconcile(rows: Rows) returns (scheduled: set<string>, count: nat)
    ensures forall t :: t in scheduled <==> IsArchived(rows, t)
    ensures count == |scheduled|
  {
    var ids := set t | t in rows && rows[t] == Archived;
    count, scheduled := |ids|, {};
    while ids != {}
      invariant scheduled !! ids && count == |scheduled| + |ids|
      invariant forall t :: t in scheduled + ids <==> IsArchived(rows, t)
      decreases ids
    {
      var thread :| thread in ids;
      ids := ids - {thread};
      scheduled := scheduled + {thread};
    }
  }

  /** A process that stops at any point loses its intents and the deletions it had not run. The
      next one sees the durable rows only, and its reconcile schedules all of those again. */
  method RestartCovers(rows: Rows, ops: seq<Op>) returns (scheduled: set<string>)
    ensures forall t, r | (t, r) in CallsOf(Run(rows, ops).landed) :: t in scheduled
    ensures forall t, i | Committed(rows, ops, t, i) :: t in scheduled
  {
    var count;
    scheduled, count := Reconcile(Durable(Run(rows, ops)));
    hide Run, IsArchived, Durable, Committed, CallsOf;
    forall t, r | (t, r) in CallsOf(Run(rows, ops).landed) ensures t in scheduled {
      ScheduledIsDurable(rows, ops, t, r);
    }
    forall t, i | Committed(rows, ops, t, i) ensures t in scheduled {
      DurableExactly(rows, ops, t);
    }
  }
}
