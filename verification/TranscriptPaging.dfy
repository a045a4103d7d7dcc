/** Cursor paging of a conversation transcript: runs are projected to messages, a message id is
    the cursor, and following `next_before` rebuilds the transcript from its pages. */
module TranscriptPaging {
  import opened Prelude

  datatype Role = User | Assistant
  datatype Message = Message(id: string, runId: string, role: Role, content: string, createdAt: int)

  /** A stored agent run. `question` and `answer` are None when the snapshot holds no string there. */
  datatype Run = Run(id: string, thread: string, chat: bool, question: Option<string>, success: bool,
                     answer: Option<string>, startedAt: int, completedAt: Option<int>)

  /** The runs of every thread, ordered as the query orders them. */
  type Runs = seq<Run>

  predicate UniqueIds(runs: Runs) {
    forall i, j | 0 <= i < j < |runs| :: runs[i].id != runs[j].id
  }

  function RoleName(role: Role): (name: string)
    ensures ':' !in name
  {
    if role.User? then "user" else "assistant"
  }

  function MessageId(runId: string, role: Role): string {
    runId + ":" + RoleName(role)
  }

  /** A non-empty string. */
  predicate Text(s: Option<string>) {
    s.Some? && s.value != ""
  }

  /** `_project_run_messages` */
  function Project(run: Run): seq<Message> {
    if !Text(run.question) then []
    else
      var question := Message(MessageId(run.id, User), run.id, User, run.question.value, run.startedAt);
      if !run.success || !Text(run.answer) then [question]
      else [question,
            Message(MessageId(run.id, Assistant), run.id, Assistant, run.answer.value,
                    if run.completedAt.Some? then run.completedAt.value else run.startedAt)]
  }

  /** `list_for_thread` followed by the projection of every run. */
  function Transcript(runs: Runs, thread: string): seq<Message> {
    if runs == [] then [] else
      var last := runs[|runs| - 1];
      Transcript(runs[..|runs| - 1], thread) + if last.thread == thread && last.chat then Project(last) else []
  }

  function LastColon(s: string): Option<nat> {
    if s == [] then None
    else if s[|s| - 1] == ':' then Some(|s| - 1)
    else LastColon(s[..|s| - 1])
  }

  /** `before.rpartition(":")` and the checks on its parts. */
  function ParseCursor(s: string): Option<(string, Role)> {
    match LastColon(s)
    case None => None
    case Some(i) =>
      if i >= |s| || i == 0 then None
      else if s[i + 1..] == "user" then Some((s[..i], User))
      else if s[i + 1..] == "assistant" then Some((s[..i], Assistant))
      else None
  }

  lemma {:induction false} LastColonIs(s: string)
    ensures LastColon(s).None? <==> ':' !in s
    ensures LastColon(s).Some? ==>
      LastColon(s).value < |s| && s[LastColon(s).value] == ':' && ':' !in s[LastColon(s).value + 1..]
  {
    if s != [] && s[|s| - 1] != ':' {
      var front := s[..|s| - 1];
      LastColonIs(front);
      assert s == front + [s[|s| - 1]];
      if LastColon(front).Some? {
        var i := LastColon(front).value;
        assert s[i + 1..] == front[i + 1..] + [s[|s| - 1]];
      }
    }
  }

  lemma {:induction false} LastColonUnique(s: string, i: nat)
    requires i < |s| && s[i] == ':' && ':' !in s[i + 1..]
    ensures LastColon(s) == Some(i)
  {
    if i < |s| - 1 {
      assert s[|s| - 1] in s[i + 1..];
      assert s[i + 1..] == s[..|s| - 1][i + 1..] + [s[|s| - 1]];
      LastColonUnique(s[..|s| - 1], i);
    }
  }

  lemma ParseMessageId(runId: string, role: Role)
    requires runId != ""
    ensures ParseCursor(MessageId(runId, role)) == Some((runId, role))
  {
    var s := MessageId(runId, role);
    assert s[|runId|] == ':' && s[|runId| + 1..] == RoleName(role) && s[..|runId|] == runId;
    LastColonUnique(s, |runId|);
  }

  lemma ParsedIsMessageId(s: string)
    requires ParseCursor(s).Some?
    ensures var (runId, role) := ParseCursor(s).value; runId != "" && s == MessageId(runId, role)
  {
    LastColonIs(s);
    var i := LastColon(s).value;
    assert s == s[..i] + [s[i]] + s[i + 1..];
  }

  /** The parser accepts exactly the ids that the projection makes, and recovers their parts,
      even when the run id itself contains colons. */
  lemma CursorRoundTrip(s: string, runId: string, role: Role)
    ensures ParseCursor(s) == Some((runId, role)) <==> runId != "" && s == MessageId(runId, role)
  {
    hide ParseCursor, MessageId;
    if runId != "" {
      ParseMessageId(runId, role);
    }
    if ParseCursor(s) == Some((runId, role)) {
      ParsedIsMessageId(s);
    }
  }

  lemma MessageIdsDiffer(a: string, r: Role, b: string, q: Role)
    requires a != "" && b != "" && MessageId(a, r) == MessageId(b, q)
    ensures a == b && r == q
  {
    CursorRoundTrip(MessageId(a, r), a, r);
    CursorRoundTrip(MessageId(a, r), b, q);
  }

  function Find(runs: Runs, id: string): (r: Option<Run>)
    ensures r.Some? ==> r.value in runs && r.value.id == id
    ensures r.None? ==> forall run | run in runs :: run.id != id
  {
    if runs == [] then None
    else if runs[0].id == id then Some(runs[0])
    else Find(runs[1..], id)
  }

  /** The first message with this id. */
  function IndexOf(messages: seq<Message>, id: string): (r: Option<nat>)
    ensures r.Some? ==>
      r.value < |messages| && messages[r.value].id == id && forall i | 0 <= i < r.value :: messages[i].id != id
    ensures r.None? ==> forall m | m in messages :: m.id != id
  {
    if messages == [] then None
    else if messages[0].id == id then Some(0)
    else match IndexOf(messages[1..], id)
      case None => None
      case Some(i) => Some(i + 1)
  }

  /** Python's `s[-limit:]` for any integer `limit`. */
  function LastOf(s: seq<Message>, limit: int): seq<Message> {
    if limit > 0 then (if limit < |s| then s[|s| - limit..] else s)
    else if -limit < |s| then s[-limit..]
    else []
  }

  datatype Load = Page(messages: seq<Message>, nextBefore: Option<string>) | InvalidCursor | NotFound

  function PageOf(messages: seq<Message>, limit: int): Load {
    var page := LastOf(messages, limit);
    Page(page, if |messages| > limit && page != [] then Some(page[0].id) else None)
  }

  /** `list_messages`. `exists` says whether the user has this thread; a cursor run of another thread is not found. */
  function ListMessages(runs: Runs, thread: string, present: bool, limit: int, before: Option<string>): Load {
    if !present then NotFound
    else if before.None? then PageOf(Transcript(runs, thread), limit)
    else match ParseCursor(before.value)
      case None => InvalidCursor
      case Some((runId, _)) =>
        match Find(runs, runId)
        case None => InvalidCursor
        case Some(run) =>
          if run.thread != thread then NotFound
          else match IndexOf(Transcript(runs, thread), before.value)
            case None => InvalidCursor
            case Some(i) => PageOf(Transcript(runs, thread)[..i], limit)
  }

  /** Every message stems from a stored chat run of the thread and carries that run's id. */
  lemma {:induction false} MessageOfRun(runs: Runs, thread: string, m: Message)
    requires m in Transcript(runs, thread)
    ensures exists run | run in runs :: run.thread == thread && run.chat && m in Project(run)
    ensures m.id == MessageId(m.runId, m.role)
  {
    var last := |runs| - 1;
    if m in Transcript(runs[..last], thread) {
      MessageOfRun(runs[..last], thread, m);
      var run :| run in runs[..last] && run.thread == thread && run.chat && m in Project(run);
      assert run in runs;
    } else {
      assert runs[last] in runs && m in Project(runs[last]);
    }
  }

  predicate NamedRuns(runs: Runs) {
    UniqueIds(runs) && forall i | 0 <= i < |runs| :: runs[i].id != ""
  }

  /** The message ids of two different runs differ. */
  lemma RunsApart(runs: Runs, run: Run, thread: string, m: Message, m': Message)
    requires NamedRuns(runs + [run]) && m in Transcript(runs, thread) && m' in Project(run)
    ensures m.id != m'.id
  {
    MessageOfRun(runs, thread, m);
    var other :| other in runs && other.thread == thread && other.chat && m in Project(other);
    var i :| 0 <= i < |runs| && runs[i] == other;
    assert (runs + [run])[i].id != (runs + [run])[|runs|].id;
    assert (runs + [run])[i].id != "" && (runs + [run])[|runs|].id != "";
    hide NamedRuns, Transcript, MessageId;
    if m.id == m'.id {
      MessageIdsDiffer(other.id, m.role, run.id, m'.role);
    }
  }

  lemma RolesApart(run: Run)
    requires |Project(run)| == 2 && run.id != ""
    ensures Project(run)[0].id != Project(run)[1].id
  {
    hide MessageId;
    if Project(run)[0].id == Project(run)[1].id {
      MessageIdsDiffer(run.id, User, run.id, Assistant);
    }
  }

  /** No two messages of a transcript share an id, so a cursor denotes one position. */
  lemma {:induction false} IdsDistinct(runs: Runs, thread: string, i: nat, j: nat)
    requires NamedRuns(runs) && i < j < |Transcript(runs, thread)|
    ensures Transcript(runs, thread)[i].id != Transcript(runs, thread)[j].id
  {
    hide Project, MessageId;
    var last := |runs| - 1;
    var front, t := Transcript(runs[..last], thread), Transcript(runs, thread);
    assert runs == runs[..last] + [runs[last]];
    if j < |front| {
      IdsDistinct(runs[..last], thread, i, j);
    } else if i < |front| {
      assert t[i] in front && t[j] in Project(runs[last]);
      RunsApart(runs[..last], runs[last], thread, t[i], t[j]);
    } else {
      ProjectIsShort(runs[last]);
      RolesApart(runs[last]);
    }
  }

  lemma ProjectIsShort(run: Run)
    ensures |Project(run)| <= 2
  {
  }

  lemma IndexOfIs(runs: Runs, thread: string, i: nat)
    requires NamedRuns(runs) && i < |Transcript(runs, thread)|
    ensures IndexOf(Transcript(runs, thread), Transcript(runs, thread)[i].id) == Some(i)
  {
    hide NamedRuns;
    var t := Transcript(runs, thread);
    var at := IndexOf(t, t[i].id);
    if at.Some? && at.value < i {
      IdsDistinct(runs, thread, at.value, i);
    }
  }

  lemma CursorOfRun(runs: Runs, thread: string, m: Message)
    requires NamedRuns(runs) && m in Transcript(runs, thread)
    ensures ParseCursor(m.id) == Some((m.runId, m.role))
    ensures Find(runs, m.runId).Some? && Find(runs, m.runId).value.thread == thread
  {
    MessageOfRun(runs, thread, m);
    var run :| run in runs && run.thread == thread && run.chat && m in Project(run);
    assert m.runId == run.id != "";
    CursorRoundTrip(m.id, run.id, m.role);
  }

  /** Loading before a message id shows exactly what precedes that message. */
  lemma LoadBefore(runs: Runs, thread: string, i: nat, limit: int)
    requires NamedRuns(runs) && i < |Transcript(runs, thread)|
    ensures var t := Transcript(runs, thread);
      ListMessages(runs, thread, true, limit, Some(t[i].id)) == PageOf(t[..i], limit)
  {
    hide NamedRuns, Transcript, Find, ParseCursor, IndexOf, PageOf;
    CursorOfRun(runs, thread, Transcript(runs, thread)[i]);
    IndexOfIs(runs, thread, i);
  }

  /** The message is the question of the run, at the time the run started, or the answer of a
      successful run whose question is shown, at the time it completed if that is known. */
  predicate Tells(run: Run, m: Message) {
    && run.question.Some? && run.question.value != ""
    && (|| m == Message(run.id + ":user", run.id, User, run.question.value, run.startedAt)
        || (&& run.success && run.answer.Some? && run.answer.value != ""
            && m == Message(run.id + ":assistant", run.id, Assistant, run.answer.value,
                            match run.completedAt case Some(at) => at case None => run.startedAt)))
  }

  lemma ProjectTells(run: Run, m: Message)
    ensures m in Project(run) <==> Tells(run, m)
  {
    assert MessageId(run.id, User) == run.id + ":user" && MessageId(run.id, Assistant) == run.id + ":assistant";
    hide MessageId;
  }

  /** A transcript shows exactly the questions and answers of the thread's chat runs. */
  lemma {:induction false} TranscriptTells(runs: Runs, thread: string, m: Message)
    ensures m in Transcript(runs, thread) <==>
      exists run :: run in runs && run.thread == thread && run.chat && Tells(run, m)
  {
    hide Tells, Project;
    if runs != [] {
      var last := |runs| - 1;
      TranscriptTells(runs[..last], thread, m);
      ProjectTells(runs[last], m);
      assert runs == runs[..last] + [runs[last]];
    }
  }

  /** They come in the order of the runs, each question before its answer. */
  lemma {:induction false} TranscriptInOrder(runs: Runs, thread: string, i: nat, j: nat, a: nat, b: nat)
    requires NamedRuns(runs) && i < j < |Transcript(runs, thread)| && a < |runs| && b < |runs|
    requires Transcript(runs, thread)[i].runId == runs[a].id && Transcript(runs, thread)[j].runId == runs[b].id
    ensures a < b || (a == b && Transcript(runs, thread)[i].role.User? && Transcript(runs, thread)[j].role.Assistant?)
  {
    var last := |runs| - 1;
    var front, t := Transcript(runs[..last], thread), Transcript(runs, thread);
    hide Transcript;
    forall k | 0 <= k < |front| ensures t[k] in front && exists c | 0 <= c < last :: runs[c].id == t[k].runId {
      TranscriptTells(runs[..last], thread, t[k]);
    }
    if j < |front| {
      TranscriptInOrder(runs[..last], thread, i, j, a, b);
    }
  }

  /** The id of a message the run could have. */
  predicate CursorOf(run: Run, id: string) {
    id == run.id + ":user" || id == run.id + ":assistant"
  }

  lemma CursorParses(runs: Runs, run: Run, id: string)
    requires NamedRuns(runs) && run in runs
    ensures CursorOf(run, id) <==> ParseCursor(id).Some? && ParseCursor(id).value.0 == run.id
  {
    assert MessageId(run.id, User) == run.id + ":user" && MessageId(run.id, Assistant) == run.id + ":assistant";
    hide ParseCursor, MessageId;
    CursorRoundTrip(id, run.id, User);
    CursorRoundTrip(id, run.id, Assistant);
  }

  lemma FoundIs(runs: Runs, run: Run)
    requires NamedRuns(runs) && run in runs
    ensures Find(runs, run.id) == Some(run)
  {
  }

  /** A load is not found if there is no such thread or its cursor names a run of another one. */
  lemma LoadNotFound(runs: Runs, thread: string, present: bool, limit: int, before: Option<string>)
    requires NamedRuns(runs)
    ensures ListMessages(runs, thread, present, limit, before).NotFound? <==>
      || !present
      || (before.Some? && exists run :: run in runs && run.thread != thread && CursorOf(run, before.value))
  {
    hide ParseCursor, NamedRuns, CursorOf, Transcript;
    if before.Some? {
      forall run | run in runs
        ensures CursorOf(run, before.value) <==>
          ParseCursor(before.value).Some? && ParseCursor(before.value).value.0 == run.id
        ensures Find(runs, run.id) == Some(run)
      {
        CursorParses(runs, run, before.value);
        FoundIs(runs, run);
      }
    }
  }

  /** It shows a page exactly if the user has the thread and the cursor, if any, names a message of
      its transcript; otherwise the cursor is invalid. */
  lemma LoadShowsPage(runs: Runs, thread: string, present: bool, limit: int, before: Option<string>)
    requires NamedRuns(runs)
    ensures ListMessages(runs, thread, present, limit, before).Page? <==>
      present && (before.Some? ==> exists m :: m in Transcript(runs, thread) && m.id == before.value)
  {
    hide ParseCursor, NamedRuns, Transcript, Find;
    if before.Some? {
      forall m | m in Transcript(runs, thread) && m.id == before.value
        ensures ParseCursor(before.value) == Some((m.runId, m.role))
        ensures Find(runs, m.runId).Some? && Find(runs, m.runId).value.thread == thread
      {
        CursorOfRun(runs, thread, m);
      }
    }
  }

  /** Runs that come later, in any thread, only extend a transcript. */
  lemma {:induction false} AppendingExtends(runs: Runs, more: Runs, thread: string)
    ensures Transcript(runs, thread) <= Transcript(runs + more, thread)
  {
    if more == [] {
      assert runs + more == runs;
    } else {
      var front := more[..|more| - 1];
      assert (runs + more)[..|runs + more| - 1] == runs + front;
      AppendingExtends(runs, front, thread);
    }
  }

  /** So does the completion of the newest run, whose question is already shown. */
  lemma CompletingExtends(runs: Runs, run: Run, run': Run, thread: string)
    requires Project(run) <= Project(run') && run'.thread == run.thread && run'.chat == run.chat
    ensures Transcript(runs + [run], thread) <= Transcript(runs + [run'], thread)
  {
    assert (runs + [run])[..|runs|] == runs && (runs + [run'])[..|runs|] == runs;
  }

  // ---------------------------------------------------------------- a growing thread

  /** What happens to the runs between two loads: a new run starts, or a run ends. */
  datatype Change =
    | Start(run: Run)
    | End(at: nat, success: bool, answer: Option<string>, completedAt: Option<int>)

  function Ended(run: Run, change: Change): Run
    requires change.End?
  {
    run.(success := change.success, answer := change.answer, completedAt := change.completedAt)
  }

  /** A new run has a new id; a run that ends has not succeeded yet and its thread has shown nothing since. */
  predicate Allowed(runs: Runs, change: Change) {
    match change
    case Start(run) => run.id != "" && forall other | other in runs :: other.id != run.id
    case End(i, _, _, _) =>
      && i < |runs| && !runs[i].success
      && forall j | i < j < |runs| && runs[j].thread == runs[i].thread && runs[j].chat :: Project(runs[j]) == []
  }

  function Apply(runs: Runs, change: Change): Runs
    requires Allowed(runs, change)
  {
    match change
    case Start(run) => runs + [run]
    case End(i, _, _, _) => runs[i := Ended(runs[i], change)]
  }

  predicate History(runs: Runs, changes: seq<Change>)
    decreases |changes|, 0
  {
    if changes == [] then NamedRuns(runs)
    else
      var front := changes[..|changes| - 1];
      History(runs, front) && Allowed(After(runs, front), changes[|changes| - 1])
  }

  function After(runs: Runs, changes: seq<Change>): Runs
    requires History(runs, changes)
    decreases |changes|, 1
  {
    if changes == [] then runs
    else Apply(After(runs, changes[..|changes| - 1]), changes[|changes| - 1])
  }

  lemma {:induction false} HistoryStart(runs: Runs, changes: seq<Change>, k: nat)
    requires History(runs, changes) && k <= |changes|
    ensures History(runs, changes[..k])
    decreases |changes|
  {
    if k == |changes| {
      assert changes[..k] == changes;
    } else {
      HistoryStart(runs, changes[..|changes| - 1], k);
      assert changes[..|changes| - 1][..k] == changes[..k];
    }
  }

  /** The end of a run extends the transcript of its thread and leaves the others as they are. */
  lemma {:induction false} EndingExtends(runs: Runs, change: Change, thread: string)
    requires change.End? && Allowed(runs, change)
    ensures Transcript(runs, thread) <= Transcript(Apply(runs, change), thread)
    ensures thread != runs[change.at].thread ==> Transcript(Apply(runs, change), thread) == Transcript(runs, thread)
    decreases |runs|
  {
    var i, last := change.at, |runs| - 1;
    var runs' := Apply(runs, change);
    var front := runs[..last];
    assert runs == front + [runs[last]] && runs' == runs'[..last] + [runs'[last]];
    if i == last {
      assert runs'[..last] == front;
      CompletingExtends(front, runs[last], runs'[last], thread);
    } else {
      assert Allowed(front, change) && runs'[..last] == Apply(front, change);
      EndingExtends(front, change, thread);
    }
  }

  lemma ChangeExtends(runs: Runs, change: Change, thread: string)
    requires NamedRuns(runs) && Allowed(runs, change)
    ensures NamedRuns(Apply(runs, change)) && Transcript(runs, thread) <= Transcript(Apply(runs, change), thread)
  {
    hide Transcript, Project;
    if change.Start? {
      AppendingExtends(runs, [change.run], thread);
    } else {
      EndingExtends(runs, change, thread);
    }
  }

  /** Whatever starts and ends meanwhile, a transcript read later starts with the one read earlier. */
  lemma {:induction false} GrowthExtends(runs: Runs, changes: seq<Change>, k: nat, thread: string)
    requires History(runs, changes) && k <= |changes|
    ensures History(runs, changes[..k]) && NamedRuns(After(runs, changes))
    ensures Transcript(After(runs, changes[..k]), thread) <= Transcript(After(runs, changes), thread)
    decreases |changes|
  {
    var last := |changes| - 1;
    if changes == [] {
      assert changes[..k] == changes;
    } else {
      var before := After(runs, changes[..last]);
      GrowthExtends(runs, changes[..last], if k <= last then k else last, thread);
      assert changes[..last][..last] == changes[..last];
      hide Transcript;
      ChangeExtends(before, changes[last], thread);
      if k <= last {
        assert changes[..last][..k] == changes[..k];
      } else {
        assert changes[..k] == changes;
      }
    }
  }

  // ---------------------------------------------------------------- paging

  /** How much of the first `n` messages one page leaves for the following loads. */
  function LeftAfter(n: nat, limit: int): nat {
    if limit >= 0 then (if limit == 0 || n <= limit then 0 else n - limit)
    else if -limit < n then -limit else n
  }

  predicate HasNext(n: nat, limit: int) {
    if limit >= 0 then n > limit else -limit < n
  }

  lemma PageStep(t: seq<Message>, n: nat, limit: int)
    requires n <= |t|
    ensures var left := LeftAfter(n, limit);
      && left <= n && (HasNext(n, limit) ==> left < |t|)
      && PageOf(t[..n], limit) == Page(t[left..n], if HasNext(n, limit) then Some(t[left].id) else None)
  {
    var left := LeftAfter(n, limit);
    assert LastOf(t[..n], limit) == t[left..n];
  }

  /** How many loads it takes to page through `n` messages. */
  function Loads(n: nat, limit: int): nat
    decreases n, HasNext(n, limit)
  {
    if HasNext(n, limit) then 1 + Loads(LeftAfter(n, limit), limit) else 1
  }

  /** Every page but the oldest is full. */
  lemma {:induction false} LoadsAreFew(n: nat, limit: int)
    requires limit >= 1 && n >= 1
    ensures (Loads(n, limit) - 1) * limit < n <= Loads(n, limit) * limit
  {
    if HasNext(n, limit) {
      LoadsAreFew(n - limit, limit);
    }
  }

  /** The messages of the first load that the pages of this limit never show. */
  function Skipped(n: nat, limit: int): nat {
    if limit >= 0 then 0 else if -limit < n then -limit else n
  }

  /** Where the paging stands: everything from `left` on is joined, and `next` points at message `left`. */
  predicate Shown(t: seq<Message>, limit: int, left: nat, next: Option<string>, joined: seq<Message>, loads: nat) {
    && left <= |t| && joined == t[left..]
    && (next.Some? ==> left < |t| && next.value == t[left].id)
    && (next.None? || limit < 0 ==> left == Skipped(|t|, limit))
    && loads + (if next.Some? then Loads(left, limit) else 0) == Loads(|t|, limit)
  }

  lemma FirstLoad(runs: Runs, thread: string, limit: int)
    ensures var t := Transcript(runs, thread);
      var load := ListMessages(runs, thread, true, limit, None);
      load.Page? && Shown(t, limit, LeftAfter(|t|, limit), load.nextBefore, load.messages, 1)
  {
    var t := Transcript(runs, thread);
    assert t[..|t|] == t;
    PageStep(t, |t|, limit);
  }

  lemma NextLoad(t: seq<Message>, limit: int, left: nat, next: Option<string>, joined: seq<Message>, loads: nat,
                 runs: Runs, thread: string)
    requires Shown(t, limit, left, next, joined, loads) && next.Some?
    requires NamedRuns(runs) && t <= Transcript(runs, thread)
    ensures var load := ListMessages(runs, thread, true, limit, next);
      load.Page? && Shown(t, limit, LeftAfter(left, limit), load.nextBefore, load.messages + joined, loads + 1)
  {
    hide NamedRuns, Transcript, ListMessages, PageOf;
    var now := Transcript(runs, thread);
    assert now[left] == t[left] && now[..left] == t[..left];
    LoadBefore(runs, thread, left, limit);
    PageStep(t, left, limit);
  }

  /** Follow `next_before` from the newest page and join the pages oldest first. `db(k)` is what
      the k-th load finds: it may have grown since the first one. The result is the transcript of
      the first load exactly when the limit is at least 0 (or there is nothing to show): a
      negative limit loses the oldest messages. */
  method FollowPages(db: nat -> Runs, thread: string, limit: int) returns (joined: seq<Message>, loads: nat, ok: bool)
    requires forall k :: NamedRuns(db(k)) && Transcript(db(0), thread) <= Transcript(db(k), thread)
    ensures ok && loads == Loads(|Transcript(db(0), thread)|, limit)
    ensures joined == Transcript(db(0), thread)[Skipped(|Transcript(db(0), thread)|, limit)..]
    ensures joined == Transcript(db(0), thread) <==> limit >= 0 || Transcript(db(0), thread) == []
  {
    hide NamedRuns, Transcript, ListMessages, Loads;
    ghost var t := Transcript(db(0), thread);
    ghost var left: nat := LeftAfter(|t|, limit);
    FirstLoad(db(0), thread, limit);
    var load := ListMessages(db(0), thread, true, limit, None);
    joined, loads := load.messages, 1;
    while load.Page? && load.nextBefore.Some?
      invariant load.Page? && Shown(t, limit, left, load.nextBefore, joined, loads)
      decreases Loads(|t|, limit) - loads
    {
      NextLoad(t, limit, left, load.nextBefore, joined, loads, db(loads), thread);
      load := ListMessages(db(loads), thread, true, limit, load.nextBefore);
      joined, loads, left := load.messages + joined, loads + 1, LeftAfter(left, limit);
    }
    ok := load.Page?;
  }
  /** The same over a thread that lives on: the k-th load sees the first `when(k)` changes. */
  method FollowThread(runs: Runs, changes: seq<Change>, when: nat -> nat, thread: string, limit: int)
    returns (joined: seq<Message>, ghost first: seq<Message>)
    requires History(runs, changes) && forall k :: when(0) <= when(k) <= |changes|
    ensures History(runs, changes[..when(0)]) && first == Transcript(After(runs, changes[..when(0)]), thread)
    ensures joined == first[Skipped(|first|, limit)..]
    ensures joined == first <==> limit >= 0 || first == []
  {
    forall n: nat | n <= |changes| ensures History(runs, changes[..n]) {
      HistoryStart(runs, changes, n);
    }
    var db := (k: nat) => After(runs, changes[..when(k)]);
    first := Transcript(db(0), thread);
    forall k ensures NamedRuns(db(k)) && Transcript(db(0), thread) <= Transcript(db(k), thread) {
      GrowthExtends(runs, changes[..when(k)], when(0), thread);
      assert changes[..when(k)][..when(0)] == changes[..when(0)];
    }
    hide History, After, NamedRuns, Transcript;
    var loads, ok;
    joined, loads, ok := FollowPages(db, thread, limit);
  }
}
