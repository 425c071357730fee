/** The due dates of linked tasks: back-filled once by whoever lists them first after the SEV is
    resolved, and set by hand (internal/api/grpc/task.go). Any number of handlers run at once; what is
    atomic are the calls to the store. */
module DueDate {
  import opened Wrappers
  import opened Clock

  datatype Priority = Critical | Other

  type TaskId = nat

  datatype Task = Task(priority: Priority, due: Option<Time>)

  /** computeDueDate: 30 days after resolution for critical tasks, 90 for the others. */
  function ComputeDueDate(priority: Priority, resolvedAt: Option<Time>): Option<Time> {
    if resolvedAt.None? then None
    else Some(resolvedAt.value + (if priority.Critical? then 30 * DAY else 90 * DAY))
  }

  // ---------- the interleavings ----------

  /** A task's due date as a response shows it. */
  datatype Answer = Answer(id: TaskId, due: Option<Time>)

  /** A handler at work: ListTasks with the tasks of its snapshot it has not come to yet, ListTasks about
      to re-read a task somebody else back-filled, UpdateTaskDueDate between its read and its write. */
  datatype Handler =
    | Listing(resolvedAt: Option<Time>, todo: seq<(TaskId, Task)>, answers: seq<Answer>)
    | Rereading(resolvedAt: Option<Time>, todo: seq<(TaskId, Task)>, answers: seq<Answer>)
    | Writing(id: TaskId, due: Time)
    | Returned(answers: seq<Answer>)

  /** The store, the IDs ever given out, every due date ever stored, the back-fill audit entries and the
      handlers. */
  datatype State = State(
    tasks: map<TaskId, Task>,
    used: set<TaskId>,
    persisted: set<(TaskId, Time)>,
    backfills: seq<TaskId>,
    handlers: map<nat, Handler>)

  const START := State(map[], {}, {}, [], map[])

  datatype Action =
    | Link(id: TaskId, priority: Priority, due: Option<Time>)
    | Unlink(id: TaskId)
    | StartList(h: nat, resolvedAt: Option<Time>, ids: seq<TaskId>)
    | Backfill(h: nat, fails: bool)
    | Reread(h: nat, fails: bool)
    | FinishList(h: nat)
    | StartUpdate(h: nat, id: TaskId, to: Time)
    | Write(h: nat, fails: bool)

  function Snapshot(tasks: map<TaskId, Task>, ids: seq<TaskId>): (todo: seq<(TaskId, Task)>)
    ensures forall k | 0 <= k < |todo| :: todo[k].0 in tasks && todo[k].1 == tasks[todo[k].0]
  {
    if ids == [] then []
    else if ids[0] in tasks then [(ids[0], tasks[ids[0]])] + Snapshot(tasks, ids[1..])
    else Snapshot(tasks, ids[1..])
  }

  /** A due date reaches the store. */
  function Stored(s: State, id: TaskId, due: Time, p: Precision): State
    requires id in s.tasks
  {
    s.(tasks := s.tasks[id := s.tasks[id].(due := Some(Kept(due, p)))],
       persisted := s.persisted + {(id, Kept(due, p))})
  }

  function WithHandler(s: State, h: nat, handler: Handler): State {
    s.(handlers := s.handlers[h := handler])
  }

  /** ListTasks comes to its next task. Only a task without a due date, of a resolved SEV, goes to
      SetDueDateIfUnset; whoever that applied for gets the computed date and writes the audit entry. */
  function BackfillNext(s: State, h: nat, l: Handler, fails: bool, p: Precision): State
    requires l.Listing? && l.todo != []
  {
    var (id, task) := l.todo[0];
    var rest := l.todo[1..];
    if task.due.Some? || l.resolvedAt.None? then
      WithHandler(s, h, Listing(l.resolvedAt, rest, l.answers + [Answer(id, task.due)]))
    else if fails || id !in s.tasks then
      WithHandler(s, h, Listing(l.resolvedAt, rest, l.answers + [Answer(id, None)]))
    else if s.tasks[id].due.None? then
      var computed := ComputeDueDate(task.priority, l.resolvedAt);
      var s1 := Stored(s, id, computed.value, p);
      WithHandler(s1.(backfills := s1.backfills + [id]), h, Listing(l.resolvedAt, rest, l.answers + [Answer(id, computed)]))
    else
      WithHandler(s, h, Rereading(l.resolvedAt, l.todo, l.answers))
  }

  /** The re-read after a lost race; if it fails the response shows no due date. */
  function RereadNext(s: State, h: nat, l: Handler, fails: bool): State
    requires l.Rereading? && l.todo != []
  {
    var id := l.todo[0].0;
    var due := if fails || id !in s.tasks then None else s.tasks[id].due;
    WithHandler(s, h, Listing(l.resolvedAt, l.todo[1..], l.answers + [Answer(id, due)]))
  }

  /** One atomic step; a step that is not enabled changes nothing. Task IDs are not given out twice. */
  function Step(s: State, a: Action, p: Precision): State {
    match a
    case Link(id, priority, due) =>
      if id in s.used then s
      else
        var s1 := s.(tasks := s.tasks[id := Task(priority, None)], used := s.used + {id});
        if due.Some? then Stored(s1, id, due.value, p) else s1
    case Unlink(id) => s.(tasks := s.tasks - {id})
    case StartList(h, resolvedAt, ids) =>
      if h in s.handlers then s else WithHandler(s, h, Listing(resolvedAt, Snapshot(s.tasks, ids), []))
    case Backfill(h, fails) =>
      if h !in s.handlers || !s.handlers[h].Listing? || s.handlers[h].todo == [] then s
      else BackfillNext(s, h, s.handlers[h], fails, p)
    case Reread(h, fails) =>
      if h !in s.handlers || !s.handlers[h].Rereading? || s.handlers[h].todo == [] then s
      else RereadNext(s, h, s.handlers[h], fails)
    case FinishList(h) =>
      if h !in s.handlers || !s.handlers[h].Listing? || s.handlers[h].todo != [] then s
      else WithHandler(s, h, Returned(s.handlers[h].answers))
    case StartUpdate(h, id, due) =>
      if h in s.handlers || id !in s.tasks then s else WithHandler(s, h, Writing(id, due))
    case Write(h, fails) =>
      if h !in s.handlers || !s.handlers[h].Writing? then s
      else
        var id, due := s.handlers[h].id, s.handlers[h].due;
        if fails || id !in s.tasks then WithHandler(s, h, Returned([]))
        else WithHandler(Stored(s, id, due, p), h, Returned([Answer(id, Some(due))]))
  }

  function Run(actions: seq<Action>, p: Precision): State {
    if actions == [] then START else Step(Run(actions[..|actions| - 1], p), actions[|actions| - 1], p)
  }

  // ---------- the invariant ----------

  function Count(ids: seq<TaskId>, id: TaskId): nat {
    if ids == [] then 0 else Count(ids[..|ids| - 1], id) + (if ids[|ids| - 1] == id then 1 else 0)
  }

  /** One task: back-filled at most once, and from then on with a due date, which was persisted. */
  ghost predicate TaskOk(s: State, id: TaskId) {
    && (id in s.tasks ==> id in s.used)
    && Count(s.backfills, id) <= 1
    && (Count(s.backfills, id) == 1 ==> id in s.used && (id in s.tasks ==> s.tasks[id].due.Some?))
    && (id in s.tasks && s.tasks[id].due.Some? ==> (id, s.tasks[id].due.value) in s.persisted)
  }

  ghost predicate AnswerOk(s: State, a: Answer, p: Precision) {
    a.due.Some? ==> (a.id, Kept(a.due.value, p)) in s.persisted
  }

  ghost predicate SnapshotOk(s: State, t: (TaskId, Task)) {
    t.1.due.Some? ==> (t.0, t.1.due.value) in s.persisted
  }

  function AnswersOf(h: Handler): seq<Answer> {
    if h.Writing? then [] else h.answers
  }

  function TodoOf(h: Handler): seq<(TaskId, Task)> {
    if h.Listing? || h.Rereading? then h.todo else []
  }

  /** What a handler has read and what it answers was persisted. */
  ghost predicate HandlerOk(s: State, h: Handler, p: Precision) {
    && (forall k | 0 <= k < |AnswersOf(h)| :: AnswerOk(s, AnswersOf(h)[k], p))
    && (forall k | 0 <= k < |TodoOf(h)| :: SnapshotOk(s, TodoOf(h)[k]))
  }

  ghost predicate Inv(s: State, p: Precision) {
    && (forall id :: TaskOk(s, id))
    && (forall h | h in s.handlers :: HandlerOk(s, s.handlers[h], p))
    && (forall x | x in s.persisted :: Kept(x.1, p) == x.1)
  }

  lemma CountAppend(ids: seq<TaskId>, x: TaskId, id: TaskId)
    ensures Count(ids + [x], id) == Count(ids, id) + (if x == id then 1 else 0)
  {
    assert (ids + [x])[..|ids|] == ids;
  }

  lemma StoredKeepsTaskOk(s: State, x: TaskId, due: Time, p: Precision, id: TaskId)
    requires TaskOk(s, id) && x in s.tasks
    ensures TaskOk(Stored(s, x, due, p), id)
  {
  }

  lemma BackfillKeepsTaskOk(s: State, h: nat, l: Handler, fails: bool, p: Precision, id: TaskId)
    requires TaskOk(s, id) && l.Listing? && l.todo != []
    ensures TaskOk(BackfillNext(s, h, l, fails, p), id)
  {
    var (x, task) := l.todo[0];
    CountAppend(s.backfills, x, id);
    if task.due.None? && l.resolvedAt.Some? && !fails && x in s.tasks && s.tasks[x].due.None? {
      var s1 := Stored(s, x, ComputeDueDate(task.priority, l.resolvedAt).value, p);
      StoredKeepsTaskOk(s, x, ComputeDueDate(task.priority, l.resolvedAt).value, p, id);
      assert BackfillNext(s, h, l, fails, p).backfills == s1.backfills + [x];
    }
  }

  lemma StepKeepsTaskOk(s: State, a: Action, p: Precision, id: TaskId)
    requires TaskOk(s, id)
    ensures TaskOk(Step(s, a, p), id)
  {
    match a
    case Link(x, priority, due) =>
      LinkKeepsTaskOk(s, x, priority, due, p, id);
    case Backfill(h, fails) =>
      if h in s.handlers && s.handlers[h].Listing? && s.handlers[h].todo != [] {
        BackfillKeepsTaskOk(s, h, s.handlers[h], fails, p, id);
      }
    case Write(h, fails) =>
      if h in s.handlers && s.handlers[h].Writing? && s.handlers[h].id in s.tasks {
        StoredKeepsTaskOk(s, s.handlers[h].id, s.handlers[h].due, p, id);
      }
    case _ =>
  }

  lemma LinkKeepsTaskOk(s: State, x: TaskId, priority: Priority, due: Option<Time>, p: Precision, id: TaskId)
    requires TaskOk(s, id)
    ensures TaskOk(Step(s, Link(x, priority, due), p), id)
  {
    if x !in s.used {
      var s1 := s.(tasks := s.tasks[x := Task(priority, None)], used := s.used + {x});
      if due.Some? {
        StoredKeepsTaskOk(s1, x, due.value, p, id);
      }
    }
  }

  /** Nothing that was persisted is forgotten, so what was in order stays in order. */
  lemma MorePersisted(s: State, t: State, h: Handler, p: Precision)
    requires s.persisted <= t.persisted && HandlerOk(s, h, p)
    ensures HandlerOk(t, h, p)
  {
    forall k | 0 <= k < |AnswersOf(h)|
      ensures AnswerOk(t, AnswersOf(h)[k], p)
    {
      assert AnswerOk(s, AnswersOf(h)[k], p);
    }
    forall k | 0 <= k < |TodoOf(h)|
      ensures SnapshotOk(t, TodoOf(h)[k])
    {
      assert SnapshotOk(s, TodoOf(h)[k]);
    }
  }

  /** A handler that moves on to its next task with one more answer. */
  lemma NextAnswer(s: State, l: Handler, answer: Answer, p: Precision)
    requires HandlerOk(s, l, p) && (l.Listing? || l.Rereading?) && l.todo != [] && AnswerOk(s, answer, p)
    ensures HandlerOk(s, Listing(l.resolvedAt, l.todo[1..], l.answers + [answer]), p)
  {
    var next := Listing(l.resolvedAt, l.todo[1..], l.answers + [answer]);
    forall k | 0 <= k < |AnswersOf(next)|
      ensures AnswerOk(s, AnswersOf(next)[k], p)
    {
      if k < |l.answers| {
        assert AnswersOf(next)[k] == AnswersOf(l)[k];
      }
    }
    forall k | 0 <= k < |TodoOf(next)|
      ensures SnapshotOk(s, TodoOf(next)[k])
    {
      assert TodoOf(next)[k] == TodoOf(l)[k + 1];
    }
  }

  lemma BackfillKeepsHandlerOk(s: State, h: nat, fails: bool, p: Precision)
    requires Inv(s, p) && h in s.handlers && s.handlers[h].Listing? && s.handlers[h].todo != []
    ensures var t := BackfillNext(s, h, s.handlers[h], fails, p);
      HandlerOk(t, t.handlers[h], p)
  {
    var l := s.handlers[h];
    var t := BackfillNext(s, h, l, fails, p);
    var (id, task) := l.todo[0];
    assert HandlerOk(s, l, p);
    assert SnapshotOk(s, TodoOf(l)[0]);
    MorePersisted(s, t, l, p);
    if t.handlers[h].Listing? {
      var answer := t.handlers[h].answers[|l.answers|];
      if task.due.Some? {
        assert Kept(task.due.value, p) == task.due.value;
      }
      assert AnswerOk(t, answer, p);
      NextAnswer(t, l, answer, p);
    } else {
      assert AnswersOf(t.handlers[h]) == AnswersOf(l) && TodoOf(t.handlers[h]) == TodoOf(l);
    }
  }

  lemma RereadKeepsHandlerOk(s: State, h: nat, fails: bool, p: Precision)
    requires Inv(s, p) && h in s.handlers && s.handlers[h].Rereading? && s.handlers[h].todo != []
    ensures var t := RereadNext(s, h, s.handlers[h], fails);
      HandlerOk(t, t.handlers[h], p)
  {
    var l := s.handlers[h];
    var t := RereadNext(s, h, l, fails);
    var id := l.todo[0].0;
    assert HandlerOk(s, l, p);
    assert TaskOk(s, id);
    var answer := t.handlers[h].answers[|l.answers|];
    if answer.due.Some? {
      assert Kept(answer.due.value, p) == answer.due.value;
    }
    MorePersisted(s, t, l, p);
    NextAnswer(t, l, answer, p);
  }

  lemma StartListKeepsHandlerOk(s: State, resolvedAt: Option<Time>, ids: seq<TaskId>, p: Precision)
    requires Inv(s, p)
    ensures HandlerOk(s, Listing(resolvedAt, Snapshot(s.tasks, ids), []), p)
  {
    var l := Listing(resolvedAt, Snapshot(s.tasks, ids), []);
    forall k | 0 <= k < |TodoOf(l)|
      ensures SnapshotOk(s, TodoOf(l)[k])
    {
      assert TaskOk(s, l.todo[k].0);
    }
  }

  lemma SameAnswers(s: State, h: Handler, t: State, h': Handler, p: Precision)
    requires HandlerOk(s, h, p) && s.persisted == t.persisted && AnswersOf(h) == AnswersOf(h') && TodoOf(h') == []
    ensures HandlerOk(t, h', p)
  {
    forall k | 0 <= k < |AnswersOf(h')|
      ensures AnswerOk(t, AnswersOf(h')[k], p)
    {
      assert AnswerOk(s, AnswersOf(h)[k], p);
    }
  }

  lemma StepKeepsPersisted(s: State, a: Action, p: Precision)
    requires Inv(s, p)
    ensures forall x | x in Step(s, a, p).persisted :: Kept(x.1, p) == x.1
    ensures s.persisted <= Step(s, a, p).persisted
  {
    forall t: Time {
      KeptTwice(t, p);
    }
  }

  lemma StepKeepsHandlerOk(s: State, a: Action, p: Precision, h: nat)
    requires Inv(s, p) && h in Step(s, a, p).handlers
    ensures HandlerOk(Step(s, a, p), Step(s, a, p).handlers[h], p)
  {
    var t := Step(s, a, p);
    assert h in s.handlers ==> HandlerOk(s, s.handlers[h], p);
    if h in s.handlers && t.handlers[h] == s.handlers[h] {
      StepKeepsPersisted(s, a, p);
      MorePersisted(s, t, s.handlers[h], p);
    } else if h in s.handlers {
      assert HandlerOk(s, s.handlers[h], p);
      match a
      case Backfill(_, fails) => BackfillKeepsHandlerOk(s, h, fails, p);
      case Reread(_, fails) => RereadKeepsHandlerOk(s, h, fails, p);
      case FinishList(_) => SameAnswers(s, s.handlers[h], t, t.handlers[h], p);
      case _ =>
    } else if a.StartList? {
      StartListKeepsHandlerOk(s, a.resolvedAt, a.ids, p);
    }
  }

  lemma {:induction false} RunsKeepInv(actions: seq<Action>, p: Precision)
    ensures Inv(Run(actions, p), p)
  {
    if actions != [] {
      var s, a := Run(actions[..|actions| - 1], p), actions[|actions| - 1];
      RunsKeepInv(actions[..|actions| - 1], p);
      forall id {
        StepKeepsTaskOk(s, a, p, id);
      }
      forall h | h in Step(s, a, p).handlers {
        StepKeepsHandlerOk(s, a, p, h);
      }
      StepKeepsPersisted(s, a, p);
    }
  }

  // ---------- what every interleaving guarantees ----------

  /** However many calls race, a task gets at most one back-fill audit entry, ever. */
  lemma BackfilledAtMostOnce(actions: seq<Action>, p: Precision, id: TaskId)
    ensures Count(Run(actions, p).backfills, id) <= 1
  {
    RunsKeepInv(actions, p);
    assert TaskOk(Run(actions, p), id);
  }

  /** A task whose due date is set, or which is gone. */
  predicate SetOrGone(s: State, id: TaskId) {
    id in s.used && (id in s.tasks ==> s.tasks[id].due.Some?)
  }

  /** A due date once set is never unset. */
  lemma {:induction false} DueDatesStaySet(actions: seq<Action>, more: seq<Action>, p: Precision, id: TaskId)
    requires SetOrGone(Run(actions, p), id)
    ensures SetOrGone(Run(actions + more, p), id)
  {
    if more == [] {
      assert actions + more == actions;
    } else {
      var init := more[..|more| - 1];
      DueDatesStaySet(actions, init, p, id);
      RunAppend(actions + init, more[|more| - 1], p);
      assert actions + more == actions + init + [more[|more| - 1]];
      StepKeepsSet(Run(actions + init, p), more[|more| - 1], p, id);
    }
  }

  lemma RunAppend(actions: seq<Action>, a: Action, p: Precision)
    ensures Run(actions + [a], p) == Step(Run(actions, p), a, p)
  {
    assert (actions + [a])[..|actions|] == actions;
  }

  lemma StepKeepsSet(s: State, a: Action, p: Precision, id: TaskId)
    requires SetOrGone(s, id)
    ensures SetOrGone(Step(s, a, p), id)
  {
    if a.Backfill? && a.h in s.handlers && s.handlers[a.h].Listing? && s.handlers[a.h].todo != [] {
      BackfillKeepsSet(s, a.h, s.handlers[a.h], a.fails, p, id);
    }
  }

  lemma BackfillKeepsSet(s: State, h: nat, l: Handler, fails: bool, p: Precision, id: TaskId)
    requires SetOrGone(s, id) && l.Listing? && l.todo != []
    ensures SetOrGone(BackfillNext(s, h, l, fails, p), id)
  {
  }

  /** Every due date a call returns was persisted, to the precision of the store; that very value was
      persisted exactly when the store keeps it as it is. */
  lemma ReturnedDueDatesWerePersisted(actions: seq<Action>, p: Precision, h: nat, k: nat)
    requires h in Run(actions, p).handlers && Run(actions, p).handlers[h].Returned?
    requires k < |Run(actions, p).handlers[h].answers| && Run(actions, p).handlers[h].answers[k].due.Some?
    ensures var s := Run(actions, p);
      var a := s.handlers[h].answers[k];
      && (a.id, Kept(a.due.value, p)) in s.persisted
      && ((a.id, a.due.value) in s.persisted <==> Kept(a.due.value, p) == a.due.value)
  {
    RunsKeepInv(actions, p);
    var s := Run(actions, p);
    assert HandlerOk(s, s.handlers[h], p);
    assert AnswerOk(s, AnswersOf(s.handlers[h])[k], p);
  }

  // ---------- listed tasks get due dates ----------

  /** Nothing fails in a handler's work, and the SEV it lists the tasks of is resolved. */
  predicate Smooth(a: Action, h: nat) {
    match a
    case Backfill(x, fails) => x == h ==> !fails
    case Reread(x, fails) => x == h ==> !fails
    case StartList(x, resolvedAt, _) => x == h ==> resolvedAt.Some?
    case _ => true
  }

  /** Every answer so far has a due date, unless the task is gone, and every task still to come was linked. */
  ghost predicate Answering(s: State, h: Handler) {
    && (forall a | a in AnswersOf(h) :: a.id in s.used && (a.id in s.tasks ==> a.due.Some?))
    && (forall k | 0 <= k < |TodoOf(h)| :: TodoOf(h)[k].0 in s.used)
    && (h.Listing? || h.Rereading? ==> h.resolvedAt.Some?)
    && (h.Rereading? ==> h.todo != [] && SetOrGone(s, h.todo[0].0))
  }

  lemma OneMoreAnswer(s: State, l: Handler, a: Answer)
    requires (l.Listing? || l.Rereading?) && l.todo != [] && Answering(s, l)
    requires a.id in s.used && (a.id in s.tasks ==> a.due.Some?)
    ensures Answering(s, Listing(l.resolvedAt, l.todo[1..], l.answers + [a]))
  {
    var next := Listing(l.resolvedAt, l.todo[1..], l.answers + [a]);
    forall x | x in next.answers
      ensures x.id in s.used && (x.id in s.tasks ==> x.due.Some?)
    {
      assert x in l.answers || x == a;
      assert AnswersOf(l) == l.answers;
    }
    forall k | 0 <= k < |next.todo|
      ensures next.todo[k].0 in s.used
    {
      assert next.todo[k] == TodoOf(l)[k + 1];
    }
  }

  /** IDs are not given out twice, so a task that is gone stays gone. */
  lemma AnsweringLater(s: State, a: Action, p: Precision, h: Handler)
    requires Answering(s, h) && forall id :: TaskOk(s, id)
    ensures Answering(Step(s, a, p), h)
  {
    var t := Step(s, a, p);
    forall id | id in s.used
      ensures id in t.used && (id in t.tasks ==> id in s.tasks)
    {
      assert TaskOk(s, id);
    }
    if h.Rereading? {
      StepKeepsSet(s, a, p, h.todo[0].0);
    }
  }

  lemma BackfillAnswers(s: State, h: nat, p: Precision)
    requires h in s.handlers && s.handlers[h].Listing? && s.handlers[h].todo != []
    requires Answering(s, s.handlers[h]) && forall id :: TaskOk(s, id)
    ensures var t := BackfillNext(s, h, s.handlers[h], false, p); Answering(t, t.handlers[h])
  {
    var l := s.handlers[h];
    var t := BackfillNext(s, h, l, false, p);
    assert TodoOf(l)[0].0 in s.used && TaskOk(s, l.todo[0].0);
    AnsweringLater(s, Backfill(h, false), p, l);
    if t.handlers[h].Listing? {
      OneMoreAnswer(t, l, t.handlers[h].answers[|l.answers|]);
    }
  }

  lemma RereadAnswers(s: State, h: nat, p: Precision)
    requires h in s.handlers && s.handlers[h].Rereading? && s.handlers[h].todo != []
    requires Answering(s, s.handlers[h])
    ensures var t := RereadNext(s, h, s.handlers[h], false); Answering(t, t.handlers[h])
  {
    var l := s.handlers[h];
    var t := RereadNext(s, h, l, false);
    assert TodoOf(l)[0].0 in s.used;
    assert Answering(t, l);
    OneMoreAnswer(t, l, t.handlers[h].answers[|l.answers|]);
  }

  lemma StepAnswers(s: State, a: Action, p: Precision, h: nat)
    requires (h in s.handlers ==> Answering(s, s.handlers[h])) && Smooth(a, h) && forall id :: TaskOk(s, id)
    ensures h in Step(s, a, p).handlers ==> Answering(Step(s, a, p), Step(s, a, p).handlers[h])
  {
    var t := Step(s, a, p);
    if h in s.handlers && t.handlers[h] == s.handlers[h] {
      AnsweringLater(s, a, p, s.handlers[h]);
    } else if h in s.handlers {
      match a
      case Backfill(_, _) => BackfillAnswers(s, h, p);
      case Reread(_, _) => RereadAnswers(s, h, p);
      case FinishList(_) => assert AnswersOf(t.handlers[h]) == AnswersOf(s.handlers[h]);
      case Write(_, _) => assert TaskOk(s, s.handlers[h].id);
      case _ =>
    } else if a.StartList? && h in t.handlers {
      forall k | 0 <= k < |TodoOf(t.handlers[h])|
        ensures TodoOf(t.handlers[h])[k].0 in t.used
      {
        assert TaskOk(s, TodoOf(t.handlers[h])[k].0);
      }
    }
  }

  lemma {:induction false} RunAnswers(actions: seq<Action>, p: Precision, h: nat)
    requires forall a | a in actions :: Smooth(a, h)
    ensures h in Run(actions, p).handlers ==> Answering(Run(actions, p), Run(actions, p).handlers[h])
  {
    if actions != [] {
      var init, a := actions[..|actions| - 1], actions[|actions| - 1];
      assert a in actions && forall x | x in init :: x in actions;
      RunAnswers(init, p, h);
      RunsKeepInv(init, p);
      StepAnswers(Run(init, p), a, p, h);
    }
  }

  /** In every interleaving a listing of a resolved SEV's tasks in which none of its own calls fails answers a
      due date for every task that is still there, whoever set it. */
  lemma ListedTasksHaveDueDates(actions: seq<Action>, p: Precision, h: nat, k: nat)
    requires forall a | a in actions :: Smooth(a, h)
    requires h in Run(actions, p).handlers && Run(actions, p).handlers[h].Returned?
    requires k < |Run(actions, p).handlers[h].answers|
    ensures var s := Run(actions, p);
      s.handlers[h].answers[k].id in s.tasks ==> s.handlers[h].answers[k].due.Some?
  {
    RunAnswers(actions, p, h);
    assert Run(actions, p).handlers[h].answers[k] in AnswersOf(Run(actions, p).handlers[h]);
  }

  // ---------- where due dates come from ----------

  /** The priority a task was linked with; its ID is not given out again. */
  function LinkedAs(actions: seq<Action>, id: TaskId): Option<Priority> {
    if actions == [] then None
    else
      var init, a := actions[..|actions| - 1], actions[|actions| - 1];
      if LinkedAs(init, id).Some? then LinkedAs(init, id)
      else if a.Link? && a.id == id then Some(a.priority)
      else None
  }

  /** Thirty days after the resolution for critical tasks, ninety for the others, in nanoseconds. */
  function DaysAfter(resolved: Time, priority: Priority): Time {
    resolved + (if priority.Critical? then 30 else 90) * 86_400 * 1_000_000_000
  }

  /** A due date someone asked for: linking the task, updating it, or listing the tasks of its resolved SEV. */
  ghost predicate Asked(actions: seq<Action>, id: TaskId, due: Time) {
    || (exists priority :: Link(id, priority, Some(due)) in actions)
    || (exists h :: StartUpdate(h, id, due) in actions)
    || (LinkedAs(actions, id).Some?
        && exists h, resolved, ids | StartList(h, Some(resolved), ids) in actions ::
             id in ids && due == DaysAfter(resolved, LinkedAs(actions, id).value))
  }

  /** What the store keeps of one. */
  ghost predicate KeptFromAsked(actions: seq<Action>, id: TaskId, kept: Time, p: Precision) {
    exists due :: Asked(actions, id, due) && kept == Kept(due, p)
  }

  ghost predicate AnswerTraced(actions: seq<Action>, a: Answer, p: Precision) {
    a.due.Some? ==> Asked(actions, a.id, a.due.value) || KeptFromAsked(actions, a.id, a.due.value, p)
  }

  ghost predicate AnswersTraced(actions: seq<Action>, answers: seq<Answer>, p: Precision) {
    forall k | 0 <= k < |answers| :: AnswerTraced(actions, answers[k], p)
  }

  /** A listing's tasks are among those asked for, each with the priority it was linked with. */
  ghost predicate TodoTraced(actions: seq<Action>, h: nat, resolvedAt: Option<Time>, todo: seq<(TaskId, Task)>) {
    && (forall k | 0 <= k < |todo| :: LinkedAs(actions, todo[k].0) == Some(todo[k].1.priority))
    && exists ids | StartList(h, resolvedAt, ids) in actions :: forall k | 0 <= k < |todo| :: todo[k].0 in ids
  }

  ghost predicate HandlerTraced(actions: seq<Action>, h: nat, handler: Handler, p: Precision) {
    && AnswersTraced(actions, AnswersOf(handler), p)
    && (handler.Listing? || handler.Rereading? ==> TodoTraced(actions, h, handler.resolvedAt, handler.todo))
    && (handler.Writing? ==> StartUpdate(h, handler.id, handler.due) in actions)
  }

  ghost predicate TasksTraced(actions: seq<Action>, s: State) {
    && (forall id :: id in s.used <==> LinkedAs(actions, id).Some?)
    && (forall id | id in s.tasks :: LinkedAs(actions, id) == Some(s.tasks[id].priority))
  }

  ghost predicate PersistedTraced(actions: seq<Action>, s: State, p: Precision) {
    forall x | x in s.persisted :: KeptFromAsked(actions, x.0, x.1, p)
  }

  lemma AskedLater(actions: seq<Action>, a: Action, id: TaskId, due: Time)
    requires Asked(actions, id, due)
    ensures Asked(actions + [a], id, due)
  {
    LinkedLater(actions, a, id);
    assert forall x | x in actions :: x in actions + [a];
  }

  lemma LinkedLater(actions: seq<Action>, a: Action, id: TaskId)
    ensures LinkedAs(actions + [a], id)
         == if LinkedAs(actions, id).None? && a.Link? && a.id == id then Some(a.priority) else LinkedAs(actions, id)
  {
    assert (actions + [a])[..|actions|] == actions;
  }

  lemma KeptLater(actions: seq<Action>, a: Action, id: TaskId, kept: Time, p: Precision)
    requires KeptFromAsked(actions, id, kept, p)
    ensures KeptFromAsked(actions + [a], id, kept, p)
  {
    var due :| Asked(actions, id, due) && kept == Kept(due, p);
    AskedLater(actions, a, id, due);
  }

  lemma AnswersLater(actions: seq<Action>, a: Action, answers: seq<Answer>, p: Precision)
    requires AnswersTraced(actions, answers, p)
    ensures AnswersTraced(actions + [a], answers, p)
  {
    forall k | 0 <= k < |answers|
      ensures AnswerTraced(actions + [a], answers[k], p)
    {
      assert AnswerTraced(actions, answers[k], p);
      if answers[k].due.Some? {
        if Asked(actions, answers[k].id, answers[k].due.value) {
          AskedLater(actions, a, answers[k].id, answers[k].due.value);
        } else {
          KeptLater(actions, a, answers[k].id, answers[k].due.value, p);
        }
      }
    }
  }

  lemma TodoLater(actions: seq<Action>, a: Action, h: nat, resolvedAt: Option<Time>, todo: seq<(TaskId, Task)>)
    requires TodoTraced(actions, h, resolvedAt, todo)
    ensures TodoTraced(actions + [a], h, resolvedAt, todo)
  {
    forall k | 0 <= k < |todo| {
      LinkedLater(actions, a, todo[k].0);
    }
    var ids :| StartList(h, resolvedAt, ids) in actions && forall k | 0 <= k < |todo| :: todo[k].0 in ids;
    assert StartList(h, resolvedAt, ids) in actions + [a];
  }

  lemma HandlerLater(actions: seq<Action>, a: Action, h: nat, handler: Handler, p: Precision)
    requires HandlerTraced(actions, h, handler, p)
    ensures HandlerTraced(actions + [a], h, handler, p)
  {
    AnswersLater(actions, a, AnswersOf(handler), p);
    if handler.Listing? || handler.Rereading? {
      TodoLater(actions, a, h, handler.resolvedAt, handler.todo);
    }
  }

  lemma TasksLater(actions: seq<Action>, a: Action, s: State, p: Precision)
    requires TasksTraced(actions, s) && forall id :: TaskOk(s, id)
    ensures TasksTraced(actions + [a], Step(s, a, p))
  {
    var t := Step(s, a, p);
    forall id
      ensures id in t.used <==> LinkedAs(actions + [a], id).Some?
      ensures id in t.tasks ==> LinkedAs(actions + [a], id) == Some(t.tasks[id].priority)
    {
      LinkedLater(actions, a, id);
      assert TaskOk(s, id);
      OnlyLinksLink(s, a, p, id);
    }
  }

  /** Only linking a task makes it known, and its priority stays. */
  lemma OnlyLinksLink(s: State, a: Action, p: Precision, id: TaskId)
    requires id in s.tasks ==> id in s.used
    ensures id in Step(s, a, p).used <==> id in s.used || (a.Link? && a.id == id)
    ensures id in Step(s, a, p).tasks ==>
      var priority := Step(s, a, p).tasks[id].priority;
      if id in s.used then id in s.tasks && s.tasks[id].priority == priority
      else a.Link? && a.id == id && a.priority == priority
  {
  }

  /** The computed date of the next task was asked for. */
  lemma ComputedIsAsked(actions: seq<Action>, h: nat, l: Handler)
    requires l.Listing? && l.todo != [] && l.resolvedAt.Some? && TodoTraced(actions, h, l.resolvedAt, l.todo)
    ensures Asked(actions, l.todo[0].0, ComputeDueDate(l.todo[0].1.priority, l.resolvedAt).value)
  {
    var (id, task) := l.todo[0];
    var ids :| StartList(h, l.resolvedAt, ids) in actions && forall k | 0 <= k < |l.todo| :: l.todo[k].0 in ids;
    assert l.resolvedAt == Some(l.resolvedAt.value) && id in ids && LinkedAs(actions, id) == Some(task.priority);
    assert ComputeDueDate(task.priority, l.resolvedAt).value == DaysAfter(l.resolvedAt.value, task.priority);
  }

  lemma PersistedLater(actions: seq<Action>, a: Action, s: State, p: Precision)
    requires PersistedTraced(actions, s, p)
    requires forall h | h in s.handlers :: HandlerTraced(actions, h, s.handlers[h], p)
    ensures PersistedTraced(actions + [a], Step(s, a, p), p)
  {
    forall x | x in Step(s, a, p).persisted
      ensures KeptFromAsked(actions + [a], x.0, x.1, p)
    {
      if x in s.persisted {
        KeptLater(actions, a, x.0, x.1, p);
      } else {
        NewlyPersisted(actions, a, s, p, x);
      }
    }
  }

  lemma NewlyPersisted(actions: seq<Action>, a: Action, s: State, p: Precision, x: (TaskId, Time))
    requires forall h | h in s.handlers :: HandlerTraced(actions, h, s.handlers[h], p)
    requires x in Step(s, a, p).persisted && x !in s.persisted
    ensures KeptFromAsked(actions + [a], x.0, x.1, p)
  {
    match a
    case Link(id, priority, due) =>
      assert a in actions + [a] && a == Link(id, priority, Some(due.value));
      assert Asked(actions + [a], id, due.value);
    case Backfill(h, fails) =>
      var l := s.handlers[h];
      assert HandlerTraced(actions, h, l, p);
      ComputedIsAsked(actions, h, l);
      AskedLater(actions, a, l.todo[0].0, ComputeDueDate(l.todo[0].1.priority, l.resolvedAt).value);
    case Write(h, fails) =>
      var l := s.handlers[h];
      assert HandlerTraced(actions, h, l, p);
      assert StartUpdate(h, l.id, l.due) in actions;
      AskedLater(actions, a, l.id, l.due);
  }

  lemma TracedNext(actions: seq<Action>, h: nat, l: Handler, answer: Answer, p: Precision)
    requires (l.Listing? || l.Rereading?) && l.todo != [] && HandlerTraced(actions, h, l, p)
    requires AnswerTraced(actions, answer, p)
    ensures HandlerTraced(actions, h, Listing(l.resolvedAt, l.todo[1..], l.answers + [answer]), p)
  {
    var next := Listing(l.resolvedAt, l.todo[1..], l.answers + [answer]);
    forall k | 0 <= k < |next.answers|
      ensures AnswerTraced(actions, next.answers[k], p)
    {
      assert AnswersOf(l) == l.answers;
    }
    var ids :| StartList(h, l.resolvedAt, ids) in actions && forall k | 0 <= k < |l.todo| :: l.todo[k].0 in ids;
    forall k | 0 <= k < |next.todo|
      ensures next.todo[k].0 in ids && LinkedAs(actions, next.todo[k].0) == Some(next.todo[k].1.priority)
    {
      assert next.todo[k] == l.todo[k + 1];
    }
  }

  lemma BackfillTraced(actions: seq<Action>, s: State, h: nat, fails: bool, p: Precision)
    requires Inv(s, p) && PersistedTraced(actions, s, p)
    requires h in s.handlers && s.handlers[h].Listing? && s.handlers[h].todo != [] && HandlerTraced(actions, h, s.handlers[h], p)
    ensures HandlerTraced(actions, h, BackfillNext(s, h, s.handlers[h], fails, p).handlers[h], p)
  {
    var l := s.handlers[h];
    var next := BackfillNext(s, h, l, fails, p).handlers[h];
    assert HandlerOk(s, l, p) && SnapshotOk(s, TodoOf(l)[0]);
    if next.Listing? {
      if l.todo[0].1.due.None? && l.resolvedAt.Some? {
        ComputedIsAsked(actions, h, l);
      }
      TracedNext(actions, h, l, next.answers[|l.answers|], p);
    } else {
      assert AnswersOf(next) == AnswersOf(l);
    }
  }

  lemma RereadTraced(actions: seq<Action>, s: State, h: nat, fails: bool, p: Precision)
    requires Inv(s, p) && PersistedTraced(actions, s, p)
    requires h in s.handlers && s.handlers[h].Rereading? && s.handlers[h].todo != [] && HandlerTraced(actions, h, s.handlers[h], p)
    ensures HandlerTraced(actions, h, RereadNext(s, h, s.handlers[h], fails).handlers[h], p)
  {
    var l := s.handlers[h];
    var next := RereadNext(s, h, l, fails).handlers[h];
    assert TaskOk(s, l.todo[0].0);
    TracedNext(actions, h, l, next.answers[|l.answers|], p);
  }

  lemma StartTraced(actions: seq<Action>, s: State, h: nat, resolvedAt: Option<Time>, ids: seq<TaskId>, p: Precision)
    requires TasksTraced(actions, s) && StartList(h, resolvedAt, ids) in actions
    ensures HandlerTraced(actions, h, Listing(resolvedAt, Snapshot(s.tasks, ids), []), p)
  {
    SnapshotIsOf(s.tasks, ids);
  }

  /** The snapshot has exactly the tasks asked for that are there, in the order asked for when all are. */
  lemma {:induction false} SnapshotIsOf(tasks: map<TaskId, Task>, ids: seq<TaskId>)
    ensures forall k | 0 <= k < |Snapshot(tasks, ids)| :: Snapshot(tasks, ids)[k].0 in ids
    ensures forall id | id in ids && id in tasks :: (id, tasks[id]) in Snapshot(tasks, ids)
    ensures (forall id | id in ids :: id in tasks) ==>
      |Snapshot(tasks, ids)| == |ids| && forall k | 0 <= k < |ids| :: Snapshot(tasks, ids)[k].0 == ids[k]
  {
    if ids != [] {
      SnapshotIsOf(tasks, ids[1..]);
    }
  }

  lemma WriteTraced(actions: seq<Action>, s: State, h: nat, fails: bool, p: Precision)
    requires h in s.handlers && s.handlers[h].Writing? && StartUpdate(h, s.handlers[h].id, s.handlers[h].due) in actions
    ensures HandlerTraced(actions, h, Step(s, Write(h, fails), p).handlers[h], p)
  {
    assert Asked(actions, s.handlers[h].id, s.handlers[h].due);
  }

  lemma StepTraced(actions: seq<Action>, a: Action, s: State, p: Precision, h: nat)
    requires Inv(s, p) && TasksTraced(actions, s) && PersistedTraced(actions, s, p)
    requires h in s.handlers ==> HandlerTraced(actions, h, s.handlers[h], p)
    requires h in Step(s, a, p).handlers
    ensures HandlerTraced(actions + [a], h, Step(s, a, p).handlers[h], p)
  {
    var t := Step(s, a, p);
    if h in s.handlers && t.handlers[h] == s.handlers[h] {
      HandlerLater(actions, a, h, s.handlers[h], p);
    } else if h in s.handlers {
      match a
      case Backfill(_, fails) =>
        BackfillTraced(actions, s, h, fails, p);
        HandlerLater(actions, a, h, t.handlers[h], p);
      case Reread(_, fails) =>
        RereadTraced(actions, s, h, fails, p);
        HandlerLater(actions, a, h, t.handlers[h], p);
      case FinishList(_) =>
        assert AnswersOf(t.handlers[h]) == AnswersOf(s.handlers[h]);
        AnswersLater(actions, a, AnswersOf(s.handlers[h]), p);
      case Write(_, fails) =>
        WriteTraced(actions, s, h, fails, p);
        HandlerLater(actions, a, h, t.handlers[h], p);
      case _ =>
    } else if a.StartList? {
      TasksLater(actions, a, s, p);
      assert t.tasks == s.tasks;
      StartTraced(actions + [a], t, h, a.resolvedAt, a.ids, p);
    }
  }

  lemma {:induction false} RunTraced(actions: seq<Action>, p: Precision)
    ensures TasksTraced(actions, Run(actions, p)) && PersistedTraced(actions, Run(actions, p), p)
    ensures forall h | h in Run(actions, p).handlers :: HandlerTraced(actions, h, Run(actions, p).handlers[h], p)
  {
    if actions != [] {
      var init, a := actions[..|actions| - 1], actions[|actions| - 1];
      assert actions == init + [a];
      RunTraced(init, p);
      RunsKeepInv(init, p);
      var s := Run(init, p);
      TasksLater(init, a, s, p);
      PersistedLater(init, a, s, p);
      forall h | h in Step(s, a, p).handlers {
        StepTraced(init, a, s, p, h);
      }
    }
  }

  /** In every interleaving a due date that is stored is what the store keeps of one somebody asked for, and a
      due date that is answered is one somebody asked for or what the store keeps of one. */
  lemma DueDatesWereAskedFor(actions: seq<Action>, p: Precision, id: TaskId, h: nat, k: nat)
    ensures id in Run(actions, p).tasks && Run(actions, p).tasks[id].due.Some? ==>
      KeptFromAsked(actions, id, Run(actions, p).tasks[id].due.value, p)
    ensures h in Run(actions, p).handlers && Run(actions, p).handlers[h].Returned? && k < |Run(actions, p).handlers[h].answers| ==>
      AnswerTraced(actions, Run(actions, p).handlers[h].answers[k], p)
  {
    RunTraced(actions, p);
    RunsKeepInv(actions, p);
    assert TaskOk(Run(actions, p), id);
    if h in Run(actions, p).handlers && Run(actions, p).handlers[h].Returned? {
      assert HandlerTraced(actions, h, Run(actions, p).handlers[h], p);
    }
  }

  const LINKED := State(map[1 := Task(Critical, None)], {1}, {}, [], map[])

  const LISTED := LINKED.(handlers := map[0 := Listing(Some(SECOND), [(1, Task(Critical, None))], [])])

  const BACKFILLED := State(map[1 := Task(Critical, Some(30 * DAY))], {1}, {(1, 30 * DAY)}, [1],
                            map[0 := Listing(Some(SECOND), [], [Answer(1, Some(SECOND + 30 * DAY))])])

  lemma ListingStarts()
    ensures Step(LINKED, StartList(0, Some(SECOND), [1]), Days) == LISTED
  {
    assert [1][1..] == [];
    assert Snapshot(LINKED.tasks, [1]) == [(1, Task(Critical, None))];
  }

  lemma ListingBackfills()
    ensures Step(LISTED, Backfill(0, false), Days) == BACKFILLED
  {
    assert Kept(SECOND + 30 * DAY, Days) == 30 * DAY;
    var t := Step(LISTED, Backfill(0, false), Days);
    assert t.tasks == BACKFILLED.tasks && t.persisted == BACKFILLED.persisted && t.backfills == BACKFILLED.backfills;
    var a := Answer(1, Some(SECOND + 30 * DAY));
    assert LISTED.handlers[0].todo[1..] == [] && LISTED.handlers[0].answers + [a] == [a];
    assert t.handlers == BACKFILLED.handlers;
  }

  /** A task linked before the SEV is resolved, listed a second past midnight. */
  const LISTED_LATE: seq<Action> := [Link(1, Critical, None), StartList(0, Some(SECOND), [1]), Backfill(0, false), FinishList(0)]

  lemma BackfillRuns()
    ensures Run(LISTED_LATE[..3], Days) == BACKFILLED
  {
    assert LISTED_LATE[..0] == [];
    RunOne(LISTED_LATE, 0, Days);
    assert Run(LISTED_LATE[..1], Days) == LINKED;
    RunOne(LISTED_LATE, 1, Days);
    ListingStarts();
    RunOne(LISTED_LATE, 2, Days);
    ListingBackfills();
  }

  /** The call that back-fills it answers the instant, and Postgres keeps the day. */
  lemma BackfillAnswersMoreThanItStores()
    ensures var s := Run(LISTED_LATE, Days);
      && 0 in s.handlers && s.handlers[0] == Returned([Answer(1, Some(SECOND + 30 * DAY))])
      && 1 in s.tasks && s.tasks[1].due == Some(30 * DAY)
      && (1, SECOND + 30 * DAY) !in s.persisted
  {
    BackfillRuns();
    RunOne(LISTED_LATE, 3, Days);
    assert LISTED_LATE[..4] == LISTED_LATE;
  }

  lemma RunOne(actions: seq<Action>, n: nat, p: Precision)
    requires n < |actions|
    ensures Run(actions[..n + 1], p) == Step(Run(actions[..n], p), actions[n], p)
  {
    assert actions[..n + 1][..n] == actions[..n];
  }

  // ---------- the handlers ----------

  /** Steps taken one after the other from some state. */
  function Continue(s: State, actions: seq<Action>, p: Precision): State {
    if actions == [] then s else Step(Continue(s, actions[..|actions| - 1], p), actions[|actions| - 1], p)
  }

  lemma ContinueOne(s: State, actions: seq<Action>, a: Action, p: Precision)
    ensures Continue(s, actions + [a], p) == Step(Continue(s, actions, p), a, p)
  {
    assert (actions + [a])[..|actions|] == actions;
  }

  /** The steps a handler may take. */
  predicate StepsOf(actions: seq<Action>, h: nat) {
    forall k | 0 <= k < |actions| ::
      match actions[k]
      case StartList(x, _, _) => x == h
      case Backfill(x, _) => x == h
      case Reread(x, _) => x == h
      case FinishList(x) => x == h
      case StartUpdate(x, _, _) => x == h
      case Write(x, _) => x == h
      case _ => false
  }

  class TaskServer {
    var tasks: map<TaskId, Task>
    var backfills: seq<TaskId>
    const precision: Precision

    constructor (precision: Precision)
      ensures tasks == START.tasks && backfills == START.backfills && this.precision == precision
    {
      this.tasks := START.tasks;
      this.backfills := START.backfills;
      this.precision := precision;
    }

    /** The server holds a state of the interleavings. */
    ghost predicate Shows(s: State)
      reads this
    {
      s.tasks == tasks && s.backfills == backfills
    }

    /** SetDueDateIfUnset: atomic, and true only for the call that set it. */
    method SetDueDateIfUnset(id: TaskId, due: Time, fails: bool) returns (applied: Result<bool>)
      modifies this`tasks
      ensures applied.Err? <==> fails || id !in old(tasks)
      ensures applied.Ok? ==> applied.value == old(tasks)[id].due.None?
      ensures tasks == (if applied == Ok(true) then old(tasks)[id := old(tasks)[id].(due := Some(Kept(due, precision)))] else old(tasks))
    {
      if fails {
        return Err(Internal);
      }
      if id !in tasks {
        return Err(NotFound);
      }
      if tasks[id].due.Some? {
        return Ok(false);
      }
      tasks := tasks[id := tasks[id].(due := Some(Kept(due, precision)))];
      applied := Ok(true);
    }

    /** One turn of ListTasks' loop, as the steps of a handler nobody interrupts. */
    method AnswerFor(id: TaskId, task: Task, resolvedAt: Option<Time>, writeFails: bool, readFails: bool,
                     ghost s: State, ghost h: nat)
        returns (answer: Answer, ghost t: State)
      requires Shows(s) && h in s.handlers && s.handlers[h].Listing?
      requires s.handlers[h].resolvedAt == resolvedAt && s.handlers[h].todo != [] && s.handlers[h].todo[0] == (id, task)
      modifies this
      ensures Shows(t)
      ensures var s1 := Step(s, Backfill(h, writeFails), precision);
        t == if s1.handlers[h].Rereading? then Step(s1, Reread(h, readFails), precision) else s1
      ensures var l := s.handlers[h];
        t.handlers[h] == Listing(resolvedAt, l.todo[1..], l.answers + [answer])
      ensures answer.id == id
    {
      var due := task.due;
      if task.due.None? && resolvedAt.Some? {
        var computed := ComputeDueDate(task.priority, resolvedAt);
        var applied := SetDueDateIfUnset(id, computed.value, writeFails);
        if applied.Ok? {
          if applied.value {
            due := computed;
            backfills := backfills + [id];
          } else if !readFails {
            due := tasks[id].due;
          }
        }
      }
      answer := Answer(id, due);
      t := Step(s, Backfill(h, writeFails), precision);
      if t.handlers[h].Rereading? {
        t := Step(t, Reread(h, readFails), precision);
      }
    }

    /** ListTasks without interference is one of the interleavings: its handler's own steps, ending with
        the answers it returns. */
    method ListTasks(ids: seq<TaskId>, resolvedAt: Option<Time>, writeFaults: set<TaskId>, readFaults: set<TaskId>,
                     ghost s: State, ghost h: nat)
        returns (answers: seq<Answer>, ghost actions: seq<Action>)
      requires Shows(s) && h !in s.handlers
      modifies this
      ensures StepsOf(actions, h)
      ensures Shows(Continue(s, actions, precision))
      ensures h in Continue(s, actions, precision).handlers
      ensures Continue(s, actions, precision).handlers[h] == Returned(answers)
      ensures |answers| == |Snapshot(old(tasks), ids)|
      ensures forall k | 0 <= k < |answers| :: answers[k].id == Snapshot(old(tasks), ids)[k].0
    {
      var todo := Snapshot(tasks, ids);
      answers := [];
      actions := [StartList(h, resolvedAt, ids)];
      ContinueOne(s, [], actions[0], precision);
      assert [] + actions == actions;
      for i := 0 to |todo|
        invariant |answers| == i && forall k | 0 <= k < i :: answers[k].id == todo[k].0
        invariant StepsOf(actions, h)
        invariant Shows(Continue(s, actions, precision))
        invariant h in Continue(s, actions, precision).handlers
        invariant Continue(s, actions, precision).handlers[h] == Listing(resolvedAt, todo[i..], answers)
      {
        var (id, task) := todo[i];
        var writeFails, readFails := id in writeFaults, id in readFaults;
        ghost var before := Continue(s, actions, precision);
        var answer, t := AnswerFor(id, task, resolvedAt, writeFails, readFails, before, h);
        answers := answers + [answer];
        ContinueOne(s, actions, Backfill(h, writeFails), precision);
        actions := actions + [Backfill(h, writeFails)];
        if Continue(s, actions, precision).handlers[h].Rereading? {
          ContinueOne(s, actions, Reread(h, readFails), precision);
          actions := actions + [Reread(h, readFails)];
        }
        assert todo[i..][1..] == todo[i + 1..];
      }
      ContinueOne(s, actions, FinishList(h), precision);
      actions := actions + [FinishList(h)];
    }

    /** UpdateTaskDueDate: the task is read, then written with the new due date. */
    method UpdateTaskDueDate(id: TaskId, due: Time, fails: bool, ghost s: State, ghost h: nat) returns (r: Result<Answer>)
      requires Shows(s) && h !in s.handlers
      modifies this
      ensures r.Err? <==> fails || id !in old(tasks)
      ensures r.Ok? ==> r.value == Answer(id, Some(due))
      ensures r.Err? ==> r.error == (if id in old(tasks) then Internal else NotFound) && tasks == old(tasks)
      ensures r.Ok? ==> tasks == old(tasks)[id := Task(old(tasks)[id].priority, Some(Kept(due, precision)))]
      ensures backfills == old(backfills)
      ensures Shows(Step(Step(s, StartUpdate(h, id, due), precision), Write(h, fails), precision))
    {
      if id !in tasks {
        return Err(NotFound);
      }
      if fails {
        return Err(Internal);
      }
      tasks := tasks[id := tasks[id].(due := Some(Kept(due, precision)))];
      r := Ok(Answer(id, Some(due)));
    }
  }
}
