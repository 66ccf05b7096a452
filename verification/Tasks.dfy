/** Group tasks with checklists: what checking, unchecking and completing keep over any run. */
module Tasks {
  import opened Prelude
  import opened GoText

  type Time = int

  const COMPLETED := "completed"

  datatype Task = Task(
    status: Option<string>, scheduledAt: Option<Time>, completedAt: Option<Time>, completedBy: Option<Id>,
    photo: Option<string>, note: Option<string>)

  datatype Item = Item(
    taskId: Id, done: bool, checkedBy: Option<Id>, photoRequired: bool, photo: Option<string>, doneAt: Option<Time>)

  datatype Tables = Tables(tasks: map<Id, Task>, items: map<Id, Item>)

  /** What becomes of an uploaded file: read and stored under a key, or not. */
  datatype Stored = Key(key: string) | ReadFailed | StoreFailed

  datatype Upload = NoFile | File(image: bool, stored: Stored)

  /** Requests; `visible` is whether the caller's task scope contains the task. */
  datatype Request =
    | Check(userId: Id, visible: bool, task: Id, item: Id, upload: Upload, now: Time)
    | Uncheck(userId: Id, visible: bool, task: Id, item: Id, now: Time)
    | Complete(userId: Id, visible: bool, task: Id, upload: Upload, note: string, now: Time)

  datatype Reply = Ok | Forbidden | Missing | PhotoNeeded | NotAnImage | ServerError | TooEarly | Unfinished

  predicate ScheduledInFuture(t: Task, now: Time) { t.scheduledAt.Some? && t.scheduledAt.value > now }

  predicate HasIncomplete(items: map<Id, Item>, k: Id) {
    exists i :: i in items && items[i].taskId == k && !items[i].done
  }

  function ItemReply(t: Tables, r: Request): Reply
    requires !r.Complete?
  {
    if r.task !in t.tasks || !r.visible then Forbidden
    else if r.item !in t.items || t.items[r.item].taskId != r.task then Missing
    else Ok
  }

  function ReplyTo(t: Tables, r: Request): Reply {
    match r
    case Check(_, _, _, i, upload, _) =>
      if ItemReply(t, r) != Ok then ItemReply(t, r)
      else if t.items[i].photoRequired && upload.NoFile? then PhotoNeeded
      else if upload.NoFile? then Ok
      else if !upload.image then NotAnImage
      else if upload.stored.Key? then Ok
      else ServerError
    case Uncheck(_, _, _, _, _) => ItemReply(t, r)
    case Complete(_, visible, k, _, _, now) =>
      if k !in t.tasks || !visible then Forbidden
      else if ScheduledInFuture(t.tasks[k], now) then TooEarly
      else if HasIncomplete(t.items, k) then Unfinished
      else Ok
  }

  function Apply(t: Tables, r: Request): Tables {
    if ReplyTo(t, r) != Ok then t
    else match r
      case Check(userId, _, _, i, upload, now) =>
        var photo := if upload.File? then Some(upload.stored.key) else t.items[i].photo;
        t.(items := t.items[i := t.items[i].(photo := photo, done := true, doneAt := Some(now),
                                             checkedBy := Some(userId))])
      case Uncheck(_, _, _, i, _) =>
        t.(items := t.items[i := t.items[i].(photo := None, done := false, doneAt := None, checkedBy := None)])
      case Complete(userId, _, k, upload, note, now) =>
        var row := t.tasks[k];
        t.(tasks := t.tasks[k := row.(
          status := Some(COMPLETED),
          completedAt := if row.completedAt.None? then Some(now) else row.completedAt,
          completedBy := Some(userId),
          photo := if upload.File? && upload.stored.Key? then Some(upload.stored.key) else row.photo,
          note := if TrimSpace(note) != "" then Some(note) else row.note)])
  }

  class TaskBoard {
    var tasks: map<Id, Task>
    var items: map<Id, Item>

    ghost function State(): Tables
      reads this
    {
      Tables(tasks, items)
    }

    /** The visible task and its own item, or the error reply. */
    method AuthorizeChecklistItem(visible: bool, k: Id, i: Id) returns (reply: Reply)
      ensures reply == Ok <==> k in tasks && visible && i in items && items[i].taskId == k
      ensures forall user, now :: reply == ItemReply(State(), Uncheck(user, visible, k, i, now))
      ensures forall user, upload, now :: reply == ItemReply(State(), Check(user, visible, k, i, upload, now))
    {
      if k !in tasks || !visible { return Forbidden; }
      if i !in items { return Missing; }
      if items[i].taskId != k { return Missing; }
      return Ok;
    }

    method TaskCheckItem(userId: Id, visible: bool, k: Id, i: Id, upload: Upload, now: Time) returns (reply: Reply)
      modifies this`items
      ensures reply == ReplyTo(old(State()), Check(userId, visible, k, i, upload, now))
      ensures State() == Apply(old(State()), Check(userId, visible, k, i, upload, now))
    {
      reply := AuthorizeChecklistItem(visible, k, i);
      if reply != Ok { return; }
      var item := items[i];
      if item.photoRequired && upload.NoFile? { return PhotoNeeded; }
      var photoPath := item.photo;
      if upload.File? {
        if !upload.image { return NotAnImage; }
        if upload.stored.ReadFailed? { return ServerError; }
        if upload.stored.StoreFailed? { return ServerError; }
        photoPath := Some(upload.stored.key);
      }
      items := items[i := item.(photo := photoPath, done := true, doneAt := Some(now), checkedBy := Some(userId))];
      return Ok;
    }

    method TaskUncheckItem(userId: Id, visible: bool, k: Id, i: Id, now: Time) returns (reply: Reply)
      modifies this`items
      ensures reply == ReplyTo(old(State()), Uncheck(userId, visible, k, i, now))
      ensures State() == Apply(old(State()), Uncheck(userId, visible, k, i, now))
    {
      reply := AuthorizeChecklistItem(visible, k, i);
      if reply != Ok { return; }
      items := items[i := items[i].(photo := None, done := false, doneAt := None, checkedBy := None)];
    }

    method TaskComplete(userId: Id, visible: bool, k: Id, upload: Upload, formNote: string, now: Time)
      returns (reply: Reply)
      modifies this`tasks
      ensures reply == ReplyTo(old(State()), Complete(userId, visible, k, upload, formNote, now))
      ensures State() == Apply(old(State()), Complete(userId, visible, k, upload, formNote, now))
    {
      if k !in tasks || !visible { return Forbidden; }
      var task := tasks[k];
      if ScheduledInFuture(task, now) { return TooEarly; }
      if exists i :: i in items && items[i].taskId == k && !items[i].done { return Unfinished; }
      var completionPhoto := task.photo;
      if upload.File? && upload.stored.Key? { completionPhoto := Some(upload.stored.key); }
      var completedAt := task.completedAt;
      if completedAt.None? { completedAt := Some(now); }
      var note := task.note;
      if TrimSpace(formNote) != "" { note := Some(formNote); }
      tasks := tasks[k := task.(status := Some(COMPLETED), completedAt := completedAt, completedBy := Some(userId),
                                photo := completionPhoto, note := note)];
      return Ok;
    }
  }

  // Runs

  function TablesAt(t: Tables, run: seq<Request>, n: nat): Tables
    requires n <= |run|
  {
    if n == 0 then t else Apply(TablesAt(t, run, n - 1), run[n - 1])
  }

  /** Done, done time and checker come together; a done item that needs a photo has one. */
  predicate ItemOk(i: Item) {
    && (i.done <==> i.doneAt.Some?)
    && (i.done <==> i.checkedBy.Some?)
    && (i.done && i.photoRequired ==> i.photo.Some?)
  }

  predicate WellFormed(t: Tables) { forall i :: i in t.items ==> ItemOk(t.items[i]) }

  lemma {:induction false} ItemsStayWellFormed(t: Tables, run: seq<Request>, n: nat)
    requires WellFormed(t) && n <= |run|
    ensures WellFormed(TablesAt(t, run, n))
  {
    if n > 0 { ItemsStayWellFormed(t, run, n - 1); }
  }

  predicate IsCompleted(t: Tables, k: Id) { k in t.tasks && t.tasks[k].status == Some(COMPLETED) }

  /** A completion time, once set, is never changed, and completed tasks stay completed; no task appears or goes. */
  lemma {:induction false} CompletionIsFinal(t: Tables, run: seq<Request>, i: nat, n: nat, k: Id)
    requires i <= n <= |run|
    ensures var a, b := TablesAt(t, run, i), TablesAt(t, run, n);
            && a.tasks.Keys == b.tasks.Keys
            && (k in a.tasks && a.tasks[k].completedAt.Some? ==> b.tasks[k].completedAt == a.tasks[k].completedAt)
            && (IsCompleted(a, k) ==> IsCompleted(b, k))
  {
    if i < n { CompletionIsFinal(t, run, i, n - 1, k); }
  }

  /** The request `r` completes task k at a moment when it may be completed. */
  predicate Completes(t: Tables, r: Request, k: Id) {
    && r.Complete? && r.task == k && k in t.tasks && r.visible
    && (t.tasks[k].scheduledAt.Some? ==> t.tasks[k].scheduledAt.value <= r.now)
    && forall i :: i in t.items && t.items[i].taskId == k ==> t.items[i].done
  }

  /** The key under which an upload was stored, if one was. */
  function StoredKey(u: Upload): Option<string> { if u.File? && u.stored.Key? then Some(u.stored.key) else None }

  /** A task row moves exactly by a request that completes it: who, when first, and the last photo and note given. */
  lemma TaskMovesExactly(t: Tables, r: Request, k: Id)
    requires k in t.tasks
    ensures k in Apply(t, r).tasks
    ensures var task, task' := t.tasks[k], Apply(t, r).tasks[k];
            if Completes(t, r, k)
            then && task'.status == Some("completed") && task'.completedBy == Some(r.userId)
                 && task'.completedAt == (if task.completedAt.Some? then task.completedAt else Some(r.now))
                 && task'.scheduledAt == task.scheduledAt
                 && task'.photo == (if StoredKey(r.upload).Some? then StoredKey(r.upload) else task.photo)
                 && task'.note == (if TrimSpace(r.note) == "" then task.note else Some(r.note))
            else task' == task
  {
  }

  /** The request names an item of a visible task; a check brings the photo it needs, an image that was stored. */
  predicate Sets(t: Tables, r: Request, i: Id) {
    && !r.Complete? && r.item == i && r.visible && r.task in t.tasks && i in t.items && t.items[i].taskId == r.task
    && (r.Check? ==> if r.upload.File? then r.upload.image && r.upload.stored.Key? else !t.items[i].photoRequired)
  }

  /** An item moves exactly by such a request: a check signs and dates it, an uncheck clears all of that. */
  lemma ItemMovesExactly(t: Tables, r: Request, i: Id)
    requires i in t.items
    ensures i in Apply(t, r).items && (ReplyTo(t, r) == Ok && !r.Complete? && r.item == i <==> Sets(t, r, i))
    ensures var item, item' := t.items[i], Apply(t, r).items[i];
            && item'.taskId == item.taskId && item'.photoRequired == item.photoRequired
            && if !Sets(t, r, i) then item' == item
               else if r.Uncheck? then !item'.done && item'.doneAt.None? && item'.checkedBy.None? && item'.photo.None?
               else && item'.done && item'.doneAt == Some(r.now) && item'.checkedBy == Some(r.userId)
                    && item'.photo == if r.upload.File? then StoredKey(r.upload) else item.photo
  {
  }

  /** Which refusal answers, in order. */
  lemma RefusalsExactly(t: Tables, r: Request)
    ensures ReplyTo(t, r) == Forbidden <==> r.task !in t.tasks || !r.visible
    ensures ReplyTo(t, r) == Missing
       <==> ReplyTo(t, r) != Forbidden && !r.Complete? && !(r.item in t.items && t.items[r.item].taskId == r.task)
    ensures ReplyTo(t, r) == TooEarly
       <==> ReplyTo(t, r) != Forbidden && r.Complete?
            && t.tasks[r.task].scheduledAt.Some? && t.tasks[r.task].scheduledAt.value > r.now
    ensures ReplyTo(t, r) == Unfinished
       <==> ReplyTo(t, r) !in {Forbidden, TooEarly} && r.Complete?
            && exists i :: i in t.items && t.items[i].taskId == r.task && !t.items[i].done
    ensures ReplyTo(t, r) == PhotoNeeded
       <==> ReplyTo(t, r) !in {Forbidden, Missing} && r.Check? && t.items[r.item].photoRequired && r.upload.NoFile?
    ensures ReplyTo(t, r) == NotAnImage
       <==> ReplyTo(t, r) !in {Forbidden, Missing} && r.Check? && r.upload.File? && !r.upload.image
    ensures ReplyTo(t, r) == ServerError
       <==> ReplyTo(t, r) !in {Forbidden, Missing} && r.Check? && r.upload.File? && r.upload.image
            && !r.upload.stored.Key?
  {
  }

  /**
   * A task that became completed during a run was completed by some request at which all its items were done
   * and its time had come; and unless it had a completion time before, that moment is what it shows ever after.
   */
  lemma {:induction false} CompletionHasAMoment(t: Tables, run: seq<Request>, n: nat, k: Id) returns (m: nat)
    requires n <= |run| && !IsCompleted(t, k) && IsCompleted(TablesAt(t, run, n), k)
    ensures m < n && Completes(TablesAt(t, run, m), run[m], k)
    ensures !IsCompleted(TablesAt(t, run, m), k) && IsCompleted(TablesAt(t, run, m + 1), k)
    ensures TablesAt(t, run, n).tasks[k].completedAt
         == if TablesAt(t, run, m).tasks[k].completedAt.Some? then TablesAt(t, run, m).tasks[k].completedAt
            else Some(run[m].now)
  {
    if IsCompleted(TablesAt(t, run, n - 1), k) {
      m := CompletionHasAMoment(t, run, n - 1, k);
      CompletionIsFinal(t, run, n - 1, n, k);
    } else {
      m := n - 1;
    }
  }

  // When a completed task has an open item

  /** A request that goes through and sets item i. */
  predicate Touches(t: Tables, r: Request, i: Id) { !r.Complete? && r.item == i && ReplyTo(t, r) == Ok }

  /** A step opens an item of a task without any exactly when it unchecks one of them. */
  lemma OpensExactlyByUncheck(t: Tables, r: Request, k: Id)
    requires IsCompleted(t, k) && !HasIncomplete(t.items, k)
    ensures HasIncomplete(Apply(t, r).items, k) <==> r.Uncheck? && r.task == k && ReplyTo(t, r) == Ok
    ensures r.Uncheck? ==> Apply(t, r).tasks == t.tasks
                           && forall i :: i in t.items && i != r.item ==> i in Apply(t, r).items
                                                                          && Apply(t, r).items[i] == t.items[i]
    ensures IsCompleted(Apply(t, r), k)
  {
    var items := Apply(t, r).items;
    if r.Uncheck? && ReplyTo(t, r) == Ok {
      assert r.item in items && items[r.item].taskId == r.task && !items[r.item].done;
    }
    assert forall i :: i in items ==> i in t.items && items[i].taskId == t.items[i].taskId;
  }

  predicate TouchesAt(t: Tables, run: seq<Request>, j: nat, i: Id)
    requires j < |run|
  {
    Touches(TablesAt(t, run, j), run[j], i)
  }

  /** The last accepted check or uncheck of item i among requests m to n. */
  function LastTouch(t: Tables, run: seq<Request>, m: nat, n: nat, i: Id): (last: Option<nat>)
    requires m <= n <= |run|
    ensures last.Some? ==> m <= last.value < n && TouchesAt(t, run, last.value, i)
    ensures forall j :: (if last.Some? then last.value + 1 else m) <= j < n ==> !TouchesAt(t, run, j, i)
  {
    if m == n then None
    else if TouchesAt(t, run, n - 1, i) then Some(n - 1)
    else LastTouch(t, run, m, n - 1, i)
  }

  /** The item stays where it was, done or not as told. */
  predicate StaysAs(a: map<Id, Item>, b: map<Id, Item>, i: Id, done: bool) {
    (i in b <==> i in a) && (i in b ==> b[i].taskId == a[i].taskId && b[i].done == done)
  }

  function DoneIn(items: map<Id, Item>, i: Id): bool { i in items && items[i].done }

  lemma TouchDecides(t: Tables, r: Request, i: Id)
    ensures StaysAs(t.items, Apply(t, r).items, i, if Touches(t, r, i) then r.Check? else DoneIn(t.items, i))
  {
  }

  /** The state of an item is the one its last accepted touch gave it; items neither appear, go nor change task. */
  lemma {:induction false} LastTouchDecides(t: Tables, run: seq<Request>, m: nat, n: nat, i: Id)
    requires m <= n <= |run|
    ensures var a, last := TablesAt(t, run, m).items, LastTouch(t, run, m, n, i);
            StaysAs(a, TablesAt(t, run, n).items, i, if last.Some? then run[last.value].Check? else DoneIn(a, i))
  {
    if m < n {
      var w := TablesAt(t, run, n - 1);
      LastTouchDecides(t, run, m, n - 1, i);
      TouchDecides(w, run[n - 1], i);
      assert TablesAt(t, run, n) == Apply(w, run[n - 1]);
    }
  }

  /** Over any run: a done item shows who last checked it and when, an unchecked one shows nobody and no photo. */
  lemma {:induction false} LastTouchTells(t: Tables, run: seq<Request>, m: nat, n: nat, i: Id)
    requires m <= n <= |run| && i in TablesAt(t, run, n).items && LastTouch(t, run, m, n, i).Some?
    ensures var r, item := run[LastTouch(t, run, m, n, i).value], TablesAt(t, run, n).items[i];
            if r.Check? then item.done && item.checkedBy == Some(r.userId) && item.doneAt == Some(r.now)
                             && (r.upload.File? ==> item.photo == StoredKey(r.upload))
            else r.Uncheck? && !item.done && item.checkedBy.None? && item.doneAt.None? && item.photo.None?
  {
    var w, r := TablesAt(t, run, n - 1), run[n - 1];
    assert TablesAt(t, run, n) == Apply(w, r);
    assert i in w.items;
    ItemMovesExactly(w, r, i);
    if !TouchesAt(t, run, n - 1, i) { LastTouchTells(t, run, m, n - 1, i); }
  }

  /** Item i belongs to task k and was last unchecked. */
  predicate LastUnchecked(t: Tables, run: seq<Request>, m: nat, n: nat, k: Id, i: Id)
    requires m <= n <= |run|
  {
    var items, last := TablesAt(t, run, m).items, LastTouch(t, run, m, n, i);
    i in items && items[i].taskId == k && last.Some? && run[last.value].Uncheck?
  }

  /**
   * A task completed with all its items done stays completed, and has an open item later exactly when the last
   * accepted check or uncheck of some item of it since then is an uncheck.
   */
  lemma OpenItemUnderCompletedTask(t: Tables, run: seq<Request>, m: nat, n: nat, k: Id)
    requires m <= n <= |run|
    requires IsCompleted(TablesAt(t, run, m), k) && !HasIncomplete(TablesAt(t, run, m).items, k)
    ensures IsCompleted(TablesAt(t, run, n), k)
    ensures HasIncomplete(TablesAt(t, run, n).items, k) <==> exists i :: LastUnchecked(t, run, m, n, k, i)
  {
    CompletionIsFinal(t, run, m, n, k);
    var a, b := TablesAt(t, run, m).items, TablesAt(t, run, n).items;
    if HasIncomplete(b, k) {
      var i :| i in b && b[i].taskId == k && !b[i].done;
      LastTouchDecides(t, run, m, n, i);
      assert LastUnchecked(t, run, m, n, k, i);
    }
    if i :| LastUnchecked(t, run, m, n, k, i) {
      LastTouchDecides(t, run, m, n, i);
      assert i in b && b[i].taskId == k && !b[i].done;
    }
  }

  /** After the request that completed it, a task has an open item exactly when one was last unchecked. */
  lemma CompletedInRunHasOpenItemExactly(t: Tables, run: seq<Request>, n: nat, k: Id) returns (since: nat)
    requires n <= |run| && !IsCompleted(t, k) && IsCompleted(TablesAt(t, run, n), k)
    ensures 0 < since <= n && Completes(TablesAt(t, run, since - 1), run[since - 1], k)
    ensures HasIncomplete(TablesAt(t, run, n).items, k) <==> exists i :: LastUnchecked(t, run, since, n, k, i)
  {
    var m := CompletionHasAMoment(t, run, n, k);
    since := m + 1;
    assert TablesAt(t, run, since).items == TablesAt(t, run, m).items;
    OpenItemUnderCompletedTask(t, run, since, n, k);
  }

  const EXAMPLE_START :=
    Tables(map[7 := Task(None, None, None, None, None, None)], map[9 := Item(7, false, None, false, None, None)])

  const EXAMPLE_RUN :=
    [Check(1, true, 7, 9, NoFile, 100), Complete(1, true, 7, NoFile, "", 200), Uncheck(2, true, 7, 9, 300)]

  /** Checked, completed, unchecked: from a well-formed start a completed task with an open item is reached. */
  lemma OpenItemIsReached()
    ensures WellFormed(EXAMPLE_START) && !IsCompleted(EXAMPLE_START, 7)
    ensures var t := TablesAt(EXAMPLE_START, EXAMPLE_RUN, 3);
            IsCompleted(t, 7) && t.tasks[7].completedAt == Some(200) && HasIncomplete(t.items, 7)
  {
    assert TablesAt(EXAMPLE_START, EXAMPLE_RUN, 0) == EXAMPLE_START;
  }
}
