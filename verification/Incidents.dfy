/** Incidents and their progress log: the log of a run replays to the status. */
module Incidents {
  import opened Prelude
  import opened GoText
  import opened Lists

  type Time = int

  const STATUSES := {"open", "in_progress", "resolved", "closed"}
  const CATEGORIES := {"general", "hotel", "flight", "transport", "pilgrim", "finance", "medical", "document"}
  const SEVERITIES := {"low", "medium", "high", "critical"}

  /** Status, reporter, time of occurrence, and all other text columns. */
  datatype Incident = Incident(
    status: Option<string>, reportedBy: Option<Id>, occurredAt: Option<Time>, columns: map<string, string>)

  datatype Entry = Entry(
    id: Id, incidentId: Id, userId: Id, from: Option<string>, to: Option<string>, note: Option<string>, at: Time)

  /** The two tables with their counters; the log in primary-key order. */
  datatype Board = Board(incidents: map<Id, Incident>, nextIncident: Id, log: seq<Entry>, nextEntry: Id)

  /** Text fields present in a request body. */
  type Body = map<string, string>

  /**
   * The requests, each with what the policies decided for the caller: `allowed` for this action,
   * `admin` for the Admin role or the super admin, and `occurred`, what the body's date parses to.
   */
  datatype Request =
    | Store(userId: Id, allowed: bool, body: Body, occurred: Option<Time>, now: Time)
    | Update(userId: Id, incident: Id, allowed: bool, admin: bool, body: Body, occurred: Option<Time>, now: Time)
    | Progress(userId: Id, incident: Id, allowed: bool, admin: bool, body: Body, now: Time)
    | DestroyEntry(incident: Id, entry: Id, admin: bool, now: Time)
    | Destroy(incident: Id, admin: bool, now: Time)

  datatype Reply = Done | Missing | Forbidden | Invalid(fields: set<string>)

  function Field(body: Body, key: string): string { if key in body then body[key] else "" }

  function StoreErrors(body: Body): set<string> {
    (if "group_id" !in body then {"group_id"} else {})
    + (if Field(body, "title") == "" then {"title"} else {})
    + (if Field(body, "description") == "" then {"description"} else {})
    + (if Field(body, "category") !in CATEGORIES then {"category"} else {})
    + (if Field(body, "severity") !in SEVERITIES then {"severity"} else {})
  }

  function UpdateErrors(body: Body, admin: bool): set<string> {
    (if "title" in body && body["title"] == "" then {"title"} else {})
    + (if "category" in body && body["category"] !in CATEGORIES then {"category"} else {})
    + (if "severity" in body && body["severity"] !in SEVERITIES then {"severity"} else {})
    + (if admin && "status" in body && body["status"] !in STATUSES then {"status"} else {})
  }

  function NewColumns(body: Body): map<string, string> {
    map key | key in body && key in {"group_id", "group_task_id", "title", "description", "category", "severity"}
      :: body[key]
  }

  function ChangedColumns(body: Body, admin: bool): map<string, string> {
    map key | key in body && (key in {"title", "description", "category", "severity"}
                              || (admin && key in {"assigned_to_id", "resolution_notes"})) :: body[key]
  }

  // What each request means

  /** The status a request asks for and may set, if any. */
  function TargetStatus(r: Request): Option<string> {
    if r.Update? && r.admin && "status" in r.body then Some(r.body["status"])
    else if r.Progress? && r.admin && Field(r.body, "to_status") != "" then Some(r.body["to_status"])
    else None
  }

  function NoteOf(r: Request): string { if r.Progress? then TrimSpace(Field(r.body, "note")) else "" }

  predicate Moves(b: Board, r: Request) {
    (r.Update? || r.Progress?) && r.incident in b.incidents
    && TargetStatus(r).Some? && b.incidents[r.incident].status != TargetStatus(r)
  }

  function ReplyTo(b: Board, r: Request): Reply {
    match r
    case Store(_, allowed, body, _, _) =>
      if !allowed then Forbidden else if StoreErrors(body) != {} then Invalid(StoreErrors(body)) else Done
    case Update(_, k, allowed, admin, body, _, _) =>
      if k !in b.incidents then Missing
      else if !allowed then Forbidden
      else if UpdateErrors(body, admin) != {} then Invalid(UpdateErrors(body, admin))
      else Done
    case Progress(_, k, allowed, admin, body, _) =>
      if k !in b.incidents then Missing
      else if !allowed then Forbidden
      else if TargetStatus(r).Some? && TargetStatus(r).value !in STATUSES then Invalid({"to_status"})
      else if !Moves(b, r) && NoteOf(r) == "" then Invalid({"note"})
      else Done
    case DestroyEntry(k, e, admin, _) =>
      if k !in b.incidents || !(exists i :: 0 <= i < |b.log| && b.log[i].id == e && b.log[i].incidentId == k)
      then Missing
      else if !admin then Forbidden
      else Done
    case Destroy(k, admin, _) =>
      if k !in b.incidents then Missing else if !admin then Forbidden else Done
  }

  /** The log entry a request adds: a transition, a bare note, or nothing. */
  function Appended(b: Board, r: Request): seq<Entry> {
    if ReplyTo(b, r) != Done then []
    else if Moves(b, r) then
      var note := NoteOf(r);
      [Entry(b.nextEntry, r.incident, r.userId, b.incidents[r.incident].status, TargetStatus(r),
             if note == "" then None else Some(note), r.now)]
    else if r.Progress? then [Entry(b.nextEntry, r.incident, r.userId, None, None, Some(NoteOf(r)), r.now)]
    else []
  }

  function Other(e: Id): Entry -> bool { (x: Entry) => x.id != e }

  function RowsAfter(b: Board, r: Request): map<Id, Incident> {
    if ReplyTo(b, r) != Done then b.incidents
    else match r
      case Store(userId, _, body, occurred, now) =>
        var at := if occurred.Some? then occurred.value else now;
        b.incidents[b.nextIncident := Incident(Some("open"), Some(userId), Some(at), NewColumns(body))]
      case Update(_, k, _, admin, body, occurred, _) =>
        var row := b.incidents[k];
        b.incidents[k := row.(status := if TargetStatus(r).Some? then TargetStatus(r) else row.status,
                              occurredAt := if occurred.Some? then occurred else row.occurredAt,
                              columns := row.columns + ChangedColumns(body, admin))]
      case Progress(_, k, _, _, _, _) =>
        if Moves(b, r) then b.incidents[k := b.incidents[k].(status := TargetStatus(r))] else b.incidents
      case DestroyEntry(_, _, _, _) => b.incidents
      case Destroy(k, _, _) => b.incidents - {k}
  }

  function Apply(b: Board, r: Request): Board {
    var added := Appended(b, r);
    var kept := if r.DestroyEntry? && ReplyTo(b, r) == Done then Filter(b.log, Other(r.entry)) else b.log;
    Board(RowsAfter(b, r), b.nextIncident + if r.Store? && ReplyTo(b, r) == Done then 1 else 0,
          kept + added, b.nextEntry + |added|)
  }

  // The handlers

  class Tracker {
    var incidents: map<Id, Incident>
    var nextIncident: Id
    var log: seq<Entry>
    var nextEntry: Id

    ghost function State(): Board
      reads this
    {
      Board(incidents, nextIncident, log, nextEntry)
    }

    method RecordStatusChange(k: Id, from: Option<string>, to: string, userId: Id, note: Option<string>, now: Time)
      modifies this`log, this`nextEntry
      ensures log == old(log) + [Entry(old(nextEntry), k, userId, from, Some(to), note, now)]
      ensures nextEntry == old(nextEntry) + 1
    {
      log := log + [Entry(nextEntry, k, userId, from, Some(to), note, now)];
      nextEntry := nextEntry + 1;
    }

    method IncidentStore(userId: Id, allowed: bool, body: Body, occurred: Option<Time>, now: Time)
      returns (reply: Reply)
      modifies this
      ensures State() == Apply(old(State()), Store(userId, allowed, body, occurred, now))
      ensures reply == ReplyTo(old(State()), Store(userId, allowed, body, occurred, now))
    {
      if !allowed { return Forbidden; }
      var errs := StoreErrors(body);
      if errs != {} { return Invalid(errs); }
      var occurredAt := occurred;
      if occurredAt.None? { occurredAt := Some(now); }
      incidents := incidents[nextIncident := Incident(Some("open"), Some(userId), occurredAt, NewColumns(body))];
      nextIncident := nextIncident + 1;
      return Done;
    }

    method IncidentUpdate(userId: Id, k: Id, allowed: bool, admin: bool, body: Body, occurred: Option<Time>, now: Time)
      returns (reply: Reply)
      modifies this
      ensures State() == Apply(old(State()), Update(userId, k, allowed, admin, body, occurred, now))
      ensures reply == ReplyTo(old(State()), Update(userId, k, allowed, admin, body, occurred, now))
    {
      if k !in incidents { return Missing; }
      if !allowed { return Forbidden; }
      var errs := UpdateErrors(body, admin);
      if errs != {} { return Invalid(errs); }
      var oldStatus := incidents[k].status;
      var row := incidents[k].(columns := incidents[k].columns + ChangedColumns(body, admin));
      if occurred.Some? { row := row.(occurredAt := occurred); }
      if admin && "status" in body { row := row.(status := Some(body["status"])); }
      incidents := incidents[k := row];
      if admin && "status" in body {
        if oldStatus == None || oldStatus.value != body["status"] {
          RecordStatusChange(k, oldStatus, body["status"], userId, None, now);
        }
      }
      return Done;
    }

    method IncidentProgressStore(userId: Id, k: Id, allowed: bool, admin: bool, body: Body, now: Time)
      returns (reply: Reply)
      modifies this
      ensures State() == Apply(old(State()), Progress(userId, k, allowed, admin, body, now))
      ensures reply == ReplyTo(old(State()), Progress(userId, k, allowed, admin, body, now))
    {
      if k !in incidents { return Missing; }
      if !allowed { return Forbidden; }
      var note := "";
      if "note" in body { note := TrimSpace(body["note"]); }
      var target := "";
      if admin && "to_status" in body && body["to_status"] != "" {
        if body["to_status"] !in STATUSES { return Invalid({"to_status"}); }
        target := body["to_status"];
      }
      var inc := incidents[k];
      var statusChanges := target != "" && (inc.status == None || inc.status.value != target);
      if !statusChanges && note == "" { return Invalid({"note"}); }
      if statusChanges {
        incidents := incidents[k := inc.(status := Some(target))];
        RecordStatusChange(k, inc.status, target, userId, if note != "" then Some(note) else None, now);
      } else {
        log := log + [Entry(nextEntry, k, userId, None, None, Some(note), now)];
        nextEntry := nextEntry + 1;
      }
      return Done;
    }

    method IncidentProgressDestroy(k: Id, e: Id, admin: bool, now: Time) returns (reply: Reply)
      modifies this`log
      ensures State() == Apply(old(State()), DestroyEntry(k, e, admin, now))
      ensures reply == ReplyTo(old(State()), DestroyEntry(k, e, admin, now))
    {
      if k !in incidents { return Missing; }
      if !(exists i :: 0 <= i < |log| && log[i].id == e && log[i].incidentId == k) { return Missing; }
      if !admin { return Forbidden; }
      log := Filter(log, Other(e));
      return Done;
    }

    method IncidentDestroy(k: Id, admin: bool, now: Time) returns (reply: Reply)
      modifies this`incidents
      ensures State() == Apply(old(State()), Destroy(k, admin, now))
      ensures reply == ReplyTo(old(State()), Destroy(k, admin, now))
    {
      if k !in incidents { return Missing; }
      if !admin { return Forbidden; }
      incidents := incidents - {k};
      return Done;
    }
  }

  // Runs and their full history

  /** Requests `run`, with the boards before, between and after them. */
  predicate IsRun(bs: seq<Board>, run: seq<Request>) {
    |bs| == |run| + 1 && forall i :: 0 <= i < |run| ==> bs[i + 1] == Apply(bs[i], run[i])
  }

  /** Everything ever logged up to the n-th request, deletions ignored. */
  function History(bs: seq<Board>, run: seq<Request>, n: nat): seq<Entry>
    requires n <= |run| < |bs|
  {
    if n == 0 then bs[0].log else History(bs, run, n - 1) + Appended(bs[n - 1], run[n - 1])
  }

  function ChangesOf(k: Id): Entry -> bool { (x: Entry) => x.incidentId == k && x.to.Some? }

  /** The status-changing entries of one incident. */
  function Transitions(log: seq<Entry>, k: Id): seq<Entry> { Filter(log, ChangesOf(k)) }

  /** Each entry leaves the status the previous one reached, for a different valid one; the last reaches `now`. */
  predicate Chain(ts: seq<Entry>, origin: Option<string>, now: Option<string>) {
    if ts == [] then now == origin
    else
      var e := ts[|ts| - 1];
      e.to == now && now.Some? && now.value in STATUSES && e.from != e.to && Chain(ts[..|ts| - 1], origin, e.from)
  }

  /** Where an incident's chain starts: as given for those already there, at "open" for reported ones. */
  function OriginOf(b: Board, origins: map<Id, Option<string>>, k: Id): Option<string> {
    if k in b.incidents && k in origins then origins[k] else Some("open")
  }

  predicate Sound(b: Board) {
    && (forall k :: k in b.incidents ==> k < b.nextIncident)
    && (forall i :: 0 <= i < |b.log| ==> b.log[i].incidentId < b.nextIncident && b.log[i].id < b.nextEntry)
    && (forall i, j :: 0 <= i < j < |b.log| ==> b.log[i].id < b.log[j].id)
  }

  /** The incident's entries in the history lead from its origin to its present status. */
  predicate ReplaysFor(b: Board, history: seq<Entry>, k: Id, origin: Option<string>) {
    k in b.incidents ==> Chain(Transitions(history, k), origin, b.incidents[k].status)
  }

  /** The boards a run may start from: every incident's log already is a chain from its origin. */
  predicate Replays(b: Board, origins: map<Id, Option<string>>) {
    forall k :: k in b.incidents ==> ReplaysFor(b, b.log, k, OriginOf(b, origins, k))
  }

  lemma ChainExtends(ts: seq<Entry>, e: Entry, origin: Option<string>)
    requires Chain(ts, origin, e.from) && e.to.Some? && e.to.value in STATUSES && e.from != e.to
    ensures Chain(ts + [e], origin, e.to)
  {
    assert (ts + [e])[..|ts|] == ts;
  }

  lemma {:induction false} NoTransitionsYet(history: seq<Entry>, k: Id)
    requires forall i :: 0 <= i < |history| ==> history[i].incidentId < k
    ensures Transitions(history, k) == []
  {
    if history != [] { NoTransitionsYet(history[..|history| - 1], k); }
  }

  /** A request that goes through sets a status of the list, or none. */
  lemma TargetIsValid(b: Board, r: Request)
    requires ReplyTo(b, r) == Done && TargetStatus(r).Some?
    ensures TargetStatus(r).value in STATUSES
  {
    if r.Update? { assert "status" !in UpdateErrors(r.body, r.admin); }
  }

  lemma StatusAfter(b: Board, r: Request, k: Id)
    requires k in Apply(b, r).incidents && (forall j :: j in b.incidents ==> j < b.nextIncident)
    ensures k !in b.incidents ==> k == b.nextIncident && Apply(b, r).incidents[k].status == Some("open")
                                  && Appended(b, r) == []
    ensures k in b.incidents && (Appended(b, r) == [] || Appended(b, r)[0].to.None? || r.incident != k)
            ==> Apply(b, r).incidents[k].status == b.incidents[k].status
    ensures k in b.incidents && Appended(b, r) != [] && Appended(b, r)[0].to.Some? && r.incident == k
            ==> Apply(b, r).incidents[k].status == TargetStatus(r) == Appended(b, r)[0].to
                && Appended(b, r)[0].from == b.incidents[k].status != TargetStatus(r) && ReplyTo(b, r) == Done
    ensures Appended(b, r) != [] ==> |Appended(b, r)| == 1 && (r.Update? || r.Progress?)
                                     && Appended(b, r)[0].incidentId == r.incident
  {
  }

  lemma ChainStep(history: seq<Entry>, added: seq<Entry>, k: Id, origin: Option<string>, status: Option<string>,
                  status': Option<string>)
    requires Chain(Transitions(history, k), origin, status) && |added| <= 1
    requires if added != [] && ChangesOf(k)(added[0])
             then added[0].from == status != added[0].to == status' && added[0].to.value in STATUSES
             else status' == status
    ensures Chain(Transitions(history + added, k), origin, status')
  {
    if added == [] {
      assert history + [] == history;
    } else {
      FilterSnoc(history, added[0], ChangesOf(k));
      if ChangesOf(k)(added[0]) {
        ChainExtends(Transitions(history, k), added[0], origin);
      } else {
        assert Transitions(history, k) + [] == Transitions(history, k);
      }
      assert [added[0]] == added;
    }
  }

  /** One request keeps an incident's history a chain that ends in its status. */
  lemma RequestKeepsChain(b: Board, r: Request, history: seq<Entry>, k: Id, origin: Option<string>)
    requires ReplaysFor(b, history, k, origin) && (forall j :: j in b.incidents ==> j < b.nextIncident)
    requires k !in b.incidents && k in Apply(b, r).incidents ==>
               origin == Some("open") && forall i :: 0 <= i < |history| ==> history[i].incidentId < k
    ensures ReplaysFor(Apply(b, r), history + Appended(b, r), k, origin)
  {
    if k in Apply(b, r).incidents {
      var added, status' := Appended(b, r), Apply(b, r).incidents[k].status;
      StatusAfter(b, r, k);
      if k !in b.incidents {
        NoTransitionsYet(history, k);
        ChainStep(history, added, k, origin, Some("open"), status');
      } else {
        if added != [] && ChangesOf(k)(added[0]) { TargetIsValid(b, r); }
        ChainStep(history, added, k, origin, b.incidents[k].status, status');
      }
    }
  }

  /** Ids in the log and in the history lie below the counters. */
  predicate Below(b: Board, history: seq<Entry>) {
    forall i :: 0 <= i < |history| ==> history[i].incidentId < b.nextIncident && history[i].id < b.nextEntry
  }

  lemma RequestKeepsIds(b: Board, r: Request, history: seq<Entry>)
    requires Sound(b) && Below(b, history)
    ensures Sound(Apply(b, r)) && b.nextIncident <= Apply(b, r).nextIncident && b.nextEntry <= Apply(b, r).nextEntry
    ensures Below(Apply(b, r), history + Appended(b, r))
  {
    if r.DestroyEntry? {
      FilterAll(b.log, Other(r.entry), (x: Entry) => x.incidentId < b.nextIncident && x.id < b.nextEntry);
      FilterOrder(b.log, Other(r.entry), (x: Entry, y: Entry) => x.id < y.id);
      var kept := Filter(b.log, Other(r.entry));
      assert kept + [] == kept && b.log + [] == b.log;
      assert forall i, j :: 0 <= i < j < |kept| ==> kept[i].id < kept[j].id;
    }
  }

  predicate IdsKept(b: Board, now: Board, history: seq<Entry>) {
    Sound(now) && b.nextIncident <= now.nextIncident && Below(now, history)
  }

  lemma IdsStep(b: Board, m: Board, r: Request, history: seq<Entry>)
    requires IdsKept(b, m, history)
    ensures IdsKept(b, Apply(m, r), history + Appended(m, r))
  {
    RequestKeepsIds(m, r, history);
  }

  lemma {:induction false} RunKeepsIds(bs: seq<Board>, run: seq<Request>, n: nat)
    requires IsRun(bs, run) && n <= |run| && Sound(bs[0])
    ensures IdsKept(bs[0], bs[n], History(bs, run, n))
  {
    if n > 0 {
      RunKeepsIds(bs, run, n - 1);
      IdsStep(bs[0], bs[n - 1], run[n - 1], History(bs, run, n - 1));
    }
  }

  lemma ReplayStep(b: Board, m: Board, r: Request, history: seq<Entry>, origins: map<Id, Option<string>>, k: Id)
    requires Sound(b) && IdsKept(b, m, history) && ReplaysFor(m, history, k, OriginOf(b, origins, k))
    ensures ReplaysFor(Apply(m, r), history + Appended(m, r), k, OriginOf(b, origins, k))
  {
    if k !in m.incidents && k in Apply(m, r).incidents { StatusAfter(m, r, k); }
    RequestKeepsChain(m, r, history, k, OriginOf(b, origins, k));
  }

  /** After n requests, the full history of incident k leads from its origin to its status. */
  predicate ReplaysAt(bs: seq<Board>, run: seq<Request>, n: nat, origins: map<Id, Option<string>>, k: Id)
    requires n <= |run| < |bs|
  {
    ReplaysFor(bs[n], History(bs, run, n), k, OriginOf(bs[0], origins, k))
  }

  lemma ReplayInRun(bs: seq<Board>, run: seq<Request>, n: nat, origins: map<Id, Option<string>>, k: Id)
    requires IsRun(bs, run) && 0 < n <= |run| && Sound(bs[0]) && ReplaysAt(bs, run, n - 1, origins, k)
    ensures ReplaysAt(bs, run, n, origins, k)
  {
    var b, r, history := bs[n - 1], run[n - 1], History(bs, run, n - 1);
    assert IdsKept(bs[0], b, history) by { RunKeepsIds(bs, run, n - 1); }
    ReplayStep(bs[0], b, r, history, origins, k);
    assert bs[n - 1 + 1] == Apply(b, r);
  }

  /** Over any run, log deletions included, the full history of each incident replays to its status. */
  lemma {:induction false} HistoryReplays(bs: seq<Board>, run: seq<Request>, n: nat, origins: map<Id, Option<string>>,
                                         k: Id)
    requires IsRun(bs, run) && n <= |run| && Sound(bs[0]) && Replays(bs[0], origins)
    ensures ReplaysAt(bs, run, n, origins, k)
  {
    if n > 0 {
      HistoryReplays(bs, run, n - 1, origins, k);
      ReplayInRun(bs, run, n, origins, k);
    }
  }

  /** Entries an administrator has deleted so far. */
  function Deleted(bs: seq<Board>, run: seq<Request>, n: nat): set<Id>
    requires n <= |run| < |bs|
  {
    if n == 0 then {} else Deleted(bs, run, n - 1) + DeletedBy(bs[n - 1], run[n - 1])
  }

  function NotIn(gone: set<Id>): Entry -> bool { (x: Entry) => x.id !in gone }

  /** The stored log is the history less the deleted entries, in order. */
  predicate IsPart(b: Board, history: seq<Entry>, gone: set<Id>) {
    b.log == Filter(history, NotIn(gone)) && forall e :: e in gone ==> e < b.nextEntry
  }

  function DeletedBy(b: Board, r: Request): set<Id> {
    if r.DestroyEntry? && ReplyTo(b, r) == Done then {r.entry} else {}
  }

  lemma RequestKeepsPart(b: Board, r: Request, history: seq<Entry>, gone: set<Id>)
    requires Sound(b) && IsPart(b, history, gone)
    ensures IsPart(Apply(b, r), history + Appended(b, r), gone + DeletedBy(b, r))
  {
    var added := Appended(b, r);
    assert history + [] == history && b.log + [] == b.log && gone + {} == gone;
    if r.DestroyEntry? && ReplyTo(b, r) == Done {
      FilterFilter(history, NotIn(gone), Other(r.entry), NotIn(gone + {r.entry}));
      assert Filter(b.log, Other(r.entry)) + [] == Filter(b.log, Other(r.entry));
    } else if added != [] {
      FilterSnoc(history, added[0], NotIn(gone));
    }
  }

  lemma PartAtStart(b: Board)
    ensures IsPart(b, b.log, {})
  {
    FilterEverything(b.log, NotIn({}));
  }

  predicate IsPartAt(bs: seq<Board>, run: seq<Request>, n: nat)
    requires n <= |run| < |bs|
  {
    IsPart(bs[n], History(bs, run, n), Deleted(bs, run, n))
  }

  lemma PartInRun(bs: seq<Board>, run: seq<Request>, n: nat)
    requires IsRun(bs, run) && 0 < n <= |run| && Sound(bs[0]) && IsPartAt(bs, run, n - 1)
    ensures IsPartAt(bs, run, n)
  {
    assert Sound(bs[n - 1]) by { RunKeepsIds(bs, run, n - 1); }
    RequestKeepsPart(bs[n - 1], run[n - 1], History(bs, run, n - 1), Deleted(bs, run, n - 1));
    assert bs[n - 1 + 1] == Apply(bs[n - 1], run[n - 1]);
  }

  /** In every state of every run. */
  lemma {:induction false} LogIsPartOfHistory(bs: seq<Board>, run: seq<Request>, n: nat)
    requires IsRun(bs, run) && n <= |run| && Sound(bs[0])
    ensures IsPartAt(bs, run, n)
  {
    if n == 0 {
      PartAtStart(bs[0]);
    } else {
      LogIsPartOfHistory(bs, run, n - 1);
      PartInRun(bs, run, n);
    }
  }

  predicate NoDeletions(run: seq<Request>, n: nat)
    requires n <= |run|
  {
    forall i :: 0 <= i < n ==> !run[i].DestroyEntry?
  }

  lemma {:induction false} NothingDeleted(bs: seq<Board>, run: seq<Request>, n: nat)
    requires n <= |run| < |bs| && NoDeletions(run, n)
    ensures Deleted(bs, run, n) == {}
  {
    if n > 0 { NothingDeleted(bs, run, n - 1); }
  }

  lemma LogIsHistory(bs: seq<Board>, run: seq<Request>, n: nat)
    requires IsRun(bs, run) && n <= |run| && Sound(bs[0]) && NoDeletions(run, n)
    ensures bs[n].log == History(bs, run, n)
  {
    LogIsPartOfHistory(bs, run, n);
    NothingDeleted(bs, run, n);
    FilterEverything(History(bs, run, n), NotIn({}));
  }

  /** Without log deletions, the stored transitions of an incident run from its origin to its present status. */
  lemma LogReplaysToStatus(bs: seq<Board>, run: seq<Request>, n: nat, origins: map<Id, Option<string>>, k: Id)
    requires IsRun(bs, run) && n <= |run| && Sound(bs[0]) && Replays(bs[0], origins)
    requires NoDeletions(run, n)
    ensures ReplaysFor(bs[n], bs[n].log, k, OriginOf(bs[0], origins, k))
  {
    HistoryReplays(bs, run, n, origins, k);
    LogIsHistory(bs, run, n);
  }

  // Who may do what, read off the request

  /** The texts an update may carry. */
  predicate UpdateReads(body: Body, admin: bool) {
    && ("title" in body ==> body["title"] != "")
    && ("category" in body ==>
          body["category"] in {"general", "hotel", "flight", "transport", "pilgrim", "finance", "medical", "document"})
    && ("severity" in body ==> body["severity"] in {"low", "medium", "high", "critical"})
    && (admin && "status" in body ==> body["status"] in {"open", "in_progress", "resolved", "closed"})
  }

  /** An allowed administrator asks for this status of incident k, in an update that goes through or with progress. */
  predicate AsksFor(r: Request, k: Id, status: string) {
    match r
    case Update(_, id, allowed, admin, body, _, _) =>
      id == k && allowed && admin && UpdateReads(body, true) && "status" in body && body["status"] == status
    case Progress(_, id, allowed, admin, body, _) =>
      id == k && allowed && admin && "to_status" in body && body["to_status"] == status
      && status in {"open", "in_progress", "resolved", "closed"}
    case _ => false
  }

  predicate CategoryRefused(v: string) {
    v !in {"general", "hotel", "flight", "transport", "pilgrim", "finance", "medical", "document"}
  }

  predicate SeverityRefused(v: string) { v !in {"low", "medium", "high", "critical"} }

  predicate StatusRefused(v: string) { v !in {"open", "in_progress", "resolved", "closed"} }

  /** The fields a refused report names. */
  predicate StoreFieldsTell(fields: set<string>, body: Body) {
    && fields <= {"group_id", "title", "description", "category", "severity"}
    && ("group_id" in fields <==> "group_id" !in body)
    && ("title" in fields <==> Field(body, "title") == "")
    && ("description" in fields <==> Field(body, "description") == "")
    && ("category" in fields <==> CategoryRefused(Field(body, "category")))
    && ("severity" in fields <==> SeverityRefused(Field(body, "severity")))
  }

  /** The fields a refused update names. */
  predicate UpdateFieldsTell(fields: set<string>, body: Body, admin: bool) {
    && fields <= {"title", "category", "severity", "status"}
    && ("title" in fields <==> "title" in body && body["title"] == "")
    && ("category" in fields <==> "category" in body && CategoryRefused(body["category"]))
    && ("severity" in fields <==> "severity" in body && SeverityRefused(body["severity"]))
    && ("status" in fields <==> admin && "status" in body && StatusRefused(body["status"]))
  }

  lemma UpdateErrorsTell(body: Body, admin: bool)
    ensures UpdateFieldsTell(UpdateErrors(body, admin), body, admin)
  {
  }

  lemma UpdateErrorsRead(body: Body, admin: bool)
    ensures UpdateErrors(body, admin) == {} <==> UpdateReads(body, admin)
  {
    var errs := UpdateErrors(body, admin);
    UpdateErrorsTell(body, admin);
    assert errs == {} <==> "title" !in errs && "category" !in errs && "severity" !in errs && "status" !in errs;
  }

  /** The trimmed note of a body, "" when there is none. */
  function NoteText(body: Body): string { if "note" in body then TrimSpace(body["note"]) else "" }

  /** The entry that logs this move of incident k at this request. */
  predicate LogsMove(e: Entry, b: Board, r: Request, k: Id, status: string)
    requires k in b.incidents && (r.Update? || r.Progress?)
  {
    && e.id == b.nextEntry && e.incidentId == k && e.userId == r.userId && e.at == r.now
    && e.from == b.incidents[k].status && e.to == Some(status)
    && e.note == if r.Progress? && NoteText(r.body) != "" then Some(NoteText(r.body)) else None
  }

  /** Request r asks for another status of incident k than it has, and may. */
  predicate AsksOther(b: Board, r: Request, k: Id, status: string) {
    k in b.incidents && AsksFor(r, k, status) && b.incidents[k].status != Some(status)
  }

  /** A status moves exactly when an allowed administrator asks for another valid one; then the move is logged. */
  lemma StatusMovesExactly(b: Board, r: Request, k: Id)
    requires k in b.incidents && k < b.nextIncident && k in Apply(b, r).incidents
    ensures var now := Apply(b, r).incidents[k].status;
            && (now != b.incidents[k].status ==> now.Some? && AsksOther(b, r, k, now.value))
            && (forall s :: AsksOther(b, r, k, s) ==> now == Some(s))
  {
    if r.Update? { UpdateErrorsRead(r.body, r.admin); }
  }

  /** What a request adds to the log: a move it may make, else the bare note of allowed progress, else nothing. */
  lemma LogGrowsExactly(b: Board, r: Request)
    ensures var added := Appended(b, r);
            if (r.Update? || r.Progress?) && exists s :: AsksOther(b, r, r.incident, s)
            then |added| == 1 && added[0].to.Some? && AsksOther(b, r, r.incident, added[0].to.value)
                 && LogsMove(added[0], b, r, r.incident, added[0].to.value)
            else if r.Progress? && r.incident in b.incidents && r.allowed && NoteText(r.body) != ""
                    && !(r.admin && "to_status" in r.body
                         && r.body["to_status"] !in {"", "open", "in_progress", "resolved", "closed"})
            then added == [Entry(b.nextEntry, r.incident, r.userId, None, None, Some(NoteText(r.body)), r.now)]
            else added == []
  {
    if r.Update? { UpdateErrorsRead(r.body, r.admin); }
    if r.Update? || r.Progress? {
      if Appended(b, r) != [] && Appended(b, r)[0].to.Some? {
        assert AsksOther(b, r, r.incident, Appended(b, r)[0].to.value);
      }
    }
  }

  /** Over a run: an incident's status differs between two boards only by such a request, which leaves its log entry. */
  lemma StatusMoveIsLogged(bs: seq<Board>, run: seq<Request>, i: nat, k: Id)
    requires IsRun(bs, run) && Sound(bs[0]) && i < |run| && k in bs[i].incidents && k in bs[i + 1].incidents
    requires bs[i + 1].incidents[k].status != bs[i].incidents[k].status
    ensures var status := bs[i + 1].incidents[k].status;
            && status.Some? && AsksOther(bs[i], run[i], k, status.value)
            && bs[i + 1].log != [] && bs[i + 1].log[..|bs[i + 1].log| - 1] == bs[i].log
            && LogsMove(bs[i + 1].log[|bs[i + 1].log| - 1], bs[i], run[i], k, status.value)
  {
    RunKeepsIds(bs, run, i);
    assert bs[i + 1] == Apply(bs[i], run[i]);
    StatusMovesExactly(bs[i], run[i], k);
    LogGrowsExactly(bs[i], run[i]);
  }

  /** The request at step m logged this transition: it was an allowed administrator's and asked for that status. */
  ghost predicate MovedBy(bs: seq<Board>, run: seq<Request>, m: nat, e: Entry)
    requires m < |run| < |bs|
  {
    MadeBy(bs[m], run[m], e)
  }

  ghost predicate MadeBy(b: Board, r: Request, e: Entry) {
    e.to.Some? && AsksOther(b, r, e.incidentId, e.to.value) && LogsMove(e, b, r, e.incidentId, e.to.value)
  }

  lemma AppendedIsMadeBy(b: Board, r: Request, e: Entry)
    requires e in Appended(b, r) && e.to.Some?
    ensures MadeBy(b, r, e)
  {
    LogGrowsExactly(b, r);
  }

  /** Every transition in the history beyond the start was made by such a request of the run. */
  lemma {:induction false} TransitionsAreAdministrators(bs: seq<Board>, run: seq<Request>, n: nat, i: nat)
    returns (m: nat)
    requires n <= |run| < |bs| && |bs[0].log| <= i < |History(bs, run, n)| && History(bs, run, n)[i].to.Some?
    ensures m < n && MovedBy(bs, run, m, History(bs, run, n)[i])
  {
    var before := History(bs, run, n - 1);
    if i < |before| {
      m := TransitionsAreAdministrators(bs, run, n - 1, i);
    } else {
      m := n - 1;
      var added := Appended(bs[m], run[m]);
      assert History(bs, run, n)[i] == added[i - |before|];
      AppendedIsMadeBy(bs[m], run[m], added[i - |before|]);
    }
  }

  /** A log entry goes exactly when an administrator deletes it as an entry of its own incident. */
  lemma EntryGoesExactly(b: Board, r: Request, e: Entry)
    requires Sound(b) && e in b.log
    ensures e !in Apply(b, r).log
       <==> r.DestroyEntry? && r.admin && r.entry == e.id && r.incident == e.incidentId && r.incident in b.incidents
  {
    assert e !in Appended(b, r);
    if r.DestroyEntry? { FilterContains(b.log, Other(r.entry), e); }
  }

  /** The texts of a report that goes through. */
  predicate StoreReads(body: Body) {
    && "group_id" in body && "title" in body && body["title"] != ""
    && "description" in body && body["description"] != ""
    && "category" in body
    && body["category"] in {"general", "hotel", "flight", "transport", "pilgrim", "finance", "medical", "document"}
    && "severity" in body && body["severity"] in {"low", "medium", "high", "critical"}
  }

  lemma StoreErrorsTell(body: Body)
    ensures StoreFieldsTell(StoreErrors(body), body)
  {
  }

  lemma StoreErrorsRead(body: Body)
    ensures StoreErrors(body) == {} <==> StoreReads(body)
  {
    var errs := StoreErrors(body);
    StoreErrorsTell(body);
    assert errs == {} <==> "group_id" !in errs && "title" !in errs && "description" !in errs
                           && "category" !in errs && "severity" !in errs;
  }

  function Column(row: Incident, key: string): Option<string> {
    if key in row.columns then Some(row.columns[key]) else None
  }

  /** An incident appears exactly by a valid, allowed report, open and signed, and goes by an administrator. */
  lemma IncidentsComeAndGo(b: Board, r: Request, k: Id)
    requires Sound(b)
    ensures k !in b.incidents && k in Apply(b, r).incidents
       <==> r.Store? && r.allowed && StoreReads(r.body) && k == b.nextIncident
    ensures k !in b.incidents && k in Apply(b, r).incidents ==>
              var row := Apply(b, r).incidents[k];
              && row.status == Some("open") && row.reportedBy == Some(r.userId)
              && row.occurredAt == Some(if r.occurred.Some? then r.occurred.value else r.now)
              && forall key :: Column(row, key)
                            == if key in r.body && key in {"group_id", "group_task_id", "title", "description",
                                                           "category", "severity"}
                               then Some(r.body[key]) else None
    ensures k in b.incidents ==> (k !in Apply(b, r).incidents <==> r.Destroy? && r.admin && r.incident == k)
  {
    if r.Store? { StoreErrorsRead(r.body); }
  }

  /** A valid, allowed update of incident k may write this column: some are for administrators alone. */
  predicate Writes(r: Request, k: Id, key: string) {
    && r.Update? && r.incident == k && r.allowed && UpdateReads(r.body, r.admin) && key in r.body
    && (key in {"title", "description", "category", "severity"}
        || (r.admin && key in {"assigned_to_id", "resolution_notes"}))
  }

  /** A column moves exactly by such an update; the reporter stays, and a parsed time of occurrence is taken over. */
  lemma ColumnsMoveExactly(b: Board, r: Request, k: Id, key: string)
    requires Sound(b) && k in b.incidents && k in Apply(b, r).incidents
    ensures var row, row' := b.incidents[k], Apply(b, r).incidents[k];
            && Column(row', key) == (if Writes(r, k, key) then Some(r.body[key]) else Column(row, key))
            && row'.reportedBy == row.reportedBy
            && row'.occurredAt == if r.Update? && r.incident == k && r.allowed && UpdateReads(r.body, r.admin)
                                     && r.occurred.Some? then r.occurred else row.occurredAt
  {
    if r.Update? { UpdateErrorsRead(r.body, r.admin); }
  }

  /** The entry of this id hangs on this incident. */
  predicate HasEntry(b: Board, k: Id, e: Id) {
    exists i :: 0 <= i < |b.log| && b.log[i].id == e && b.log[i].incidentId == k
  }

  /** The one field refused progress names: a bad status of an administrator, else the missing note. */
  predicate ProgressFieldsTell(fields: set<string>, body: Body, admin: bool) {
    if admin && "to_status" in body && body["to_status"] != "" && StatusRefused(body["to_status"])
    then fields == {"to_status"} else fields == {"note"} && NoteText(body) == ""
  }

  /** Which refusal answers: unknown incident or entry first, then the policy, then the fields. */
  lemma RefusalsExactly(b: Board, r: Request)
    ensures ReplyTo(b, r) == Missing
       <==> !r.Store? && (r.incident !in b.incidents || (r.DestroyEntry? && !HasEntry(b, r.incident, r.entry)))
    ensures ReplyTo(b, r) == Forbidden
       <==> ReplyTo(b, r) != Missing && !(if r.DestroyEntry? || r.Destroy? then r.admin else r.allowed)
  {
  }

  lemma RefusedFields(b: Board, r: Request, fields: set<string>)
    requires ReplyTo(b, r) == Invalid(fields)
    ensures fields != {} && (r.Store? || r.Update? || r.Progress?)
    ensures r.Store? ==> StoreFieldsTell(fields, r.body)
    ensures r.Update? ==> UpdateFieldsTell(fields, r.body, r.admin)
    ensures r.Progress? ==> ProgressFieldsTell(fields, r.body, r.admin)
  {
    if r.Store? { StoreErrorsTell(r.body); }
    if r.Update? { UpdateErrorsTell(r.body, r.admin); }
  }

  // The listing

  /** The order of the progress listing: newest first, ties by greater id. */
  predicate Newer(a: Entry, b: Entry) { a.at > b.at || (a.at == b.at && a.id > b.id) }

  predicate NewestFirst(s: seq<Entry>) { SortedBy(s, Newer) }

  function About(k: Id): Entry -> bool { (x: Entry) => x.incidentId == k }

  function EntriesOf(log: seq<Entry>, k: Id): seq<Entry> { Filter(log, About(k)) }

  lemma BackwardsIsNewestFirst(es: seq<Entry>)
    requires forall i, j :: 0 <= i < j < |es| ==> Newer(es[j], es[i])
    ensures NewestFirst(Reversed(es)) && Reversed(Reversed(es)) == es
  {
    var back := Reversed(es);
    forall i, j | 0 <= i < j < |back| ensures Newer(back[i], back[j]) {
      assert back[i] == es[|es| - 1 - i] && back[j] == es[|es| - 1 - j];
    }
  }

  /** With a clock that never ran backwards, the sorted listing read from its end is the incident's log. */
  lemma ListingReversedIsLog(log: seq<Entry>, k: Id, listing: seq<Entry>)
    requires forall i, j :: 0 <= i < j < |log| ==> log[i].id < log[j].id && log[i].at <= log[j].at
    requires NewestFirst(listing) && multiset(listing) == multiset(EntriesOf(log, k))
    ensures Reversed(listing) == EntriesOf(log, k)
  {
    var es := EntriesOf(log, k);
    FilterOrder(log, About(k), (x: Entry, y: Entry) => Newer(y, x));
    BackwardsIsNewestFirst(es);
    ReversedKeepsRows(es);
    SortedIsUnique(listing, Reversed(es), Newer);
  }

  /** The requests' clock never runs backwards, nor behind what is already logged. */
  predicate Timely(b: Board, run: seq<Request>) {
    && (forall i, j :: 0 <= i <= j < |run| ==> run[i].now <= run[j].now)
    && (forall i, j :: 0 <= i < |b.log| && 0 <= j < |run| ==> b.log[i].at <= run[j].now)
    && (forall i, j :: 0 <= i < j < |b.log| ==> b.log[i].at <= b.log[j].at)
  }

  predicate InTime(log: seq<Entry>, now: Time) {
    (forall i :: 0 <= i < |log| ==> log[i].at <= now) && (forall i, j :: 0 <= i < j < |log| ==> log[i].at <= log[j].at)
  }

  lemma RequestKeepsTime(b: Board, r: Request, clock: Time)
    requires InTime(b.log, clock) && clock <= r.now
    ensures InTime(Apply(b, r).log, r.now)
  {
    if r.DestroyEntry? {
      FilterAll(b.log, Other(r.entry), (x: Entry) => x.at <= clock);
      FilterOrder(b.log, Other(r.entry), (x: Entry, y: Entry) => x.at <= y.at);
      var kept := Filter(b.log, Other(r.entry));
      assert kept + [] == kept && b.log + [] == b.log;
      assert forall i, j :: 0 <= i < j < |kept| ==> kept[i].at <= kept[j].at;
    }
  }

  lemma {:induction false} LogStaysTimely(bs: seq<Board>, run: seq<Request>, n: nat)
    requires IsRun(bs, run) && Timely(bs[0], run) && 0 < n <= |run|
    ensures InTime(bs[n].log, run[n - 1].now)
  {
    if n > 1 { LogStaysTimely(bs, run, n - 1); }
    RequestKeepsTime(bs[n - 1], run[n - 1], if n > 1 then run[n - 2].now else run[0].now);
  }

  /** The listing an incident page shows, read backwards, is the chain from its origin to its status. */
  lemma ListingTellsTheStory(bs: seq<Board>, run: seq<Request>, n: nat, origins: map<Id, Option<string>>, k: Id,
                             listing: seq<Entry>)
    requires IsRun(bs, run) && n <= |run| && Sound(bs[0]) && Replays(bs[0], origins)
    requires Timely(bs[0], run) && NoDeletions(run, n)
    requires NewestFirst(listing) && multiset(listing) == multiset(EntriesOf(bs[n].log, k))
    ensures ReplaysFor(bs[n], Reversed(listing), k, OriginOf(bs[0], origins, k))
  {
    LogReplaysToStatus(bs, run, n, origins, k);
    if n > 0 { LogStaysTimely(bs, run, n); }
    RunKeepsIds(bs, run, n);
    ListingReversedIsLog(bs[n].log, k, listing);
    FilterFilter(bs[n].log, About(k), ChangesOf(k), ChangesOf(k));
  }
}
