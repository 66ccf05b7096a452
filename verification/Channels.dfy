/** Broadcast channels: the name a message is published on and the name a subscriber asks for. */
module Channels {
  import opened Prelude
  import opened GoText
  import T = TaskVisibility

  const PRIVATE := "private-"
  const PRESENCE := "presence-"
  const USER_PREFIX := "App.Models.User."
  const MESSAGES := "messages."

  /** The channel `broadcastMessageSent` triggers on. */
  function PublishedOn(morphType: string, id: Id): string { "private-messages." + morphType + "." + FormatUint(id) }

  predicate HasPrefix(s: string, prefix: string) { prefix <= s }

  function Logical(channelName: string): string {
    if HasPrefix(channelName, PRIVATE) then channelName[|PRIVATE|..]
    else if HasPrefix(channelName, PRESENCE) then channelName[|PRESENCE|..]
    else channelName
  }

  /** What a channel name asks about; malformed names are refused outright. */
  datatype Question = AboutUser(id: Id) | AboutParent(morphType: string, id: Id) | Refused

  function Parse(logical: string): Question {
    if HasPrefix(logical, USER_PREFIX) then
      var id := ParseUint(logical[|USER_PREFIX|..]);
      if id.Some? then AboutUser(id.value) else Refused
    else if HasPrefix(logical, MESSAGES) then
      var rest := logical[|MESSAGES|..];
      var idx := LastIndex(rest, ".");
      if idx < 0 || idx + 1 > |rest| then Refused
      else
        var id := ParseUint(rest[idx + 1..]);
        if id.Some? then AboutParent(rest[..idx], id.value) else Refused
    else Refused
  }

  /** `authorizeChannel`, given who asks and the view policy of message parents. */
  predicate Authorized(userId: Id, canView: (string, Id) -> bool, channelName: string) {
    match Parse(Logical(channelName))
    case AboutUser(id) => id == userId
    case AboutParent(morphType, id) => canView(morphType, id)
    case Refused => false
  }

  /** The last dot of "type.digits" is the one in between: digits have none. */
  lemma LastDot(morphType: string, digits: string)
    requires AllDigits(digits)
    ensures LastIndex(morphType + "." + digits, ".") == |morphType|
  {
    var s := morphType + "." + digits;
    forall j | |morphType| < j <= |s| ensures !MatchesAt(s, ".", j) {
      if j < |s| {
        assert s[j] == digits[j - |morphType| - 1];
        assert s[j..j + 1] == [s[j]];
      }
    }
    assert s[|morphType|..|morphType| + 1] == ".";
    LastMatchIs(s, ".", |morphType|, |s|);
  }

  /** A parent's type, a dot and digits are read as that type and number. */
  lemma ParentIsRead(morphType: string, digits: string, id: Id)
    requires id < UINT64_LIMIT && StandsFor(digits, id)
    ensures Parse("messages." + (morphType + "." + digits)) == AboutParent(morphType, id)
  {
    var rest := morphType + "." + digits;
    assert (MESSAGES + rest)[0] == 'm' && USER_PREFIX[0] == 'A';
    assert (MESSAGES + rest)[|MESSAGES|..] == rest;
    StandsForValue(digits, id);
    LastDot(morphType, digits);
    assert rest[..|morphType|] == morphType && rest[|morphType| + 1..] == digits;
    ParseUintExactly(digits, id);
  }

  lemma PublishedIsPrivate(morphType: string, id: Id)
    ensures Logical(PublishedOn(morphType, id)) == MESSAGES + (morphType + "." + FormatUint(id))
  {
    assert PublishedOn(morphType, id) == PRIVATE + (MESSAGES + (morphType + "." + FormatUint(id)));
  }

  /** For every type, dots included, and every 64-bit id, the published name parses to the published parent. */
  lemma ChannelRoundTrip(morphType: string, id: Id)
    requires id < UINT64_LIMIT
    ensures Parse(Logical(PublishedOn(morphType, id))) == AboutParent(morphType, id)
  {
    PublishedIsPrivate(morphType, id);
    assert FormatUint(id)[..0] == [] && FormatUint(id)[0..] == FormatUint(id);
    ParentIsRead(morphType, FormatUint(id), id);
  }

  // Which names open to whom

  /** The name with one of the two prefixes, if any, taken off. */
  predicate Strips(channelName: string, logical: string) {
    || channelName == "private-" + logical
    || channelName == "presence-" + logical
    || (channelName == logical && !("private-" <= channelName) && !("presence-" <= channelName))
  }

  lemma StripsLogical(channelName: string, logical: string)
    ensures Strips(channelName, logical) <==> logical == Logical(channelName)
  {
    assert "private-"[2] == 'i' && "presence-"[2] == 'e';
    if "private-" <= channelName {
      assert channelName == "private-" + channelName[|PRIVATE|..];
      assert channelName[2] == 'i';
    } else if "presence-" <= channelName {
      assert channelName == "presence-" + channelName[|PRESENCE|..];
      assert channelName[2] == 'e';
    }
    assert ("private-" + logical)[|PRIVATE|..] == logical && ("presence-" + logical)[|PRESENCE|..] == logical;
  }

  predicate NamesUser(logical: string, digits: string, userId: Id) {
    logical == "App.Models.User." + digits && userId < UINT64_LIMIT && StandsFor(digits, userId)
  }

  predicate NamesParent(logical: string, morphType: string, digits: string, id: Id) {
    logical == "messages." + (morphType + "." + digits) && id < UINT64_LIMIT && StandsFor(digits, id)
  }

  lemma ParseExactly(logical: string)
    ensures forall id :: Parse(logical) == AboutUser(id) <==> exists digits :: NamesUser(logical, digits, id)
    ensures forall morphType, id ::
              Parse(logical) == AboutParent(morphType, id)
              <==> exists digits :: NamesParent(logical, morphType, digits, id)
  {
    forall digits, id | NamesUser(logical, digits, id) ensures Parse(logical) == AboutUser(id) {
      assert logical[|USER_PREFIX|..] == digits;
      ParseUintExactly(digits, id);
    }
    forall morphType, digits, id | NamesParent(logical, morphType, digits, id)
      ensures Parse(logical) == AboutParent(morphType, id)
    {
      ParentIsRead(morphType, digits, id);
    }
    match Parse(logical) {
      case AboutUser(id) =>
        var digits := logical[|USER_PREFIX|..];
        ParseUintExactly(digits, id);
        assert NamesUser(logical, digits, id);
      case AboutParent(morphType, id) =>
        var digits := ParentDigits(logical, morphType, id);
        assert NamesParent(logical, morphType, digits, id);
      case Refused =>
    }
  }

  lemma ParentDigits(logical: string, morphType: string, id: Id) returns (digits: string)
    requires Parse(logical) == AboutParent(morphType, id)
    ensures NamesParent(logical, morphType, digits, id)
  {
    var rest := logical[|MESSAGES|..];
    var idx := LastIndex(rest, ".");
    digits := rest[idx + 1..];
    ParseUintExactly(digits, id);
    LastMatchMatches(rest, ".", |rest|);
    assert rest[idx..idx + 1] == ".";
    assert rest == rest[..idx] + rest[idx..idx + 1] + rest[idx + 1..];
    assert logical == MESSAGES + rest;
  }

  /** One's own user channel, or the channel of a parent one may view. */
  ghost predicate Opens(userId: Id, canView: (string, Id) -> bool, logical: string) {
    || (exists digits :: NamesUser(logical, digits, userId))
    || (exists morphType, digits, id :: NamesParent(logical, morphType, digits, id) && canView(morphType, id))
  }

  lemma OpensExactly(userId: Id, canView: (string, Id) -> bool, channelName: string)
    ensures Authorized(userId, canView, channelName) <==> Opens(userId, canView, Logical(channelName))
  {
    var logical := Logical(channelName);
    ParseExactly(logical);
    if Opens(userId, canView, logical) {
      if digits :| NamesUser(logical, digits, userId) {
        assert Parse(logical) == AboutUser(userId);
      } else {
        var morphType, digits, id :| NamesParent(logical, morphType, digits, id) && canView(morphType, id);
        assert Parse(logical) == AboutParent(morphType, id);
      }
    }
  }

  /** A channel is granted exactly when the name, its prefix taken off, is one's own or that of a viewable parent. */
  lemma AuthorizedExactly(userId: Id, canView: (string, Id) -> bool, channelName: string)
    ensures Authorized(userId, canView, channelName)
       <==> exists logical :: Strips(channelName, logical) && Opens(userId, canView, logical)
  {
    OpensExactly(userId, canView, channelName);
    StripsLogical(channelName, Logical(channelName));
    forall logical | Strips(channelName, logical) ensures logical == Logical(channelName) {
      StripsLogical(channelName, logical);
    }
  }

  /** So the view check runs on the very parent that was published, and distinct parents never share a channel. */
  lemma SubscribersOfParent(userId: Id, canView: (string, Id) -> bool, morphType: string, id: Id,
                            morphType2: string, id2: Id)
    requires id < UINT64_LIMIT && id2 < UINT64_LIMIT
    ensures Authorized(userId, canView, PublishedOn(morphType, id)) == canView(morphType, id)
    ensures PublishedOn(morphType, id) == PublishedOn(morphType2, id2) ==> morphType == morphType2 && id == id2
  {
    ChannelRoundTrip(morphType, id);
    ChannelRoundTrip(morphType2, id2);
  }

  // Message parents under the real task policy

  const GROUP_TASK := "group_task"
  const INCIDENT := "incident"

  /** Tables behind the view policies; who may see which incident is given. */
  datatype Db = Db(tasks: map<Id, T.Task>, groups: T.Groups, incidentView: (T.Principal, Id) -> bool)

  /** `CanViewMessageable`: the parent is looked up by type and id and its policy asked. */
  predicate CanViewMessageable(db: Db, p: T.Principal, morphType: string, id: Id) {
    if T.IsSuperAdmin(p) then true
    else if morphType == GROUP_TASK then id in db.tasks && T.CanViewGroupTask(p, db.groups, db.tasks[id])
    else if morphType == INCIDENT then db.incidentView(p, id)
    else false
  }

  /** The endpoint's decision for a caller. */
  predicate BroadcastAuth(db: Db, p: T.Principal, channelName: string) {
    Authorized(p.userId, (morphType: string, id: Id) => CanViewMessageable(db, p, morphType, id), channelName)
  }

  /**
   * The channel of a task's messages is open exactly to the super admin, and to those who may see the task: the
   * privileged, and permitted callers whose own task list contains it. Unknown types are open to the super admin alone.
   */
  lemma TaskChannelIsTaskVisibility(db: Db, p: T.Principal, morphType: string, id: Id)
    requires id < UINT64_LIMIT && "" !in p.roles
    ensures BroadcastAuth(db, p, PublishedOn("group_task", id))
       <==> p.userId == 1
            || (id in db.tasks
                && ("Admin" in p.roles || "Admin Operator" in p.roles || "Operator" in p.roles
                    || ("group-tasks.view" in p.permissions && T.Scope(p, db.groups, db.tasks[id]) == T.Yes)))
    ensures BroadcastAuth(db, p, PublishedOn("incident", id)) <==> p.userId == 1 || db.incidentView(p, id)
    ensures morphType != "group_task" && morphType != "incident"
            ==> (BroadcastAuth(db, p, PublishedOn(morphType, id)) <==> p.userId == 1)
  {
    ChannelRoundTrip(GROUP_TASK, id);
    ChannelRoundTrip(INCIDENT, id);
    ChannelRoundTrip(morphType, id);
    if id in db.tasks { T.ViewIsPermissionAndScope(p, db.groups, db.tasks[id]); }
  }

  /** With an empty role name the policy decides alone: the list may show tasks whose channel stays closed. */
  lemma TaskChannelIsTaskPolicy(db: Db, p: T.Principal, id: Id)
    requires id < UINT64_LIMIT
    ensures BroadcastAuth(db, p, PublishedOn("group_task", id))
       <==> T.IsSuperAdmin(p) || (id in db.tasks && T.CanViewGroupTask(p, db.groups, db.tasks[id]))
  {
    ChannelRoundTrip(GROUP_TASK, id);
  }
}
