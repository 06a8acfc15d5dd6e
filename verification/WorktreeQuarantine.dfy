/** cli/src/commands/worktree.ts: making the work copied into a seeded worktree database harmless. */
module WorktreeQuarantine {
  import opened Text

  /** Values of a JSON column. */
  datatype Value =
    | Null
    | Bool(b: bool)
    | Number(n: real)
    | Str(s: string)
    | List(items: seq<Value>)
    | Record(fields: map<string, Value>)

  datatype AgentStatus = Running | IdleAgent | OtherAgent(text: string)

  datatype Agent = Agent(status: AgentStatus, runtimeConfig: Value, updatedAt: int)

  datatype IssueStatus = Todo | InProgress | InReview | Blocked | OtherIssue(text: string)

  /** The columns the quarantine rewrites, and the others taken together. */
  datatype Issue = Issue(
    companyId: string, status: IssueStatus, assigneeAgentId: Option<string>, assigneeUserId: Option<string>,
    checkoutRunId: Option<string>, executionRunId: Option<string>, executionAgentNameKey: Option<string>,
    executionLockedAt: Option<int>, executionWorkspaceId: Option<string>, updatedAt: int, rest: seq<string>)

  /** What a comment says: the fixed note of the quarantine, or a text of somebody's. */
  datatype Body = QuarantineNote | Written(text: string)

  datatype Comment = Comment(companyId: string, issueId: string, body: Body)

  datatype Summary = Summary(disabledTimerHeartbeats: nat, resetRunningAgents: nat, quarantinedInProgressIssues: nat,
                             unassignedTodoIssues: nat, unassignedReviewIssues: nat)

  // ---------- runtime configuration ----------

  function IsEnabledValue(v: Value): bool {
    v == Bool(true) || v == Str("true") || v == Number(1.0) || v == Str("1")
  }

  function Fields(v: Value): map<string, Value> {
    if v.Record? then v.fields else map[]
  }

  function Heartbeat(config: map<string, Value>): Option<map<string, Value>> {
    if "heartbeat" in config && config["heartbeat"].Record? then Some(config["heartbeat"].fields) else None
  }

  /** The timer heartbeat is there and explicitly switched off, or is not there at all. */
  predicate HeartbeatOff(config: map<string, Value>) {
    var h := Heartbeat(config);
    h.Some? ==> "enabled" in h.value && h.value["enabled"] == Bool(false)
  }

  datatype Normalized = Normalized(runtimeConfig: map<string, Value>, disabledTimerHeartbeat: bool, changed: bool)

  function NormalizeWorktreeRuntimeConfig(runtimeConfig: Value): Normalized {
    var config := Fields(runtimeConfig);
    match Heartbeat(config)
    case None => Normalized(config, false, false)
    case Some(h) =>
      if !("enabled" in h && h["enabled"] == Bool(false)) then
        Normalized(config["heartbeat" := Record(h["enabled" := Bool(false)])],
                   "enabled" in h && IsEnabledValue(h["enabled"]), true)
      else Normalized(config, false, false)
  }

  /** Afterwards the heartbeat is off, every other setting is as it was, and normalising again changes nothing. */
  lemma NormalizedIsOff(runtimeConfig: Value)
    ensures var config := Fields(runtimeConfig);
            var n := NormalizeWorktreeRuntimeConfig(runtimeConfig);
            && HeartbeatOff(n.runtimeConfig)
            && (n.changed <==> !HeartbeatOff(config))
            && (n.disabledTimerHeartbeat ==> n.changed)
            && n.runtimeConfig.Keys == config.Keys
            && (forall k :: k in config && k != "heartbeat" ==> n.runtimeConfig[k] == config[k])
            && (Heartbeat(n.runtimeConfig).Some? <==> Heartbeat(config).Some?)
            && (Heartbeat(config).Some? ==>
                  forall k :: k in Heartbeat(config).value && k != "enabled" ==>
                                k in Heartbeat(n.runtimeConfig).value
                                && Heartbeat(n.runtimeConfig).value[k] == Heartbeat(config).value[k])
            && NormalizeWorktreeRuntimeConfig(Record(n.runtimeConfig)) == Normalized(n.runtimeConfig, false, false)
  {
  }

  // ---------- what the quarantine does to one row ----------

  predicate NeedsUpdate(a: Agent) {
    NormalizeWorktreeRuntimeConfig(a.runtimeConfig).changed || a.status.Running?
  }

  function QuarantinedAgent(a: Agent, now: int): Agent {
    if NeedsUpdate(a) then
      Agent(if a.status.Running? then IdleAgent else a.status,
            Record(NormalizeWorktreeRuntimeConfig(a.runtimeConfig).runtimeConfig), now)
    else a
  }

  /** Open work that only an agent is assigned to. */
  predicate Affected(i: Issue) {
    i.assigneeAgentId.Some? && i.assigneeUserId.None? && (i.status.Todo? || i.status.InProgress? || i.status.InReview?)
  }

  function QuarantinedIssue(i: Issue, now: int): Issue {
    if Affected(i) then
      i.(status := if i.status.InProgress? then Blocked else i.status, assigneeAgentId := None, checkoutRunId := None,
         executionRunId := None, executionAgentNameKey := None, executionLockedAt := None, executionWorkspaceId := None,
         updatedAt := now)
    else i
  }

  function Note(issueId: string, i: Issue): Comment {
    Comment(i.companyId, issueId, QuarantineNote)
  }

  type Agents = map<string, Agent>
  type Issues = map<string, Issue>

  function QuarantinedAgents(agents: Agents, now: int): Agents {
    map id | id in agents :: QuarantinedAgent(agents[id], now)
  }

  function QuarantinedIssues(issues: Issues, now: int): Issues {
    map id | id in issues :: QuarantinedIssue(issues[id], now)
  }

  // ---------- which rows each counter counts ----------

  function Beating(agents: Agents): set<string> {
    set id | id in agents && NormalizeWorktreeRuntimeConfig(agents[id].runtimeConfig).disabledTimerHeartbeat
  }

  function RunningAgents(agents: Agents): set<string> {
    set id | id in agents && agents[id].status.Running?
  }

  function AffectedWith(issues: Issues, status: IssueStatus): set<string> {
    set id | id in issues && Affected(issues[id]) && issues[id].status == status
  }

  function Counted(agents: Agents, issues: Issues): Summary {
    Summary(|Beating(agents)|, |RunningAgents(agents)|, |AffectedWith(issues, InProgress)|,
            |AffectedWith(issues, Todo)|, |AffectedWith(issues, InReview)|)
  }

  /** The comments added: one for each of these issues and no other. */
  ghost predicate NotesFor(notes: seq<Comment>, issues: Issues, ids: set<string>) {
    && |notes| == |ids|
    && (forall id :: id in ids ==> id in issues && Note(id, issues[id]) in notes)
    && forall n :: n in notes ==> n.issueId in ids && n.issueId in issues && n == Note(n.issueId, issues[n.issueId])
  }

  lemma CountedAgents(agents: Agents, id: string)
    requires id in agents
    ensures id in Beating(agents) <==> NormalizeWorktreeRuntimeConfig(agents[id].runtimeConfig).disabledTimerHeartbeat
    ensures id in RunningAgents(agents) <==> agents[id].status.Running?
  {
  }

  lemma CountedIssues(issues: Issues, status: IssueStatus, id: string)
    requires id in issues
    ensures id in AffectedWith(issues, status) <==> Affected(issues[id]) && issues[id].status == status
  {
  }

  lemma AffectedParts(issues: Issues, affected: set<string>, now: int)
    requires affected == set id | id in issues && Affected(issues[id])
    ensures AffectedWith(issues, InProgress) <= affected
    ensures AffectedWith(issues, Todo) <= affected && AffectedWith(issues, InReview) <= affected
    ensures forall id :: id in affected <==> id in issues && Affected(issues[id])
    ensures Midway(issues, QuarantinedIssues(issues, now), issues, affected)
  {
  }

  lemma CountedAreRows(agents: Agents)
    ensures Beating(agents) <= agents.Keys && RunningAgents(agents) <= agents.Keys
  {
  }

  lemma NoNotes(issues: Issues)
    ensures NotesFor([], issues, {})
  {
  }

  lemma NoteAdded(notes: seq<Comment>, issues: Issues, ids: set<string>, id: string)
    requires NotesFor(notes, issues, ids) && id !in ids && id in issues
    ensures NotesFor(notes + [Note(id, issues[id])], issues, ids + {id})
  {
    hide Affected;
    var more := notes + [Note(id, issues[id])];
    assert forall n :: n in more <==> n in notes || n == Note(id, issues[id]);
  }

  // ---------- passes over a table, one row at a time ----------

  /** The rows of ids that a pass over `all` has behind it when `todo` is left. */
  function Behind(ids: set<string>, all: set<string>, todo: set<string>): set<string> {
    ids * (all - todo)
  }

  lemma BehindStart(ids: set<string>, all: set<string>)
    ensures Behind(ids, all, all) == {}
  {
  }

  lemma BehindStep(ids: set<string>, all: set<string>, todo: set<string>, id: string)
    requires id in todo && todo <= all
    ensures id !in Behind(ids, all, todo)
    ensures Behind(ids, all, todo - {id}) == Behind(ids, all, todo) + if id in ids then {id} else {}
    ensures |Behind(ids, all, todo - {id})| == |Behind(ids, all, todo)| + if id in ids then 1 else 0
  {
    assert all - (todo - {id}) == all - todo + {id};
    if id in ids {
      assert ids * (all - (todo - {id})) == ids * (all - todo) + {id};
    } else {
      assert ids * (all - (todo - {id})) == ids * (all - todo);
    }
  }

  lemma BehindEnd(ids: set<string>, all: set<string>)
    requires ids <= all
    ensures Behind(ids, all, {}) == ids
  {
  }

  /** Midway through a pass: the rows left are as they were, the others as they are to be. */
  ghost predicate Midway<Row>(rows: map<string, Row>, target: map<string, Row>, table: map<string, Row>,
                              todo: set<string>) {
    && rows.Keys == target.Keys == table.Keys && todo <= rows.Keys
    && forall id :: id in rows ==> table[id] == if id in todo then rows[id] else target[id]
  }

  lemma MidwayStart<Row>(rows: map<string, Row>, target: map<string, Row>)
    requires rows.Keys == target.Keys
    ensures Midway(rows, target, rows, rows.Keys)
  {
  }

  lemma MidwayStep<Row>(rows: map<string, Row>, target: map<string, Row>, table: map<string, Row>, todo: set<string>,
                        id: string, table': map<string, Row>)
    requires Midway(rows, target, table, todo) && id in todo
    requires table' == table[id := target[id]] || (table' == table && target[id] == rows[id])
    ensures Midway(rows, target, table', todo - {id})
  {
  }

  lemma MidwayEnd<Row>(rows: map<string, Row>, target: map<string, Row>, table: map<string, Row>)
    requires Midway(rows, target, table, {})
    ensures table == target
  {
  }

  // ---------- the pass over the agents ----------

  /** Midway through the pass over the agents: the rows and the counters are those of the agents behind it. */
  ghost predicate Seen(rows: Agents, now: int, todo: set<string>, table: Agents, heartbeats: nat, running: nat) {
    && Midway(rows, QuarantinedAgents(rows, now), table, todo)
    && heartbeats == |Behind(Beating(rows), rows.Keys, todo)|
    && running == |Behind(RunningAgents(rows), rows.Keys, todo)|
  }

  lemma SeenStart(rows: Agents, now: int)
    ensures Seen(rows, now, rows.Keys, rows, 0, 0)
  {
    hide QuarantinedAgent, Beating, RunningAgents;
    MidwayStart(rows, QuarantinedAgents(rows, now));
    BehindStart(Beating(rows), rows.Keys);
    BehindStart(RunningAgents(rows), rows.Keys);
  }

  lemma SeenStep(rows: Agents, now: int, todo: set<string>, table: Agents, heartbeats: nat, running: nat, id: string)
    requires id in todo && Seen(rows, now, todo, table, heartbeats, running)
    ensures id in rows && table.Keys == rows.Keys
    ensures var n := NormalizeWorktreeRuntimeConfig(rows[id].runtimeConfig);
            Seen(rows, now, todo - {id},
                 if NeedsUpdate(rows[id]) then table[id := QuarantinedAgent(rows[id], now)] else table,
                 if n.disabledTimerHeartbeat then heartbeats + 1 else heartbeats,
                 if rows[id].status.Running? then running + 1 else running)
  {
    hide Behind, Beating, RunningAgents, NormalizeWorktreeRuntimeConfig;
    assert id in rows && table.Keys == rows.Keys && todo <= rows.Keys;
    CountedAgents(rows, id);
    BehindStep(Beating(rows), rows.Keys, todo, id);
    BehindStep(RunningAgents(rows), rows.Keys, todo, id);
    var next := if NeedsUpdate(rows[id]) then table[id := QuarantinedAgent(rows[id], now)] else table;
    assert QuarantinedAgents(rows, now)[id] == QuarantinedAgent(rows[id], now);
    MidwayStep(rows, QuarantinedAgents(rows, now), table, todo, id, next);
    hide Midway, QuarantinedAgents, QuarantinedAgent, NeedsUpdate;
  }

  lemma SeenEnd(rows: Agents, now: int, table: Agents, heartbeats: nat, running: nat)
    requires Seen(rows, now, {}, table, heartbeats, running)
    ensures table == QuarantinedAgents(rows, now)
    ensures heartbeats == |Beating(rows)| && running == |RunningAgents(rows)|
  {
    CountedAreRows(rows);
    hide Behind, Beating, RunningAgents, QuarantinedAgents, Midway;
    MidwayEnd(rows, QuarantinedAgents(rows, now), table);
    BehindEnd(Beating(rows), rows.Keys);
    BehindEnd(RunningAgents(rows), rows.Keys);
  }

  // ---------- the pass over the affected issues ----------

  /** Midway through the pass over the affected issues: the rows, the notes and the counters are those of the
      issues behind it. */
  ghost predicate Passed(rows: Issues, affected: set<string>, now: int, todo: set<string>, table: Issues,
                         notes: seq<Comment>, inProgress: nat, todoIssues: nat, review: nat) {
    && affected == (set id | id in rows && Affected(rows[id]))
    && todo <= affected
    && Midway(rows, QuarantinedIssues(rows, now), table, todo)
    && inProgress == |Behind(AffectedWith(rows, InProgress), affected, todo)|
    && todoIssues == |Behind(AffectedWith(rows, Todo), affected, todo)|
    && review == |Behind(AffectedWith(rows, InReview), affected, todo)|
    && NotesFor(notes, rows, Behind(AffectedWith(rows, InProgress), affected, todo))
  }

  lemma PassedStart(rows: Issues, affected: set<string>, now: int)
    requires affected == set id | id in rows && Affected(rows[id])
    ensures Passed(rows, affected, now, affected, rows, [], 0, 0, 0)
  {
    AffectedParts(rows, affected, now);
    BehindStart(AffectedWith(rows, InProgress), affected);
    BehindStart(AffectedWith(rows, Todo), affected);
    BehindStart(AffectedWith(rows, InReview), affected);
    NoNotes(rows);
    hide Behind, Midway, NotesFor, AffectedWith;
  }

  lemma PassedStep(rows: Issues, affected: set<string>, now: int, todo: set<string>, table: Issues,
                   notes: seq<Comment>, inProgress: nat, todoIssues: nat, review: nat, id: string)
    requires id in todo && Passed(rows, affected, now, todo, table, notes, inProgress, todoIssues, review)
    ensures id in rows && Affected(rows[id])
    ensures var status := rows[id].status;
            Passed(rows, affected, now, todo - {id}, table[id := QuarantinedIssue(rows[id], now)],
                   if status.InProgress? then notes + [Note(id, rows[id])] else notes,
                   if status.InProgress? then inProgress + 1 else inProgress,
                   if status.Todo? then todoIssues + 1 else todoIssues,
                   if status.InReview? then review + 1 else review)
  {
    hide Behind, NotesFor, AffectedWith, Midway, QuarantinedIssue, Note;
    var active := AffectedWith(rows, InProgress);
    CountedIssues(rows, InProgress, id);
    CountedIssues(rows, Todo, id);
    CountedIssues(rows, InReview, id);
    BehindStep(active, affected, todo, id);
    BehindStep(AffectedWith(rows, Todo), affected, todo, id);
    BehindStep(AffectedWith(rows, InReview), affected, todo, id);
    MidwayStep(rows, QuarantinedIssues(rows, now), table, todo, id, table[id := QuarantinedIssue(rows[id], now)]);
    hide QuarantinedIssues, Affected;
    if rows[id].status.InProgress? {
      NoteAdded(notes, rows, Behind(active, affected, todo), id);
    } else {
      assert Behind(active, affected, todo - {id}) == Behind(active, affected, todo);
    }
  }

  lemma PassedEnd(rows: Issues, affected: set<string>, now: int, table: Issues,
                  notes: seq<Comment>, inProgress: nat, todoIssues: nat, review: nat)
    requires Passed(rows, affected, now, {}, table, notes, inProgress, todoIssues, review)
    ensures table == QuarantinedIssues(rows, now)
    ensures inProgress == |AffectedWith(rows, InProgress)|
    ensures todoIssues == |AffectedWith(rows, Todo)| && review == |AffectedWith(rows, InReview)|
    ensures NotesFor(notes, rows, AffectedWith(rows, InProgress))
  {
    AffectedParts(rows, affected, now);
    hide Behind, NotesFor, AffectedWith, Midway, QuarantinedIssues;
    MidwayEnd(rows, QuarantinedIssues(rows, now), table);
    BehindEnd(AffectedWith(rows, InProgress), affected);
    BehindEnd(AffectedWith(rows, Todo), affected);
    BehindEnd(AffectedWith(rows, InReview), affected);
  }

  class WorktreeDb {
    var agents: Agents
    var issues: Issues
    var comments: seq<Comment>

    constructor (agents: Agents, issues: Issues, comments: seq<Comment>)
      ensures this.agents == agents && this.issues == issues && this.comments == comments
    {
      this.agents, this.issues, this.comments := agents, issues, comments;
    }

    /** The pass over the agents, in whatever order the database returns them. */
    method QuarantineAgents(now: int) returns (disabledTimerHeartbeats: nat, resetRunningAgents: nat)
      modifies this`agents
      ensures agents == QuarantinedAgents(old(agents), now)
      ensures disabledTimerHeartbeats == |Beating(old(agents))| && resetRunningAgents == |RunningAgents(old(agents))|
    {
      hide NormalizeWorktreeRuntimeConfig, Beating, RunningAgents, Seen, QuarantinedAgents;
      var rows := agents;
      disabledTimerHeartbeats, resetRunningAgents := 0, 0;
      var todo := rows.Keys;
      SeenStart(rows, now);
      while todo != {}
        invariant todo <= rows.Keys && agents.Keys == rows.Keys
        invariant Seen(rows, now, todo, agents, disabledTimerHeartbeats, resetRunningAgents)
      {
        var id :| id in todo;
        var agent := rows[id];
        var normalized := NormalizeWorktreeRuntimeConfig(agent.runtimeConfig);
        var nextStatus := if agent.status.Running? then IdleAgent else agent.status;
        SeenStep(rows, now, todo, agents, disabledTimerHeartbeats, resetRunningAgents, id);
        if normalized.disabledTimerHeartbeat {
          disabledTimerHeartbeats := disabledTimerHeartbeats + 1;
        }
        if agent.status.Running? {
          resetRunningAgents := resetRunningAgents + 1;
        }
        if normalized.changed || nextStatus != agent.status {
          agents := agents[id := Agent(nextStatus, Record(normalized.runtimeConfig), now)];
        }
        todo := todo - {id};
      }
      SeenEnd(rows, now, agents, disabledTimerHeartbeats, resetRunningAgents);
    }

    /** The pass over the affected issues. */
    method QuarantineIssues(now: int) returns (inProgress: nat, todoIssues: nat, review: nat)
      modifies this`issues, this`comments
      ensures issues == QuarantinedIssues(old(issues), now)
      ensures inProgress == |AffectedWith(old(issues), InProgress)|
      ensures todoIssues == |AffectedWith(old(issues), Todo)| && review == |AffectedWith(old(issues), InReview)|
      ensures old(comments) <= comments
      ensures NotesFor(comments[|old(comments)|..], old(issues), AffectedWith(old(issues), InProgress))
    {
      hide AffectedWith, NotesFor, QuarantinedIssues, Passed;
      var rows := issues;
      var affected := set id | id in rows && Affected(rows[id]);
      ghost var notes: seq<Comment> := [];
      inProgress, todoIssues, review := 0, 0, 0;
      var todo := affected;
      PassedStart(rows, affected, now);
      while todo != {}
        invariant todo <= affected
        invariant Passed(rows, affected, now, todo, issues, notes, inProgress, todoIssues, review)
        invariant comments == old(comments) + notes
      {
        var id :| id in todo;
        var issue := rows[id];
        PassedStep(rows, affected, now, todo, issues, notes, inProgress, todoIssues, review, id);
        issues := issues[id := issue.(status := if issue.status.InProgress? then Blocked else issue.status,
          assigneeAgentId := None, checkoutRunId := None, executionRunId := None, executionAgentNameKey := None,
          executionLockedAt := None, executionWorkspaceId := None, updatedAt := now)];
        if issue.status.InProgress? {
          inProgress := inProgress + 1;
          comments := comments + [Comment(issue.companyId, id, QuarantineNote)];
          notes := notes + [Comment(issue.companyId, id, QuarantineNote)];
        } else if issue.status.Todo? {
          todoIssues := todoIssues + 1;
        } else if issue.status.InReview? {
          review := review + 1;
        }
        todo := todo - {id};
      }
      PassedEnd(rows, affected, now, issues, notes, inProgress, todoIssues, review);
      assert comments[|old(comments)|..] == notes;
    }

    /** `quarantineSeededWorktreeExecutionState`: every counter is exact. */
    method Quarantine(now: int) returns (summary: Summary)
      modifies this
      ensures agents == QuarantinedAgents(old(agents), now) && issues == QuarantinedIssues(old(issues), now)
      ensures summary == Counted(old(agents), old(issues))
      ensures old(comments) <= comments
      ensures NotesFor(comments[|old(comments)|..], old(issues), AffectedWith(old(issues), InProgress))
    {
      var heartbeats, running := QuarantineAgents(now);
      var inProgress, todoIssues, review := QuarantineIssues(now);
      summary := Summary(heartbeats, running, inProgress, todoIssues, review);
    }
  }

  // ---------- what the quarantine is for ----------

  /** Nothing in the database can start work by itself. */
  ghost predicate Harmless(agents: Agents, issues: Issues) {
    && (forall id :: id in agents ==> !agents[id].status.Running? && HeartbeatOff(Fields(agents[id].runtimeConfig)))
    && forall id :: id in issues ==> !Affected(issues[id])
  }

  /** The quarantine leaves the database harmless, whatever was copied into it. */
  lemma QuarantineMakesHarmless(agents: Agents, issues: Issues, now: int)
    ensures Harmless(QuarantinedAgents(agents, now), QuarantinedIssues(issues, now))
  {
    forall id | id in agents
      ensures !QuarantinedAgent(agents[id], now).status.Running?
              && HeartbeatOff(Fields(QuarantinedAgent(agents[id], now).runtimeConfig))
    {
      NormalizedIsOff(agents[id].runtimeConfig);
    }
  }

  /** A harmless database is exactly one that a quarantine leaves alone, with all counters at zero; so a second
      run does nothing. */
  lemma HarmlessIsFixed(agents: Agents, issues: Issues, now: int)
    ensures Harmless(agents, issues) ==>
              && QuarantinedAgents(agents, now) == agents && QuarantinedIssues(issues, now) == issues
              && Counted(agents, issues) == Summary(0, 0, 0, 0, 0)
    ensures QuarantinedAgents(agents, now) == agents && QuarantinedIssues(issues, now) == issues ==>
              Harmless(agents, issues)
  {
    if Harmless(agents, issues) {
      forall id | id in agents
        ensures !NeedsUpdate(agents[id])
        ensures !NormalizeWorktreeRuntimeConfig(agents[id].runtimeConfig).disabledTimerHeartbeat
      {
        NormalizedIsOff(agents[id].runtimeConfig);
      }
      assert Beating(agents) == {} && RunningAgents(agents) == {};
      assert AffectedWith(issues, InProgress) == {} && AffectedWith(issues, Todo) == {};
      assert AffectedWith(issues, InReview) == {};
    }
    if QuarantinedAgents(agents, now) == agents && QuarantinedIssues(issues, now) == issues {
      QuarantineMakesHarmless(agents, issues, now);
    }
  }

  /** Work a person is assigned to, or that is not open, is untouched; former in-progress work is blocked. */
  lemma QuarantineTouchesOnlyAgentWork(issues: Issues, now: int, id: string)
    requires id in issues
    ensures var after := QuarantinedIssues(issues, now);
            && id in after
            && (after[id] != issues[id] <==> Affected(issues[id]))
            && after[id].companyId == issues[id].companyId && after[id].rest == issues[id].rest
            && after[id].assigneeUserId == issues[id].assigneeUserId
            && (after[id].status != issues[id].status <==> id in AffectedWith(issues, InProgress))
            && (id in AffectedWith(issues, InProgress) ==> after[id].status == Blocked)
  {
  }
}
