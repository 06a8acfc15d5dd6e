/** cli/src/commands/worktree.ts, the issue part of `applyMergePlan`: a block of numbers is reserved on the company
    row, and each new issue takes the next number of the block. */
module MergeIssues {
  import opened Text
  import opened MergeSteps

  datatype Company = Company(issuePrefix: string, issueCounter: nat)

  /** An issue row; `copied` holds the columns taken over from the source unchanged. */
  datatype Issue = Issue(
    companyId: string, projectId: Option<string>, projectWorkspaceId: Option<string>, goalId: Option<string>,
    parentId: Option<string>, status: string, assigneeAgentId: Option<string>, assigneeUserId: Option<string>,
    checkoutRunId: Option<string>, executionRunId: Option<string>, executionAgentNameKey: Option<string>,
    executionLockedAt: Option<int>, createdByAgentId: Option<string>, issueNumber: Option<nat>,
    identifier: Option<string>, assigneeAdapterOverrides: Option<string>, executionWorkspaceId: Option<string>,
    executionWorkspacePreference: Option<string>, executionWorkspaceSettings: Option<string>,
    copied: seq<Option<string>>)

  datatype SourceIssue = SourceIssue(
    id: string, parentId: Option<string>, assigneeUserId: Option<string>, assigneeAdapterOverrides: Option<string>,
    copied: seq<Option<string>>)

  datatype IssuePlan =
    | InsertIssue(source: SourceIssue, targetProjectId: Option<string>, targetProjectWorkspaceId: Option<string>,
                  targetGoalId: Option<string>, targetStatus: string, targetAssigneeAgentId: Option<string>,
                  targetCreatedByAgentId: Option<string>)
    | LeaveIssue(source: SourceIssue)

  type Companies = map<string, Company>
  type Issues = map<string, Issue>

  datatype IssueState = IssueState(issues: Issues, nextIssueNumber: nat, identifiers: map<string, string>,
                                   insertedIssues: nat)

  datatype IssueResult = IssueResult(companies: Companies, issues: Issues, identifiers: map<string, string>,
                                     insertedIssues: nat)

  function Identifier(prefix: string, n: nat): string {
    prefix + "-" + Decimal(n)
  }

  function IsNew(existing: set<string>): IssuePlan -> bool {
    (plan: IssuePlan) => plan.InsertIssue? && plan.source.id !in existing
  }

  /** What is imported below an issue needs that issue in this company. */
  predicate HasParent(issues: Issues, companyId: string, issueId: string) {
    issueId in issues && issues[issueId].companyId == companyId
  }

  /** The candidates whose id the target does not have yet. */
  function NewIssues(plans: seq<IssuePlan>, existing: set<string>): (inserts: seq<IssuePlan>)
    ensures forall p :: p in inserts <==> p in plans && p.InsertIssue? && p.source.id !in existing
  {
    Keep(IsNew(existing), plans)
  }

  /** The row an import inserts: fresh number and identifier, nothing of the source's running work. */
  function ImportedIssue(companyId: string, prefix: string, plan: IssuePlan, n: nat): Issue
    requires plan.InsertIssue?
  {
    Issue(companyId, plan.targetProjectId, plan.targetProjectWorkspaceId, plan.targetGoalId, plan.source.parentId,
          plan.targetStatus, plan.targetAssigneeAgentId, plan.source.assigneeUserId, None, None, None, None,
          plan.targetCreatedByAgentId, Some(n), Some(Identifier(prefix, n)),
          if plan.targetAssigneeAgentId.Some? then plan.source.assigneeAdapterOverrides else None,
          None, None, None, plan.source.copied)
  }

  /** Primary key, the unique identifier column, and the reference to the parent issue. */
  predicate Admits(issues: Issues, id: string, row: Issue) {
    && id !in issues
    && (forall other :: other in issues ==> issues[other].identifier != row.identifier)
    && (row.parentId.Some? ==> row.parentId.value == id || row.parentId.value in issues)
  }

  function WithIssue(companyId: string, prefix: string, s: IssueState, plan: IssuePlan): IssueState
    requires plan.InsertIssue?
  {
    IssueState(s.issues[plan.source.id := ImportedIssue(companyId, prefix, plan, s.nextIssueNumber)],
               s.nextIssueNumber + 1,
               s.identifiers[plan.source.id := Identifier(prefix, s.nextIssueNumber)], s.insertedIssues + 1)
  }

  function InsertStep(companyId: string, prefix: string, s: IssueState, plan: IssuePlan): Outcome<IssueState> {
    if plan.LeaveIssue? then Done(s)
    else
      var row := ImportedIssue(companyId, prefix, plan, s.nextIssueNumber);
      if Admits(s.issues, plan.source.id, row) then
        Done(WithIssue(companyId, prefix, s, plan))
      else Aborted(s)
  }

  function Inserting(companyId: string, prefix: string): (IssueState, IssuePlan) -> Outcome<IssueState> {
    (s, plan) => InsertStep(companyId, prefix, s, plan)
  }

  function Reserve(companies: Companies, companyId: string, k: nat): Companies
    requires companyId in companies
  {
    companies[companyId := companies[companyId].(issueCounter := companies[companyId].issueCounter + k)]
  }

  /** The issue part of the transaction. A missing company row is a thrown error. */
  function ImportIssues(companies: Companies, issues: Issues, companyId: string, prefix: string,
                        plans: seq<IssuePlan>): Outcome<IssueResult> {
    var inserts := NewIssues(plans, issues.Keys);
    if |inserts| == 0 then Done(IssueResult(companies, issues, map[], 0))
    else if companyId !in companies then Aborted(IssueResult(companies, issues, map[], 0))
    else
      var reserved := Reserve(companies, companyId, |inserts|);
      var first := reserved[companyId].issueCounter - |inserts| + 1;
      match Fold(Inserting(companyId, prefix), IssueState(issues, first, map[], 0), inserts)
      case Done(s) => Done(IssueResult(reserved, s.issues, s.identifiers, s.insertedIssues))
      case Aborted(s) => Aborted(IssueResult(reserved, s.issues, s.identifiers, s.insertedIssues))
  }

  // ---------- what the loop has done after some of its plans ----------

  function Ids(inserts: seq<IssuePlan>): set<string> {
    set p | p in inserts :: p.source.id
  }

  /** Exactly these plans have come in; no row that was there has changed. */
  ghost predicate CameIn(before: Issues, first: nat, inserts: seq<IssuePlan>, s: IssueState) {
    && s.nextIssueNumber == first + |inserts| && s.insertedIssues == |inserts|
    && s.identifiers.Keys == Ids(inserts)
    && s.issues.Keys == before.Keys + Ids(inserts)
    && before.Keys !! Ids(inserts)
    && forall id :: id in before ==> s.issues[id] == before[id]
  }

  /** The plan numbered j has come in under the j-th number of the block. */
  ghost predicate CameInAs(companyId: string, prefix: string, first: nat, inserts: seq<IssuePlan>, s: IssueState,
                           j: nat)
    requires j < |inserts|
  {
    var id := inserts[j].source.id;
    && inserts[j].InsertIssue? && id in s.identifiers && id in s.issues
    && s.identifiers[id] == Identifier(prefix, first + j)
    && s.issues[id] == ImportedIssue(companyId, prefix, inserts[j], first + j)
  }

  ghost predicate Numbered(companyId: string, prefix: string, first: nat, inserts: seq<IssuePlan>, s: IssueState) {
    forall j :: 0 <= j < |inserts| ==> CameInAs(companyId, prefix, first, inserts, s, j)
  }

  /** What the constraints of the table ask of the plan numbered j. */
  ghost predicate Insertable(prefix: string, before: Issues, first: nat, inserts: seq<IssuePlan>, j: nat)
    requires j < |inserts|
  {
    && inserts[j].source.id !in before
    && inserts[j].source.id !in Ids(inserts[..j])
    && (forall other :: other in before ==> before[other].identifier != Some(Identifier(prefix, first + j)))
    && var parent := inserts[j].source.parentId;
       parent.Some? ==> parent.value in before || parent.value in Ids(inserts[..j + 1])
  }

  ghost predicate EachInsertable(prefix: string, before: Issues, first: nat, inserts: seq<IssuePlan>) {
    forall j :: 0 <= j < |inserts| ==> Insertable(prefix, before, first, inserts, j)
  }

  lemma IdsNext(inserts: seq<IssuePlan>, j: nat)
    requires j < |inserts|
    ensures Ids(inserts[..j + 1]) == Ids(inserts[..j]) + {inserts[j].source.id}
  {
    assert inserts[..j + 1] == inserts[..j] + [inserts[j]];
  }

  lemma IdOf(inserts: seq<IssuePlan>, id: string) returns (j: nat)
    requires id in Ids(inserts)
    ensures j < |inserts| && inserts[j].source.id == id
  {
    j :| j < |inserts| && inserts[j].source.id == id;
  }

  lemma SameIdentifier(prefix: string, m: nat, n: nat)
    ensures Identifier(prefix, m) == Identifier(prefix, n) ==> m == n
  {
    if Identifier(prefix, m) == Identifier(prefix, n) {
      assert Identifier(prefix, m)[|prefix| + 1..] == Decimal(m);
      assert Identifier(prefix, n)[|prefix| + 1..] == Decimal(n);
      DecimalInjective(m, n);
    }
  }

  /** Numbers still to be given out are not on any row that has come in. */
  lemma FreshAmongImports(companyId: string, prefix: string, first: nat, inserts: seq<IssuePlan>, s: IssueState,
                          n: nat, id: string)
    requires Numbered(companyId, prefix, first, inserts, s) && first + |inserts| <= n && id in Ids(inserts)
    ensures id in s.issues && s.issues[id].identifier != Some(Identifier(prefix, n))
  {
    var j := IdOf(inserts, id);
    assert CameInAs(companyId, prefix, first, inserts, s, j);
    hide Identifier;
    SameIdentifier(prefix, first + j, n);
  }

  /** With j plans in, the next is admitted exactly when the constraints allow it. */
  lemma AdmitsExactly(companyId: string, prefix: string, before: Issues, first: nat, inserts: seq<IssuePlan>,
                      s: IssueState, j: nat)
    requires j < |inserts| && inserts[j].InsertIssue?
    requires CameIn(before, first, inserts[..j], s) && Numbered(companyId, prefix, first, inserts[..j], s)
    ensures Admits(s.issues, inserts[j].source.id, ImportedIssue(companyId, prefix, inserts[j], first + j))
            <==> Insertable(prefix, before, first, inserts, j)
  {
    hide Identifier, Numbered, Ids;
    forall id | id in Ids(inserts[..j])
      ensures id in s.issues && s.issues[id].identifier != Some(Identifier(prefix, first + j))
    {
      FreshAmongImports(companyId, prefix, first, inserts[..j], s, first + j, id);
    }
    IdsNext(inserts, j);
  }

  lemma OneMoreCame(companyId: string, prefix: string, before: Issues, first: nat, inserts: seq<IssuePlan>,
                    s: IssueState, j: nat)
    requires j < |inserts| && inserts[j].InsertIssue? && CameIn(before, first, inserts[..j], s)
    requires Insertable(prefix, before, first, inserts, j)
    ensures CameIn(before, first, inserts[..j + 1], WithIssue(companyId, prefix, s, inserts[j]))
  {
    hide Identifier, ImportedIssue, Ids;
    IdsNext(inserts, j);
  }

  lemma OneMoreNumbered(companyId: string, prefix: string, before: Issues, first: nat, inserts: seq<IssuePlan>,
                        s: IssueState, j: nat)
    requires j < |inserts| && inserts[j].InsertIssue? && CameIn(before, first, inserts[..j], s)
    requires Numbered(companyId, prefix, first, inserts[..j], s)
    requires Insertable(prefix, before, first, inserts, j)
    ensures Numbered(companyId, prefix, first, inserts[..j + 1], WithIssue(companyId, prefix, s, inserts[j]))
  {
    hide Identifier, ImportedIssue;
    var t, now := WithIssue(companyId, prefix, s, inserts[j]), inserts[..j + 1];
    forall i | 0 <= i < |now|
      ensures CameInAs(companyId, prefix, first, now, t, i)
    {
      if i < j {
        assert CameInAs(companyId, prefix, first, inserts[..j], s, i);
        assert inserts[i] in inserts[..j];
      }
    }
  }

  /** The loop goes exactly as far as every plan so far is insertable, and then exactly those plans have come in. */
  lemma {:induction false} LoopOutcome(companyId: string, prefix: string, before: Issues, first: nat,
                                       inserts: seq<IssuePlan>, j: nat)
    requires j <= |inserts| && forall p :: p in inserts ==> p.InsertIssue?
    ensures var outcome := Fold(Inserting(companyId, prefix), IssueState(before, first, map[], 0), inserts[..j]);
            && (outcome.Done? <==> forall i :: 0 <= i < j ==> Insertable(prefix, before, first, inserts, i))
            && (outcome.Done? ==> CameIn(before, first, inserts[..j], outcome.state)
                                  && Numbered(companyId, prefix, first, inserts[..j], outcome.state))
  {
    hide Numbered, Insertable, ImportedIssue, Admits, Identifier;
    var start := IssueState(before, first, map[], 0);
    if j == 0 {
      NothingCame(companyId, prefix, before, first);
      assert inserts[..0] == [];
    } else {
      LoopOutcome(companyId, prefix, before, first, inserts, j - 1);
      FoldNext(Inserting(companyId, prefix), start, inserts, j - 1);
      var soFar := Fold(Inserting(companyId, prefix), start, inserts[..j - 1]);
      if soFar.Done? {
        AdmitsExactly(companyId, prefix, before, first, inserts, soFar.state, j - 1);
        if Insertable(prefix, before, first, inserts, j - 1) {
          OneMoreCame(companyId, prefix, before, first, inserts, soFar.state, j - 1);
          OneMoreNumbered(companyId, prefix, before, first, inserts, soFar.state, j - 1);
        }
      }
    }
  }

  lemma NothingCame(companyId: string, prefix: string, before: Issues, first: nat)
    ensures CameIn(before, first, [], IssueState(before, first, map[], 0))
    ensures Numbered(companyId, prefix, first, [], IssueState(before, first, map[], 0))
  {
  }

  // ---------- when the import goes through, and what it then leaves ----------

  /** The import goes through exactly when there is nothing new, or the company row is there and every new issue
      meets the constraints: own id, fresh identifier, parent there or imported no later. */
  lemma ImportGoesThrough(companies: Companies, issues: Issues, companyId: string, prefix: string,
                          plans: seq<IssuePlan>)
    ensures var inserts := NewIssues(plans, issues.Keys);
            ImportIssues(companies, issues, companyId, prefix, plans).Done? <==>
              |inserts| == 0 ||
              (companyId in companies
               && EachInsertable(prefix, issues, companies[companyId].issueCounter + 1, inserts))
  {
    hide Insertable, Admits, ImportedIssue, CameIn, Numbered, Identifier, Inserting;
    var inserts := NewIssues(plans, issues.Keys);
    if companyId in companies {
      var first := companies[companyId].issueCounter + 1;
      LoopOutcome(companyId, prefix, issues, first, inserts, |inserts|);
      FoldEnds(Inserting(companyId, prefix), IssueState(issues, first, map[], 0), inserts);
    }
  }

  lemma ImportedState(companies: Companies, issues: Issues, companyId: string, prefix: string, plans: seq<IssuePlan>)
    returns (s: IssueState)
    requires ImportIssues(companies, issues, companyId, prefix, plans).Done? && |NewIssues(plans, issues.Keys)| > 0
    ensures var inserts := NewIssues(plans, issues.Keys);
            && companyId in companies
            && ImportIssues(companies, issues, companyId, prefix, plans).state
               == IssueResult(Reserve(companies, companyId, |inserts|), s.issues, s.identifiers, s.insertedIssues)
            && CameIn(issues, companies[companyId].issueCounter + 1, inserts, s)
            && Numbered(companyId, prefix, companies[companyId].issueCounter + 1, inserts, s)
  {
    hide Insertable, Admits, Identifier, CameIn, Numbered, ImportedIssue;
    var inserts := NewIssues(plans, issues.Keys);
    var first := companies[companyId].issueCounter + 1;
    LoopOutcome(companyId, prefix, issues, first, inserts, |inserts|);
    FoldEnds(Inserting(companyId, prefix), IssueState(issues, first, map[], 0), inserts);
    assert inserts[..|inserts|] == inserts;
    s := Fold(Inserting(companyId, prefix), IssueState(issues, first, map[], 0), inserts).state;
  }

  /** The plan came in numbered from the old counter on, the counter moved to the last number given, and every other
      row of both tables stayed as it was. */
  ghost predicate ImportedInOrder(companies: Companies, issues: Issues, companyId: string, prefix: string,
                                  inserts: seq<IssuePlan>, r: IssueResult) {
    && r.insertedIssues == |inserts|
    && r.issues.Keys == issues.Keys + Ids(inserts) && r.identifiers.Keys == Ids(inserts)
    && (forall id :: id in issues ==> id !in Ids(inserts) && r.issues[id] == issues[id])
    && (|inserts| == 0 ==> r.companies == companies)
    && (|inserts| > 0 ==> companyId in companies && r.companies == Reserve(companies, companyId, |inserts|))
    && forall j :: 0 <= j < |inserts| ==>
         NumberedAs(companyId, prefix, inserts[j], companies[companyId].issueCounter + 1 + j, r)
  }

  ghost predicate NumberedAs(companyId: string, prefix: string, plan: IssuePlan, n: nat, r: IssueResult) {
    && plan.InsertIssue? && plan.source.id in r.issues && plan.source.id in r.identifiers
    && r.issues[plan.source.id] == ImportedIssue(companyId, prefix, plan, n)
    && r.identifiers[plan.source.id] == Identifier(prefix, n)
  }

  /** New issues get exactly the consecutive numbers after the old counter, in plan order. */
  lemma ImportNumbersInOrder(companies: Companies, issues: Issues, companyId: string, prefix: string,
                             plans: seq<IssuePlan>)
    requires ImportIssues(companies, issues, companyId, prefix, plans).Done?
    ensures ImportedInOrder(companies, issues, companyId, prefix, NewIssues(plans, issues.Keys),
                            ImportIssues(companies, issues, companyId, prefix, plans).state)
  {
    hide Identifier, ImportedIssue;
    var inserts := NewIssues(plans, issues.Keys);
    if |inserts| > 0 {
      var s := ImportedState(companies, issues, companyId, prefix, plans);
      var r := ImportIssues(companies, issues, companyId, prefix, plans).state;
      hide ImportIssues, NewIssues, Ids, Reserve;
      forall j | 0 <= j < |inserts|
        ensures NumberedAs(companyId, prefix, inserts[j], companies[companyId].issueCounter + 1 + j, r)
      {
        assert CameInAs(companyId, prefix, companies[companyId].issueCounter + 1, inserts, s, j);
      }
    }
  }

  /** Every planned issue is in the target afterwards, so importing the plan again inserts nothing and leaves the
      counter alone. */
  lemma ImportAgain(companies: Companies, issues: Issues, companyId: string, prefix: string, plans: seq<IssuePlan>)
    requires ImportIssues(companies, issues, companyId, prefix, plans).Done?
    ensures var r := ImportIssues(companies, issues, companyId, prefix, plans).state;
            && (forall p :: p in plans && p.InsertIssue? ==> p.source.id in r.issues)
            && ImportIssues(r.companies, r.issues, companyId, prefix, plans)
               == Done(IssueResult(r.companies, r.issues, map[], 0))
  {
    ImportNumbersInOrder(companies, issues, companyId, prefix, plans);
    var r := ImportIssues(companies, issues, companyId, prefix, plans).state;
    hide ImportIssues, ImportedIssue, Identifier;
    var inserts := NewIssues(plans, issues.Keys);
    forall p | p in plans && p.InsertIssue?
      ensures p.source.id in r.issues
    {
      if p.source.id !in issues {
        assert p in inserts;
        assert p.source.id in Ids(inserts);
      }
    }
    NothingNew(r.companies, r.issues, companyId, prefix, plans);
  }

  lemma NothingNew(companies: Companies, issues: Issues, companyId: string, prefix: string, plans: seq<IssuePlan>)
    requires forall p :: p in plans && p.InsertIssue? ==> p.source.id in issues
    ensures ImportIssues(companies, issues, companyId, prefix, plans) == Done(IssueResult(companies, issues, map[], 0))
  {
    KeepNone(IsNew(issues.Keys), plans);
  }

  // ---------- the numbering the application relies on ----------

  /** No two companies share a prefix; a numbered issue has a number up to its company's counter that no other issue
      of the company has, and is known by the identifier made of both. */
  ghost predicate WellNumbered(companies: Companies, issues: Issues) {
    && (forall c, d :: c in companies && d in companies && SamePrefix(companies[c], companies[d]) ==> c == d)
    && (forall id :: id in issues ==> NumberFits(companies, issues[id]))
    && forall a, b :: a in issues && b in issues && SameNumber(issues[a], issues[b]) ==> a == b
  }

  predicate SamePrefix(a: Company, b: Company) {
    a.issuePrefix == b.issuePrefix
  }

  predicate SameNumber(a: Issue, b: Issue) {
    a.issueNumber.Some? && a.companyId == b.companyId && a.issueNumber == b.issueNumber
  }

  predicate NumberFits(companies: Companies, issue: Issue) {
    match issue.issueNumber
    case None => issue.identifier.None?
    case Some(n) =>
      && issue.companyId in companies
      && 1 <= n <= companies[issue.companyId].issueCounter
      && issue.identifier == Some(Identifier(companies[issue.companyId].issuePrefix, n))
  }

  /** An identifier is read back in one way only, whatever dashes the prefix holds. */
  lemma IdentifierDetermines(p: string, m: nat, q: string, n: nat)
    requires Identifier(p, m) == Identifier(q, n)
    ensures p == q && m == n
  {
    var s := Identifier(p, m);
    assert s[|p|] == '-' && s[|p| + 1..] == Decimal(m);
    assert s[|q|] == '-' && s[|q| + 1..] == Decimal(n);
    forall i | |p| < i < |s|
      ensures s[i] != '-'
    {
      NoLaterDash(p, m, i);
    }
    forall i | |q| < i < |s|
      ensures s[i] != '-'
    {
      NoLaterDash(q, n, i);
    }
    assert p == s[..|p|] && q == s[..|q|];
    DecimalInjective(m, n);
  }

  lemma NoLaterDash(p: string, n: nat, i: nat)
    requires |p| < i < |Identifier(p, n)|
    ensures Identifier(p, n)[i] != '-'
  {
    assert Identifier(p, n)[i] == Decimal(n)[i - |p| - 1];
    assert Decimal(n)[i - |p| - 1] in Decimal(n);
  }

  /** In a well-numbered database no two issues share an identifier, across all companies. */
  lemma IdentifiersDistinct(companies: Companies, issues: Issues, a: string, b: string)
    requires WellNumbered(companies, issues) && a in issues && b in issues
    requires issues[a].identifier.Some? && issues[a].identifier == issues[b].identifier
    ensures a == b
  {
    assert NumberFits(companies, issues[a]) && NumberFits(companies, issues[b]);
    hide Identifier;
    IdentifierDetermines(companies[issues[a].companyId].issuePrefix, issues[a].issueNumber.value,
                         companies[issues[b].companyId].issuePrefix, issues[b].issueNumber.value);
  }

  /** Numbers beyond the counter are on no row, so in a well-numbered database an import is only ever refused for a
      repeated id or a missing parent. */
  lemma ReservedNumbersAreFree(companies: Companies, issues: Issues, companyId: string, n: nat, other: string)
    requires WellNumbered(companies, issues) && companyId in companies && companies[companyId].issueCounter < n
    requires other in issues
    ensures issues[other].identifier != Some(Identifier(companies[companyId].issuePrefix, n))
  {
    assert NumberFits(companies, issues[other]);
    hide Identifier;
    if issues[other].identifier == Some(Identifier(companies[companyId].issuePrefix, n)) {
      IdentifierDetermines(companies[issues[other].companyId].issuePrefix, issues[other].issueNumber.value,
                           companies[companyId].issuePrefix, n);
    }
  }

  /** Own id, and a parent that is there or comes no later. */
  ghost predicate InOrder(issues: Issues, inserts: seq<IssuePlan>, j: nat)
    requires j < |inserts|
  {
    && inserts[j].source.id !in Ids(inserts[..j])
    && var parent := inserts[j].source.parentId;
       parent.Some? ==> parent.value in issues || parent.value in Ids(inserts[..j + 1])
  }

  lemma InsertableInOrder(companies: Companies, issues: Issues, companyId: string, inserts: seq<IssuePlan>, j: nat)
    requires WellNumbered(companies, issues) && companyId in companies && j < |inserts|
    requires inserts[j].source.id !in issues
    ensures Insertable(companies[companyId].issuePrefix, issues, companies[companyId].issueCounter + 1, inserts, j)
            <==> InOrder(issues, inserts, j)
  {
    var n := companies[companyId].issueCounter + 1 + j;
    hide Ids, Identifier;
    forall other | other in issues
      ensures issues[other].identifier != Some(Identifier(companies[companyId].issuePrefix, n))
    {
      ReservedNumbersAreFree(companies, issues, companyId, n, other);
    }
    hide WellNumbered;
  }

  /** In a well-numbered database, with the prefix of the company row, the import goes through exactly when the new
      issues have ids of their own and their parents are there or come no later. */
  lemma WellNumberedGoesThrough(companies: Companies, issues: Issues, companyId: string, plans: seq<IssuePlan>)
    requires WellNumbered(companies, issues) && companyId in companies
    ensures var inserts := NewIssues(plans, issues.Keys);
            ImportIssues(companies, issues, companyId, companies[companyId].issuePrefix, plans).Done? <==>
              forall j :: 0 <= j < |inserts| ==> InOrder(issues, inserts, j)
  {
    hide WellNumbered, Insertable, InOrder, ImportIssues;
    var inserts := NewIssues(plans, issues.Keys);
    ImportGoesThrough(companies, issues, companyId, companies[companyId].issuePrefix, plans);
    var prefix, first := companies[companyId].issuePrefix, companies[companyId].issueCounter + 1;
    forall j | 0 <= j < |inserts|
      ensures Insertable(prefix, issues, first, inserts, j) <==> InOrder(issues, inserts, j)
    {
      assert inserts[j] in inserts;
      InsertableInOrder(companies, issues, companyId, inserts, j);
    }
    hide NewIssues;
  }

  /** The numbering is kept. */
  lemma ImportKeepsNumbering(companies: Companies, issues: Issues, companyId: string, plans: seq<IssuePlan>)
    requires WellNumbered(companies, issues) && companyId in companies
    requires ImportIssues(companies, issues, companyId, companies[companyId].issuePrefix, plans).Done?
    ensures var r := ImportIssues(companies, issues, companyId, companies[companyId].issuePrefix, plans).state;
            WellNumbered(r.companies, r.issues)
  {
    hide ImportedInOrder, WellNumbered, ImportIssues, NewIssues;
    var r := ImportIssues(companies, issues, companyId, companies[companyId].issuePrefix, plans).state;
    ImportNumbersInOrder(companies, issues, companyId, companies[companyId].issuePrefix, plans);
    NumberingAfter(companies, issues, companyId, NewIssues(plans, issues.Keys), r);
  }

  lemma NumberingAfter(companies: Companies, issues: Issues, companyId: string, inserts: seq<IssuePlan>, r: IssueResult)
    requires WellNumbered(companies, issues) && companyId in companies
    requires ImportedInOrder(companies, issues, companyId, companies[companyId].issuePrefix, inserts, r)
    ensures WellNumbered(r.companies, r.issues)
  {
    hide NumberFits, ImportFits, NumberedAs, Ids;
    var counter := companies[companyId].issueCounter;
    assert r.companies == Reserve(companies, companyId, |inserts|);
    forall id | id in r.issues && id !in issues
      ensures ImportFits(r.companies, r.issues[id], id, companyId, counter, inserts)
    {
      var j := IdOf(inserts, id);
      NumberedFits(r, companyId, counter, inserts, j);
    }
    KeptApart(companies, issues, r, companyId, counter, inserts);
    forall id | id in r.issues
      ensures NumberFits(r.companies, r.issues[id])
    {
      if id in issues {
        StillFits(companies, companyId, |inserts|, issues[id]);
      } else {
        ImportFitsNumber(r.companies, r.issues[id], id, companyId, counter, inserts);
      }
    }
  }

  lemma StillFits(companies: Companies, companyId: string, k: nat, issue: Issue)
    requires companyId in companies && NumberFits(companies, issue)
    ensures NumberFits(Reserve(companies, companyId, k), issue)
  {
    hide Identifier;
  }

  lemma ImportFitsNumber(companies: Companies, row: Issue, id: string, companyId: string, counter: nat,
                         inserts: seq<IssuePlan>)
    requires ImportFits(companies, row, id, companyId, counter, inserts)
    ensures NumberFits(companies, row)
  {
  }

  lemma NumberedFits(r: IssueResult, companyId: string, counter: nat, inserts: seq<IssuePlan>, j: nat)
    requires j < |inserts| && companyId in r.companies && r.companies[companyId].issueCounter == counter + |inserts|
    requires NumberedAs(companyId, r.companies[companyId].issuePrefix, inserts[j], counter + 1 + j, r)
    ensures inserts[j].source.id in r.issues
    ensures ImportFits(r.companies, r.issues[inserts[j].source.id], inserts[j].source.id, companyId, counter, inserts)
  {
    hide Identifier;
  }

  ghost predicate ImportFits(companies: Companies, row: Issue, id: string, companyId: string, counter: nat,
                             inserts: seq<IssuePlan>) {
    && row.companyId == companyId && NumberFits(companies, row) && row.issueNumber.Some?
    && counter < row.issueNumber.value <= counter + |inserts|
    && inserts[row.issueNumber.value - counter - 1].source.id == id
  }

  lemma KeptApart(companies: Companies, issues: Issues, r: IssueResult, companyId: string, counter: nat,
                  inserts: seq<IssuePlan>)
    requires WellNumbered(companies, issues) && companyId in companies && companies[companyId].issueCounter == counter
    requires forall id :: id in issues ==> id in r.issues && r.issues[id] == issues[id]
    requires forall id :: id in r.issues && id !in issues ==>
               ImportFits(r.companies, r.issues[id], id, companyId, counter, inserts)
    ensures forall a, b :: a in r.issues && b in r.issues && SameNumber(r.issues[a], r.issues[b]) ==> a == b
  {
    hide Identifier;
    forall a, b | a in r.issues && b in r.issues && SameNumber(r.issues[a], r.issues[b])
      ensures a == b
    {
      assert if a in issues then NumberFits(companies, issues[a])
             else ImportFits(r.companies, r.issues[a], a, companyId, counter, inserts);
      assert if b in issues then NumberFits(companies, issues[b])
             else ImportFits(r.companies, r.issues[b], b, companyId, counter, inserts);
    }
  }
}
