/** cli/src/commands/worktree.ts, `applyMergePlan`: the parts of the merge in one transaction on the target. */
module MergePlan {
  import opened Text
  import opened MergeSteps
  import opened MergeProjects
  import opened MergeIssues
  import opened MergeComments
  import opened MergeDocuments
  import opened MergeDocumentRuns
  import opened MergeAttachments

  datatype Tables = Tables(
    projects: Projects, workspaces: Workspaces, companies: Companies, issues: Issues, comments: Comments,
    documents: Documents, links: Links, revisions: Revisions, assets: Assets, attachments: Attachments)

  datatype Plan = Plan(
    projectImports: seq<ProjectPlan>, issuePlans: seq<IssuePlan>, commentPlans: seq<CommentPlan>,
    documentPlans: seq<DocumentPlan>, attachmentPlans: seq<AttachmentPlan>)

  datatype Report = Report(
    insertedProjects: nat, insertedProjectWorkspaces: nat, insertedIssues: nat, insertedComments: nat,
    documents: DocumentCounts, insertedAttachments: nat, skippedMissingAttachmentObjects: nat,
    insertedIssueIdentifiers: map<string, string>)

  /** The tables, the target storage, and what the run reports. */
  datatype Target = Target(tables: Tables, storage: TargetStorage, report: Report)

  const NO_REPORT := Report(0, 0, 0, 0, NO_COUNTS, 0, 0, map[])

  // ---------- the parts of the transaction ----------

  function ProjectPart(t: Tables): ProjectState {
    ProjectState(t.projects, t.workspaces, 0, 0)
  }

  function Documented(t: Tables, counts: DocumentCounts): DocState {
    DocState(t.documents, t.links, t.revisions, counts)
  }

  function Attached(t: Tables, storage: TargetStorage, inserted: nat, skipped: nat): AttachmentState {
    AttachmentState(t.assets, t.attachments, storage, inserted, skipped)
  }

  /** The whole merge. A part that is refused throws the transaction out: the tables are as before, while objects put
      into the target storage stay. */
  function Apply(storages: Storages, t: Tables, storage: TargetStorage, companyId: string, prefix: string,
                 plan: Plan): Outcome<Target> {
    var thrownOut := Aborted(Target(t, storage, NO_REPORT));
    match ImportProjects(companyId, ProjectPart(t), plan.projectImports)
    case Aborted(_) => thrownOut
    case Done(p) =>
      match ImportIssues(t.companies, t.issues, companyId, prefix, plan.issuePlans)
      case Aborted(_) => thrownOut
      case Done(i) =>
        match ImportComments(i.issues, companyId, t.comments, plan.commentPlans)
        case Aborted(_) => thrownOut
        case Done(c) =>
          match ImportDocuments(i.issues, companyId, Documented(t, NO_COUNTS), plan.documentPlans)
          case Aborted(_) => thrownOut
          case Done(d) =>
            match ImportAttachments(storages, i.issues, companyId, Attached(t, storage, 0, 0), plan.attachmentPlans)
            case Aborted(a) => Aborted(Target(t, a.storage, NO_REPORT))
            case Done(a) => Done(Assembled(p, i, c, d, a))
  }

  function Assembled(p: ProjectState, i: IssueResult, c: CommentState, d: DocState, a: AttachmentState): Target {
    Target(Tables(p.projects, p.workspaces, i.companies, i.issues, c.comments, d.documents, d.links, d.revisions,
                  a.assets, a.attachments),
           a.storage,
           Report(p.insertedProjects, p.insertedWorkspaces, i.insertedIssues, c.insertedComments, d.counts,
                  a.insertedAttachments, a.skippedMissing, i.identifiers))
  }

  // ---------- one turn of each loop ----------

  lemma NextProject(companyId: string, existing: set<string>, start: ProjectState, plans: seq<ProjectPlan>, i: nat)
    requires i < |plans| && Fold(AddingProjects(companyId, existing), start, plans[..i]).Done?
    ensures Fold(AddingProjects(companyId, existing), start, plans[..i + 1])
            == ProjectStep(companyId, existing, Fold(AddingProjects(companyId, existing), start, plans[..i]).state,
                           plans[i])
  {
    FoldNext(AddingProjects(companyId, existing), start, plans, i);
  }

  lemma NextWorkspace(companyId: string, projectId: string, existing: set<string>, start: WorkspaceState,
                      plans: seq<WorkspacePlan>, i: nat)
    requires i < |plans| && Fold(AddingWorkspaces(companyId, projectId, existing), start, plans[..i]).Done?
    ensures Fold(AddingWorkspaces(companyId, projectId, existing), start, plans[..i + 1])
            == WorkspaceStep(companyId, projectId, existing,
                             Fold(AddingWorkspaces(companyId, projectId, existing), start, plans[..i]).state, plans[i])
  {
    FoldNext(AddingWorkspaces(companyId, projectId, existing), start, plans, i);
  }

  lemma NextComment(issues: Issues, companyId: string, existing: set<string>, start: CommentState,
                    plans: seq<CommentPlan>, i: nat)
    requires i < |plans| && Fold(AddingComments(issues, companyId, existing), start, plans[..i]).Done?
    ensures Fold(AddingComments(issues, companyId, existing), start, plans[..i + 1])
            == CommentStep(issues, companyId, existing,
                           Fold(AddingComments(issues, companyId, existing), start, plans[..i]).state, plans[i])
  {
    FoldNext(AddingComments(issues, companyId, existing), start, plans, i);
  }

  /** The state of the loop over one document's revisions when i of them have been dealt with. */
  ghost predicate RevisionsSoFar(companyId: string, before: Revisions, plan: DocumentPlan, i: nat, revisions: Revisions,
                                 inserted: nat) {
    i <= |plan.revisionsToInsert|
    && Fold(AddingRevisions(companyId, plan.documentId, RevisionsOf(before, plan.documentId)), RevState(before, 0),
            plan.revisionsToInsert[..i])
       == Done(RevState(revisions, inserted))
  }

  lemma FirstRevision(companyId: string, before: Revisions, plan: DocumentPlan)
    ensures RevisionsSoFar(companyId, before, plan, 0, before, 0)
  {
  }

  lemma NextRevision(companyId: string, before: Revisions, plan: DocumentPlan, i: nat, revisions: Revisions,
                     inserted: nat)
    requires i < |plan.revisionsToInsert| && RevisionsSoFar(companyId, before, plan, i, revisions, inserted)
    ensures var r := plan.revisionsToInsert[i];
            var row := Revision(companyId, plan.documentId, r.targetRevisionNumber, r.text);
            if r.id in RevisionsOf(before, plan.documentId) then
              RevisionsSoFar(companyId, before, plan, i + 1, revisions, inserted)
            else if AdmitsRevision(revisions, plan.documentId, r) then
              RevisionsSoFar(companyId, before, plan, i + 1, revisions[r.id := row], inserted + 1)
            else AddRevisions(companyId, before, plan) == Aborted(RevState(revisions, inserted))
  {
    var step := AddingRevisions(companyId, plan.documentId, RevisionsOf(before, plan.documentId));
    FoldNext(step, RevState(before, 0), plan.revisionsToInsert, i);
    hide RevisionsOf, AdmitsRevision, Fold;
    if Fold(step, RevState(before, 0), plan.revisionsToInsert[..i + 1]).Aborted? {
      FoldStops(step, RevState(before, 0), plan.revisionsToInsert, i + 1);
    }
  }

  lemma LastRevision(companyId: string, before: Revisions, plan: DocumentPlan, revisions: Revisions, inserted: nat)
    requires RevisionsSoFar(companyId, before, plan, |plan.revisionsToInsert|, revisions, inserted)
    ensures AddRevisions(companyId, before, plan) == Done(RevState(revisions, inserted))
  {
    hide Fold, RevisionsOf, AddingRevisions;
    assert plan.revisionsToInsert[..|plan.revisionsToInsert|] == plan.revisionsToInsert;
  }

  lemma NextIssue(companyId: string, prefix: string, start: IssueState, plans: seq<IssuePlan>, i: nat)
    requires i < |plans| && Fold(Inserting(companyId, prefix), start, plans[..i]).Done?
    ensures Fold(Inserting(companyId, prefix), start, plans[..i + 1])
            == InsertStep(companyId, prefix, Fold(Inserting(companyId, prefix), start, plans[..i]).state, plans[i])
  {
    FoldNext(Inserting(companyId, prefix), start, plans, i);
  }

  lemma NextDocument(issues: Issues, companyId: string, start: DocState, plans: seq<DocumentPlan>, i: nat)
    requires i < |plans| && Fold(AddingDocuments(issues, companyId), start, plans[..i]).Done?
    ensures Fold(AddingDocuments(issues, companyId), start, plans[..i + 1])
            == DocumentStep(issues, companyId, Fold(AddingDocuments(issues, companyId), start, plans[..i]).state,
                            plans[i])
  {
    hide DocumentStep;
    FoldNext(AddingDocuments(issues, companyId), start, plans, i);
  }

  lemma NextAttachment(storages: Storages, issues: Issues, companyId: string, existing: set<string>,
                       start: AttachmentState,
                       plans: seq<AttachmentPlan>, i: nat)
    requires i < |plans| && Fold(AddingAttachments(storages, issues, companyId, existing), start, plans[..i]).Done?
    ensures Fold(AddingAttachments(storages, issues, companyId, existing), start, plans[..i + 1])
            == AttachmentStep(storages, issues, companyId, existing,
                              Fold(AddingAttachments(storages, issues, companyId, existing), start,
                                   plans[..i]).state, plans[i])
  {
    FoldNext(AddingAttachments(storages, issues, companyId, existing), start, plans, i);
  }

  /** The target of a merge: its tables, which a transaction may put back, and its storage, which nothing puts back. */
  class MergeTarget {
    var tables: Tables
    var storage: TargetStorage

    constructor (tables: Tables, storage: TargetStorage)
      ensures this.tables == tables && this.storage == storage
    {
      this.tables, this.storage := tables, storage;
    }

    /** The loop over one project's workspaces. */
    method InsertWorkspaces(companyId: string, existing: set<string>, plan: ProjectPlan)
      returns (ok: bool, inserted: nat)
      modifies this`tables
      ensures var r := AddWorkspaces(companyId, existing, old(tables.workspaces), plan);
              ok == r.Done? && tables == old(tables).(workspaces := r.state.workspaces) && inserted == r.state.inserted
    {
      var workspaces := tables.workspaces;
      ghost var step, start := AddingWorkspaces(companyId, plan.id, existing), WorkspaceState(workspaces, 0);
      assert AddWorkspaces(companyId, existing, workspaces, plan) == Fold(step, start, plan.workspaces);
      hide AddWorkspaces, AddingWorkspaces, Fold, AdmitsWorkspace;
      ok, inserted := true, 0;
      var i := 0;
      FoldStarts(step, start, plan.workspaces);
      while i < |plan.workspaces|
        invariant 0 <= i <= |plan.workspaces|
        invariant Fold(step, start, plan.workspaces[..i]) == Done(WorkspaceState(workspaces, inserted))
        invariant tables == old(tables).(workspaces := workspaces)
      {
        var workspace := plan.workspaces[i];
        NextWorkspace(companyId, plan.id, existing, start, plan.workspaces, i);
        if workspace.id !in existing {
          if !AdmitsWorkspace(workspaces, plan.id, workspace) {
            FoldStops(step, start, plan.workspaces, i + 1);
            return false, inserted;
          }
          workspaces := workspaces[workspace.id := Workspace(
            companyId := companyId, projectId := plan.id, remote := workspace.remote, copied := workspace.copied)];
          tables := tables.(workspaces := workspaces);
          inserted := inserted + 1;
        }
        i := i + 1;
      }
      FoldEnds(step, start, plan.workspaces);
    }

    /** One new project with its workspaces. */
    method InsertProject(companyId: string, existing: set<string>, plan: ProjectPlan, inserted: nat,
                         insertedWorkspaces: nat)
      returns (ok: bool, projectsNow: nat, workspacesNow: nat)
      modifies this`tables
      ensures var s := ProjectState(old(tables.projects), old(tables.workspaces), inserted, insertedWorkspaces);
              var r := ProjectStep(companyId, existing, s, plan);
              && ok == r.Done?
              && r.state == ProjectState(tables.projects, tables.workspaces, projectsNow, workspacesNow)
              && tables == old(tables).(projects := r.state.projects, workspaces := r.state.workspaces)
    {
      hide AddWorkspaces;
      if plan.id in tables.projects {
        return false, inserted, insertedWorkspaces;
      }
      tables := tables.(projects := tables.projects[plan.id := Project(
        companyId := companyId, goalId := plan.targetGoalId, leadAgentId := plan.targetLeadAgentId,
        copied := plan.copied)]);
      projectsNow := inserted + 1;
      var added;
      ok, added := InsertWorkspaces(companyId, existing, plan);
      workspacesNow := insertedWorkspaces + added;
    }

    /** The loop over the projects the target does not have. */
    method InsertProjects(companyId: string, plans: seq<ProjectPlan>)
      returns (ok: bool, inserted: nat, insertedWorkspaces: nat)
      modifies this`tables
      ensures var r := ImportProjects(companyId, ProjectPart(old(tables)), plans);
              && ok == r.Done?
              && r.state == ProjectState(tables.projects, tables.workspaces, inserted, insertedWorkspaces)
              && tables == old(tables).(projects := r.state.projects, workspaces := r.state.workspaces)
    {
      var imports, existing := Keep(IsNewProject(tables.projects.Keys), plans), tables.workspaces.Keys;
      ghost var step, start := AddingProjects(companyId, existing), ProjectPart(tables);
      assert ImportProjects(companyId, start, plans) == Fold(step, start, imports);
      hide Keep, Fold, ImportProjects, AddingProjects, ProjectStep;
      ok, inserted, insertedWorkspaces := true, 0, 0;
      var i := 0;
      FoldStarts(step, start, imports);
      while i < |imports|
        invariant 0 <= i <= |imports|
        invariant Fold(step, start, imports[..i])
                  == Done(ProjectState(tables.projects, tables.workspaces, inserted, insertedWorkspaces))
        invariant tables == old(tables).(projects := tables.projects, workspaces := tables.workspaces)
      {
        NextProject(companyId, existing, start, imports, i);
        ok, inserted, insertedWorkspaces := InsertProject(companyId, existing, imports[i], inserted,
                                                          insertedWorkspaces);
        if !ok {
          FoldStops(step, start, imports, i + 1);
          return;
        }
        i := i + 1;
      }
      FoldEnds(step, start, imports);
    }

    /** The loop over the new issues. */
    method InsertIssueRows(companyId: string, prefix: string, inserts: seq<IssuePlan>, first: nat)
      returns (ok: bool, inserted: nat, identifiers: map<string, string>)
      requires forall p :: p in inserts ==> p.InsertIssue?
      modifies this`tables
      ensures var r := Fold(Inserting(companyId, prefix), IssueState(old(tables.issues), first, map[], 0), inserts);
              && ok == r.Done? && tables == old(tables).(issues := r.state.issues)
              && (ok ==> r.state.identifiers == identifiers && r.state.insertedIssues == inserted)
    {
      ghost var step, start := Inserting(companyId, prefix), IssueState(tables.issues, first, map[], 0);
      hide Admits, Fold, Inserting;
      var issues, nextIssueNumber := tables.issues, first;
      ok, inserted, identifiers := true, 0, map[];
      var i := 0;
      FoldStarts(step, start, inserts);
      while i < |inserts|
        invariant 0 <= i <= |inserts|
        invariant Fold(step, start, inserts[..i]) == Done(IssueState(issues, nextIssueNumber, identifiers, inserted))
        invariant tables == old(tables).(issues := issues)
      {
        var issue := inserts[i];
        assert issue in inserts;
        var issueNumber := nextIssueNumber;
        NextIssue(companyId, prefix, start, inserts, i);
        nextIssueNumber := nextIssueNumber + 1;
        var identifier := prefix + "-" + Decimal(issueNumber);
        identifiers := identifiers[issue.source.id := identifier];
        var row := Issue(
          companyId := companyId, projectId := issue.targetProjectId,
          projectWorkspaceId := issue.targetProjectWorkspaceId, goalId := issue.targetGoalId,
          parentId := issue.source.parentId, status := issue.targetStatus,
          assigneeAgentId := issue.targetAssigneeAgentId, assigneeUserId := issue.source.assigneeUserId,
          checkoutRunId := None, executionRunId := None, executionAgentNameKey := None, executionLockedAt := None,
          createdByAgentId := issue.targetCreatedByAgentId,
          issueNumber := Some(issueNumber), identifier := Some(identifier),
          assigneeAdapterOverrides :=
            if issue.targetAssigneeAgentId != None then issue.source.assigneeAdapterOverrides else None,
          executionWorkspaceId := None, executionWorkspacePreference := None, executionWorkspaceSettings := None,
          copied := issue.source.copied);
        if !Admits(issues, issue.source.id, row) {
          FoldStops(step, start, inserts, i + 1);
          return false, inserted, identifiers;
        }
        issues := issues[issue.source.id := row];
        tables := tables.(issues := issues);
        inserted := inserted + 1;
        i := i + 1;
      }
      FoldEnds(step, start, inserts);
    }

    /** The block of numbers on the company row, and the loop. */
    method InsertIssues(companyId: string, prefix: string, plans: seq<IssuePlan>)
      returns (ok: bool, inserted: nat, identifiers: map<string, string>)
      modifies this`tables
      ensures var r := ImportIssues(old(tables.companies), old(tables.issues), companyId, prefix, plans);
              && ok == r.Done? && tables == old(tables).(companies := tables.companies, issues := tables.issues)
              && (ok ==> r.state == IssueResult(tables.companies, tables.issues, identifiers, inserted))
    {
      hide Fold, Inserting;
      var inserts := NewIssues(plans, tables.issues.Keys);
      if |inserts| == 0 {
        return true, 0, map[];
      }
      if companyId !in tables.companies {
        return false, 0, map[];
      }
      tables := tables.(companies := Reserve(tables.companies, companyId, |inserts|));
      var first := tables.companies[companyId].issueCounter - |inserts| + 1;
      ok, inserted, identifiers := InsertIssueRows(companyId, prefix, inserts, first);
    }

    /** The comment loop. */
    method InsertComments(companyId: string, plans: seq<CommentPlan>) returns (ok: bool, inserted: nat)
      modifies this`tables
      ensures var r := ImportComments(old(tables.issues), companyId, old(tables.comments), plans);
              && ok == r.Done? && inserted == r.state.insertedComments
              && tables == old(tables).(comments := r.state.comments)
    {
      var issues, comments := tables.issues, tables.comments;
      var candidates, existing := Keep(IsCommentInsert, plans), comments.Keys;
      ghost var step, start := AddingComments(issues, companyId, existing), CommentState(comments, 0);
      assert ImportComments(issues, companyId, comments, plans) == Fold(step, start, candidates);
      hide Keep, ImportComments, AddingComments, Fold, HasParent;
      ok, inserted := true, 0;
      var i := 0;
      FoldStarts(step, start, candidates);
      while i < |candidates|
        invariant 0 <= i <= |candidates|
        invariant Fold(step, start, candidates[..i]) == Done(CommentState(comments, inserted))
        invariant tables == old(tables).(comments := comments)
      {
        var comment := candidates[i];
        assert comment in candidates;
        NextComment(issues, companyId, existing, start, candidates, i);
        if comment.id !in existing && HasParent(issues, companyId, comment.issueId) {
          if comment.id in comments {
            FoldStops(step, start, candidates, i + 1);
            return false, inserted;
          }
          comments := comments[comment.id := Comment(
            companyId := companyId, issueId := comment.issueId, authorAgentId := comment.targetAuthorAgentId,
            copied := comment.copied)];
          tables := tables.(comments := comments);
          inserted := inserted + 1;
        }
        i := i + 1;
      }
      FoldEnds(step, start, candidates);
    }

    /** The loop over one document's revisions. */
    method InsertRevisions(companyId: string, plan: DocumentPlan) returns (ok: bool, inserted: nat)
      modifies this`tables
      ensures var r := AddRevisions(companyId, old(tables.revisions), plan);
              ok == r.Done? && tables == old(tables).(revisions := r.state.revisions) && inserted == r.state.inserted
    {
      hide RevisionsOf, AddRevisions, AdmitsRevision, RevisionsSoFar;
      var revisions := tables.revisions;
      ghost var before := revisions;
      var existing := RevisionsOf(revisions, plan.documentId);
      ok, inserted := true, 0;
      var i := 0;
      FirstRevision(companyId, before, plan);
      while i < |plan.revisionsToInsert|
        invariant 0 <= i <= |plan.revisionsToInsert|
        invariant RevisionsSoFar(companyId, before, plan, i, revisions, inserted)
        invariant tables == old(tables).(revisions := revisions)
      {
        var revision := plan.revisionsToInsert[i];
        NextRevision(companyId, before, plan, i, revisions, inserted);
        if revision.id !in existing {
          if !AdmitsRevision(revisions, plan.documentId, revision) {
            return false, inserted;
          }
          revisions := revisions[revision.id := Revision(
            companyId := companyId, documentId := plan.documentId, revisionNumber := revision.targetRevisionNumber,
            text := revision.text)];
          tables := tables.(revisions := revisions);
          inserted := inserted + 1;
        }
        i := i + 1;
      }
      LastRevision(companyId, before, plan, revisions, inserted);
    }

    /** The document row and its link. */
    method PlaceDocument(companyId: string, plan: DocumentPlan, counts: DocumentCounts)
      returns (ok: bool, after: DocumentCounts)
      modifies this`tables
      ensures var r := Place(companyId, Documented(old(tables), counts), plan);
              && ok == r.Done? && r.state == Documented(tables, after)
              && tables == old(tables).(documents := r.state.documents, links := r.state.links)
    {
      hide AdmitsLink;
      ok, after := true, counts;
      var d, documents, links := plan.documentId, tables.documents, tables.links;
      var link := Link(id := plan.linkId, companyId := companyId, issueId := plan.issueId, key := plan.key,
                       createdAt := plan.linkCreatedAt, updatedAt := plan.linkUpdatedAt);
      if d !in documents {
        if !AdmitsLink(links, plan) {
          return false, after;
        }
        documents := documents[d := Document(companyId := companyId, content := plan.content, origin := plan.origin)];
        links := links[d := link];
        after := after.(insertedDocuments := after.insertedDocuments + 1);
      } else {
        if d !in links {
          if !AdmitsLink(links, plan) {
            return false, after;
          }
          links := links[d := link];
        } else {
          links := links[d := links[d].(issueId := plan.issueId, key := plan.key, updatedAt := plan.linkUpdatedAt)];
        }
        documents := documents[d := documents[d].(content := plan.content)];
        after := after.(mergedDocuments := after.mergedDocuments + 1);
      }
      tables := tables.(documents := documents, links := links);
    }

    /** One planned document: skipped, inserted, or merged into the document that is there. */
    method MergeDocument(companyId: string, plan: DocumentPlan, counts: DocumentCounts)
      returns (ok: bool, after: DocumentCounts)
      modifies this`tables
      ensures var r := DocumentStep(old(tables.issues), companyId, Documented(old(tables), counts), plan);
              && ok == r.Done? && r.state == Documented(tables, after)
              && tables
                 == old(tables).(documents := r.state.documents, links := r.state.links, revisions := r.state.revisions)
    {
      hide AddRevisions, Taken, HasParent, Place;
      if !HasParent(tables.issues, companyId, plan.issueId) || Taken(tables.links, plan) {
        return true, counts;
      }
      ok, after := PlaceDocument(companyId, plan, counts);
      if ok {
        var count;
        ok, count := InsertRevisions(companyId, plan);
        after := after.(insertedRevisions := after.insertedRevisions + count);
      }
    }

    /** The document loop. */
    method MergeDocumentPlans(companyId: string, plans: seq<DocumentPlan>) returns (ok: bool, counts: DocumentCounts)
      modifies this`tables
      ensures var r := ImportDocuments(old(tables.issues), companyId, Documented(old(tables), NO_COUNTS), plans);
              && ok == r.Done? && r.state == Documented(tables, counts)
              && tables
                 == old(tables).(documents := r.state.documents, links := r.state.links, revisions := r.state.revisions)
    {
      var candidates, issues := Keep(IsDocumentCandidate, plans), tables.issues;
      ghost var step, start := AddingDocuments(issues, companyId), Documented(tables, NO_COUNTS);
      assert ImportDocuments(issues, companyId, start, plans) == Fold(step, start, candidates);
      hide Keep, DocumentStep, Fold, ImportDocuments, AddingDocuments;
      ok, counts := true, NO_COUNTS;
      var i := 0;
      FoldStarts(step, start, candidates);
      while i < |candidates|
        invariant 0 <= i <= |candidates|
        invariant Fold(step, start, candidates[..i]) == Done(Documented(tables, counts))
        invariant tables
                  == old(tables).(documents := tables.documents, links := tables.links, revisions := tables.revisions)
      {
        NextDocument(issues, companyId, start, candidates, i);
        ok, counts := MergeDocument(companyId, candidates[i], counts);
        if !ok {
          FoldStops(step, start, candidates, i + 1);
          return;
        }
        i := i + 1;
      }
      FoldEnds(step, start, candidates);
    }

    /** One planned attachment. */
    method CopyAttachment(storages: Storages, companyId: string, existing: set<string>, plan: AttachmentPlan,
                          inserted: nat, skipped: nat)
      returns (ok: bool, nowInserted: nat, nowSkipped: nat)
      modifies this
      ensures var r := AttachmentStep(storages, old(tables.issues), companyId, existing,
                                      Attached(old(tables), old(storage), inserted, skipped), plan);
              && ok == r.Done? && r.state == Attached(tables, storage, nowInserted, nowSkipped)
              && tables == old(tables).(assets := r.state.assets, attachments := r.state.attachments)
    {
      hide FirstBody, HasParent, AdmitsAsset, AdmitsAttachment;
      ok, nowInserted, nowSkipped := true, inserted, skipped;
      if plan.LeaveAttachment? || plan.id in existing || !HasParent(tables.issues, companyId, plan.issueId) {
        return;
      }
      var read := ReadSourceAttachmentBody(storages.sources, companyId, plan.objectKey);
      if read.Missing? {
        nowSkipped := skipped + 1;
        return;
      }
      if read.Failed? || plan.objectKey in storages.refused {
        ok := false;
        return;
      }
      storage := storage[(companyId, plan.objectKey) := Stored(read.body, plan.contentType)];
      if !AdmitsAsset(tables.assets, companyId, plan) || !AdmitsAttachment(tables.attachments, plan) {
        ok := false;
        return;
      }
      tables := tables.(assets := tables.assets[plan.assetId := Asset(
        companyId := companyId, objectKey := plan.objectKey, contentType := plan.contentType,
        createdByAgentId := plan.targetCreatedByAgentId, copied := plan.assetCopied)]);
      tables := tables.(attachments := tables.attachments[plan.id := Attachment(
        companyId := companyId, issueId := plan.issueId, assetId := plan.assetId,
        issueCommentId := plan.targetIssueCommentId, createdAt := plan.createdAt, updatedAt := plan.updatedAt)]);
      nowInserted := inserted + 1;
    }

    /** The attachment loop. */
    method CopyAttachments(storages: Storages, companyId: string, plans: seq<AttachmentPlan>)
      returns (ok: bool, inserted: nat, skipped: nat)
      modifies this
      ensures var r := ImportAttachments(storages, old(tables.issues), companyId,
                                         Attached(old(tables), old(storage), 0, 0), plans);
              && ok == r.Done? && r.state == Attached(tables, storage, inserted, skipped)
              && tables == old(tables).(assets := r.state.assets, attachments := r.state.attachments)
    {
      var candidates, issues := Keep(IsAttachmentInsert, plans), tables.issues;
      var existing := OfCompany(tables.attachments, companyId);
      ghost var step := AddingAttachments(storages, issues, companyId, existing);
      ghost var start := Attached(tables, storage, 0, 0);
      assert ImportAttachments(storages, issues, companyId, start, plans) == Fold(step, start, candidates);
      hide Keep, OfCompany, Fold, AddingAttachments, ImportAttachments, AttachmentStep;
      ok, inserted, skipped := true, 0, 0;
      var i := 0;
      FoldStarts(step, start, candidates);
      while i < |candidates|
        invariant 0 <= i <= |candidates|
        invariant Fold(step, start, candidates[..i]) == Done(Attached(tables, storage, inserted, skipped))
        invariant tables == old(tables).(assets := tables.assets, attachments := tables.attachments)
      {
        NextAttachment(storages, issues, companyId, existing, start, candidates, i);
        ok, inserted, skipped := CopyAttachment(storages, companyId, existing, candidates[i], inserted, skipped);
        if !ok {
          FoldStops(step, start, candidates, i + 1);
          return;
        }
        i := i + 1;
      }
      FoldEnds(step, start, candidates);
    }

    /** `applyMergePlan`: all of the plan, or none of it. */
    method ApplyMergePlan(storages: Storages, companyId: string, prefix: string, plan: Plan)
      returns (report: Option<Report>)
      modifies this
      ensures var r := Apply(storages, old(tables), old(storage), companyId, prefix, plan);
              && tables == r.state.tables && storage == r.state.storage
              && report == (if r.Done? then Some(r.state.report) else None)
              && (r.Aborted? ==> tables == old(tables))
    {
      hide ImportProjects, ImportIssues, ImportComments, ImportDocuments, ImportAttachments;
      var before := tables;
      report := None;
      var ok, insertedProjects, insertedWorkspaces := InsertProjects(companyId, plan.projectImports);
      var insertedIssues, identifiers, insertedComments, counts, insertedAttachments, skipped;
      if ok {
        ok, insertedIssues, identifiers := InsertIssues(companyId, prefix, plan.issuePlans);
      }
      if ok {
        ok, insertedComments := InsertComments(companyId, plan.commentPlans);
      }
      if ok {
        ok, counts := MergeDocumentPlans(companyId, plan.documentPlans);
      }
      if ok {
        ok, insertedAttachments, skipped := CopyAttachments(storages, companyId, plan.attachmentPlans);
      }
      if !ok {
        tables := before;
        return;
      }
      report := Some(Report(insertedProjects, insertedWorkspaces, insertedIssues, insertedComments, counts,
                            insertedAttachments, skipped, identifiers));
    }
  }
}
