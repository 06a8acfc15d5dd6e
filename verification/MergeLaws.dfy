/** What a whole merge promises: what it keeps, what it adds, and when applying the same plan again changes nothing. */
module MergeLaws {
  import opened Text
  import opened MergeSteps
  import opened MergeProjects
  import opened MergeIssues
  import opened MergeComments
  import opened MergeDocuments
  import opened MergeDocumentRuns
  import opened MergeAttachments
  import opened MergePlan

  function DocumentCandidates(plan: Plan): seq<DocumentPlan> {
    Keep(IsDocumentCandidate, plan.documentPlans)
  }

  /** The results of the parts of a merge that goes through. */
  datatype Parts = Parts(p: ProjectState, i: IssueResult, c: CommentState, d: DocState, a: AttachmentState)

  ghost predicate WentThrough(storages: Storages, t: Tables, storage: TargetStorage, companyId: string, prefix: string,
                              plan: Plan, x: Parts) {
    && ImportProjects(companyId, ProjectPart(t), plan.projectImports) == Done(x.p)
    && ImportIssues(t.companies, t.issues, companyId, prefix, plan.issuePlans) == Done(x.i)
    && ImportComments(x.i.issues, companyId, t.comments, plan.commentPlans) == Done(x.c)
    && ImportDocuments(x.i.issues, companyId, Documented(t, NO_COUNTS), plan.documentPlans) == Done(x.d)
    && ImportAttachments(storages, x.i.issues, companyId, Attached(t, storage, 0, 0), plan.attachmentPlans) == Done(x.a)
  }

  lemma GoneThrough(storages: Storages, t: Tables, storage: TargetStorage, companyId: string, prefix: string,
                    plan: Plan)
    returns (x: Parts)
    requires Apply(storages, t, storage, companyId, prefix, plan).Done?
    ensures WentThrough(storages, t, storage, companyId, prefix, plan, x)
    ensures Apply(storages, t, storage, companyId, prefix, plan) == Done(Assembled(x.p, x.i, x.c, x.d, x.a))
  {
    hide ImportProjects, ImportIssues, ImportComments, ImportDocuments, ImportAttachments, Assembled;
    var p := ImportProjects(companyId, ProjectPart(t), plan.projectImports).state;
    var i := ImportIssues(t.companies, t.issues, companyId, prefix, plan.issuePlans).state;
    var c := ImportComments(i.issues, companyId, t.comments, plan.commentPlans).state;
    var d := ImportDocuments(i.issues, companyId, Documented(t, NO_COUNTS), plan.documentPlans).state;
    var a := ImportAttachments(storages, i.issues, companyId, Attached(t, storage, 0, 0), plan.attachmentPlans).state;
    x := Parts(p, i, c, d, a);
  }

  // ---------- all or nothing ----------

  /** A merge that is refused leaves every table as it was; what it may leave behind is in the target storage, under
      planned keys of this company, and is what the sources hold. */
  lemma RefusedLeavesTables(storages: Storages, t: Tables, storage: TargetStorage, companyId: string, prefix: string,
                            plan: Plan)
    requires Apply(storages, t, storage, companyId, prefix, plan).Aborted?
    ensures var r := Apply(storages, t, storage, companyId, prefix, plan).state;
            r.tables == t && StorageWrites(storages, companyId, storage,
                                           Keep(IsAttachmentInsert, plan.attachmentPlans), r.storage)
  {
    hide ImportProjects, ImportIssues, ImportComments, ImportDocuments, RunAttachments, StorageWrites, FirstBody, Keep;
    var i := ImportIssues(t.companies, t.issues, companyId, prefix, plan.issuePlans).state;
    var plans := Keep(IsAttachmentInsert, plan.attachmentPlans);
    RunWrites(storages, i.issues, companyId, Attached(t, storage, 0, 0), plans);
    NothingPut(storages, companyId, storage, plans);
  }

  lemma NothingPut(storages: Storages, companyId: string, storage: TargetStorage, plans: seq<AttachmentPlan>)
    ensures StorageWrites(storages, companyId, storage, plans, storage)
  {
    hide FirstBody;
  }

  // ---------- what every merge keeps ----------

  /** The numbering of the issues, the soundness of the document tables, and one workspace a remote place. */
  ghost predicate SoundTarget(t: Tables) {
    WellNumbered(t.companies, t.issues) && SoundDocuments(Documented(t, NO_COUNTS)) && RemotesUnique(t.workspaces)
  }

  /** Any merge into a company of the target, refused or not, keeps them. */
  lemma ApplyKeepsSound(storages: Storages, t: Tables, storage: TargetStorage, companyId: string, plan: Plan)
    requires companyId in t.companies && SoundTarget(t)
    ensures SoundTarget(Apply(storages, t, storage, companyId, t.companies[companyId].issuePrefix, plan).state.tables)
  {
    var prefix := t.companies[companyId].issuePrefix;
    var outcome := Apply(storages, t, storage, companyId, prefix, plan);
    hide Apply, WellNumbered, SoundDocuments, RemotesUnique, RunProjects,
         ImportIssues, ImportComments, ImportAttachments, RunAttachments;
    if outcome.Done? {
      var x := GoneThrough(storages, t, storage, companyId, prefix, plan);
      ProjectsKeepRemotes(companyId, ProjectPart(t), Keep(IsNewProject(t.projects.Keys), plan.projectImports));
      ImportKeepsNumbering(t.companies, t.issues, companyId, plan.issuePlans);
      var plans := DocumentCandidates(plan);
      RunKeepsSound(x.i.issues, companyId, Documented(t, NO_COUNTS), plans, |plans|);
      RunEnds(x.i.issues, companyId, Documented(t, NO_COUNTS), plans);
      CountsDoNotMatter(x.d);
    } else {
      RefusedLeavesTables(storages, t, storage, companyId, prefix, plan);
    }
  }

  lemma CountsDoNotMatter(d: DocState)
    ensures SoundDocuments(d) <==> SoundDocuments(d.(counts := NO_COUNTS))
  {
    hide SlotsUnique, LinkIdsUnique, RevisionsUnique;
  }

  // ---------- what a merge adds ----------

  /** Comments, links and attachments that were not there are on issues of their own company. */
  ghost predicate AddsUnderParents(companyId: string, t: Tables, u: Tables) {
    && (forall c :: c in u.comments && c !in t.comments ==>
          u.comments[c].companyId == companyId && HasParent(u.issues, companyId, u.comments[c].issueId))
    && (forall d :: d in u.links && d !in t.links ==>
          u.links[d].companyId == companyId && HasParent(u.issues, companyId, u.links[d].issueId))
    && (forall a :: a in u.attachments && a !in t.attachments ==>
          u.attachments[a].companyId == companyId && HasParent(u.issues, companyId, u.attachments[a].issueId))
  }

  lemma ApplyAddsUnderParents(storages: Storages, t: Tables, storage: TargetStorage, companyId: string, prefix: string,
                              plan: Plan)
    requires Apply(storages, t, storage, companyId, prefix, plan).Done?
    ensures AddsUnderParents(companyId, t, Apply(storages, t, storage, companyId, prefix, plan).state.tables)
  {
    hide Apply, HasParent, ImportIssues, ImportProjects, Run, RunComments, RunAttachments;
    var x := GoneThrough(storages, t, storage, companyId, prefix, plan);
    var comments := Keep(IsCommentInsert, plan.commentPlans);
    var attachments := Keep(IsAttachmentInsert, plan.attachmentPlans);
    CommentsParented(x.i.issues, companyId, t.comments, comments);
    DocumentsOf(storages, t, storage, companyId, prefix, plan, x);
    RunParents(x.i.issues, companyId, Documented(t, NO_COUNTS), DocumentCandidates(plan));
    AttachmentsParented(storages, x.i.issues, companyId, Attached(t, storage, 0, 0), attachments);
  }

  /** Links stay with their companies exactly when, before the merge, no plan that finds its slot free, as the first for
      it, is for a document linked under another company; the issues are those the plan's own import leaves. */
  lemma ApplyLinksStayHome(storages: Storages, t: Tables, storage: TargetStorage, companyId: string, prefix: string,
                           plan: Plan)
    requires Apply(storages, t, storage, companyId, prefix, plan).Done? && LinksParented(t.issues, t.links)
    requires DistinctPlans(DocumentCandidates(plan)) && NoSquatters(t.links, DocumentCandidates(plan))
    ensures var issues := ImportIssues(t.companies, t.issues, companyId, prefix, plan.issuePlans).state.issues;
            var after := Apply(storages, t, storage, companyId, prefix, plan).state.tables;
            var plans := DocumentCandidates(plan);
            && after.issues == issues
            && (LinksParented(after.issues, after.links) <==>
                  forall j :: 0 <= j < |plans| ==> !MovesForeign(issues, companyId, t.links, plans, j))
  {
    hide Apply, ImportProjects, Run, RunComments, RunAttachments, DistinctPlans, NoSquatters, MovesForeign;
    var x := GoneThrough(storages, t, storage, companyId, prefix, plan);
    DocumentsOf(storages, t, storage, companyId, prefix, plan, x);
    ImportNumbersInOrder(t.companies, t.issues, companyId, prefix, plan.issuePlans);
    assert LinksParented(x.i.issues, t.links) by {
      hide ImportIssues, WentThrough;
    }
    hide LinksParented, ImportIssues;
    LinksStayHome(x.i.issues, companyId, Documented(t, NO_COUNTS), DocumentCandidates(plan));
  }

  lemma AttachmentsParented(storages: Storages, issues: Issues, companyId: string, before: AttachmentState,
                            plans: seq<AttachmentPlan>)
    requires RunAttachments(storages, issues, companyId, before, plans).Done?
    ensures var t := RunAttachments(storages, issues, companyId, before, plans).state.attachments;
            forall a :: a in t && a !in before.attachments ==>
              t[a].companyId == companyId && HasParent(issues, companyId, t[a].issueId)
  {
    hide RunAttachments, HasParent, FirstBody;
    RunCompletes(storages, issues, companyId, before, plans);
    var t := RunAttachments(storages, issues, companyId, before, plans).state;
    forall a | a in t.attachments && a !in before.attachments
      ensures t.attachments[a].companyId == companyId && HasParent(issues, companyId, t.attachments[a].issueId)
    {
      assert Complete(storages, issues, companyId, t, a);
    }
  }

  // ---------- what a merge leaves alone ----------

  /** In these tables a merge changes no row. */
  ghost predicate KeepsRows(t: Tables, u: Tables) {
    && RowsStay(t.projects, u.projects) && RowsStay(t.workspaces, u.workspaces) && RowsStay(t.issues, u.issues)
    && RowsStay(t.comments, u.comments) && RowsStay(t.revisions, u.revisions)
    && RowsStay(t.assets, u.assets) && RowsStay(t.attachments, u.attachments)
  }

  /** Rows that were not there are of this company. */
  ghost predicate AddsOwn(companyId: string, t: Tables, u: Tables) {
    && (forall p :: p in u.projects && p !in t.projects ==> u.projects[p].companyId == companyId)
    && (forall w :: w in u.workspaces && w !in t.workspaces ==> u.workspaces[w].companyId == companyId)
    && (forall i :: i in u.issues && i !in t.issues ==> u.issues[i].companyId == companyId)
    && (forall d :: d in u.documents && d !in t.documents ==> u.documents[d].companyId == companyId)
    && (forall r :: r in u.revisions && r !in t.revisions ==> u.revisions[r].companyId == companyId)
    && (forall a :: a in u.assets && a !in t.assets ==> u.assets[a].companyId == companyId)
  }

  lemma ProjectsKept(companyId: string, before: ProjectState, imports: seq<ProjectPlan>)
    requires RunProjects(companyId, before, imports).Done?
    ensures var u := RunProjects(companyId, before, imports).state;
            && RowsStay(before.projects, u.projects) && RowsStay(before.workspaces, u.workspaces)
            && (forall p :: p in u.projects && p !in before.projects ==> u.projects[p].companyId == companyId)
            && (forall w :: w in u.workspaces && w !in before.workspaces ==> u.workspaces[w].companyId == companyId)
  {
    ProjectsOutcome(companyId, before, imports);
    hide RunProjects, ProjectIn;
  }

  lemma IssuesKept(companies: Companies, issues: Issues, companyId: string, prefix: string, plans: seq<IssuePlan>)
    requires ImportIssues(companies, issues, companyId, prefix, plans).Done?
    ensures var r := ImportIssues(companies, issues, companyId, prefix, plans).state;
            && RowsStay(issues, r.issues)
            && (forall i :: i in r.issues && i !in issues ==> r.issues[i].companyId == companyId)
            && r.companies.Keys == companies.Keys
            && (forall c :: c in companies && c != companyId ==> r.companies[c] == companies[c])
  {
    ImportNumbersInOrder(companies, issues, companyId, prefix, plans);
    hide ImportIssues, NewIssues, Ids, Identifier;
    var r, inserts := ImportIssues(companies, issues, companyId, prefix, plans).state, NewIssues(plans, issues.Keys);
    forall i | i in r.issues && i !in issues
      ensures r.issues[i].companyId == companyId
    {
      var j := IdOf(inserts, i);
      assert NumberedAs(companyId, prefix, inserts[j], companies[companyId].issueCounter + 1 + j, r);
    }
  }

  lemma CommentsKept(issues: Issues, companyId: string, before: Comments, plans: seq<CommentPlan>)
    requires RunComments(issues, companyId, before, plans).Done?
    ensures RowsStay(before, RunComments(issues, companyId, before, plans).state.comments)
  {
    CommentsOutcome(issues, companyId, before, plans);
    hide RunComments, RowsAsPlanned, ImportedIds;
  }

  lemma AttachmentsKept(storages: Storages, issues: Issues, companyId: string, before: AttachmentState,
                        plans: seq<AttachmentPlan>)
    ensures var u := RunAttachments(storages, issues, companyId, before, plans).state;
            && RowsStay(before.assets, u.assets) && RowsStay(before.attachments, u.attachments)
            && (forall a :: a in u.assets && a !in before.assets ==> u.assets[a].companyId == companyId)
  {
    RunWrites(storages, issues, companyId, before, plans);
    hide RunAttachments, StorageWrites;
    forall a
      ensures var u := RunAttachments(storages, issues, companyId, before, plans).state;
              a in u.assets && a !in before.assets ==> u.assets[a].companyId == companyId
    {
      RunAssetsOwn(storages, issues, companyId, before, plans, a);
    }
  }

  /** A merge changes no row of the projects, workspaces, issues, comments, revisions, assets and attachments that were
      there and no row of another company in the company table; whatever it adds is of this company. */
  lemma ApplyKeepsRows(storages: Storages, t: Tables, storage: TargetStorage, companyId: string, prefix: string,
                       plan: Plan)
    requires Apply(storages, t, storage, companyId, prefix, plan).Done?
    ensures var u := Apply(storages, t, storage, companyId, prefix, plan).state.tables;
            && KeepsRows(t, u) && AddsOwn(companyId, t, u)
            && u.companies.Keys == t.companies.Keys
            && (forall c :: c in t.companies && c != companyId ==> u.companies[c] == t.companies[c])
  {
    var x := GoneThrough(storages, t, storage, companyId, prefix, plan);
    DocumentsOf(storages, t, storage, companyId, prefix, plan, x);
    var plans := DocumentCandidates(plan);
    hide Apply, ImportIssues, RunProjects, Run, RunComments, RunAttachments, RowsStay, Keep, IsNewProject;
    ProjectsKept(companyId, ProjectPart(t), Keep(IsNewProject(t.projects.Keys), plan.projectImports));
    IssuesKept(t.companies, t.issues, companyId, prefix, plan.issuePlans);
    CommentsKept(x.i.issues, companyId, t.comments, Keep(IsCommentInsert, plan.commentPlans));
    RunAddsOwnRows(x.i.issues, companyId, Documented(t, NO_COUNTS), plans, |plans|);
    RunEnds(x.i.issues, companyId, Documented(t, NO_COUNTS), plans);
    AttachmentsKept(storages, x.i.issues, companyId, Attached(t, storage, 0, 0),
                    Keep(IsAttachmentInsert, plan.attachmentPlans));
  }

  /** What a merge may change of what was there are documents and links, of any company, and the tables before it
      decide which: without squatters, a plan that finds its slot free, as the first for it, leaves its document as
      planned; every other document stays as it was, and each keeps its company and its origin. */
  lemma ApplyDecidesDocuments(storages: Storages, t: Tables, storage: TargetStorage, companyId: string, prefix: string,
                              plan: Plan, d: string)
    requires Apply(storages, t, storage, companyId, prefix, plan).Done?
    requires DistinctPlans(DocumentCandidates(plan)) && NoSquatters(t.links, DocumentCandidates(plan))
    ensures var u := Apply(storages, t, storage, companyId, prefix, plan).state.tables;
            var plans, s, v := DocumentCandidates(plan), Documented(t, NO_COUNTS), Documented(u, NO_COUNTS);
            && (d in s.documents ==> d in v.documents && SameOrigin(s.documents[d], v.documents[d]))
            && (forall j :: 0 <= j < |plans| && plans[j].documentId == d ==>
                   Moves(u.issues, companyId, t.links, plans, j) ==> Placed(v, plans[j]))
            && ((forall j :: 0 <= j < |plans| && plans[j].documentId == d ==>
                   !Moves(u.issues, companyId, t.links, plans, j)) ==> Unchanged(s, v, d))
  {
    var x := GoneThrough(storages, t, storage, companyId, prefix, plan);
    DocumentsOf(storages, t, storage, companyId, prefix, plan, x);
    var plans, s := DocumentCandidates(plan), Documented(t, NO_COUNTS);
    var v := Documented(Assembled(x.p, x.i, x.c, x.d, x.a).tables, NO_COUNTS);
    hide Apply, Run, DistinctPlans, NoSquatters, Moves, WentThrough, DocumentCandidates;
    DocumentDecided(x.i.issues, companyId, s, plans, d);
    CountsAside(s, x.d, v, d);
    forall j | 0 <= j < |plans| && plans[j].documentId == d && Moves(x.i.issues, companyId, t.links, plans, j)
      ensures Placed(v, plans[j])
    {
      PlanDecided(x.i.issues, companyId, s, plans, j);
      PlacedAside(x.d, v, plans[j]);
    }
    hide Placed, Unchanged;
  }

  lemma CountsAside(s: DocState, t: DocState, v: DocState, d: string)
    requires SameTables(t, v)
    ensures Unchanged(s, t, d) ==> Unchanged(s, v, d)
  {
    hide RevisionsOf;
  }

  lemma PlacedAside(t: DocState, v: DocState, plan: DocumentPlan)
    requires SameTables(t, v) && Placed(t, plan)
    ensures Placed(v, plan)
  {
  }

  // ---------- applying the plan again ----------

  /** The report of a run that inserts nothing. */
  ghost predicate InsertsNothing(r: Report) {
    && r.insertedProjects == 0 && r.insertedProjectWorkspaces == 0 && r.insertedIssues == 0 && r.insertedComments == 0
    && r.documents.insertedDocuments == 0 && r.documents.insertedRevisions == 0 && r.insertedAttachments == 0
    && r.insertedIssueIdentifiers == map[]
  }

  /** All parts but the documents find everything there. */
  lemma OtherPartsAgain(storages: Storages, t: Tables, storage: TargetStorage, companyId: string, prefix: string,
                        plan: Plan, x: Parts)
    returns (missing: nat)
    requires WentThrough(storages, t, storage, companyId, prefix, plan, x)
    ensures var u := Assembled(x.p, x.i, x.c, x.d, x.a).tables;
            && ImportProjects(companyId, ProjectPart(u), plan.projectImports) == Done(ProjectPart(u))
            && ImportIssues(u.companies, u.issues, companyId, prefix, plan.issuePlans)
               == Done(IssueResult(u.companies, u.issues, map[], 0))
            && ImportComments(u.issues, companyId, u.comments, plan.commentPlans) == Done(CommentState(u.comments, 0))
            && ImportAttachments(storages, u.issues, companyId, Attached(u, x.a.storage, 0, 0), plan.attachmentPlans)
               == Done(Attached(u, x.a.storage, 0, missing))
  {
    hide RunProjects, Run, RunComments, RunAttachments, ImportProjects, ImportIssues, Keep, OfCompany;
    ProjectsAgain(companyId, ProjectPart(t), plan.projectImports);
    ImportAgain(t.companies, t.issues, companyId, prefix, plan.issuePlans);
    CommentsAgain(x.i.issues, companyId, t.comments, Keep(IsCommentInsert, plan.commentPlans));
    var attachments := Keep(IsAttachmentInsert, plan.attachmentPlans);
    AttachmentsAgain(storages, x.i.issues, companyId, Attached(t, storage, 0, 0), attachments);
    missing := MissingCount(storages, x.i.issues, companyId, OfCompany(x.a.attachments, companyId), attachments);
  }

  /** Applying the same plan again, with the same storages, leaves every table, the issue counter and the target
      storage as the first run left them exactly when every planned document with a parent issue then finds its slot
      occupied; and then the second run inserts nothing. */
  lemma ApplyTwice(storages: Storages, t: Tables, storage: TargetStorage, companyId: string, prefix: string, plan: Plan)
    requires Apply(storages, t, storage, companyId, prefix, plan).Done?
    requires SoundDocuments(Documented(t, NO_COUNTS)) && DistinctPlans(DocumentCandidates(plan))
    ensures var first := Apply(storages, t, storage, companyId, prefix, plan).state;
            var again := Apply(storages, first.tables, first.storage, companyId, prefix, plan);
            var settled := AllOccupied(first.tables.issues, companyId, first.tables.links, DocumentCandidates(plan));
            && (again.Done? && again.state.tables == first.tables && again.state.storage == first.storage <==> settled)
            && (settled ==> InsertsNothing(again.state.report))
  {
    hide Apply, AllOccupied, SoundDocuments, DistinctPlans, WentThrough, Run;
    var x := GoneThrough(storages, t, storage, companyId, prefix, plan);
    var first := Assembled(x.p, x.i, x.c, x.d, x.a);
    var missing := OtherPartsAgain(storages, t, storage, companyId, prefix, plan, x);
    var plans := DocumentCandidates(plan);
    DocumentsOf(storages, t, storage, companyId, prefix, plan, x);
    MergeTwice(x.i.issues, companyId, Documented(t, NO_COUNTS), plans);
    SecondRun(storages, first, companyId, prefix, plan, missing);
  }

  lemma DocumentsOf(storages: Storages, t: Tables, storage: TargetStorage, companyId: string, prefix: string,
                    plan: Plan, x: Parts)
    requires WentThrough(storages, t, storage, companyId, prefix, plan, x)
    ensures Run(x.i.issues, companyId, Documented(t, NO_COUNTS), DocumentCandidates(plan)) == Done(x.d)
  {
    hide ImportProjects, ImportIssues, ImportComments, ImportAttachments, Fold;
  }

  /** With the other parts doing nothing, the second run is that of the documents. */
  lemma SecondRun(storages: Storages, first: Target, companyId: string, prefix: string, plan: Plan, missing: nat)
    requires ImportProjects(companyId, ProjectPart(first.tables), plan.projectImports)
             == Done(ProjectPart(first.tables))
    requires ImportIssues(first.tables.companies, first.tables.issues, companyId, prefix, plan.issuePlans)
             == Done(IssueResult(first.tables.companies, first.tables.issues, map[], 0))
    requires ImportComments(first.tables.issues, companyId, first.tables.comments, plan.commentPlans)
             == Done(CommentState(first.tables.comments, 0))
    requires ImportAttachments(storages, first.tables.issues, companyId, Attached(first.tables, first.storage, 0, 0),
                               plan.attachmentPlans)
             == Done(Attached(first.tables, first.storage, 0, missing))
    ensures var again := Apply(storages, first.tables, first.storage, companyId, prefix, plan);
            var documents := Run(first.tables.issues, companyId, Documented(first.tables, NO_COUNTS),
                                 DocumentCandidates(plan));
            && again.Done? == documents.Done?
            && (again.Done? ==>
                  && again.state.storage == first.storage
                  && again.state.tables
                     == first.tables.(documents := documents.state.documents, links := documents.state.links,
                                                         revisions := documents.state.revisions)
                  && again.state.report
                     == NO_REPORT.(documents := documents.state.counts, skippedMissingAttachmentObjects := missing))
  {
    hide ImportProjects, ImportIssues, ImportComments, ImportAttachments, Fold;
  }

  /** In particular when, before the first run, no planned document is on the slot of another planned document. */
  lemma NoSquattersApplyOnce(storages: Storages, t: Tables, storage: TargetStorage, companyId: string, prefix: string,
                             plan: Plan)
    requires Apply(storages, t, storage, companyId, prefix, plan).Done?
    requires SoundDocuments(Documented(t, NO_COUNTS)) && DistinctPlans(DocumentCandidates(plan))
    requires NoSquatters(t.links, DocumentCandidates(plan))
    ensures var first := Apply(storages, t, storage, companyId, prefix, plan).state;
            var again := Apply(storages, first.tables, first.storage, companyId, prefix, plan);
            again.Done? && again.state.tables == first.tables && again.state.storage == first.storage
            && InsertsNothing(again.state.report)
  {
    hide Apply, SoundDocuments, DistinctPlans, WentThrough, Run, InsertsNothing, NoSquatters, HasParent, Occupied;
    var x := GoneThrough(storages, t, storage, companyId, prefix, plan);
    var plans := DocumentCandidates(plan);
    DocumentsOf(storages, t, storage, companyId, prefix, plan, x);
    forall p | p in plans && HasParent(x.i.issues, companyId, p.issueId)
      ensures Occupied(x.d.links, p)
    {
      var j :| 0 <= j < |plans| && plans[j] == p;
      SlotFilled(x.i.issues, companyId, Documented(t, NO_COUNTS), plans, j);
    }
    ApplyTwice(storages, t, storage, companyId, prefix, plan);
  }
}
