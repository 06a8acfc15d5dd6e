/** cli/src/commands/worktree.ts, the document loop of `applyMergePlan`: documents, their links to issues and their
    revisions. A planned document is put on its issue under its key, unless another document is there. */
module MergeDocuments {
  import opened Text
  import opened MergeSteps
  import opened MergeIssues

  /** The columns a merge overwrites. */
  datatype Content = Content(
    title: Option<string>, format: string, latestBody: string, latestRevisionId: Option<string>,
    latestRevisionNumber: nat, updatedByAgentId: Option<string>, updatedByUserId: Option<string>, updatedAt: int)

  /** The columns only an insert writes. */
  datatype Origin = Origin(createdByAgentId: Option<string>, createdByUserId: Option<string>, createdAt: int)

  datatype Document = Document(companyId: string, content: Content, origin: Origin)

  /** A row of the link table, which has at most one row a document. */
  datatype Link = Link(id: string, companyId: string, issueId: string, key: string, createdAt: int, updatedAt: int)

  datatype RevisionText = RevisionText(
    body: string, changeSummary: Option<string>, createdByAgentId: Option<string>, createdByUserId: Option<string>,
    createdAt: int)

  datatype Revision = Revision(companyId: string, documentId: string, revisionNumber: int, text: RevisionText)

  datatype RevisionPlan = RevisionPlan(id: string, targetRevisionNumber: int, text: RevisionText)

  datatype Action = Insert | MergeExisting | Leave

  datatype DocumentPlan = DocumentPlan(
    action: Action, documentId: string, issueId: string, key: string, linkId: string, linkCreatedAt: int,
    linkUpdatedAt: int, content: Content, origin: Origin, revisionsToInsert: seq<RevisionPlan>)

  type Documents = map<string, Document>
  type Links = map<string, Link>
  type Revisions = map<string, Revision>

  datatype DocumentCounts = DocumentCounts(insertedDocuments: nat, mergedDocuments: nat, insertedRevisions: nat)

  datatype DocState = DocState(documents: Documents, links: Links, revisions: Revisions, counts: DocumentCounts)

  datatype RevState = RevState(revisions: Revisions, inserted: nat)

  // ---------- one planned document ----------

  predicate At(link: Link, issueId: string, key: string) {
    link.issueId == issueId && link.key == key
  }

  /** Another document is on the planned issue under the planned key. */
  predicate Taken(links: Links, plan: DocumentPlan) {
    exists d :: d in links && d != plan.documentId && At(links[d], plan.issueId, plan.key)
  }

  predicate Applies(issues: Issues, companyId: string, links: Links, plan: DocumentPlan) {
    HasParent(issues, companyId, plan.issueId) && !Taken(links, plan)
  }

  /** Primary key of the link table, and one link a document; that the slot is free has been checked before. */
  predicate AdmitsLink(links: Links, plan: DocumentPlan) {
    plan.documentId !in links && forall d :: d in links ==> links[d].id != plan.linkId
  }

  function PlannedLink(companyId: string, plan: DocumentPlan): Link {
    Link(plan.linkId, companyId, plan.issueId, plan.key, plan.linkCreatedAt, plan.linkUpdatedAt)
  }

  function MovedLink(link: Link, plan: DocumentPlan): Link {
    link.(issueId := plan.issueId, key := plan.key, updatedAt := plan.linkUpdatedAt)
  }

  /** The document row and its link: both inserted, or the link inserted or moved and the row overwritten. */
  function Place(companyId: string, s: DocState, plan: DocumentPlan): Outcome<DocState> {
    var d := plan.documentId;
    if d !in s.documents then
      if AdmitsLink(s.links, plan) then
        Done(DocState(s.documents[d := Document(companyId, plan.content, plan.origin)],
                      s.links[d := PlannedLink(companyId, plan)], s.revisions,
                      s.counts.(insertedDocuments := s.counts.insertedDocuments + 1)))
      else Aborted(s)
    else if d !in s.links && !AdmitsLink(s.links, plan) then Aborted(s)
    else
      Done(DocState(s.documents[d := s.documents[d].(content := plan.content)],
                    s.links[d := if d in s.links then MovedLink(s.links[d], plan) else PlannedLink(companyId, plan)],
                    s.revisions, s.counts.(mergedDocuments := s.counts.mergedDocuments + 1)))
  }

  function RevisionsOf(revisions: Revisions, documentId: string): set<string> {
    set r | r in revisions && revisions[r].documentId == documentId
  }

  /** Primary key, and one revision a number and document. */
  predicate AdmitsRevision(revisions: Revisions, documentId: string, plan: RevisionPlan) {
    plan.id !in revisions
    && forall r :: r in revisions ==>
         !(revisions[r].documentId == documentId && revisions[r].revisionNumber == plan.targetRevisionNumber)
  }

  function RevisionStep(companyId: string, documentId: string, existing: set<string>, s: RevState,
                        plan: RevisionPlan): Outcome<RevState> {
    if plan.id in existing then Done(s)
    else if AdmitsRevision(s.revisions, documentId, plan) then
      Done(RevState(s.revisions[plan.id := Revision(companyId, documentId, plan.targetRevisionNumber, plan.text)],
                    s.inserted + 1))
    else Aborted(s)
  }

  function AddingRevisions(companyId: string, documentId: string, existing: set<string>): (RevState,
                           RevisionPlan) -> Outcome<RevState> {
    (s, plan) => RevisionStep(companyId, documentId, existing, s, plan)
  }

  function AddRevisions(companyId: string, revisions: Revisions, plan: DocumentPlan): Outcome<RevState> {
    Fold(AddingRevisions(companyId, plan.documentId, RevisionsOf(revisions, plan.documentId)),
         RevState(revisions, 0), plan.revisionsToInsert)
  }

  function WithRevisions(s: DocState, r: RevState): DocState {
    s.(revisions := r.revisions, counts := s.counts.(insertedRevisions := s.counts.insertedRevisions + r.inserted))
  }

  function DocumentStep(issues: Issues, companyId: string, s: DocState, plan: DocumentPlan): Outcome<DocState> {
    if !HasParent(issues, companyId, plan.issueId) then Done(s)
    else if Taken(s.links, plan) then Done(s)
    else
      match Place(companyId, s, plan)
      case Aborted(t) => Aborted(t)
      case Done(t) =>
        match AddRevisions(companyId, t.revisions, plan)
        case Aborted(r) => Aborted(WithRevisions(t, r))
        case Done(r) => Done(WithRevisions(t, r))
  }

  function AddingDocuments(issues: Issues, companyId: string): (DocState, DocumentPlan) -> Outcome<DocState> {
    (s, plan) => DocumentStep(issues, companyId, s, plan)
  }

  predicate IsDocumentCandidate(plan: DocumentPlan) {
    plan.action.Insert? || plan.action.MergeExisting?
  }

  /** The document part of the transaction. */
  function ImportDocuments(issues: Issues, companyId: string, s: DocState,
                           plans: seq<DocumentPlan>): Outcome<DocState> {
    Fold(AddingDocuments(issues, companyId), s, Keep(IsDocumentCandidate, plans))
  }

  // ---------- the revision loop ----------

  predicate SameRevision(a: Revision, b: Revision) {
    a.documentId == b.documentId && a.revisionNumber == b.revisionNumber
  }

  ghost predicate RevisionsUnique(revisions: Revisions) {
    forall r, q :: r in revisions && q in revisions && SameRevision(revisions[r], revisions[q]) ==> r == q
  }

  /** Rows are only added, and only for this document. */
  ghost predicate RevisionsGrow(companyId: string, documentId: string, before: Revisions, after: Revisions) {
    && (forall r :: r in before ==> r in after && after[r] == before[r])
    && forall r :: r in after && r !in before ==> after[r].documentId == documentId && after[r].companyId == companyId
  }

  ghost predicate HasRevisions(revisions: Revisions, documentId: string, plans: seq<RevisionPlan>) {
    forall p :: p in plans ==> p.id in revisions && revisions[p.id].documentId == documentId
  }

  lemma RevisionStepEffect(companyId: string, documentId: string, before: Revisions, s: RevState, plan: RevisionPlan,
                           t: RevState)
    requires RevisionStep(companyId, documentId, RevisionsOf(before, documentId), s, plan) == Done(t)
    requires RevisionsGrow(companyId, documentId, before, s.revisions)
    ensures RevisionsGrow(companyId, documentId, before, t.revisions)
    ensures RevisionsGrow(companyId, documentId, s.revisions, t.revisions)
    ensures plan.id in t.revisions && t.revisions[plan.id].documentId == documentId
    ensures RevisionsUnique(s.revisions) ==> RevisionsUnique(t.revisions)
  {
  }

  lemma {:induction false} RevisionLoop(companyId: string, documentId: string, before: Revisions,
                                        plans: seq<RevisionPlan>, i: nat)
    requires i <= |plans|
    ensures var outcome := Fold(AddingRevisions(companyId, documentId, RevisionsOf(before, documentId)),
                                RevState(before, 0), plans[..i]);
            outcome.Done? ==>
              && RevisionsGrow(companyId, documentId, before, outcome.state.revisions)
              && HasRevisions(outcome.state.revisions, documentId, plans[..i])
              && (RevisionsUnique(before) ==> RevisionsUnique(outcome.state.revisions))
  {
    hide RevisionStep, RevisionsUnique, RevisionsOf;
    var step := AddingRevisions(companyId, documentId, RevisionsOf(before, documentId));
    if i > 0 {
      RevisionLoop(companyId, documentId, before, plans, i - 1);
      FoldNext(step, RevState(before, 0), plans, i - 1);
      var soFar, now := Fold(step, RevState(before, 0), plans[..i - 1]), Fold(step, RevState(before, 0), plans[..i]);
      if soFar.Done? && now.Done? {
        RevisionStepEffect(companyId, documentId, before, soFar.state, plans[i - 1], now.state);
        assert plans[..i] == plans[..i - 1] + [plans[i - 1]];
      }
    }
  }

  lemma RevisionsAdded(companyId: string, revisions: Revisions, plan: DocumentPlan)
    requires AddRevisions(companyId, revisions, plan).Done?
    ensures var r := AddRevisions(companyId, revisions, plan).state.revisions;
            && RevisionsGrow(companyId, plan.documentId, revisions, r)
            && HasRevisions(r, plan.documentId, plan.revisionsToInsert)
            && (RevisionsUnique(revisions) ==> RevisionsUnique(r))
  {
    var plans := plan.revisionsToInsert;
    RevisionLoop(companyId, plan.documentId, revisions, plans, |plans|);
    assert plans[..|plans|] == plans;
  }

  /** Revisions the document has already are skipped. */
  lemma {:induction false} RevisionsThere(companyId: string, documentId: string, revisions: Revisions,
                                          plans: seq<RevisionPlan>)
    requires HasRevisions(revisions, documentId, plans)
    ensures Fold(AddingRevisions(companyId, documentId, RevisionsOf(revisions, documentId)), RevState(revisions, 0),
                 plans)
            == Done(RevState(revisions, 0))
  {
    if |plans| > 0 {
      RevisionsThere(companyId, documentId, revisions, plans[..|plans| - 1]);
      assert plans[|plans| - 1] in plans;
    }
  }

  // ---------- one step of the document loop ----------

  /** The document is on the planned issue under the planned key, reads as planned and has the planned revisions. */
  ghost predicate Placed(s: DocState, plan: DocumentPlan) {
    var d := plan.documentId;
    && d in s.documents && s.documents[d].content == plan.content
    && d in s.links && At(s.links[d], plan.issueId, plan.key) && s.links[d].updatedAt == plan.linkUpdatedAt
    && HasRevisions(s.revisions, d, plan.revisionsToInsert)
  }

  /** Every row of another document is as it was, and rows that were there keep what an insert alone writes. */
  ghost predicate OnlyTouches(companyId: string, documentId: string, s: DocState, t: DocState) {
    && (forall d :: d in s.documents ==> d in t.documents && SameOrigin(s.documents[d], t.documents[d]))
    && (forall d :: d in s.links ==> d in t.links && SameOwner(s.links[d], t.links[d]))
    && (forall d :: d != documentId ==> SameDocument(s, t, d))
    && RevisionsGrow(companyId, documentId, s.revisions, t.revisions)
  }

  ghost predicate SameOrigin(a: Document, b: Document) {
    a.companyId == b.companyId && a.origin == b.origin
  }

  ghost predicate SameOwner(a: Link, b: Link) {
    a.id == b.id && a.companyId == b.companyId
  }

  ghost predicate SameDocument(s: DocState, t: DocState, d: string) {
    && (d in s.documents <==> d in t.documents) && (d in s.documents ==> t.documents[d] == s.documents[d])
    && (d in s.links <==> d in t.links) && (d in s.links ==> t.links[d] == s.links[d])
  }

  lemma PlaceRows(companyId: string, s: DocState, plan: DocumentPlan, t: DocState)
    requires Place(companyId, s, plan) == Done(t)
    ensures t.revisions == s.revisions
    ensures var d := plan.documentId;
            && d in t.documents && d in t.links
            && t.documents == s.documents[d := t.documents[d]] && t.links == s.links[d := t.links[d]]
            && t.documents[d].content == plan.content
            && At(t.links[d], plan.issueId, plan.key) && t.links[d].updatedAt == plan.linkUpdatedAt
            && (if d in s.documents then SameOrigin(s.documents[d], t.documents[d])
                else t.documents[d] == Document(companyId, plan.content, plan.origin))
            && (if d in s.links then t.links[d].id == s.links[d].id && t.links[d].companyId == s.links[d].companyId
                else t.links[d] == PlannedLink(companyId, plan))
  {
  }

  lemma PlaceEffect(companyId: string, s: DocState, plan: DocumentPlan, t: DocState)
    requires Place(companyId, s, plan) == Done(t)
    ensures t.revisions == s.revisions && OnlyTouches(companyId, plan.documentId, s, t)
    ensures var d := plan.documentId;
            && d in t.documents && t.documents[d].content == plan.content
            && d in t.links && At(t.links[d], plan.issueId, plan.key) && t.links[d].updatedAt == plan.linkUpdatedAt
            && (d !in s.documents ==> t.documents[d] == Document(companyId, plan.content, plan.origin))
            && (d !in s.links ==> t.links[d] == PlannedLink(companyId, plan))
  {
    PlaceRows(companyId, s, plan, t);
    hide At, Place, PlannedLink, SameDocument, RevisionsGrow;
    forall d | d != plan.documentId
      ensures SameDocument(s, t, d)
    {
      SameBesides(s, t, plan.documentId, d);
    }
    NothingGrew(companyId, plan.documentId, s.revisions);
  }

  lemma SameBesides(s: DocState, t: DocState, documentId: string, d: string)
    requires documentId in t.documents && t.documents == s.documents[documentId := t.documents[documentId]]
    requires documentId in t.links && t.links == s.links[documentId := t.links[documentId]]
    requires d != documentId
    ensures SameDocument(s, t, d)
  {
  }

  lemma NothingGrew(companyId: string, documentId: string, revisions: Revisions)
    ensures RevisionsGrow(companyId, documentId, revisions, revisions)
  {
  }

  /** A planned document whose slot is free is placed, and nothing else is touched. */
  lemma StepPlaces(issues: Issues, companyId: string, s: DocState, plan: DocumentPlan, t: DocState)
    requires DocumentStep(issues, companyId, s, plan) == Done(t) && Applies(issues, companyId, s.links, plan)
    ensures Placed(t, plan) && OnlyTouches(companyId, plan.documentId, s, t)
    ensures var d := plan.documentId;
            && (d !in s.documents ==>
                  d in t.documents && t.documents[d] == Document(companyId, plan.content, plan.origin))
            && (d !in s.links ==> d in t.links && t.links[d] == PlannedLink(companyId, plan))
  {
    hide Place, AddRevisions, At, RevisionsUnique;
    var placed := Place(companyId, s, plan).state;
    PlaceEffect(companyId, s, plan, placed);
    RevisionsAdded(companyId, placed.revisions, plan);
    var r := AddRevisions(companyId, placed.revisions, plan).state;
    assert t == WithRevisions(placed, r);
    assert HasRevisions(t.revisions, plan.documentId, plan.revisionsToInsert);
    assert RevisionsGrow(companyId, plan.documentId, s.revisions, t.revisions);
    hide HasRevisions, RevisionsGrow;
    forall d | d != plan.documentId
      ensures SameDocument(s, t, d)
    {
      assert SameDocument(s, placed, d);
    }
  }

  /** Otherwise nothing at all happens. */
  lemma StepSkips(issues: Issues, companyId: string, s: DocState, plan: DocumentPlan)
    requires !Applies(issues, companyId, s.links, plan)
    ensures DocumentStep(issues, companyId, s, plan) == Done(s)
  {
  }

  lemma StepTouches(issues: Issues, companyId: string, s: DocState, plan: DocumentPlan, t: DocState)
    requires DocumentStep(issues, companyId, s, plan) == Done(t)
    ensures OnlyTouches(companyId, plan.documentId, s, t)
  {
    hide DocumentStep, Placed, Applies;
    if Applies(issues, companyId, s.links, plan) {
      StepPlaces(issues, companyId, s, plan, t);
    } else {
      StepSkips(issues, companyId, s, plan);
    }
  }

  /** A document that is as planned is not changed by its plan; only the merge is counted. */
  lemma PlacedAgain(issues: Issues, companyId: string, s: DocState, plan: DocumentPlan)
    requires Applies(issues, companyId, s.links, plan) && Placed(s, plan)
    ensures DocumentStep(issues, companyId, s, plan)
            == Done(s.(counts := s.counts.(mergedDocuments := s.counts.mergedDocuments + 1)))
  {
    RevisionsThere(companyId, plan.documentId, s.revisions, plan.revisionsToInsert);
    hide Fold, HasRevisions, Taken, HasParent;
    assert s.documents[plan.documentId := s.documents[plan.documentId].(content := plan.content)] == s.documents;
    assert MovedLink(s.links[plan.documentId], plan) == s.links[plan.documentId];
    assert s.links[plan.documentId := MovedLink(s.links[plan.documentId], plan)] == s.links;
  }

  // ---------- what every step keeps ----------

  /** One document a slot: no two documents are on one issue under one key. */
  ghost predicate SlotsUnique(links: Links) {
    forall d, e :: d in links && e in links && At(links[d], links[e].issueId, links[e].key) ==> d == e
  }

  ghost predicate LinkIdsUnique(links: Links) {
    forall d, e :: d in links && e in links && links[d].id == links[e].id ==> d == e
  }

  /** Links and revisions are of documents that are there. */
  ghost predicate NoOrphans(s: DocState) {
    && (forall d :: d in s.links ==> d in s.documents)
    && forall r :: r in s.revisions ==> s.revisions[r].documentId in s.documents
  }

  /** One document a slot, one link a document, one revision a number. */
  ghost predicate SoundDocuments(s: DocState) {
    SlotsUnique(s.links) && LinkIdsUnique(s.links) && RevisionsUnique(s.revisions) && NoOrphans(s)
  }

  lemma PlaceKeepsSlots(companyId: string, s: DocState, plan: DocumentPlan, t: DocState)
    requires Place(companyId, s, plan) == Done(t) && !Taken(s.links, plan)
    ensures SlotsUnique(s.links) ==> SlotsUnique(t.links)
    ensures NoOrphans(s) ==> NoOrphans(t)
  {
    PlaceRows(companyId, s, plan, t);
    hide Place, PlannedLink;
  }

  lemma PlaceKeepsIds(companyId: string, s: DocState, plan: DocumentPlan, t: DocState)
    requires Place(companyId, s, plan) == Done(t)
    ensures LinkIdsUnique(s.links) ==> LinkIdsUnique(t.links)
  {
    PlaceRows(companyId, s, plan, t);
    assert plan.documentId !in s.links ==> AdmitsLink(s.links, plan);
    hide Place, At;
  }

  lemma StepKeepsSound(issues: Issues, companyId: string, s: DocState, plan: DocumentPlan, t: DocState)
    requires DocumentStep(issues, companyId, s, plan) == Done(t)
    ensures SoundDocuments(s) ==> SoundDocuments(t)
  {
    if Applies(issues, companyId, s.links, plan) {
      var placed := Place(companyId, s, plan).state;
      PlaceEffect(companyId, s, plan, placed);
      PlaceKeepsSlots(companyId, s, plan, placed);
      PlaceKeepsIds(companyId, s, plan, placed);
      RevisionsAdded(companyId, placed.revisions, plan);
      hide Place, AddRevisions, At, RevisionsUnique, SlotsUnique, LinkIdsUnique, HasRevisions;
    }
  }
}
