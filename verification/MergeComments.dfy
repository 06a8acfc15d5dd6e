/** cli/src/commands/worktree.ts, the comment loop of `applyMergePlan`. */
module MergeComments {
  import opened Text
  import opened MergeSteps
  import opened MergeIssues

  datatype Comment = Comment(companyId: string, issueId: string, authorAgentId: Option<string>,
                             copied: seq<Option<string>>)

  datatype CommentPlan =
    | InsertComment(id: string, issueId: string, targetAuthorAgentId: Option<string>, copied: seq<Option<string>>)
    | LeaveComment(id: string, issueId: string)

  type Comments = map<string, Comment>

  datatype CommentState = CommentState(comments: Comments, insertedComments: nat)

  predicate IsCommentInsert(plan: CommentPlan) {
    plan.InsertComment?
  }

  function ImportedComment(companyId: string, plan: CommentPlan): Comment
    requires plan.InsertComment?
  {
    Comment(companyId, plan.issueId, plan.targetAuthorAgentId, plan.copied)
  }

  /** A plan that is not skipped: a new comment on an issue of this company. */
  predicate Imports(issues: Issues, companyId: string, existing: set<string>, plan: CommentPlan) {
    plan.InsertComment? && plan.id !in existing && HasParent(issues, companyId, plan.issueId)
  }

  function CommentStep(issues: Issues, companyId: string, existing: set<string>, s: CommentState,
                       plan: CommentPlan): Outcome<CommentState> {
    if plan.LeaveComment? || plan.id in existing then Done(s)
    else if !HasParent(issues, companyId, plan.issueId) then Done(s)
    else if plan.id in s.comments then Aborted(s)
    else Done(CommentState(s.comments[plan.id := ImportedComment(companyId, plan)], s.insertedComments + 1))
  }

  function AddingComments(issues: Issues, companyId: string, existing: set<string>): (CommentState,
                          CommentPlan) -> Outcome<CommentState> {
    (s, plan) => CommentStep(issues, companyId, existing, s, plan)
  }

  function RunComments(issues: Issues, companyId: string, comments: Comments,
                       plans: seq<CommentPlan>): Outcome<CommentState> {
    Fold(AddingComments(issues, companyId, comments.Keys), CommentState(comments, 0), plans)
  }

  /** The comment part of the transaction. */
  function ImportComments(issues: Issues, companyId: string, comments: Comments,
                          plans: seq<CommentPlan>): Outcome<CommentState> {
    RunComments(issues, companyId, comments, Keep(IsCommentInsert, plans))
  }

  /** The ids of the plans that are not skipped. */
  function ImportedIds(issues: Issues, companyId: string, existing: set<string>, plans: seq<CommentPlan>): set<string> {
    set p | p in plans && Imports(issues, companyId, existing, p) :: p.id
  }

  /** No two plans that are not skipped are for one comment. */
  ghost predicate OnePlanEach(issues: Issues, companyId: string, existing: set<string>, plans: seq<CommentPlan>) {
    forall i, j :: 0 <= i < j < |plans|
                   && Imports(issues, companyId, existing, plans[i])
                   && Imports(issues, companyId, existing, plans[j])
                   ==> plans[i].id != plans[j].id
  }

  ghost predicate RowsAsPlanned(issues: Issues, companyId: string, existing: set<string>, plans: seq<CommentPlan>,
                                comments: Comments) {
    forall p :: p in plans && Imports(issues, companyId, existing, p) ==>
      p.id in comments && comments[p.id] == ImportedComment(companyId, p)
  }

  /** Exactly the comments that are not skipped have come in, each as planned; no other row has changed. */
  ghost predicate CommentsCameIn(issues: Issues, companyId: string, before: Comments, plans: seq<CommentPlan>,
                                 s: CommentState) {
    && s.comments.Keys == before.Keys + ImportedIds(issues, companyId, before.Keys, plans)
    && (forall id :: id in before ==> s.comments[id] == before[id])
    && RowsAsPlanned(issues, companyId, before.Keys, plans, s.comments)
    && s.insertedComments == |ImportedIds(issues, companyId, before.Keys, plans)|
  }

  lemma ImportedIdsNext(issues: Issues, companyId: string, existing: set<string>, plans: seq<CommentPlan>,
                        plan: CommentPlan)
    ensures ImportedIds(issues, companyId, existing, plans + [plan])
            == ImportedIds(issues, companyId, existing, plans)
               + (if Imports(issues, companyId, existing, plan) then {plan.id} else {})
  {
  }

  lemma PlanOfId(issues: Issues, companyId: string, existing: set<string>, plans: seq<CommentPlan>, id: string)
    returns (j: nat)
    requires id in ImportedIds(issues, companyId, existing, plans)
    ensures j < |plans| && Imports(issues, companyId, existing, plans[j]) && plans[j].id == id
  {
    j :| j < |plans| && Imports(issues, companyId, existing, plans[j]) && plans[j].id == id;
  }

  lemma OnePlanNext(issues: Issues, companyId: string, existing: set<string>, plans: seq<CommentPlan>,
                    plan: CommentPlan)
    ensures OnePlanEach(issues, companyId, existing, plans + [plan]) <==>
              OnePlanEach(issues, companyId, existing, plans)
              && (Imports(issues, companyId, existing, plan) ==>
                    plan.id !in ImportedIds(issues, companyId, existing, plans))
  {
    hide Imports;
    var more := plans + [plan];
    if OnePlanEach(issues, companyId, existing, more) {
      forall i, j | 0 <= i < j < |plans|
                    && Imports(issues, companyId, existing, plans[i])
                    && Imports(issues, companyId, existing, plans[j])
        ensures plans[i].id != plans[j].id
      {
        assert more[i] == plans[i] && more[j] == plans[j];
      }
      forall j | 0 <= j < |plans|
                 && Imports(issues, companyId, existing, plans[j])
                 && Imports(issues, companyId, existing, plan)
        ensures plans[j].id != plan.id
      {
        assert more[j] == plans[j] && more[|plans|] == plan;
      }
    }
  }

  lemma CommentStepGoes(issues: Issues, companyId: string, before: Comments, plans: seq<CommentPlan>, s: CommentState,
                        plan: CommentPlan)
    requires CommentsCameIn(issues, companyId, before, plans, s)
    ensures CommentStep(issues, companyId, before.Keys, s, plan).Done? <==>
              (Imports(issues, companyId, before.Keys, plan) ==>
                 plan.id !in ImportedIds(issues, companyId, before.Keys, plans))
    ensures CommentStep(issues, companyId, before.Keys, s, plan).Done? ==>
              CommentStep(issues, companyId, before.Keys, s, plan).state
              == if Imports(issues, companyId, before.Keys, plan) then
                   CommentState(s.comments[plan.id := ImportedComment(companyId, plan)], s.insertedComments + 1) else s
  {
    hide HasParent, ImportedIds, ImportedComment;
  }

  lemma OneMoreComment(issues: Issues, companyId: string, before: Comments, plans: seq<CommentPlan>, s: CommentState,
                       plan: CommentPlan)
    requires CommentsCameIn(issues, companyId, before, plans, s)
    requires Imports(issues, companyId, before.Keys, plan)
    requires plan.id !in ImportedIds(issues, companyId, before.Keys, plans)
    ensures CommentsCameIn(issues, companyId, before, plans + [plan],
                           CommentState(s.comments[plan.id := ImportedComment(companyId, plan)],
                                        s.insertedComments + 1))
  {
    hide ImportedIds, ImportedComment, RowsAsPlanned, HasParent;
    assert plan.id !in before;
    hide Imports;
    ImportedIdsNext(issues, companyId, before.Keys, plans, plan);
    NextRowAsPlanned(issues, companyId, before.Keys, plans, s.comments, plan);
    OneMoreKey(s.comments, before, ImportedIds(issues, companyId, before.Keys, plans), plan.id,
               ImportedComment(companyId, plan));
  }

  lemma OneMoreKey(comments: Comments, before: Comments, ids: set<string>, id: string, row: Comment)
    requires comments.Keys == before.Keys + ids && id !in before && id !in ids
    ensures comments[id := row].Keys == before.Keys + (ids + {id})
    ensures |ids + {id}| == |ids| + 1
  {
  }

  lemma NextRowAsPlanned(issues: Issues, companyId: string, existing: set<string>, plans: seq<CommentPlan>,
                         comments: Comments, plan: CommentPlan)
    requires RowsAsPlanned(issues, companyId, existing, plans, comments)
    requires Imports(issues, companyId, existing, plan) && plan.id !in ImportedIds(issues, companyId, existing, plans)
    ensures RowsAsPlanned(issues, companyId, existing, plans + [plan],
                          comments[plan.id := ImportedComment(companyId, plan)])
  {
    hide ImportedIds, ImportedComment, HasParent;
    forall p | p in plans && Imports(issues, companyId, existing, p)
      ensures p.id != plan.id
    {
      IdOfPlan(issues, companyId, existing, plans, p);
    }
    assert forall p :: p in plans + [plan] <==> p in plans || p == plan;
  }

  lemma IdOfPlan(issues: Issues, companyId: string, existing: set<string>, plans: seq<CommentPlan>, plan: CommentPlan)
    requires plan in plans && Imports(issues, companyId, existing, plan)
    ensures plan.id in ImportedIds(issues, companyId, existing, plans)
  {
  }

  lemma SkippedComment(issues: Issues, companyId: string, before: Comments, plans: seq<CommentPlan>, s: CommentState,
                       plan: CommentPlan)
    requires CommentsCameIn(issues, companyId, before, plans, s) && !Imports(issues, companyId, before.Keys, plan)
    ensures CommentsCameIn(issues, companyId, before, plans + [plan], s)
  {
    hide Imports, RowsAsPlanned, ImportedIds;
    ImportedIdsNext(issues, companyId, before.Keys, plans, plan);
    SkippedAsPlanned(issues, companyId, before.Keys, plans, s.comments, plan);
  }

  lemma SkippedAsPlanned(issues: Issues, companyId: string, existing: set<string>, plans: seq<CommentPlan>,
                         comments: Comments, plan: CommentPlan)
    requires RowsAsPlanned(issues, companyId, existing, plans, comments) && !Imports(issues, companyId, existing, plan)
    ensures RowsAsPlanned(issues, companyId, existing, plans + [plan], comments)
  {
    hide Imports, ImportedComment;
    assert forall p :: p in plans + [plan] <==> p in plans || p == plan;
  }

  lemma CommentStepOutcome(issues: Issues, companyId: string, before: Comments, plans: seq<CommentPlan>,
                           s: CommentState, plan: CommentPlan)
    requires CommentsCameIn(issues, companyId, before, plans, s)
    ensures var outcome := CommentStep(issues, companyId, before.Keys, s, plan);
            && (outcome.Done? <==>
                  (Imports(issues, companyId, before.Keys, plan) ==>
                     plan.id !in ImportedIds(issues, companyId, before.Keys, plans)))
            && (outcome.Done? ==> CommentsCameIn(issues, companyId, before, plans + [plan], outcome.state))
  {
    CommentStepGoes(issues, companyId, before, plans, s, plan);
    hide CommentStep, CommentsCameIn, ImportedIds, ImportedComment, HasParent;
    if !Imports(issues, companyId, before.Keys, plan) {
      SkippedComment(issues, companyId, before, plans, s, plan);
    } else if plan.id !in ImportedIds(issues, companyId, before.Keys, plans) {
      OneMoreComment(issues, companyId, before, plans, s, plan);
    }
  }

  /** The comments come in exactly when no two of the plans that are not skipped are for one comment, and then exactly
      those comments come in. */
  lemma {:induction false} CommentsOutcome(issues: Issues, companyId: string, before: Comments, plans: seq<CommentPlan>)
    ensures var outcome := RunComments(issues, companyId, before, plans);
            && (outcome.Done? <==> OnePlanEach(issues, companyId, before.Keys, plans))
            && (outcome.Done? ==> CommentsCameIn(issues, companyId, before, plans, outcome.state))
  {
    hide CommentStep, Imports, CommentsCameIn, OnePlanEach;
    if |plans| == 0 {
      NoCommentsYet(issues, companyId, before);
    } else {
      var front, last := plans[..|plans| - 1], plans[|plans| - 1];
      assert plans == front + [last];
      CommentsOutcome(issues, companyId, before, front);
      OnePlanNext(issues, companyId, before.Keys, front, last);
      var soFar := RunComments(issues, companyId, before, front);
      if soFar.Done? {
        CommentStepOutcome(issues, companyId, before, front, soFar.state, last);
      }
    }
  }

  lemma NoCommentsYet(issues: Issues, companyId: string, before: Comments)
    ensures CommentsCameIn(issues, companyId, before, [], CommentState(before, 0))
    ensures OnePlanEach(issues, companyId, before.Keys, [])
  {
  }

  /** Every comment of the import is on an issue of its own company. */
  lemma CommentsParented(issues: Issues, companyId: string, before: Comments, plans: seq<CommentPlan>)
    requires RunComments(issues, companyId, before, plans).Done?
    ensures var t := RunComments(issues, companyId, before, plans).state.comments;
            forall id :: id in t && id !in before ==>
              t[id].companyId == companyId && HasParent(issues, companyId, t[id].issueId)
  {
    CommentsOutcome(issues, companyId, before, plans);
    hide RunComments, HasParent, ImportedIds;
    var t := RunComments(issues, companyId, before, plans).state.comments;
    assert RowsAsPlanned(issues, companyId, before.Keys, plans, t);
    forall id | id in t && id !in before
      ensures t[id].companyId == companyId && HasParent(issues, companyId, t[id].issueId)
    {
      var j := PlanOfId(issues, companyId, before.Keys, plans, id);
      assert plans[j] in plans;
    }
  }

  /** A second run finds every comment there, or its issue still missing, and does nothing. */
  lemma CommentsAgain(issues: Issues, companyId: string, before: Comments, plans: seq<CommentPlan>)
    requires RunComments(issues, companyId, before, plans).Done?
    ensures var t := RunComments(issues, companyId, before, plans).state.comments;
            RunComments(issues, companyId, t, plans) == Done(CommentState(t, 0))
  {
    CommentsOutcome(issues, companyId, before, plans);
    hide RunComments, HasParent, ImportedIds, ImportedComment;
    var t := RunComments(issues, companyId, before, plans).state.comments;
    forall p | p in plans
      ensures !Imports(issues, companyId, t.Keys, p)
    {
      if p.InsertComment? && HasParent(issues, companyId, p.issueId) {
        assert p.id in before || Imports(issues, companyId, before.Keys, p);
      }
    }
    AllSkipped(issues, companyId, t, plans);
  }

  lemma {:induction false} AllSkipped(issues: Issues, companyId: string, comments: Comments, plans: seq<CommentPlan>)
    requires forall p :: p in plans ==> !Imports(issues, companyId, comments.Keys, p)
    ensures RunComments(issues, companyId, comments, plans) == Done(CommentState(comments, 0))
  {
    if |plans| > 0 {
      AllSkipped(issues, companyId, comments, plans[..|plans| - 1]);
      assert !Imports(issues, companyId, comments.Keys, plans[|plans| - 1]);
    }
  }
}
