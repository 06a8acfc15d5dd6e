/** Whole runs of the document loop: what they keep, and when running the same plan again changes nothing. */
module MergeDocumentRuns {
  import opened Text
  import opened MergeSteps
  import opened MergeIssues
  import opened MergeDocuments

  function Run(issues: Issues, companyId: string, s: DocState, plans: seq<DocumentPlan>): Outcome<DocState> {
    Fold(AddingDocuments(issues, companyId), s, plans)
  }

  function After(issues: Issues, companyId: string, s: DocState, plans: seq<DocumentPlan>, i: nat): DocState
    requires i <= |plans|
  {
    Run(issues, companyId, s, plans[..i]).state
  }

  /** No document is planned twice. */
  ghost predicate DistinctPlans(plans: seq<DocumentPlan>) {
    forall i, j :: 0 <= i < j < |plans| ==> plans[i].documentId != plans[j].documentId
  }

  lemma RunStarts(issues: Issues, companyId: string, s: DocState, plans: seq<DocumentPlan>)
    ensures After(issues, companyId, s, plans, 0) == s
  {
  }

  lemma RunEnds(issues: Issues, companyId: string, s: DocState, plans: seq<DocumentPlan>)
    ensures After(issues, companyId, s, plans, |plans|) == Run(issues, companyId, s, plans).state
  {
    assert plans[..|plans|] == plans;
  }

  lemma RunStep(issues: Issues, companyId: string, s: DocState, plans: seq<DocumentPlan>, i: nat)
    requires i < |plans| && Run(issues, companyId, s, plans).Done?
    ensures DocumentStep(issues, companyId, After(issues, companyId, s, plans, i), plans[i])
            == Done(After(issues, companyId, s, plans, i + 1))
  {
    hide DocumentStep;
    FoldPrefixDone(AddingDocuments(issues, companyId), s, plans, i);
    FoldPrefixDone(AddingDocuments(issues, companyId), s, plans, i + 1);
    FoldNext(AddingDocuments(issues, companyId), s, plans, i);
  }

  /** Every step, so every run, keeps the document tables sound. */
  lemma {:induction false} RunKeepsSound(issues: Issues, companyId: string, s: DocState, plans: seq<DocumentPlan>,
                                         i: nat)
    requires i <= |plans| && Run(issues, companyId, s, plans).Done? && SoundDocuments(s)
    ensures SoundDocuments(After(issues, companyId, s, plans, i))
  {
    hide DocumentStep, SoundDocuments, Run, After;
    if i == 0 {
      RunStarts(issues, companyId, s, plans);
    } else {
      RunKeepsSound(issues, companyId, s, plans, i - 1);
      RunStep(issues, companyId, s, plans, i - 1);
      StepKeepsSound(issues, companyId, After(issues, companyId, s, plans, i - 1), plans[i - 1],
                     After(issues, companyId, s, plans, i));
    }
  }

  /** No plan numbered from i up to k is for this document. */
  ghost predicate NotPlanned(plans: seq<DocumentPlan>, i: nat, k: nat, d: string)
    requires i <= k <= |plans|
  {
    forall m :: i <= m < k ==> plans[m].documentId != d
  }

  /** Only its own plan touches a document. */
  lemma {:induction false} Untouched(issues: Issues, companyId: string, s: DocState, plans: seq<DocumentPlan>, i: nat,
                                     k: nat, d: string)
    requires i <= k <= |plans| && Run(issues, companyId, s, plans).Done? && NotPlanned(plans, i, k, d)
    ensures SameDocument(After(issues, companyId, s, plans, i), After(issues, companyId, s, plans, k), d)
  {
    hide DocumentStep, Run, After;
    if i < k {
      Untouched(issues, companyId, s, plans, i, k - 1, d);
      RunStep(issues, companyId, s, plans, k - 1);
      StepTouches(issues, companyId, After(issues, companyId, s, plans, k - 1), plans[k - 1],
                  After(issues, companyId, s, plans, k));
      assert SameDocument(After(issues, companyId, s, plans, k - 1), After(issues, companyId, s, plans, k), d);
    }
  }

  lemma PlacedKept(companyId: string, s: DocState, t: DocState, plan: DocumentPlan, d: string)
    requires Placed(s, plan) && OnlyTouches(companyId, d, s, t) && d != plan.documentId
    ensures Placed(t, plan)
  {
    hide At;
    assert SameDocument(s, t, plan.documentId);
  }

  /** What has been placed stays placed. */
  lemma {:induction false} PlacedStays(issues: Issues, companyId: string, s: DocState, plans: seq<DocumentPlan>,
                                       i: nat, k: nat, plan: DocumentPlan)
    requires i <= k <= |plans| && Run(issues, companyId, s, plans).Done? && NotPlanned(plans, i, k, plan.documentId)
    requires Placed(After(issues, companyId, s, plans, i), plan)
    ensures Placed(After(issues, companyId, s, plans, k), plan)
  {
    hide DocumentStep, Run, After, Placed, OnlyTouches;
    if i < k {
      PlacedStays(issues, companyId, s, plans, i, k - 1, plan);
      RunStep(issues, companyId, s, plans, k - 1);
      var u, v := After(issues, companyId, s, plans, k - 1), After(issues, companyId, s, plans, k);
      StepTouches(issues, companyId, u, plans[k - 1], v);
      PlacedKept(companyId, u, v, plan, plans[k - 1].documentId);
    }
  }

  predicate OnSlot(links: Links, plan: DocumentPlan) {
    plan.documentId in links && At(links[plan.documentId], plan.issueId, plan.key)
  }

  /** Some document is on the planned issue under the planned key. */
  predicate Occupied(links: Links, plan: DocumentPlan) {
    exists d :: d in links && At(links[d], plan.issueId, plan.key)
  }

  lemma OccupiedMeans(links: Links, plan: DocumentPlan)
    ensures Occupied(links, plan) <==> Taken(links, plan) || OnSlot(links, plan)
  {
    hide At;
    if Occupied(links, plan) && !Taken(links, plan) {
      var d :| d in links && At(links[d], plan.issueId, plan.key);
      assert d == plan.documentId;
    }
  }

  /** After a run, a planned document that is on its slot has come in as planned. */
  lemma PlanOutcome(issues: Issues, companyId: string, s: DocState, plans: seq<DocumentPlan>, j: nat)
    requires j < |plans| && Run(issues, companyId, s, plans).Done? && SoundDocuments(s) && DistinctPlans(plans)
    requires HasParent(issues, companyId, plans[j].issueId)
    ensures var t := Run(issues, companyId, s, plans).state;
            OnSlot(t.links, plans[j]) ==> Placed(t, plans[j])
  {
    var u, v := After(issues, companyId, s, plans, j), After(issues, companyId, s, plans, j + 1);
    var t := Run(issues, companyId, s, plans).state;
    RunStep(issues, companyId, s, plans, j);
    RunEnds(issues, companyId, s, plans);
    hide DocumentStep, Placed, OnlyTouches, Run, After, At, Taken;
    if Applies(issues, companyId, u.links, plans[j]) {
      StepPlaces(issues, companyId, u, plans[j], v);
      PlacedStays(issues, companyId, s, plans, j + 1, |plans|, plans[j]);
    } else {
      StepSkips(issues, companyId, u, plans[j]);
      RunKeepsSound(issues, companyId, s, plans, j);
      TakenNotOnSlot(u.links, plans[j]);
      Untouched(issues, companyId, s, plans, j + 1, |plans|, plans[j].documentId);
    }
  }

  lemma TakenNotOnSlot(links: Links, plan: DocumentPlan)
    requires SlotsUnique(links) && Taken(links, plan)
    ensures !OnSlot(links, plan)
  {
  }

  // ---------- the same plan again ----------

  const NO_COUNTS := DocumentCounts(0, 0, 0)

  /** The plan's document is on its slot already, or the plan is skipped. */
  ghost predicate Settled(issues: Issues, companyId: string, t: DocState, plan: DocumentPlan) {
    Applies(issues, companyId, t.links, plan) ==> Placed(t, plan)
  }

  function MergedCount(issues: Issues, companyId: string, links: Links, plans: seq<DocumentPlan>): nat {
    if |plans| == 0 then 0
    else
      MergedCount(issues, companyId, links, plans[..|plans| - 1])
      + if Applies(issues, companyId, links, plans[|plans| - 1]) then 1 else 0
  }

  function Merged(t: DocState, k: nat): DocState {
    t.(counts := DocumentCounts(0, k, 0))
  }

  lemma {:induction false} SettledRun(issues: Issues, companyId: string, t: DocState, plans: seq<DocumentPlan>)
    requires forall p :: p in plans ==> Settled(issues, companyId, t, p)
    ensures Run(issues, companyId, Merged(t, 0), plans)
            == Done(Merged(t, MergedCount(issues, companyId, t.links, plans)))
  {
    if |plans| > 0 {
      var front, last := plans[..|plans| - 1], plans[|plans| - 1];
      SettledRun(issues, companyId, t, front);
      assert Settled(issues, companyId, t, last);
      hide DocumentStep, Settled, Placed;
      SettledStep(issues, companyId, t, last, MergedCount(issues, companyId, t.links, front));
    }
  }

  lemma SettledStep(issues: Issues, companyId: string, t: DocState, plan: DocumentPlan, k: nat)
    requires Settled(issues, companyId, t, plan)
    ensures DocumentStep(issues, companyId, Merged(t, k), plan)
            == Done(Merged(t, k + if Applies(issues, companyId, t.links, plan) then 1 else 0))
  {
    hide DocumentStep, Applies;
    if Applies(issues, companyId, t.links, plan) {
      PlacedAgain(issues, companyId, Merged(t, k), plan);
    } else {
      StepSkips(issues, companyId, Merged(t, k), plan);
    }
  }

  /** Every planned document with a parent issue finds its slot occupied, by itself or by another. */
  ghost predicate AllOccupied(issues: Issues, companyId: string, links: Links, plans: seq<DocumentPlan>) {
    forall p :: p in plans && HasParent(issues, companyId, p.issueId) ==> Occupied(links, p)
  }

  ghost predicate SameTables(s: DocState, t: DocState) {
    s.documents == t.documents && s.links == t.links && s.revisions == t.revisions
  }

  lemma OccupiedSettles(issues: Issues, companyId: string, s: DocState, plans: seq<DocumentPlan>, j: nat)
    requires j < |plans| && Run(issues, companyId, s, plans).Done? && SoundDocuments(s) && DistinctPlans(plans)
    requires HasParent(issues, companyId, plans[j].issueId) ==>
               Occupied(Run(issues, companyId, s, plans).state.links, plans[j])
    ensures Settled(issues, companyId, Run(issues, companyId, s, plans).state, plans[j])
  {
    hide Run, Placed, Occupied, OnSlot, Taken, SoundDocuments, DistinctPlans, HasParent;
    if HasParent(issues, companyId, plans[j].issueId) {
      PlanOutcome(issues, companyId, s, plans, j);
      OccupiedMeans(Run(issues, companyId, s, plans).state.links, plans[j]);
    }
  }

  /** A run that leaves the tables as they were found every slot occupied. */
  lemma UnchangedMeansOccupied(issues: Issues, companyId: string, t: DocState, plans: seq<DocumentPlan>, j: nat)
    requires j < |plans| && Run(issues, companyId, t, plans).Done? && DistinctPlans(plans)
    requires SameTables(Run(issues, companyId, t, plans).state, t) && HasParent(issues, companyId, plans[j].issueId)
    ensures Occupied(t.links, plans[j])
  {
    var u, v := After(issues, companyId, t, plans, j), After(issues, companyId, t, plans, j + 1);
    var w := Run(issues, companyId, t, plans).state;
    RunStarts(issues, companyId, t, plans);
    RunStep(issues, companyId, t, plans, j);
    RunEnds(issues, companyId, t, plans);
    hide DocumentStep, Run, After, OnlyTouches, At;
    if Applies(issues, companyId, u.links, plans[j]) {
      StepPlaces(issues, companyId, u, plans[j], v);
      PlacedStays(issues, companyId, t, plans, j + 1, |plans|, plans[j]);
    } else {
      var d :| d in u.links && d != plans[j].documentId && At(u.links[d], plans[j].issueId, plans[j].key);
      if NotPlanned(plans, 0, j, d) {
        Untouched(issues, companyId, t, plans, 0, j, d);
      } else {
        Untouched(issues, companyId, t, plans, j, |plans|, d);
      }
    }
  }

  /** Running the same plan again leaves every table as the first run did exactly when every planned document with a
      parent issue finds its slot occupied; then the second run inserts nothing and only counts merges. */
  lemma MergeTwice(issues: Issues, companyId: string, s: DocState, plans: seq<DocumentPlan>)
    requires Run(issues, companyId, s, plans).Done? && SoundDocuments(s) && DistinctPlans(plans)
    ensures var t := Run(issues, companyId, s, plans).state;
            var again := Run(issues, companyId, Merged(t, 0), plans);
            && (again.Done? && SameTables(again.state, t) <==> AllOccupied(issues, companyId, t.links, plans))
            && (AllOccupied(issues, companyId, t.links, plans) ==>
                  again == Done(Merged(t, MergedCount(issues, companyId, t.links, plans))))
  {
    hide Run, Occupied, SoundDocuments, DistinctPlans, HasParent, Settled;
    var t := Run(issues, companyId, s, plans).state;
    var again := Run(issues, companyId, Merged(t, 0), plans);
    if AllOccupied(issues, companyId, t.links, plans) {
      forall p | p in plans
        ensures Settled(issues, companyId, t, p)
      {
        var j :| 0 <= j < |plans| && plans[j] == p;
        OccupiedSettles(issues, companyId, s, plans, j);
      }
      SettledRun(issues, companyId, t, plans);
    }
    if again.Done? && SameTables(again.state, t) {
      forall p | p in plans && HasParent(issues, companyId, p.issueId)
        ensures Occupied(t.links, p)
      {
        var j :| 0 <= j < |plans| && plans[j] == p;
        UnchangedMeansOccupied(issues, companyId, Merged(t, 0), plans, j);
      }
    }
  }

  // ---------- a condition on the tables before the first run ----------

  /** No planned document is on the slot of another planned document. */
  ghost predicate NoSquatters(links: Links, plans: seq<DocumentPlan>) {
    forall p, q :: p in plans && q in plans && p.documentId != q.documentId && q.documentId in links ==>
      !At(links[q.documentId], p.issueId, p.key)
  }

  lemma SlotFilled(issues: Issues, companyId: string, s: DocState, plans: seq<DocumentPlan>, j: nat)
    requires j < |plans| && Run(issues, companyId, s, plans).Done? && DistinctPlans(plans)
    requires NoSquatters(s.links, plans)
    requires HasParent(issues, companyId, plans[j].issueId)
    ensures Occupied(Run(issues, companyId, s, plans).state.links, plans[j])
  {
    var u, v := After(issues, companyId, s, plans, j), After(issues, companyId, s, plans, j + 1);
    var t := Run(issues, companyId, s, plans).state;
    RunStarts(issues, companyId, s, plans);
    RunStep(issues, companyId, s, plans, j);
    RunEnds(issues, companyId, s, plans);
    hide DocumentStep, Run, After, OnlyTouches, At;
    if Applies(issues, companyId, u.links, plans[j]) {
      StepPlaces(issues, companyId, u, plans[j], v);
      PlacedStays(issues, companyId, s, plans, j + 1, |plans|, plans[j]);
    } else {
      var d :| d in u.links && d != plans[j].documentId && At(u.links[d], plans[j].issueId, plans[j].key);
      if NotPlanned(plans, j, |plans|, d) {
        Untouched(issues, companyId, s, plans, j, |plans|, d);
      } else {
        var m :| j <= m < |plans| && plans[m].documentId == d;
        assert plans[m] in plans && plans[j] in plans;
        Untouched(issues, companyId, s, plans, 0, j, d);
        assert false;
      }
    }
  }

  /** With no squatters, the merge can be run twice: the second run inserts nothing and changes nothing. */
  lemma NoSquattersMergesOnce(issues: Issues, companyId: string, s: DocState, plans: seq<DocumentPlan>)
    requires Run(issues, companyId, s, plans).Done? && SoundDocuments(s) && DistinctPlans(plans)
    requires NoSquatters(s.links, plans)
    ensures var t := Run(issues, companyId, s, plans).state;
            Run(issues, companyId, Merged(t, 0), plans)
            == Done(Merged(t, MergedCount(issues, companyId, t.links, plans)))
  {
    hide Run, Occupied, SoundDocuments, DistinctPlans, HasParent, NoSquatters;
    forall p | p in plans && HasParent(issues, companyId, p.issueId)
      ensures Occupied(Run(issues, companyId, s, plans).state.links, p)
    {
      var j :| 0 <= j < |plans| && plans[j] == p;
      SlotFilled(issues, companyId, s, plans, j);
    }
    MergeTwice(issues, companyId, s, plans);
  }

  // ---------- parents ----------

  /** Every link is to an issue of the link's own company. */
  ghost predicate LinksParented(issues: Issues, links: Links) {
    forall d :: d in links ==> HasParent(issues, links[d].companyId, links[d].issueId)
  }

  /** One step keeps that exactly when it does not move the link of another company's document. */
  lemma StepKeepsParents(issues: Issues, companyId: string, s: DocState, plan: DocumentPlan, t: DocState)
    requires DocumentStep(issues, companyId, s, plan) == Done(t) && LinksParented(issues, s.links)
    ensures LinksParented(issues, t.links) <==>
              !(Applies(issues, companyId, s.links, plan)
                && plan.documentId in s.links && s.links[plan.documentId].companyId != companyId)
  {
    hide Taken, DocumentStep, HasRevisions, RevisionsGrow;
    if Applies(issues, companyId, s.links, plan) {
      StepPlaces(issues, companyId, s, plan, t);
      var d := plan.documentId;
      assert t.links[d].issueId == plan.issueId;
      forall e | e in t.links && e != d
        ensures HasParent(issues, t.links[e].companyId, t.links[e].issueId)
      {
        assert SameDocument(s, t, e);
      }
      assert LinksParented(issues, t.links) ==> HasParent(issues, t.links[d].companyId, t.links[d].issueId);
    } else {
      StepSkips(issues, companyId, s, plan);
    }
  }

  /** The link is as it was, or has been put on an issue of this company: under this company if it is new, under the
      company it had if not. */
  ghost predicate KeptOrPut(issues: Issues, companyId: string, before: Links, after: Links, d: string)
    requires d in after
  {
    || (d in before && after[d] == before[d])
    || (HasParent(issues, companyId, after[d].issueId)
        && after[d].companyId == if d in before then before[d].companyId else companyId)
  }

  lemma {:induction false} RunPutsOnOwnIssues(issues: Issues, companyId: string, s: DocState, plans: seq<DocumentPlan>,
                                              i: nat, d: string)
    requires i <= |plans| && Run(issues, companyId, s, plans).Done?
    ensures d in s.links ==> d in After(issues, companyId, s, plans, i).links
    ensures d in After(issues, companyId, s, plans, i).links ==>
              KeptOrPut(issues, companyId, s.links, After(issues, companyId, s, plans, i).links, d)
  {
    hide DocumentStep, Run, After, HasParent;
    if i == 0 {
      RunStarts(issues, companyId, s, plans);
    } else {
      RunPutsOnOwnIssues(issues, companyId, s, plans, i - 1, d);
      RunStep(issues, companyId, s, plans, i - 1);
      StepPutsOnOwnIssues(issues, companyId, s.links, After(issues, companyId, s, plans, i - 1), plans[i - 1],
                          After(issues, companyId, s, plans, i), d);
    }
  }

  lemma StepPutsOnOwnIssues(issues: Issues, companyId: string, before: Links, s: DocState, plan: DocumentPlan,
                            t: DocState, d: string)
    requires DocumentStep(issues, companyId, s, plan) == Done(t)
    requires d in s.links ==> KeptOrPut(issues, companyId, before, s.links, d)
    requires d in before ==> d in s.links
    ensures d in before ==> d in t.links
    ensures d in t.links ==> KeptOrPut(issues, companyId, before, t.links, d)
  {
    hide DocumentStep, Taken, HasParent, HasRevisions, RevisionsGrow;
    if Applies(issues, companyId, s.links, plan) {
      StepPlaces(issues, companyId, s, plan, t);
      assert d != plan.documentId ==> SameDocument(s, t, d);
    } else {
      StepSkips(issues, companyId, s, plan);
    }
  }

  /** Every link a run inserts is to an issue of this company, and no link is lost or changes its company; all links
      stay on issues of their companies exactly when the run changed no link of another company's document. */
  lemma RunParents(issues: Issues, companyId: string, s: DocState, plans: seq<DocumentPlan>)
    requires Run(issues, companyId, s, plans).Done?
    ensures var t := Run(issues, companyId, s, plans).state;
            && (forall d :: d in t.links && d !in s.links ==>
                  t.links[d].companyId == companyId && HasParent(issues, companyId, t.links[d].issueId))
            && (forall d :: d in s.links ==> d in t.links && t.links[d].companyId == s.links[d].companyId)
            && (LinksParented(issues, s.links) ==>
                  (LinksParented(issues, t.links) <==>
                     forall d :: d in s.links && s.links[d].companyId != companyId ==> t.links[d] == s.links[d]))
  {
    var t := Run(issues, companyId, s, plans).state;
    RunEnds(issues, companyId, s, plans);
    forall d
      ensures d in s.links ==> d in t.links
      ensures d in t.links ==> KeptOrPut(issues, companyId, s.links, t.links, d)
    {
      RunPutsOnOwnIssues(issues, companyId, s, plans, |plans|, d);
    }
    hide Run;
    if LinksParented(issues, t.links) {
      forall d | d in s.links && s.links[d].companyId != companyId
        ensures t.links[d] == s.links[d]
      {
        assert KeptOrPut(issues, companyId, s.links, t.links, d);
        assert HasParent(issues, t.links[d].companyId, t.links[d].issueId);
      }
    }
  }

  // ---------- parents, decided before the run ----------

  predicate SameSlot(p: DocumentPlan, q: DocumentPlan) {
    p.issueId == q.issueId && p.key == q.key
  }

  /** The plan finds its slot free before the run, and no earlier plan is for that slot. */
  ghost predicate Moves(issues: Issues, companyId: string, links: Links, plans: seq<DocumentPlan>, j: nat)
    requires j < |plans|
  {
    Applies(issues, companyId, links, plans[j]) && forall i :: 0 <= i < j ==> !SameSlot(plans[i], plans[j])
  }

  /** With no squatters, a document that holds another's planned slot at some point of a run was there before the
      run, or was put there by an earlier plan for that slot. */
  lemma HolderOfSlot(issues: Issues, companyId: string, s: DocState, plans: seq<DocumentPlan>, j: nat, d: string)
    requires j < |plans| && Run(issues, companyId, s, plans).Done? && DistinctPlans(plans)
    requires NoSquatters(s.links, plans)
    requires d != plans[j].documentId && d in After(issues, companyId, s, plans, j).links
    requires At(After(issues, companyId, s, plans, j).links[d], plans[j].issueId, plans[j].key)
    ensures NotPlanned(plans, 0, j, d) || exists m :: 0 <= m < j && SameSlot(plans[m], plans[j])
  {
    hide DocumentStep, Run, OnlyTouches, Taken, HasParent;
    if !NotPlanned(plans, 0, j, d) {
      var m :| 0 <= m < j && plans[m].documentId == d;
      assert plans[m] in plans && plans[j] in plans;
      var u, v := After(issues, companyId, s, plans, m), After(issues, companyId, s, plans, m + 1);
      RunStarts(issues, companyId, s, plans);
      RunStep(issues, companyId, s, plans, m);
      Untouched(issues, companyId, s, plans, 0, m, d);
      Untouched(issues, companyId, s, plans, m + 1, j, d);
      hide After;
      if Applies(issues, companyId, u.links, plans[m]) {
        StepPlaces(issues, companyId, u, plans[m], v);
        assert SameSlot(plans[m], plans[j]);
      } else {
        StepSkips(issues, companyId, u, plans[m]);
      }
    }
  }

  /** With no squatters, a plan is applied in the run if its slot was free before it and it is the first for it. */
  lemma MovesApplies(issues: Issues, companyId: string, s: DocState, plans: seq<DocumentPlan>, j: nat)
    requires j < |plans| && Run(issues, companyId, s, plans).Done? && DistinctPlans(plans)
    requires NoSquatters(s.links, plans)
    requires Moves(issues, companyId, s.links, plans, j)
    ensures Applies(issues, companyId, After(issues, companyId, s, plans, j).links, plans[j])
  {
    hide DocumentStep, Run, HasParent, NoSquatters, DistinctPlans;
    var u := After(issues, companyId, s, plans, j);
    RunStarts(issues, companyId, s, plans);
    hide After, At;
    forall d | d in u.links && d != plans[j].documentId
      ensures !At(u.links[d], plans[j].issueId, plans[j].key)
    {
      if At(u.links[d], plans[j].issueId, plans[j].key) {
        HolderOfSlot(issues, companyId, s, plans, j, d);
        Untouched(issues, companyId, s, plans, 0, j, d);
        assert false;
      }
    }
  }

  /** The plan that keeps a slot taken before the run keeps it taken in the run. */
  lemma TakenStaysTaken(issues: Issues, companyId: string, s: DocState, plans: seq<DocumentPlan>, j: nat)
    requires j < |plans| && Run(issues, companyId, s, plans).Done? && NoSquatters(s.links, plans)
    requires Taken(s.links, plans[j])
    ensures Taken(After(issues, companyId, s, plans, j).links, plans[j])
  {
    hide DocumentStep, Run, HasParent;
    var d :| d in s.links && d != plans[j].documentId && At(s.links[d], plans[j].issueId, plans[j].key);
    forall m | 0 <= m < j
      ensures plans[m].documentId != d
    {
      assert plans[m] in plans && plans[j] in plans;
    }
    RunStarts(issues, companyId, s, plans);
    hide After, At, NoSquatters;
    Untouched(issues, companyId, s, plans, 0, j, d);
  }

  /** The first plan for a slot. */
  lemma FirstForSlot(plans: seq<DocumentPlan>, j: nat) returns (i: nat)
    requires j < |plans|
    ensures i <= j && SameSlot(plans[i], plans[j]) && forall k :: 0 <= k < i ==> !SameSlot(plans[k], plans[i])
  {
    i := 0;
    while !SameSlot(plans[i], plans[j])
      invariant i <= j && forall k :: 0 <= k < i ==> !SameSlot(plans[k], plans[j])
      decreases j - i
    {
      i := i + 1;
    }
  }

  /** And only then. */
  lemma AppliesMoves(issues: Issues, companyId: string, s: DocState, plans: seq<DocumentPlan>, j: nat)
    requires j < |plans| && Run(issues, companyId, s, plans).Done? && DistinctPlans(plans)
    requires NoSquatters(s.links, plans)
    requires Applies(issues, companyId, After(issues, companyId, s, plans, j).links, plans[j])
    ensures Moves(issues, companyId, s.links, plans, j)
  {
    hide DocumentStep, Run, HasParent, NoSquatters, Taken, After, DistinctPlans;
    if Taken(s.links, plans[j]) {
      TakenStaysTaken(issues, companyId, s, plans, j);
    }
    var i := FirstForSlot(plans, j);
    if i < j {
      FirstTakesSlot(issues, companyId, s, plans, i, j);
    }
  }

  /** The first plan for a free slot takes it from every later one. */
  lemma FirstTakesSlot(issues: Issues, companyId: string, s: DocState, plans: seq<DocumentPlan>, i: nat, j: nat)
    requires i < j < |plans| && Run(issues, companyId, s, plans).Done? && DistinctPlans(plans)
    requires NoSquatters(s.links, plans) && Applies(issues, companyId, s.links, plans[j])
    requires SameSlot(plans[i], plans[j]) && forall k :: 0 <= k < i ==> !SameSlot(plans[k], plans[i])
    ensures Taken(After(issues, companyId, s, plans, j).links, plans[j])
  {
    var d := plans[i].documentId;
    assert plans[i] in plans && plans[j] in plans && d != plans[j].documentId;
    FreeForBoth(s.links, plans, plans[i], plans[j]);
    hide DocumentStep, Run, OnlyTouches, HasParent, NoSquatters, After;
    MovesApplies(issues, companyId, s, plans, i);
    RunStep(issues, companyId, s, plans, i);
    var u, v := After(issues, companyId, s, plans, i), After(issues, companyId, s, plans, i + 1);
    StepPlaces(issues, companyId, u, plans[i], v);
    Untouched(issues, companyId, s, plans, i + 1, j, d);
  }

  lemma FreeForBoth(links: Links, plans: seq<DocumentPlan>, p: DocumentPlan, q: DocumentPlan)
    requires NoSquatters(links, plans) && p in plans && q in plans && SameSlot(p, q)
    requires p.documentId != q.documentId && !Taken(links, q)
    ensures !Taken(links, p)
  {
  }

  /** Nothing of this document has changed: its row, its link, its revisions. */
  ghost predicate Unchanged(s: DocState, t: DocState, d: string) {
    SameDocument(s, t, d) && RevisionsOf(s.revisions, d) == RevisionsOf(t.revisions, d)
  }

  lemma StepLeavesRevisions(companyId: string, documentId: string, s: DocState, t: DocState, d: string)
    requires OnlyTouches(companyId, documentId, s, t) && d != documentId
    ensures Unchanged(s, t, d)
  {
    assert SameDocument(s, t, d);
    hide SameDocument;
  }

  /** Revisions are never changed, and rows that a step adds are of this company. */
  ghost predicate AddsOwnRows(companyId: string, s: DocState, t: DocState) {
    && RowsStay(s.revisions, t.revisions)
    && (forall r :: r in t.revisions && r !in s.revisions ==> t.revisions[r].companyId == companyId)
    && (forall d :: d in t.documents && d !in s.documents ==> t.documents[d].companyId == companyId)
    && (forall d :: d in s.documents ==> d in t.documents && t.documents[d].companyId == s.documents[d].companyId)
  }

  lemma StepAddsOwnRows(issues: Issues, companyId: string, s: DocState, plan: DocumentPlan, t: DocState)
    requires DocumentStep(issues, companyId, s, plan) == Done(t)
    ensures AddsOwnRows(companyId, s, t)
  {
    hide DocumentStep, Placed, Taken, HasParent;
    if Applies(issues, companyId, s.links, plan) {
      StepPlaces(issues, companyId, s, plan, t);
      forall d | d in t.documents && d !in s.documents
        ensures t.documents[d].companyId == companyId
      {
        assert d != plan.documentId ==> SameDocument(s, t, d);
      }
    } else {
      StepSkips(issues, companyId, s, plan);
    }
  }

  lemma AddsOwnRowsAgain(companyId: string, s: DocState, t: DocState, u: DocState)
    requires AddsOwnRows(companyId, s, t) && AddsOwnRows(companyId, t, u)
    ensures AddsOwnRows(companyId, s, u)
  {
  }

  lemma {:induction false} RunAddsOwnRows(issues: Issues, companyId: string, s: DocState, plans: seq<DocumentPlan>,
                                          i: nat)
    requires i <= |plans| && Run(issues, companyId, s, plans).Done?
    ensures AddsOwnRows(companyId, s, After(issues, companyId, s, plans, i))
  {
    RunStarts(issues, companyId, s, plans);
    if i > 0 {
      hide DocumentStep, Run, After, AddsOwnRows;
      RunAddsOwnRows(issues, companyId, s, plans, i - 1);
      RunStep(issues, companyId, s, plans, i - 1);
      var u, v := After(issues, companyId, s, plans, i - 1), After(issues, companyId, s, plans, i);
      StepAddsOwnRows(issues, companyId, u, plans[i - 1], v);
      AddsOwnRowsAgain(companyId, s, u, v);
    }
  }

  /** No step but that of its own plan changes anything of a document, and none changes where it comes from. */
  lemma {:induction false} LeftAlone(issues: Issues, companyId: string, s: DocState, plans: seq<DocumentPlan>, i: nat,
                                     k: nat, d: string)
    requires i <= k <= |plans| && Run(issues, companyId, s, plans).Done?
    ensures NotPlanned(plans, i, k, d) ==>
              Unchanged(After(issues, companyId, s, plans, i), After(issues, companyId, s, plans, k), d)
    ensures d in After(issues, companyId, s, plans, i).documents ==>
              && d in After(issues, companyId, s, plans, k).documents
              && SameOrigin(After(issues, companyId, s, plans, i).documents[d],
                            After(issues, companyId, s, plans, k).documents[d])
  {
    hide DocumentStep, Run, After, RevisionsOf;
    if i < k {
      LeftAlone(issues, companyId, s, plans, i, k - 1, d);
      RunStep(issues, companyId, s, plans, k - 1);
      var u, v := After(issues, companyId, s, plans, k - 1), After(issues, companyId, s, plans, k);
      StepTouches(issues, companyId, u, plans[k - 1], v);
      if d != plans[k - 1].documentId {
        StepLeavesRevisions(companyId, plans[k - 1].documentId, u, v, d);
      }
      hide RevisionsGrow;
    }
  }

  /** Without squatters, the tables before the run decide what becomes of each planned document, whichever company it
      belongs to: if its plan finds the slot free, as the first for it, the document ends as planned; if not, nothing
      of it changes. */
  lemma PlanDecided(issues: Issues, companyId: string, s: DocState, plans: seq<DocumentPlan>, j: nat)
    requires j < |plans| && Run(issues, companyId, s, plans).Done? && DistinctPlans(plans)
    requires NoSquatters(s.links, plans)
    ensures var t := Run(issues, companyId, s, plans).state;
            if Moves(issues, companyId, s.links, plans, j) then Placed(t, plans[j])
            else Unchanged(s, t, plans[j].documentId)
  {
    var u, v := After(issues, companyId, s, plans, j), After(issues, companyId, s, plans, j + 1);
    var d := plans[j].documentId;
    RunStarts(issues, companyId, s, plans);
    RunEnds(issues, companyId, s, plans);
    RunStep(issues, companyId, s, plans, j);
    assert NotPlanned(plans, 0, j, d) && NotPlanned(plans, j + 1, |plans|, d);
    hide DocumentStep, Run, After, NoSquatters, DistinctPlans, NotPlanned, Placed, OnlyTouches, RevisionsOf;
    if Moves(issues, companyId, s.links, plans, j) {
      MovesApplies(issues, companyId, s, plans, j);
      StepPlaces(issues, companyId, u, plans[j], v);
      PlacedStays(issues, companyId, s, plans, j + 1, |plans|, plans[j]);
    } else {
      if Applies(issues, companyId, u.links, plans[j]) {
        AppliesMoves(issues, companyId, s, plans, j);
      }
      hide Moves, Applies;
      StepSkips(issues, companyId, u, plans[j]);
      LeftAlone(issues, companyId, s, plans, 0, j, d);
      LeftAlone(issues, companyId, s, plans, j + 1, |plans|, d);
    }
  }

  /** And so for every document: it stays as it was unless a plan for it finds its slot free, as the first for it; in
      any case a document that was there keeps its company and its origin. */
  lemma DocumentDecided(issues: Issues, companyId: string, s: DocState, plans: seq<DocumentPlan>, d: string)
    requires Run(issues, companyId, s, plans).Done? && DistinctPlans(plans) && NoSquatters(s.links, plans)
    ensures var t := Run(issues, companyId, s, plans).state;
            && (d in s.documents ==> d in t.documents && SameOrigin(s.documents[d], t.documents[d]))
            && ((forall j :: 0 <= j < |plans| && plans[j].documentId == d ==>
                   !Moves(issues, companyId, s.links, plans, j)) ==> Unchanged(s, t, d))
  {
    RunStarts(issues, companyId, s, plans);
    RunEnds(issues, companyId, s, plans);
    LeftAlone(issues, companyId, s, plans, 0, |plans|, d);
    hide Run, After, NoSquatters, DistinctPlans, Moves, Unchanged;
    if j :| 0 <= j < |plans| && plans[j].documentId == d {
      PlanDecided(issues, companyId, s, plans, j);
    }
  }

  /** The plan puts the link of another company's document on an issue of this company. */
  ghost predicate MovesForeign(issues: Issues, companyId: string, links: Links, plans: seq<DocumentPlan>, j: nat)
    requires j < |plans|
  {
    && Moves(issues, companyId, links, plans, j)
    && plans[j].documentId in links && links[plans[j].documentId].companyId != companyId
  }

  lemma ForeignMoved(issues: Issues, companyId: string, s: DocState, plans: seq<DocumentPlan>, j: nat)
    requires j < |plans| && Run(issues, companyId, s, plans).Done? && DistinctPlans(plans)
    requires NoSquatters(s.links, plans)
    requires MovesForeign(issues, companyId, s.links, plans, j)
    ensures !LinksParented(issues, Run(issues, companyId, s, plans).state.links)
  {
    var d := plans[j].documentId;
    var u, v := After(issues, companyId, s, plans, j), After(issues, companyId, s, plans, j + 1);
    MovesApplies(issues, companyId, s, plans, j);
    RunStep(issues, companyId, s, plans, j);
    RunEnds(issues, companyId, s, plans);
    RunStarts(issues, companyId, s, plans);
    hide DocumentStep, Run, After, Moves, Taken, NoSquatters;
    Untouched(issues, companyId, s, plans, 0, j, d);
    StepPlaces(issues, companyId, u, plans[j], v);
    Untouched(issues, companyId, s, plans, j + 1, |plans|, d);
    assert v.links[d].companyId == s.links[d].companyId && v.links[d].issueId == plans[j].issueId;
  }

  /** Without squatters, links stay with their companies exactly when no plan that finds its slot free, as the first
      for it, is for a document linked under another company: a condition on the tables before the run. */
  lemma LinksStayHome(issues: Issues, companyId: string, s: DocState, plans: seq<DocumentPlan>)
    requires Run(issues, companyId, s, plans).Done? && DistinctPlans(plans) && NoSquatters(s.links, plans)
    requires LinksParented(issues, s.links)
    ensures LinksParented(issues, Run(issues, companyId, s, plans).state.links) <==>
              forall j :: 0 <= j < |plans| ==> !MovesForeign(issues, companyId, s.links, plans, j)
  {
    hide Run, DistinctPlans, NoSquatters, LinksParented, MovesForeign;
    if j :| 0 <= j < |plans| && MovesForeign(issues, companyId, s.links, plans, j) {
      ForeignMoved(issues, companyId, s, plans, j);
    } else {
      NoneForeign(issues, companyId, s, plans);
    }
  }

  lemma NoneForeign(issues: Issues, companyId: string, s: DocState, plans: seq<DocumentPlan>)
    requires Run(issues, companyId, s, plans).Done? && DistinctPlans(plans) && NoSquatters(s.links, plans)
    requires LinksParented(issues, s.links)
    requires forall j :: 0 <= j < |plans| ==> !MovesForeign(issues, companyId, s.links, plans, j)
    ensures LinksParented(issues, Run(issues, companyId, s, plans).state.links)
  {
    hide Run, NoSquatters, LinksParented, Moves;
    forall d | d in s.links && s.links[d].companyId != companyId
      ensures d in Run(issues, companyId, s, plans).state.links
      ensures Run(issues, companyId, s, plans).state.links[d] == s.links[d]
    {
      ForeignUntouched(issues, companyId, s, plans, d);
    }
    RunParents(issues, companyId, s, plans);
  }

  lemma ForeignUntouched(issues: Issues, companyId: string, s: DocState, plans: seq<DocumentPlan>, d: string)
    requires Run(issues, companyId, s, plans).Done? && DistinctPlans(plans) && NoSquatters(s.links, plans)
    requires d in s.links && s.links[d].companyId != companyId
    requires forall j :: 0 <= j < |plans| ==> !MovesForeign(issues, companyId, s.links, plans, j)
    ensures SameDocument(s, Run(issues, companyId, s, plans).state, d)
  {
    RunStarts(issues, companyId, s, plans);
    RunEnds(issues, companyId, s, plans);
    hide DocumentStep, Run, After, Moves, NoSquatters, Applies;
    if NotPlanned(plans, 0, |plans|, d) {
      Untouched(issues, companyId, s, plans, 0, |plans|, d);
    } else {
      var j :| 0 <= j < |plans| && plans[j].documentId == d;
      assert !MovesForeign(issues, companyId, s.links, plans, j);
      var u := After(issues, companyId, s, plans, j);
      if Applies(issues, companyId, u.links, plans[j]) {
        AppliesMoves(issues, companyId, s, plans, j);
      }
      RunStep(issues, companyId, s, plans, j);
      StepSkips(issues, companyId, u, plans[j]);
      Untouched(issues, companyId, s, plans, 0, j, d);
      Untouched(issues, companyId, s, plans, j + 1, |plans|, d);
    }
  }

  /** In every case, squatters or not, links stay with their companies when each planned document that is linked is
      linked under this company. */
  lemma OwnDocumentsStayHome(issues: Issues, companyId: string, s: DocState, plans: seq<DocumentPlan>)
    requires Run(issues, companyId, s, plans).Done? && LinksParented(issues, s.links)
    requires forall p :: p in plans && p.documentId in s.links ==> s.links[p.documentId].companyId == companyId
    ensures LinksParented(issues, Run(issues, companyId, s, plans).state.links)
  {
    RunStarts(issues, companyId, s, plans);
    RunEnds(issues, companyId, s, plans);
    hide Run, After, LinksParented;
    forall d | d in s.links && s.links[d].companyId != companyId
      ensures d in Run(issues, companyId, s, plans).state.links
      ensures Run(issues, companyId, s, plans).state.links[d] == s.links[d]
    {
      assert forall j :: 0 <= j < |plans| ==> plans[j] in plans;
      Untouched(issues, companyId, s, plans, 0, |plans|, d);
    }
    RunParents(issues, companyId, s, plans);
  }

  // ---------- without that condition ----------

  const PAGE := Content(None, "markdown", "text", None, 1, None, None, 0)
  const ROW := Document("company", PAGE, Origin(None, None, 0))

  function PlanFor(documentId: string, key: string): DocumentPlan {
    DocumentPlan(Insert, documentId, "issue", key, documentId, 0, 0, PAGE, Origin(None, None, 0), [])
  }

  /** Document "a" alone, on the issue under this key. */
  function OnlyA(key: string): DocState {
    DocState(map["a" := ROW], map["a" := Link("a", "company", "issue", key, 0, 0)], map[], NO_COUNTS)
  }

  lemma RunOfTwo(issues: Issues, companyId: string, s: DocState, p: DocumentPlan, q: DocumentPlan, t: DocState,
                 outcome: Outcome<DocState>)
    requires DocumentStep(issues, companyId, s, p) == Done(t) && DocumentStep(issues, companyId, t, q) == outcome
    ensures Run(issues, companyId, s, [p, q]) == outcome
  {
    hide DocumentStep;
    var plans := [p, q];
    FoldStarts(AddingDocuments(issues, companyId), s, plans);
    FoldNext(AddingDocuments(issues, companyId), s, plans, 0);
    FoldNext(AddingDocuments(issues, companyId), s, plans, 1);
    FoldEnds(AddingDocuments(issues, companyId), s, plans);
    hide Fold;
  }

  lemma FreeSlotTakesB(issues: Issues) returns (u: DocState)
    requires HasParent(issues, "company", "issue")
    ensures DocumentStep(issues, "company", OnlyA("new"), PlanFor("b", "old")) == Done(u)
    ensures u.counts == DocumentCounts(1, 0, 0) && "b" in u.documents
    ensures "a" in u.documents && u.documents["a"] == ROW && u.links.Keys == {"a", "b"}
    ensures u.links["a"] == OnlyA("new").links["a"] && u.links["b"] == PlannedLink("company", PlanFor("b", "old"))
  {
    u := DocumentStep(issues, "company", OnlyA("new"), PlanFor("b", "old")).state;
  }

  lemma PlanMovesA(issues: Issues, s: DocState)
    requires HasParent(issues, "company", "issue") && "a" in s.documents && s.documents["a"] == ROW && "a" in s.links
    requires !Taken(s.links, PlanFor("a", "new"))
    ensures DocumentStep(issues, "company", s, PlanFor("a", "new"))
            == Done(DocState(s.documents, s.links["a" := MovedLink(s.links["a"], PlanFor("a", "new"))], s.revisions,
                             s.counts.(mergedDocuments := s.counts.mergedDocuments + 1)))
  {
    hide Taken, HasParent;
    assert s.documents["a" := ROW] == s.documents;
  }

  lemma ASquats(issues: Issues)
    requires HasParent(issues, "company", "issue")
    ensures SoundDocuments(OnlyA("old"))
    ensures DocumentStep(issues, "company", OnlyA("old"), PlanFor("b", "old")) == Done(OnlyA("old"))
    ensures DocumentStep(issues, "company", OnlyA("old"), PlanFor("a", "new")) == Done(Merged(OnlyA("new"), 1))
  {
    hide HasParent;
    assert Taken(OnlyA("old").links, PlanFor("b", "old")) by {
      assert "a" in OnlyA("old").links && At(OnlyA("old").links["a"], "issue", "old");
    }
    StepSkips(issues, "company", OnlyA("old"), PlanFor("b", "old"));
    PlanMovesA(issues, OnlyA("old"));
    hide DocumentStep, Taken;
    assert OnlyA("old").links["a" := Link("a", "company", "issue", "new", 0, 0)] == OnlyA("new").links;
  }

  lemma NewSlotFree(u: DocState)
    requires u.links.Keys == {"a", "b"} && u.links["b"] == PlannedLink("company", PlanFor("b", "old"))
    ensures !Taken(u.links, PlanFor("a", "new"))
  {
  }

  /** Document "a" is on the slot planned for "b", and is itself to move: the first run skips "b" and moves "a"; the
      second finds the slot free and inserts "b". */
  lemma SquatterBreaksIt(issues: Issues)
    requires HasParent(issues, "company", "issue")
    ensures var plans := [PlanFor("b", "old"), PlanFor("a", "new")];
            && SoundDocuments(OnlyA("old")) && DistinctPlans(plans)
            && Run(issues, "company", OnlyA("old"), plans) == Done(Merged(OnlyA("new"), 1))
            && Run(issues, "company", OnlyA("new"), plans).Done?
            && Run(issues, "company", OnlyA("new"), plans).state.counts.insertedDocuments == 1
  {
    hide Run, HasParent, DocumentStep, SoundDocuments;
    var b, a := PlanFor("b", "old"), PlanFor("a", "new");
    ASquats(issues);
    hide OnlyA, Taken;
    var u := FreeSlotTakesB(issues);
    assert !Taken(u.links, a) by {
      NewSlotFree(u);
    }
    PlanMovesA(issues, u);
    RunOfTwo(issues, "company", OnlyA("old"), b, a, OnlyA("old"), Done(Merged(OnlyA("new"), 1)));
    RunOfTwo(issues, "company", OnlyA("new"), b, a, u, DocumentStep(issues, "company", u, a));
  }

  const THEIRS := Content(None, "markdown", "theirs", None, 7, None, None, 0)

  /** Document "a" alone, of another company and on an issue of that company. */
  function ForeignA(): DocState {
    DocState(map["a" := Document("other", THEIRS, Origin(None, None, 0))],
             map["a" := Link("a", "other", "elsewhere", "old", 0, 0)], map[], NO_COUNTS)
  }

  /** A plan for a document of another company overwrites it and takes its link along: document and link still belong
      to the other company, but the text is the plan's and the link is on an issue of this company. */
  lemma ForeignLinkMoves(issues: Issues)
    requires HasParent(issues, "company", "issue") && HasParent(issues, "other", "elsewhere")
    ensures var plans := [PlanFor("a", "new")];
            var outcome := Run(issues, "company", ForeignA(), plans);
            && SoundDocuments(ForeignA()) && DistinctPlans(plans) && NoSquatters(ForeignA().links, plans)
            && LinksParented(issues, ForeignA().links)
            && outcome.Done? && !LinksParented(issues, outcome.state.links)
            && outcome.state.links["a"] == Link("a", "other", "issue", "new", 0, 0)
            && outcome.state.documents["a"] == Document("other", PAGE, Origin(None, None, 0))
  {
    ForeignStart(issues);
    ForeignStep(issues);
    MovedAbroad(issues);
    assert ForeignMovedA().links["a"] == Link("a", "other", "issue", "new", 0, 0);
    assert ForeignMovedA().documents["a"] == Document("other", PAGE, Origin(None, None, 0));
    hide Run, HasParent, DocumentStep, SoundDocuments, DistinctPlans, NoSquatters, LinksParented, ForeignA;
    RunOfOne(issues, "company", ForeignA(), PlanFor("a", "new"), ForeignMovedA());
  }

  lemma ForeignStart(issues: Issues)
    requires HasParent(issues, "other", "elsewhere")
    ensures SoundDocuments(ForeignA()) && DistinctPlans([PlanFor("a", "new")])
    ensures NoSquatters(ForeignA().links, [PlanFor("a", "new")]) && LinksParented(issues, ForeignA().links)
  {
    hide HasParent;
  }

  lemma MovedAbroad(issues: Issues)
    requires HasParent(issues, "company", "issue")
    ensures !LinksParented(issues, ForeignMovedA().links)
  {
    OneHome(issues);
    hide HasParent;
    assert "a" in ForeignMovedA().links && ForeignMovedA().links["a"].companyId == "other";
  }

  lemma OneHome(issues: Issues)
    requires HasParent(issues, "company", "issue")
    ensures !HasParent(issues, "other", "issue")
  {
    assert "company"[0] != "other"[0];
  }

  function ForeignMovedA(): DocState {
    DocState(map["a" := Document("other", PAGE, Origin(None, None, 0))],
             map["a" := Link("a", "other", "issue", "new", 0, 0)], map[], DocumentCounts(0, 1, 0))
  }

  lemma ForeignStep(issues: Issues)
    requires HasParent(issues, "company", "issue")
    ensures DocumentStep(issues, "company", ForeignA(), PlanFor("a", "new")) == Done(ForeignMovedA())
  {
    hide HasParent;
    var moved := Link("a", "other", "issue", "new", 0, 0);
    assert ForeignA().documents["a" := Document("other", PAGE, Origin(None, None, 0))] == ForeignMovedA().documents;
    assert ForeignA().links["a" := moved] == map["a" := moved];
    assert !Taken(ForeignA().links, PlanFor("a", "new"));
  }

  lemma RunOfOne(issues: Issues, companyId: string, s: DocState, p: DocumentPlan, t: DocState)
    requires DocumentStep(issues, companyId, s, p) == Done(t)
    ensures Run(issues, companyId, s, [p]) == Done(t)
  {
    hide DocumentStep;
    FoldStarts(AddingDocuments(issues, companyId), s, [p]);
    FoldNext(AddingDocuments(issues, companyId), s, [p], 0);
    FoldEnds(AddingDocuments(issues, companyId), s, [p]);
    hide Fold;
  }
}
