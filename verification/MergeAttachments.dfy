/** cli/src/commands/worktree.ts, the attachment loop of `applyMergePlan`: each object is copied from the first source
    storage that has it, outside the transaction, before its two rows are inserted. */
module MergeAttachments {
  import Base64
  import opened Text
  import opened MergeSteps
  import opened MergeIssues

  /** An object of a source storage: readable, or failing with an error other than its absence. */
  datatype SourceObject = Readable(body: Base64.Bytes) | Unreadable

  type SourceStorage = map<(string, string), SourceObject>

  datatype Read = Found(body: Base64.Bytes) | Missing | Failed

  datatype Stored = Stored(body: Base64.Bytes, contentType: string)

  type TargetStorage = map<(string, string), Stored>

  datatype Asset = Asset(companyId: string, objectKey: string, contentType: string, createdByAgentId: Option<string>,
                         copied: seq<Option<string>>)

  datatype Attachment = Attachment(companyId: string, issueId: string, assetId: string, issueCommentId: Option<string>,
                                   createdAt: int, updatedAt: int)

  datatype AttachmentPlan =
    | InsertAttachment(id: string, issueId: string, assetId: string, objectKey: string, contentType: string,
                       targetCreatedByAgentId: Option<string>, assetCopied: seq<Option<string>>,
                       targetIssueCommentId: Option<string>, createdAt: int, updatedAt: int)
    | LeaveAttachment(id: string, issueId: string, objectKey: string)

  type Assets = map<string, Asset>
  type Attachments = map<string, Attachment>

  datatype AttachmentState = AttachmentState(
    assets: Assets, attachments: Attachments, storage: TargetStorage, insertedAttachments: nat, skippedMissing: nat)

  /** The two storages as seen by a run: the sources in order, and the keys the target refuses to store. */
  datatype Storages = Storages(sources: seq<SourceStorage>, refused: set<string>)

  // ---------- reading an object ----------

  function Look(source: SourceStorage, companyId: string, objectKey: string): Read {
    if (companyId, objectKey) !in source then Missing
    else if source[(companyId, objectKey)].Unreadable? then Failed
    else Found(source[(companyId, objectKey)].body)
  }

  function FirstBody(sources: seq<SourceStorage>, companyId: string, objectKey: string): Read {
    if |sources| == 0 then Missing
    else if Look(sources[0], companyId, objectKey).Missing? then FirstBody(sources[1..], companyId, objectKey)
    else Look(sources[0], companyId, objectKey)
  }

  /** The answer is that of the first storage that has the object, and it is missing exactly when none has it. */
  lemma {:induction false} FirstBodyIsFirst(sources: seq<SourceStorage>, companyId: string, objectKey: string)
    ensures var r := FirstBody(sources, companyId, objectKey);
            && (r.Missing? <==> forall i :: 0 <= i < |sources| ==> Look(sources[i], companyId, objectKey).Missing?)
            && (!r.Missing? ==>
                  exists i :: 0 <= i < |sources| && Look(sources[i], companyId, objectKey) == r
                              && forall k :: 0 <= k < i ==> Look(sources[k], companyId, objectKey).Missing?)
  {
    hide Look;
    if |sources| > 0 {
      var rest := sources[1..];
      FirstBodyIsFirst(rest, companyId, objectKey);
      var r := FirstBody(sources, companyId, objectKey);
      if Look(sources[0], companyId, objectKey).Missing? {
        assert forall k :: 0 < k < |sources| ==> sources[k] == rest[k - 1];
        if !r.Missing? {
          var i :| 0 <= i < |rest| && Look(rest[i], companyId, objectKey) == r
                   && forall k :: 0 <= k < i ==> Look(rest[k], companyId, objectKey).Missing?;
          assert Look(sources[i + 1], companyId, objectKey) == r;
        }
      } else {
        assert Look(sources[0], companyId, objectKey) == r;
      }
    }
  }

  /** `readSourceAttachmentBody`: absences are passed over, any other error is thrown at once. */
  method ReadSourceAttachmentBody(sources: seq<SourceStorage>, companyId: string, objectKey: string) returns (r: Read)
    ensures r == FirstBody(sources, companyId, objectKey)
  {
    var i := 0;
    while i < |sources|
      invariant 0 <= i <= |sources|
      invariant FirstBody(sources, companyId, objectKey) == FirstBody(sources[i..], companyId, objectKey)
    {
      r := Look(sources[i], companyId, objectKey);
      if !r.Missing? {
        return;
      }
      i := i + 1;
    }
    r := Missing;
  }

  // ---------- one planned attachment ----------

  predicate IsAttachmentInsert(plan: AttachmentPlan) {
    plan.InsertAttachment?
  }

  function ImportedAsset(companyId: string, plan: AttachmentPlan): Asset
    requires plan.InsertAttachment?
  {
    Asset(companyId, plan.objectKey, plan.contentType, plan.targetCreatedByAgentId, plan.assetCopied)
  }

  function ImportedAttachment(companyId: string, plan: AttachmentPlan): Attachment
    requires plan.InsertAttachment?
  {
    Attachment(companyId, plan.issueId, plan.assetId, plan.targetIssueCommentId, plan.createdAt, plan.updatedAt)
  }

  /** Primary key, and one asset an object of the company. */
  predicate AdmitsAsset(assets: Assets, companyId: string, plan: AttachmentPlan)
    requires plan.InsertAttachment?
  {
    plan.assetId !in assets
    && forall a :: a in assets ==> !(assets[a].companyId == companyId && assets[a].objectKey == plan.objectKey)
  }

  /** Primary key, and one attachment an asset. */
  predicate AdmitsAttachment(attachments: Attachments, plan: AttachmentPlan)
    requires plan.InsertAttachment?
  {
    plan.id !in attachments && forall a :: a in attachments ==> attachments[a].assetId != plan.assetId
  }

  function OfCompany(attachments: Attachments, companyId: string): set<string> {
    set a | a in attachments && attachments[a].companyId == companyId
  }

  function Put(s: AttachmentState, companyId: string, plan: AttachmentPlan, body: Base64.Bytes): AttachmentState
    requires plan.InsertAttachment?
  {
    s.(storage := s.storage[(companyId, plan.objectKey) := Stored(body, plan.contentType)])
  }

  function WithRows(s: AttachmentState, companyId: string, plan: AttachmentPlan): AttachmentState
    requires plan.InsertAttachment?
  {
    s.(assets := s.assets[plan.assetId := ImportedAsset(companyId, plan)],
       attachments := s.attachments[plan.id := ImportedAttachment(companyId, plan)],
       insertedAttachments := s.insertedAttachments + 1)
  }

  function AttachmentStep(storages: Storages, issues: Issues, companyId: string, existing: set<string>,
                          s: AttachmentState, plan: AttachmentPlan): Outcome<AttachmentState> {
    if plan.LeaveAttachment? || plan.id in existing then Done(s)
    else if !HasParent(issues, companyId, plan.issueId) then Done(s)
    else
      match FirstBody(storages.sources, companyId, plan.objectKey)
      case Missing => Done(s.(skippedMissing := s.skippedMissing + 1))
      case Failed => Aborted(s)
      case Found(body) =>
        if plan.objectKey in storages.refused then Aborted(s)
        else if AdmitsAsset(s.assets, companyId, plan) && AdmitsAttachment(s.attachments, plan) then
          Done(WithRows(Put(s, companyId, plan, body), companyId, plan))
        else Aborted(Put(s, companyId, plan, body))
  }

  function AddingAttachments(storages: Storages, issues: Issues, companyId: string, existing: set<string>)
    : (AttachmentState, AttachmentPlan) -> Outcome<AttachmentState>
  {
    (s, plan) => AttachmentStep(storages, issues, companyId, existing, s, plan)
  }

  function RunAttachments(storages: Storages, issues: Issues, companyId: string, s: AttachmentState,
                          plans: seq<AttachmentPlan>)
    : Outcome<AttachmentState>
  {
    Fold(AddingAttachments(storages, issues, companyId, OfCompany(s.attachments, companyId)), s, plans)
  }

  /** The attachment part of the transaction. */
  function ImportAttachments(storages: Storages, issues: Issues, companyId: string, s: AttachmentState,
                             plans: seq<AttachmentPlan>)
    : Outcome<AttachmentState>
  {
    RunAttachments(storages, issues, companyId, s, Keep(IsAttachmentInsert, plans))
  }

  // ---------- what a run leaves ----------

  /** The rows that were there are as they were, and the insertions have been counted. */
  ghost predicate RowsKept(before: AttachmentState, s: AttachmentState) {
    && (forall a :: a in before.assets ==> a in s.assets && s.assets[a] == before.assets[a])
    && (forall a :: a in before.attachments ==> a in s.attachments && s.attachments[a] == before.attachments[a])
    && |s.attachments| - s.insertedAttachments == |before.attachments| - before.insertedAttachments
  }

  /** The attachment is on an issue of this company, its asset is there, and the object stored is that of the
      sources. */
  ghost predicate Complete(storages: Storages, issues: Issues, companyId: string, s: AttachmentState, a: string)
    requires a in s.attachments
  {
    var row := s.attachments[a];
    && row.companyId == companyId && HasParent(issues, companyId, row.issueId)
    && row.assetId in s.assets && s.assets[row.assetId].companyId == companyId
    && var place := (companyId, s.assets[row.assetId].objectKey);
       place in s.storage && FirstBody(storages.sources, companyId, place.1) == Found(s.storage[place].body)
  }

  ghost predicate NewComplete(storages: Storages, issues: Issues, companyId: string, before: AttachmentState,
                              s: AttachmentState) {
    forall a :: a in s.attachments && a !in before.attachments ==> Complete(storages, issues, companyId, s, a)
  }

  /** The target storage has only been written under planned keys of this company, with what the sources have. */
  ghost predicate StorageWrites(storages: Storages, companyId: string, before: TargetStorage,
                                plans: seq<AttachmentPlan>, after: TargetStorage) {
    && (forall place :: place in before ==> place in after)
    && forall place :: place in after ==>
         || (place in before && after[place] == before[place])
         || (place.0 == companyId
             && (exists p :: p in plans && p.objectKey == place.1)
             && FirstBody(storages.sources, companyId, place.1) == Found(after[place].body))
  }

  /** The plan needs nothing more: its attachment is in, or its issue or its object is missing. */
  ghost predicate Resolved(storages: Storages, issues: Issues, companyId: string, s: AttachmentState,
                           plan: AttachmentPlan) {
    || plan.LeaveAttachment?
    || plan.id in OfCompany(s.attachments, companyId)
    || !HasParent(issues, companyId, plan.issueId)
    || FirstBody(storages.sources, companyId, plan.objectKey).Missing?
  }

  lemma StepKeepsRows(storages: Storages, issues: Issues, companyId: string, existing: set<string>,
                      before: AttachmentState,
                      s: AttachmentState, plan: AttachmentPlan)
    requires RowsKept(before, s)
    ensures RowsKept(before, AttachmentStep(storages, issues, companyId, existing, s, plan).state)
  {
    hide FirstBody, HasParent, ImportedAsset, ImportedAttachment;
  }

  lemma SameWrites(storages: Storages, companyId: string, before: TargetStorage, plans: seq<AttachmentPlan>,
                   after: TargetStorage, plan: AttachmentPlan)
    requires StorageWrites(storages, companyId, before, plans, after)
    ensures StorageWrites(storages, companyId, before, plans + [plan], after)
  {
    hide FirstBody;
    forall place | place in after && !(place in before && after[place] == before[place])
      ensures exists p :: p in plans + [plan] && p.objectKey == place.1
    {
      var p :| p in plans && p.objectKey == place.1;
      assert p in plans + [plan];
    }
  }

  lemma PutWrites(storages: Storages, companyId: string, before: TargetStorage, plans: seq<AttachmentPlan>,
                  s: AttachmentState,
                  plan: AttachmentPlan, body: Base64.Bytes)
    requires StorageWrites(storages, companyId, before, plans, s.storage)
    requires plan.InsertAttachment? && FirstBody(storages.sources, companyId, plan.objectKey) == Found(body)
    ensures StorageWrites(storages, companyId, before, plans + [plan], Put(s, companyId, plan, body).storage)
  {
    SameWrites(storages, companyId, before, plans, s.storage, plan);
    hide FirstBody;
    assert plan in plans + [plan];
  }

  lemma StepWrites(storages: Storages, issues: Issues, companyId: string, existing: set<string>, before: TargetStorage,
                   plans: seq<AttachmentPlan>, s: AttachmentState, plan: AttachmentPlan)
    requires StorageWrites(storages, companyId, before, plans, s.storage)
    ensures StorageWrites(storages, companyId, before, plans + [plan],
                          AttachmentStep(storages, issues, companyId, existing, s, plan).state.storage)
  {
    hide FirstBody, HasParent, AdmitsAsset, AdmitsAttachment, ImportedAsset, ImportedAttachment, StorageWrites, Put;
    SameWrites(storages, companyId, before, plans, s.storage, plan);
    match FirstBody(storages.sources, companyId, plan.objectKey)
    case Found(body) =>
      if plan.InsertAttachment? {
        PutWrites(storages, companyId, before, plans, s, plan, body);
      }
    case _ =>
  }

  lemma StepResolves(storages: Storages, issues: Issues, companyId: string, before: AttachmentState, s: AttachmentState,
                     plan: AttachmentPlan, t: AttachmentState)
    requires AttachmentStep(storages, issues, companyId, OfCompany(before.attachments, companyId), s, plan) == Done(t)
    requires RowsKept(before, s)
    ensures Resolved(storages, issues, companyId, t, plan)
    ensures OfCompany(s.attachments, companyId) <= OfCompany(t.attachments, companyId)
  {
    hide FirstBody, HasParent, AdmitsAsset, ImportedAsset;
  }

  lemma PutCompletes(storages: Storages, issues: Issues, companyId: string, before: AttachmentState, s: AttachmentState,
                     plan: AttachmentPlan, body: Base64.Bytes)
    requires NewComplete(storages, issues, companyId, before, s)
    requires plan.InsertAttachment? && FirstBody(storages.sources, companyId, plan.objectKey) == Found(body)
    ensures NewComplete(storages, issues, companyId, before, Put(s, companyId, plan, body))
  {
    hide FirstBody, HasParent;
    forall a | a in s.attachments && a !in before.attachments
      ensures Complete(storages, issues, companyId, Put(s, companyId, plan, body), a)
    {
      assert Complete(storages, issues, companyId, s, a);
    }
  }

  lemma RowsComplete(storages: Storages, issues: Issues, companyId: string, before: AttachmentState, s: AttachmentState,
                     plan: AttachmentPlan, body: Base64.Bytes)
    requires NewComplete(storages, issues, companyId, before, s)
    requires plan.InsertAttachment? && HasParent(issues, companyId, plan.issueId)
    requires FirstBody(storages.sources, companyId, plan.objectKey) == Found(body)
    requires (companyId, plan.objectKey) in s.storage && s.storage[(companyId, plan.objectKey)].body == body
    requires AdmitsAsset(s.assets, companyId, plan) && AdmitsAttachment(s.attachments, plan)
    ensures NewComplete(storages, issues, companyId, before, WithRows(s, companyId, plan))
  {
    hide FirstBody, HasParent;
    var t := WithRows(s, companyId, plan);
    forall a | a in t.attachments && a !in before.attachments
      ensures Complete(storages, issues, companyId, t, a)
    {
      assert a != plan.id ==> Complete(storages, issues, companyId, s, a);
    }
  }

  lemma MissKeepsComplete(storages: Storages, issues: Issues, companyId: string, before: AttachmentState,
                          s: AttachmentState)
    requires NewComplete(storages, issues, companyId, before, s)
    ensures NewComplete(storages, issues, companyId, before, s.(skippedMissing := s.skippedMissing + 1))
  {
    hide FirstBody, HasParent;
    forall a | a in s.attachments && a !in before.attachments
      ensures Complete(storages, issues, companyId, s.(skippedMissing := s.skippedMissing + 1), a)
    {
      assert Complete(storages, issues, companyId, s, a);
    }
  }

  lemma StepCompletes(storages: Storages, issues: Issues, companyId: string, before: AttachmentState,
                      s: AttachmentState,
                      plan: AttachmentPlan, t: AttachmentState)
    requires AttachmentStep(storages, issues, companyId, OfCompany(before.attachments, companyId), s, plan) == Done(t)
    requires NewComplete(storages, issues, companyId, before, s)
    ensures NewComplete(storages, issues, companyId, before, t)
  {
    hide FirstBody, HasParent, AdmitsAsset, AdmitsAttachment, OfCompany, WithRows, Complete;
    match FirstBody(storages.sources, companyId, plan.objectKey)
    case Found(body) =>
      if plan.InsertAttachment? {
        PutCompletes(storages, issues, companyId, before, s, plan, body);
        var put := Put(s, companyId, plan, body);
        if HasParent(issues, companyId, plan.issueId) && AdmitsAsset(put.assets, companyId, plan)
           && AdmitsAttachment(put.attachments, plan) {
          RowsComplete(storages, issues, companyId, before, put, plan, body);
        }
      }
    case _ =>
      MissKeepsComplete(storages, issues, companyId, before, s);
  }

  /** Whatever happens, the rows that were there are kept and the target storage only gets what the sources have: an
      aborted run may leave objects behind, under planned keys, since storage is not rolled back. */
  lemma {:induction false} RunWrites(storages: Storages, issues: Issues, companyId: string, before: AttachmentState,
                                     plans: seq<AttachmentPlan>)
    ensures var t := RunAttachments(storages, issues, companyId, before, plans).state;
            RowsKept(before, t) && StorageWrites(storages, companyId, before.storage, plans, t.storage)
  {
    hide AttachmentStep, OfCompany, StorageWrites, RowsKept;
    if |plans| == 0 {
      NothingWritten(storages, companyId, before);
    } else {
      var front, last := plans[..|plans| - 1], plans[|plans| - 1];
      assert plans == front + [last];
      RunWrites(storages, issues, companyId, before, front);
      var u := RunAttachments(storages, issues, companyId, before, front).state;
      StepKeepsRows(storages, issues, companyId, OfCompany(before.attachments, companyId), before, u, last);
      StepWrites(storages, issues, companyId, OfCompany(before.attachments, companyId), before.storage, front, u, last);
      SameWrites(storages, companyId, before.storage, front, u.storage, last);
    }
  }

  lemma NothingWritten(storages: Storages, companyId: string, before: AttachmentState)
    ensures RowsKept(before, before) && StorageWrites(storages, companyId, before.storage, [], before.storage)
  {
    hide FirstBody;
  }

  lemma ResolvedStays(storages: Storages, issues: Issues, companyId: string, s: AttachmentState, t: AttachmentState,
                      plan: AttachmentPlan)
    requires Resolved(storages, issues, companyId, s, plan)
    requires OfCompany(s.attachments, companyId) <= OfCompany(t.attachments, companyId)
    ensures Resolved(storages, issues, companyId, t, plan)
  {
  }

  /** A new asset is of this company. */
  lemma {:induction false} RunAssetsOwn(storages: Storages, issues: Issues, companyId: string, before: AttachmentState,
                                        plans: seq<AttachmentPlan>, a: string)
    ensures var t := RunAttachments(storages, issues, companyId, before, plans).state;
            a in t.assets && a !in before.assets ==> t.assets[a].companyId == companyId
  {
    hide FirstBody, HasParent, OfCompany, AdmitsAsset, AdmitsAttachment;
    if |plans| > 0 {
      RunAssetsOwn(storages, issues, companyId, before, plans[..|plans| - 1], a);
    }
  }

  /** A run that goes through leaves every plan resolved, and every attachment it inserted complete. */
  lemma {:induction false} RunCompletes(storages: Storages, issues: Issues, companyId: string, before: AttachmentState,
                                        plans: seq<AttachmentPlan>)
    requires RunAttachments(storages, issues, companyId, before, plans).Done?
    ensures var t := RunAttachments(storages, issues, companyId, before, plans).state;
            && NewComplete(storages, issues, companyId, before, t)
            && forall p :: p in plans ==> Resolved(storages, issues, companyId, t, p)
  {
    hide AttachmentStep, OfCompany, Complete, Resolved;
    if |plans| > 0 {
      var front, last := plans[..|plans| - 1], plans[|plans| - 1];
      RunCompletes(storages, issues, companyId, before, front);
      RunWrites(storages, issues, companyId, before, front);
      hide StorageWrites, RowsKept, NewComplete;
      var u := RunAttachments(storages, issues, companyId, before, front).state;
      var t := RunAttachments(storages, issues, companyId, before, plans).state;
      StepCompletes(storages, issues, companyId, before, u, last, t);
      StepResolves(storages, issues, companyId, before, u, last, t);
      forall p | p in plans
        ensures Resolved(storages, issues, companyId, t, p)
      {
        if p in front {
          ResolvedStays(storages, issues, companyId, u, t, p);
        } else {
          assert p == last;
        }
      }
    }
  }

  /** A new attachment whose issue and object are there. */
  ghost predicate Imported(storages: Storages, issues: Issues, companyId: string, existing: set<string>,
                           plan: AttachmentPlan) {
    && plan.InsertAttachment? && plan.id !in existing && HasParent(issues, companyId, plan.issueId)
    && FirstBody(storages.sources, companyId, plan.objectKey).Found?
  }

  ghost predicate InAsPlanned(companyId: string, s: AttachmentState, plan: AttachmentPlan)
    requires plan.InsertAttachment?
  {
    && plan.id in s.attachments && s.attachments[plan.id] == ImportedAttachment(companyId, plan)
    && plan.assetId in s.assets && s.assets[plan.assetId] == ImportedAsset(companyId, plan)
  }

  lemma StepInserts(storages: Storages, issues: Issues, companyId: string, existing: set<string>, s: AttachmentState,
                    plan: AttachmentPlan, t: AttachmentState)
    requires AttachmentStep(storages, issues, companyId, existing, s, plan) == Done(t)
    requires Imported(storages, issues, companyId, existing, plan)
    ensures InAsPlanned(companyId, t, plan)
  {
    hide FirstBody, HasParent, AdmitsAsset, AdmitsAttachment;
  }

  /** Every new attachment whose issue and object are there comes in, both rows as planned. */
  lemma {:induction false} RunInserts(storages: Storages, issues: Issues, companyId: string, before: AttachmentState,
                                      plans: seq<AttachmentPlan>,
                                      plan: AttachmentPlan)
    requires RunAttachments(storages, issues, companyId, before, plans).Done? && plan in plans
    requires Imported(storages, issues, companyId, OfCompany(before.attachments, companyId), plan)
    ensures InAsPlanned(companyId, RunAttachments(storages, issues, companyId, before, plans).state, plan)
  {
    hide AttachmentStep, OfCompany, ImportedAsset, ImportedAttachment;
    var front, last := plans[..|plans| - 1], plans[|plans| - 1];
    var existing := OfCompany(before.attachments, companyId);
    var u := RunAttachments(storages, issues, companyId, before, front).state;
    var t := RunAttachments(storages, issues, companyId, before, plans).state;
    if plan == last {
      StepInserts(storages, issues, companyId, existing, u, plan, t);
    } else {
      RunInserts(storages, issues, companyId, before, front, plan);
      StepKeepsRows(storages, issues, companyId, existing, u, u, last);
    }
  }

  function MissingCount(storages: Storages, issues: Issues, companyId: string, existing: set<string>,
                        plans: seq<AttachmentPlan>): nat {
    if |plans| == 0 then 0
    else
      var last := plans[|plans| - 1];
      MissingCount(storages, issues, companyId, existing, plans[..|plans| - 1])
      + if last.InsertAttachment? && last.id !in existing && HasParent(issues, companyId, last.issueId)
           && FirstBody(storages.sources, companyId, last.objectKey).Missing? then 1 else 0
  }

  function Skipping(s: AttachmentState, k: nat): AttachmentState {
    s.(insertedAttachments := 0, skippedMissing := k)
  }

  /** With every plan resolved a run only counts the objects it still misses. */
  lemma {:induction false} ResolvedRun(storages: Storages, issues: Issues, companyId: string, t: AttachmentState,
                                       plans: seq<AttachmentPlan>)
    requires forall p :: p in plans ==> Resolved(storages, issues, companyId, t, p)
    ensures RunAttachments(storages, issues, companyId, Skipping(t, 0), plans)
            == Done(Skipping(t, MissingCount(storages, issues, companyId, OfCompany(t.attachments, companyId), plans)))
  {
    if |plans| > 0 {
      var front, last := plans[..|plans| - 1], plans[|plans| - 1];
      ResolvedRun(storages, issues, companyId, t, front);
      assert Resolved(storages, issues, companyId, t, last);
      hide FirstBody, HasParent, OfCompany;
    }
  }

  /** The same plan again, with the same storages: nothing is inserted and nothing is written. */
  lemma AttachmentsAgain(storages: Storages, issues: Issues, companyId: string, before: AttachmentState,
                         plans: seq<AttachmentPlan>)
    requires RunAttachments(storages, issues, companyId, before, plans).Done?
    ensures var t := RunAttachments(storages, issues, companyId, before, plans).state;
            RunAttachments(storages, issues, companyId, Skipping(t, 0), plans)
            == Done(Skipping(t, MissingCount(storages, issues, companyId, OfCompany(t.attachments, companyId), plans)))
  {
    hide RunAttachments, Resolved, OfCompany;
    RunCompletes(storages, issues, companyId, before, plans);
    ResolvedRun(storages, issues, companyId, RunAttachments(storages, issues, companyId, before, plans).state, plans);
  }
}
