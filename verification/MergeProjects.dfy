/** cli/src/commands/worktree.ts, the project loop of `applyMergePlan` with its loop over workspaces. */
module MergeProjects {
  import opened Text
  import opened MergeSteps

  datatype Project = Project(companyId: string, goalId: Option<string>, leadAgentId: Option<string>,
                             copied: seq<Option<string>>)

  /** Where a workspace lives remotely, if it does. */
  datatype Remote = Remote(provider: Option<string>, workspaceRef: Option<string>)

  datatype Workspace = Workspace(companyId: string, projectId: string, remote: Remote, copied: seq<Option<string>>)

  datatype WorkspacePlan = WorkspacePlan(id: string, remote: Remote, copied: seq<Option<string>>)

  datatype ProjectPlan = ProjectPlan(
    id: string, targetGoalId: Option<string>, targetLeadAgentId: Option<string>, copied: seq<Option<string>>,
    workspaces: seq<WorkspacePlan>)

  type Projects = map<string, Project>
  type Workspaces = map<string, Workspace>

  datatype ProjectState = ProjectState(projects: Projects, workspaces: Workspaces, insertedProjects: nat,
                                       insertedWorkspaces: nat)

  datatype WorkspaceState = WorkspaceState(workspaces: Workspaces, inserted: nat)

  function ImportedProject(companyId: string, plan: ProjectPlan): Project {
    Project(companyId, plan.targetGoalId, plan.targetLeadAgentId, plan.copied)
  }

  /** Primary key, and one workspace of a project in one remote place; a missing provider or reference is no place. */
  predicate AdmitsWorkspace(workspaces: Workspaces, projectId: string, plan: WorkspacePlan) {
    && plan.id !in workspaces
    && (plan.remote.provider.Some? && plan.remote.workspaceRef.Some? ==>
          forall w :: w in workspaces ==>
            !(workspaces[w].projectId == projectId && workspaces[w].remote == plan.remote))
  }

  function WorkspaceStep(companyId: string, projectId: string, existing: set<string>, s: WorkspaceState,
                         plan: WorkspacePlan): Outcome<WorkspaceState> {
    if plan.id in existing then Done(s)
    else if !AdmitsWorkspace(s.workspaces, projectId, plan) then Aborted(s)
    else
      Done(WorkspaceState(s.workspaces[plan.id := Workspace(companyId, projectId, plan.remote, plan.copied)],
                          s.inserted + 1))
  }

  function AddingWorkspaces(companyId: string, projectId: string, existing: set<string>): (WorkspaceState,
                            WorkspacePlan) -> Outcome<WorkspaceState> {
    (s, plan) => WorkspaceStep(companyId, projectId, existing, s, plan)
  }

  function AddWorkspaces(companyId: string, existing: set<string>, workspaces: Workspaces,
                         plan: ProjectPlan): Outcome<WorkspaceState> {
    Fold(AddingWorkspaces(companyId, plan.id, existing), WorkspaceState(workspaces, 0), plan.workspaces)
  }

  function WithWorkspaces(s: ProjectState, companyId: string, plan: ProjectPlan, w: WorkspaceState): ProjectState {
    ProjectState(s.projects[plan.id := ImportedProject(companyId, plan)], w.workspaces,
                 s.insertedProjects + 1, s.insertedWorkspaces + w.inserted)
  }

  function ProjectStep(companyId: string, existing: set<string>, s: ProjectState,
                       plan: ProjectPlan): Outcome<ProjectState> {
    if plan.id in s.projects then Aborted(s)
    else
      match AddWorkspaces(companyId, existing, s.workspaces, plan)
      case Aborted(w) => Aborted(WithWorkspaces(s, companyId, plan, w))
      case Done(w) => Done(WithWorkspaces(s, companyId, plan, w))
  }

  function AddingProjects(companyId: string, existing: set<string>): (ProjectState,
                          ProjectPlan) -> Outcome<ProjectState> {
    (s, plan) => ProjectStep(companyId, existing, s, plan)
  }

  function IsNewProject(existing: set<string>): ProjectPlan -> bool {
    (plan: ProjectPlan) => plan.id !in existing
  }

  function RunProjects(companyId: string, s: ProjectState, imports: seq<ProjectPlan>): Outcome<ProjectState> {
    Fold(AddingProjects(companyId, s.workspaces.Keys), s, imports)
  }

  /** The project part of the transaction: only projects the target does not have, with those of their workspaces it
      does not have either. */
  function ImportProjects(companyId: string, s: ProjectState, plans: seq<ProjectPlan>): Outcome<ProjectState> {
    RunProjects(companyId, s, Keep(IsNewProject(s.projects.Keys), plans))
  }

  // ---------- what a run leaves ----------

  /** Rows are only added, and only to this project of this company. */
  ghost predicate WorkspacesGrow(companyId: string, projectId: string, before: Workspaces, after: Workspaces) {
    && (forall w :: w in before ==> w in after && after[w] == before[w])
    && forall w :: w in after && w !in before ==> after[w].companyId == companyId && after[w].projectId == projectId
  }

  /** One workspace of a project in one remote place. */
  ghost predicate RemotesUnique(workspaces: Workspaces) {
    forall v, w :: v in workspaces && w in workspaces && SamePlace(workspaces[v], workspaces[w]) ==> v == w
  }

  predicate SamePlace(v: Workspace, w: Workspace) {
    v.projectId == w.projectId && v.remote == w.remote && v.remote.provider.Some? && v.remote.workspaceRef.Some?
  }

  lemma WorkspaceStepKeepsRemotes(companyId: string, projectId: string, existing: set<string>, s: WorkspaceState,
                                  plan: WorkspacePlan, t: WorkspaceState)
    requires WorkspaceStep(companyId, projectId, existing, s, plan) == Done(t) && RemotesUnique(s.workspaces)
    ensures RemotesUnique(t.workspaces)
  {
  }

  lemma {:induction false} WorkspacesKeepRemotes(companyId: string, projectId: string, existing: set<string>,
                                                 before: Workspaces, plans: seq<WorkspacePlan>)
    requires RemotesUnique(before)
    ensures var outcome := Fold(AddingWorkspaces(companyId, projectId, existing), WorkspaceState(before, 0), plans);
            outcome.Done? ==> RemotesUnique(outcome.state.workspaces)
  {
    hide WorkspaceStep, RemotesUnique;
    if |plans| > 0 {
      var step, front := AddingWorkspaces(companyId, projectId, existing), plans[..|plans| - 1];
      WorkspacesKeepRemotes(companyId, projectId, existing, before, front);
      var s, t := Fold(step, WorkspaceState(before, 0), front), Fold(step, WorkspaceState(before, 0), plans);
      if s.Done? && t.Done? {
        WorkspaceStepKeepsRemotes(companyId, projectId, existing, s.state, plans[|plans| - 1], t.state);
      }
    }
  }

  /** The project part keeps one workspace of a project in one remote place. */
  lemma {:induction false} ProjectsKeepRemotes(companyId: string, before: ProjectState, imports: seq<ProjectPlan>)
    requires RunProjects(companyId, before, imports).Done? && RemotesUnique(before.workspaces)
    ensures RemotesUnique(RunProjects(companyId, before, imports).state.workspaces)
  {
    hide AddingWorkspaces, RemotesUnique;
    if |imports| > 0 {
      var front, last := imports[..|imports| - 1], imports[|imports| - 1];
      ProjectsKeepRemotes(companyId, before, front);
      var s := RunProjects(companyId, before, front).state;
      WorkspacesKeepRemotes(companyId, last.id, before.workspaces.Keys, s.workspaces, last.workspaces);
    }
  }

  lemma {:induction false} WorkspaceLoop(companyId: string, projectId: string, existing: set<string>,
                                         before: Workspaces, plans: seq<WorkspacePlan>)
    requires existing <= before.Keys
    ensures var outcome := Fold(AddingWorkspaces(companyId, projectId, existing), WorkspaceState(before, 0), plans);
            outcome.Done? ==>
              && WorkspacesGrow(companyId, projectId, before, outcome.state.workspaces)
              && forall p :: p in plans ==> p.id in outcome.state.workspaces
  {
    if |plans| > 0 {
      WorkspaceLoop(companyId, projectId, existing, before, plans[..|plans| - 1]);
      assert plans == plans[..|plans| - 1] + [plans[|plans| - 1]];
    }
  }

  /** The project and all its workspaces are there. */
  ghost predicate ProjectIn(companyId: string, s: ProjectState, plan: ProjectPlan) {
    && plan.id in s.projects && s.projects[plan.id] == ImportedProject(companyId, plan)
    && forall w :: w in plan.workspaces ==> w.id in s.workspaces
  }

  /** Rows that were there are as they were; a new workspace belongs to a new project of this company. */
  ghost predicate ProjectsGrow(companyId: string, before: ProjectState, s: ProjectState) {
    && (forall p :: p in before.projects ==> p in s.projects && s.projects[p] == before.projects[p])
    && (forall p :: p in s.projects && p !in before.projects ==> s.projects[p].companyId == companyId)
    && (forall w :: w in before.workspaces ==> w in s.workspaces && s.workspaces[w] == before.workspaces[w])
    && forall w :: w in s.workspaces && w !in before.workspaces ==>
         && s.workspaces[w].companyId == companyId
         && s.workspaces[w].projectId in s.projects && s.workspaces[w].projectId !in before.projects
  }

  /** A step inserts the project row and adds workspaces to it alone. */
  lemma ProjectStepEffect(companyId: string, existing: set<string>, s: ProjectState, plan: ProjectPlan, t: ProjectState)
    requires ProjectStep(companyId, existing, s, plan) == Done(t) && existing <= s.workspaces.Keys
    ensures plan.id !in s.projects && t.projects == s.projects[plan.id := ImportedProject(companyId, plan)]
    ensures WorkspacesGrow(companyId, plan.id, s.workspaces, t.workspaces) && ProjectIn(companyId, t, plan)
    ensures t.insertedProjects == s.insertedProjects + 1
  {
    hide ImportedProject;
    WorkspaceLoop(companyId, plan.id, existing, s.workspaces, plan.workspaces);
    hide Fold;
  }

  lemma StepGrows(companyId: string, before: ProjectState, s: ProjectState, plan: ProjectPlan, t: ProjectState)
    requires ProjectsGrow(companyId, before, s) && plan.id !in s.projects
    requires t.projects == s.projects[plan.id := ImportedProject(companyId, plan)]
    requires WorkspacesGrow(companyId, plan.id, s.workspaces, t.workspaces)
    ensures ProjectsGrow(companyId, before, t)
  {
    ImportedUnder(companyId, plan);
    hide ImportedProject;
  }

  lemma ImportedUnder(companyId: string, plan: ProjectPlan)
    ensures ImportedProject(companyId, plan).companyId == companyId
  {
  }

  lemma ProjectStays(companyId: string, s: ProjectState, plan: ProjectPlan, t: ProjectState, p: ProjectPlan)
    requires ProjectIn(companyId, s, p) && plan.id !in s.projects
    requires t.projects == s.projects[plan.id := ImportedProject(companyId, plan)]
    requires WorkspacesGrow(companyId, plan.id, s.workspaces, t.workspaces)
    ensures ProjectIn(companyId, t, p)
  {
    hide ImportedProject;
  }

  /** Every imported project comes in as planned with all its workspaces there, and nothing else changes. */
  lemma {:induction false} ProjectsOutcome(companyId: string, before: ProjectState, imports: seq<ProjectPlan>)
    requires RunProjects(companyId, before, imports).Done?
    ensures var t := RunProjects(companyId, before, imports).state;
            && ProjectsGrow(companyId, before, t)
            && (forall p :: p in imports ==> ProjectIn(companyId, t, p))
            && t.insertedProjects == before.insertedProjects + |imports|
  {
    hide ProjectsGrow, ProjectIn, ProjectStep;
    if |imports| == 0 {
      NoProjectYet(companyId, before);
    } else {
      var front, last := imports[..|imports| - 1], imports[|imports| - 1];
      ProjectsOutcome(companyId, before, front);
      var s, t := RunProjects(companyId, before, front).state, RunProjects(companyId, before, imports).state;
      assert before.workspaces.Keys <= s.workspaces.Keys by {
        NoneLost(companyId, before, s);
      }
      ProjectStepEffect(companyId, before.workspaces.Keys, s, last, t);
      StepGrows(companyId, before, s, last, t);
      hide RunProjects, ImportedProject, WorkspacesGrow;
      forall p | p in imports
        ensures ProjectIn(companyId, t, p)
      {
        if p in front {
          ProjectStays(companyId, s, last, t, p);
        } else {
          assert p == last;
        }
      }
    }
  }

  lemma NoneLost(companyId: string, before: ProjectState, s: ProjectState)
    requires ProjectsGrow(companyId, before, s)
    ensures before.workspaces.Keys <= s.workspaces.Keys
  {
  }

  lemma NoProjectYet(companyId: string, before: ProjectState)
    ensures ProjectsGrow(companyId, before, before)
  {
  }

  function NoneInserted(s: ProjectState): ProjectState {
    s.(insertedProjects := 0, insertedWorkspaces := 0)
  }

  /** Every planned project is there afterwards, so the same plan again inserts nothing. */
  lemma ProjectsAgain(companyId: string, before: ProjectState, plans: seq<ProjectPlan>)
    requires ImportProjects(companyId, before, plans).Done?
    ensures var t := ImportProjects(companyId, before, plans).state;
            && (forall p :: p in plans ==> p.id in t.projects)
            && ImportProjects(companyId, NoneInserted(t), plans) == Done(NoneInserted(t))
  {
    var imports, t := Keep(IsNewProject(before.projects.Keys), plans), ImportProjects(companyId, before, plans).state;
    ProjectsOutcome(companyId, before, imports);
    forall p | p in plans
      ensures p.id in t.projects
    {
      if p.id !in before.projects {
        assert p in imports && ProjectIn(companyId, t, p);
      }
    }
    KeepNone(IsNewProject(t.projects.Keys), plans);
  }
}
