/**
 * The recent-projects reducer: a pure function from the current list and an
 * action to the next list. Actions reach it with their payload type erased;
 * `Payload` lists the shapes the reducer's casts expect, plus the
 * `{projectId, filePath}` shape the store's projectSaved creator builds.
 *
 * Two of its tags, PROJECT_OPENED and PROJECT_SAVED, come from
 * currentProject/actions.ts, and `makeRecentProject` from sharedUtils; neither
 * file is part of this model, so both arrive as parameters.
 */
module RecentProjectsReducer {
  import opened Wrappers
  import opened SharedTypes
  import opened StoreHelpers
  import opened RecentProjectsActions
  import StoreActions

  /** The string values of the tags imported from the current-project slice. */
  datatype CurrentProjectTags = CurrentProjectTags(projectOpened: string, projectSaved: string)

  /** A payload as the reducer receives it. */
  datatype Payload =
    | AddedPayload(recentProject: RecentProject)
    | LoadedPayload(recentProjects: seq<RecentProject>)
    | OpenedPayload(project: Project, filePath: Option<string>)
    | SavedPayload(savedProject: Project, metadata: ProjectMetadata, savedFilePath: string)
    | SavedIdPayload(projectId: string, savedIdFilePath: string)
    | IdPayload(id: string)
    | OtherPayload

  /**
   * The payload has the shape the reducer casts it to for the first branch
   * whose tag matches; an action matching no branch may carry anything.
   */
  predicate Fits(tags: CurrentProjectTags, action: Action<Payload>) {
    if action.tag == RECENT_PROJECT_ADDED then action.payload.AddedPayload?
    else if action.tag == RECENT_PROJECTS_LOADED then action.payload.LoadedPayload?
    else if action.tag == tags.projectOpened then action.payload.OpenedPayload?
    else if action.tag == tags.projectSaved then action.payload.SavedPayload?
    else if action.tag == PROJECT_DELETED then action.payload.IdPayload?
    else true
  }

  /** The `map` of PROJECT_OPENED: the entries with the opened project's id get the new project file. */
  function WithProjectFilePath(recentProjects: seq<RecentProject>, id: string, filePath: Option<string>): seq<RecentProject> {
    seq(|recentProjects|, i requires 0 <= i < |recentProjects| =>
      if recentProjects[i].id == id then recentProjects[i].(projectFilePath := filePath) else recentProjects[i])
  }

  /** The `filter` of PROJECT_DELETED: the entries whose id differs, in their order. */
  function WithoutId(recentProjects: seq<RecentProject>, id: string): (kept: seq<RecentProject>)
    ensures |kept| <= |recentProjects|
    decreases |recentProjects|
  {
    if recentProjects == [] then []
    else (if recentProjects[0].id != id then [recentProjects[0]] else []) + WithoutId(recentProjects[1..], id)
  }

  /**
   * recentProjectsReducer: the branches in the source's order, the state
   * unchanged for any other action. Only a load can grow the list by more than
   * one entry, and only an added or saved project can grow it at all.
   */
  function Reduce(
    tags: CurrentProjectTags,
    makeRecentProject: (Project, ProjectMetadata, string) -> RecentProject,
    recentProjects: seq<RecentProject>,
    action: Action<Payload>): (next: seq<RecentProject>)
    requires Fits(tags, action)
    ensures action.tag != RECENT_PROJECTS_LOADED ==> |next| <= |recentProjects| + 1
    ensures action.tag !in {RECENT_PROJECTS_LOADED, RECENT_PROJECT_ADDED, tags.projectSaved} ==> |next| <= |recentProjects|
  {
    if action.tag == RECENT_PROJECT_ADDED then
      [action.payload.recentProject] + recentProjects
    else if action.tag == RECENT_PROJECTS_LOADED then
      action.payload.recentProjects
    else if action.tag == tags.projectOpened then
      WithProjectFilePath(recentProjects, action.payload.project.id, action.payload.filePath)
    else if action.tag == tags.projectSaved then
      var recentProject := makeRecentProject(action.payload.savedProject, action.payload.metadata, action.payload.savedFilePath);
      recentProjects + [recentProject]
    else if action.tag == PROJECT_DELETED then
      WithoutId(recentProjects, action.payload.id)
    else
      recentProjects
  }

  /** A recent-projects action as the store hands it to the reducer. */
  function AsAdded(a: Action<RecentProject>): Action<Payload> {
    Action(a.tag, AddedPayload(a.payload))
  }

  function AsLoaded(a: Action<seq<RecentProject>>): Action<Payload> {
    Action(a.tag, LoadedPayload(a.payload))
  }

  function AsDeleted(a: Action<DeletedPayload>): Action<Payload> {
    Action(a.tag, IdPayload(a.payload.id))
  }

  /** The current-project tags are told apart from the recent-projects tags and from each other. */
  predicate DistinctTags(tags: CurrentProjectTags) {
    var own := {RECENT_PROJECT_ADDED, RECENT_PROJECTS_LOADED, PROJECT_DELETED};
    tags.projectOpened !in own && tags.projectSaved !in own && tags.projectOpened != tags.projectSaved
  }

  /** recentProjectAdded puts the project first and keeps the rest, in order. */
  lemma AddedPrepends(tags: CurrentProjectTags, mk: (Project, ProjectMetadata, string) -> RecentProject,
                      recentProjects: seq<RecentProject>, project: RecentProject)
    ensures var r := Reduce(tags, mk, recentProjects, AsAdded(RecentProjectAdded(project)));
      |r| == |recentProjects| + 1 && r[0] == project && r[1..] == recentProjects
  {
  }

  /** recentProjectsLoaded replaces the whole list by its payload. */
  lemma LoadedReplaces(tags: CurrentProjectTags, mk: (Project, ProjectMetadata, string) -> RecentProject,
                       recentProjects: seq<RecentProject>, loaded: seq<RecentProject>)
    requires Fits(tags, AsLoaded(RecentProjectsLoaded(loaded)))
    ensures Reduce(tags, mk, recentProjects, AsLoaded(RecentProjectsLoaded(loaded))) == loaded
  {
  }

  /**
   * Opening a project keeps the list's length, order and ids; the entries with
   * the project's id get the new project file and nothing else changes.
   */
  lemma OpenedUpdatesById(tags: CurrentProjectTags, mk: (Project, ProjectMetadata, string) -> RecentProject,
                          recentProjects: seq<RecentProject>, project: Project, filePath: Option<string>)
    requires DistinctTags(tags)
    ensures var r := Reduce(tags, mk, recentProjects, Action(tags.projectOpened, OpenedPayload(project, filePath)));
      && |r| == |recentProjects|
      && (forall i :: 0 <= i < |r| ==> r[i].id == recentProjects[i].id)
      && (forall i :: 0 <= i < |r| && recentProjects[i].id == project.id ==>
            r[i] == recentProjects[i].(projectFilePath := filePath))
      && (forall i :: 0 <= i < |r| && recentProjects[i].id != project.id ==> r[i] == recentProjects[i])
  {
  }

  /** Opening the same project from the same file twice leaves the list as once. */
  lemma OpenedIdempotent(tags: CurrentProjectTags, mk: (Project, ProjectMetadata, string) -> RecentProject,
                         recentProjects: seq<RecentProject>, project: Project, filePath: Option<string>)
    requires DistinctTags(tags)
    ensures var a := Action(tags.projectOpened, OpenedPayload(project, filePath));
      Reduce(tags, mk, Reduce(tags, mk, recentProjects, a), a) == Reduce(tags, mk, recentProjects, a)
  {
    var a := Action(tags.projectOpened, OpenedPayload(project, filePath));
    var once := Reduce(tags, mk, recentProjects, a);
    OpenedUpdatesById(tags, mk, recentProjects, project, filePath);
    OpenedUpdatesById(tags, mk, once, project, filePath);
  }

  /** A save appends exactly one entry, built from the payload, after the unchanged list. */
  lemma SavedAppends(tags: CurrentProjectTags, mk: (Project, ProjectMetadata, string) -> RecentProject,
                     recentProjects: seq<RecentProject>, project: Project, metadata: ProjectMetadata, filePath: string)
    requires DistinctTags(tags)
    ensures var r := Reduce(tags, mk, recentProjects, Action(tags.projectSaved, SavedPayload(project, metadata, filePath)));
      && |r| == |recentProjects| + 1
      && r[..|recentProjects|] == recentProjects
      && r[|recentProjects|] == mk(project, metadata, filePath)
  {
    var r := recentProjects + [mk(project, metadata, filePath)];
    assert r[..|recentProjects|] == recentProjects;
  }

  /**
   * The store's projectSaved builds `{projectId, filePath}`, which is not the
   * payload the reducer's PROJECT_SAVED branch reads: should the two tags be
   * the same string, that action does not fit the reducer.
   */
  lemma StoreProjectSavedDoesNotFit(tags: CurrentProjectTags, projectId: string, filePath: string)
    requires DistinctTags(tags) && tags.projectSaved == StoreActions.PROJECT_SAVED
    ensures var a := StoreActions.ProjectSaved(projectId, filePath);
      !Fits(tags, Action(a.tag, SavedIdPayload(a.payload.projectId, a.payload.filePath)))
  {
  }

  /** `a` is `b` with some entries left out, the rest in the same order. */
  predicate IsSubsequence(a: seq<RecentProject>, b: seq<RecentProject>)
    decreases |b|
  {
    if a == [] then true
    else if b == [] then false
    else if a[0] == b[0] then IsSubsequence(a[1..], b[1..])
    else IsSubsequence(a, b[1..])
  }

  /**
   * The filter keeps no entry with the id, keeps every other entry as many
   * times as it occurred, and keeps their order.
   */
  lemma WithoutIdSpec(recentProjects: seq<RecentProject>, id: string)
    ensures var r := WithoutId(recentProjects, id);
      && (forall i :: 0 <= i < |r| ==> r[i].id != id)
      && (forall p: RecentProject :: p.id != id ==> multiset(r)[p] == multiset(recentProjects)[p])
      && IsSubsequence(r, recentProjects)
  {
    WithoutIdCounts(recentProjects, id);
    WithoutIdOrder(recentProjects, id);
  }

  lemma {:induction false} WithoutIdCounts(recentProjects: seq<RecentProject>, id: string)
    ensures var r := WithoutId(recentProjects, id);
      && (forall i :: 0 <= i < |r| ==> r[i].id != id)
      && (forall p: RecentProject :: p.id != id ==> multiset(r)[p] == multiset(recentProjects)[p])
    decreases |recentProjects|
  {
    if recentProjects != [] {
      var head, tail := recentProjects[0], recentProjects[1..];
      WithoutIdCounts(tail, id);
      assert recentProjects == [head] + tail;
    }
  }

  lemma {:induction false} WithoutIdOrder(recentProjects: seq<RecentProject>, id: string)
    ensures IsSubsequence(WithoutId(recentProjects, id), recentProjects)
    decreases |recentProjects|
  {
    if recentProjects != [] {
      var head, tail := recentProjects[0], recentProjects[1..];
      WithoutIdOrder(tail, id);
      var rest := WithoutId(tail, id);
      if head.id != id {
        assert WithoutId(recentProjects, id) == [head] + rest;
        assert ([head] + rest)[1..] == rest;
      } else {
        assert WithoutId(recentProjects, id) == rest;
        WithoutIdCounts(tail, id);
        assert rest != [] ==> rest[0].id != head.id;
        SkipHead(rest, recentProjects);
      }
    }
  }

  lemma SkipHead(a: seq<RecentProject>, b: seq<RecentProject>)
    requires b != [] && IsSubsequence(a, b[1..])
    requires a != [] ==> a[0] != b[0]
    ensures IsSubsequence(a, b)
  {
  }

  /** Deleting removes every entry with the id and keeps the others, in order. */
  lemma DeletedFilters(tags: CurrentProjectTags, mk: (Project, ProjectMetadata, string) -> RecentProject,
                       recentProjects: seq<RecentProject>, id: string)
    requires DistinctTags(tags)
    ensures var r := Reduce(tags, mk, recentProjects, AsDeleted(ProjectDeleted(id)));
      && (forall i :: 0 <= i < |r| ==> r[i].id != id)
      && (forall p: RecentProject :: p.id != id ==> multiset(r)[p] == multiset(recentProjects)[p])
      && IsSubsequence(r, recentProjects)
  {
    WithoutIdSpec(recentProjects, id);
  }

  /** Any action of another tag leaves the list as it was. */
  lemma OtherActionsKeepState(tags: CurrentProjectTags, mk: (Project, ProjectMetadata, string) -> RecentProject,
                              recentProjects: seq<RecentProject>, action: Action<Payload>)
    requires action.tag !in {RECENT_PROJECT_ADDED, RECENT_PROJECTS_LOADED, tags.projectOpened, tags.projectSaved, PROJECT_DELETED}
    ensures Fits(tags, action) && Reduce(tags, mk, recentProjects, action) == recentProjects
  {
  }
}
