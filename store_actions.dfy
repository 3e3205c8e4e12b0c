/**
 * The application store's action tags and creators. Every creator tags its
 * arguments and passes them on untouched; the creators without arguments carry
 * a null payload, written `()`. The undo-stack operation type is defined
 * outside this model and stays a type parameter.
 */
module StoreActions {
  import opened Wrappers
  import opened SharedTypes
  import opened StoreHelpers
  import RecentProjectsActions

  const PROJECT_CREATED := "PROJECT_CREATED"
  const PROJECT_OPENED := "PROJECT_OPENED"
  const PROJECT_NAME_SUBMITTED := "PROJECT_NAME_SUBMITTED"
  const CURRENT_PROJECT_CLOSED := "CURRENT_PROJECT_CLOSED"
  const RECENT_PROJECT_ADDED := "RECENT_PROJECT_ADDED"
  const TRANSCRIPTION_CREATED := "TRANSCRIPTION_CREATED"
  const PAGE_CHANGED := "PAGE_CHANGED"
  const RECENT_PROJECTS_LOADED := "RECENT_PROJECTS_LOADED"
  const PROJECT_SAVED := "PROJECT_SAVED"
  const PROJECT_SAVED_FIRST_TIME := "PROJECT_SAVED_FIRST_TIME"

  const START_EXPORT := "START_EXPORT"
  const EXPORT_PROGRESS_UPDATE := "EXPORT_PROGRESS_UPDATE"
  /** The tag of finishExport; its string reads FINISH_UPDATE. */
  const FINISH_EXPORT := "FINISH_UPDATE"

  const UNDO_STACK_PUSHED := "UNDO_STACK_PUSHED"
  const UNDO_STACK_POPPED := "UNDO_STACK_POPPED"
  const OP_REDONE := "OP_REDONE"

  /** Every tag this file declares, in declaration order. */
  const TAGS: seq<string> := [
    PROJECT_CREATED, PROJECT_OPENED, PROJECT_NAME_SUBMITTED, CURRENT_PROJECT_CLOSED,
    RECENT_PROJECT_ADDED, TRANSCRIPTION_CREATED, PAGE_CHANGED, RECENT_PROJECTS_LOADED,
    PROJECT_SAVED, PROJECT_SAVED_FIRST_TIME, START_EXPORT, EXPORT_PROGRESS_UPDATE,
    FINISH_EXPORT, UNDO_STACK_PUSHED, UNDO_STACK_POPPED, OP_REDONE]

  datatype OpenedPayload = OpenedPayload(project: Project, filePath: Option<string>)
  datatype SavedPayload = SavedPayload(projectId: string, filePath: string)
  datatype SavedFirstTimePayload = SavedFirstTimePayload(project: Project, metadata: ProjectMetadata, filePath: string)

  function ProjectCreated(project: Project): (a: Action<Project>)
    ensures a.tag == PROJECT_CREATED && a.payload == project
  {
    Action(PROJECT_CREATED, project)
  }

  /** The opened project together with the file it was opened from, if any. */
  function ProjectOpened(project: Project, filePath: Option<string>): (a: Action<OpenedPayload>)
    ensures a.tag == PROJECT_OPENED && a.payload.project == project && a.payload.filePath == filePath
  {
    Action(PROJECT_OPENED, OpenedPayload(project, filePath))
  }

  /** A save of a known project: only its id and the file, not the project itself. */
  function ProjectSaved(projectId: string, filePath: string): (a: Action<SavedPayload>)
    ensures a.tag == PROJECT_SAVED && a.payload.projectId == projectId && a.payload.filePath == filePath
  {
    Action(PROJECT_SAVED, SavedPayload(projectId, filePath))
  }

  function ProjectSavedFirstTime(project: Project, metadata: ProjectMetadata, filePath: string): (a: Action<SavedFirstTimePayload>)
    ensures a.tag == PROJECT_SAVED_FIRST_TIME
    ensures a.payload.project == project && a.payload.metadata == metadata && a.payload.filePath == filePath
  {
    Action(PROJECT_SAVED_FIRST_TIME, SavedFirstTimePayload(project, metadata, filePath))
  }

  function CurrentProjectClosed(): (a: Action<()>)
    ensures a.tag == CURRENT_PROJECT_CLOSED
  {
    Action(CURRENT_PROJECT_CLOSED, ())
  }

  function RecentProjectAdded(project: RecentProject): (a: Action<RecentProject>)
    ensures a.tag == RECENT_PROJECT_ADDED && a.payload == project
  {
    Action(RECENT_PROJECT_ADDED, project)
  }

  function TranscriptionCreated(transcription: Transcription): (a: Action<Transcription>)
    ensures a.tag == TRANSCRIPTION_CREATED && a.payload == transcription
  {
    Action(TRANSCRIPTION_CREATED, transcription)
  }

  function PageChanged(page: ApplicationPage): (a: Action<ApplicationPage>)
    ensures a.tag == PAGE_CHANGED && a.payload == page
  {
    Action(PAGE_CHANGED, page)
  }

  function RecentProjectsLoaded(recentProjects: seq<RecentProject>): (a: Action<seq<RecentProject>>)
    ensures a.tag == RECENT_PROJECTS_LOADED && a.payload == recentProjects
  {
    Action(RECENT_PROJECTS_LOADED, recentProjects)
  }

  function UndoStackPushed<Op>(undoAction: Op): (a: Action<Op>)
    ensures a.tag == UNDO_STACK_PUSHED && a.payload == undoAction
  {
    Action(UNDO_STACK_PUSHED, undoAction)
  }

  function UndoStackPopped(): (a: Action<()>)
    ensures a.tag == UNDO_STACK_POPPED
  {
    Action(UNDO_STACK_POPPED, ())
  }

  function OpRedone(): (a: Action<()>)
    ensures a.tag == OP_REDONE
  {
    Action(OP_REDONE, ())
  }

  function StartExport(): (a: Action<()>)
    ensures a.tag == START_EXPORT
  {
    Action(START_EXPORT, ())
  }

  /** The export's progress, passed on as given. */
  function UpdateExportProgress(progress: real): (a: Action<real>)
    ensures a.tag == EXPORT_PROGRESS_UPDATE && a.payload == progress
  {
    Action(EXPORT_PROGRESS_UPDATE, progress)
  }

  function FinishExport(): (a: Action<()>)
    ensures a.tag == FINISH_EXPORT
  {
    Action(FINISH_EXPORT, ())
  }

  /** No two of the sixteen tags are the same string, FINISH_UPDATE included. */
  lemma TagsDistinct()
    ensures |TAGS| == 16
    ensures forall i, j :: 0 <= i < j < |TAGS| ==> TAGS[i] != TAGS[j]
  {
  }

  /**
   * The two tags this file shares with the recent-projects slice are the same
   * strings there, so the actions of either file's creators reach that slice's
   * reducer alike.
   */
  lemma SharedTagsAgree(project: RecentProject, projects: seq<RecentProject>)
    ensures RECENT_PROJECT_ADDED == RecentProjectsActions.RECENT_PROJECT_ADDED
    ensures RECENT_PROJECTS_LOADED == RecentProjectsActions.RECENT_PROJECTS_LOADED
    ensures RecentProjectAdded(project) == RecentProjectsActions.RecentProjectAdded(project)
    ensures RecentProjectsLoaded(projects) == RecentProjectsActions.RecentProjectsLoaded(projects)
  {
  }
}
