/**
 * The recent-projects slice's action tags and creators. Each creator tags its
 * argument and passes it on as the payload untouched.
 */
module RecentProjectsActions {
  import opened SharedTypes
  import opened StoreHelpers

  const RECENT_PROJECT_ADDED := "RECENT_PROJECT_ADDED"
  const RECENT_PROJECTS_LOADED := "RECENT_PROJECTS_LOADED"
  const PROJECT_DELETED := "PROJECT_DELETED"

  /** The payload of a deletion: the id to remove. */
  datatype DeletedPayload = DeletedPayload(id: string)

  function RecentProjectAdded(project: RecentProject): (a: Action<RecentProject>)
    ensures a.tag == RECENT_PROJECT_ADDED && a.payload == project
  {
    Action(RECENT_PROJECT_ADDED, project)
  }

  function RecentProjectsLoaded(recentProjects: seq<RecentProject>): (a: Action<seq<RecentProject>>)
    ensures a.tag == RECENT_PROJECTS_LOADED && a.payload == recentProjects
  {
    Action(RECENT_PROJECTS_LOADED, recentProjects)
  }

  function ProjectDeleted(id: string): (a: Action<DeletedPayload>)
    ensures a.tag == PROJECT_DELETED && a.payload.id == id
  {
    Action(PROJECT_DELETED, DeletedPayload(id))
  }

  /** The three tags are pairwise distinct, so the reducer can tell the actions apart. */
  lemma TagsDistinct()
    ensures RECENT_PROJECT_ADDED != RECENT_PROJECTS_LOADED
    ensures RECENT_PROJECT_ADDED != PROJECT_DELETED
    ensures RECENT_PROJECTS_LOADED != PROJECT_DELETED
  {
  }
}
