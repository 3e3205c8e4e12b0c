/**
 * The store's small shared vocabulary: the application's pages and the
 * `{type, payload}` record every action creator builds.
 */
module StoreHelpers {

  /** The two pages the renderer shows. */
  datatype ApplicationPage = Home | ProjectPage {
    function Value(): string {
      match this
      case Home => "HOME"
      case ProjectPage => "PROJECT"
    }
  }

  /** An action: a string tag and a payload of the creator's type. */
  datatype Action<T> = Action(tag: string, payload: T)
}
