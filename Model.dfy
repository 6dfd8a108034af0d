/** The records of the comic generator (model/ComicPanel.kt). */
module Model {
  import opened Wrappers

  /** One panel; `imageUrl` is None until an image has been fetched. */
  datatype ComicPanel = ComicPanel(
    panelNumber: int,
    description: string,
    dialogue: string,
    imageUrl: Option<string>,
    isGenerating: bool)

  /** A story outline; `totalPanels` is set from the panel list when the
      outline is parsed. */
  datatype ComicStory = ComicStory(title: string, panels: seq<ComicPanel>, totalPanels: int)

  /** What the user asked for. */
  datatype ComicRequest = ComicRequest(prompt: string, readingTimeMinutes: int, childAge: int)
}
