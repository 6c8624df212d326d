/**
 * The global header's editor-mode switch: shown on every page but the login
 * and review pages; switching it on jumps to the review page when a document
 * is waiting for review.
 */
module GlobalHeader {
  import opened Wrappers
  import opened Store

  /** `showEditorToggle`. */
  predicate ShowEditorToggle(pathname: string) {
    pathname != "/login" && pathname != "/review"
  }

  /** The switch is hidden on the login and review pages and shown on the others. */
  lemma EditorToggleVisibility()
    ensures !ShowEditorToggle("/login") && !ShowEditorToggle("/review")
    ensures ShowEditorToggle("/") && ShowEditorToggle("/dashboard") && ShowEditorToggle("/composer")
    ensures ShowEditorToggle("/projects") && ShowEditorToggle("/settings") && ShowEditorToggle("/redactie")
  {
  }

  class GlobalHeader {
    var isEditorMode: bool

    constructor ()
      ensures !isEditorMode
    {
      isEditorMode := false;
    }

    /**
     * `toggleEditorMode`: the mode flips; switching on goes to the review page
     * exactly when `reviewDocument` holds a non-empty string, parsed or not;
     * switching off never navigates.
     */
    method Toggle(store: Storage) returns (navigation: Option<string>)
      modifies this
      ensures isEditorMode == !old(isEditorMode)
      ensures navigation.Some? <==> !old(isEditorMode) && Truthy(store.GetItem(ReviewDocumentKey))
      ensures navigation.Some? ==> navigation.value == "/review"
    {
      var wasEditorMode := isEditorMode;
      isEditorMode := !isEditorMode;
      navigation := None;
      if !wasEditorMode {
        var reviewDoc := store.GetItem(ReviewDocumentKey);
        if Truthy(reviewDoc) {
          navigation := Some("/review");
        }
      }
    }
  }
}
