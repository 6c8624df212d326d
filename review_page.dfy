/**
 * The review page: on mount it shows the content stored under
 * `reviewDocument`; "approve" leaves a notification for the dashboard and
 * clears the document, "request changes" stores the document back marked
 * `changes-requested`. Each action runs with the buttons disabled, around a
 * delay that is not modelled.
 */
module ReviewPage {
  import opened Wrappers
  import opened Store

  const ApprovedMessage := "1 Document Reviewed"
  const ChangesRequested := "changes-requested"

  /**
   * What the mount effect makes of the stored `reviewDocument`: `None` when
   * `JSON.parse` throws (the parse is not guarded), otherwise the content to
   * show, `Some("")` when nothing usable is stored.
   */
  function StoredContent(saved: Option<Item<Record>>): (r: Option<string>)
    ensures r == None <==> saved == Some(Malformed)
    ensures !Truthy(saved) ==> r == Some("")
    ensures saved.Some? && saved.value.Json? && saved.value.value.ReviewDocument? ==>
      r == Some(saved.value.value.content.GetOr(""))
  {
    if !Truthy(saved) then Some("")
    else
      match saved.value
      case Malformed => None
      case Json(ReviewDocument(content, _, _)) => Some(content.GetOr(""))
      case Json(_) => Some("")
  }

  /** What the composer stores for review is what the review page shows. */
  lemma ShowsComposedContent(content: string, status: Option<string>, now: Instant)
    ensures StoredContent(Some(Json(ReviewDocument(Some(content), status, now)))) == Some(content)
  {
  }

  class ReviewPage {
    var documentContent: string
    var isProcessing: bool

    constructor ()
      ensures documentContent == "" && !isProcessing
    {
      documentContent := "";
      isProcessing := false;
    }

    /** Both action buttons are disabled while an action runs. */
    predicate ButtonsDisabled()
      reads this
    {
      isProcessing
    }

    /** The approve button's label. */
    function ApproveLabel(): (text: string)
      reads this
      ensures text == "Processing..." <==> ButtonsDisabled()
    {
      if isProcessing then "Processing..." else "Approve & Finalize"
    }

    /** The mount effect; `thrown` when `JSON.parse` rejects the stored text, which leaves the content "". */
    method Mount(store: Storage) returns (thrown: bool)
      modifies this`documentContent
      ensures thrown <==> StoredContent(store.GetItem(ReviewDocumentKey)) == None
      ensures !thrown ==> documentContent == StoredContent(store.GetItem(ReviewDocumentKey)).value
      ensures thrown ==> documentContent == old(documentContent)
    {
      var loaded := StoredContent(store.GetItem(ReviewDocumentKey));
      thrown := loaded.None?;
      if loaded.Some? {
        documentContent := loaded.value;
      }
    }

    /** Either handler up to its delay. */
    method BeginProcessing()
      modifies this`isProcessing
      ensures isProcessing && ButtonsDisabled()
    {
      isProcessing := true;
    }

    /** `handleApprove` after its delay: notify, clear the document, go to the dashboard. */
    method FinishApprove(store: Storage, now: Instant) returns (navigation: string)
      modifies this`isProcessing, store
      ensures store.items
        == (old(store.items)[ReviewNotificationKey := Json(Notification(1, ApprovedMessage, now))]) - {ReviewDocumentKey}
      ensures store.GetItem(ReviewDocumentKey) == None
      ensures store.GetItem(ReviewNotificationKey) == Some(Json(Notification(1, ApprovedMessage, now)))
      ensures !isProcessing && navigation == "/dashboard"
    {
      store.SetItem(ReviewNotificationKey, Json(Notification(1, ApprovedMessage, now)));
      store.RemoveItem(ReviewDocumentKey);
      isProcessing := false;
      navigation := "/dashboard";
    }

    /** `handleRequestChanges` after its delay: store the document back marked for changes, go to the composer. */
    method FinishRequestChanges(store: Storage, now: Instant) returns (navigation: string)
      modifies this`isProcessing, store
      ensures store.items
        == old(store.items)[ReviewDocumentKey := Json(ReviewDocument(Some(documentContent), Some(ChangesRequested), now))]
      ensures store.GetItem(ReviewNotificationKey) == old(store.GetItem(ReviewNotificationKey))
      ensures StoredContent(store.GetItem(ReviewDocumentKey)) == Some(documentContent)
      ensures !isProcessing && navigation == "/composer"
    {
      store.SetItem(ReviewDocumentKey, Json(ReviewDocument(Some(documentContent), Some(ChangesRequested), now)));
      isProcessing := false;
      navigation := "/composer";
    }
  }
}
