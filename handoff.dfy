/**
 * The review hand-off across pages, through the shared store: the composer
 * stores its document, the header's editor switch leads to the review page,
 * the review page shows the document and approves it or sends it back, and
 * the dashboard picks up the notification.
 */
module HandOff {
  import opened Wrappers
  import opened Store
  import Composer
  import GlobalHeader
  import ReviewPage
  import Dashboard

  /**
   * A document typed in the composer, sent for review and approved: the
   * editor switch leads to the review page, which shows exactly that
   * document; approval leaves no document stored and a dashboard that shows
   * the one-document notification.
   */
  method ApproveHandOff(content: string, requested: Instant, approved: Instant)
    returns (toReview: Option<string>, shown: string, toDashboard: string, notification: Option<Record>, documentLeft: bool)
    ensures toReview == Some("/review")
    ensures shown == content
    ensures toDashboard == "/dashboard"
    ensures notification == Some(Notification(1, ReviewPage.ApprovedMessage, approved))
    ensures !documentLeft
  {
    var store := new Storage(map[]);
    var composer := new Composer.ComposerPage();
    composer.OnInput(content);
    composer.RequestReview(store, requested);
    var header := new GlobalHeader.GlobalHeader();
    toReview := header.Toggle(store);
    var review := new ReviewPage.ReviewPage();
    var _ := review.Mount(store);
    shown := review.documentContent;
    review.BeginProcessing();
    toDashboard := review.FinishApprove(store, approved);
    var dashboard := new Dashboard.Dashboard();
    var _ := dashboard.Mount(store);
    notification := dashboard.notification;
    documentLeft := store.GetItem(ReviewDocumentKey).Some?;
  }

  /**
   * A document sent back with "request changes": the composer's text is stored
   * again unchanged, now marked for changes, and no notification is left.
   */
  method ChangesHandOff(content: string, requested: Instant, returned: Instant)
    returns (toComposer: string, stored: Option<string>, notificationLeft: bool)
    ensures toComposer == "/composer"
    ensures stored == Some(content)
    ensures !notificationLeft
  {
    var store := new Storage(map[]);
    var composer := new Composer.ComposerPage();
    composer.OnInput(content);
    composer.RequestReview(store, requested);
    var review := new ReviewPage.ReviewPage();
    var _ := review.Mount(store);
    review.BeginProcessing();
    toComposer := review.FinishRequestChanges(store, returned);
    stored := ReviewPage.StoredContent(store.GetItem(ReviewDocumentKey));
    notificationLeft := store.GetItem(ReviewNotificationKey).Some?;
  }
}
