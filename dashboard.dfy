/**
 * The dashboard's notification bell. The effect that reads
 * `reviewNotification` lists `showNotification` among its dependencies, so it
 * runs again after every change of that flag; that is why closing the dropdown
 * with the bell is undone while the notification is still stored.
 */
module Dashboard {
  import opened Wrappers
  import opened Store

  /** The stored notification is present, non-empty and parses. */
  predicate HoldsNotification(saved: Option<Item<Record>>) {
    saved.Some? && saved.value.Json?
  }

  class Dashboard {
    var notification: Option<Record>
    var showNotification: bool

    constructor ()
      ensures notification == None && !showNotification
    {
      notification := None;
      showNotification := false;
    }

    /** The badge with the count shows exactly when a notification is held. */
    predicate BadgeShown()
      reads this
    {
      notification.Some?
    }

    /** The dropdown shows exactly when it is open and a notification is held. */
    predicate DropdownShown()
      reads this
    {
      showNotification && notification.Some?
    }

    /**
     * The body of the effect: a stored notification is taken into state and
     * the dropdown opened; `thrown` when `JSON.parse` rejects the stored text.
     */
    method LoadEffect(store: Storage) returns (thrown: bool)
      modifies this
      ensures thrown <==> store.GetItem(ReviewNotificationKey) == Some(Malformed)
      ensures HoldsNotification(store.GetItem(ReviewNotificationKey)) ==>
        notification == Some(store.GetItem(ReviewNotificationKey).value.value) && showNotification && DropdownShown()
      ensures !HoldsNotification(store.GetItem(ReviewNotificationKey)) ==>
        notification == old(notification) && showNotification == old(showNotification)
    {
      thrown := false;
      var saved := store.GetItem(ReviewNotificationKey);
      if Truthy(saved) {
        match saved.value
        case Malformed =>
          thrown := true;
        case Json(notif) =>
          notification := Some(notif);
          showNotification := true;
      }
    }

    /** Mount: the effect's first run. Its second run, caused by opening the dropdown, changes nothing further. */
    method Mount(store: Storage) returns (thrown: bool)
      modifies this
      ensures thrown <==> store.GetItem(ReviewNotificationKey) == Some(Malformed)
      ensures HoldsNotification(store.GetItem(ReviewNotificationKey)) ==>
        notification == Some(store.GetItem(ReviewNotificationKey).value.value) && DropdownShown()
      ensures !HoldsNotification(store.GetItem(ReviewNotificationKey)) ==>
        notification == old(notification) && showNotification == old(showNotification)
    {
      thrown := LoadEffect(store);
    }

    /** The bell as the page intends it: the dropdown flips, nothing else changes. */
    method ToggleBell()
      modifies this`showNotification
      ensures showNotification == !old(showNotification)
      ensures BadgeShown() == old(BadgeShown())
    {
      showNotification := !showNotification;
    }

    /**
     * The bell as written: the flag flips, and since it changed the effect runs
     * again, reopening the dropdown whenever the notification is still stored.
     */
    method ToggleBellAsWritten(store: Storage) returns (thrown: bool)
      modifies this
      ensures thrown <==> store.GetItem(ReviewNotificationKey) == Some(Malformed)
      ensures HoldsNotification(store.GetItem(ReviewNotificationKey)) ==>
        notification == Some(store.GetItem(ReviewNotificationKey).value.value) && showNotification && DropdownShown()
      ensures !HoldsNotification(store.GetItem(ReviewNotificationKey)) ==>
        showNotification == !old(showNotification) && notification == old(notification)
    {
      showNotification := !showNotification;
      thrown := LoadEffect(store);
    }

    /** `dismissNotification`: close the dropdown and remove the stored notification; the badge stays. */
    method Dismiss(store: Storage)
      modifies this`showNotification, store
      ensures !showNotification && !DropdownShown()
      ensures notification == old(notification) && BadgeShown() == old(BadgeShown())
      ensures store.items == old(store.items) - {ReviewNotificationKey}
      ensures store.GetItem(ReviewNotificationKey) == None
    {
      showNotification := false;
      store.RemoveItem(ReviewNotificationKey);
    }
  }

  /** A stored notification, as the review page's approve leaves it. */
  function StoredNotification(): Item<Record> {
    Json(Notification(1, "1 Document Reviewed", Instant(0)))
  }

  /** As written, the bell cannot close the dropdown that mounting opened while the notification is stored. */
  method BellCannotClose() returns (shown: bool)
    ensures shown
  {
    var store := new Storage(map[ReviewNotificationKey := StoredNotification()]);
    var page := new Dashboard();
    var _ := page.Mount(store);
    var _ := page.ToggleBellAsWritten(store);
    shown := page.DropdownShown();
  }

  /** With the effect reading storage on mount only, the bell closes the dropdown. */
  method BellCloses() returns (shown: bool)
    ensures !shown
  {
    var store := new Storage(map[ReviewNotificationKey := StoredNotification()]);
    var page := new Dashboard();
    var _ := page.Mount(store);
    page.ToggleBell();
    shown := page.DropdownShown();
  }
}
