/**
 * The browser's key-value store as the pages see it. `JSON.stringify` and
 * `JSON.parse` are not modelled: a stored item is either the empty string,
 * a text that does not parse, or the parsed record itself.
 */
module Store {
  import opened Wrappers

  /** A point in time in milliseconds; `toISOString()` renders it, and that rendering is not modelled. */
  datatype Instant = Instant(ms: int)

  /** A present storage item after `JSON.parse`. */
  datatype Item<+T> = Blank | Malformed | Json(value: T)

  /** `if (saved)`: `getItem` gave a non-empty string. */
  predicate Truthy<T>(saved: Option<Item<T>>) {
    saved.Some? && !saved.value.Blank?
  }

  /** The records the composer, review and dashboard pages hand to each other. */
  datatype Record =
    | ReviewDocument(content: Option<string>, status: Option<string>, timestamp: Instant)
    | Notification(count: int, message: string, timestamp: Instant)

  const ReviewDocumentKey := "reviewDocument"
  const ReviewNotificationKey := "reviewNotification"

  /** `localStorage` restricted to the keys of the review hand-off. */
  class Storage {
    var items: map<string, Item<Record>>

    constructor (initial: map<string, Item<Record>>)
      ensures items == initial
    {
      items := initial;
    }

    /** `localStorage.getItem(key)`, `None` standing for `null`. */
    function GetItem(key: string): Option<Item<Record>>
      reads this
    {
      if key in items then Some(items[key]) else None
    }

    method SetItem(key: string, item: Item<Record>)
      modifies this
      ensures items == old(items)[key := item]
    {
      items := items[key := item];
    }

    method RemoveItem(key: string)
      modifies this
      ensures items == old(items) - {key}
    {
      items := items - {key};
    }
  }
}
