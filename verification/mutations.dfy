/** What a mutation hook produces: the draft handed to the publish client,
    the cached query keys it marks stale on success and the toast it shows;
    or, when a guard fails, the error toast. Publishing is fire-and-forget
    (`mutate`), so a mutation whose guards pass always reaches `onSuccess`. */
module Mutations {
  import opened Wire

  /** A react-query key such as `['event-rsvps', eventId]`. */
  type QueryKey = seq<string>

  /** `invalidateQueries({ queryKey: key })` marks every cached query whose
      key starts with `key`. */
  predicate Invalidates(key: QueryKey, cached: QueryKey) {
    key <= cached
  }

  datatype Published = Published(
    draft: Draft,
    invalidated: seq<QueryKey>,
    toastTitle: string,
    toastDescription: string)

  datatype Failure = Failure(toastTitle: string, message: string)

  const NotLoggedIn := "User not logged in"

  /** Some key in `keys` marks `cached` stale. */
  predicate AnyInvalidates(keys: seq<QueryKey>, cached: QueryKey) {
    exists i :: 0 <= i < |keys| && Invalidates(keys[i], cached)
  }
}
