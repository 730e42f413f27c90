/** The relay query filter the hooks build (`NostrFilter`). A tag filter
    `'#k': values` is the entry `k := values` of `tagFilters`. */
module Filters {
  import opened Wrappers

  datatype Filter = Filter(
    kinds: seq<int>,
    authors: Option<seq<string>>,
    tagFilters: map<string, seq<string>>,
    since: Option<int>,
    until: Option<int>,
    limit: Option<int>)

  /** A filter on kinds and tag values only. */
  function TagQuery(kind: int, tagFilters: map<string, seq<string>>): (f: Filter)
    ensures f.kinds == [kind] && f.tagFilters == tagFilters
    ensures f.authors.None? && f.since.None? && f.until.None? && f.limit.None?
  {
    Filter([kind], None, tagFilters, None, None, None)
  }
}
