/** The pieces the two paged list queries (companies, logs) share. */
module Paging {
  import opened Wrappers

  datatype SortOrder = Asc | Desc

  /** A calendar day: `Between(startOfDay(d), endOfDay(d))`. */
  datatype DayRange = DayOf(date: string)

  /** The `meta` object of a page: `{ total, offset, limit }`. */
  datatype PageMeta = PageMeta(total: nat, offset: nat, limit: nat)

  /** The default page when the query names none. */
  const DefaultOffset: nat := 0
  const DefaultLimit: nat := 10

  /** JavaScript truthiness of an optional string: present and not empty. */
  predicate Truthy(s: Option<string>) {
    s.Some? && s.value != ""
  }
}
