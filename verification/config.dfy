/** The service's fixed configuration of booking fields. */
module Config {

  /** Fields a caller may ever see of a stored booking. */
  const SafeBookingFields: seq<string> := ["id", "userId", "storeId", "agentId", "date"]

  /** Fields the list operation may filter on, in declaration order. */
  const SearchableBookingFields: seq<string> := ["userId", "storeId", "agentId", "date"]

  /** The alias the list query gives the bookings collection. */
  const CollectionAlias: string := "b"
}
