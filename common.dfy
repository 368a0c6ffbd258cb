/** Value types shared by the pages, the hook, the edge function and the list component. */
module Common {

  /** A value that may be absent: JavaScript's `null`/`undefined` for one field. */
  datatype Option<+T> = None | Some(value: T)

  /** Identifiers are opaque strings (UUIDs in the store). */
  type UserId = string
  type PlatformId = string
  type ItemId = string

  /** A platform row of the `platforms` table, as the selection page holds it. */
  datatype Platform = Platform(id: PlatformId, name: string, logoUrl: string)
}
