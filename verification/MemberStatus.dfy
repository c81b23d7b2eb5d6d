/** The status of a member's row, and the optional values the other modules use. */
module MemberStatus {

  datatype Option<+T> = None | Some(value: T)

  datatype Status = ACTIVE | PROBATIONARY | LOA | RETIRED | OtherStatus(name: string)

  /** The statuses that end a member's sessions and stop their pages. */
  predicate Inactive(status: Status) {
    status.LOA? || status.RETIRED?
  }
}
