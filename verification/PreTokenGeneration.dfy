/** The Cognito pre-token-generation trigger: it refuses a token to a member whose row says LOA or
    RETIRED, lets every other sign-in and refresh through, and puts the department on the access
    token. A failed status lookup lets the token through. */
module PreTokenGeneration {
  import opened MemberStatus

  /** What the status lookup gave: the row's status, no row (or a row without one), or an error. */
  datatype Lookup = Found(status: Status) | NoRow | LookupFailed

  datatype Outcome = Issued | Refused

  predicate IsJsSpace(c: char) {
    || '\t' <= c <= '\r' || c == ' ' || c == '\U{00A0}' || c == '\U{1680}'
    || '\U{2000}' <= c <= '\U{200A}' || c == '\U{2028}' || c == '\U{2029}'
    || c == '\U{202F}' || c == '\U{205F}' || c == '\U{3000}' || c == '\U{FEFF}'
  }

  predicate Blank(s: string) {
    forall c :: c in s ==> IsJsSpace(c)
  }

  /** The department attribute names a department at all. */
  predicate HasDept(deptId: Option<string>) {
    deptId.Some? && !Blank(deptId.value)
  }

  /** The attributes name a member row, and the table to read it from is configured. */
  predicate NamesRow(deptId: Option<string>, sub: Option<string>, tableConfigured: bool) {
    HasDept(deptId) && sub.Some? && '#' !in deptId.value && tableConfigured
  }

  /** The row the trigger reads. */
  function MemberKey(deptId: string, memberId: string): string {
    "DEPT#" + deptId + "#MEMBER#" + memberId
  }

  predicate Refuses(deptId: Option<string>, sub: Option<string>, tableConfigured: bool, lookup: Lookup) {
    NamesRow(deptId, sub, tableConfigured) && lookup.Found? && Inactive(lookup.status)
  }

  /** A token request as Cognito hands it to the trigger; `claim` is the department the response
      adds to the access token. */
  class TokenEvent {
    const deptId: Option<string>
    const sub: Option<string>
    var claim: Option<string>

    constructor (deptId: Option<string>, sub: Option<string>)
      ensures this.deptId == deptId && this.sub == sub && claim == None
    {
      this.deptId := deptId;
      this.sub := sub;
      claim := None;
    }

    /** `lookup` is what reading `MemberKey` would give; it is read only when the attributes name
        a row. */
    method Handle(tableConfigured: bool, lookup: Lookup) returns (outcome: Outcome)
      modifies this
      ensures outcome == Refused <==>
        && deptId.Some? && !Blank(deptId.value) && '#' !in deptId.value && sub.Some? && tableConfigured
        && (lookup == Found(LOA) || lookup == Found(RETIRED))
      ensures outcome == Refused <==> Refuses(deptId, sub, tableConfigured, lookup)
      ensures outcome == Refused ==> claim == old(claim)
      ensures outcome == Issued ==>
        claim == if deptId.Some? && !Blank(deptId.value) then deptId else old(claim)
    {
      var status: Option<Status> := None;
      if NamesRow(deptId, sub, tableConfigured) {
        match lookup {
          case Found(s) => status := Some(s);
          case NoRow =>
          case LookupFailed => // logged, and the answer stays "allow"
        }
        if status.Some? && Inactive(status.value) {
          return Refused;
        }
      }
      if HasDept(deptId) {
        claim := deptId;
      }
      return Issued;
    }
  }
}
