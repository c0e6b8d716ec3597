/** What a node knows about one member of the group. */
module MemberInfo {

  datatype MemberState = Alive | Failed | Suspected

  /** Times and durations are counts of one fixed unit; `version` distinguishes the incarnations of one
      host. */
  datatype Info = Info(hostname: string, port: int, version: int, timestamp: int, counter: nat, state: MemberState)
}
