/** `MemberExistenceCheckService`: a member exists when the member service returns an activated one. */
module MemberExistence {
  import opened Wrappers
  import opened Common

  /** The part of `MemberInfo` the check reads. */
  datatype MemberInfo = MemberInfo(id: Uuid, name: string, username: string, slackId: string, isActivated: bool)

  /** `hasMember`, over the member-service client; `None` is a `null` answer. */
  function HasMember(client: Uuid -> Option<MemberInfo>, memberId: Uuid): (b: bool)
    ensures client(memberId).None? ==> !b
    ensures client(memberId).Some? && client(memberId).value.isActivated ==> b
    ensures client(memberId).Some? && !client(memberId).value.isActivated ==> !b
  {
    client(memberId).Some? && client(memberId).value.isActivated
  }

  /** The answer depends only on what the client says about that member id. */
  lemma HasMemberDependsOnlyOnAnswer(c1: Uuid -> Option<MemberInfo>, c2: Uuid -> Option<MemberInfo>, memberId: Uuid)
    requires c1(memberId) == c2(memberId)
    ensures HasMember(c1, memberId) == HasMember(c2, memberId)
  {
  }
}
