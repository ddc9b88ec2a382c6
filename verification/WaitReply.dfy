/** Replies built on behalf of a callee that will never send one. */
module WaitReply {
  import opened WaitIndex
  import opened WaitStore
  import opened WaitGate

  const SYNTHESIZED_BY_SWEEPER := "wait_sweeper"
  const SYNTHESIZED_BY_DISPATCH := "dispatch"

  /** The reply the callee of this wait would have sent, addressed at its caller. */
  function StandInReply(wait: Member, callerAgentType: string, childAgentType: string, status: string,
                        errorCode: string, payload: Payload, synthesizedBy: string): Reply {
    Reply(Header(wait.sessionId, wait.parentMessageId, wait.childMessageId, wait.taskGroupId),
          childAgentType, callerAgentType, status, errorCode, payload, synthesizedBy)
  }

  /**
   A stand-in built from a decoded entry rebuilds that entry exactly when the
   entry is spelled as the encoder spells it.
   */
  lemma StandInTargetsItsEntry(member: string, reply: Reply)
    requires DecodeMember(member).Some?
    requires reply == StandInReply(DecodeMember(member).value, reply.targetAgentType, reply.sourceAgentType,
                                   reply.status, reply.errorCode, reply.payload, reply.synthesizedBy)
    ensures MemberFromResume(reply.header) == member <==> WellEscaped(member)
    ensures WellEscaped(member) ==> CandidateMembers(reply.header)[0] == member
  {
    ReencodeIffWellEscaped(member);
  }

  /** For a registered wait the gate claims, on the stand-in, the very entry it stands in for. */
  lemma StandInClaimsItsEntry(db: Db, wait: Member, reply: Reply)
    requires SlotOf(wait.sessionId, EncodeMember(wait)) in db.index
    requires reply.header == Header(wait.sessionId, wait.parentMessageId, wait.childMessageId, wait.taskGroupId)
    ensures Decide(db, reply.header) == Claimed(EncodeMember(wait))
    ensures AfterGate(db, reply.header).index == db.index - {SlotOf(wait.sessionId, EncodeMember(wait))}
  {
    assert CandidateMembers(reply.header)[0] == EncodeMember(wait);
  }
}
