/** The records that messaging nodes exchange and store. */
module Messages {
  import opened Prelude

  datatype ErrorCode =
    | InvalidRequest | Unauthenticated | Forbidden | NotAMember | NotFound | IdConflict | RevisionConflict
    | RequestInProgress | Conflict | ThreadClosed | ContextLost | RetryWindowExpired | CursorExpired
    | PayloadTooLarge | UnsupportedMediaType | UnsupportedDelivery | AmbiguousTarget | AmbiguousResource
    | CapacityExceeded | Internal | Unavailable | DecisionUnavailable

  datatype ThreadRef = ThreadRef(owner: NodeId, id: string)
  datatype MessageRef = MessageRef(sender: NodeId, id: string)
  datatype Relation = Reply | Followup

  /** A mention: everyone, one name, or something that is not a name. */
  datatype Mention = Everyone | Named(alias: NodeId) | Malformed

  /** `body` stands for the delivery kind, the text and the attached parts. */
  datatype Message = Message(ref: MessageRef, body: string, thread: Option<ThreadRef>,
                             inReplyTo: Option<MessageRef>, relation: Option<Relation>, mentions: seq<Mention>)

  datatype Response = NoResponse | AsyncResponse | AwaitResponse
  datatype Plan = Plan(response: Response, newContext: bool, context: Option<string>)

  datatype SendRequest = SendRequest(key: string, retryUntil: int, message: Message, target: NodeId, plan: Plan)

  datatype Entry = Entry(thread: ThreadRef, number: nat, message: Message, author: NodeId, replyAuthority: NodeId, at: int)

  datatype Receipt = Receipt(ref: MessageRef, id: string, thread: ThreadRef, number: nat, plan: Plan,
                             created: bool, inReplyTo: Option<MessageRef>)

  /** A legitimate reply to `original`: its reference, a reply relation, another author. */
  predicate IsReply(original: MessageRef, entry: Entry) {
    && entry.message.inReplyTo == Some(original)
    && entry.message.relation != Some(Followup)
    && entry.author != original.sender
  }
}
