/**
 * Wire-level vocabulary of the group hub: identifiers, the events the server
 * pushes to a connection, the messages a client may send, and the answers the
 * storage layer can give. JSON encoding is not modelled; a decoded client
 * message is given directly (or its absence, for a frame that did not decode).
 */
module Protocol {

  /** Database identifiers (`i32` in the schema); the hub only compares them. */
  type UserID = int
  type GroupID = int
  type ChannelID = int

  /** Connection ids are `usize` values handed out by a process-wide counter. */
  type ConnID = nat

  /** Seconds since the Unix epoch (`u64`), supplied by the caller. */
  type Timestamp = nat

  datatype Option<T> = None | Some(value: T)

  /** The answer to one storage call: a value, or a pool/database error. */
  datatype Db<T> = Ok(value: T) | Failed

  /** One entry of a group's channel cache. */
  datatype Channel = Channel(channelId: ChannelID, name: string)

  datatype UserStatus = Online | Offline

  datatype ErrorCategory =
    | Application
    | Request
    | ChannelCreate
    | ChannelRename
    | ChannelDelete
    | GroupRename

  datatype ErrorCode =
    | Json
    | Database
    | ChannelIdInvalid
    | MessageInvalid
    | NameInvalid
    | NameExists
    | LoneChannel
    | PictureInvalid

  /** A stored message as returned by the recent-messages query. */
  datatype MessageRow = MessageRow(timestamp: Timestamp, author: UserID, content: string)

  /** A member of a group as returned by the roster query. */
  datatype UserRow = UserRow(userId: UserID, name: string, picture: string)

  /** A roster entry annotated with live presence. */
  datatype User = User(userId: UserID, name: string, picture: string, status: UserStatus)

  /** Events the server serialises onto a connection. */
  datatype ServerEvent =
    | Error(category: ErrorCategory, code: ErrorCode)
    | MessageReceipt(timestamp: Timestamp, channelId: ChannelID)
    | RecentMessage(timestamp: Timestamp, author: UserID, content: string, channelId: ChannelID)
    | RecentMessageList(listChannelId: ChannelID, messages: seq<MessageRow>)
    | ChannelCreated(createdId: ChannelID, createdName: string)
    | ChannelList(channels: seq<Channel>)
    | ChannelDeleted(deletedId: ChannelID)
    | ChannelRenamed(renamedId: ChannelID, newName: string)
      // built from a hash-map iteration, so only the set of users is determined
    | OnlineUserList(onlineUsers: set<UserID>)
    | UserList(users: seq<User>)
    | UserStatusChanged(userId: UserID, status: UserStatus)
    | UserRenamed(renamedUser: UserID, userName: string, userPicture: string)
    | GroupRenamed(groupId: GroupID, groupName: string, groupPicture: string)
    | GroupDeleted(deletedGroup: GroupID)

  /** What is queued on a connection's outbound channel. */
  datatype Frame = Text(event: ServerEvent) | Close(code: nat, reason: string)

  /** Close code that tells the client it was kicked rather than disconnected. */
  const KickCloseCode: nat := 4000
  const KickReason: string := "kick"

  /** Connection id to the frames queued for it, oldest first. */
  type Outboxes = map<ConnID, seq<Frame>>

  /** Client messages, tagged by `type` on the wire. */
  datatype ClientMessage =
    | CreateMessage(content: string, channelId: ChannelID)
    | RequestRecentMessages(channelId: ChannelID)
    | CreateChannel(name: string)
    | RequestChannels
    | DeleteChannel(channelId: ChannelID)
    | RenameChannel(channelId: ChannelID, name: string)
    | RequestOnline
    | RequestUsers
    | RenameGroup(name: string, picture: string)

  /** A frame read from the socket: not text, or text that did or did not decode. */
  datatype Inbound = NonText | TextFrame(decoded: Option<ClientMessage>)
}
