// The client's data objects shared by its view models: a contact (a user
// as the client shows it, with its unread badge and visibility), the
// message records that travel through the client's event aggregator, and
// a transcript entry.
module ClientData {
  import opened Wrappers

  type String = seq<char>

  /** A user in a client list. The badge count and the visibility are the
      two properties the view models change. */
  class Contact {
    const id: String
    const userName: String
    const nickName: String
    const avatarUrl: String
    var chartCount: int
    var isVisible: bool

    constructor (id: String, userName: String, nickName: String, avatarUrl: String)
      ensures this.id == id && this.userName == userName && this.nickName == nickName && this.avatarUrl == avatarUrl
      ensures chartCount == 0 && isVisible
    {
      this.id := id;
      this.userName := userName;
      this.nickName := nickName;
      this.avatarUrl := avatarUrl;
      chartCount := 0;
      isVisible := true;
    }
  }

  /** A message as the client routes it: chartId names the conversation
      (the friend it belongs to), userId its author. */
  datatype UserReceiveMessage = UserReceiveMessage(
    id: Option<String>,
    chartId: String,
    userId: String,
    nickName: String,
    avatarUrl: String,
    message: String,
    time: int,
    isMe: bool,
    contentType: String)

  /** A request to send message to the friend userId. */
  datatype UserSendMessage = UserSendMessage(userId: String, message: String)

  /** One line of a conversation transcript. */
  datatype ChatContent = ChatContent(
    id: Option<String>,
    content: String,
    dateTime: int,
    isMe: bool,
    nickName: String,
    userId: String,
    avatarUrl: String,
    contentType: String)

  function ToChatContent(m: UserReceiveMessage): (c: ChatContent)
  {
    ChatContent(m.id, m.message, m.time, m.isMe, m.nickName, m.userId, m.avatarUrl, m.contentType)
  }

  function ToChatContents(ms: seq<UserReceiveMessage>): (r: seq<ChatContent>)
    ensures |r| == |ms|
    ensures forall i :: 0 <= i < |ms| ==> r[i] == ToChatContent(ms[i])
  {
    seq(|ms|, i requires 0 <= i < |ms| => ToChatContent(ms[i]))
  }

  /** The messages of one conversation. */
  function ChartIs(chartId: String): UserReceiveMessage -> bool
  {
    (m: UserReceiveMessage) => m.chartId == chartId
  }
}
