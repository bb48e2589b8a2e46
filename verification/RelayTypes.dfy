/** Messages, queries and replies shared by both relay stores (mcp_relay/types.py). */
module RelayTypes {
  import opened Basics

  /** A point in time; a stored timestamp is the text of one and parses back to it. */
  type Instant = int

  datatype Message =
    Message(id: string, channel: string, sender: string, content: string, timestamp: Instant)

  datatype Error =
    | TooLarge
    | ChannelLimit
    | BadSortOrder
    | BadSince        // not an ISO timestamp
    | NaiveSince      // parsed, but without a time zone: Python refuses the comparison
    | CursorNotFound

  /** The `since` argument after the truthiness test and `fromisoformat`. */
  datatype Since = NoSince | Malformed | Naive | From(at: Instant)

  /** `sort_order` as `get` reads it: the two accepted texts, or any other. */
  datatype SortOrder = Asc | Desc | Unknown

  /** The optional arguments of `get`; an absent cursor is the empty string, which is falsy too. */
  datatype Query =
    Query(since: Since, limit: int, sortOrder: SortOrder, after: string, before: string)

  datatype Page = Page(messages: seq<Message>, hasMore: bool)

  datatype ChannelInfo =
    ChannelInfo(name: string, messageCount: nat, lastActivity: Option<Instant>)

  datatype Config = Config(maxPerChannel: int, maxChannels: int, maxMessageSize: int) {
    /** A `deque` or LTRIM bound that keeps at least the newest message. */
    ghost predicate Valid() { maxPerChannel >= 1 }
  }

  const MAX_READ_LIMIT := 200

  /** No two messages carry the same id. */
  ghost predicate UniqueIds(ms: seq<Message>) {
    forall i, j :: 0 <= i < j < |ms| ==> ms[i].id != ms[j].id
  }
}
