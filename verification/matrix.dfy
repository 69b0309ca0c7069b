/** The shapes of the Matrix data the service reads, and the homeserver it reads
    them from. Every remote call becomes a total function field of `Homeserver`;
    a call whose failure the service catches returns an `Option`. */
module Matrix {
  import opened Wrappers

  /** An opaque room (space) identifier. */
  type Id = string

  /** Content of the `dev.medienhaus.meta` state event. An absent field is
      `None`. A truthy `published` that is not a string is represented by a
      non-empty string other than `public`: the crawl only asks whether the
      value is truthy and whether it equals `public`. `credit` is a string or
      absent, and `deleted` is the truthiness of the flag. */
  datatype Meta = Meta(
    spaceType: string,
    published: Option<string>,
    deleted: bool,
    credit: Option<string>)

  /** One event of a room's state, as returned by `roomState`. Only the event
      kinds the crawl looks at are distinguished. */
  datatype StateEvent =
    | MetaEvent(meta: Meta)                     // dev.medienhaus.meta
    | NameEvent(name: string)                   // m.room.name
    | JoinRulesEvent(joinRule: string)          // m.room.join_rules
    | SpaceChildEvent(roomId: Id, stateKey: Id) // m.space.child: room_id and state_key
    | OtherEvent(eventType: string)

  /** The crawled graph: the state of every room whose state can be fetched.
      A room missing from the map is one whose `roomState` call failed. */
  type Graph = map<Id, seq<StateEvent>>

  /** One room of `getRoomHierarchy`; `topic` is `None` when it has none. */
  datatype HierarchyRoom = HierarchyRoom(roomId: Id, name: string, topic: Option<string>)

  /** One event of a `/messages` history chunk. */
  datatype HistoryEvent = HistoryEvent(
    eventType: string,
    body: string,
    hasNewContent: bool,   // content['m.new_content'] is defined, i.e. an edit
    redacted: bool)        // redacted_because is defined

  /** One room of `getSpaceSummary`. */
  datatype SummaryRoom = SummaryRoom(roomId: Id, name: string)

  /** Content of the latest `m.room.message` of a content-block room. */
  datatype Message = Message(body: string, formattedBody: Option<string>, url: string)

  /** The remote operations, each as a function of its arguments. */
  datatype Homeserver = Homeserver(
    // getStateEvent(id, 'm.room.join_rules').join_rule; None when the request fails
    joinRule: Id -> Option<string>,
    // getStateEvent(id, 'm.room.avatar').url; None when the request fails
    avatarUrl: Id -> Option<string>,
    // mxcUrlToHttp
    mxcToHttp: string -> string,
    // display names of getJoinedRoomMembers(id).joined, in enumeration order
    members: Id -> seq<string>,
    // getRoomHierarchy(id, 50, 10).rooms
    hierarchy: Id -> seq<HierarchyRoom>,
    // /messages?limit=99&dir=b chunk of a location room
    history: Id -> seq<HistoryEvent>,
    // getSpaceSummary(id, 0).rooms
    spaceSummary: Id -> seq<SummaryRoom>,
    // chunk[0] of /messages with limit 1, dir b, types [m.room.message]
    lastMessage: Id -> Option<Message>)

  /** A content-block template: block type, content and message content to HTML;
      `None` when no template file exists for the type. */
  type Renderer = (string, string, Message) -> Option<string>
}
