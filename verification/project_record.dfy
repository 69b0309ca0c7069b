/** The record the crawl stores for a public student project, and the
    computation of each of its fields from the space's meta event and the
    homeserver's answers. */
module ProjectRecord {
  import opened Wrappers
  import opened Seqs
  import opened Strings
  import opened Matrix
  import opened SpaceGraph

  /** One discovered student project. `location` is `None` where the service
      leaves it undefined; `children` is always empty. */
  datatype Project = Project(
    id: Id,
    name: string,
    projectType: string,
    topicEn: Option<string>,
    topicDe: Option<string>,
    location: Option<seq<seq<string>>>,
    thumbnail: string,
    authors: seq<string>,
    credit: string,
    published: string,
    parent: string,
    children: map<Id, Project>)

  /** Faults that abort the whole crawl: dereferencing a missing join-rule
      answer, or the first room named `en` or `de` of a project's hierarchy
      when there is none. */
  datatype CrawlError =
    | JoinRuleUnavailable(space: Id)
    | MissingLanguageRoom(space: Id, language: string)

  /** The publication state: the meta event's `published` verbatim when truthy;
      otherwise derived from the separately fetched join rule, `draft` for
      `invite` and `public` for anything else. A failed join-rule fetch is
      dereferenced by the service and aborts the crawl. */
  function ResolvePublished(id: Id, meta: Meta, fetchedJoinRule: Option<string>): (r: Result<string, CrawlError>)
    ensures r.Failure? <==> !Truthy(meta.published) && fetchedJoinRule.None?
    ensures r.Failure? ==> r.error == JoinRuleUnavailable(id)
    ensures Truthy(meta.published) ==> r == Success(meta.published.value)
    ensures !Truthy(meta.published) && r.Success? ==>
              (r.value == "draft" <==> fetchedJoinRule == Some("invite"))
              && (r.value == "draft" || r.value == "public")
  {
    if Truthy(meta.published) then Success(meta.published.value)
    else
      match fetchedJoinRule
      case None => Failure(JoinRuleUnavailable(id))
      case Some(rule) => Success(if rule == "invite" then "draft" else "public")
  }

  /** The credit line: the meta event's credit when it is non-empty, else empty. */
  function CreditOf(meta: Meta): (r: string)
    ensures r != "" <==> Truthy(meta.credit)
    ensures r != "" ==> meta.credit == Some(r)
  {
    if Truthy(meta.credit) then meta.credit.value else ""
  }

  /** A hierarchy room's topic, with an empty topic read as undefined (`|| undefined`). */
  function TopicOf(room: HierarchyRoom): (r: Option<string>)
    ensures r.Some? <==> Truthy(room.topic)
    ensures r.Some? ==> room.topic == r
  {
    if Truthy(room.topic) then room.topic else None
  }

  /** The hierarchy rooms named exactly `language`, in hierarchy order. */
  function LanguageRooms(rooms: seq<HierarchyRoom>, language: string): seq<HierarchyRoom> {
    Filter(rooms, (room: HierarchyRoom) => room.name == language)
  }

  /** A room scraped for location strings: its name contains `location` and
      does not start with the disabling prefix `x_`. */
  predicate IsLocationRoom(room: HierarchyRoom) {
    Includes(room.name, "location") && !StartsWith(room.name, "x_")
  }

  /** A history event whose body is kept: an `m.room.message` that is neither
      an edit nor redacted. */
  predicate Kept(e: HistoryEvent) {
    e.eventType == "m.room.message" && !e.hasNewContent && !e.redacted
  }

  /** The bodies of the kept events of a history chunk, in chunk order. */
  function Bodies(chunk: seq<HistoryEvent>): (r: seq<string>)
    ensures |r| <= |chunk|
    ensures forall b :: b in r <==> exists i :: 0 <= i < |chunk| && Kept(chunk[i]) && chunk[i].body == b
  {
    if |chunk| == 0 then []
    else
      var rest := Bodies(chunk[1..]);
      assert forall i :: 0 <= i < |chunk| - 1 ==> chunk[1..][i] == chunk[i + 1];
      if Kept(chunk[0]) then [chunk[0].body] + rest else rest
  }

  /** The bodies of a longer chunk are those of its parts, in order. */
  lemma {:induction false} BodiesAppend(a: seq<HistoryEvent>, b: seq<HistoryEvent>)
    ensures Bodies(a + b) == Bodies(a) + Bodies(b)
  {
    if |a| == 0 {
      assert a + b == b;
    } else {
      assert (a + b)[1..] == a[1..] + b;
      BodiesAppend(a[1..], b);
    }
  }

  /** The scraped location strings: undefined when no hierarchy room is a
      location room, otherwise one list of kept bodies per location room, in
      hierarchy order. */
  function Location(hs: Homeserver, rooms: seq<HierarchyRoom>): (r: Option<seq<seq<string>>>)
    ensures r.None? <==> forall i :: 0 <= i < |rooms| ==> !IsLocationRoom(rooms[i])
    ensures r.Some? ==> |r.value| == |Filter(rooms, IsLocationRoom)|
    ensures r.Some? ==> forall i :: 0 <= i < |r.value| ==>
              r.value[i] == Bodies(hs.history(Filter(rooms, IsLocationRoom)[i].roomId))
  {
    var locations := Filter(rooms, IsLocationRoom);
    if |locations| == 0 then
      assert forall i :: 0 <= i < |rooms| ==> rooms[i] in rooms;
      None
    else
      assert locations[0] in rooms && IsLocationRoom(locations[0]);
      Some(Map(locations, (room: HierarchyRoom) => Bodies(hs.history(room.roomId))))
  }

  /** The thumbnail URL: the avatar's URL resolved over HTTP, or empty without an avatar. */
  function Thumbnail(hs: Homeserver, id: Id): (r: string)
    ensures hs.avatarUrl(id).None? ==> r == ""
    ensures hs.avatarUrl(id).Some? ==> r == hs.mxcToHttp(hs.avatarUrl(id).value)
  {
    match hs.avatarUrl(id)
    case Some(url) => hs.mxcToHttp(url)
    case None => ""
  }

  /** `createSpaceObject` together with the hierarchy lookups that feed it. The
      crawl fails when the hierarchy has no room named `en`, or none named `de`. */
  function BuildProject(hs: Homeserver, id: Id, name: string, meta: Meta, published: string, parent: string)
    : (r: Result<Project, CrawlError>)
    ensures r.Success? <==> |LanguageRooms(hs.hierarchy(id), "en")| > 0
                            && |LanguageRooms(hs.hierarchy(id), "de")| > 0
    ensures r.Failure? && |LanguageRooms(hs.hierarchy(id), "en")| == 0 ==>
              r.error == MissingLanguageRoom(id, "en")
    ensures r.Failure? && |LanguageRooms(hs.hierarchy(id), "en")| > 0 ==>
              r.error == MissingLanguageRoom(id, "de")
    ensures r.Success? ==>
              && r.value.id == id && r.value.name == name && r.value.parent == parent
              && r.value.projectType == meta.spaceType
              && r.value.published == published
              && r.value.credit == CreditOf(meta)
              && r.value.children == map[]
              && r.value.authors == hs.members(id)
              && r.value.thumbnail == Thumbnail(hs, id)
              && r.value.topicEn == TopicOf(LanguageRooms(hs.hierarchy(id), "en")[0])
              && r.value.topicDe == TopicOf(LanguageRooms(hs.hierarchy(id), "de")[0])
              && r.value.location == Location(hs, hs.hierarchy(id))
  {
    var rooms := hs.hierarchy(id);
    var en := LanguageRooms(rooms, "en");
    if |en| == 0 then Failure(MissingLanguageRoom(id, "en"))
    else
      var de := LanguageRooms(rooms, "de");
      if |de| == 0 then Failure(MissingLanguageRoom(id, "de"))
      else
        Success(Project(
          id := id,
          name := name,
          projectType := meta.spaceType,
          topicEn := TopicOf(en[0]),
          topicDe := TopicOf(de[0]),
          location := Location(hs, rooms),
          thumbnail := Thumbnail(hs, id),
          authors := hs.members(id),
          credit := CreditOf(meta),
          published := published,
          parent := parent,
          children := map[]))
  }
}
