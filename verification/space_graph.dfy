/** Classification of one space of the crawled graph from its state events:
    whether the crawl prunes it, records it as a public student project, or
    passes through it to its children. */
module SpaceGraph {
  import opened Wrappers
  import opened Seqs
  import opened Matrix

  /** The meta type of a student project. */
  const ProjectType: string := "studentproject"

  /** The container types the crawl passes through without recording. */
  const PassThroughTypes: seq<string> := [
    "context", "class", "course", "institution", "degree program",
    "design department", "faculty", "institute", "semester"]

  /** The first `dev.medienhaus.meta` event of the state. */
  function FindMeta(events: seq<StateEvent>): (r: Option<Meta>)
    ensures r.None? <==> forall i :: 0 <= i < |events| ==> !events[i].MetaEvent?
    ensures r.Some? ==> exists i :: 0 <= i < |events| && events[i] == MetaEvent(r.value)
                                   && forall j :: 0 <= j < i ==> !events[j].MetaEvent?
  {
    match FindFirst(events, (e: StateEvent) => e.MetaEvent?)
    case None => None
    case Some(i) => Some(events[i].meta)
  }

  /** The name carried by the first `m.room.name` event of the state. */
  function FindName(events: seq<StateEvent>): (r: Option<string>)
    ensures r.None? <==> forall i :: 0 <= i < |events| ==> !events[i].NameEvent?
    ensures r.Some? ==> exists i :: 0 <= i < |events| && events[i] == NameEvent(r.value)
                                   && forall j :: 0 <= j < i ==> !events[j].NameEvent?
  {
    match FindFirst(events, (e: StateEvent) => e.NameEvent?)
    case None => None
    case Some(i) => Some(events[i].name)
  }

  /** The join rule carried by the first `m.room.join_rules` event of the state. */
  function FindJoinRule(events: seq<StateEvent>): (r: Option<string>)
    ensures r.None? <==> forall i :: 0 <= i < |events| ==> !events[i].JoinRulesEvent?
    ensures r.Some? ==> exists i :: 0 <= i < |events| && events[i] == JoinRulesEvent(r.value)
                                   && forall j :: 0 <= j < i ==> !events[j].JoinRulesEvent?
  {
    match FindFirst(events, (e: StateEvent) => e.JoinRulesEvent?)
    case None => None
    case Some(i) => Some(events[i].joinRule)
  }

  /** JavaScript truthiness of an optional string: present and non-empty. */
  predicate Truthy(s: Option<string>) {
    s.Some? && s.value != ""
  }

  /** The record condition: a student project that is public, either by an
      explicit (truthy) `published` value or, lacking one, by the join-rule
      event of its state. */
  predicate IsPublicProject(meta: Meta, stateJoinRule: Option<string>) {
    && meta.spaceType == ProjectType
    && if Truthy(meta.published) then meta.published.value == "public"
       else stateJoinRule == Some("public")
  }

  /** What the crawl does with a live space. */
  datatype Role = Record | PassThrough | Stop

  /** The crawl's verdict on a space's state. */
  datatype NodeClass =
    | Unreadable                                 // no meta event or no name event
    | Deleted                                    // meta marks it deleted
    | Live(meta: Meta, name: string, role: Role)

  function Classify(events: seq<StateEvent>): (r: NodeClass)
    ensures r.Unreadable? <==> FindMeta(events).None? || FindName(events).None?
    ensures r.Deleted? <==> FindMeta(events).Some? && FindName(events).Some?
                            && FindMeta(events).value.deleted
    ensures r.Live? ==> r.meta == FindMeta(events).value && r.name == FindName(events).value
                        && !r.meta.deleted
    ensures r.Live? ==> (r.role == Record <==> IsPublicProject(r.meta, FindJoinRule(events)))
    ensures r.Live? ==> (r.role == PassThrough <==>
                           !IsPublicProject(r.meta, FindJoinRule(events))
                           && r.meta.spaceType in PassThroughTypes)
  {
    match (FindMeta(events), FindName(events))
    case (None, _) => Unreadable
    case (_, None) => Unreadable
    case (Some(meta), Some(name)) =>
      if meta.deleted then Deleted
      else if IsPublicProject(meta, FindJoinRule(events)) then Live(meta, name, Record)
      else if meta.spaceType in PassThroughTypes then Live(meta, name, PassThrough)
      else Live(meta, name, Stop)
  }

  /** A student project that is not public stops the crawl: it is neither
      recorded nor passed through, because its type is no container type. */
  lemma NonPublicProjectStops(events: seq<StateEvent>)
    requires FindMeta(events).Some? && FindName(events).Some?
    requires !FindMeta(events).value.deleted
    requires FindMeta(events).value.spaceType == ProjectType
    requires !IsPublicProject(FindMeta(events).value, FindJoinRule(events))
    ensures Classify(events).Live? && Classify(events).role == Stop
  {
  }

  /** The targets (`state_key`) of the state's `m.space.child` events whose
      `room_id` is the space itself, in state order. */
  function ChildLinks(events: seq<StateEvent>, id: Id): (r: seq<Id>)
    ensures |r| <= |events|
    ensures forall c :: c in r <==> SpaceChildEvent(id, c) in events
  {
    if |events| == 0 then []
    else
      var e := events[0];
      var rest := ChildLinks(events[1..], id);
      if e.SpaceChildEvent? && e.roomId == id then [e.stateKey] + rest else rest
  }

  /** The child links of a longer state are those of its parts, in order. */
  lemma {:induction false} ChildLinksAppend(a: seq<StateEvent>, b: seq<StateEvent>, id: Id)
    ensures ChildLinks(a + b, id) == ChildLinks(a, id) + ChildLinks(b, id)
  {
    if |a| == 0 {
      assert a + b == b;
    } else {
      assert (a + b)[1..] == a[1..] + b;
      ChildLinksAppend(a[1..], b, id);
    }
  }
}
