/** The crawl from the root, stated as a whole: which spaces it records, what
    each record holds, and where the service's two readings of the join rule
    part ways. */
module CrawlTheorems {
  import opened Wrappers
  import opened Matrix
  import opened SpaceGraph
  import opened ProjectRecord
  import opened Crawler
  import opened CrawlerProofs

  /** A visited space that is not yet recorded and not on the path ends up in
      the result exactly when it is a readable, live, public student project. */
  lemma VisitRecordsIff(g: Graph, hs: Homeserver, id: Id, parent: string, onPath: set<Id>, acc: map<Id, Project>)
    requires id !in onPath && id !in acc
    requires Scan(g, hs, id, parent, onPath, acc).Success?
    ensures id in Scan(g, hs, id, parent, onPath, acc).value <==> Recorded(g, id)
  {
    ScanKeys(g, hs, id, parent, onPath, acc);
    if Recorded(g, id) {
      DiscoveredSelf(g, onPath, id);
    }
  }

  /** A successful crawl records exactly the spaces discovered from the root,
      each with the record built for it, its parent being the name of a space
      linking to it, or empty for the root. */
  lemma CrawlFindsDiscovered(g: Graph, hs: Homeserver, root: Id)
    requires Crawl(g, hs, root).Success?
    ensures forall k :: k in Crawl(g, hs, root).value <==> Discovered(g, {}, root, k)
    ensures var r := Crawl(g, hs, root).value;
            forall k :: k in r ==>
              Built(g, hs, k, r[k]) && ((k == root && r[k].parent == "") || LinkedFrom(g, k, r[k].parent))
  {
    ScanKeys(g, hs, root, "", {}, map[]);
    ScanRecords(g, hs, root, "", {}, map[]);
  }

  /** The root is recorded exactly when it is a public project, and then with
      an empty parent name: no later visit can overwrite it. */
  lemma CrawlRecordsRoot(g: Graph, hs: Homeserver, root: Id)
    requires Crawl(g, hs, root).Success?
    ensures root in Crawl(g, hs, root).value <==> Recorded(g, root)
    ensures root in Crawl(g, hs, root).value ==> Crawl(g, hs, root).value[root].parent == ""
  {
    VisitRecordsIff(g, hs, root, "", {}, map[]);
    if Recorded(g, root) {
      var acc' := ScanExpands(g, hs, root, "", {}, map[]);
      ScanChildrenFrame(g, hs, Children(g, root), Classify(g[root]).name, {root}, acc');
    }
  }

  /** The record of a public project is a `studentproject` with no children,
      published `public` whenever the fetched join rule agrees with the one in
      the space's state. */
  lemma RecordedProjectIsPublic(g: Graph, hs: Homeserver, k: Id, parent: string)
    requires Recorded(g, k)
    requires hs.joinRule(k) == FindJoinRule(g[k])
    requires ProjectFor(g, hs, k, parent).Success?
    ensures ProjectFor(g, hs, k, parent).value.published == "public"
    ensures ProjectFor(g, hs, k, parent).value.projectType == ProjectType
    ensures ProjectFor(g, hs, k, parent).value.id == k
    ensures ProjectFor(g, hs, k, parent).value.children == map[]
  {
  }

  /** Every record of a successful crawl is a public `studentproject` keyed by
      its own id, when the homeserver answers the join rule as the state holds it. */
  lemma CrawlRecordsArePublic(g: Graph, hs: Homeserver, root: Id)
    requires Crawl(g, hs, root).Success?
    requires forall k :: k in g ==> hs.joinRule(k) == FindJoinRule(g[k])
    ensures var r := Crawl(g, hs, root).value;
            forall k :: k in r ==> r[k].id == k && r[k].projectType == ProjectType
                                   && r[k].published == "public" && r[k].children == map[]
  {
    var r := Crawl(g, hs, root).value;
    CrawlFindsDiscovered(g, hs, root);
    forall k | k in r
      ensures r[k].id == k && r[k].projectType == ProjectType && r[k].published == "public" && r[k].children == map[]
    {
      RecordedProjectIsPublic(g, hs, k, r[k].parent);
    }
  }

  /** A container space is never recorded, and the crawl goes on into its children. */
  lemma ContainerPassesThrough(events: seq<StateEvent>)
    requires FindMeta(events).Some? && FindName(events).Some?
    requires !FindMeta(events).value.deleted
    requires FindMeta(events).value.spaceType in PassThroughTypes
    ensures Classify(events).Live? && Classify(events).role == PassThrough
  {
  }

  /** The crawl from the root fails exactly when a walk from the root reaches
      a live space whose `published` is not truthy and whose join-rule fetch
      failed, or a public project without a room named `en` or `de`. */
  lemma CrawlFailsIff(g: Graph, hs: Homeserver, root: Id)
    ensures Crawl(g, hs, root).Failure? <==> exists t :: Reaches(g, {}, root, t) && Faulty(g, hs, t)
  {
    ScanFails(g, hs, root, "", {}, map[]);
  }

  /** The crawl succeeds when every live space has a truthy `published` or an
      answer to the join-rule fetch, and every public project has rooms named
      `en` and `de`. */
  lemma CrawlSucceeds(g: Graph, hs: Homeserver, root: Id)
    requires forall u :: u in g && Classify(g[u]).Live? ==>
               Truthy(Classify(g[u]).meta.published) || hs.joinRule(u).Some?
    requires forall u :: Recorded(g, u) ==>
               |LanguageRooms(hs.hierarchy(u), "en")| > 0 && |LanguageRooms(hs.hierarchy(u), "de")| > 0
    ensures Crawl(g, hs, root).Success?
  {
    ScanFails(g, hs, root, "", {}, map[]);
  }

  /** The record test reads the join rule from the space's state and requires
      `public`, while the `published` field is derived from a second fetch and
      only `invite` makes it `draft`. A live student project without a truthy
      `published` whose join rule is `knock` in both reads therefore resolves
      as `public` yet is not recorded. */
  lemma KnockRuleResolvesPublicButStops(events: seq<StateEvent>, hs: Homeserver, k: Id)
    requires FindMeta(events).Some? && FindName(events).Some?
    requires FindMeta(events).value.spaceType == ProjectType
    requires !Truthy(FindMeta(events).value.published) && !FindMeta(events).value.deleted
    requires FindJoinRule(events) == Some("knock") && hs.joinRule(k) == Some("knock")
    ensures ResolvePublished(k, FindMeta(events).value, hs.joinRule(k)) == Success("public")
    ensures Classify(events).Live? && Classify(events).role == Stop
  {
  }
}
