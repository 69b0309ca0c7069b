/** The depth-first crawl of the space graph (`scanForAndAddSpaceChildren`).
    The service recurses without any guard against cycles; this model carries
    the set of spaces on the current path and does not re-enter one of them,
    which makes the crawl total. On an acyclic graph the guard never fires. */
module Crawler {
  import opened Wrappers
  import opened Matrix
  import opened SpaceGraph
  import opened ProjectRecord

  /** Adding a graph space that is not yet on the path shrinks the set of
      spaces the crawl may still enter. */
  lemma PathGrows(g: Graph, onPath: set<Id>, id: Id)
    requires id in g && id !in onPath
    ensures |g.Keys - (onPath + {id})| < |g.Keys - onPath|
  {
    assert g.Keys - onPath == (g.Keys - (onPath + {id})) + {id};
  }

  /** Visits space `id` reached from a space named `parent`, threading the
      mapping of recorded projects `acc`. A space whose state cannot be read,
      that lacks a meta or name event, is deleted, or is neither a public
      project nor a container adds nothing and its children are not visited. */
  function Scan(g: Graph, hs: Homeserver, id: Id, parent: string, onPath: set<Id>, acc: map<Id, Project>)
    : (r: Result<map<Id, Project>, CrawlError>)
    ensures r.Success? ==> acc.Keys <= r.value.Keys
    ensures r.Success? && (id !in g || id in onPath || !Classify(g[id]).Live? || Classify(g[id]).role == Stop)
            ==> r.value == acc
    decreases |g.Keys - onPath|, 0
  {
    if id !in g || id in onPath then Success(acc)
    else
      var events := g[id];
      match Classify(events)
      case Unreadable => Success(acc)
      case Deleted => Success(acc)
      case Live(meta, name, role) =>
        var published :- ResolvePublished(id, meta, hs.joinRule(id));
        PathGrows(g, onPath, id);
        match role
        case Record =>
          var project :- BuildProject(hs, id, name, meta, published, parent);
          ScanChildren(g, hs, ChildLinks(events, id), name, onPath + {id}, acc[id := project])
        case PassThrough =>
          ScanChildren(g, hs, ChildLinks(events, id), name, onPath + {id}, acc)
        case Stop => Success(acc)
  }

  /** Visits the child links `kids` one after another, each with `parent` as
      its parent's name; the first fault aborts the rest. */
  function ScanChildren(g: Graph, hs: Homeserver, kids: seq<Id>, parent: string, onPath: set<Id>, acc: map<Id, Project>)
    : (r: Result<map<Id, Project>, CrawlError>)
    ensures r.Success? ==> acc.Keys <= r.value.Keys
    decreases |g.Keys - onPath|, 1, |kids|
  {
    if |kids| == 0 then Success(acc)
    else
      var next :- Scan(g, hs, kids[0], parent, onPath, acc);
      ScanChildren(g, hs, kids[1..], parent, onPath, next)
  }

  /** One crawl from the configured root space, whose parent name is empty. */
  function Crawl(g: Graph, hs: Homeserver, root: Id): Result<map<Id, Project>, CrawlError> {
    Scan(g, hs, root, "", {}, map[])
  }

  /** The record the crawl builds for a recordable space `k` reached from a
      space named `parent`. */
  function ProjectFor(g: Graph, hs: Homeserver, k: Id, parent: string): Result<Project, CrawlError>
    requires k in g && Classify(g[k]).Live?
  {
    var c := Classify(g[k]);
    var published :- ResolvePublished(k, c.meta, hs.joinRule(k));
    BuildProject(hs, k, c.name, c.meta, published, parent)
  }
}
