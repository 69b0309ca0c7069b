/** What the crawl finds, stated independently of how it walks: a project is
    in the result exactly when a simple path of spaces leads to it from the
    root, every space before it on the path being a live container or a
    recorded project that links to the next. */
module CrawlerProofs {
  import opened Wrappers
  import opened Matrix
  import opened SpaceGraph
  import opened ProjectRecord
  import opened Crawler

  /** A space whose child links the crawl follows. */
  ghost predicate Expanded(g: Graph, u: Id) {
    u in g && Classify(g[u]).Live? && Classify(g[u]).role != Stop
  }

  /** A space the crawl records when it visits it. */
  ghost predicate Recorded(g: Graph, u: Id) {
    u in g && Classify(g[u]).Live? && Classify(g[u]).role == Record
  }

  function Children(g: Graph, u: Id): seq<Id>
    requires u in g
  {
    ChildLinks(g[u], u)
  }

  /** A simple path of readable spaces avoiding `onPath`, each step following a
      child link of an expanded space. */
  ghost predicate Walk(g: Graph, onPath: set<Id>, w: seq<Id>) {
    && |w| > 0
    && (forall i :: 0 <= i < |w| ==> w[i] in g && w[i] !in onPath)
    && (forall i, j :: 0 <= i < j < |w| ==> w[i] != w[j])
    && (forall i :: 0 <= i < |w| - 1 ==> Expanded(g, w[i]) && w[i + 1] in Children(g, w[i]))
  }

  /** A walk from `start` avoiding `onPath` ends at `k`. */
  ghost predicate Reaches(g: Graph, onPath: set<Id>, start: Id, k: Id) {
    exists w :: Walk(g, onPath, w) && w[0] == start && w[|w| - 1] == k
  }

  /** `k` is a recordable space that a walk from `start` avoiding `onPath` reaches. */
  ghost predicate Discovered(g: Graph, onPath: set<Id>, start: Id, k: Id) {
    Reaches(g, onPath, start, k) && Recorded(g, k)
  }

  /** A walk from a space the crawl does not expand goes nowhere else. */
  lemma ReachesOnlySelf(g: Graph, onPath: set<Id>, id: Id, k: Id)
    requires id !in g || id in onPath || !Expanded(g, id)
    ensures Reaches(g, onPath, id, k) ==> k == id && id in g && id !in onPath
  {
  }

  /** Nothing is discovered from a space the crawl does not expand. */
  lemma NothingDiscovered(g: Graph, onPath: set<Id>, id: Id, k: Id)
    requires id !in g || id in onPath || !Expanded(g, id)
    ensures !Discovered(g, onPath, id, k)
  {
  }

  /** A walk from an expanded space that goes on continues as a walk from one
      of its children, with the space itself on the path. */
  lemma ReachesThroughChild(g: Graph, onPath: set<Id>, id: Id, k: Id)
    requires id in g && id !in onPath && Expanded(g, id)
    requires Reaches(g, onPath, id, k) && k != id
    ensures exists j :: 0 <= j < |Children(g, id)| && Reaches(g, onPath + {id}, Children(g, id)[j], k)
  {
    var kids := Children(g, id);
    var w :| Walk(g, onPath, w) && w[0] == id && w[|w| - 1] == k;
    var tail := w[1..];
    assert Walk(g, onPath + {id}, tail) by {
      forall i | 0 <= i < |tail| ensures tail[i] != id {
        assert w[0] != w[i + 1];
      }
    }
    assert |w| > 1 && w[1] in kids;
    var j :| 0 <= j < |kids| && kids[j] == w[1];
    assert tail[0] == kids[j] && tail[|tail| - 1] == k;
    assert Reaches(g, onPath + {id}, kids[j], k);
  }

  /** A walk from a child of an expanded space, avoiding the space, extends to
      a walk from the space. */
  lemma ReachesFromChild(g: Graph, onPath: set<Id>, id: Id, child: Id, k: Id)
    requires id in g && id !in onPath && Expanded(g, id)
    requires child in Children(g, id) && Reaches(g, onPath + {id}, child, k)
    ensures Reaches(g, onPath, id, k)
  {
    var tail :| Walk(g, onPath + {id}, tail) && tail[0] == child && tail[|tail| - 1] == k;
    var w := [id] + tail;
    assert forall i :: 0 < i < |w| ==> w[i] == tail[i - 1];
    assert Walk(g, onPath, w);
  }

  /** A graph space off the path is reached from itself. */
  lemma ReachesSelf(g: Graph, onPath: set<Id>, id: Id)
    requires id in g && id !in onPath
    ensures Reaches(g, onPath, id, id)
  {
    assert Walk(g, onPath, [id]);
  }

  /** A recordable space is discovered from itself. */
  lemma DiscoveredSelf(g: Graph, onPath: set<Id>, id: Id)
    requires id in g && id !in onPath && Recorded(g, id)
    ensures Discovered(g, onPath, id, id)
  {
    ReachesSelf(g, onPath, id);
  }

  /** From an expanded space, a walk reaches the space itself and whatever a
      walk from one of its children reaches once the space is on the path. */
  lemma ReachesStep(g: Graph, onPath: set<Id>, id: Id, k: Id)
    requires id in g && id !in onPath && Expanded(g, id)
    ensures Reaches(g, onPath, id, k) <==>
              k == id || exists j :: 0 <= j < |Children(g, id)| && Reaches(g, onPath + {id}, Children(g, id)[j], k)
  {
    var kids := Children(g, id);
    if Reaches(g, onPath, id, k) && k != id {
      ReachesThroughChild(g, onPath, id, k);
    }
    if k == id {
      ReachesSelf(g, onPath, id);
    }
    if exists j :: 0 <= j < |kids| && Reaches(g, onPath + {id}, kids[j], k) {
      var j :| 0 <= j < |kids| && Reaches(g, onPath + {id}, kids[j], k);
      ReachesFromChild(g, onPath, id, kids[j], k);
    }
  }

  /** From an expanded space, the discovered spaces are the space itself when it
      is recorded, and those discovered from its children once it is on the path. */
  lemma DiscoveredStep(g: Graph, onPath: set<Id>, id: Id, k: Id)
    requires id in g && id !in onPath && Expanded(g, id)
    ensures Discovered(g, onPath, id, k) <==>
              (k == id && Recorded(g, id))
              || exists j :: 0 <= j < |Children(g, id)| && Discovered(g, onPath + {id}, Children(g, id)[j], k)
  {
    ReachesStep(g, onPath, id, k);
  }

  /** Visiting an expanded space records it when it is a public project and
      then visits its child links in state order, with its name as their
      parent's name and itself on the path. */
  lemma ScanExpands(g: Graph, hs: Homeserver, id: Id, parent: string, onPath: set<Id>, acc: map<Id, Project>)
    returns (acc': map<Id, Project>)
    requires id in g && id !in onPath && Expanded(g, id)
    requires Scan(g, hs, id, parent, onPath, acc).Success?
    ensures Recorded(g, id) ==> ProjectFor(g, hs, id, parent).Success?
                                && acc' == acc[id := ProjectFor(g, hs, id, parent).value]
    ensures !Recorded(g, id) ==> acc' == acc
    ensures |g.Keys - (onPath + {id})| < |g.Keys - onPath|
    ensures Scan(g, hs, id, parent, onPath, acc)
            == ScanChildren(g, hs, Children(g, id), Classify(g[id]).name, onPath + {id}, acc')
  {
    PathGrows(g, onPath, id);
    var c := Classify(g[id]);
    if c.role == Record {
      acc' := acc[id := ProjectFor(g, hs, id, parent).value];
    } else {
      acc' := acc;
    }
  }

  /** The keys of a crawl result are those already recorded and the spaces
      discovered from the visited space. */
  lemma {:induction false} ScanKeys(g: Graph, hs: Homeserver, id: Id, parent: string, onPath: set<Id>, acc: map<Id, Project>)
    requires Scan(g, hs, id, parent, onPath, acc).Success?
    ensures forall k :: k in Scan(g, hs, id, parent, onPath, acc).value <==> k in acc || Discovered(g, onPath, id, k)
    decreases |g.Keys - onPath|, 0
  {
    var r := Scan(g, hs, id, parent, onPath, acc).value;
    if id !in g || id in onPath || !Expanded(g, id) {
      forall k ensures !Discovered(g, onPath, id, k) {
        NothingDiscovered(g, onPath, id, k);
      }
    } else {
      var acc' := ScanExpands(g, hs, id, parent, onPath, acc);
      var kids := Children(g, id);
      ScanChildrenKeys(g, hs, kids, Classify(g[id]).name, onPath + {id}, acc');
      forall k ensures k in r <==> k in acc || Discovered(g, onPath, id, k) {
        DiscoveredStep(g, onPath, id, k);
      }
    }
  }

  lemma {:induction false} ScanChildrenKeys(g: Graph, hs: Homeserver, kids: seq<Id>, parent: string, onPath: set<Id>, acc: map<Id, Project>)
    requires ScanChildren(g, hs, kids, parent, onPath, acc).Success?
    ensures forall k :: k in ScanChildren(g, hs, kids, parent, onPath, acc).value <==>
              k in acc || exists j :: 0 <= j < |kids| && Discovered(g, onPath, kids[j], k)
    decreases |g.Keys - onPath|, 1, |kids|
  {
    if |kids| > 0 {
      var next := Scan(g, hs, kids[0], parent, onPath, acc).value;
      ScanKeys(g, hs, kids[0], parent, onPath, acc);
      ScanChildrenKeys(g, hs, kids[1..], parent, onPath, next);
      forall k | exists j :: 0 <= j < |kids| && Discovered(g, onPath, kids[j], k)
        ensures Discovered(g, onPath, kids[0], k) || exists j :: 0 <= j < |kids[1..]| && Discovered(g, onPath, kids[1..][j], k)
      {
        var j :| 0 <= j < |kids| && Discovered(g, onPath, kids[j], k);
        if j > 0 {
          assert kids[1..][j - 1] == kids[j];
        }
      }
    }
  }

  /** Entries for spaces on the path are never overwritten. */
  lemma {:induction false} ScanFrame(g: Graph, hs: Homeserver, id: Id, parent: string, onPath: set<Id>, acc: map<Id, Project>)
    requires Scan(g, hs, id, parent, onPath, acc).Success?
    ensures forall k :: k in onPath && k in acc ==>
              k in Scan(g, hs, id, parent, onPath, acc).value && Scan(g, hs, id, parent, onPath, acc).value[k] == acc[k]
    decreases |g.Keys - onPath|, 0
  {
    if id in g && id !in onPath && Expanded(g, id) {
      var acc' := ScanExpands(g, hs, id, parent, onPath, acc);
      ScanChildrenFrame(g, hs, Children(g, id), Classify(g[id]).name, onPath + {id}, acc');
    }
  }

  lemma {:induction false} ScanChildrenFrame(g: Graph, hs: Homeserver, kids: seq<Id>, parent: string, onPath: set<Id>, acc: map<Id, Project>)
    requires ScanChildren(g, hs, kids, parent, onPath, acc).Success?
    ensures forall k :: k in onPath && k in acc ==>
              k in ScanChildren(g, hs, kids, parent, onPath, acc).value
              && ScanChildren(g, hs, kids, parent, onPath, acc).value[k] == acc[k]
    decreases |g.Keys - onPath|, 1, |kids|
  {
    if |kids| > 0 {
      var next := Scan(g, hs, kids[0], parent, onPath, acc).value;
      ScanFrame(g, hs, kids[0], parent, onPath, acc);
      ScanChildrenFrame(g, hs, kids[1..], parent, onPath, next);
    }
  }

  /** `k` is a child link of an expanded space named `p`. */
  ghost predicate LinkedFrom(g: Graph, k: Id, p: string) {
    exists u :: Expanded(g, u) && k in Children(g, u) && Classify(g[u]).name == p
  }

  /** `rec` is the record the crawl builds for the recordable space `k`, given
      the parent name the record holds. */
  ghost predicate Built(g: Graph, hs: Homeserver, k: Id, rec: Project) {
    Recorded(g, k) && ProjectFor(g, hs, k, rec.parent) == Success(rec)
  }

  /** Every entry the crawl adds is the record built for its space, and its
      parent is the name of a space that links to it (or the caller's parent
      name for the visited space itself). */
  lemma {:induction false} ScanRecords(g: Graph, hs: Homeserver, id: Id, parent: string, onPath: set<Id>, acc: map<Id, Project>)
    requires Scan(g, hs, id, parent, onPath, acc).Success?
    ensures var r := Scan(g, hs, id, parent, onPath, acc).value;
            forall k :: k in r ==>
              (k in acc && r[k] == acc[k])
              || (Built(g, hs, k, r[k]) && ((k == id && r[k].parent == parent) || LinkedFrom(g, k, r[k].parent)))
    decreases |g.Keys - onPath|, 0
  {
    if id in g && id !in onPath && Expanded(g, id) {
      var r := Scan(g, hs, id, parent, onPath, acc).value;
      var acc' := ScanExpands(g, hs, id, parent, onPath, acc);
      var kids := Children(g, id);
      var name := Classify(g[id]).name;
      ScanChildrenRecords(g, hs, kids, name, onPath + {id}, acc');
      forall k | k in r && !(k in acc && r[k] == acc[k])
        ensures Built(g, hs, k, r[k]) && ((k == id && r[k].parent == parent) || LinkedFrom(g, k, r[k].parent))
      {
        if k in acc' && r[k] == acc'[k] {
          assert k == id;
        } else if k in kids && r[k].parent == name {
          assert LinkedFrom(g, k, r[k].parent);
        }
      }
    }
  }

  lemma {:induction false} ScanChildrenRecords(g: Graph, hs: Homeserver, kids: seq<Id>, parent: string, onPath: set<Id>, acc: map<Id, Project>)
    requires ScanChildren(g, hs, kids, parent, onPath, acc).Success?
    ensures var r := ScanChildren(g, hs, kids, parent, onPath, acc).value;
            forall k :: k in r ==>
              (k in acc && r[k] == acc[k])
              || (Built(g, hs, k, r[k]) && ((k in kids && r[k].parent == parent) || LinkedFrom(g, k, r[k].parent)))
    decreases |g.Keys - onPath|, 1, |kids|
  {
    if |kids| > 0 {
      var next := Scan(g, hs, kids[0], parent, onPath, acc).value;
      ScanRecords(g, hs, kids[0], parent, onPath, acc);
      ScanChildrenRecords(g, hs, kids[1..], parent, onPath, next);
    }
  }

  /** A live space whose visit faults: its `published` is not truthy and the
      join-rule fetch failed, or it is a public project whose hierarchy lacks
      a room named `en` or one named `de`. */
  ghost predicate Faulty(g: Graph, hs: Homeserver, u: Id) {
    && u in g && Classify(g[u]).Live?
    && (|| (!Truthy(Classify(g[u]).meta.published) && hs.joinRule(u).None?)
        || (&& Classify(g[u]).role == Record
            && (|LanguageRooms(hs.hierarchy(u), "en")| == 0 || |LanguageRooms(hs.hierarchy(u), "de")| == 0)))
  }

  /** Some walk from `start` avoiding `onPath` ends at a faulty space. */
  ghost predicate FaultReachable(g: Graph, hs: Homeserver, onPath: set<Id>, start: Id) {
    exists t :: Reaches(g, onPath, start, t) && Faulty(g, hs, t)
  }

  /** From an expanded space that is not faulty, a faulty space is reachable
      exactly when it is reachable from one of its children with the space on
      the path. */
  lemma FaultReachableStep(g: Graph, hs: Homeserver, onPath: set<Id>, id: Id)
    requires id in g && id !in onPath && Expanded(g, id) && !Faulty(g, hs, id)
    ensures FaultReachable(g, hs, onPath, id) <==>
              exists j :: 0 <= j < |Children(g, id)| && FaultReachable(g, hs, onPath + {id}, Children(g, id)[j])
  {
    var kids := Children(g, id);
    if FaultReachable(g, hs, onPath, id) {
      var t :| Reaches(g, onPath, id, t) && Faulty(g, hs, t);
      ReachesStep(g, onPath, id, t);
      var j :| 0 <= j < |kids| && Reaches(g, onPath + {id}, kids[j], t);
      assert FaultReachable(g, hs, onPath + {id}, kids[j]);
    }
    if exists j :: 0 <= j < |kids| && FaultReachable(g, hs, onPath + {id}, kids[j]) {
      var j :| 0 <= j < |kids| && FaultReachable(g, hs, onPath + {id}, kids[j]);
      var t :| Reaches(g, onPath + {id}, kids[j], t) && Faulty(g, hs, t);
      ReachesFromChild(g, onPath, id, kids[j], t);
    }
  }

  /** Visiting an expanded space that is not faulty goes on to its child links,
      with its name as their parent's name and itself on the path. */
  lemma ScanPassesOn(g: Graph, hs: Homeserver, id: Id, parent: string, onPath: set<Id>, acc: map<Id, Project>)
    returns (acc': map<Id, Project>)
    requires id in g && id !in onPath && Expanded(g, id) && !Faulty(g, hs, id)
    ensures |g.Keys - (onPath + {id})| < |g.Keys - onPath|
    ensures Scan(g, hs, id, parent, onPath, acc)
            == ScanChildren(g, hs, Children(g, id), Classify(g[id]).name, onPath + {id}, acc')
  {
    PathGrows(g, onPath, id);
    var c := Classify(g[id]);
    var published := ResolvePublished(id, c.meta, hs.joinRule(id)).value;
    if c.role == Record {
      acc' := acc[id := BuildProject(hs, id, c.name, c.meta, published, parent).value];
    } else {
      acc' := acc;
    }
  }

  /** Visiting a faulty space fails at once; visiting a live stop that is not
      faulty adds nothing. */
  lemma ScanAt(g: Graph, hs: Homeserver, id: Id, parent: string, onPath: set<Id>, acc: map<Id, Project>)
    requires id in g && id !in onPath && Classify(g[id]).Live?
    ensures Faulty(g, hs, id) ==> Scan(g, hs, id, parent, onPath, acc).Failure?
    ensures !Faulty(g, hs, id) && !Expanded(g, id) ==> Scan(g, hs, id, parent, onPath, acc) == Success(acc)
  {
  }

  /** A visit fails exactly when a walk from the visited space reaches a
      faulty space, whatever has been recorded before. */
  lemma {:induction false} ScanFails(g: Graph, hs: Homeserver, id: Id, parent: string, onPath: set<Id>, acc: map<Id, Project>)
    ensures Scan(g, hs, id, parent, onPath, acc).Failure? <==> FaultReachable(g, hs, onPath, id)
    decreases |g.Keys - onPath|, 0
  {
    if id !in g || id in onPath || !Classify(g[id]).Live? {
      forall t ensures !(Reaches(g, onPath, id, t) && Faulty(g, hs, t)) {
        ReachesOnlySelf(g, onPath, id, t);
      }
    } else if Faulty(g, hs, id) {
      ScanAt(g, hs, id, parent, onPath, acc);
      ReachesSelf(g, onPath, id);
    } else if !Expanded(g, id) {
      ScanAt(g, hs, id, parent, onPath, acc);
      forall t ensures !(Reaches(g, onPath, id, t) && Faulty(g, hs, t)) {
        ReachesOnlySelf(g, onPath, id, t);
      }
    } else {
      var acc' := ScanPassesOn(g, hs, id, parent, onPath, acc);
      ScanChildrenFails(g, hs, Children(g, id), Classify(g[id]).name, onPath + {id}, acc');
      FaultReachableStep(g, hs, onPath, id);
    }
  }

  lemma {:induction false} ScanChildrenFails(g: Graph, hs: Homeserver, kids: seq<Id>, parent: string, onPath: set<Id>, acc: map<Id, Project>)
    ensures ScanChildren(g, hs, kids, parent, onPath, acc).Failure? <==>
              exists j :: 0 <= j < |kids| && FaultReachable(g, hs, onPath, kids[j])
    decreases |g.Keys - onPath|, 1, |kids|
  {
    if |kids| > 0 {
      ScanFails(g, hs, kids[0], parent, onPath, acc);
      var first := Scan(g, hs, kids[0], parent, onPath, acc);
      if first.Success? {
        ScanChildrenFails(g, hs, kids[1..], parent, onPath, first.value);
        forall j | 1 <= j < |kids| ensures kids[1..][j - 1] == kids[j] { }
      }
    }
  }
}
