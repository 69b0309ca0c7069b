# Student-project discovery and content assembly — a Dafny model

This project models the decision logic of `StudentprojectService`
(`src/studentproject.service.js`) of the medienhaus rundgang frontend:

* **The crawl** (`fetch` and its inner `scanForAndAddSpaceChildren`): a
  depth-first walk over Matrix spaces from a configured root. A space whose
  state cannot be read, that has no `dev.medienhaus.meta` or `m.room.name`
  event, or whose meta event is marked deleted is pruned. A public
  `studentproject` is recorded under its id; a space of one of the nine
  container types is passed through; any other space stops the walk. Recorded
  projects and containers have their `m.space.child` links followed in state
  order, with their own name as the child's `parent`.
* **The record** (`createSpaceObject` and the lookups feeding it): the
  `published` state, the credit line, the English and German topics, the
  thumbnail, the authors and the scraped `location` strings.
* **Content assembly** (`getContentBlocks`, `getContent`, `get`): the
  language space is looked up by name among the project's summary rooms; each
  other room with a latest message becomes a block keyed by the part of its
  name before the first `_`, typed by the part after it; media types carry a
  resolved URL, `text`/`ul`/`ol` carry the message's own HTML and every other
  type is rendered by its template; the blocks' HTML is joined in key order.

Every remote call is a function field of `Matrix.Homeserver` (join rule,
avatar, media URL resolution, members, hierarchy, message history, space
summary, latest message); the crawled graph is `Matrix.Graph`, a map from
space id to its state events, where a missing id is a space whose
`roomState` call failed. Handlebars rendering with its template files is the
function `Matrix.Renderer`, which answers `None` for a type without a
template.

Modules, leaves first: `Wrappers` (Option, Result), `Seqs` (lodash-style
`find`/`filter`/`map`), `Strings` (JavaScript `indexOf`, `substring`,
`startsWith`, `includes`), `Matrix` (data shapes and the homeserver),
`SpaceGraph` (classification of one space), `ProjectRecord` (the record's
fields), `Crawler` (the walk), `CrawlerProofs` (what the walk finds, in terms
of simple paths), `CrawlTheorems` (the crawl from the root), `ContentBlocks`
(content assembly).

## How the model departs from the service

* **Cycle guard.** The service recurses without remembering where it has
  been, so a cycle of child links makes it recurse forever. `Crawler.Scan`
  carries the set of spaces on the current path and does not re-enter one of
  them. This is a deliberate strengthening: on an acyclic graph the guard
  never fires and the model visits exactly what the service visits,
  including a space reachable along two paths, whose later visit overwrites
  its record as `_.set` does.
* **Faults abort the crawl.** Unguarded dereferences throw inside the async
  walk, which rejects `fetch` and leaves the previous snapshot in place. The
  model keeps three of them: `joinRule.join_rule` when the join-rule request
  failed (line 105; this happens before classification, so it hits
  containers too), and `en[0].topic` / `de[0].topic` when a recorded
  project's hierarchy has no room named `en` or `de` (lines 120-122). The
  model returns `Failure(CrawlError)` for these; it does not default them to
  `draft` or skip the space. `CrawlTheorems.CrawlFailsIff` states that the
  crawl fails exactly when a walk from the root reaches such a space. The
  dereferences of a room's missing name are not modelled (see "Left out").
* **Two readings of the join rule.** Whether a space is recorded depends on
  the join-rule event in its state (must be `public`), while its `published`
  field comes from a second request and is `draft` only for `invite`. A
  project whose join rule is `knock` therefore resolves as `public` but is
  not recorded (`CrawlTheorems.KnockRuleResolvesPublicButStops`); recorded
  projects are `public` whenever the two reads agree
  (`CrawlTheorems.RecordedProjectIsPublic`).
* **Content faults.** A language with no language space makes the service
  ask the homeserver for the summary of an undefined room, which fails; a
  block type without a template makes `readFileSync` throw, which rejects
  the whole `Promise.all`. Both are `Failure(ContentError)` for the whole
  request, not an empty result or a per-block error
  (`ContentBlocks.ContentRequestFails`).
* **Block order.** The service joins blocks in the enumeration order of the
  result object's keys, not sorted by key. The model keeps the blocks as an
  association list with JavaScript object semantics: a new key is appended,
  an existing key keeps its place and takes the new block, so the keys come
  out ordered by the first room carrying each (`ContentBlocks.ContentBlocksOrder`).
* **Unknown project id.** `get` spreads `undefined` for an id that is not in
  the snapshot and returns the content alone; there is no not-found outcome.
* **JavaScript truthiness** is modelled where it matters: an empty
  `published` counts as absent, an empty topic reads as undefined, an empty
  credit gives `''`, and an undefined `formatted_body` joins as `''`.

## Model

| member | source | states |
|---|---|---|
| `Seqs.FindFirst` | src/studentproject.service.js:67-74 | `_.find` yields the first matching event, or nothing exactly when no event matches |
| `Seqs.Filter` | src/studentproject.service.js:119-128 | filtering keeps exactly the elements meeting the predicate and never lengthens the list |
| `Seqs.FilterAppend` | src/studentproject.service.js:128 | filtering distributes over concatenation, so filtered rooms stay in hierarchy order |
| `Strings.IndexOf` | src/studentproject.service.js:229 | `indexOf('_')` is -1 exactly when there is no `_`, otherwise the first position of one |
| `Strings.IncludesAt` | src/studentproject.service.js:128 | `includes` holds exactly when the token occurs at some position of the name |
| `SpaceGraph.FindMeta` | src/studentproject.service.js:67-68 | the meta declaration is the first `dev.medienhaus.meta` event, absent only when none exists |
| `SpaceGraph.FindName` | src/studentproject.service.js:70-71 | the name is that of the first `m.room.name` event, absent only when none exists |
| `SpaceGraph.FindJoinRule` | src/studentproject.service.js:74 | the state's join rule is that of the first `m.room.join_rules` event |
| `SpaceGraph.Classify` | src/studentproject.service.js:113-150 | a space is unreadable iff meta or name is missing, deleted iff its meta says so, recorded iff it is a `studentproject` public by truthy `published` or else by a `public` state join rule, passed through iff not recorded and of a container type, otherwise a stop |
| `SpaceGraph.NonPublicProjectStops` | src/studentproject.service.js:148-150 | a non-public `studentproject` is a stop, so its subtree is never visited |
| `SpaceGraph.ChildLinks` | src/studentproject.service.js:156-161 | the followed links are exactly the `state_key`s of `m.space.child` events whose `room_id` is the space itself |
| `SpaceGraph.ChildLinksAppend` | src/studentproject.service.js:156-158 | child links are taken in state-event order |
| `ProjectRecord.ResolvePublished` | src/studentproject.service.js:100-106 | `published` is the truthy meta value verbatim, else `draft` iff the fetched join rule is `invite` and `public` otherwise; a failed fetch aborts the crawl |
| `ProjectRecord.CreditOf` | src/studentproject.service.js:94-98 | the credit is the meta credit when non-empty and empty otherwise |
| `ProjectRecord.TopicOf` | src/studentproject.service.js:120-122 | a topic is defined exactly when the room's topic is a non-empty string, and is that topic |
| `ProjectRecord.Bodies` | src/studentproject.service.js:136-141 | a location list holds exactly the bodies of `m.room.message` events that are neither edits nor redacted |
| `ProjectRecord.BodiesAppend` | src/studentproject.service.js:136-143 | the kept bodies stay in chunk order |
| `ProjectRecord.Location` | src/studentproject.service.js:128-145 | `location` is undefined iff no hierarchy room contains `location` without the `x_` prefix, else one body list per such room in hierarchy order |
| `ProjectRecord.Thumbnail` | src/studentproject.service.js:81-85 | the thumbnail is the avatar's URL resolved over HTTP, or empty when the space has no avatar |
| `ProjectRecord.BuildProject` | src/studentproject.service.js:117-147 | a record is built iff the hierarchy has rooms named `en` and `de`, else the crawl fails naming `en` when it is missing and `de` otherwise; it carries the id, name, parent, type, resolved `published`, credit, thumbnail, members, first-room topics, location, and no children |
| `Crawler.Scan` | src/studentproject.service.js:64-163 | recorded entries are never dropped; a space outside the graph, on the current path, unreadable, deleted or a stop leaves the mapping unchanged |
| `Crawler.ScanChildren` | src/studentproject.service.js:156-162 | visiting the child links in turn never drops a recorded entry |
| `CrawlerProofs.NothingDiscovered` | src/studentproject.service.js:65-78 | no path leads to a recorded project through a space the crawl does not expand |
| `CrawlerProofs.ReachesOnlySelf` | src/studentproject.service.js:65-78 | a walk from a space the crawl does not expand ends where it starts |
| `CrawlerProofs.ReachesStep` | src/studentproject.service.js:156-161 | from an expanded space, a walk reaches the space itself and whatever a walk from one of its child links reaches with the space on the path |
| `CrawlerProofs.DiscoveredStep` | src/studentproject.service.js:147-161 | from an expanded space, the reachable projects are the space itself when recorded and those reachable from its child links with the space on the path |
| `CrawlerProofs.ScanExpands` | src/studentproject.service.js:113-162 | visiting an expanded space records it iff it is a public project and then visits exactly its child links, in order, under its name |
| `CrawlerProofs.ScanKeys` | src/studentproject.service.js:64-163 | a visit adds exactly the recordable spaces reachable from the visited space by simple paths through expanded spaces |
| `CrawlerProofs.ScanChildrenKeys` | src/studentproject.service.js:156-162 | visiting child links adds exactly the spaces reachable from one of them |
| `CrawlerProofs.ScanFrame` | src/studentproject.service.js:147-161 | the entry of a space on the current path is never overwritten by a descendant |
| `CrawlerProofs.ScanChildrenFrame` | src/studentproject.service.js:156-162 | visiting child links leaves entries of spaces on the path unchanged |
| `CrawlerProofs.ScanAt` | src/studentproject.service.js:100-150 | visiting a faulty space fails at once; visiting a live stop that is not faulty adds nothing |
| `CrawlerProofs.ScanPassesOn` | src/studentproject.service.js:113-161 | visiting an expanded space that is not faulty goes on to exactly its child links, under its name |
| `CrawlerProofs.FaultReachableStep` | src/studentproject.service.js:156-161 | from an expanded space that is not faulty, a faulty space is reachable iff it is reachable from one of its child links |
| `CrawlerProofs.ScanFails` | src/studentproject.service.js:64-163 | a visit fails iff a walk from the visited space reaches a live space with no truthy `published` and no join-rule answer, or a public project lacking a room named `en` or `de` |
| `CrawlerProofs.ScanChildrenFails` | src/studentproject.service.js:156-162 | visiting child links fails iff such a space is reachable from one of them |
| `CrawlerProofs.ScanRecords` | src/studentproject.service.js:147-161 | every added entry is the record built for its space, whose parent is the name of a space linking to it |
| `CrawlerProofs.ScanChildrenRecords` | src/studentproject.service.js:156-162 | every entry added under child links is a built record whose parent is the linking space's name |
| `CrawlTheorems.VisitRecordsIff` | src/studentproject.service.js:113-147 | a visited space ends up keyed by its id iff it is a live public `studentproject` |
| `CrawlTheorems.CrawlFindsDiscovered` | src/studentproject.service.js:164-167 | the crawl from the root records exactly the projects reachable from the root, each with its built record |
| `CrawlTheorems.CrawlRecordsRoot` | src/studentproject.service.js:165 | the root is recorded iff it is a public project, and then with an empty parent |
| `CrawlTheorems.RecordedProjectIsPublic` | src/studentproject.service.js:100-116 | a recorded project's record is a `studentproject` with its own id, no children, and `published` = `public` when both join-rule reads agree |
| `CrawlTheorems.CrawlRecordsArePublic` | src/studentproject.service.js:100-147 | every record of a crawl is a public `studentproject` keyed by its id when the homeserver agrees with the state |
| `CrawlTheorems.CrawlFailsIff` | src/studentproject.service.js:100-165 | the crawl from the root fails iff a walk from the root reaches a space whose join-rule fetch is dereferenced after failing, or a public project without a room named `en` or `de` |
| `CrawlTheorems.CrawlSucceeds` | src/studentproject.service.js:100-165 | the crawl succeeds when every live space has a truthy `published` or a join-rule answer and every public project has rooms named `en` and `de` |
| `CrawlTheorems.ContainerPassesThrough` | src/studentproject.service.js:54-62 | a live space of one of the nine container types is passed through, never recorded |
| `CrawlTheorems.KnockRuleResolvesPublicButStops` | src/studentproject.service.js:100-115 | any live `studentproject` without a truthy `published` whose join rule is `knock` in its state and in the fetched answer resolves `published` as `public` yet is a stop |
| `ContentBlocks.BlockNameSplit` | src/studentproject.service.js:229-254 | with a `_`, key + `_` + type rebuilds the room name and the key has no `_`; without one, the key is empty and the type is the whole name |
| `ContentBlocks.ServedBlock` | src/studentproject.service.js:229-258 | each stored block is that of the last block room carrying its key: typed by the name after the first `_`, with the resolved media URL for `audio`/`image` and the body otherwise, and with the message's `formatted_body` for `text`/`ul`/`ol` and the template's output otherwise |
| `ContentBlocks.ContentRequestFails` | src/studentproject.service.js:207-251 | a content request fails iff the language has no language space or some block room has a templated type without a template, and then with the type of the first such room |
| `ContentBlocks.AssembleFirstFault` | src/studentproject.service.js:210-251 | a failed assembly reports the missing template of the first unrenderable block room |
| `ContentBlocks.LanguageSpaces` | src/studentproject.service.js:200-205 | a language is mapped iff some summary room other than the project carries its name, and never to the project |
| `ContentBlocks.LanguageSpacesLastWins` | src/studentproject.service.js:202-205 | a language maps to the last summary room carrying its name |
| `ContentBlocks.Put` | src/studentproject.service.js:254-258 | storing a block makes it the key's block and changes no other key |
| `ContentBlocks.PutKeys` | src/studentproject.service.js:186 | an existing key keeps its enumeration position; a new key is enumerated last |
| `ContentBlocks.PutUnique` | src/studentproject.service.js:254 | storing keeps keys unique |
| `ContentBlocks.Assemble` | src/studentproject.service.js:210-259 | assembly never loses a stored key |
| `ContentBlocks.AssembleFails` | src/studentproject.service.js:210-259 | assembly fails iff some block room's block cannot be rendered |
| `ContentBlocks.AssembleUntouched` | src/studentproject.service.js:211-227 | a key no block room carries keeps its former block; the language space and rooms without a message yield none |
| `ContentBlocks.AssembleLastWins` | src/studentproject.service.js:253-258 | a key holds the block of the last block room carrying it |
| `ContentBlocks.AssembleKeys` | src/studentproject.service.js:210-258 | a key is stored iff it was before or some block room carries it |
| `ContentBlocks.FirstCarrier` | src/studentproject.service.js:210-254 | the index of the first block room whose key is the given one, `|rooms|` when there is none |
| `ContentBlocks.AssembleKeyOrder` | src/studentproject.service.js:210-258 | assembly keeps the earlier keys in place and appends each new key once, ordered by the first room carrying it |
| `ContentBlocks.ContentBlocksOrder` | src/studentproject.service.js:186-258 | the keys of a successful request, and so the order in which their HTML is joined, are exactly the carried keys ordered by the first room carrying each |
| `ContentBlocks.AssembleUnique` | src/studentproject.service.js:254 | assembly keeps keys unique |
| `ContentBlocks.GetContentBlocks` | src/studentproject.service.js:190-208 | a language with no language space fails the request |
| `ContentBlocks.ContentBlocksSpec` | src/studentproject.service.js:190-262 | a successful request returns each key once, exactly the keys carried by the language space's block rooms |
| `ContentBlocks.FormattedContentAppend` | src/studentproject.service.js:186 | the joined HTML of a block list is the joined HTML of its parts, in order |
| `ContentBlocks.FormattedContentAt` | src/studentproject.service.js:186 | each block's HTML sits between that of the blocks before and after it |
| `ContentBlocks.GetContent` | src/studentproject.service.js:181-188 | content succeeds iff the block request does, returning its blocks and their joined HTML |
| `ContentBlocks.Get` | src/studentproject.service.js:176-179 | the served project holds the stored record iff the id is in the snapshot, with its English blocks and their joined HTML; it fails iff the English block request does |

## Left out

- Matrix client construction, configuration and access tokens: replaced by the `Homeserver` record of functions.
- Failures of remote calls the service does not catch (`getJoinedRoomMembers`, `getRoomHierarchy`, the message-history requests, the summary of an existing space): each is a total function, as if it always answered.
- Handlebars compilation and template file loading: the `Renderer` function.
- `@Interval` scheduling, `Logger` calls, `getAllEvents` and the assignment of the crawl result to `this.studentprojects`: lifecycle and I/O; `Crawl` returns the mapping (or the fault) that would be stored.
- `Promise.all` concurrency: location rooms and content rooms are processed in list order, which stands in for the arrival order.
- The ordering rule of `Object.keys` that lists integer-like keys first, in ascending order: keys are enumerated in insertion order.
- The `path` argument of the walk: it is only used by commented-out code.
- The assignment of `'deleated'` to `published` (lines 107-109): unreachable, since deleted spaces return at line 78.
- Rooms without a name: a hierarchy room without a name makes `room.name.includes` (line 128) throw and fails the crawl, a content room without a name makes `contentRoom.name.indexOf` (lines 229 and 254) throw and fails the request, and a summary room without a name is registered under the language `undefined` (line 204). The model gives every room a string name, so none of these failures occurs in it.
- Dynamic typing of event contents: fields the service reads are given fixed types (a meta `type` that is not a string is a string that matches no type).
- Strings.Substring: its contract only bounds the result's length; its clamping is exercised through `ContentBlocks.BlockNameSplit`.
