/** Content assembly for one project and language (`getContentBlocks`,
    `getContent`, `get`): find the language space, read the latest message of
    each content-block room, turn it into a block keyed by the room name's
    prefix, and concatenate the blocks' HTML in key order. */
module ContentBlocks {
  import opened Wrappers
  import opened Seqs
  import opened Strings
  import opened Matrix
  import opened ProjectRecord

  /** The block type: everything after the first `_` of the room name, or the
      whole name when it has none. */
  function BlockType(name: string): string {
    Substring(name, IndexOf(name, '_') + 1, |name|)
  }

  /** The block key: everything before the first `_`, or empty when there is none. */
  function BlockId(name: string): string {
    Substring(name, 0, IndexOf(name, '_'))
  }

  /** A room name is split at its first `_` into key and type; a name without
      `_` has an empty key and is its own type. */
  lemma BlockNameSplit(name: string)
    ensures '_' in name ==> BlockId(name) + "_" + BlockType(name) == name && '_' !in BlockId(name)
    ensures '_' !in name ==> BlockId(name) == "" && BlockType(name) == name
  {
  }

  /** Types whose content is a media URL. */
  predicate IsMediaType(t: string) {
    t == "audio" || t == "image"
  }

  /** Types whose HTML is the message's own `formatted_body`. */
  predicate IsMarkupType(t: string) {
    t == "text" || t == "ul" || t == "ol"
  }

  /** One rendered block; `formattedContent` is `None` where the service
      stores an undefined `formatted_body`. */
  datatype Block = Block(blockType: string, content: string, formattedContent: Option<string>)

  /** A key of the block object together with its block. */
  datatype Entry = Entry(key: string, block: Block)

  /** Faults that make the whole content request fail: asking the homeserver
      for the summary of a language space that does not exist, or reading the
      template file of a type that has none. */
  datatype ContentError = NoLanguageSpace(language: string) | NoTemplate(blockType: string)

  /** The block's content: the HTTP URL of the message's media for media
      types, its body otherwise. */
  function BlockContent(hs: Homeserver, t: string, msg: Message): (r: string)
    ensures IsMediaType(t) ==> r == hs.mxcToHttp(msg.url)
    ensures !IsMediaType(t) ==> r == msg.body
  {
    if IsMediaType(t) then hs.mxcToHttp(msg.url) else msg.body
  }

  /** The block built from the latest message of a room of type `t`. */
  function MakeBlock(hs: Homeserver, render: Renderer, t: string, msg: Message): (r: Result<Block, ContentError>)
    ensures IsMarkupType(t) ==> r == Success(Block(t, msg.body, msg.formattedBody))
    ensures !IsMarkupType(t) ==>
              match render(t, BlockContent(hs, t, msg), msg)
              case None => r == Failure(NoTemplate(t))
              case Some(html) => r == Success(Block(t, BlockContent(hs, t, msg), Some(html)))
  {
    var content := BlockContent(hs, t, msg);
    if IsMarkupType(t) then Success(Block(t, content, msg.formattedBody))
    else
      match render(t, content, msg)
      case None => Failure(NoTemplate(t))
      case Some(html) => Success(Block(t, content, Some(html)))
  }

  /** The rooms of a summary that name a language space: every room but the
      project itself. */
  predicate NamesLanguage(room: SummaryRoom, projectId: Id, language: string) {
    room.roomId != projectId && room.name == language
  }

  /** Language name to language-space id, built by assigning the rooms of the
      project's summary in order, so a later room of the same name wins. */
  function LanguageSpaces(projectId: Id, rooms: seq<SummaryRoom>): (r: map<string, Id>)
    ensures forall n :: n in r ==> r[n] != projectId
    ensures forall n :: n in r <==> exists i :: 0 <= i < |rooms| && NamesLanguage(rooms[i], projectId, n)
  {
    if |rooms| == 0 then map[]
    else
      var front := rooms[..|rooms| - 1];
      var m := LanguageSpaces(projectId, front);
      var last := rooms[|rooms| - 1];
      assert forall i :: 0 <= i < |front| ==> front[i] == rooms[i];
      if last.roomId == projectId then m else m[last.name := last.roomId]
  }

  /** `rooms[i]` is the last room naming `language`. */
  predicate LastNaming(rooms: seq<SummaryRoom>, projectId: Id, language: string, i: int) {
    && 0 <= i < |rooms|
    && NamesLanguage(rooms[i], projectId, language)
    && forall j :: i < j < |rooms| ==> !NamesLanguage(rooms[j], projectId, language)
  }

  /** A language maps to the space of the last room carrying its name. */
  lemma {:induction false} LanguageSpacesLastWins(projectId: Id, rooms: seq<SummaryRoom>, language: string)
    returns (i: nat)
    requires language in LanguageSpaces(projectId, rooms)
    ensures LastNaming(rooms, projectId, language, i)
    ensures LanguageSpaces(projectId, rooms)[language] == rooms[i].roomId
  {
    var front := rooms[..|rooms| - 1];
    var last := rooms[|rooms| - 1];
    if NamesLanguage(last, projectId, language) {
      i := |rooms| - 1;
    } else {
      i := LanguageSpacesLastWins(projectId, front, language);
      assert front[i] == rooms[i];
      assert forall j :: i < j < |front| ==> front[j] == rooms[j];
    }
  }

  /** The keys of a block object, in enumeration order. */
  function Keys(es: seq<Entry>): seq<string> {
    Map(es, (e: Entry) => e.key)
  }

  /** No key occurs twice. */
  predicate UniqueKeys(es: seq<Entry>) {
    forall i, j :: 0 <= i < j < |es| ==> es[i].key != es[j].key
  }

  /** The block stored under `key`, if any. */
  function Lookup(es: seq<Entry>, key: string): (r: Option<Block>)
    ensures r.None? <==> forall i :: 0 <= i < |es| ==> es[i].key != key
    ensures r.Some? ==> exists i :: 0 <= i < |es| && es[i] == Entry(key, r.value)
  {
    if |es| == 0 then None
    else if es[0].key == key then Some(es[0].block)
    else
      var r := Lookup(es[1..], key);
      assert forall i :: 0 <= i < |es| - 1 ==> es[1..][i] == es[i + 1];
      r
  }

  /** `result[key] = block` on a JavaScript object: an existing key keeps its
      place and takes the new block, a new key goes last. */
  function Put(es: seq<Entry>, key: string, block: Block): (r: seq<Entry>)
    ensures Lookup(r, key) == Some(block)
    ensures forall k :: k != key ==> Lookup(r, k) == Lookup(es, k)
  {
    if |es| == 0 then [Entry(key, block)]
    else if es[0].key == key then [Entry(key, block)] + es[1..]
    else [es[0]] + Put(es[1..], key, block)
  }

  /** Storing under a present key keeps the key order; a new key is appended. */
  lemma {:induction false} PutKeys(es: seq<Entry>, key: string, block: Block)
    ensures Lookup(es, key).Some? ==> Keys(Put(es, key, block)) == Keys(es)
    ensures Lookup(es, key).None? ==> Keys(Put(es, key, block)) == Keys(es) + [key]
  {
    if |es| > 0 {
      assert Keys(es) == [es[0].key] + Keys(es[1..]);
      if es[0].key == key {
        assert Keys(Put(es, key, block)) == [key] + Keys(es[1..]);
      } else {
        var rest := Put(es[1..], key, block);
        PutKeys(es[1..], key, block);
        assert Keys([es[0]] + rest) == [es[0].key] + Keys(rest);
      }
    }
  }

  /** Storing keeps keys unique. */
  lemma {:induction false} PutUnique(es: seq<Entry>, key: string, block: Block)
    requires UniqueKeys(es)
    ensures UniqueKeys(Put(es, key, block))
  {
    if |es| > 0 && es[0].key != key {
      var rest := Put(es[1..], key, block);
      PutUnique(es[1..], key, block);
      assert forall j :: 0 <= j < |es| - 1 ==> es[1..][j].key != es[0].key;
      assert Lookup(rest, es[0].key).None?;
      var r := [es[0]] + rest;
      assert forall i :: 0 < i < |r| ==> r[i] == rest[i - 1];
    }
  }

  /** A room of the language space that yields a block: not the language space
      itself, and holding a latest message. */
  predicate IsBlockRoom(hs: Homeserver, languageSpace: Id, room: SummaryRoom) {
    room.roomId != languageSpace && hs.lastMessage(room.roomId).Some?
  }

  /** The block of a block room. */
  function BlockOf(hs: Homeserver, render: Renderer, room: SummaryRoom): Result<Block, ContentError>
    requires hs.lastMessage(room.roomId).Some?
  {
    MakeBlock(hs, render, BlockType(room.name), hs.lastMessage(room.roomId).value)
  }

  /** The blocks of `rooms`, processed in order and stored into `es`. */
  function Assemble(hs: Homeserver, render: Renderer, languageSpace: Id, rooms: seq<SummaryRoom>, es: seq<Entry>)
    : (r: Result<seq<Entry>, ContentError>)
    ensures r.Success? ==> forall k :: Lookup(es, k).Some? ==> Lookup(r.value, k).Some?
  {
    if |rooms| == 0 then Success(es)
    else
      var room := rooms[0];
      if !IsBlockRoom(hs, languageSpace, room) then Assemble(hs, render, languageSpace, rooms[1..], es)
      else
        var block :- BlockOf(hs, render, room);
        Assemble(hs, render, languageSpace, rooms[1..], Put(es, BlockId(room.name), block))
  }

  /** Assembly fails exactly when some block room's block cannot be rendered. */
  lemma {:induction false} AssembleFails(hs: Homeserver, render: Renderer, languageSpace: Id, rooms: seq<SummaryRoom>, es: seq<Entry>)
    ensures Assemble(hs, render, languageSpace, rooms, es).Failure? <==>
              exists i :: 0 <= i < |rooms| && IsBlockRoom(hs, languageSpace, rooms[i])
                          && BlockOf(hs, render, rooms[i]).Failure?
  {
    if |rooms| > 0 {
      var room := rooms[0];
      assert forall i :: 0 <= i < |rooms| - 1 ==> rooms[1..][i] == rooms[i + 1];
      if !IsBlockRoom(hs, languageSpace, room) {
        AssembleFails(hs, render, languageSpace, rooms[1..], es);
      } else if BlockOf(hs, render, room).Success? {
        AssembleFails(hs, render, languageSpace, rooms[1..], Put(es, BlockId(room.name), BlockOf(hs, render, room).value));
      }
    }
  }

  /** A block room whose block is stored under `key`. */
  predicate Carries(hs: Homeserver, languageSpace: Id, room: SummaryRoom, key: string) {
    IsBlockRoom(hs, languageSpace, room) && BlockId(room.name) == key
  }

  /** Assembly unfolds to the remaining rooms, with the first room's block stored. */
  lemma AssembleStep(hs: Homeserver, render: Renderer, languageSpace: Id, rooms: seq<SummaryRoom>, es: seq<Entry>)
    returns (es': seq<Entry>)
    requires |rooms| > 0 && Assemble(hs, render, languageSpace, rooms, es).Success?
    ensures !IsBlockRoom(hs, languageSpace, rooms[0]) ==> es' == es
    ensures IsBlockRoom(hs, languageSpace, rooms[0]) ==>
              BlockOf(hs, render, rooms[0]).Success?
              && es' == Put(es, BlockId(rooms[0].name), BlockOf(hs, render, rooms[0]).value)
    ensures Assemble(hs, render, languageSpace, rooms, es) == Assemble(hs, render, languageSpace, rooms[1..], es')
  {
    if IsBlockRoom(hs, languageSpace, rooms[0]) {
      es' := Put(es, BlockId(rooms[0].name), BlockOf(hs, render, rooms[0]).value);
    } else {
      es' := es;
    }
  }

  /** A key that no block room carries keeps what it held before assembly. */
  lemma {:induction false} AssembleUntouched(hs: Homeserver, render: Renderer, languageSpace: Id, rooms: seq<SummaryRoom>, es: seq<Entry>, key: string)
    requires Assemble(hs, render, languageSpace, rooms, es).Success?
    requires forall i :: 0 <= i < |rooms| ==> !Carries(hs, languageSpace, rooms[i], key)
    ensures Lookup(Assemble(hs, render, languageSpace, rooms, es).value, key) == Lookup(es, key)
  {
    if |rooms| > 0 {
      var es' := AssembleStep(hs, render, languageSpace, rooms, es);
      assert forall i :: 0 <= i < |rooms| - 1 ==> rooms[1..][i] == rooms[i + 1];
      AssembleUntouched(hs, render, languageSpace, rooms[1..], es', key);
    }
  }

  /** After assembly, a key holds the block of the last block room carrying it:
      a later room of the same key overwrites an earlier one. */
  lemma {:induction false} AssembleLastWins(hs: Homeserver, render: Renderer, languageSpace: Id, rooms: seq<SummaryRoom>, es: seq<Entry>, key: string, i: nat)
    requires Assemble(hs, render, languageSpace, rooms, es).Success?
    requires i < |rooms| && Carries(hs, languageSpace, rooms[i], key)
    requires forall j :: i < j < |rooms| ==> !Carries(hs, languageSpace, rooms[j], key)
    ensures BlockOf(hs, render, rooms[i]).Success?
    ensures Lookup(Assemble(hs, render, languageSpace, rooms, es).value, key) == Some(BlockOf(hs, render, rooms[i]).value)
  {
    var es' := AssembleStep(hs, render, languageSpace, rooms, es);
    var rest := rooms[1..];
    assert forall j :: 0 <= j < |rooms| - 1 ==> rest[j] == rooms[j + 1];
    if i == 0 {
      AssembleUntouched(hs, render, languageSpace, rest, es', key);
    } else {
      AssembleLastWins(hs, render, languageSpace, rest, es', key, i - 1);
    }
  }

  /** A room carrying `key` is followed by a last one. */
  lemma LastCarrier(hs: Homeserver, languageSpace: Id, rooms: seq<SummaryRoom>, key: string, i0: nat)
    returns (i: nat)
    requires i0 < |rooms| && Carries(hs, languageSpace, rooms[i0], key)
    ensures i0 <= i < |rooms| && Carries(hs, languageSpace, rooms[i], key)
    ensures forall j :: i < j < |rooms| ==> !Carries(hs, languageSpace, rooms[j], key)
  {
    i := i0;
    while exists j :: i < j < |rooms| && Carries(hs, languageSpace, rooms[j], key)
      invariant i0 <= i < |rooms| && Carries(hs, languageSpace, rooms[i], key)
      decreases |rooms| - i
    {
      var j :| i < j < |rooms| && Carries(hs, languageSpace, rooms[j], key);
      i := j;
    }
  }

  /** Assembly stores a key exactly when it was stored before or some block
      room carries it. */
  lemma {:induction false} AssembleKeys(hs: Homeserver, render: Renderer, languageSpace: Id, rooms: seq<SummaryRoom>, es: seq<Entry>, key: string)
    requires Assemble(hs, render, languageSpace, rooms, es).Success?
    ensures Lookup(Assemble(hs, render, languageSpace, rooms, es).value, key).Some? <==>
              Lookup(es, key).Some? || exists i :: 0 <= i < |rooms| && Carries(hs, languageSpace, rooms[i], key)
  {
    if exists i :: 0 <= i < |rooms| && Carries(hs, languageSpace, rooms[i], key) {
      var i0 :| 0 <= i0 < |rooms| && Carries(hs, languageSpace, rooms[i0], key);
      var i := LastCarrier(hs, languageSpace, rooms, key, i0);
      AssembleLastWins(hs, render, languageSpace, rooms, es, key, i);
    } else {
      AssembleUntouched(hs, render, languageSpace, rooms, es, key);
    }
  }

  /** The block object of a project in a language: the language space is
      looked up by name among the project's summary rooms, then its rooms are
      assembled into blocks. */
  function GetContentBlocks(hs: Homeserver, render: Renderer, projectId: Id, language: string)
    : (r: Result<seq<Entry>, ContentError>)
    ensures language !in LanguageSpaces(projectId, hs.spaceSummary(projectId)) ==>
              r == Failure(NoLanguageSpace(language))
  {
    var languages := LanguageSpaces(projectId, hs.spaceSummary(projectId));
    if language !in languages then Failure(NoLanguageSpace(language))
    else
      var space := languages[language];
      Assemble(hs, render, space, hs.spaceSummary(space), [])
  }

  /** Assembly keeps keys unique. */
  lemma {:induction false} AssembleUnique(hs: Homeserver, render: Renderer, languageSpace: Id, rooms: seq<SummaryRoom>, es: seq<Entry>)
    requires Assemble(hs, render, languageSpace, rooms, es).Success?
    requires UniqueKeys(es)
    ensures UniqueKeys(Assemble(hs, render, languageSpace, rooms, es).value)
  {
    if |rooms| > 0 {
      var es' := AssembleStep(hs, render, languageSpace, rooms, es);
      if IsBlockRoom(hs, languageSpace, rooms[0]) {
        PutUnique(es, BlockId(rooms[0].name), BlockOf(hs, render, rooms[0]).value);
      }
      AssembleUnique(hs, render, languageSpace, rooms[1..], es');
    }
  }

  /** A successful content request found its language space and returns one
      block per distinct key carried by that space's block rooms, each key once. */
  lemma ContentBlocksSpec(hs: Homeserver, render: Renderer, projectId: Id, language: string)
    requires GetContentBlocks(hs, render, projectId, language).Success?
    ensures language in LanguageSpaces(projectId, hs.spaceSummary(projectId))
    ensures UniqueKeys(GetContentBlocks(hs, render, projectId, language).value)
    ensures var space := LanguageSpaces(projectId, hs.spaceSummary(projectId))[language];
            var rooms := hs.spaceSummary(space);
            forall key :: Lookup(GetContentBlocks(hs, render, projectId, language).value, key).Some? <==>
                          exists i :: 0 <= i < |rooms| && Carries(hs, space, rooms[i], key)
  {
    var space := LanguageSpaces(projectId, hs.spaceSummary(projectId))[language];
    var rooms := hs.spaceSummary(space);
    AssembleUnique(hs, render, space, rooms, []);
    forall key ensures Lookup(GetContentBlocks(hs, render, projectId, language).value, key).Some? <==>
                       exists i :: 0 <= i < |rooms| && Carries(hs, space, rooms[i], key)
    {
      AssembleKeys(hs, render, space, rooms, [], key);
    }
  }

  /** A block room whose block cannot be built: its type is rendered by a
      template, and there is no template for it. */
  predicate Unrenderable(hs: Homeserver, render: Renderer, languageSpace: Id, room: SummaryRoom) {
    && IsBlockRoom(hs, languageSpace, room)
    && var t := BlockType(room.name);
       var msg := hs.lastMessage(room.roomId).value;
       !IsMarkupType(t) && render(t, BlockContent(hs, t, msg), msg).None?
  }

  /** A failed assembly stopped at the first unrenderable block room, with the
      missing template of its type as the error. */
  lemma {:induction false} AssembleFirstFault(hs: Homeserver, render: Renderer, languageSpace: Id, rooms: seq<SummaryRoom>, es: seq<Entry>)
    returns (i: nat)
    requires Assemble(hs, render, languageSpace, rooms, es).Failure?
    ensures i < |rooms| && Unrenderable(hs, render, languageSpace, rooms[i])
    ensures forall j :: 0 <= j < i ==> !Unrenderable(hs, render, languageSpace, rooms[j])
    ensures Assemble(hs, render, languageSpace, rooms, es).error == NoTemplate(BlockType(rooms[i].name))
  {
    var room := rooms[0];
    var rest := rooms[1..];
    if IsBlockRoom(hs, languageSpace, room) && BlockOf(hs, render, room).Failure? {
      i := 0;
    } else {
      var es' := if IsBlockRoom(hs, languageSpace, room) then Put(es, BlockId(room.name), BlockOf(hs, render, room).value) else es;
      assert Assemble(hs, render, languageSpace, rooms, es) == Assemble(hs, render, languageSpace, rest, es');
      var i' := AssembleFirstFault(hs, render, languageSpace, rest, es');
      i := i' + 1;
      assert forall j :: 0 < j < |rooms| ==> rooms[j] == rest[j - 1];
    }
  }

  /** A content request fails exactly when the language has no language space,
      or one of that space's block rooms has a templated type without a
      template; in the second case the error names the type of the first such
      room. */
  lemma ContentRequestFails(hs: Homeserver, render: Renderer, projectId: Id, language: string)
    ensures var languages := LanguageSpaces(projectId, hs.spaceSummary(projectId));
            GetContentBlocks(hs, render, projectId, language).Failure? <==>
              || language !in languages
              || (var rooms := hs.spaceSummary(languages[language]);
                  exists i :: 0 <= i < |rooms| && Unrenderable(hs, render, languages[language], rooms[i]))
    ensures var languages := LanguageSpaces(projectId, hs.spaceSummary(projectId));
            GetContentBlocks(hs, render, projectId, language).Failure? && language in languages ==>
              var rooms := hs.spaceSummary(languages[language]);
              exists i :: && 0 <= i < |rooms| && Unrenderable(hs, render, languages[language], rooms[i])
                          && (forall j :: 0 <= j < i ==> !Unrenderable(hs, render, languages[language], rooms[j]))
                          && GetContentBlocks(hs, render, projectId, language).error == NoTemplate(BlockType(rooms[i].name))
  {
    var languages := LanguageSpaces(projectId, hs.spaceSummary(projectId));
    if language in languages {
      var space := languages[language];
      var rooms := hs.spaceSummary(space);
      AssembleFails(hs, render, space, rooms, []);
      assert forall i :: 0 <= i < |rooms| ==>
               (Unrenderable(hs, render, space, rooms[i]) <==>
                IsBlockRoom(hs, space, rooms[i]) && BlockOf(hs, render, rooms[i]).Failure?);
      if GetContentBlocks(hs, render, projectId, language).Failure? {
        var i := AssembleFirstFault(hs, render, space, rooms, []);
      }
    }
  }

  /** A stored block is that of the last block room carrying its key: typed by
      the room name after the first `_`, holding the resolved media URL for
      `audio` and `image` and the message body otherwise, and as HTML the
      message's `formatted_body` for `text`, `ul` and `ol` and its template's
      output otherwise. */
  lemma ServedBlock(hs: Homeserver, render: Renderer, projectId: Id, language: string, key: string)
    returns (i: nat)
    requires GetContentBlocks(hs, render, projectId, language).Success?
    requires Lookup(GetContentBlocks(hs, render, projectId, language).value, key).Some?
    ensures language in LanguageSpaces(projectId, hs.spaceSummary(projectId))
    ensures var rooms := hs.spaceSummary(LanguageSpaces(projectId, hs.spaceSummary(projectId))[language]);
            var space := LanguageSpaces(projectId, hs.spaceSummary(projectId))[language];
            && i < |rooms| && Carries(hs, space, rooms[i], key)
            && forall j :: i < j < |rooms| ==> !Carries(hs, space, rooms[j], key)
    ensures var rooms := hs.spaceSummary(LanguageSpaces(projectId, hs.spaceSummary(projectId))[language]);
            var msg := hs.lastMessage(rooms[i].roomId).value;
            var t := BlockType(rooms[i].name);
            var b := Lookup(GetContentBlocks(hs, render, projectId, language).value, key).value;
            && b.blockType == t
            && (IsMediaType(t) ==> b.content == hs.mxcToHttp(msg.url))
            && (!IsMediaType(t) ==> b.content == msg.body)
            && (IsMarkupType(t) ==> b.formattedContent == msg.formattedBody)
            && (!IsMarkupType(t) ==> b.formattedContent == render(t, b.content, msg))
  {
    var space := LanguageSpaces(projectId, hs.spaceSummary(projectId))[language];
    var rooms := hs.spaceSummary(space);
    AssembleKeys(hs, render, space, rooms, [], key);
    var i0 :| 0 <= i0 < |rooms| && Carries(hs, space, rooms[i0], key);
    i := LastCarrier(hs, space, rooms, key, i0);
    AssembleLastWins(hs, render, space, rooms, [], key, i);
  }

  /** The index of the first room carrying `key`, or `|rooms|` when none does. */
  function FirstCarrier(hs: Homeserver, languageSpace: Id, rooms: seq<SummaryRoom>, key: string): (r: nat)
    ensures r <= |rooms|
    ensures r < |rooms| ==> Carries(hs, languageSpace, rooms[r], key)
    ensures forall j :: 0 <= j < r ==> !Carries(hs, languageSpace, rooms[j], key)
  {
    if |rooms| == 0 then 0
    else if Carries(hs, languageSpace, rooms[0], key) then 0
    else
      var r := FirstCarrier(hs, languageSpace, rooms[1..], key);
      assert forall j :: 0 < j < |rooms| ==> rooms[j] == rooms[1..][j - 1];
      1 + r
  }

  /** A key is stored exactly when it is among the keys. */
  lemma LookupKeys(es: seq<Entry>, key: string)
    ensures Lookup(es, key).Some? <==> key in Keys(es)
  {
  }

  /** `r` lists the keys of `es` first, in place, and then keys not in `es`,
      ordered by the first room of `rooms` carrying each. */
  ghost predicate ExtendsInOrder(hs: Homeserver, languageSpace: Id, rooms: seq<SummaryRoom>, es: seq<Entry>, r: seq<Entry>) {
    var ks := Keys(r);
    && |es| <= |ks| && ks[..|es|] == Keys(es)
    && (forall p :: |es| <= p < |ks| ==> ks[p] !in Keys(es))
    && (forall p, q :: |es| <= p < q < |ks| ==>
          FirstCarrier(hs, languageSpace, rooms, ks[p]) < FirstCarrier(hs, languageSpace, rooms, ks[q]))
  }

  /** A first room that stores no new key shifts every first carrier of a new key by one. */
  lemma ExtendsKept(hs: Homeserver, languageSpace: Id, rooms: seq<SummaryRoom>, es: seq<Entry>, es': seq<Entry>, r: seq<Entry>)
    requires |rooms| > 0 && Keys(es') == Keys(es)
    requires forall x :: x !in Keys(es) ==> !Carries(hs, languageSpace, rooms[0], x)
    requires ExtendsInOrder(hs, languageSpace, rooms[1..], es', r)
    ensures ExtendsInOrder(hs, languageSpace, rooms, es, r)
  {
  }

  /** A first room that stores a new key puts it right after the keys of `es`,
      ahead of every key first carried later. */
  lemma ExtendsAppended(hs: Homeserver, languageSpace: Id, rooms: seq<SummaryRoom>, es: seq<Entry>, es': seq<Entry>, r: seq<Entry>, k0: string)
    requires |rooms| > 0 && Carries(hs, languageSpace, rooms[0], k0)
    requires k0 !in Keys(es) && Keys(es') == Keys(es) + [k0]
    requires ExtendsInOrder(hs, languageSpace, rooms[1..], es', r)
    ensures ExtendsInOrder(hs, languageSpace, rooms, es, r)
  {
    var ks := Keys(r);
    assert |es'| == |Keys(es')| == |Keys(es)| + 1 == |es| + 1;
    assert ks[..|es|] == ks[..|es'|][..|es|];
    assert ks[|es|] == ks[..|es'|][|es|] == k0;
    assert FirstCarrier(hs, languageSpace, rooms, k0) == 0;
    forall p | |es'| <= p < |ks|
      ensures ks[p] != k0
      ensures FirstCarrier(hs, languageSpace, rooms, ks[p]) == 1 + FirstCarrier(hs, languageSpace, rooms[1..], ks[p])
    {
      assert ks[p] !in Keys(es');
    }
  }

  /** Assembly keeps the keys it starts with in place and appends each key
      stored for the first time, in the order of the first room carrying it. */
  lemma {:induction false} AssembleKeyOrder(hs: Homeserver, render: Renderer, languageSpace: Id, rooms: seq<SummaryRoom>, es: seq<Entry>)
    requires Assemble(hs, render, languageSpace, rooms, es).Success?
    ensures ExtendsInOrder(hs, languageSpace, rooms, es, Assemble(hs, render, languageSpace, rooms, es).value)
  {
    var r := Assemble(hs, render, languageSpace, rooms, es).value;
    if |rooms| == 0 {
      assert Keys(r)[..|es|] == Keys(es);
    } else {
      var es' := AssembleStep(hs, render, languageSpace, rooms, es);
      AssembleKeyOrder(hs, render, languageSpace, rooms[1..], es');
      var room := rooms[0];
      if !IsBlockRoom(hs, languageSpace, room) {
        ExtendsKept(hs, languageSpace, rooms, es, es', r);
      } else {
        var k0 := BlockId(room.name);
        PutKeys(es, k0, BlockOf(hs, render, room).value);
        LookupKeys(es, k0);
        if k0 in Keys(es) {
          ExtendsKept(hs, languageSpace, rooms, es, es', r);
        } else {
          ExtendsAppended(hs, languageSpace, rooms, es, es', r, k0);
        }
      }
    }
  }

  /** A successful content request lists its keys in the order of the first
      block room carrying each of them, and lists exactly the carried keys. */
  lemma ContentBlocksOrder(hs: Homeserver, render: Renderer, projectId: Id, language: string)
    requires GetContentBlocks(hs, render, projectId, language).Success?
    ensures language in LanguageSpaces(projectId, hs.spaceSummary(projectId))
    ensures var space := LanguageSpaces(projectId, hs.spaceSummary(projectId))[language];
            var rooms := hs.spaceSummary(space);
            var ks := Keys(GetContentBlocks(hs, render, projectId, language).value);
            && (forall key :: key in ks <==> exists i :: 0 <= i < |rooms| && Carries(hs, space, rooms[i], key))
            && forall p, q :: 0 <= p < q < |ks| ==>
                 FirstCarrier(hs, space, rooms, ks[p]) < FirstCarrier(hs, space, rooms, ks[q])
  {
    var space := LanguageSpaces(projectId, hs.spaceSummary(projectId))[language];
    var rooms := hs.spaceSummary(space);
    var es := GetContentBlocks(hs, render, projectId, language).value;
    ContentBlocksSpec(hs, render, projectId, language);
    AssembleKeyOrder(hs, render, space, rooms, []);
    forall key ensures key in Keys(es) <==> exists i :: 0 <= i < |rooms| && Carries(hs, space, rooms[i], key) {
      LookupKeys(es, key);
    }
  }

  /** The HTML of one block; an undefined `formatted_body` joins as empty. */
  function Fragment(e: Entry): string {
    e.block.formattedContent.GetOr("")
  }

  /** `Object.keys(blocks).map(... formatted_content).join('')`. */
  function FormattedContent(es: seq<Entry>): string {
    if |es| == 0 then "" else Fragment(es[0]) + FormattedContent(es[1..])
  }

  /** The HTML of a block sequence is the HTML of its parts, in order. */
  lemma {:induction false} FormattedContentAppend(a: seq<Entry>, b: seq<Entry>)
    ensures FormattedContent(a + b) == FormattedContent(a) + FormattedContent(b)
  {
    if |a| == 0 {
      assert a + b == b;
    } else {
      assert (a + b)[1..] == a[1..] + b;
      FormattedContentAppend(a[1..], b);
    }
  }

  /** Each block's HTML sits in the concatenation between the HTML of the
      blocks before it and that of the blocks after it. */
  lemma {:induction false} FormattedContentAt(es: seq<Entry>, i: nat)
    requires i < |es|
    ensures FormattedContent(es) == FormattedContent(es[..i]) + Fragment(es[i]) + FormattedContent(es[i + 1..])
  {
    var front := es[..i];
    var back := [es[i]] + es[i + 1..];
    assert es == front + back;
    FormattedContentAppend(front, back);
    assert back[1..] == es[i + 1..];
  }

  /** The blocks and their concatenated HTML. */
  datatype Content = Content(blocks: seq<Entry>, formattedContent: string)

  function GetContent(hs: Homeserver, render: Renderer, projectId: Id, language: string)
    : (r: Result<Content, ContentError>)
    ensures r.Success? <==> GetContentBlocks(hs, render, projectId, language).Success?
    ensures r.Success? ==> r.value.blocks == GetContentBlocks(hs, render, projectId, language).value
                           && r.value.formattedContent == FormattedContent(r.value.blocks)
  {
    var blocks :- GetContentBlocks(hs, render, projectId, language);
    Success(Content(blocks, FormattedContent(blocks)))
  }

  /** A project as served: the stored record (absent for an unknown id, whose
      spread adds nothing), its English blocks and their HTML. */
  datatype ProjectView = ProjectView(record: Option<Project>, content: seq<Entry>, formattedContent: string)

  function Get(snapshot: map<Id, Project>, hs: Homeserver, render: Renderer, id: Id): (r: Result<ProjectView, ContentError>)
    ensures r.Success? <==> GetContentBlocks(hs, render, id, "en").Success?
    ensures r.Success? ==> (r.value.record.Some? <==> id in snapshot)
    ensures r.Success? && id in snapshot ==> r.value.record == Some(snapshot[id])
    ensures r.Success? ==> r.value.content == GetContentBlocks(hs, render, id, "en").value
    ensures r.Success? ==> r.value.formattedContent == FormattedContent(r.value.content)
  {
    var c :- GetContent(hs, render, id, "en");
    var record := if id in snapshot then Some(snapshot[id]) else None;
    Success(ProjectView(record, c.blocks, c.formattedContent))
  }
}
