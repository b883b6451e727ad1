/**
 The depth-bounded listing of a folder: a queue of folders still to read, over any store, cyclic ones
 included. The order it finds things in is compared with an ordinary walk of the folder tree.
 */
module FolderListing {
  import opened PyText
  import opened Sequences
  import opened Wrappers

  const SLASH: CodePoint := 0x2F

  /** One item of a folder's metadata. */
  datatype Item = Item(url: Text, isFolder: bool, size: Option<nat>)

  /** What the storage service answers for a URL. */
  datatype Metadata = FolderMetadata(items: seq<Item>) | FileMetadata

  /** The storage service: a URL it does not know is an error of the request. */
  type Store = map<Text, Metadata>

  datatype FolderEntry = FolderEntry(url: Text, isFolder: bool, size: Option<nat>)

  datatype Listing = Listed(entries: seq<FolderEntry>) | NotFound(url: Text) | NotAFolder(url: Text)

  function Slashed(url: Text): (r: Text)
    ensures r != [] && r[|r| - 1] == SLASH
    ensures url <= r && |r| <= |url| + 1
    ensures url != [] && url[|url| - 1] == SLASH ==> r == url
  {
    if url != [] && url[|url| - 1] == SLASH then url else url + [SLASH]
  }

  function EntryOf(item: Item): (r: FolderEntry)
    ensures item.url <= r.url && |r.url| <= |item.url| + 1
    ensures if item.isFolder then r.isFolder && r.url != [] && r.url[|r.url| - 1] == SLASH else !r.isFolder && r.url == item.url
    ensures r.size == item.size
  {
    FolderEntry(if item.isFolder then Slashed(item.url) else item.url, item.isFolder, item.size)
  }

  function Entries(items: seq<Item>): (r: seq<FolderEntry>)
    ensures |r| == |items|
    ensures forall i :: 0 <= i < |items| ==> r[i] == EntryOf(items[i])
  {
    seq(|items|, i requires 0 <= i < |items| => EntryOf(items[i]))
  }

  /** The URLs of the folders among some entries. */
  function Folders(entries: seq<FolderEntry>): seq<Text> {
    if entries == [] then []
    else (if entries[0].isFolder then [entries[0].url] else []) + Folders(entries[1..])
  }

  function Follow(entries: seq<FolderEntry>, rest: Listing): Listing {
    if rest.Listed? then Listed(entries + rest.entries) else rest
  }

  /** The entries of some folders, read one after the other. */
  function Level(store: Store, folders: seq<Text>): Listing {
    if folders == [] then Listed([])
    else if folders[0] !in store then NotFound(folders[0])
    else if store[folders[0]].FileMetadata? then NotAFolder(folders[0])
    else Follow(Entries(store[folders[0]].items), Level(store, folders[1..]))
  }

  /** The listing level by level, the folders given standing at depth `depth`. */
  function Levels(store: Store, folders: seq<Text>, depth: int, maxDepth: int): Listing
    decreases maxDepth - depth
  {
    var level := Level(store, folders);
    if level.Listed? && depth < maxDepth then
      Follow(level.entries, Levels(store, Folders(level.entries), depth + 1, maxDepth))
    else level
  }

  lemma {:induction false} FoldersConcat(a: seq<FolderEntry>, b: seq<FolderEntry>)
    ensures Folders(a + b) == Folders(a) + Folders(b)
    decreases a
  {
    if a == [] {
      assert a + b == b;
    } else {
      assert (a + b)[1..] == a[1..] + b;
      FoldersConcat(a[1..], b);
    }
  }

  lemma {:induction false} LevelFails(store: Store, folders: seq<Text>)
    ensures var r := Level(store, folders);
      && (r.NotFound? ==> r.url in folders && r.url !in store)
      && (r.NotAFolder? ==> r.url in folders && r.url in store && store[r.url].FileMetadata?)
      && (r.Listed? <==> forall f :: f in folders ==> f in store && store[f].FolderMetadata?)
    decreases folders
  {
    if folders != [] { LevelFails(store, folders[1..]); }
  }

  /** A failure names a URL the store really has no folder under; the folder asked for is always read. */
  lemma {:induction false} FailureNamesTheCulprit(store: Store, folders: seq<Text>, depth: int, maxDepth: int)
    ensures var r := Levels(store, folders, depth, maxDepth);
      && (r.NotFound? ==> r.url !in store)
      && (r.NotAFolder? ==> r.url in store && store[r.url].FileMetadata?)
      && (r.Listed? ==> forall f :: f in folders ==> f in store && store[f].FolderMetadata?)
    decreases maxDepth - depth
  {
    LevelFails(store, folders);
    var level := Level(store, folders);
    if level.Listed? && depth < maxDepth {
      FailureNamesTheCulprit(store, Folders(level.entries), depth + 1, maxDepth);
    }
  }

  // --- the queue ----------------------------------------------------------

  /** The elements, with one depth for all of them. */
  function WithDepth<T>(s: seq<T>, depth: int): (r: seq<(T, int)>)
    ensures |r| == |s|
    ensures forall i :: 0 <= i < |s| ==> r[i] == (s[i], depth)
  {
    seq(|s|, i requires 0 <= i < |s| => (s[i], depth))
  }

  /** What is still to come when `here` is left to read at `depth` and `below` was found there already. */
  function Remaining(store: Store, here: seq<Text>, below: seq<FolderEntry>, depth: int, maxDepth: int): Listing {
    var level := Level(store, here);
    if level.Listed? && depth < maxDepth then
      Follow(level.entries, Levels(store, Folders(below + level.entries), depth + 1, maxDepth))
    else level
  }

  lemma FollowTwice(a: seq<FolderEntry>, b: seq<FolderEntry>, rest: Listing)
    ensures Follow(a, Follow(b, rest)) == Follow(a + b, rest)
    ensures Follow([], rest) == rest
  {
    if rest.Listed? {
      assert a + (b + rest.entries) == a + b + rest.entries;
      assert [] + rest.entries == rest.entries;
    }
  }

  /** Reading the first folder of a level moves its entries from what is to come to what was found. */
  lemma RemainingStep(store: Store, here: seq<Text>, below: seq<FolderEntry>, depth: int, maxDepth: int)
    requires here != [] && here[0] in store && store[here[0]].FolderMetadata?
    ensures var read := Entries(store[here[0]].items);
      Remaining(store, here, below, depth, maxDepth)
      == Follow(read, Remaining(store, here[1..], below + read, depth, maxDepth))
  {
    var read := Entries(store[here[0]].items);
    var rest := Level(store, here[1..]);
    if rest.Listed? {
      assert below + (read + rest.entries) == below + read + rest.entries;
      FollowTwice(read, rest.entries, Levels(store, Folders(below + read + rest.entries), depth + 1, maxDepth));
    }
  }

  /** A level read to its end passes on to the next one. */
  lemma RemainingShift(store: Store, below: seq<FolderEntry>, depth: int, maxDepth: int)
    requires depth < maxDepth
    ensures Remaining(store, [], below, depth, maxDepth) == Remaining(store, Folders(below), [], depth + 1, maxDepth)
  {
    var level := Level(store, Folders(below));
    assert below + [] == below;
    FollowTwice([], [], Levels(store, Folders(below), depth + 1, maxDepth));
    if level.Listed? {
      assert [] + level.entries == level.entries;
    }
  }

  lemma {:induction false} NothingToRead(store: Store, depth: int, maxDepth: int)
    ensures Levels(store, [], depth, maxDepth) == Listed([])
    decreases maxDepth - depth
  {
    if depth < maxDepth { NothingToRead(store, depth + 1, maxDepth); }
  }

  lemma QueuedSnoc(urls: seq<Text>, url: Text, depth: int)
    ensures WithDepth(urls + [url], depth) == WithDepth(urls, depth) + [(url, depth)]
  {
  }

  lemma QueuedFirst(here: seq<Text>, found: seq<Text>, depth: int)
    requires here != []
    ensures (WithDepth(here, depth) + WithDepth(found, depth + 1))[1..] == WithDepth(here[1..], depth) + WithDepth(found, depth + 1)
  {
  }

  /** The folders waiting behind a level: none are kept at the depth bound. */
  function Waiting(below: seq<FolderEntry>, depth: int, maxDepth: int): seq<Text> {
    if depth < maxDepth then Folders(below) else []
  }

  lemma ItemListed(items: seq<Item>, i: int, depth: int)
    requires 0 <= i < |items|
    ensures Entries(items[..i + 1]) == Entries(items[..i]) + [EntryOf(items[i])]
    ensures WithDepth(Folders(Entries(items[..i + 1])), depth) == WithDepth(Folders(Entries(items[..i])), depth)
          + if items[i].isFolder then [(Slashed(items[i].url), depth)] else []
  {
    var before, entry := Entries(items[..i]), EntryOf(items[i]);
    assert Entries(items[..i + 1]) == before + [entry];
    FoldersConcat(before, [entry]);
    assert Folders([entry]) == if entry.isFolder then [entry.url] else [];
    QueuedSnoc(Folders(before), entry.url, depth);
    if !entry.isFolder { assert Folders(before) + [] == Folders(before); }
  }

  /** The entries of one folder, appended to the results and, within the bound, to the queue. */
  method ListItems(items: seq<Item>, depth: int, maxDepth: int, results: seq<FolderEntry>, queue: seq<(Text, int)>)
    returns (newResults: seq<FolderEntry>, newQueue: seq<(Text, int)>)
    ensures newResults == results + Entries(items)
    ensures newQueue == queue + WithDepth(Waiting(Entries(items), depth, maxDepth), depth + 1)
  {
    newResults, newQueue := results, queue;
    assert Folders([]) == [];
    hide Folders, Slashed;
    for i := 0 to |items|
      invariant newResults == results + Entries(items[..i])
      invariant newQueue == queue + WithDepth(Waiting(Entries(items[..i]), depth, maxDepth), depth + 1)
    {
      var itemUrl := items[i].url;
      if items[i].isFolder { itemUrl := Slashed(itemUrl); }
      var entry := FolderEntry(itemUrl, items[i].isFolder, items[i].size);
      newResults := newResults + [entry];
      if items[i].isFolder && depth < maxDepth {
        newQueue := newQueue + [(itemUrl, depth + 1)];
      }
      ItemListed(items, i, depth + 1);
    }
    assert items[..|items|] == items;
  }

  lemma RemainingAtStart(store: Store, folderUrl: Text, maxDepth: int)
    ensures Levels(store, [folderUrl], 1, maxDepth)
         == Follow([], Remaining(store, [folderUrl], [], 1, maxDepth))
  {
    hide Level, Folders;
    var level := Level(store, [folderUrl]);
    if level.Listed? { assert [] + level.entries == level.entries; }
    FollowTwice([], [], Remaining(store, [folderUrl], [], 1, maxDepth));
  }

  lemma RemainingAtEnd(store: Store, below: seq<FolderEntry>, depth: int, maxDepth: int)
    requires depth < maxDepth ==> Folders(below) == []
    ensures Remaining(store, [], below, depth, maxDepth) == Listed([])
  {
    assert below + [] == below;
    if depth < maxDepth { NothingToRead(store, depth + 1, maxDepth); }
  }

  lemma RemainingFails(store: Store, here: seq<Text>, below: seq<FolderEntry>, depth: int, maxDepth: int)
    requires here != []
    ensures here[0] !in store ==> Remaining(store, here, below, depth, maxDepth) == NotFound(here[0])
    ensures here[0] in store && store[here[0]].FileMetadata? ==>
      Remaining(store, here, below, depth, maxDepth) == NotAFolder(here[0])
  {
  }

  /** The queue: what is left of the level being read, then the folders found for the next one. */
  predicate QueueIs(queue: seq<(Text, int)>, here: seq<Text>, below: seq<FolderEntry>, depth: int, maxDepth: int) {
    queue == WithDepth(here, depth) + WithDepth(Waiting(below, depth, maxDepth), depth + 1)
  }

  lemma QueueShifts(queue: seq<(Text, int)>, below: seq<FolderEntry>, depth: int, maxDepth: int)
    requires QueueIs(queue, [], below, depth, maxDepth) && queue != []
    ensures depth < maxDepth && QueueIs(queue, Folders(below), [], depth + 1, maxDepth)
  {
    assert Waiting([], depth + 1, maxDepth) == [];
    assert queue == WithDepth(Folders(below), depth + 1) + [];
  }

  lemma QueueStep(here: seq<Text>, below: seq<FolderEntry>, read: seq<FolderEntry>, depth: int, maxDepth: int)
    requires here != []
    ensures var queue := WithDepth(here, depth) + WithDepth(Waiting(below, depth, maxDepth), depth + 1);
      queue[1..] + WithDepth(Waiting(read, depth, maxDepth), depth + 1)
      == WithDepth(here[1..], depth) + WithDepth(Waiting(below + read, depth, maxDepth), depth + 1)
  {
    FoldersConcat(below, read);
    var a, b, c := Waiting(below, depth, maxDepth), Waiting(read, depth, maxDepth),
                   Waiting(below + read, depth, maxDepth);
    assert c == a + b;
    hide Waiting, Folders;
    QueuedConcat(a, b, depth + 1);
    QueuedFirst(here, a, depth);
    Associative(WithDepth(here[1..], depth), WithDepth(a, depth + 1), WithDepth(b, depth + 1));
  }

  lemma QueuedConcat(a: seq<Text>, b: seq<Text>, depth: int)
    ensures WithDepth(a + b, depth) == WithDepth(a, depth) + WithDepth(b, depth)
  {
  }

  lemma QueueEnds(here: seq<Text>, below: seq<FolderEntry>, depth: int, maxDepth: int)
    requires QueueIs([], here, below, depth, maxDepth)
    ensures here == [] && (depth < maxDepth ==> Folders(below) == [])
  {
    hide Folders;
    assert |WithDepth(here, depth) + WithDepth(Waiting(below, depth, maxDepth), depth + 1)| == 0;
    assert |here| == 0;
  }

  /** The queue and the results so far, with what they still lead to. */
  predicate Underway(store: Store, total: Listing, results: seq<FolderEntry>, queue: seq<(Text, int)>,
                     here: seq<Text>, below: seq<FolderEntry>, depth: int, maxDepth: int) {
    && QueueIs(queue, here, below, depth, maxDepth)
    && total == Follow(results, Remaining(store, here, below, depth, maxDepth))
  }

  lemma Shift(store: Store, total: Listing, results: seq<FolderEntry>, queue: seq<(Text, int)>,
              below: seq<FolderEntry>, depth: int, maxDepth: int)
    requires Underway(store, total, results, queue, [], below, depth, maxDepth) && queue != []
    ensures depth < maxDepth && Folders(below) != []
    ensures Underway(store, total, results, queue, Folders(below), [], depth + 1, maxDepth)
  {
    QueueShifts(queue, below, depth, maxDepth);
    RemainingShift(store, below, depth, maxDepth);
  }

  lemma Step(store: Store, total: Listing, results: seq<FolderEntry>, queue: seq<(Text, int)>,
             here: seq<Text>, below: seq<FolderEntry>, read: seq<FolderEntry>, depth: int, maxDepth: int)
    requires Underway(store, total, results, queue, here, below, depth, maxDepth) && here != []
    requires here[0] in store && store[here[0]].FolderMetadata? && read == Entries(store[here[0]].items)
    requires queue != []
    ensures Underway(store, total, results + read, queue[1..] + WithDepth(Waiting(read, depth, maxDepth), depth + 1),
                     here[1..], below + read, depth, maxDepth)
  {
    hide Remaining, Waiting;
    QueueStep(here, below, read, depth, maxDepth);
    RemainingStep(store, here, below, depth, maxDepth);
    FollowTwice(results, read, Remaining(store, here[1..], below + read, depth, maxDepth));
  }

  lemma Front(queue: seq<(Text, int)>, here: seq<Text>, below: seq<FolderEntry>, depth: int, maxDepth: int)
    requires QueueIs(queue, here, below, depth, maxDepth) && here != []
    ensures queue != [] && queue[0] == (here[0], depth)
  {
  }

  lemma Failure(store: Store, total: Listing, results: seq<FolderEntry>, queue: seq<(Text, int)>,
                here: seq<Text>, below: seq<FolderEntry>, depth: int, maxDepth: int)
    requires Underway(store, total, results, queue, here, below, depth, maxDepth) && here != []
    ensures queue != [] && queue[0] == (here[0], depth)
    ensures here[0] !in store ==> total == NotFound(here[0])
    ensures here[0] in store && store[here[0]].FileMetadata? ==> total == NotAFolder(here[0])
  {
    hide Remaining;
    Front(queue, here, below, depth, maxDepth);
    RemainingFails(store, here, below, depth, maxDepth);
  }

  lemma Starting(store: Store, folderUrl: Text, maxDepth: int)
    ensures Underway(store, Levels(store, [folderUrl], 1, maxDepth), [], [(folderUrl, 1)], [folderUrl], [], 1, maxDepth)
  {
    RemainingAtStart(store, folderUrl, maxDepth);
    assert Waiting([], 1, maxDepth) == [];
  }

  lemma Ending(store: Store, total: Listing, results: seq<FolderEntry>, here: seq<Text>, below: seq<FolderEntry>,
               depth: int, maxDepth: int)
    requires Underway(store, total, results, [], here, below, depth, maxDepth)
    ensures total == Listed(results)
  {
    QueueEnds(here, below, depth, maxDepth);
    RemainingAtEnd(store, below, depth, maxDepth);
  }

  /**
   `list_folder`. It ends on every store and every depth bound: the queue holds folders of at most two
   neighbouring depths, so either the depth grows towards the bound or the shallower part shrinks.
   */
  method ListFolder(store: Store, folderUrl: Text, maxDepth: int) returns (r: Listing)
    ensures r == Levels(store, [folderUrl], 1, maxDepth)
  {
    var results: seq<FolderEntry> := [];
    var queue := [(folderUrl, 1)];
    ghost var depth, here: seq<Text>, below: seq<FolderEntry> := 1, [folderUrl], [];
    ghost var total := Levels(store, [folderUrl], 1, maxDepth);
    hide *;
    Starting(store, folderUrl, maxDepth);
    while queue != []
      invariant depth <= (if maxDepth < 1 then 1 else maxDepth)
      invariant Underway(store, total, results, queue, here, below, depth, maxDepth)
      decreases maxDepth - depth, |here|
    {
      if here == [] {
        Shift(store, total, results, queue, below, depth, maxDepth);
        depth, here, below := depth + 1, Folders(below), [];
      }
      Failure(store, total, results, queue, here, below, depth, maxDepth);
      var (currentUrl, currentDepth) := queue[0];
      if currentUrl !in store { return NotFound(currentUrl); }
      if store[currentUrl].FileMetadata? { return NotAFolder(currentUrl); }
      ghost var read := Entries(store[currentUrl].items);
      Step(store, total, results, queue, here, below, read, depth, maxDepth);
      queue := queue[1..];
      results, queue := ListItems(store[currentUrl].items, currentDepth, maxDepth, results, queue);
      here, below := here[1..], below + read;
    }
    Ending(store, total, results, here, below, depth, maxDepth);
    r := Listed(results);
  }

  // --- the folder tree ----------------------------------------------------

  /** A stored file or folder, with everything below it. */
  datatype Node = Node(item: Item, kids: seq<Node>)

  function Items(nodes: seq<Node>): (r: seq<Item>)
    ensures |r| == |nodes|
    ensures forall i :: 0 <= i < |nodes| ==> r[i] == nodes[i].item
  {
    seq(|nodes|, i requires 0 <= i < |nodes| => nodes[i].item)
  }

  /** The store answers as the tree below these nodes says. */
  predicate Holds(store: Store, nodes: seq<Node>) {
    nodes != [] ==>
      && (if nodes[0].item.isFolder then
            Slashed(nodes[0].item.url) in store
            && store[Slashed(nodes[0].item.url)] == FolderMetadata(Items(nodes[0].kids))
          else nodes[0].kids == [])
      && Holds(store, nodes[0].kids)
      && Holds(store, nodes[1..])
  }

  /** An ordinary walk of the tree, each node with its depth: a node, what is below it, then its siblings. */
  function Walk(nodes: seq<Node>, depth: int, maxDepth: int): seq<(Node, int)>
    decreases maxDepth - depth, |nodes|
  {
    if nodes == [] || depth > maxDepth then []
    else [(nodes[0], depth)] + Walk(nodes[0].kids, depth + 1, maxDepth) + Walk(nodes[1..], depth, maxDepth)
  }

  function KidsOf(nodes: seq<Node>): seq<Node> {
    if nodes == [] then [] else nodes[0].kids + KidsOf(nodes[1..])
  }

  /** The same nodes depth by depth. */
  function ByDepth(nodes: seq<Node>, depth: int, maxDepth: int): seq<(Node, int)>
    decreases maxDepth - depth
  {
    if depth > maxDepth then [] else WithDepth(nodes, depth) + ByDepth(KidsOf(nodes), depth + 1, maxDepth)
  }

  function Shown(found: seq<(Node, int)>): (r: seq<FolderEntry>)
    ensures |r| == |found|
    ensures forall i :: 0 <= i < |found| ==> r[i] == EntryOf(found[i].0.item)
  {
    seq(|found|, i requires 0 <= i < |found| => EntryOf(found[i].0.item))
  }

  lemma {:induction false} KidsConcat(a: seq<Node>, b: seq<Node>)
    ensures KidsOf(a + b) == KidsOf(a) + KidsOf(b)
    decreases a
  {
    if a == [] {
      assert a + b == b;
    } else {
      assert (a + b)[1..] == a[1..] + b;
      KidsConcat(a[1..], b);
    }
  }

  lemma {:induction false} ByDepthConcat(a: seq<Node>, b: seq<Node>, depth: int, maxDepth: int)
    ensures multiset(ByDepth(a + b, depth, maxDepth))
         == multiset(ByDepth(a, depth, maxDepth)) + multiset(ByDepth(b, depth, maxDepth))
    decreases maxDepth - depth
  {
    if depth <= maxDepth {
      KidsConcat(a, b);
      ByDepthConcat(KidsOf(a), KidsOf(b), depth + 1, maxDepth);
      assert WithDepth(a + b, depth) == WithDepth(a, depth) + WithDepth(b, depth);
    }
  }

  /** One node on its own: itself, then what is below it depth by depth. */
  lemma ByDepthOfOne(node: Node, depth: int, maxDepth: int)
    requires depth <= maxDepth
    ensures ByDepth([node], depth, maxDepth) == [(node, depth)] + ByDepth(node.kids, depth + 1, maxDepth)
  {
    assert KidsOf([node]) == node.kids;
    assert WithDepth([node], depth) == [(node, depth)];
  }

  lemma MultisetOfParts<T>(x: T, a: seq<T>, b: seq<T>)
    ensures multiset([x] + a + b) == multiset([x]) + multiset(a) + multiset(b)
    ensures multiset([x] + a) == multiset([x]) + multiset(a)
  {
  }

  /** Depth by depth or folder by folder, the same nodes are met, each as often. */
  lemma {:induction false} ByDepthIsWalk(nodes: seq<Node>, depth: int, maxDepth: int)
    ensures multiset(ByDepth(nodes, depth, maxDepth)) == multiset(Walk(nodes, depth, maxDepth))
    decreases maxDepth - depth, |nodes|
  {
    if depth <= maxDepth {
      if nodes == [] {
        ByDepthIsWalk([], depth + 1, maxDepth);
      } else {
        var node, rest := nodes[0], nodes[1..];
        assert nodes == [node] + rest;
        ByDepthIsWalk(rest, depth, maxDepth);
        ByDepthIsWalk(node.kids, depth + 1, maxDepth);
        MultisetOfParts((node, depth), Walk(node.kids, depth + 1, maxDepth), Walk(rest, depth, maxDepth));
        hide ByDepth, KidsOf;
        ByDepthConcat([node], rest, depth, maxDepth);
        ByDepthOfOne(node, depth, maxDepth);
        MultisetOfParts((node, depth), ByDepth(node.kids, depth + 1, maxDepth), []);
      }
    }
  }

  predicate InOrder(found: seq<(Node, int)>, depth: int) {
    && (forall i :: 0 <= i < |found| ==> depth <= found[i].1)
    && (forall i, j :: 0 <= i < j < |found| ==> found[i].1 <= found[j].1)
  }

  lemma InOrderConcat(nodes: seq<Node>, depth: int, rest: seq<(Node, int)>)
    requires InOrder(rest, depth + 1)
    ensures InOrder(WithDepth(nodes, depth) + rest, depth)
  {
  }

  lemma {:induction false} ByDepthIsSorted(nodes: seq<Node>, depth: int, maxDepth: int)
    ensures InOrder(ByDepth(nodes, depth, maxDepth), depth)
    decreases maxDepth - depth
  {
    if depth <= maxDepth {
      ByDepthIsSorted(KidsOf(nodes), depth + 1, maxDepth);
      InOrderConcat(nodes, depth, ByDepth(KidsOf(nodes), depth + 1, maxDepth));
    }
  }

  lemma {:induction false} HoldsConcat(store: Store, a: seq<Node>, b: seq<Node>)
    requires Holds(store, a) && Holds(store, b)
    ensures Holds(store, a + b)
    decreases a
  {
    if a == [] {
      assert a + b == b;
    } else {
      assert (a + b)[1..] == a[1..] + b;
      HoldsConcat(store, a[1..], b);
    }
  }

  lemma {:induction false} KidsHold(store: Store, nodes: seq<Node>)
    requires Holds(store, nodes)
    ensures Holds(store, KidsOf(nodes))
    decreases nodes
  {
    if nodes != [] {
      KidsHold(store, nodes[1..]);
      HoldsConcat(store, nodes[0].kids, KidsOf(nodes[1..]));
    }
  }

  lemma EntriesConcat(a: seq<Node>, b: seq<Node>)
    ensures Entries(Items(a + b)) == Entries(Items(a)) + Entries(Items(b))
  {
  }

  lemma FirstFolder(nodes: seq<Node>)
    requires nodes != []
    ensures Folders(Entries(Items(nodes)))
         == (if nodes[0].item.isFolder then [Slashed(nodes[0].item.url)] else []) + Folders(Entries(Items(nodes[1..])))
  {
    assert Entries(Items(nodes))[1..] == Entries(Items(nodes[1..]));
  }

  /** Reading the folders of one depth gives the nodes of the next. */
  lemma {:induction false} LevelIsKids(store: Store, nodes: seq<Node>)
    requires Holds(store, nodes)
    ensures Level(store, Folders(Entries(Items(nodes)))) == Listed(Entries(Items(KidsOf(nodes))))
    decreases nodes
  {
    if nodes != [] {
      FirstFolder(nodes);
      LevelIsKids(store, nodes[1..]);
      hide Folders, Slashed;
      var rest := Folders(Entries(Items(nodes[1..])));
      EntriesConcat(nodes[0].kids, KidsOf(nodes[1..]));
      if nodes[0].item.isFolder {
        assert ([Slashed(nodes[0].item.url)] + rest)[1..] == rest;
      } else {
        assert [] + rest == rest && [] + KidsOf(nodes[1..]) == KidsOf(nodes[1..]);
      }
    }
  }

  lemma ShownTagged(nodes: seq<Node>, depth: int, rest: seq<(Node, int)>)
    ensures Shown(WithDepth(nodes, depth) + rest) == Entries(Items(nodes)) + Shown(rest)
  {
  }

  lemma {:induction false} LevelsOfTree(store: Store, nodes: seq<Node>, depth: int, maxDepth: int)
    requires Holds(store, nodes) && depth <= maxDepth
    ensures Levels(store, Folders(Entries(Items(nodes))), depth, maxDepth)
         == Listed(Shown(ByDepth(KidsOf(nodes), depth, maxDepth)))
    decreases maxDepth - depth
  {
    var kids := KidsOf(nodes);
    LevelIsKids(store, nodes);
    if depth < maxDepth {
      KidsHold(store, nodes);
      LevelsOfTree(store, kids, depth + 1, maxDepth);
    }
    hide Level, Folders, KidsOf, Holds;
    var rest := ByDepth(KidsOf(kids), depth + 1, maxDepth);
    ShownTagged(kids, depth, rest);
    if depth == maxDepth {
      assert rest == [] && Shown(rest) == [];
    }
  }

  /**
   A folder tree is listed completely: the entries are those of the nodes at depth one to the bound that an
   ordinary walk meets, each once, shallower ones first; every folder's URL ends in a slash. A bound below
   one still lists the folder's own items.
   */
  lemma ListingOfTree(store: Store, root: Node, maxDepth: int) returns (found: seq<(Node, int)>)
    requires root.item.isFolder && Slashed(root.item.url) == root.item.url && Holds(store, [root])
    ensures Levels(store, [root.item.url], 1, maxDepth) == Listed(Shown(found))
    ensures multiset(found) == multiset(Walk(root.kids, 1, if maxDepth < 1 then 1 else maxDepth))
    ensures InOrder(found, 1)
    ensures forall e :: e in Shown(found) && e.isFolder ==> e.url != [] && e.url[|e.url| - 1] == SLASH
  {
    var bound := if maxDepth < 1 then 1 else maxDepth;
    found := ByDepth(root.kids, 1, bound);
    assert KidsOf([root]) == root.kids;
    assert Folders(Entries(Items([root]))) == [root.item.url];
    LevelsOfTree(store, [root], 1, bound);
    ByDepthIsWalk(root.kids, 1, bound);
    ByDepthIsSorted(root.kids, 1, bound);
  }

  /** No two of the nodes are shown under the same URL. */
  predicate DistinctUrls(found: seq<(Node, int)>) {
    forall i, j :: 0 <= i < j < |found| ==> EntryOf(found[i].0.item).url != EntryOf(found[j].0.item).url
  }

  /** No URL is listed twice when the tree has none twice. */
  lemma NothingTwice(store: Store, root: Node, maxDepth: int)
    requires root.item.isFolder && Slashed(root.item.url) == root.item.url && Holds(store, [root])
    requires DistinctUrls(Walk(root.kids, 1, if maxDepth < 1 then 1 else maxDepth))
    ensures var r := Levels(store, [root.item.url], 1, maxDepth);
      r.Listed? && forall i, j :: 0 <= i < j < |r.entries| ==> r.entries[i].url != r.entries[j].url
  {
    var found := ListingOfTree(store, root, maxDepth);
    DistinctInAnyOrder(Walk(root.kids, 1, if maxDepth < 1 then 1 else maxDepth), found);
  }

  lemma DistinctInAnyOrder(a: seq<(Node, int)>, b: seq<(Node, int)>)
    requires DistinctUrls(a) && multiset(a) == multiset(b)
    ensures DistinctUrls(b)
  {
    forall i, j | 0 <= i < j < |b| ensures EntryOf(b[i].0.item).url != EntryOf(b[j].0.item).url {
      assert b[i] in multiset(b) && b[j] in multiset(b);
      var m :| 0 <= m < |a| && a[m] == b[i];
      if b[i] == b[j] {
        TwiceIn(b, i, j);
        OnceIn(a, m);
      } else {
        var n :| 0 <= n < |a| && a[n] == b[j];
      }
    }
  }

  lemma TwiceIn<T>(s: seq<T>, i: int, j: int)
    requires 0 <= i < j < |s| && s[i] == s[j]
    ensures multiset(s)[s[i]] >= 2
  {
    assert s == s[..j] + [s[j]] + s[j + 1..];
    assert s[i] in s[..j];
  }

  lemma OnceIn(s: seq<(Node, int)>, m: int)
    requires 0 <= m < |s| && DistinctUrls(s)
    ensures multiset(s)[s[m]] == 1
  {
    assert s == s[..m] + [s[m]] + s[m + 1..];
    assert s[m] !in s[..m] && s[m] !in s[m + 1..];
  }
}
