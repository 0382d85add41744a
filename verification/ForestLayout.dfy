// Grouping and laying out the forest (rices/barcarolle/widgets/Buddy.js, `groupOf` and `build`).
module ForestLayout {
  import opened Common
  import opened Forest

  // ----- Groups -----

  datatype Key = Workspace(n: int) | Elsewhere

  /** A root's group: its workspace, when it has a window there. */
  function KeyOf(list: seq<Session>, root: nat): Key
    requires root < |list|
  {
    if list[root].window != "" && list[root].workspace.Some? then Workspace(list[root].workspace.value) else Elsewhere
  }

  /** A session on a cycle that the chain of parents comes to has this group. */
  ghost predicate IsKeyOnCycle(list: seq<Session>, i: nat, key: Key)
    requires i < |list|
  {
    exists steps: nat ::
      && Up(list, i, steps).Some? && OnACycle(list, Up(list, i, steps).value)
      && key == KeyOf(list, Up(list, i, steps).value)
  }

  /** `groupOf`: its root's group, or that of a session on the cycle its chain meets. */
  method GroupOf(list: seq<Session>, i: nat) returns (key: Key)
    requires i < |list|
    ensures Rooted(list, i) ==> key == KeyOf(list, Path(list, i)[0])
    ensures !Rooted(list, i) ==> IsKeyOnCycle(list, i, key)
  {
    var root := RootIn(list, i);
    key := KeyOf(list, root);
  }

  /** Workspaces by number, and everything else last. */
  predicate KeyBefore(a: Key, b: Key) {
    match (a, b)
    case (Workspace(m), Workspace(n)) => m < n
    case (Workspace(_), Elsewhere) => true
    case (Elsewhere, _) => false
  }

  function InsertKey(keys: seq<Key>, key: Key): (r: seq<Key>)
    ensures forall k :: k in r <==> k in keys || k == key
  {
    if keys == [] || KeyBefore(key, keys[0]) then [key] + keys
    else if keys[0] == key then keys
    else [keys[0]] + InsertKey(keys[1..], key)
  }

  predicate KeysInOrder(keys: seq<Key>) {
    forall a, b :: 0 <= a < b < |keys| ==> KeyBefore(keys[a], keys[b])
  }

  lemma {:induction false} InsertKeyKeepsOrder(keys: seq<Key>, key: Key)
    requires KeysInOrder(keys)
    ensures KeysInOrder(InsertKey(keys, key))
  {
    if keys != [] && !KeyBefore(key, keys[0]) && keys[0] != key {
      InsertKeyKeepsOrder(keys[1..], key);
      var rest := InsertKey(keys[1..], key);
      forall b | 0 <= b < |rest| ensures KeyBefore(keys[0], rest[b]) {
        assert rest[b] in rest;
        if rest[b] in keys[1..] {
          var c :| 0 <= c < |keys[1..]| && keys[1..][c] == rest[b];
          assert keys[c + 1] == rest[b];
        }
      }
    }
  }

  /** The roots of a group, as they came. */
  function RootsOf(list: seq<Session>, roots: seq<nat>, key: Key): (r: seq<nat>)
    requires Within(list, roots)
    ensures Within(list, r) && forall x :: x in r <==> x in roots && KeyOf(list, x) == key
  {
    if roots == [] then []
    else
      var last, rest := roots[|roots| - 1], RootsOf(list, roots[..|roots| - 1], key);
      assert roots == roots[..|roots| - 1] + [last];
      if KeyOf(list, last) == key then rest + [last] else rest
  }

  lemma {:induction false} RootsOfDiffer(list: seq<Session>, roots: seq<nat>, key: Key)
    requires Within(list, roots) && Different(roots)
    ensures Different(RootsOf(list, roots, key))
  {
    if roots != [] {
      RootsOfDiffer(list, roots[..|roots| - 1], key);
    }
  }

  function KeysOf(list: seq<Session>, roots: seq<nat>): (r: seq<Key>)
    requires Within(list, roots)
    ensures forall k :: k in r <==> exists x :: x in roots && KeyOf(list, x) == k
  {
    if roots == [] then []
    else
      assert roots == roots[..|roots| - 1] + [roots[|roots| - 1]];
      InsertKey(KeysOf(list, roots[..|roots| - 1]), KeyOf(list, roots[|roots| - 1]))
  }

  lemma {:induction false} KeysOfInOrder(list: seq<Session>, roots: seq<nat>)
    requires Within(list, roots)
    ensures KeysInOrder(KeysOf(list, roots))
  {
    if roots != [] {
      KeysOfInOrder(list, roots[..|roots| - 1]);
      InsertKeyKeepsOrder(KeysOf(list, roots[..|roots| - 1]), KeyOf(list, roots[|roots| - 1]));
    }
  }

  /** A group as it is drawn. */
  datatype Group = Group(key: Key, items: seq<Item>, collapsed: bool)

  function GroupFor(list: seq<Session>, roots: seq<nat>, key: Key, collapsed: set<Key>): Group
    requires Within(list, roots)
  {
    Group(key, FlattenAll(list, Sorted(list, RootsOf(list, roots, key)), false, {}).items, key in collapsed)
  }

  function GroupsOf(list: seq<Session>, collapsed: set<Key>): (groups: seq<Group>)
  {
    var roots := Under(list, None, |list|);
    var keys := KeysOf(list, roots);
    seq(|keys|, g requires 0 <= g < |keys| => GroupFor(list, roots, keys[g], collapsed))
  }

  // ----- Building the groups -----

  /** The children each session has been found to have. */
  ghost predicate KidsSoFar(list: seq<Session>, kids: map<string, seq<nat>>, roots: seq<nat>, n: nat)
    requires n <= |list|
  {
    && roots == Under(list, None, n)
    && forall p: nat :: p < |list| ==>
         KidsAt(kids, list[p].id) == Under(list, Some(p), n)
  }

  function Added(kids: map<string, seq<nat>>, id: string, i: nat): map<string, seq<nat>> {
    kids[id := KidsAt(kids, id) + [i]]
  }

  lemma UnderMore(list: seq<Session>, parent: Option<nat>, n: nat)
    requires n < |list|
    ensures Under(list, parent, n + 1) ==
            if ParentOf(list, n) == parent then Under(list, parent, n) + [n] else Under(list, parent, n)
  {
  }

  function KidsAt(kids: map<string, seq<nat>>, id: string): seq<nat> { if id in kids then kids[id] else [] }

  lemma OneMoreKid(list: seq<Session>, kids: map<string, seq<nat>>, roots: seq<nat>, i: nat)
    requires Named(list) && i < |list| && KidsSoFar(list, kids, roots, i)
    ensures var p := ParentOf(list, i);
            if p.Some? then KidsSoFar(list, Added(kids, list[p.value].id, i), roots, i + 1)
            else KidsSoFar(list, kids, roots + [i], i + 1)
  {
    var p := ParentOf(list, i);
    UnderMore(list, None, i);
    var more := if p.Some? then Added(kids, list[p.value].id, i) else kids;
    forall q: nat | q < |list| ensures KidsAt(more, list[q].id) == Under(list, Some(q), i + 1) {
      UnderMore(list, Some(q), i);
      if p.Some? {
        SameId(list, q, p.value);
      }
    }
  }

  lemma SameId(list: seq<Session>, a: nat, b: nat)
    requires Named(list) && a < |list| && b < |list|
    ensures list[a].id == list[b].id <==> a == b
  {
  }

  method FindKids(list: seq<Session>) returns (kids: map<string, seq<nat>>, roots: seq<nat>)
    requires Named(list)
    ensures KidsSoFar(list, kids, roots, |list|)
  {
    kids, roots := map[], [];
    for i := 0 to |list|
      invariant KidsSoFar(list, kids, roots, i)
    {
      OneMoreKid(list, kids, roots, i);
      var p := ParentOf(list, i);
      if p.Some? {
        kids := Added(kids, list[p.value].id, i);
      } else {
        roots := roots + [i];
      }
    }
  }

  lemma ItselfFirst(list: seq<Session>, s: nat, sub: bool, seen: set<nat>, items: seq<Item>)
    requires s < |list| && seen <= Indices(list) && s !in seen
    ensures |Indices(list) - (seen + {s})| < |Indices(list) - seen|
    ensures var below, f := FlattenAll(list, KidsOf(list, s), true, seen + {s}), Flatten(list, s, sub, seen);
            items + [Item(s, sub)] + below.items == items + f.items && below.seen == f.seen
  {
    Fewer(Indices(list) - (seen + {s}), Indices(list) - seen);
  }

  /** `flatten`, into what has been put out and seen so far. */
  method FlattenInto(list: seq<Session>, kids: map<string, seq<nat>>, ghost roots: seq<nat>, s: nat, sub: bool,
      items: seq<Item>, seen: set<nat>)
    returns (out: seq<Item>, now: set<nat>)
    requires KidsSoFar(list, kids, roots, |list|) && s < |list| && seen <= Indices(list)
    ensures out == items + Flatten(list, s, sub, seen).items && now == Flatten(list, s, sub, seen).seen
    decreases |Indices(list) - seen|, 0
  {
    if s in seen {
      assert items + [] == items;
      return items, seen;
    }
    ItselfFirst(list, s, sub, seen, items);
    var unsorted := KidsAt(kids, list[s].id);
    out, now := FlattenEach(list, kids, roots, Sorted(list, unsorted), true, items + [Item(s, sub)], seen + {s});
  }

  lemma FirstOfRest(list: seq<Session>, ks: seq<nat>, sub: bool, now: set<nat>, out: seq<Item>)
    requires ks != [] && Within(list, ks) && now <= Indices(list)
    ensures var first, all := Flatten(list, ks[0], sub, now), FlattenAll(list, ks, sub, now);
            var rest := FlattenAll(list, ks[1..], sub, first.seen);
            out + all.items == out + first.items + rest.items && all.seen == rest.seen
  {
  }

  lemma FewerLeft(list: seq<Session>, ks: seq<nat>, sub: bool, now: set<nat>)
    requires ks != [] && Within(list, ks) && now <= Indices(list)
    ensures |Indices(list) - Flatten(list, ks[0], sub, now).seen| <= |Indices(list) - now|
  {
    Subset(Indices(list) - Flatten(list, ks[0], sub, now).seen, Indices(list) - now);
  }

  method FlattenEach(list: seq<Session>, kids: map<string, seq<nat>>, ghost roots: seq<nat>, ks: seq<nat>, sub: bool,
      items: seq<Item>, seen: set<nat>)
    returns (out: seq<Item>, now: set<nat>)
    requires KidsSoFar(list, kids, roots, |list|) && Within(list, ks) && seen <= Indices(list)
    ensures out == items + FlattenAll(list, ks, sub, seen).items && now == FlattenAll(list, ks, sub, seen).seen
    decreases |Indices(list) - seen|, 1
  {
    out, now := items, seen;
    ghost var whole := FlattenAll(list, ks, sub, seen);
    assert ks[0..] == ks;
    for j := 0 to |ks|
      invariant now <= Indices(list) && |Indices(list) - now| <= |Indices(list) - seen|
      invariant out + FlattenAll(list, ks[j..], sub, now).items == items + whole.items
      invariant FlattenAll(list, ks[j..], sub, now).seen == whole.seen
    {
      FirstOfRest(list, ks[j..], sub, now, out);
      FewerLeft(list, ks[j..], sub, now);
      assert ks[j..][1..] == ks[j + 1..];
      out, now := FlattenInto(list, kids, roots, ks[j], sub, out, now);
    }
    assert ks[|ks|..] == [] && out + [] == out;
  }

  /** The groups the roots have been put in. */
  ghost predicate GroupedSoFar(list: seq<Session>, roots: seq<nat>, keys: seq<Key>, grouped: map<Key, seq<nat>>) {
    && Within(list, roots) && keys == KeysOf(list, roots)
    && forall k: Key :: (if k in grouped then grouped[k] else []) == RootsOf(list, roots, k)
  }

  method GroupRoots(list: seq<Session>, roots: seq<nat>) returns (keys: seq<Key>, grouped: map<Key, seq<nat>>)
    requires Roots(list, roots)
    ensures GroupedSoFar(list, roots, keys, grouped)
  {
    keys, grouped := [], map[];
    for i := 0 to |roots|
      invariant GroupedSoFar(list, roots[..i], keys, grouped)
    {
      var root := roots[i];
      RootPath(list, root);
      var key := GroupOf(list, root);
      assert roots[..i + 1] == roots[..i] + [root];
      keys := InsertKey(keys, key);
      grouped := grouped[key := (if key in grouped then grouped[key] else []) + [root]];
    }
    assert roots[..|roots|] == roots;
  }

  predicate Roots(list: seq<Session>, ks: seq<nat>) {
    Within(list, ks) && forall k :: 0 <= k < |ks| ==> ParentOf(list, ks[k]).None?
  }

  /** The first half of `build`: the groups in order, each with its sessions in preorder. */
  method FindGroups(list: seq<Session>, collapsed: set<Key>) returns (groups: seq<Group>)
    requires Named(list)
    ensures groups == GroupsOf(list, collapsed)
  {
    var kids, roots := FindKids(list);
    var keys, grouped := GroupRoots(list, roots);
    groups := DrawGroups(list, kids, roots, keys, grouped, collapsed);
  }

  method DrawGroups(list: seq<Session>, kids: map<string, seq<nat>>, roots: seq<nat>, keys: seq<Key>,
      grouped: map<Key, seq<nat>>, collapsed: set<Key>)
    returns (groups: seq<Group>)
    requires KidsSoFar(list, kids, roots, |list|) && GroupedSoFar(list, roots, keys, grouped)
    ensures groups == GroupsOf(list, collapsed)
  {
    groups := [];
    for g := 0 to |keys|
      invariant DrawnSoFar(list, roots, keys, collapsed, groups) && |groups| == g
    {
      var group := DrawGroup(list, kids, roots, grouped, keys[g], collapsed);
      groups := groups + [group];
    }
    AllDrawn(list, roots, keys, collapsed, groups);
  }

  ghost predicate DrawnSoFar(list: seq<Session>, roots: seq<nat>, keys: seq<Key>, collapsed: set<Key>,
      groups: seq<Group>)
  {
    && Within(list, roots) && |groups| <= |keys|
    && forall k :: 0 <= k < |groups| ==> groups[k] == GroupFor(list, roots, keys[k], collapsed)
  }

  lemma AllDrawn(list: seq<Session>, roots: seq<nat>, keys: seq<Key>, collapsed: set<Key>, groups: seq<Group>)
    requires roots == Under(list, None, |list|) && keys == KeysOf(list, roots)
    requires DrawnSoFar(list, roots, keys, collapsed, groups) && |groups| == |keys|
    ensures groups == GroupsOf(list, collapsed)
  {
  }

  method DrawGroup(list: seq<Session>, kids: map<string, seq<nat>>, roots: seq<nat>, grouped: map<Key, seq<nat>>,
      key: Key, collapsed: set<Key>)
    returns (group: Group)
    requires KidsSoFar(list, kids, roots, |list|) && GroupedSoFar(list, roots, KeysOf(list, roots), grouped)
    ensures group == GroupFor(list, roots, key, collapsed)
  {
    var members := if key in grouped then grouped[key] else [];
    assert members == RootsOf(list, roots, key);
    group := DrawMembers(list, kids, roots, members, key, key in collapsed);
  }

  method DrawMembers(list: seq<Session>, kids: map<string, seq<nat>>, ghost roots: seq<nat>, members: seq<nat>,
      key: Key, collapsed: bool)
    returns (group: Group)
    requires KidsSoFar(list, kids, roots, |list|) && Within(list, members)
    ensures group == Group(key, FlattenAll(list, Sorted(list, members), false, {}).items, collapsed)
  {
    var ks := Sorted(list, members);
    var items, _ := FlattenEach(list, kids, roots, ks, false, [], {});
    assert items == FlattenAll(list, ks, false, {}).items;
    group := Group(key, items, collapsed);
  }

  // ----- What the groups hold -----

  lemma RootsAreSiblings(list: seq<Session>, key: Key)
    ensures var ks := Sorted(list, RootsOf(list, Under(list, None, |list|), key));
            Siblings(list, [], ks)
  {
    var roots := Under(list, None, |list|);
    var ks := Sorted(list, RootsOf(list, roots, key));
    RootsOfDiffer(list, roots, key);
    SortedInOrder(list, RootsOf(list, roots, key));
    forall k | k in ks ensures Rooted(list, k) && Path(list, k) == [] + [k] {
      RootPath(list, k);
    }
  }

  /** A group holds exactly the sessions whose root is in it, each once, in preorder. */
  lemma GroupHolds(list: seq<Session>, key: Key, i: nat)
    requires i < |list|
    ensures var group := GroupFor(list, Under(list, None, |list|), key, {});
            && Preorder(list, group.items)
            && (Holds(group.items, i) <==> Rooted(list, i) && KeyOf(list, Path(list, i)[0]) == key)
  {
    var roots := Under(list, None, |list|);
    var ks := Sorted(list, RootsOf(list, roots, key));
    RootsAreSiblings(list, key);
    FlattenAllIs(list, [], ks, false, {});
    if Rooted(list, i) {
      PathPart(list, i, 0);
      var root := Path(list, i)[0];
      assert Path(list, i)[..1] == [root];
      if KeyOf(list, root) == key {
        assert root in ks && Below(list, root, i);
        assert BelowAny(list, ks, i);
      }
      if BelowAny(list, ks, i) {
        var k :| k in ks && Below(list, k, i);
        RootPath(list, k);
        assert k == root;
      }
    }
  }

  /**
   * The groups come in order, and a session is in one exactly when its chain of parents ends; then it is in the
   * group of its root and in no other. Within a group no session comes twice, and they are in preorder with
   * siblings by rank and then as they came.
   */
  lemma GroupsHoldTheForest(list: seq<Session>, collapsed: set<Key>)
    ensures var groups := GroupsOf(list, collapsed);
            && (forall g, h :: 0 <= g < h < |groups| ==> KeyBefore(groups[g].key, groups[h].key))
            && (forall g :: 0 <= g < |groups| ==> Preorder(list, groups[g].items))
            && (forall i: nat, g :: i < |list| && 0 <= g < |groups| ==>
                  (Holds(groups[g].items, i) <==> Rooted(list, i) && KeyOf(list, Path(list, i)[0]) == groups[g].key))
            && (forall i: nat :: i < |list| && Rooted(list, i) ==>
                  exists g :: 0 <= g < |groups| && groups[g].key == KeyOf(list, Path(list, i)[0]))
  {
    var roots := Under(list, None, |list|);
    var keys, groups := KeysOf(list, roots), GroupsOf(list, collapsed);
    KeysOfInOrder(list, roots);
    forall g | 0 <= g < |groups|
      ensures Preorder(list, groups[g].items)
      ensures forall i: nat :: i < |list| ==>
                (Holds(groups[g].items, i) <==> Rooted(list, i) && KeyOf(list, Path(list, i)[0]) == groups[g].key)
    {
      forall i: nat | i < |list|
        ensures Holds(groups[g].items, i) <==> Rooted(list, i) && KeyOf(list, Path(list, i)[0]) == groups[g].key
      {
        GroupHolds(list, keys[g], i);
      }
      RootsAreSiblings(list, keys[g]);
      FlattenAllIs(list, [], Sorted(list, RootsOf(list, roots, keys[g])), false, {});
    }
    forall i: nat | i < |list| && Rooted(list, i)
      ensures exists g :: 0 <= g < |groups| && groups[g].key == KeyOf(list, Path(list, i)[0])
    {
      PathPart(list, i, 0);
      var key := KeyOf(list, Path(list, i)[0]);
      assert Path(list, i)[0] in roots;
      assert key in keys;
      var g :| 0 <= g < |keys| && keys[g] == key;
      assert groups[g].key == key;
    }
  }

  /** Workspaces come by their numbers, and everything else last. */
  lemma GroupsComeByNumber(list: seq<Session>, collapsed: set<Key>, g: nat, h: nat)
    requires g < h < |GroupsOf(list, collapsed)|
    ensures var a, b := GroupsOf(list, collapsed)[g].key, GroupsOf(list, collapsed)[h].key;
            a.Workspace? && (b == Elsewhere || (b.Workspace? && a.n < b.n))
  {
    GroupsHoldTheForest(list, collapsed);
    assert KeyBefore(GroupsOf(list, collapsed)[g].key, GroupsOf(list, collapsed)[h].key);
  }

  /** In every group, the rows drawn as sub-sessions are the sessions with a parent. */
  lemma GroupsMarkSubs(list: seq<Session>, collapsed: set<Key>, g: nat)
    requires g < |GroupsOf(list, collapsed)|
    ensures SubsHaveParents(list, GroupsOf(list, collapsed)[g].items)
  {
    var roots := Under(list, None, |list|);
    var ks := Sorted(list, RootsOf(list, roots, KeysOf(list, roots)[g]));
    forall k | k in ks ensures ParentOf(list, k).None? {
      assert k in roots;
    }
    FlattenAllMarksSubs(list, ks, false, {});
  }

  lemma {:induction false} NotBeforeItself(list: seq<Session>, p: seq<nat>)
    requires Within(list, p)
    ensures !ChainBefore(list, p, p)
  {
    if p != [] {
      NotBeforeItself(list, p[1..]);
    }
  }

  /** In preorder no session comes twice. */
  lemma PreorderHasNoTwice(list: seq<Session>, items: seq<Item>, i: nat, j: nat)
    requires Preorder(list, items) && i < j < |items|
    ensures items[i].s != items[j].s
  {
    assert ChainBefore(list, Path(list, items[i].s), Path(list, items[j].s));
    NotBeforeItself(list, Path(list, items[i].s));
  }

  // ----- Laying out -----

  const GROUP_H := 26
  const ROW_H := 37
  const KNOCK_H := 69

  /** What is drawn, from the top: a header, or a session's row. */
  datatype Block = Head(key: Key, y: nat, h: nat) | Row(s: nat, sub: bool, key: Key, y: nat, h: nat)

  function RowHeight(list: seq<Session>, s: nat): nat
    requires s < |list|
  {
    if list[s].state == "awaiting" then KNOCK_H else ROW_H
  }

  predicate ItemsWithin(list: seq<Session>, items: seq<Item>) { forall k :: 0 <= k < |items| ==> items[k].s < |list| }

  predicate GroupsWithin(list: seq<Session>, groups: seq<Group>) {
    forall g :: 0 <= g < |groups| ==> ItemsWithin(list, groups[g].items)
  }

  /** A layout's blocks fill the space between two heights, one after the other. */
  predicate Tiles(blocks: seq<Block>, from: nat, to: nat) {
    if blocks == [] then from == to
    else blocks[0].y == from && blocks[0].h > 0 && Tiles(blocks[1..], from + blocks[0].h, to)
  }

  /** The sessions the rows are for, in the order of the groups that are not collapsed. */
  function Listed(groups: seq<Group>): seq<(nat, bool, Key)> {
    if groups == [] then []
    else
      var last := groups[|groups| - 1];
      Listed(groups[..|groups| - 1]) + if last.collapsed then [] else ListedIn(last)
  }

  function ListedIn(group: Group): seq<(nat, bool, Key)> {
    seq(|group.items|, k requires 0 <= k < |group.items| => (group.items[k].s, group.items[k].sub, group.key))
  }

  function RowsOf(blocks: seq<Block>): seq<(nat, bool, Key)> {
    if blocks == [] then []
    else
      var last := blocks[|blocks| - 1];
      RowsOf(blocks[..|blocks| - 1]) + if last.Row? then [(last.s, last.sub, last.key)] else []
  }

  function HeadsOf(blocks: seq<Block>): seq<Key> {
    if blocks == [] then []
    else
      var last := blocks[|blocks| - 1];
      HeadsOf(blocks[..|blocks| - 1]) + if last.Head? then [last.key] else []
  }

  /** How tall each block of a layout is. */
  predicate Sized(list: seq<Session>, blocks: seq<Block>) {
    forall k :: 0 <= k < |blocks| ==>
      match blocks[k]
      case Head(_, _, h) => h == 26
      case Row(s, _, _, _, h) => s < |list| && h == if list[s].state == "awaiting" then 69 else 37
  }

  lemma {:induction false} TilesMore(blocks: seq<Block>, from: nat, to: nat, block: Block)
    requires Tiles(blocks, from, to) && block.y == to && block.h > 0
    ensures Tiles(blocks + [block], from, to + block.h)
  {
    if blocks == [] {
      assert [block][1..] == [];
    } else {
      assert (blocks + [block])[1..] == blocks[1..] + [block];
      TilesMore(blocks[1..], from + blocks[0].h, to, block);
    }
  }

  /** What is laid out so far: blocks that fill the space down to a height, for these headers and rows. */
  predicate Laid(list: seq<Session>, blocks: seq<Block>, height: nat, heads: seq<Key>, rows: seq<(nat, bool, Key)>) {
    Tiles(blocks, 0, height) && Sized(list, blocks) && HeadsOf(blocks) == heads && RowsOf(blocks) == rows
  }

  lemma BlockMore(list: seq<Session>, blocks: seq<Block>, height: nat, heads: seq<Key>, rows: seq<(nat, bool, Key)>,
      block: Block)
    requires Laid(list, blocks, height, heads, rows) && Sized(list, [block]) && block.y == height
    ensures Laid(list, blocks + [block], height + block.h,
                 if block.Head? then heads + [block.key] else heads,
                 if block.Row? then rows + [(block.s, block.sub, block.key)] else rows)
  {
    assert [block][0].h > 0;
    TilesMore(blocks, 0, height, block);
    assert (blocks + [block])[..|blocks|] == blocks;
  }

  function KeysIn(groups: seq<Group>): seq<Key> {
    if groups == [] then [] else KeysIn(groups[..|groups| - 1]) + [groups[|groups| - 1].key]
  }

  /**
   * The second half of `build`: a header for each group, a row for each session of one that is not collapsed,
   * in order, and together they fill the height without a gap or an overlap.
   */
  method Layout(list: seq<Session>, groups: seq<Group>) returns (blocks: seq<Block>, height: nat)
    requires GroupsWithin(list, groups)
    ensures Laid(list, blocks, height, KeysIn(groups), Listed(groups))
  {
    blocks, height := [], 0;
    for g := 0 to |groups|
      invariant Laid(list, blocks, height, KeysIn(groups[..g]), Listed(groups[..g]))
    {
      OneMoreGroup(groups, g);
      blocks, height := LayoutGroup(list, groups[g], blocks, height, KeysIn(groups[..g]), Listed(groups[..g]));
    }
    assert groups[..|groups|] == groups;
  }

  lemma OneMoreGroup(groups: seq<Group>, g: nat)
    requires g < |groups|
    ensures KeysIn(groups[..g + 1]) == KeysIn(groups[..g]) + [groups[g].key]
    ensures Listed(groups[..g + 1]) == Listed(groups[..g]) + if groups[g].collapsed then [] else ListedIn(groups[g])
  {
    assert groups[..g + 1][..g] == groups[..g];
  }

  method LayoutGroup(list: seq<Session>, group: Group, above: seq<Block>, top: nat, ghost heads: seq<Key>,
      ghost rows: seq<(nat, bool, Key)>)
    returns (blocks: seq<Block>, height: nat)
    requires Laid(list, above, top, heads, rows) && ItemsWithin(list, group.items)
    ensures Laid(list, blocks, height, heads + [group.key], rows + if group.collapsed then [] else ListedIn(group))
  {
    var head := Head(group.key, top, GROUP_H);
    BlockMore(list, above, top, heads, rows, head);
    blocks := above + [head];
    height := top + GROUP_H;
    assert rows + [] == rows;
    if !group.collapsed {
      blocks, height := LayoutRows(list, group, blocks, height, heads + [group.key], rows);
    }
  }

  method LayoutRows(list: seq<Session>, group: Group, above: seq<Block>, top: nat, ghost heads: seq<Key>,
      ghost rows: seq<(nat, bool, Key)>)
    returns (blocks: seq<Block>, height: nat)
    requires Laid(list, above, top, heads, rows) && ItemsWithin(list, group.items)
    ensures Laid(list, blocks, height, heads, rows + ListedIn(group))
  {
    blocks, height := above, top;
    assert rows + ListedIn(group)[..0] == rows;
    for k := 0 to |group.items|
      invariant LaidSoFar(list, group, k, blocks, height, heads, rows)
    {
      var item := group.items[k];
      var row := Row(item.s, item.sub, group.key, height, RowHeight(list, item.s));
      RowMore(list, group, k, blocks, height, heads, rows, row);
      blocks := blocks + [row];
      height := height + row.h;
    }
    assert ListedIn(group)[..|group.items|] == ListedIn(group);
  }

  /** A group's first rows, below what was laid out before it. */
  predicate LaidSoFar(list: seq<Session>, group: Group, k: nat, blocks: seq<Block>, height: nat, heads: seq<Key>,
      rows: seq<(nat, bool, Key)>)
  {
    k <= |group.items| && Laid(list, blocks, height, heads, rows + ListedIn(group)[..k])
  }

  lemma RowMore(list: seq<Session>, group: Group, k: nat, blocks: seq<Block>, height: nat, heads: seq<Key>,
      rows: seq<(nat, bool, Key)>, row: Block)
    requires k < |group.items| && LaidSoFar(list, group, k, blocks, height, heads, rows)
    requires var item := group.items[k];
             item.s < |list| && row == Row(item.s, item.sub, group.key, height, RowHeight(list, item.s))
    ensures LaidSoFar(list, group, k + 1, blocks + [row], height + row.h, heads, rows)
  {
    BlockMore(list, blocks, height, heads, rows + ListedIn(group)[..k], row);
    RowsMore(rows, ListedIn(group), k);
  }

  lemma RowsMore<T>(rows: seq<T>, listed: seq<T>, k: nat)
    requires k < |listed|
    ensures rows + listed[..k] + [listed[k]] == rows + listed[..k + 1]
  {
  }

  predicate Covers(block: Block, y: nat) { block.y <= y < block.y + block.h }

  /** Every height a layout spans is in exactly one of its blocks. */
  lemma {:induction false} OneBlockCovers(blocks: seq<Block>, from: nat, to: nat, y: nat)
    requires Tiles(blocks, from, to)
    ensures from <= to && forall k :: 0 <= k < |blocks| ==> from <= blocks[k].y && blocks[k].y + blocks[k].h <= to
    ensures from <= y < to ==> exists k :: 0 <= k < |blocks| && Covers(blocks[k], y)
    ensures forall j, k :: 0 <= j < k < |blocks| ==> !(Covers(blocks[j], y) && Covers(blocks[k], y))
  {
    if blocks != [] {
      OneBlockCovers(blocks[1..], from + blocks[0].h, to, y);
      assert blocks == [blocks[0]] + blocks[1..];
      if from <= y < to {
        if y < from + blocks[0].h {
          assert Covers(blocks[0], y);
        } else {
          var k :| 0 <= k < |blocks[1..]| && Covers(blocks[1..][k], y);
          assert Covers(blocks[k + 1], y);
        }
      }
    }
  }

  /**
   * `build`: a header for every group, and rows for the sessions of the groups that are not collapsed;
   * `RowsAreTheRooted` and `RowsAreInPreorder` say which sessions those are, and in what order.
   */
  method Build(list: seq<Session>, collapsed: set<Key>) returns (blocks: seq<Block>, height: nat)
    requires Named(list)
    ensures Laid(list, blocks, height, KeysIn(GroupsOf(list, collapsed)), Listed(GroupsOf(list, collapsed)))
  {
    var groups := FindGroups(list, collapsed);
    GroupsHoldTheForest(list, collapsed);
    blocks, height := Layout(list, groups);
  }

  predicate Has(rows: seq<(nat, bool, Key)>, i: nat) { exists k :: 0 <= k < |rows| && rows[k].0 == i }

  lemma HasBoth(a: seq<(nat, bool, Key)>, b: seq<(nat, bool, Key)>, i: nat)
    ensures Has(a + b, i) <==> Has(a, i) || Has(b, i)
  {
    if Has(a, i) {
      var k :| 0 <= k < |a| && a[k].0 == i;
      assert (a + b)[k].0 == i;
    }
    if Has(b, i) {
      var k :| 0 <= k < |b| && b[k].0 == i;
      assert (a + b)[|a| + k].0 == i;
    }
  }

  lemma HasItems(group: Group, i: nat)
    ensures Has(ListedIn(group), i) <==> Holds(group.items, i)
  {
    if Holds(group.items, i) {
      var k :| 0 <= k < |group.items| && group.items[k].s == i;
      assert ListedIn(group)[k].0 == i;
    }
  }

  lemma {:induction false} ListedIs(groups: seq<Group>, i: nat)
    ensures Has(Listed(groups), i) <==> Shows(groups, i)
  {
    if groups != [] {
      var rest, last := groups[..|groups| - 1], groups[|groups| - 1];
      ListedIs(rest, i);
      HasBoth(Listed(rest), if last.collapsed then [] else ListedIn(last), i);
      HasItems(last, i);
      ShowsMore(rest, last, i);
      assert groups == rest + [last];
    }
  }

  /** A group that is not collapsed holds the session. */
  predicate Shows(groups: seq<Group>, i: nat) {
    exists g :: 0 <= g < |groups| && !groups[g].collapsed && Holds(groups[g].items, i)
  }

  lemma ShowsMore(groups: seq<Group>, last: Group, i: nat)
    ensures Shows(groups + [last], i) <==> Shows(groups, i) || (!last.collapsed && Holds(last.items, i))
  {
    var more := groups + [last];
    if g :| 0 <= g < |groups| && !groups[g].collapsed && Holds(groups[g].items, i) {
      assert more[g] == groups[g];
    }
    assert more[|groups|] == last;
  }

  /** A session has a row exactly when its chain of parents ends and its root's group is not collapsed. */
  lemma RowsAreTheRooted(list: seq<Session>, collapsed: set<Key>, i: nat)
    requires i < |list|
    ensures Has(Listed(GroupsOf(list, collapsed)), i) <==>
            Rooted(list, i) && KeyOf(list, Path(list, i)[0]) !in collapsed
  {
    var groups := GroupsOf(list, collapsed);
    ListedIs(groups, i);
    GroupsHoldTheForest(list, collapsed);
    if Rooted(list, i) {
      var g :| 0 <= g < |groups| && groups[g].key == KeyOf(list, Path(list, i)[0]);
      assert Holds(groups[g].items, i);
    }
  }

  // ----- The rows in order -----

  /** A row is for a session whose chain ends, in its root's group, drawn as a sub-session if it has a parent. */
  ghost predicate RowIsRight(list: seq<Session>, row: (nat, bool, Key)) {
    && row.0 < |list| && Rooted(list, row.0)
    && row.2 == KeyOf(list, Path(list, row.0)[0])
    && (row.1 <==> ParentOf(list, row.0).Some?)
  }

  /** The order of rows: by group, and in preorder within one. */
  ghost predicate RowBefore(list: seq<Session>, a: (nat, bool, Key), b: (nat, bool, Key)) {
    && RowIsRight(list, a) && RowIsRight(list, b)
    && (KeyBefore(a.2, b.2) || (a.2 == b.2 && ChainBefore(list, Path(list, a.0), Path(list, b.0))))
  }

  ghost predicate RowsInOrder(list: seq<Session>, rows: seq<(nat, bool, Key)>) {
    && (forall a :: 0 <= a < |rows| ==> RowIsRight(list, rows[a]))
    && (forall a, b :: 0 <= a < b < |rows| ==> RowBefore(list, rows[a], rows[b]))
  }

  /** Groups in order, each with sessions of its own key in preorder. */
  ghost predicate GroupsInOrder(list: seq<Session>, groups: seq<Group>) {
    && (forall g, h :: 0 <= g < h < |groups| ==> KeyBefore(groups[g].key, groups[h].key))
    && (forall g :: 0 <= g < |groups| ==> RowsInOrder(list, ListedIn(groups[g])))
  }

  lemma {:induction false} ListedKeys(groups: seq<Group>, k: nat) returns (g: nat)
    requires k < |Listed(groups)|
    ensures g < |groups| && groups[g].key == Listed(groups)[k].2
  {
    var rest := groups[..|groups| - 1];
    if k < |Listed(rest)| {
      g := ListedKeys(rest, k);
    } else {
      g := |groups| - 1;
    }
  }

  lemma RowsOfBoth(list: seq<Session>, a: seq<(nat, bool, Key)>, b: seq<(nat, bool, Key)>)
    requires RowsInOrder(list, a) && RowsInOrder(list, b)
    requires forall x, y :: 0 <= x < |a| && 0 <= y < |b| ==> RowBefore(list, a[x], b[y])
    ensures RowsInOrder(list, a + b)
  {
  }

  lemma {:induction false} ListedInOrder(list: seq<Session>, groups: seq<Group>)
    requires GroupsInOrder(list, groups)
    ensures RowsInOrder(list, Listed(groups))
  {
    if groups != [] {
      var rest, last := groups[..|groups| - 1], groups[|groups| - 1];
      ListedInOrder(list, rest);
      var a, b := Listed(rest), ListedIn(last);
      forall x, y | 0 <= x < |a| && 0 <= y < |b| ensures RowBefore(list, a[x], b[y]) {
        var g := ListedKeys(rest, x);
        assert KeyBefore(groups[g].key, last.key) && b[y].2 == last.key;
      }
      RowsOfBoth(list, a, b);
      assert a + [] == a;
    }
  }

  lemma GroupRowsInOrder(list: seq<Session>, collapsed: set<Key>, g: nat)
    requires g < |GroupsOf(list, collapsed)|
    ensures RowsInOrder(list, ListedIn(GroupsOf(list, collapsed)[g]))
  {
    var group := GroupsOf(list, collapsed)[g];
    GroupsHoldTheForest(list, collapsed);
    GroupsMarkSubs(list, collapsed, g);
    forall a | 0 <= a < |group.items| ensures RowIsRight(list, ListedIn(group)[a]) {
      assert Holds(group.items, group.items[a].s);
    }
  }

  /**
   * Whatever is collapsed, the rows come group by group and in preorder within each, every one in its root's
   * group and drawn as a sub-session if it has a parent; so no session has two.
   */
  lemma RowsAreInPreorder(list: seq<Session>, collapsed: set<Key>)
    ensures var rows := Listed(GroupsOf(list, collapsed));
            && RowsInOrder(list, rows)
            && forall a, b :: 0 <= a < b < |rows| ==> rows[a].0 != rows[b].0
  {
    var groups := GroupsOf(list, collapsed);
    var rows := Listed(groups);
    GroupsHoldTheForest(list, collapsed);
    forall g | 0 <= g < |groups| ensures RowsInOrder(list, ListedIn(groups[g])) {
      GroupRowsInOrder(list, collapsed, g);
    }
    ListedInOrder(list, groups);
    forall a, b | 0 <= a < b < |rows| ensures rows[a].0 != rows[b].0 {
      assert RowBefore(list, rows[a], rows[b]);
      NotBeforeItself(list, Path(list, rows[a].0));
    }
  }

  // ----- The rows, by the sessions' ids -----

  /** A root's group, by its own fields: the workspace its window is in. */
  predicate IsKeyOf(list: seq<Session>, root: nat, key: Key) {
    && root < |list|
    && match key
       case Workspace(n) => list[root].window != "" && list[root].workspace == Some(n)
       case Elsewhere => list[root].window == "" || list[root].workspace == None
  }

  /** From one session down to another, each names the one before it as its parent. */
  ghost predicate LeadsDown(list: seq<Session>, p: nat, d: nat, chain: seq<nat>) {
    && chain != [] && chain[0] == p && chain[|chain| - 1] == d
    && forall k :: 0 < k < |chain| ==> NamesParent(list, chain[k], chain[k - 1])
  }

  ghost predicate Leads(list: seq<Session>, p: nat, d: nat) { exists chain :: LeadsDown(list, p, d, chain) }

  /** A chain between another and a longer one of it goes through it. */
  lemma {:induction false} BetweenIsBelow(list: seq<Session>, p: seq<nat>, m: seq<nat>, more: seq<nat>)
    requires Within(list, p) && Within(list, m) && Within(list, p + more)
    requires ChainBefore(list, p, m) && ChainBefore(list, m, p + more)
    ensures p <= m
  {
    if p != [] {
      assert (p + more)[0] == p[0] && (p + more)[1..] == p[1..] + more;
      if m[0] != p[0] {
        assert false;
      }
      BetweenIsBelow(list, p[1..], m[1..], more);
      assert p == [p[0]] + p[1..] && m == [m[0]] + m[1..];
    }
  }

  /** Two chains are not each before the other. */
  lemma {:induction false} NotBothBefore(list: seq<Session>, p: seq<nat>, q: seq<nat>)
    requires Within(list, p) && Within(list, q)
    ensures !(ChainBefore(list, p, q) && ChainBefore(list, q, p))
  {
    if p != [] && q != [] && p[0] == q[0] {
      NotBothBefore(list, p[1..], q[1..]);
    }
  }

  lemma ParentComesFirst(list: seq<Session>, a: (nat, bool, Key), b: (nat, bool, Key))
    requires RowIsRight(list, a) && RowIsRight(list, b) && ParentOf(list, b.0) == Some(a.0)
    ensures a.2 == b.2 && ChainBefore(list, Path(list, a.0), Path(list, b.0)) && !RowBefore(list, b, a)
  {
    ChildPath(list, b.0);
    var start := Path(list, a.0);
    assert start + [] == start;
    ChainBeforeBelow(list, start, [], [b.0]);
    NotBothBefore(list, Path(list, a.0), Path(list, b.0));
  }

  lemma BetweenParentAndChild(list: seq<Session>, a: (nat, bool, Key), m: (nat, bool, Key), b: (nat, bool, Key))
    requires RowBefore(list, a, m) && RowBefore(list, m, b) && ParentOf(list, b.0) == Some(a.0)
    ensures m.2 == b.2 && Below(list, a.0, m.0)
  {
    ParentComesFirst(list, a, b);
    ChildPath(list, b.0);
    BetweenIsBelow(list, Path(list, a.0), Path(list, m.0), [b.0]);
  }

  lemma BelowLeadsDown(list: seq<Session>, p: nat, d: nat)
    requires Named(list) && p < |list| && Rooted(list, p) && Below(list, p, d)
    ensures Leads(list, p, d)
  {
    PathIsAChain(list, d);
    var path, n := Path(list, d), |Path(list, p)|;
    var chain := path[n - 1..];
    assert chain[0] == Path(list, p)[n - 1];
    assert LeadsDown(list, p, d, chain);
  }

  /**
   * A row is drawn as a sub-session exactly when its session names another of the list as its parent; and then that
   * parent's row stands before it in the same group, with only sessions that lead down from that parent between them.
   */
  lemma SubsFollowTheirParents(list: seq<Session>, collapsed: set<Key>, r: nat)
    requires Named(list) && r < |Listed(GroupsOf(list, collapsed))|
    ensures var rows := Listed(GroupsOf(list, collapsed));
            && (rows[r].1 <==> exists p: nat :: NamesParent(list, rows[r].0, p))
            && forall p: nat :: NamesParent(list, rows[r].0, p) ==>
                 exists q: nat :: q < r && rows[q].0 == p && rows[q].2 == rows[r].2 && LeadsTo(list, rows, q, r)
  {
    var rows := Listed(GroupsOf(list, collapsed));
    RowsAreInPreorder(list, collapsed);
    ParentIsNamed(list, rows[r].0);
    forall p: nat | NamesParent(list, rows[r].0, p)
      ensures exists q: nat :: q < r && rows[q].0 == p && rows[q].2 == rows[r].2 && LeadsTo(list, rows, q, r)
    {
      var q := ParentHasARow(list, collapsed, r, p);
      AllBetweenLeadDown(list, rows, q, r);
    }
  }

  /** Every row between two is for a session that leads down from the first's. */
  ghost predicate LeadsTo(list: seq<Session>, rows: seq<(nat, bool, Key)>, q: nat, r: nat) {
    q < r < |rows| && forall m: nat :: q < m < r ==> Leads(list, rows[q].0, rows[m].0)
  }

  lemma ParentHasARow(list: seq<Session>, collapsed: set<Key>, r: nat, p: nat) returns (q: nat)
    requires Named(list) && r < |Listed(GroupsOf(list, collapsed))|
    requires RowsInOrder(list, Listed(GroupsOf(list, collapsed)))
    requires ParentOf(list, Listed(GroupsOf(list, collapsed))[r].0) == Some(p)
    ensures var rows := Listed(GroupsOf(list, collapsed)); q < r && rows[q].0 == p && rows[q].2 == rows[r].2
  {
    var rows := Listed(GroupsOf(list, collapsed));
    var i := rows[r].0;
    ChildPath(list, i);
    assert Has(rows, i);
    RowsAreTheRooted(list, collapsed, i);
    assert Path(list, p)[0] == Path(list, i)[0];
    RowsAreTheRooted(list, collapsed, p);
    q :| 0 <= q < |rows| && rows[q].0 == p;
    ParentComesFirst(list, rows[q], rows[r]);
    NotBeforeIsAfter(list, rows, q, r);
  }

  lemma NotBeforeIsAfter(list: seq<Session>, rows: seq<(nat, bool, Key)>, q: nat, r: nat)
    requires RowsInOrder(list, rows) && q < |rows| && r < |rows| && q != r && !RowBefore(list, rows[r], rows[q])
    ensures q < r
  {
  }

  lemma AllBetweenLeadDown(list: seq<Session>, rows: seq<(nat, bool, Key)>, q: nat, r: nat)
    requires Named(list) && RowsInOrder(list, rows) && q < r < |rows| && ParentOf(list, rows[r].0) == Some(rows[q].0)
    ensures LeadsTo(list, rows, q, r)
  {
    forall m: nat | q < m < r ensures Leads(list, rows[q].0, rows[m].0) {
      assert RowBefore(list, rows[q], rows[m]) && RowBefore(list, rows[m], rows[r]);
      BetweenParentAndChild(list, rows[q], rows[m], rows[r]);
      BelowLeadsDown(list, rows[q].0, rows[m].0);
    }
  }

  /**
   * A session has a row exactly when parents named by id lead up from it to one that names none, whose group is open;
   * and then its row is in that group.
   */
  lemma RowsAreThoseThatEnd(list: seq<Session>, collapsed: set<Key>, i: nat)
    requires Named(list) && i < |list|
    ensures var rows := Listed(GroupsOf(list, collapsed));
            && (Has(rows, i) <==>
                  exists chain, key :: IsChain(list, chain, i) && IsKeyOf(list, chain[0], key) && key !in collapsed)
            && (forall r, chain :: 0 <= r < |rows| && rows[r].0 == i && IsChain(list, chain, i) ==>
                  IsKeyOf(list, chain[0], rows[r].2))
  {
    var rows := Listed(GroupsOf(list, collapsed));
    PathIsTheChain(list, i);
    RowsAreTheRooted(list, collapsed, i);
    RowsAreInPreorder(list, collapsed);
    if Rooted(list, i) {
      PathIsAChain(list, i);
      KeyIs(list, Path(list, i)[0]);
      assert Has(rows, i) ==> IsKeyOf(list, Path(list, i)[0], KeyOf(list, Path(list, i)[0]));
    }
  }

  lemma KeyIs(list: seq<Session>, root: nat)
    requires root < |list|
    ensures forall key :: IsKeyOf(list, root, key) <==> key == KeyOf(list, root)
  {
  }

  /** Sessions of one parent, or roots of one group, are drawn by state, and then as they came. */
  lemma SiblingsAreByState(list: seq<Session>, collapsed: set<Key>, rows: seq<(nat, bool, Key)>, q: nat, r: nat)
    requires Named(list) && rows == Listed(GroupsOf(list, collapsed)) && q < r < |rows|
    requires rows[q].2 == rows[r].2 && rows[q].1 == rows[r].1
    requires rows[q].1 ==> HaveOneParent(list, rows[q].0, rows[r].0)
    ensures ByState(list, rows[q].0, rows[r].0)
  {
    RowsAreInPreorder(list, collapsed);
    assert RowBefore(list, rows[q], rows[r]);
    SiblingPaths(list, rows[q], rows[r]);
    PlaceIsRank(list[rows[q].0].state);
    PlaceIsRank(list[rows[r].0].state);
  }

  predicate HaveOneParent(list: seq<Session>, a: nat, b: nat) {
    a < |list| && b < |list| && list[a].parent == list[b].parent
  }

  predicate ByState(list: seq<Session>, a: nat, b: nat) {
    && a < |list| && b < |list|
    && (Place(list[a].state) < Place(list[b].state) || (Place(list[a].state) == Place(list[b].state) && a < b))
  }

  lemma SiblingPaths(list: seq<Session>, a: (nat, bool, Key), b: (nat, bool, Key))
    requires Named(list) && RowBefore(list, a, b) && a.2 == b.2 && a.1 == b.1 && a.0 != b.0
    requires a.1 ==> list[a.0].parent == list[b.0].parent
    ensures Before(list, a.0, b.0)
  {
    if a.1 {
      ParentIsNamed(list, a.0);
      ParentIsNamed(list, b.0);
      assert ParentOf(list, a.0) == ParentOf(list, b.0);
      ChildPath(list, a.0);
      ChildPath(list, b.0);
      LastDecides(list, Path(list, ParentOf(list, a.0).value), a.0, b.0);
    } else {
      RootPath(list, a.0);
      RootPath(list, b.0);
    }
  }

  lemma {:induction false} LastDecides(list: seq<Session>, start: seq<nat>, a: nat, b: nat)
    requires Within(list, start + [a]) && Within(list, start + [b]) && a != b
    requires ChainBefore(list, start + [a], start + [b])
    ensures a < |list| && b < |list| && Before(list, a, b)
  {
    assert (start + [a])[|start|] == a && (start + [b])[|start|] == b;
    if start != [] {
      assert (start + [a])[1..] == start[1..] + [a] && (start + [b])[1..] == start[1..] + [b];
      LastDecides(list, start[1..], a, b);
    }
  }

  /** Where a state comes in the order: the five that are named, and then any other. */
  function Place(state: string): nat {
    if state in STATES then PlaceIn(STATES, state) else |STATES|
  }

  function PlaceIn(states: seq<string>, state: string): nat
    requires state in states
  {
    if states[0] == state then 0 else 1 + PlaceIn(states[1..], state)
  }

  lemma {:induction false} PlaceInIs(states: seq<string>, k: nat)
    requires k < |states| && states[k] !in states[..k]
    ensures states[k] in states && PlaceIn(states, states[k]) == k
  {
    if k > 0 {
      assert states[..k][0] == states[0] && states[1..][..k - 1] == states[..k][1..];
      PlaceInIs(states[1..], k - 1);
    }
  }

  lemma PlaceIsRank(state: string)
    ensures Place(state) == Rank(state)
  {
    RankIsPlace(state);
    if state in STATES {
      var k :| 0 <= k < |STATES| && STATES[k] == state;
      assert state !in STATES[..k] by {
        forall j | 0 <= j < k ensures STATES[j] != state {
          assert Rank(STATES[j]) == j;
        }
      }
      PlaceInIs(STATES, k);
    }
  }
}
