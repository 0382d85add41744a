// The session forest (rices/barcarolle/widgets/Buddy.js, `parentIn`, `rootIn`, and the flattening in `build`).
module Forest {
  import opened Common

  datatype Session = Session(id: string, parent: string, state: string, window: string, workspace: Option<int>)

  function Rank(state: string): nat {
    if state == "awaiting" then 0
    else if state == "working" then 1
    else if state == "stopped" then 2
    else if state == "idle" then 3
    else if state == "done" then 4
    else 5
  }

  /** Every session has an id, and no two have the same. */
  predicate Named(list: seq<Session>) {
    && (forall i :: 0 <= i < |list| ==> list[i].id != "")
    && (forall i, j :: 0 <= i < j < |list| ==> list[i].id != list[j].id)
  }

  function IndexOf(list: seq<Session>, id: string): (r: Option<nat>)
    ensures r.Some? ==> r.value < |list| && list[r.value].id == id
    ensures r.None? ==> forall i :: 0 <= i < |list| ==> list[i].id != id
  {
    if list == [] then None
    else if list[|list| - 1].id == id then Some(|list| - 1)
    else IndexOf(list[..|list| - 1], id)
  }

  /** `parentIn`: the session a session names as its parent, if it is another of the list. */
  function ParentOf(list: seq<Session>, i: nat): (r: Option<nat>)
    requires i < |list|
    ensures r.Some? ==> r.value < |list|
  {
    if list[i].parent == "" || list[i].parent == list[i].id then None else IndexOf(list, list[i].parent)
  }

  /** A session names another of the list, by its id, as its parent. */
  predicate NamesParent(list: seq<Session>, i: nat, p: nat) {
    i < |list| && p < |list| && p != i && list[i].parent == list[p].id
  }

  /** That is the one `parentIn` finds. */
  lemma ParentIsNamed(list: seq<Session>, i: nat)
    requires Named(list) && i < |list|
    ensures forall p: nat :: ParentOf(list, i) == Some(p) <==> NamesParent(list, i, p)
  {
  }

  /** The states in the order their sessions are drawn, before any other. */
  const STATES: seq<string> := ["awaiting", "working", "stopped", "idle", "done"]

  lemma RankIsPlace(state: string)
    ensures forall k :: 0 <= k < |STATES| ==> Rank(STATES[k]) == k
    ensures state !in STATES ==> Rank(state) == 5
  {
    assert STATES[0] == "awaiting" && STATES[1] == "working" && STATES[2] == "stopped" && STATES[3] == "idle";
    assert STATES[4] == "done";
    assert "working"[0] == 'w' && "stopped"[0] == 's' && "idle"[0] == 'i' && "done"[0] == 'd' && "awaiting"[0] == 'a';
  }

  // ----- Chains of parents -----

  /** A session's chain from its root down, if the root is within some steps of it. */
  function Climb(list: seq<Session>, i: nat, steps: nat): (r: Option<seq<nat>>)
    requires i < |list|
    ensures r.Some? ==> r.value != [] && r.value[|r.value| - 1] == i
    ensures r.Some? ==> forall k :: 0 <= k < |r.value| ==> r.value[k] < |list|
    decreases steps
  {
    if ParentOf(list, i).None? then Some([i])
    else if steps == 0 then None
    else
      var up := Climb(list, ParentOf(list, i).value, steps - 1);
      if up.None? then None else Some(up.value + [i])
  }

  lemma {:induction false} ClimbIsOne(list: seq<Session>, i: nat, m: nat, n: nat)
    requires i < |list| && Climb(list, i, m).Some? && Climb(list, i, n).Some?
    ensures Climb(list, i, m) == Climb(list, i, n)
    decreases m
  {
    if ParentOf(list, i).Some? {
      ClimbIsOne(list, ParentOf(list, i).value, m - 1, n - 1);
    }
  }

  /** A session whose chain of parents ends. */
  ghost predicate Rooted(list: seq<Session>, i: nat)
    requires i < |list|
  {
    exists steps: nat :: Climb(list, i, steps).Some?
  }

  ghost function Path(list: seq<Session>, i: nat): (path: seq<nat>)
    requires i < |list| && Rooted(list, i)
    ensures path != [] && path[|path| - 1] == i && forall k :: 0 <= k < |path| ==> path[k] < |list|
  {
    var steps: nat :| Climb(list, i, steps).Some?;
    Climb(list, i, steps).value
  }

  lemma PathIs(list: seq<Session>, i: nat, steps: nat)
    requires i < |list| && Climb(list, i, steps).Some?
    ensures Rooted(list, i) && Path(list, i) == Climb(list, i, steps).value
  {
    var n: nat :| Climb(list, i, n).Some? && Path(list, i) == Climb(list, i, n).value;
    ClimbIsOne(list, i, n, steps);
  }

  lemma RootPath(list: seq<Session>, i: nat)
    requires i < |list| && ParentOf(list, i).None?
    ensures Rooted(list, i) && Path(list, i) == [i]
  {
    PathIs(list, i, 0);
  }

  lemma ChildPath(list: seq<Session>, i: nat)
    requires i < |list| && ParentOf(list, i).Some?
    ensures Rooted(list, i) <==> Rooted(list, ParentOf(list, i).value)
    ensures Rooted(list, i) ==> Path(list, i) == Path(list, ParentOf(list, i).value) + [i]
  {
    var p := ParentOf(list, i).value;
    if Rooted(list, p) {
      var steps: nat :| Climb(list, p, steps).Some?;
      assert Climb(list, i, steps + 1).Some?;
    }
    if Rooted(list, i) {
      var steps: nat :| Climb(list, i, steps).Some?;
      PathIs(list, i, steps);
      PathIs(list, p, steps - 1);
    }
  }

  /** Every part of a chain is the chain of its last session. */
  lemma {:induction false} PathPart(list: seq<Session>, i: nat, k: nat)
    requires i < |list| && Rooted(list, i) && k < |Path(list, i)|
    ensures Rooted(list, Path(list, i)[k]) && Path(list, Path(list, i)[k]) == Path(list, i)[..k + 1]
    ensures k == 0 <==> ParentOf(list, Path(list, i)[k]).None?
    ensures k > 0 ==> ParentOf(list, Path(list, i)[k]) == Some(Path(list, i)[k - 1])
    decreases |Path(list, i)|
  {
    var path := Path(list, i);
    if ParentOf(list, i).None? {
      RootPath(list, i);
    } else {
      ChildPath(list, i);
      var p := ParentOf(list, i).value;
      if k < |path| - 1 {
        PathPart(list, p, k);
      } else {
        assert path[..k + 1] == path;
      }
    }
  }

  /** A chain of sessions, from one that names no other down to the given one, each naming the one before it. */
  predicate IsChain(list: seq<Session>, chain: seq<nat>, i: nat) {
    && chain != [] && chain[|chain| - 1] == i
    && (forall k :: 0 <= k < |chain| ==> chain[k] < |list|)
    && (forall k :: 0 < k < |chain| ==> NamesParent(list, chain[k], chain[k - 1]))
    && (forall p: nat :: p < |list| ==> !NamesParent(list, chain[0], p))
  }

  lemma {:induction false} ChainIsClimbed(list: seq<Session>, chain: seq<nat>, i: nat)
    requires Named(list) && IsChain(list, chain, i)
    ensures Climb(list, i, |chain|) == Some(chain)
  {
    ParentIsNamed(list, i);
    if |chain| > 1 {
      var up := chain[..|chain| - 1];
      ChainIsClimbed(list, up, chain[|chain| - 2]);
      assert NamesParent(list, i, chain[|chain| - 2]);
      assert chain == up + [i];
    } else {
      assert chain == [i];
    }
  }

  /** A session's chain of parents ends exactly when there is such a chain, and then that is it. */
  lemma PathIsTheChain(list: seq<Session>, i: nat)
    requires Named(list) && i < |list|
    ensures Rooted(list, i) <==> exists chain :: IsChain(list, chain, i)
    ensures forall chain :: IsChain(list, chain, i) ==> Rooted(list, i) && chain == Path(list, i)
  {
    forall chain | IsChain(list, chain, i) ensures Rooted(list, i) && chain == Path(list, i) {
      ChainIsClimbed(list, chain, i);
      PathIs(list, i, |chain|);
    }
    if Rooted(list, i) {
      PathIsAChain(list, i);
    }
  }

  lemma PathIsAChain(list: seq<Session>, i: nat)
    requires Named(list) && i < |list| && Rooted(list, i)
    ensures IsChain(list, Path(list, i), i)
  {
    var path := Path(list, i);
    forall k | 0 < k < |path| ensures NamesParent(list, path[k], path[k - 1]) {
      PathPart(list, i, k);
      ParentIsNamed(list, path[k]);
    }
    PathPart(list, i, 0);
    ParentIsNamed(list, path[0]);
    forall p: nat | p < |list| ensures !NamesParent(list, path[0], p) {
      assert ParentOf(list, path[0]) != Some(p);
    }
  }

  /** A session some steps up from another. */
  function Up(list: seq<Session>, i: nat, steps: nat): (r: Option<nat>)
    requires i < |list|
    ensures r.Some? ==> r.value < |list|
    decreases steps
  {
    if steps == 0 then Some(i)
    else
      var below := Up(list, i, steps - 1);
      if below.None? then None else ParentOf(list, below.value)
  }

  /** A session that is some steps up from itself. */
  ghost predicate OnACycle(list: seq<Session>, i: nat)
    requires i < |list|
  {
    exists steps: nat :: steps > 0 && Up(list, i, steps) == Some(i)
  }

  lemma {:induction false} UpIsOnThePath(list: seq<Session>, i: nat, steps: nat)
    requires i < |list| && Up(list, i, steps).Some?
    ensures var up := Up(list, i, steps).value;
            && (Rooted(list, i) <==> Rooted(list, up))
            && (Rooted(list, i) ==> |Path(list, i)| == |Path(list, up)| + steps && Path(list, up) <= Path(list, i))
    decreases steps
  {
    if steps > 0 {
      UpIsOnThePath(list, i, steps - 1);
      ChildPath(list, Up(list, i, steps - 1).value);
    }
  }

  /** A session whose chain meets a cycle has no root. */
  lemma CyclesHaveNoRoot(list: seq<Session>, i: nat, steps: nat)
    requires i < |list| && Up(list, i, steps).Some? && OnACycle(list, Up(list, i, steps).value)
    ensures !Rooted(list, i)
  {
    var on := Up(list, i, steps).value;
    var n: nat :| n > 0 && Up(list, on, n) == Some(on);
    UpIsOnThePath(list, i, steps);
    UpIsOnThePath(list, on, n);
  }

  /** `rootIn`, which climbs until there is no parent or it meets a session again: then that session is on a cycle. */
  method RootIn(list: seq<Session>, i: nat) returns (root: nat)
    requires i < |list|
    ensures root < |list| && exists steps: nat :: Up(list, i, steps) == Some(root)
    ensures Rooted(list, i) ==> root == Path(list, i)[0] && ParentOf(list, root).None?
    ensures !Rooted(list, i) ==> ParentOf(list, root).Some? && OnACycle(list, root)
    ensures Named(list) && Rooted(list, i) ==> forall p: nat :: !NamesParent(list, root, p)
  {
    var seen: set<nat> := {};
    root := i;
    ghost var climbed: nat := 0;
    while ParentOf(list, root).Some? && root !in seen
      invariant root < |list| && Up(list, i, climbed) == Some(root)
      invariant AllLead(list, seen, root)
      decreases |Indices(list) - seen|
    {
      Fewer(Indices(list) - (seen + {root}), Indices(list) - seen);
      ParentIsLed(list, seen, root);
      climbed := climbed + 1;
      seen := seen + {root};
      root := ParentOf(list, root).value;
    }
    if ParentOf(list, root).None? {
      RootPath(list, root);
      UpIsOnThePath(list, i, climbed);
      if Named(list) {
        ParentIsNamed(list, root);
        assert forall p: nat :: NamesParent(list, root, p) ==> ParentOf(list, root) == Some(p);
      }
    } else {
      CyclesHaveNoRoot(list, i, climbed);
    }
  }

  /** Climbing from a session on, past sessions that all lead to it, comes to a root or to a cycle. */
  lemma {:induction false} ClimbMeetsACycle(list: seq<Session>, i: nat, climbed: nat, at: nat, seen: set<nat>)
    returns (steps: nat)
    requires i < |list| && !Rooted(list, i) && Up(list, i, climbed) == Some(at) && seen <= Indices(list)
    requires at < |list| && AllLead(list, seen, at)
    ensures Up(list, i, steps).Some? && OnACycle(list, Up(list, i, steps).value)
    decreases |Indices(list) - seen|
  {
    if at in seen {
      steps := climbed;
    } else {
      UnrootedGoesOn(list, i, climbed);
      Fewer(Indices(list) - (seen + {at}), Indices(list) - seen);
      ParentIsLed(list, seen, at);
      steps := ClimbMeetsACycle(list, i, climbed + 1, ParentOf(list, at).value, seen + {at});
    }
  }

  lemma UnrootedGoesOn(list: seq<Session>, i: nat, climbed: nat)
    requires i < |list| && !Rooted(list, i) && Up(list, i, climbed).Some?
    ensures ParentOf(list, Up(list, i, climbed).value).Some?
    ensures Up(list, i, climbed + 1) == ParentOf(list, Up(list, i, climbed).value)
  {
    UpIsOnThePath(list, i, climbed);
    if ParentOf(list, Up(list, i, climbed).value).None? {
      RootPath(list, Up(list, i, climbed).value);
      assert false;
    }
  }

  /** A chain of parents ends, or it meets a cycle. */
  lemma UnrootedIffMeetsACycle(list: seq<Session>, i: nat)
    requires i < |list|
    ensures !Rooted(list, i) <==>
            exists steps: nat :: Up(list, i, steps).Some? && OnACycle(list, Up(list, i, steps).value)
  {
    if !Rooted(list, i) {
      assert Up(list, i, 0) == Some(i);
      var steps := ClimbMeetsACycle(list, i, 0, i, {});
    } else {
      forall steps: nat | Up(list, i, steps).Some? ensures !OnACycle(list, Up(list, i, steps).value) {
        if OnACycle(list, Up(list, i, steps).value) {
          CyclesHaveNoRoot(list, i, steps);
        }
      }
    }
  }

  /** From each of these sessions, some steps up come to the given one. */
  ghost predicate AllLead(list: seq<Session>, seen: set<nat>, to: nat) {
    forall x :: x in seen ==> x < |list| && exists n: nat :: n > 0 && Up(list, x, n) == Some(to)
  }

  lemma ParentIsLed(list: seq<Session>, seen: set<nat>, at: nat)
    requires at < |list| && ParentOf(list, at).Some? && AllLead(list, seen, at)
    ensures AllLead(list, seen + {at}, ParentOf(list, at).value)
  {
    var parent := ParentOf(list, at).value;
    forall x | x in seen + {at} ensures x < |list| && exists n: nat :: n > 0 && Up(list, x, n) == Some(parent) {
      if x in seen {
        var n: nat :| n > 0 && Up(list, x, n) == Some(at);
        assert Up(list, x, n + 1) == Some(parent);
      } else {
        assert Up(list, x, 0) == Some(x) && Up(list, x, 1) == Some(parent);
      }
    }
  }

  function UpTo(n: nat): (r: set<nat>)
    ensures forall i: nat :: i in r <==> i < n
  {
    if n == 0 then {} else UpTo(n - 1) + {n - 1}
  }

  function Indices(list: seq<Session>): (r: set<nat>)
    ensures forall i: nat :: i in r <==> i < |list|
  {
    UpTo(|list|)
  }

  lemma Fewer(a: set<nat>, b: set<nat>)
    requires a < b
    ensures |a| < |b|
  {
    assert exists x :: x in b && x !in a;
    var x :| x in b && x !in a;
    assert a <= b - {x};
    Subset(a, b - {x});
  }

  lemma {:induction false} Subset(a: set<nat>, b: set<nat>)
    requires a <= b
    ensures |a| <= |b|
  {
    if a != {} {
      var x :| x in a;
      Subset(a - {x}, b - {x});
    }
  }

  // ----- Siblings in order -----

  /** The order of siblings: by rank, then as they came. */
  predicate Before(list: seq<Session>, a: nat, b: nat)
    requires a < |list| && b < |list|
  {
    Rank(list[a].state) < Rank(list[b].state) || (Rank(list[a].state) == Rank(list[b].state) && a < b)
  }

  predicate Within(list: seq<Session>, ks: seq<nat>) {
    forall k :: 0 <= k < |ks| ==> ks[k] < |list|
  }

  predicate InOrder(list: seq<Session>, ks: seq<nat>)
    requires Within(list, ks)
  {
    forall a, b :: 0 <= a < b < |ks| ==> Before(list, ks[a], ks[b])
  }

  function Placed(list: seq<Session>, ks: seq<nat>, k: nat): (r: seq<nat>)
    requires Within(list, ks) && k < |list|
    ensures Within(list, r) && forall x :: x in r <==> x in ks || x == k
  {
    if ks == [] || Before(list, k, ks[0]) then [k] + ks else [ks[0]] + Placed(list, ks[1..], k)
  }

  /** Sessions sorted by rank and then as they came. */
  function Sorted(list: seq<Session>, ks: seq<nat>): (r: seq<nat>)
    requires Within(list, ks)
    ensures Within(list, r) && forall x :: x in r <==> x in ks
  {
    if ks == [] then []
    else
      var r := Placed(list, Sorted(list, ks[..|ks| - 1]), ks[|ks| - 1]);
      assert ks == ks[..|ks| - 1] + [ks[|ks| - 1]];
      r
  }

  lemma {:induction false} PlacedInOrder(list: seq<Session>, ks: seq<nat>, k: nat)
    requires Within(list, ks) && k < |list| && InOrder(list, ks) && k !in ks
    ensures InOrder(list, Placed(list, ks, k))
  {
    if ks != [] && !Before(list, k, ks[0]) {
      PlacedInOrder(list, ks[1..], k);
      var rest := Placed(list, ks[1..], k);
      forall b | 0 <= b < |rest| ensures Before(list, ks[0], rest[b]) {
        assert rest[b] in rest;
        if rest[b] in ks[1..] {
          var c :| 0 <= c < |ks[1..]| && ks[1..][c] == rest[b];
          assert ks[c + 1] == rest[b];
        }
      }
    }
  }

  predicate Different(ks: seq<nat>) {
    forall a, b :: 0 <= a < b < |ks| ==> ks[a] != ks[b]
  }

  lemma {:induction false} SortedInOrder(list: seq<Session>, ks: seq<nat>)
    requires Within(list, ks) && Different(ks)
    ensures InOrder(list, Sorted(list, ks))
  {
    if ks != [] {
      SortedInOrder(list, ks[..|ks| - 1]);
      PlacedInOrder(list, Sorted(list, ks[..|ks| - 1]), ks[|ks| - 1]);
    }
  }

  /** The sessions among the first `n` whose parent is the given one, as they came; the roots, for no parent. */
  function Under(list: seq<Session>, parent: Option<nat>, n: nat): (r: seq<nat>)
    requires n <= |list|
    ensures Within(list, r) && Different(r)
    ensures forall x: nat :: x in r <==> x < n && ParentOf(list, x) == parent
  {
    if n == 0 then []
    else
      var rest := Under(list, parent, n - 1);
      if ParentOf(list, n - 1) == parent then rest + [n - 1] else rest
  }

  function KidsOf(list: seq<Session>, s: nat): (r: seq<nat>)
    requires s < |list|
    ensures Within(list, r) && forall x: nat :: x in r <==> x < |list| && ParentOf(list, x) == Some(s)
  {
    Sorted(list, Under(list, Some(s), |list|))
  }

  // ----- Flattening -----

  datatype Item = Item(s: nat, sub: bool)

  datatype Flat = Flat(items: seq<Item>, seen: set<nat>)

  /** `flatten`: a session not seen before, and then its children in order. */
  function Flatten(list: seq<Session>, s: nat, sub: bool, seen: set<nat>): (f: Flat)
    requires s < |list| && seen <= Indices(list)
    ensures seen <= f.seen <= Indices(list)
    decreases |Indices(list) - seen|, 0
  {
    if s in seen then Flat([], seen)
    else
      Fewer(Indices(list) - (seen + {s}), Indices(list) - seen);
      var below := FlattenAll(list, KidsOf(list, s), true, seen + {s});
      Flat([Item(s, sub)] + below.items, below.seen)
  }

  function FlattenAll(list: seq<Session>, ks: seq<nat>, sub: bool, seen: set<nat>): (f: Flat)
    requires Within(list, ks) && seen <= Indices(list)
    ensures seen <= f.seen <= Indices(list)
    decreases |Indices(list) - seen|, |ks| + 1
  {
    if ks == [] then Flat([], seen)
    else
      var first := Flatten(list, ks[0], sub, seen);
      Subset(Indices(list) - first.seen, Indices(list) - seen);
      var rest := FlattenAll(list, ks[1..], sub, first.seen);
      Flat(first.items + rest.items, rest.seen)
  }

  // ----- Preorder -----

  /** The order of chains: a session before those below it, and siblings' whole trees in the siblings' order. */
  predicate ChainBefore(list: seq<Session>, p: seq<nat>, q: seq<nat>)
    requires Within(list, p) && Within(list, q)
  {
    if q == [] then false
    else if p == [] then true
    else if p[0] != q[0] then Before(list, p[0], q[0])
    else ChainBefore(list, p[1..], q[1..])
  }

  lemma {:induction false} ChainBeforeBelow(list: seq<Session>, start: seq<nat>, p: seq<nat>, q: seq<nat>)
    requires Within(list, start + p) && Within(list, start + q)
    requires Within(list, p) && Within(list, q) && ChainBefore(list, p, q)
    ensures ChainBefore(list, start + p, start + q)
  {
    if start == [] {
      assert start + p == p && start + q == q;
    } else {
      assert (start + p)[1..] == start[1..] + p && (start + q)[1..] == start[1..] + q;
      ChainBeforeBelow(list, start[1..], p, q);
    }
  }

  /** A session is below another when the other is on its chain. */
  ghost predicate Below(list: seq<Session>, s: nat, d: nat)
    requires s < |list| && Rooted(list, s)
  {
    d < |list| && Rooted(list, d) && Path(list, s) <= Path(list, d)
  }

  /** What comes below some siblings. */
  ghost predicate BelowAny(list: seq<Session>, ks: seq<nat>, d: nat)
    requires Within(list, ks) && forall k :: k in ks ==> Rooted(list, k)
  {
    exists k :: k in ks && Below(list, k, d)
  }

  /** Siblings in order, under a chain. */
  ghost predicate Siblings(list: seq<Session>, start: seq<nat>, ks: seq<nat>) {
    && Within(list, ks) && Within(list, start) && InOrder(list, ks)
    && (forall k :: k in ks ==> Rooted(list, k) && Path(list, k) == start + [k])
  }

  /** Items are exactly some sessions, each once, in preorder. */
  ghost predicate Preorder(list: seq<Session>, items: seq<Item>) {
    && (forall i :: 0 <= i < |items| ==> items[i].s < |list| && Rooted(list, items[i].s))
    && (forall i, j :: 0 <= i < j < |items| ==> ChainBefore(list, Path(list, items[i].s), Path(list, items[j].s)))
  }

  predicate Holds(items: seq<Item>, s: nat) { exists i :: 0 <= i < |items| && items[i].s == s }

  lemma BelowOneSibling(list: seq<Session>, start: seq<nat>, ks: seq<nat>, j: nat, k: nat, d: nat)
    requires Siblings(list, start, ks) && j in ks && k in ks && Below(list, j, d) && Below(list, k, d)
    ensures j == k
  {
    var path := Path(list, d);
    assert path[|start|] == Path(list, j)[|start|] == j;
    assert path[|start|] == Path(list, k)[|start|] == k;
  }

  lemma KidsAreSiblings(list: seq<Session>, s: nat)
    requires s < |list| && Rooted(list, s)
    ensures Siblings(list, Path(list, s), KidsOf(list, s))
  {
    SortedInOrder(list, Under(list, Some(s), |list|));
    forall k | k in KidsOf(list, s) ensures Rooted(list, k) && Path(list, k) == Path(list, s) + [k] {
      ChildPath(list, k);
    }
  }

  lemma BelowAChild(list: seq<Session>, s: nat, d: nat)
    requires s < |list| && Rooted(list, s) && Below(list, s, d) && d != s
    ensures Siblings(list, Path(list, s), KidsOf(list, s)) && BelowAny(list, KidsOf(list, s), d)
  {
    KidsAreSiblings(list, s);
    var start, path := Path(list, s), Path(list, d);
    assert |path| > |start|;
    var k := path[|start|];
    PathPart(list, d, |start|);
    assert path[|start| - 1] == start[|start| - 1] == s;
    assert Below(list, k, d);
  }

  /** Below a session are itself and what is below its children. */
  lemma BelowIsItselfOrAChilds(list: seq<Session>, s: nat, d: nat)
    requires s < |list| && Rooted(list, s)
    ensures Siblings(list, Path(list, s), KidsOf(list, s))
    ensures Below(list, s, d) <==> d == s || BelowAny(list, KidsOf(list, s), d)
  {
    KidsAreSiblings(list, s);
    if Below(list, s, d) && d != s {
      BelowAChild(list, s, d);
    }
    if BelowAny(list, KidsOf(list, s), d) {
      var k := BelowWhich(list, KidsOf(list, s), d);
      AtMostLonger(Path(list, s), k, Path(list, d));
    }
  }

  lemma AtMostLonger<T>(start: seq<T>, k: T, path: seq<T>)
    requires start + [k] <= path
    ensures start <= path
  {
  }

  lemma BelowComesAfter(list: seq<Session>, s: nat, d: nat)
    requires s < |list| && Rooted(list, s) && Below(list, s, d) && d != s
    ensures ChainBefore(list, Path(list, s), Path(list, d))
  {
    var start, path := Path(list, s), Path(list, d);
    var rest := path[|start|..];
    assert path == start + rest && start == start + [];
    assert path[|path| - 1] != start[|start| - 1];
    ChainBeforeBelow(list, start, [], rest);
  }

  /** A chain that goes through a sibling, split there. */
  lemma ChainThrough(start: seq<nat>, k: nat, path: seq<nat>)
    requires start + [k] <= path
    ensures |start| < |path| && path == start + path[|start|..] && path[|start|..][0] == k
  {
    assert path[|start|] == (start + [k])[|start|];
  }

  /** Chains that part at two siblings are in the siblings' order. */
  lemma SiblingsKeepApart(list: seq<Session>, start: seq<nat>, j: nat, k: nat, p: seq<nat>, q: seq<nat>)
    requires Within(list, p) && Within(list, q) && j < |list| && k < |list|
    requires start + [j] <= p && start + [k] <= q && j != k && Before(list, j, k)
    ensures ChainBefore(list, p, q)
  {
    ChainThrough(start, j, p);
    ChainThrough(start, k, q);
    ChainBeforeBelow(list, start, p[|start|..], q[|start|..]);
  }

  /** What flattening a session gives: itself and everything below it, in preorder, if none of them was seen. */
  ghost predicate FlatOf(list: seq<Session>, s: nat, seen: set<nat>, f: Flat)
    requires s < |list| && Rooted(list, s)
  {
    && Preorder(list, f.items)
    && (forall d: nat :: Holds(f.items, d) <==> Below(list, s, d))
    && (forall d: nat :: d in f.seen <==> d in seen || Below(list, s, d))
  }

  ghost predicate FlatOfAll(list: seq<Session>, ks: seq<nat>, seen: set<nat>, f: Flat)
    requires Within(list, ks) && forall k :: k in ks ==> Rooted(list, k)
  {
    && Preorder(list, f.items)
    && (forall d: nat :: Holds(f.items, d) <==> BelowAny(list, ks, d))
    && (forall d: nat :: d in f.seen <==> d in seen || BelowAny(list, ks, d))
  }

  lemma HoldsBoth(a: seq<Item>, b: seq<Item>)
    ensures forall d: nat :: Holds(a + b, d) <==> Holds(a, d) || Holds(b, d)
  {
    forall d: nat ensures Holds(a + b, d) <==> Holds(a, d) || Holds(b, d) {
      if Holds(a, d) {
        var i :| 0 <= i < |a| && a[i].s == d;
        assert (a + b)[i].s == d;
      }
      if Holds(b, d) {
        var i :| 0 <= i < |b| && b[i].s == d;
        assert (a + b)[|a| + i].s == d;
      }
    }
  }

  /** Two sessions whose chains end, the first before the second in preorder. */
  ghost predicate ComesBefore(list: seq<Session>, c: nat, d: nat) {
    c < |list| && d < |list| && Rooted(list, c) && Rooted(list, d) && ChainBefore(list, Path(list, c), Path(list, d))
  }

  /** All of some items come before all of others. */
  ghost predicate AllBefore(list: seq<Session>, a: seq<Item>, b: seq<Item>) {
    forall c: nat, d: nat :: Holds(a, c) && Holds(b, d) ==> ComesBefore(list, c, d)
  }

  lemma ItselfThenBelow(list: seq<Session>, s: nat, sub: bool, seen: set<nat>, below: Flat)
    requires s < |list| && Rooted(list, s)
    requires Siblings(list, Path(list, s), KidsOf(list, s)) && FlatOfAll(list, KidsOf(list, s), seen + {s}, below)
    ensures FlatOf(list, s, seen, Flat([Item(s, sub)] + below.items, below.seen))
  {
    var one := [Item(s, sub)];
    forall d: nat ensures Below(list, s, d) <==> d == s || BelowAny(list, KidsOf(list, s), d) {
      BelowIsItselfOrAChilds(list, s, d);
    }
    HoldsBoth(one, below.items);
    assert forall d: nat :: Holds(one, d) <==> d == s by {
      assert one[0].s == s;
    }
    forall c: nat, d: nat | Holds(one, c) && Holds(below.items, d)
      ensures ComesBefore(list, c, d)
    {
      assert c == s && Below(list, s, d);
      BelowOther(list, s, d);
      BelowComesAfter(list, s, d);
    }
    PreorderBoth(list, one, below.items);
  }

  /** What is below a session's children is not the session. */
  lemma BelowOther(list: seq<Session>, s: nat, d: nat)
    requires s < |list| && Rooted(list, s)
    requires Siblings(list, Path(list, s), KidsOf(list, s)) && BelowAny(list, KidsOf(list, s), d)
    ensures d != s
  {
    var k := BelowWhich(list, KidsOf(list, s), d);
    assert |Path(list, s) + [k]| <= |Path(list, d)|;
  }

  lemma PreorderBoth(list: seq<Session>, a: seq<Item>, b: seq<Item>)
    requires Preorder(list, a) && Preorder(list, b) && AllBefore(list, a, b)
    ensures Preorder(list, a + b)
  {
    forall i, j | 0 <= i < |a| && 0 <= j < |b| ensures ComesBefore(list, a[i].s, b[j].s) {
      assert Holds(a, a[i].s) && Holds(b, b[j].s);
    }
  }

  lemma {:induction false} FlattenIs(list: seq<Session>, s: nat, sub: bool, seen: set<nat>)
    requires s < |list| && seen <= Indices(list) && Rooted(list, s)
    requires forall d :: d in seen ==> !Below(list, s, d)
    ensures FlatOf(list, s, seen, Flatten(list, s, sub, seen))
    decreases |Indices(list) - seen|, 0
  {
    var ks := KidsOf(list, s);
    assert Below(list, s, s) && s !in seen;
    KidsAreSiblings(list, s);
    forall d | d in seen ensures !BelowAny(list, ks, d) {
      BelowIsItselfOrAChilds(list, s, d);
    }
    Fewer(Indices(list) - (seen + {s}), Indices(list) - seen);
    FlattenAllIs(list, Path(list, s), ks, true, seen + {s});
    ItselfThenBelow(list, s, sub, seen, FlattenAll(list, ks, true, seen + {s}));
  }

  lemma BelowFirstOrMore(list: seq<Session>, start: seq<nat>, ks: seq<nat>, d: nat)
    requires ks != [] && Siblings(list, start, ks)
    ensures Siblings(list, start, ks[1..]) && ks[0] in ks
    ensures BelowAny(list, ks, d) <==> Below(list, ks[0], d) || BelowAny(list, ks[1..], d)
    ensures !(Below(list, ks[0], d) && BelowAny(list, ks[1..], d))
  {
    assert ks == [ks[0]] + ks[1..];
    forall k | k in ks[1..] && Below(list, k, d) ensures !Below(list, ks[0], d) {
      var i :| 0 <= i < |ks[1..]| && ks[1..][i] == k;
      assert ks[i + 1] == k && Before(list, ks[0], k);
      if Below(list, ks[0], d) {
        BelowOneSibling(list, start, ks, ks[0], k, d);
        assert false;
      }
    }
  }

  lemma FirstBeforeMore(list: seq<Session>, start: seq<nat>, ks: seq<nat>, seen: set<nat>, first: Flat, rest: Flat)
    requires ks != [] && Siblings(list, start, ks)
    requires FlatOf(list, ks[0], seen, first) && Siblings(list, start, ks[1..])
             && FlatOfAll(list, ks[1..], first.seen, rest)
    ensures AllBefore(list, first.items, rest.items)
  {
    forall c: nat, d: nat | Holds(first.items, c) && Holds(rest.items, d)
      ensures ComesBefore(list, c, d)
    {
      OneBeforeMore(list, start, ks, c, d);
    }
  }

  lemma OneBeforeMore(list: seq<Session>, start: seq<nat>, ks: seq<nat>, c: nat, d: nat)
    requires ks != [] && Siblings(list, start, ks) && Siblings(list, start, ks[1..])
    requires Below(list, ks[0], c) && BelowAny(list, ks[1..], d)
    ensures ComesBefore(list, c, d)
  {
    var k := BelowWhich(list, ks[1..], d);
    FirstIsBefore(list, ks, k);
    SiblingsKeepApart(list, start, ks[0], k, Path(list, c), Path(list, d));
  }

  lemma FirstIsBefore(list: seq<Session>, ks: seq<nat>, k: nat)
    requires ks != [] && Within(list, ks) && InOrder(list, ks) && k in ks[1..]
    ensures k in ks && ks[0] != k && Before(list, ks[0], k)
  {
    var i :| 0 <= i < |ks[1..]| && ks[1..][i] == k;
    assert ks[i + 1] == k;
  }

  lemma BelowWhich(list: seq<Session>, ks: seq<nat>, d: nat) returns (k: nat)
    requires Within(list, ks) && (forall k :: k in ks ==> Rooted(list, k)) && BelowAny(list, ks, d)
    ensures k in ks && Below(list, k, d)
  {
    k :| k in ks && Below(list, k, d);
  }

  lemma FirstThenMore(list: seq<Session>, start: seq<nat>, ks: seq<nat>, seen: set<nat>, first: Flat, rest: Flat)
    requires ks != [] && Siblings(list, start, ks)
    requires FlatOf(list, ks[0], seen, first) && Siblings(list, start, ks[1..])
             && FlatOfAll(list, ks[1..], first.seen, rest)
    ensures FlatOfAll(list, ks, seen, Flat(first.items + rest.items, rest.seen))
  {
    FirstBeforeMore(list, start, ks, seen, first, rest);
    PreorderBoth(list, first.items, rest.items);
    HoldsBoth(first.items, rest.items);
    forall d: nat
      ensures BelowAny(list, ks, d) <==> Below(list, ks[0], d) || BelowAny(list, ks[1..], d)
    {
      BelowFirstOrMore(list, start, ks, d);
    }
  }

  lemma {:induction false} FlattenAllIs(list: seq<Session>, start: seq<nat>, ks: seq<nat>, sub: bool, seen: set<nat>)
    requires Siblings(list, start, ks) && seen <= Indices(list)
    requires forall d :: d in seen ==> !BelowAny(list, ks, d)
    ensures FlatOfAll(list, ks, seen, FlattenAll(list, ks, sub, seen))
    decreases |Indices(list) - seen|, |ks| + 1
  {
    if ks != [] {
      forall d: nat
        ensures Siblings(list, start, ks[1..]) && ks[0] in ks
        ensures BelowAny(list, ks, d) <==> Below(list, ks[0], d) || BelowAny(list, ks[1..], d)
        ensures !(Below(list, ks[0], d) && BelowAny(list, ks[1..], d))
      {
        BelowFirstOrMore(list, start, ks, d);
      }
      BelowFirstOrMore(list, start, ks, 0);
      FlattenIs(list, ks[0], sub, seen);
      var first := Flatten(list, ks[0], sub, seen);
      Subset(Indices(list) - first.seen, Indices(list) - seen);
      FlattenAllIs(list, start, ks[1..], sub, first.seen);
      FirstThenMore(list, start, ks, seen, first, FlattenAll(list, ks[1..], sub, first.seen));
    }
  }

  /** The items drawn as sub-sessions are the ones with a parent. */
  predicate SubsHaveParents(list: seq<Session>, items: seq<Item>) {
    forall i :: 0 <= i < |items| ==> items[i].s < |list| && (items[i].sub <==> ParentOf(list, items[i].s).Some?)
  }

  lemma {:induction false} FlattenMarksSubs(list: seq<Session>, s: nat, sub: bool, seen: set<nat>)
    requires s < |list| && seen <= Indices(list) && (sub <==> ParentOf(list, s).Some?)
    ensures SubsHaveParents(list, Flatten(list, s, sub, seen).items)
    decreases |Indices(list) - seen|, 0
  {
    if s !in seen {
      Fewer(Indices(list) - (seen + {s}), Indices(list) - seen);
      assert forall k :: k in KidsOf(list, s) ==> ParentOf(list, k) == Some(s);
      FlattenAllMarksSubs(list, KidsOf(list, s), true, seen + {s});
    }
  }

  lemma {:induction false} FlattenAllMarksSubs(list: seq<Session>, ks: seq<nat>, sub: bool, seen: set<nat>)
    requires Within(list, ks) && seen <= Indices(list) && forall k :: k in ks ==> (sub <==> ParentOf(list, k).Some?)
    ensures SubsHaveParents(list, FlattenAll(list, ks, sub, seen).items)
    decreases |Indices(list) - seen|, |ks| + 1
  {
    if ks != [] {
      FlattenMarksSubs(list, ks[0], sub, seen);
      var first := Flatten(list, ks[0], sub, seen);
      Subset(Indices(list) - first.seen, Indices(list) - seen);
      FlattenAllMarksSubs(list, ks[1..], sub, first.seen);
    }
  }
}
