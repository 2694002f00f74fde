/**
 Merging the embedded default configuration into a loaded one: the recursive in-place merge over Go maps, and
 the merge of trees it computes.
 */
module ConfigMerge {
  import opened Wrappers

  // ---------- Configuration trees ----------

  /** A decoded value: a map, or anything else (scalars and lists alike). */
  datatype Value = Leaf(text: string) | Branch(entries: map<string, Value>)

  /** The right value wins, except that two maps are merged key by key. */
  function Merge(l: Value, r: Value): Value
    decreases l
  {
    if l.Branch? && r.Branch? then
      Branch(map k | k in l.entries.Keys + r.entries.Keys ::
        if k !in r.entries then l.entries[k]
        else if k in l.entries then Merge(l.entries[k], r.entries[k])
        else r.entries[k])
    else r
  }

  // ---------- What the merge holds at every path ----------

  /** The value at a path of keys, if every key on the way is there. */
  function At(v: Value, path: seq<string>): Option<Value> {
    if path == [] then Some(v)
    else if v.Branch? && path[0] in v.entries then At(v.entries[path[0]], path[1..])
    else None
  }

  /** A path leads where its front part does, and on from there by the rest, one key of a map at a time. */
  lemma {:induction false} AtConcat(v: Value, p: seq<string>, q: seq<string>, key: string)
    ensures At(v, p + q) == if At(v, p).Some? then At(At(v, p).value, q) else None
    ensures At(v, []) == Some(v)
    ensures v.Branch? ==> At(v, [key]) == if key in v.entries then Some(v.entries[key]) else None
    ensures v.Leaf? ==> At(v, [key]) == None
  {
    if p == [] {
      assert p + q == q;
    } else if v.Branch? && p[0] in v.entries {
      AtConcat(v.entries[p[0]], p[1..], q, key);
      assert (p + q)[1..] == p[1..] + q;
    }
  }

  /** Somewhere strictly above the end of the path there is a value that is not a map. */
  predicate LeafAbove(v: Value, path: seq<string>) {
    path != [] && (v.Leaf? || (path[0] in v.entries && LeafAbove(v.entries[path[0]], path[1..])))
  }

  lemma {:induction false} LeafAboveMeans(v: Value, path: seq<string>)
    ensures LeafAbove(v, path) <==>
            exists n :: 0 <= n < |path| && At(v, path[..n]).Some? && At(v, path[..n]).value.Leaf?
  {
    if path != [] && v.Branch? {
      forall n | 1 <= n <= |path|
        ensures At(v, path[..n]) == if path[0] in v.entries then At(v.entries[path[0]], path[1..][..n - 1]) else None
      {
        assert path[..n][1..] == path[1..][..n - 1];
      }
      if path[0] in v.entries {
        var w, rest := v.entries[path[0]], path[1..];
        LeafAboveMeans(w, rest);
        if n :| 0 <= n < |rest| && At(w, rest[..n]).Some? && At(w, rest[..n]).value.Leaf? {
          assert At(v, path[..n + 1]) == At(w, rest[..n]);
        }
      }
    } else if path != [] {
      assert At(v, path[..0]) == Some(v);
    }
  }

  /**
   Path semantics. Where the right tree has a value, it stays, with the left value at that path merged under it;
   where it has none, the left value is seen exactly when no non-map of the right tree is in the way.
   */
  lemma {:induction false} MergeAt(l: Value, r: Value, path: seq<string>)
    ensures At(Merge(l, r), path) ==
            if At(r, path).Some? then
              Some(if At(l, path).Some? then Merge(At(l, path).value, At(r, path).value) else At(r, path).value)
            else if LeafAbove(r, path) then None
            else At(l, path)
  {
    if path != [] && l.Branch? && r.Branch? && path[0] in l.entries && path[0] in r.entries {
      MergeAt(l.entries[path[0]], r.entries[path[0]], path[1..]);
    }
  }

  /** A setting of the right tree is never changed by the merge. */
  lemma RightWins(l: Value, r: Value, path: seq<string>)
    requires At(r, path).Some? && At(r, path).value.Leaf?
    ensures At(Merge(l, r), path) == At(r, path)
  {
    MergeAt(l, r, path);
  }

  /** A setting of the left tree shows exactly where the right tree has neither a value nor a non-map above it. */
  lemma LeftFills(l: Value, r: Value, path: seq<string>)
    requires At(l, path).Some? && At(l, path).value.Leaf? && At(Merge(l, r), path) != At(r, path)
    ensures At(r, path) == None && !LeafAbove(r, path) && At(Merge(l, r), path) == At(l, path)
  {
    MergeAt(l, r, path);
  }

  // ---------- Algebra ----------

  /** Merging the same left tree again changes nothing. */
  lemma {:induction false} MergeAgain(l: Value, r: Value)
    ensures Merge(l, Merge(l, r)) == Merge(l, r)
    decreases l
  {
    if l.Branch? && r.Branch? {
      var m := Merge(l, r);
      forall k | k in l.entries
        ensures Merge(l.entries[k], m.entries[k]) == m.entries[k]
      {
        if k in r.entries {
          MergeAgain(l.entries[k], r.entries[k]);
        } else {
          MergeWithSelf(l.entries[k]);
        }
      }
      assert Merge(l, m).entries == m.entries;
    }
  }

  lemma {:induction false} MergeWithSelf(v: Value)
    ensures Merge(v, v) == v
  {
    if v.Branch? {
      forall k | k in v.entries
        ensures Merge(v.entries[k], v.entries[k]) == v.entries[k]
      {
        MergeWithSelf(v.entries[k]);
      }
      assert Merge(v, v).entries == v.entries;
    }
  }

  /** Every key of `a` on the maps the two share is already in `c`. */
  predicate AddsNothing(a: Value, c: Value)
    decreases a
  {
    a.Branch? && c.Branch? ==> forall k :: k in a.entries ==> k in c.entries && AddsNothing(a.entries[k], c.entries[k])
  }

  lemma {:induction false} MergeIsNoOp(a: Value, c: Value)
    ensures Merge(a, c) == c <==> AddsNothing(a, c)
    decreases a
  {
    if a.Branch? && c.Branch? {
      var m := Merge(a, c);
      forall k | k in a.entries && k in c.entries
        ensures m.entries[k] == c.entries[k] <==> AddsNothing(a.entries[k], c.entries[k])
      {
        MergeIsNoOp(a.entries[k], c.entries[k]);
      }
      if AddsNothing(a, c) {
        assert m.entries == c.entries;
      } else {
        var k :| k in a.entries && !(k in c.entries && AddsNothing(a.entries[k], c.entries[k]));
        assert k in m.entries;
      }
    }
  }

  /** What was merged in is there: merging it again adds nothing. */
  lemma MergedAddsNothing(l: Value, r: Value)
    ensures AddsNothing(l, Merge(l, r))
  {
    MergeAgain(l, r);
    MergeIsNoOp(l, Merge(l, r));
  }

  /** Nowhere is a non-map of `b` between maps of `a` and `c` to which `a` would add a key. */
  predicate NothingHidden(a: Value, b: Value, c: Value)
    decreases a
  {
    if b.Leaf? then AddsNothing(a, c)
    else a.Branch? && c.Branch? ==>
      forall k :: k in a.entries && k in b.entries && k in c.entries ==>
        NothingHidden(a.entries[k], b.entries[k], c.entries[k])
  }

  /** Three-way merging is associative exactly when the middle tree hides nothing of the left from the right. */
  lemma {:induction false} MergeAssociates(a: Value, b: Value, c: Value)
    ensures Merge(a, Merge(b, c)) == Merge(Merge(a, b), c) <==> NothingHidden(a, b, c)
    decreases a
  {
    if b.Leaf? {
      MergeIsNoOp(a, c);
    } else if a.Branch? && c.Branch? {
      var x, y := Merge(a, Merge(b, c)), Merge(Merge(a, b), c);
      assert x.entries.Keys == y.entries.Keys;
      forall k | k in x.entries
        ensures x.entries[k] == y.entries[k] <==>
                (k in a.entries && k in b.entries && k in c.entries ==>
                   NothingHidden(a.entries[k], b.entries[k], c.entries[k]))
      {
        if k in a.entries && k in b.entries && k in c.entries {
          MergeAssociates(a.entries[k], b.entries[k], c.entries[k]);
        }
      }
      if NothingHidden(a, b, c) {
        assert x.entries == y.entries;
      } else {
        var k :| k in a.entries && k in b.entries && k in c.entries
                 && !NothingHidden(a.entries[k], b.entries[k], c.entries[k]);
        assert x.entries[k] != y.entries[k];
      }
    }
  }

  /** No path is a map in one tree and something else in the other. */
  predicate SameKinds(a: Value, b: Value)
    decreases a
  {
    a.Branch? == b.Branch?
    && (a.Branch? ==> forall k :: k in a.entries && k in b.entries ==> SameKinds(a.entries[k], b.entries[k]))
  }

  lemma {:induction false} SameKindsHideNothing(a: Value, b: Value, c: Value)
    requires SameKinds(a, b) && SameKinds(b, c) && SameKinds(a, c)
    ensures NothingHidden(a, b, c)
    decreases a
  {
    if a.Branch? {
      forall k | k in a.entries && k in b.entries && k in c.entries
        ensures NothingHidden(a.entries[k], b.entries[k], c.entries[k])
      {
        SameKindsHideNothing(a.entries[k], b.entries[k], c.entries[k]);
      }
    }
  }

  // ---------- The in-place merge ----------

  /** What a Go map of type `map[string]interface{}` holds under a key: a nested map by reference, or anything else. */
  datatype Entry = Scalar(text: string) | Sub(child: GoMap)

  class GoMap {
    var entries: map<string, Entry>
    /** The tree this map stands for. */
    ghost var tree: map<string, Value>
    /** This map and all maps nested in it. */
    ghost var Repr: set<GoMap>

    /** The map is the root of a tree of maps: nothing is shared and nothing is its own descendant. */
    ghost predicate Valid()
      reads this, Repr
      ensures Valid() ==> this in Repr
      decreases Repr
    {
      && this in Repr
      && tree.Keys == entries.Keys
      && (forall k :: k in entries ==> Holds(entries[k], tree[k]))
      && (forall j, k :: j in entries && k in entries && j != k ==> Footprint(entries[j]) !! Footprint(entries[k]))
    }

    /** An entry of this map stands for a value. */
    ghost predicate Holds(e: Entry, v: Value)
      requires this in Repr
      reads this, Repr
      decreases Repr, e
    {
      match e
      case Scalar(text) => v == Leaf(text)
      case Sub(child) =>
        child in Repr && child.Repr <= Repr && this !in child.Repr && child.Valid() && v == Branch(child.tree)
    }
  }

  ghost function Footprint(e: Entry): set<GoMap>
    reads if e.Sub? then {e.child} else {}
  {
    if e.Sub? then e.child.Repr else {}
  }

  // ---------- Which maps each entry is made of ----------

  type Prints = map<string, set<GoMap>>

  ghost predicate Within(m: GoMap)
    reads m
  {
    forall k :: k in m.entries && m.entries[k].Sub? ==> m.entries[k].child in m.Repr
  }

  /** The maps each entry is made of. */
  ghost function PrintsOf(m: GoMap): Prints
    requires Within(m)
    reads m, m.Repr
  {
    map k | k in m.entries :: Footprint(m.entries[k])
  }

  /** The entries do not share any maps, and are made of these maps. */
  ghost predicate Apart(prints: Prints, within: set<GoMap>) {
    && (forall i, j :: i in prints && j in prints && i != j ==> prints[i] !! prints[j])
    && (forall j :: j in prints ==> prints[j] <= within)
  }

  /** All entries but the one under `k` stand for their values. */
  ghost predicate OthersHold(right: GoMap, k: string)
    reads right, right.Repr
  {
    && right in right.Repr && right.tree.Keys == right.entries.Keys
    && forall j :: j in right.entries && j != k ==> right.Holds(right.entries[j], right.tree[j])
  }

  lemma ValidApart(m: GoMap)
    requires m.Valid()
    ensures m in m.Repr && m.tree.Keys == m.entries.Keys && Within(m)
    ensures PrintsOf(m).Keys == m.entries.Keys && Apart(PrintsOf(m), m.Repr)
    ensures forall j :: j in m.entries ==> PrintsOf(m)[j] == Footprint(m.entries[j])
  {
    forall j | j in m.entries
      ensures m.entries[j].Sub? ==> m.entries[j].child in m.Repr
      ensures Footprint(m.entries[j]) <= m.Repr
    {
      assert m.Holds(m.entries[j], m.tree[j]);
    }
  }

  lemma Opened(right: GoMap, k: string)
    requires right.Valid() && k in right.entries && right.entries[k].Sub?
    ensures OthersHold(right, k)
    ensures var v := right.entries[k].child;
            && v.Valid() && v in v.Repr && v.Repr <= right.Repr && right !in v.Repr
            && k in right.tree && right.tree[k] == Branch(v.tree)
  {
    assert right.Holds(right.entries[k], right.tree[k]);
  }

  /** One entry is new or has changed; what it is made of now comes from its old maps and from outside. */
  lemma ApartStill(prints: Prints, within: set<GoMap>, k: string, after: Prints, grown: set<GoMap>)
    requires Apart(prints, within) && grown !! within && after.Keys == prints.Keys + {k}
    requires after[k] <= (if k in prints then prints[k] else {}) + grown
    requires forall j :: j in prints && j != k ==> after[j] == prints[j]
    ensures Apart(after, within + grown)
  {
    forall i, j | i in after && j in after && i != j
      ensures after[i] !! after[j]
    {
      assert i in prints ==> prints[i] <= within;
      assert j in prints ==> prints[j] <= within;
      assert i in prints && j in prints ==> prints[i] !! prints[j];
    }
  }

  /** A map whose entries stand for their values and share nothing is valid. */
  lemma ApartValid(m: GoMap)
    requires m in m.Repr && m.tree.Keys == m.entries.Keys
    requires forall j :: j in m.entries ==> m.Holds(m.entries[j], m.tree[j])
    requires Within(m) && Apart(PrintsOf(m), m.Repr)
    ensures m.Valid()
  {
    forall i, j | i in m.entries && j in m.entries && i != j
      ensures Footprint(m.entries[i]) !! Footprint(m.entries[j])
    {
      assert PrintsOf(m)[i] !! PrintsOf(m)[j];
    }
  }

  // ---------- The merge of one key ----------

  /** Stores an entry under a new key; what the other entries stand for is not touched. */
  method Store(right: GoMap, k: string, e: Entry, ghost v: Value)
    requires right.Valid() && k !in right.entries
    requires e.Sub? ==> e.child in e.child.Repr && e.child !in right.Repr && right !in e.child.Repr
    modifies right
    ensures right.entries == old(right.entries)[k := e] && right.tree == old(right.tree)[k := v]
    ensures right.Repr == old(right.Repr) + old(Footprint(e)) && Footprint(e) == old(Footprint(e))
    ensures OthersHold(right, k) && Within(right) && old(Within(right))
    ensures PrintsOf(right).Keys == old(PrintsOf(right)).Keys + {k} && PrintsOf(right)[k] == Footprint(e)
    ensures forall j :: j in old(PrintsOf(right)) ==> PrintsOf(right)[j] == old(PrintsOf(right))[j]
  {
    ValidApart(right);
    assert OthersHold(right, k);
    hide GoMap.Valid, Apart;
    right.entries, right.tree, right.Repr := right.entries[k := e], right.tree[k := v], right.Repr + Footprint(e);
    forall j | j in old(right.entries)
      ensures right.Holds(right.entries[j], right.tree[j])
      ensures Footprint(right.entries[j]) == old(Footprint(right.entries[j]))
    {
      assert old(right.Holds(right.entries[j], right.tree[j]));
    }
  }

  /** The entry may be stored in a map whose Repr has its footprint. */
  lemma EntryHolds(right: GoMap, e: Entry, v: Value)
    requires right in right.Repr && Footprint(e) <= right.Repr && right !in Footprint(e)
    requires match e
             case Scalar(text) => v == Leaf(text)
             case Sub(child) => child.Valid() && v == Branch(child.tree)
    ensures right.Holds(e, v) && (e.Sub? ==> e.child in right.Repr)
  {
  }

  /** A missing key: the left entry is stored as it is, so a nested map is from now on shared with the left map. */
  method Adopt(right: GoMap, k: string, e: Entry, ghost v: Value)
    requires right.Valid() && k !in right.entries
    requires match e
             case Scalar(text) => v == Leaf(text)
             case Sub(child) => child.Valid() && child.Repr !! right.Repr && v == Branch(child.tree)
    modifies right
    ensures right.Valid()
    ensures right.entries == old(right.entries)[k := e]
    ensures right.tree == old(right.tree)[k := v]
    ensures right.Repr == old(right.Repr) + Footprint(e)
    ensures Within(right) && old(Within(right)) && PrintsOf(right).Keys == old(PrintsOf(right)).Keys + {k}
    ensures forall j :: j in old(PrintsOf(right)) ==> PrintsOf(right)[j] == old(PrintsOf(right))[j]
  {
    ValidApart(right);
    assert e.Sub? ==> e.child in e.child.Repr;
    hide GoMap.Valid, Apart, OthersHold, Within, PrintsOf;
    ghost var prints, within := PrintsOf(right), right.Repr;
    Store(right, k, e, v);
    EntryHolds(right, e, v);
    ApartStill(prints, within, k, PrintsOf(right), Footprint(e));
    OthersAndOne(right, k);
  }

  lemma OthersAndOne(m: GoMap, k: string)
    requires OthersHold(m, k) && k in m.entries && m.Holds(m.entries[k], m.tree[k])
    requires Within(m) && Apart(PrintsOf(m), m.Repr)
    ensures m.Valid()
  {
    ApartValid(m);
  }

  /** Ghost bookkeeping: the map under `k` has changed on its own and is now made of some of `grown` as well. */
  ghost method Regrow(right: GoMap, k: string, v: GoMap, grown: set<GoMap>)
    requires OthersHold(right, k) && k in right.entries && right.entries[k] == Sub(v)
    requires v.Valid() && v.Repr <= right.Repr + grown && v in right.Repr && right !in v.Repr
    requires Within(right) && Apart(PrintsOf(right), right.Repr + grown)
    modifies right`tree, right`Repr
    ensures right.Valid() && right.Repr == old(right.Repr) + grown
    ensures right.tree == old(right.tree)[k := Branch(v.tree)]
    ensures Within(right) && PrintsOf(right) == old(PrintsOf(right))
  {
    hide GoMap.Valid, Apart;
    right.tree := right.tree[k := Branch(v.tree)];
    right.Repr := right.Repr + grown;
    forall j | j in right.entries && j != k
      ensures right.Holds(right.entries[j], right.tree[j])
    {
      assert old(right.Holds(right.entries[j], right.tree[j]));
    }
    assert right.Holds(right.entries[k], right.tree[k]);
    assert PrintsOf(right) == old(PrintsOf(right));
    ApartValid(right);
  }

  /** The recursive call: the map under `k` is merged into, and what the other entries stand for is not touched. */
  method MergeChild(leftValueMap: GoMap, right: GoMap, k: string, ghost quiet: bool)
    requires leftValueMap.Valid() && right.Valid() && k in right.entries && right.entries[k].Sub?
    requires if quiet then AddsNothing(Branch(leftValueMap.tree), right.tree[k]) else leftValueMap.Repr !! right.Repr
    modifies if quiet then {} else right.entries[k].child.Repr
    ensures unchanged(right) && Within(right) && old(Within(right))
    ensures var v := right.entries[k].child;
            && v.Valid() && v.Repr <= old(v.Repr) + leftValueMap.Repr
            && Branch(v.tree) == Merge(Branch(leftValueMap.tree), old(right.tree[k]))
    ensures OthersHold(right, k) && PrintsOf(right).Keys == old(PrintsOf(right)).Keys
    ensures forall j :: j in PrintsOf(right) && j != k ==> PrintsOf(right)[j] == old(PrintsOf(right))[j]
    decreases leftValueMap.Repr, 1, 0
  {
    var v := right.entries[k].child;
    ValidApart(right);
    Opened(right, k);
    assert forall j :: j in right.entries && j != k ==> Footprint(right.entries[j]) !! v.Repr;
    hide GoMap.Valid, Apart, Merge, AddsNothing;
    ConfigMapMerge(leftValueMap, v);
    forall j | j in right.entries && j != k
      ensures right.Holds(right.entries[j], right.tree[j])
      ensures Footprint(right.entries[j]) == old(Footprint(right.entries[j]))
    {
      assert old(right.Holds(right.entries[j], right.tree[j]));
    }
  }

  /** A key with maps on both sides: the right one is merged into, in place, unless there is nothing to add. */
  method MergeUnder(leftValueMap: GoMap, right: GoMap, k: string, ghost quiet: bool)
    requires leftValueMap.Valid() && right.Valid() && k in right.entries && right.entries[k].Sub?
    requires if quiet then AddsNothing(Branch(leftValueMap.tree), right.tree[k]) else leftValueMap.Repr !! right.Repr
    modifies if quiet then {} else {right} + right.entries[k].child.Repr
    ensures right.Valid() && right.entries == old(right.entries) && Within(right) && old(Within(right))
    ensures !quiet ==> right.tree == old(right.tree)[k := Merge(Branch(leftValueMap.tree), old(right.tree)[k])]
    ensures !quiet ==> right.Repr == old(right.Repr) + leftValueMap.Repr
    ensures PrintsOf(right).Keys == old(PrintsOf(right)).Keys
    ensures forall j :: j in PrintsOf(right) && j != k ==> PrintsOf(right)[j] == old(PrintsOf(right))[j]
    decreases leftValueMap.Repr, 1, 1
  {
    ValidApart(right);
    Opened(right, k);
    ghost var prints, within := PrintsOf(right), right.Repr;
    assert prints[k] == right.entries[k].child.Repr;
    hide GoMap.Valid, OthersHold, Apart, Merge, AddsNothing;
    MergeChild(leftValueMap, right, k, quiet);
    if !quiet {
      ApartStill(prints, within, k, PrintsOf(right), leftValueMap.Repr);
      Regrow(right, k, right.entries[k].child, leftValueMap.Repr);
    }
  }

  // ---------- The loop ----------

  /** What the merge holds at a key of the left map. */
  ghost function MergedAt(l: map<string, Value>, r: map<string, Value>, k: string): Value
    requires k in l
  {
    if k !in r then l[k] else Merge(l[k], r[k])
  }

  /**
   While the keys in `todo` are still to be visited, `home` being the maps the right side was made of when the merge
   began: the left entries to come are not yet part of the right map, and what the right map has under those keys is
   still its own.
   */
  ghost predicate Separate(lefts: Prints, left: set<GoMap>, rights: Prints, right: set<GoMap>, todo: set<string>,
                           home: set<GoMap>) {
    && Apart(lefts, left) && todo <= lefts.Keys && left !! home && right <= home + left
    && (forall k :: k in todo ==> lefts[k] !! right)
    && (forall k :: k in todo && k in rights ==> rights[k] <= home)
  }

  /** One key done: the right map may now be made of what the left one has there as well. */
  lemma SeparateStep(lefts: Prints, left: set<GoMap>, rights: Prints, right: set<GoMap>, todo: set<string>,
                     home: set<GoMap>, k: string, rights': Prints, right': set<GoMap>)
    requires Separate(lefts, left, rights, right, todo, home) && k in todo
    requires right' == right || right' == right + lefts[k]
    requires forall j :: j in rights' && j != k ==> j in rights && rights'[j] == rights[j]
    ensures Separate(lefts, left, rights', right', todo - {k}, home)
  {
    forall j | j in todo && j != k
      ensures lefts[j] !! right'
    {
      assert lefts[j] !! lefts[k];
    }
  }

  ghost predicate Pending(left: GoMap, right: GoMap, todo: set<string>, home: set<GoMap>)
    reads left, left.Repr, right, right.Repr
  {
    && left.Valid() && right.Valid() && Within(left) && Within(right) && right in home
    && Separate(PrintsOf(left), left.Repr, PrintsOf(right), right.Repr, todo, home)
  }

  /** Everything of the left map is there already, perhaps because it was merged before and is now shared. */
  ghost predicate Quiet(left: GoMap, right: GoMap)
    reads left, left.Repr, right, right.Repr
  {
    left.Valid() && right.Valid() && AddsNothing(Branch(left.tree), Branch(right.tree))
  }

  lemma PendingIs(left: GoMap, right: GoMap, todo: set<string>, home: set<GoMap>)
    requires left.Valid() && right.Valid() && Within(left) && Within(right) && right in home
    requires Separate(PrintsOf(left), left.Repr, PrintsOf(right), right.Repr, todo, home)
    ensures Pending(left, right, todo, home)
  {
  }

  /** What the loop relies on, for a key that is still to be visited. */
  lemma PendingOpened(left: GoMap, right: GoMap, todo: set<string>, home: set<GoMap>, k: string)
    requires Pending(left, right, todo, home) && k in todo
    ensures left.Valid() && right.Valid() && Within(left) && Within(right) && right in home && left.Repr !! home
    ensures Separate(PrintsOf(left), left.Repr, PrintsOf(right), right.Repr, todo, home)
    ensures k in left.entries && k in left.tree && k in PrintsOf(left)
    ensures PrintsOf(left)[k] == Footprint(left.entries[k])
    ensures PrintsOf(left)[k] !! right.Repr && left.Holds(left.entries[k], left.tree[k])
    ensures (k in right.tree <==> k in right.entries) && PrintsOf(right).Keys == right.entries.Keys
    ensures k in right.entries ==>
              Footprint(right.entries[k]) <= home && right.Holds(right.entries[k], right.tree[k])
  {
    ValidApart(left);
    ValidApart(right);
  }

  lemma SubHolds(m: GoMap, e: Entry, v: Value)
    requires m in m.Repr && m.Holds(e, v) && e.Sub?
    ensures e.child.Valid() && Footprint(e) == e.child.Repr <= m.Repr && m !in e.child.Repr && v == Branch(e.child.tree)
  {
  }

  /** An entry of the left map may be adopted by the right one. */
  lemma AdoptFits(left: GoMap, right: GoMap, e: Entry, v: Value)
    requires left in left.Repr && left.Holds(e, v) && right in right.Repr
    ensures match e
            case Scalar(text) => v == Leaf(text)
            case Sub(child) => child.Valid() && child.Repr == Footprint(e) && v == Branch(child.tree)
  {
  }

  lemma QuietOpened(left: GoMap, right: GoMap, k: string)
    requires Quiet(left, right) && k in left.entries
    ensures left.Valid() && right.Valid() && k in left.tree && k in right.tree && k in right.entries
    ensures AddsNothing(left.tree[k], right.tree[k])
    ensures left in left.Repr && right in right.Repr
    ensures left.Holds(left.entries[k], left.tree[k]) && right.Holds(right.entries[k], right.tree[k])
  {
  }

  /** A round of the loop whose key the right map does not have. */
  method AdoptKey(left: GoMap, right: GoMap, k: string, ghost todo: set<string>, ghost home: set<GoMap>)
    requires Pending(left, right, todo, home) && k in todo && k !in right.entries
    modifies right
    ensures Pending(left, right, todo - {k}, home)
    ensures k in left.tree && right.tree == old(right.tree)[k := left.tree[k]]
  {
    hide *;
    PendingOpened(left, right, todo, home, k);
    var e := left.entries[k];
    AdoptFits(left, right, e, left.tree[k]);
    ghost var lefts, rights, within := PrintsOf(left), PrintsOf(right), right.Repr;
    Adopt(right, k, e, left.tree[k]);
    SeparateStep(lefts, left.Repr, rights, within, todo, home, k, PrintsOf(right), right.Repr);
    PendingIs(left, right, todo - {k}, home);
  }

  /** A round of the loop whose key holds a map on both sides. */
  method MergeSubmaps(left: GoMap, right: GoMap, k: string, ghost todo: set<string>, ghost home: set<GoMap>,
                      ghost quiet: bool)
    requires if quiet then Quiet(left, right) else Pending(left, right, todo, home) && k in todo
    requires k in left.entries && k in right.entries && left.entries[k].Sub? && right.entries[k].Sub?
    modifies if quiet then {} else home
    ensures !quiet ==> Pending(left, right, todo - {k}, home)
    ensures !quiet ==> k in left.tree && k in old(right.tree)
                       && right.tree == old(right.tree)[k := Merge(left.tree[k], old(right.tree)[k])]
    decreases left.Repr, 0, 0
  {
    hide *;
    if quiet {
      QuietOpened(left, right, k);
    } else {
      PendingOpened(left, right, todo, home, k);
    }
    SubHolds(left, left.entries[k], left.tree[k]);
    SubHolds(right, right.entries[k], right.tree[k]);
    ghost var within := right.Repr;
    MergeUnder(left.entries[k].child, right, k, quiet);
    if !quiet {
      SeparateStep(old(PrintsOf(left)), left.Repr, old(PrintsOf(right)), within, todo, home, k,
                   PrintsOf(right), right.Repr);
      PendingIs(left, right, todo - {k}, home);
    }
  }

  /** One round of the loop. */
  method MergeKey(left: GoMap, right: GoMap, k: string, ghost todo: set<string>, ghost home: set<GoMap>,
                  ghost quiet: bool)
    requires if quiet then Quiet(left, right) && k in left.entries else Pending(left, right, todo, home) && k in todo
    modifies if quiet then {} else home
    ensures !quiet ==> Pending(left, right, todo - {k}, home)
    ensures !quiet ==> k in left.tree && right.tree == old(right.tree)[k := MergedAt(left.tree, old(right.tree), k)]
    decreases left.Repr, 0, 1
  {
    if k !in right.entries {
      AdoptKey(left, right, k, todo, home);
      return;
    }
    assert left.Holds(left.entries[k], left.tree[k]) && right.Holds(right.entries[k], right.tree[k]);
    match right.entries[k]
    case Sub(v) =>
      if left.entries[k].Sub? {
        MergeSubmaps(left, right, k, todo, home, quiet);
      }
    case Scalar(_) =>
      return;
  }

  /** The merge while the keys in `todo` are still to be visited. */
  ghost function MergedSoFar(l: map<string, Value>, r: map<string, Value>, todo: set<string>): map<string, Value> {
    map k | k in r.Keys + (l.Keys - todo) :: if k in l && k !in todo then MergedAt(l, r, k) else r[k]
  }

  lemma MergedStep(l: map<string, Value>, r: map<string, Value>, todo: set<string>, k: string)
    requires k in l && k in todo
    ensures var m := MergedSoFar(l, r, todo); m[k := MergedAt(l, m, k)] == MergedSoFar(l, r, todo - {k})
  {
  }

  lemma MergedNone(l: map<string, Value>, r: map<string, Value>)
    ensures MergedSoFar(l, r, l.Keys) == r
  {
  }

  lemma MergedAll(l: map<string, Value>, r: map<string, Value>)
    ensures Branch(MergedSoFar(l, r, {})) == Merge(Branch(l), Branch(r))
  {
    assert MergedSoFar(l, r, {}) == Merge(Branch(l), Branch(r)).entries;
  }

  lemma QuietStart(left: GoMap, right: GoMap)
    requires left.Valid() && right.Valid() && AddsNothing(Branch(left.tree), Branch(right.tree))
    ensures Quiet(left, right) && Merge(Branch(left.tree), Branch(right.tree)) == Branch(right.tree)
  {
    MergeIsNoOp(Branch(left.tree), Branch(right.tree));
  }

  lemma PendingStart(left: GoMap, right: GoMap)
    requires left.Valid() && right.Valid() && left.Repr !! right.Repr
    ensures Pending(left, right, left.entries.Keys, right.Repr)
    ensures left !in right.Repr
  {
    ValidApart(left);
    ValidApart(right);
  }

  lemma PendingEnd(left: GoMap, right: GoMap, todo: set<string>, home: set<GoMap>)
    requires Pending(left, right, todo, home)
    ensures left.Valid() && right.Valid() && right.Repr <= home + left.Repr
  {
  }

  lemma SameKeys(m: GoMap)
    requires m.Valid()
    ensures m.tree.Keys == m.entries.Keys
  {
  }

  /**
   `configMapMerge`, for separate trees, in whatever order the left map is visited: the right map becomes the merge of
   the two and the left one keeps its value. The two may also share maps, provided the left one adds nothing, as when it
   was merged before; then nothing is written at all.
   */
  method ConfigMapMerge(left: GoMap, right: GoMap)
    requires left.Valid() && right.Valid()
    requires left.Repr !! right.Repr || AddsNothing(Branch(left.tree), Branch(right.tree))
    modifies if AddsNothing(Branch(left.tree), Branch(right.tree)) then {} else right.Repr
    ensures left.Valid() && left.tree == old(left.tree) && left.Repr == old(left.Repr)
    ensures right.Valid()
    ensures Branch(right.tree) == Merge(Branch(left.tree), Branch(old(right.tree)))
    ensures right.Repr <= old(right.Repr) + left.Repr
    ensures old(AddsNothing(Branch(left.tree), Branch(right.tree))) ==>
              forall m :: m in old(right.Repr) ==> unchanged(m)
    decreases left.Repr, 0, 2
  {
    hide *;
    var todo := left.entries.Keys;
    ghost var home := right.Repr;
    ghost var quiet := AddsNothing(Branch(left.tree), Branch(right.tree));
    SameKeys(left);
    MergedNone(left.tree, right.tree);
    if quiet {
      QuietStart(left, right);
    } else {
      PendingStart(left, right);
    }
    while todo != {}
      invariant todo <= left.entries.Keys
      invariant if quiet then Quiet(left, right) else Pending(left, right, todo, home)
      invariant !quiet ==> right.tree == MergedSoFar(left.tree, old(right.tree), todo)
    {
      var k :| k in todo;
      MergedStep(left.tree, old(right.tree), todo, k);
      MergeKey(left, right, k, todo, home, quiet);
      todo := todo - {k};
    }
    MergedAll(left.tree, old(right.tree));
    if !quiet { PendingEnd(left, right, todo, home); }
  }

  /** Merging the same map again, which by then shares its nested maps, writes nothing. */
  method MergeTwice(left: GoMap, right: GoMap)
    requires left.Valid() && right.Valid() && left.Repr !! right.Repr
    modifies right.Repr
    ensures left.Valid() && left.tree == old(left.tree) && right.Valid()
    ensures Branch(right.tree) == Merge(Branch(left.tree), Branch(old(right.tree)))
  {
    ConfigMapMerge(left, right);
    MergedAddsNothing(Branch(left.tree), Branch(old(right.tree)));
    label once:
    ConfigMapMerge(left, right);
    assert forall m :: m in old@once(right.Repr) ==> unchanged@once(m);
  }
}
