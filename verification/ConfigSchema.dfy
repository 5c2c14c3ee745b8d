/** When a plan has no violation, and what its bindings look like (config/plan.go). */
module ConfigSchema {
  import opened Prelude
  import opened ConfigTypes
  import opened ConfigPlan

  // ---- Bindings come out in order ---------------------------------------------------------------

  predicate LexLess(a: Index, b: Index) {
    if b == [] then false
    else if a == [] then true
    else a[0] < b[0] || (a[0] == b[0] && LexLess(a[1..], b[1..]))
  }

  ghost predicate Ordered(items: seq<Item>) {
    forall j, k :: 0 <= j < k < |items| && items[j].Bind? && items[k].Bind? ==>
                     LexLess(items[j].b.index, items[k].b.index)
  }

  predicate Starts(index: Index, lo: nat, hi: nat) { index != [] && lo <= index[0] < hi }

  /** Every binding and block among `items` has its first index within the bounds. */
  ghost predicate StartsWithin(items: seq<Item>, lo: nat, hi: nat) {
    forall k :: 0 <= k < |items| ==>
                  && (items[k].Bind? ==> Starts(items[k].b.index, lo, hi))
                  && (items[k].Group? ==> Starts(items[k].blk.index, lo, hi))
  }

  lemma ShiftKeepsOrder(i: nat, items: seq<Item>)
    requires Ordered(items)
    ensures Ordered(Shift([i], items)) && StartsWithin(Shift([i], items), i, i + 1)
  {
    var s := Shift([i], items);
    forall j, k | 0 <= j < k < |s| && s[j].Bind? && s[k].Bind? ensures LexLess(s[j].b.index, s[k].b.index) {
      assert s[j].b.index[1..] == items[j].b.index && s[k].b.index[1..] == items[k].b.index;
    }
  }

  lemma ConcatKeepsOrder(a: seq<Item>, b: seq<Item>, m: nat, n: nat)
    requires Ordered(a) && Ordered(b) && StartsWithin(a, 0, m) && StartsWithin(b, m, n)
    ensures Ordered(a + b)
  {}

  /** A nested field's items, with or without the block in front. */
  lemma NestedItemsOrdered(i: nat, group: seq<Item>, sub: seq<Item>)
    requires Ordered(sub) && |group| <= 1
    requires forall k :: 0 <= k < |group| ==> group[k].Group? && group[k].blk.index == [i]
    ensures Ordered(group + Shift([i], sub)) && StartsWithin(group + Shift([i], sub), i, i + 1)
  {
    ShiftKeepsOrder(i, sub);
    var all := group + Shift([i], sub);
    assert forall k :: 0 <= k < |sub| ==> all[|group| + k] == Shift([i], sub)[k];
  }

  lemma {:induction false} FieldItemsOrdered(u: Universe, id: nat, i: nat, path: string, prefix: string,
                                             active: seq<nat>)
    requires WellFormed(u) && id < |u| && i < |u[id].fields|
    ensures Ordered(FieldItems(u, id, i, path, prefix, active))
    ensures StartsWithin(FieldItems(u, id, i, path, prefix, active), i, i + 1)
    decreases Free(u, active), |u[id].fields| - i, 0
  {
    var f := u[id].fields[i];
    if Walked(f) && f.env == None && IsNested(f.ty) && f.envPrefix.Some? && Inner(f.ty) !in active {
      InnerExists(u, id, i);
      FreeShrinks(u, active, Inner(f.ty));
      var inner, fp, pre, act := Inner(f.ty), path + "." + f.name, prefix + f.envPrefix.value, active + [Inner(f.ty)];
      ItemsOrdered(u, inner, 0, fp, pre, act);
      NestedItemsOrdered(i, BlockOf(f, i, fp), Items(u, inner, 0, fp, pre, act));
    } else {
      assert |FieldItems(u, id, i, path, prefix, active)| <= 1;
    }
  }

  lemma {:induction false} ItemsOrdered(u: Universe, id: nat, i: nat, path: string, prefix: string, active: seq<nat>)
    requires WellFormed(u) && id < |u| && i <= |u[id].fields|
    ensures Ordered(Items(u, id, i, path, prefix, active))
    ensures StartsWithin(Items(u, id, i, path, prefix, active), i, |u[id].fields|)
    decreases Free(u, active), |u[id].fields| - i, 1
  {
    if i < |u[id].fields| {
      FieldItemsOrdered(u, id, i, path, prefix, active);
      ItemsOrdered(u, id, i + 1, path, prefix, active);
      ConcatKeepsOrder(FieldItems(u, id, i, path, prefix, active), Items(u, id, i + 1, path, prefix, active),
                       i + 1, |u[id].fields|);
    }
  }

  /** Index paths strictly increase and no key occurs twice. */
  ghost predicate InOrder(bs: seq<Binding>) {
    forall j, k :: 0 <= j < k < |bs| ==> LexLess(bs[j].index, bs[k].index) && bs[j].key != bs[k].key
  }

  ghost predicate FromItems(p: Plan, items: seq<Item>) {
    forall k :: 0 <= k < |p.bindings| ==> Bind(p.bindings[k]) in items && p.bindings[k].key in p.seen
  }

  /** The bindings of a plan are items of the walk, in walk order, under pairwise distinct keys. */
  lemma {:induction false} AbsorbedInOrder(items: seq<Item>)
    requires Ordered(items)
    ensures FromItems(AbsorbAll(NO_PLAN, items), items) && InOrder(AbsorbAll(NO_PLAN, items).bindings)
  {
    if items != [] {
      var m := |items| - 1;
      var init, last := items[..m], items[m];
      AbsorbedInOrder(init);
      var q := AbsorbAll(NO_PLAN, init);
      forall k | 0 <= k < |q.bindings|
        ensures Bind(q.bindings[k]) in items && (last.Bind? ==> LexLess(q.bindings[k].index, last.b.index))
      {
        assert Bind(q.bindings[k]) in init;
        var j :| 0 <= j < |init| && init[j] == Bind(q.bindings[k]);
        assert items[j].b == q.bindings[k];
      }
    }
  }

  /** For every type, loadable or not: index paths strictly increase and no key is bound twice. */
  lemma BindingsAreOrderedAndDistinct(u: Universe, root: nat, prefix: string)
    requires WellFormed(u) && root < |u|
    ensures InOrder(PlanOf(u, root, prefix).bindings)
  {
    ItemsOrdered(u, root, 0, u[root].name, prefix, [root]);
    AbsorbedInOrder(Items(u, root, 0, u[root].name, prefix, [root]));
  }

  // ---- What a schema must satisfy -----------------------------------------------------------------

  /** A field reached from the root: with the key prefix and the struct types on the way. */
  datatype Spot = Spot(field: Field, prefix: string, active: seq<nat>)

  /** Follow an index path through nested fields; a cyclic type has paths of every length. */
  function Reach(u: Universe, id: nat, path: Index, prefix: string, active: seq<nat>): Option<Spot>
    requires WellFormed(u) && id < |u|
    decreases |path|
  {
    if path == [] || path[0] >= |u[id].fields| || !Walked(u[id].fields[path[0]]) then None
    else
      var f := u[id].fields[path[0]];
      if |path| == 1 then Some(Spot(f, prefix, active))
      else if IsNested(f.ty) && f.env == None && f.envPrefix.Some? then
        InnerExists(u, id, path[0]);
        Reach(u, Inner(f.ty), path[1..], prefix + f.envPrefix.value, active + [Inner(f.ty)])
      else None
  }

  /** Well tagged and decodable, and not a type that contains itself on its own path. */
  predicate FieldOk(s: Spot) {
    && !(s.field.env.Some? && s.field.envPrefix.Some?)
    && if IsNested(s.field.ty) then s.field.envPrefix.Some? && Inner(s.field.ty) !in s.active
       else s.field.env.Some? && s.field.env.value != "" && Decodable(s.field.ty)
  }

  /** A field with a value of its own, under this key. */
  predicate Keyed(s: Spot, key: string) {
    !IsNested(s.field.ty) && s.field.env.Some? && key == s.prefix + s.field.env.value
  }

  /** The schema rules, path by path. */
  ghost predicate FieldsOk(u: Universe, id: nat, i: nat, prefix: string, active: seq<nat>)
    requires WellFormed(u) && id < |u|
  {
    forall path: Index :: path != [] && path[0] >= i && Reach(u, id, path, prefix, active).Some? ==>
                            FieldOk(Reach(u, id, path, prefix, active).value)
  }

  ghost predicate KeysDistinct(u: Universe, root: nat, prefix: string)
    requires WellFormed(u) && root < |u|
  {
    forall p: Index, q: Index, key ::
      (&& Reach(u, root, p, prefix, [root]).Some? && Keyed(Reach(u, root, p, prefix, [root]).value, key)
       && Reach(u, root, q, prefix, [root]).Some? && Keyed(Reach(u, root, q, prefix, [root]).value, key)) ==> p == q
  }

  /** No item is a fault and every value is decodable. */
  ghost predicate Clean(items: seq<Item>) {
    forall k :: 0 <= k < |items| ==> !items[k].Fault? && (items[k].Bind? ==> Decodable(items[k].b.ty))
  }

  lemma CleanConcat(a: seq<Item>, b: seq<Item>)
    ensures Clean(a + b) <==> Clean(a) && Clean(b)
  {
    assert forall k :: 0 <= k < |a| ==> (a + b)[k] == a[k];
    assert forall k :: 0 <= k < |b| ==> (a + b)[|a| + k] == b[k];
  }

  lemma CleanShift(at: Index, items: seq<Item>)
    ensures Clean(Shift(at, items)) <==> Clean(items)
  {
    var s := Shift(at, items);
    assert forall k :: 0 <= k < |items| ==> s[k] == ShiftItem(at, items[k]);
  }

  /** A clean walk means that every path it covers is well formed. */
  lemma {:induction false} CleanCovers(u: Universe, id: nat, i: nat, name: string, prefix: string, active: seq<nat>,
                                       path: Index)
    requires WellFormed(u) && id < |u| && i <= |u[id].fields|
    requires Clean(Items(u, id, i, name, prefix, active))
    requires path != [] && path[0] >= i && Reach(u, id, path, prefix, active).Some?
    ensures FieldOk(Reach(u, id, path, prefix, active).value)
    decreases |path|, |u[id].fields| - i
  {
    CleanConcat(FieldItems(u, id, i, name, prefix, active), Items(u, id, i + 1, name, prefix, active));
    if path[0] > i {
      CleanCovers(u, id, i + 1, name, prefix, active, path);
    } else {
      var f := u[id].fields[i];
      CleanField(u, id, i, name, prefix, active);
      if |path| > 1 {
        InnerExists(u, id, i);
        CleanCovers(u, Inner(f.ty), 0, name + "." + f.name, prefix + f.envPrefix.value, active + [Inner(f.ty)],
                    path[1..]);
      }
    }
  }

  /** One field: its own rule, and a clean walk of what is nested in it. */
  lemma CleanField(u: Universe, id: nat, i: nat, name: string, prefix: string, active: seq<nat>)
    requires WellFormed(u) && id < |u| && i < |u[id].fields| && Walked(u[id].fields[i])
    ensures var f := u[id].fields[i];
            Clean(FieldItems(u, id, i, name, prefix, active)) <==>
            FieldOk(Spot(f, prefix, active)) &&
            (IsNested(f.ty) && Inner(f.ty) < |u| ==>
               Clean(Items(u, Inner(f.ty), 0, name + "." + f.name, prefix + f.envPrefix.value, active + [Inner(f.ty)])))
  {
    var f, items := u[id].fields[i], FieldItems(u, id, i, name, prefix, active);
    if f.env == None && IsNested(f.ty) && f.envPrefix.Some? && Inner(f.ty) !in active {
      InnerExists(u, id, i);
      var sub := Items(u, Inner(f.ty), 0, name + "." + f.name, prefix + f.envPrefix.value, active + [Inner(f.ty)]);
      CleanShift([i], sub);
      CleanConcat(BlockOf(f, i, name + "." + f.name), Shift([i], sub));
    } else {
      assert |items| == 1;
      assert Clean(items) <==> !items[0].Fault? && (items[0].Bind? ==> Decodable(items[0].b.ty));
    }
  }

  lemma {:induction false} RulesMakeItClean(u: Universe, id: nat, i: nat, name: string, prefix: string,
                                            active: seq<nat>)
    requires WellFormed(u) && id < |u| && i <= |u[id].fields|
    requires FieldsOk(u, id, i, prefix, active)
    ensures Clean(Items(u, id, i, name, prefix, active))
    decreases Free(u, active), |u[id].fields| - i
  {
    if i < |u[id].fields| {
      RulesMakeItClean(u, id, i + 1, name, prefix, active);
      CleanConcat(FieldItems(u, id, i, name, prefix, active), Items(u, id, i + 1, name, prefix, active));
      var f := u[id].fields[i];
      if Walked(f) {
        assert Reach(u, id, [i], prefix, active) == Some(Spot(f, prefix, active));
        if IsNested(f.ty) {
          InnerExists(u, id, i);
          var inner, pre, act := Inner(f.ty), prefix + f.envPrefix.value, active + [Inner(f.ty)];
          forall path: Index | path != [] && Reach(u, inner, path, pre, act).Some?
            ensures FieldOk(Reach(u, inner, path, pre, act).value)
          {
            assert ([i] + path)[1..] == path;
            assert Reach(u, id, [i] + path, prefix, active) == Reach(u, inner, path, pre, act);
          }
          FreeShrinks(u, active, inner);
          RulesMakeItClean(u, inner, 0, name + "." + f.name, pre, act);
        }
        CleanField(u, id, i, name, prefix, active);
      }
    }
  }

  // ---- Keys ------------------------------------------------------------------------------------

  /** The binding sits at a path with its key. */
  ghost predicate Located(u: Universe, id: nat, prefix: string, active: seq<nat>, b: Binding)
    requires WellFormed(u) && id < |u|
  {
    && Reach(u, id, b.index, prefix, active).Some?
    && Keyed(Reach(u, id, b.index, prefix, active).value, b.key)
  }

  lemma {:induction false} BindingsAreLocated(u: Universe, id: nat, i: nat, name: string, prefix: string,
                                              active: seq<nat>, item: Item)
    requires WellFormed(u) && id < |u| && i <= |u[id].fields|
    requires item in Items(u, id, i, name, prefix, active) && item.Bind?
    ensures Located(u, id, prefix, active, item.b)
    decreases Free(u, active), |u[id].fields| - i
  {
    var here := FieldItems(u, id, i, name, prefix, active);
    if item !in here {
      BindingsAreLocated(u, id, i + 1, name, prefix, active, item);
    } else {
      var f := u[id].fields[i];
      if IsNested(f.ty) {
        InnerExists(u, id, i);
        var inner, pre, act := Inner(f.ty), prefix + f.envPrefix.value, active + [Inner(f.ty)];
        var sub := Items(u, inner, 0, name + "." + f.name, pre, act);
        assert item in Shift([i], sub);
        var k :| 0 <= k < |sub| && ShiftItem([i], sub[k]) == item;
        FreeShrinks(u, active, inner);
        BindingsAreLocated(u, inner, 0, name + "." + f.name, pre, act, sub[k]);
        assert item.b.index[1..] == sub[k].b.index;
      }
    }
  }

  /** In a clean walk every keyed path has its binding. */
  lemma {:induction false} PathsAreBound(u: Universe, id: nat, i: nat, name: string, prefix: string,
                                         active: seq<nat>, path: Index, key: string)
    returns (b: Binding)
    requires WellFormed(u) && id < |u| && i <= |u[id].fields|
    requires Clean(Items(u, id, i, name, prefix, active))
    requires path != [] && path[0] >= i && Reach(u, id, path, prefix, active).Some?
    requires Keyed(Reach(u, id, path, prefix, active).value, key)
    ensures Bind(b) in Items(u, id, i, name, prefix, active) && b.index == path && b.key == key
    decreases |path|, |u[id].fields| - i
  {
    CleanConcat(FieldItems(u, id, i, name, prefix, active), Items(u, id, i + 1, name, prefix, active));
    if path[0] > i {
      b := PathsAreBound(u, id, i + 1, name, prefix, active, path, key);
    } else {
      var f := u[id].fields[i];
      CleanField(u, id, i, name, prefix, active);
      if |path| > 1 {
        InnerExists(u, id, i);
        var pre, act := prefix + f.envPrefix.value, active + [Inner(f.ty)];
        var sub := Items(u, Inner(f.ty), 0, name + "." + f.name, pre, act);
        var c := PathsAreBound(u, Inner(f.ty), 0, name + "." + f.name, pre, act, path[1..], key);
        var k :| 0 <= k < |sub| && sub[k] == Bind(c);
        b := c.(index := [i] + c.index);
        assert Shift([i], sub)[k] == Bind(b);
        assert [i] + path[1..] == path;
      } else {
        b := Binding([i], name + "." + f.name, key, f.def, f.ty);
        assert FieldItems(u, id, i, name, prefix, active)[0] == Bind(b);
      }
    }
  }

  /** No two value items share a key. */
  ghost predicate KeysApart(items: seq<Item>) {
    forall j, k :: 0 <= j < k < |items| && items[j].Bind? && items[k].Bind? ==> items[j].b.key != items[k].b.key
  }

  function Bindings(items: seq<Item>): seq<Binding> {
    if items == [] then []
    else Bindings(items[..|items| - 1]) + match items[|items| - 1] case Bind(b) => [b] case _ => []
  }

  function Blocks(items: seq<Item>): seq<Block> {
    if items == [] then []
    else Blocks(items[..|items| - 1]) + match items[|items| - 1] case Group(blk) => [blk] case _ => []
  }

  ghost predicate SeenAre(seen: map<string, string>, items: seq<Item>) {
    forall key :: key in seen <==> KeyIn(items, key)
  }

  ghost predicate KeyIn(items: seq<Item>, key: string) {
    exists k :: 0 <= k < |items| && items[k].Bind? && items[k].b.key == key
  }

  lemma KeyInAppend(items: seq<Item>, item: Item, key: string)
    ensures KeyIn(items + [item], key) <==> KeyIn(items, key) || (item.Bind? && item.b.key == key)
  {
    var all := items + [item];
    if KeyIn(items, key) {
      var k :| 0 <= k < |items| && items[k].Bind? && items[k].b.key == key;
      assert all[k] == items[k];
    }
    if item.Bind? && item.b.key == key { assert all[|items|] == item; }
  }

  lemma KeysApartAppend(items: seq<Item>, item: Item)
    ensures KeysApart(items + [item]) <==> KeysApart(items) && !(item.Bind? && KeyIn(items, item.b.key))
  {
    var all := items + [item];
    assert (forall k :: 0 <= k < |items| ==> all[k] == items[k]) && all[|items|] == item;
    if KeysApart(all) && item.Bind? {
      forall k | 0 <= k < |items| && items[k].Bind? ensures items[k].b.key != item.b.key { assert all[k] == items[k]; }
    }
  }

  /** What absorbing leaves of clean items with keys apart. */
  ghost predicate Absorbed(p: Plan, items: seq<Item>) {
    && (p.violations == [] <==> Clean(items) && KeysApart(items))
    && (p.violations == [] ==> p.bindings == Bindings(items) && p.blocks == Blocks(items) && SeenAre(p.seen, items))
  }

  lemma AbsorbsOneMore(p: Plan, items: seq<Item>, item: Item)
    requires Absorbed(p, items)
    ensures Absorbed(Absorb(p, item), items + [item])
  {
    CleanConcat(items, [item]);
    assert [item][0] == item;
    assert Clean([item]) <==> !item.Fault? && (item.Bind? ==> Decodable(item.b.ty));
    KeysApartAppend(items, item);
    assert (items + [item])[..|items|] == items;
    forall key ensures KeyIn(items + [item], key) <==> KeyIn(items, key) || (item.Bind? && item.b.key == key) {
      KeyInAppend(items, item, key);
    }
  }

  /** Absorbing reports nothing exactly when the items are clean with keys apart, and then keeps
      every binding and block in walk order. */
  lemma {:induction false} AbsorbsCleanly(items: seq<Item>)
    ensures Absorbed(AbsorbAll(NO_PLAN, items), items)
  {
    if items != [] {
      var m := |items| - 1;
      AbsorbsCleanly(items[..m]);
      AbsorbsOneMore(AbsorbAll(NO_PLAN, items[..m]), items[..m], items[m]);
      assert items == items[..m] + [items[m]];
    }
  }

  /** The walk reports no violation exactly when every reachable exported field is well tagged and
      decodable, no type contains itself on its own path, and all full keys are distinct. */
  lemma LoadableExactly(u: Universe, root: nat, prefix: string)
    requires WellFormed(u) && root < |u|
    ensures PlanOf(u, root, prefix).violations == [] <==>
            FieldsOk(u, root, 0, prefix, [root]) && KeysDistinct(u, root, prefix)
  {
    var name, act := u[root].name, [root];
    var items := Items(u, root, 0, name, prefix, act);
    AbsorbsCleanly(items);
    ItemsOrdered(u, root, 0, name, prefix, act);
    if Clean(items) {
      forall path: Index | path != [] && Reach(u, root, path, prefix, act).Some?
        ensures FieldOk(Reach(u, root, path, prefix, act).value)
      {
        CleanCovers(u, root, 0, name, prefix, act, path);
      }
      ApartMeansDistinct(u, root, prefix);
    } else if FieldsOk(u, root, 0, prefix, act) {
      RulesMakeItClean(u, root, 0, name, prefix, act);
    }
  }

  lemma LexIrreflexive(a: Index)
    ensures !LexLess(a, a)
  {}

  lemma ApartMeansDistinct(u: Universe, root: nat, prefix: string)
    requires WellFormed(u) && root < |u| && Clean(Items(u, root, 0, u[root].name, prefix, [root]))
    ensures KeysApart(Items(u, root, 0, u[root].name, prefix, [root])) <==> KeysDistinct(u, root, prefix)
  {
    var name, act := u[root].name, [root];
    var items := Items(u, root, 0, name, prefix, act);
    ItemsOrdered(u, root, 0, name, prefix, act);
    if KeysApart(items) {
      forall p: Index, q: Index, key |
        && Reach(u, root, p, prefix, act).Some? && Keyed(Reach(u, root, p, prefix, act).value, key)
        && Reach(u, root, q, prefix, act).Some? && Keyed(Reach(u, root, q, prefix, act).value, key)
        ensures p == q
      {
        var a := PathsAreBound(u, root, 0, name, prefix, act, p, key);
        var b := PathsAreBound(u, root, 0, name, prefix, act, q, key);
        var j :| 0 <= j < |items| && items[j] == Bind(a);
        var k :| 0 <= k < |items| && items[k] == Bind(b);
        assert j == k;
      }
    }
    if KeysDistinct(u, root, prefix) {
      forall j, k | 0 <= j < k < |items| && items[j].Bind? && items[k].Bind?
        ensures items[j].b.key != items[k].b.key
      {
        BindingsAreLocated(u, root, 0, name, prefix, act, items[j]);
        BindingsAreLocated(u, root, 0, name, prefix, act, items[k]);
        LexIrreflexive(items[j].b.index);
      }
    }
  }
}
