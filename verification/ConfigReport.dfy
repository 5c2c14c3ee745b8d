/** What a type that cannot be loaded is reported for (config/plan.go). */
module ConfigReport {
  import opened Prelude
  import opened ConfigTypes
  import opened ConfigPlan
  import opened ConfigSchema
  import opened ConfigOutcomes

  /** The walk gets to the field: no nested field on the way is of a type already on the path. */
  predicate OnWalk(u: Universe, at: Place, path: Index)
    requires WellFormed(u) && at.id < |u|
    decreases |path|
  {
    |path| > 1 && path[0] < |u[at.id].fields| && IsNested(u[at.id].fields[path[0]].ty)
    && u[at.id].fields[path[0]].envPrefix.Some? ==>
      (InnerExists(u, at.id, path[0]);
       Through(u, at, path[0]).id !in at.active && OnWalk(u, Through(u, at, path[0]), path[1..]))
  }

  /** A field whose tags, or whose type's place on the path, break a rule, and the violation that says so. */
  predicate TagFault(s: Spot, name: string, v: Violation) {
    var f := s.field;
    && v.Schema? && v.env == "" && v.field == name
    && match v.reason
       case BothTags => f.env.Some? && f.envPrefix.Some?
       case NeedsPrefix => IsNested(f.ty) && f.envPrefix == None
       case Cyclic => IsNested(f.ty) && f.env == None && f.envPrefix.Some? && Inner(f.ty) in s.active
       case MissingEnv => !IsNested(f.ty) && f.env == None
       case EmptyEnv => !IsNested(f.ty) && f.env == Some("") && f.envPrefix == None
       case _ => false
  }

  /** A value field with a key. */
  predicate ValueTagged(s: Spot) {
    !IsNested(s.field.ty) && s.field.env.Some? && s.field.env != Some("") && s.field.envPrefix == None
  }

  function KeyOf(s: Spot): string
    requires s.field.env.Some?
  {
    s.prefix + s.field.env.value
  }

  /** What the walk meets at a path. */
  ghost predicate ItemAt(u: Universe, at: Place, path: Index, item: Item)
    requires WellFormed(u) && at.id < |u|
  {
    && path != [] && OnWalk(u, at, path) && SpotAt(u, at, path).Some?
    && var s, name := SpotAt(u, at, path).value, NameAt(u, at, path);
    match item
    case Bind(b) => ValueTagged(s) && b == Binding(path, name, KeyOf(s), s.field.def, s.field.ty)
    case Fault(v) => TagFault(s, name, v)
    case Group(_) => false
  }

  lemma WalkDown(u: Universe, at: Place, i: nat, path: Index)
    requires WellFormed(u) && at.id < |u| && i < |u[at.id].fields| && Walked(u[at.id].fields[i]) && path != []
    requires IsNested(u[at.id].fields[i].ty) && u[at.id].fields[i].envPrefix.Some? && u[at.id].fields[i].env == None
    requires Through(u, at, i).id < |u|
    ensures var next := Through(u, at, i);
            && SpotAt(u, at, [i] + path) == SpotAt(u, next, path)
            && NameAt(u, at, [i] + path) == NameAt(u, next, path)
            && (OnWalk(u, at, [i] + path) <==> next.id !in at.active && OnWalk(u, next, path))
  {
    assert ([i] + path)[1..] == path;
  }

  lemma ItemFromBelow(u: Universe, at: Place, i: nat, path: Index, item: Item)
    requires WellFormed(u) && at.id < |u| && i < |u[at.id].fields| && Walked(u[at.id].fields[i]) && path != []
    requires IsNested(u[at.id].fields[i].ty) && u[at.id].fields[i].envPrefix.Some? && u[at.id].fields[i].env == None
    requires Through(u, at, i).id < |u| && Through(u, at, i).id !in at.active
    ensures ItemAt(u, Through(u, at, i), path, item) <==> ItemAt(u, at, [i] + path, ShiftItem([i], item))
  {
    WalkDown(u, at, i, path);
    if item.Bind? && [i] + item.b.index == [i] + path {
      assert ([i] + item.b.index)[1..] == item.b.index && ([i] + path)[1..] == path;
    }
  }

  /** The walk's items at one field, none of them nested in it. */
  lemma OwnItem(u: Universe, at: Place, i: nat, item: Item)
    requires WellFormed(u) && at.id < |u| && i < |u[at.id].fields| && Walked(u[at.id].fields[i])
    requires var f := u[at.id].fields[i];
             !(IsNested(f.ty) && f.env == None && f.envPrefix.Some? && Inner(f.ty) !in at.active)
    ensures item in FieldItems(u, at.id, i, at.name, at.prefix, at.active) <==> ItemAt(u, at, [i], item)
  {
    var f := u[at.id].fields[i];
    assert SpotAt(u, at, [i]) == Some(Spot(f, at.prefix, at.active));
    assert |FieldItems(u, at.id, i, at.name, at.prefix, at.active)| == 1;
  }

  lemma NothingOwn(u: Universe, at: Place, i: nat, item: Item)
    requires WellFormed(u) && at.id < |u| && i < |u[at.id].fields| && Walked(u[at.id].fields[i])
    requires var f := u[at.id].fields[i];
             IsNested(f.ty) && f.env == None && f.envPrefix.Some? && Inner(f.ty) !in at.active
    ensures !ItemAt(u, at, [i], item)
  {}

  lemma InShift(at: Index, items: seq<Item>, item: Item) returns (below: Item)
    requires item in Shift(at, items)
    ensures below in items && item == ShiftItem(at, below)
  {
    var k :| 0 <= k < |items| && ShiftItem(at, items[k]) == item;
    below := items[k];
  }

  lemma ShiftedIn(at: Index, items: seq<Item>, below: Item)
    requires below in items
    ensures ShiftItem(at, below) in Shift(at, items)
  {
    var k :| 0 <= k < |items| && items[k] == below;
    assert Shift(at, items)[k] == ShiftItem(at, below);
  }

  /** Every item of the walk is what it meets at some path. */
  lemma {:induction false} ItemMeans(u: Universe, at: Place, i: nat, item: Item) returns (path: Index)
    requires WellFormed(u) && at.id < |u| && i <= |u[at.id].fields| && !item.Group?
    requires item in Items(u, at.id, i, at.name, at.prefix, at.active)
    ensures path != [] && path[0] >= i && ItemAt(u, at, path, item)
    decreases Free(u, at.active), |u[at.id].fields| - i
  {
    var here := FieldItems(u, at.id, i, at.name, at.prefix, at.active);
    if item !in here {
      path := ItemMeans(u, at, i + 1, item);
    } else {
      var f := u[at.id].fields[i];
      if IsNested(f.ty) && f.env == None && f.envPrefix.Some? && Inner(f.ty) !in at.active {
        InnerExists(u, at.id, i);
        var next := Through(u, at, i);
        FreeShrinks(u, at.active, next.id);
        var below := InShift([i], Items(u, next.id, 0, next.name, next.prefix, next.active), item);
        var q := ItemMeans(u, next, 0, below);
        ItemFromBelow(u, at, i, q, below);
        path := [i] + q;
      } else {
        OwnItem(u, at, i, item);
        path := [i];
      }
    }
  }

  /** And what it meets at a path is an item of the walk. */
  lemma {:induction false} ItemOccurs(u: Universe, at: Place, i: nat, path: Index, item: Item)
    requires WellFormed(u) && at.id < |u| && i <= |u[at.id].fields|
    requires path != [] && path[0] >= i && ItemAt(u, at, path, item)
    ensures item in Items(u, at.id, i, at.name, at.prefix, at.active)
    decreases |path|, |u[at.id].fields| - i
  {
    if path[0] > i {
      ItemOccurs(u, at, i + 1, path, item);
    } else if |path| == 1 {
      assert path == [i];
      OwnOccurs(u, at, i, item);
    } else {
      NestedOccurs(u, at, i, path, item);
    }
  }

  lemma OwnOccurs(u: Universe, at: Place, i: nat, item: Item)
    requires WellFormed(u) && at.id < |u| && i < |u[at.id].fields| && ItemAt(u, at, [i], item)
    ensures item in Items(u, at.id, i, at.name, at.prefix, at.active)
  {
    var f := u[at.id].fields[i];
    if IsNested(f.ty) && f.env == None && f.envPrefix.Some? && Inner(f.ty) !in at.active {
      NothingOwn(u, at, i, item);
      assert false;
    } else {
      OwnItem(u, at, i, item);
    }
  }

  lemma {:induction false} NestedOccurs(u: Universe, at: Place, i: nat, path: Index, item: Item)
    requires WellFormed(u) && at.id < |u| && i < |u[at.id].fields| && |path| > 1 && path[0] == i
    requires ItemAt(u, at, path, item)
    ensures item in Items(u, at.id, i, at.name, at.prefix, at.active)
    decreases |path|, 0
  {
    InnerExists(u, at.id, i);
    var next, q := Through(u, at, i), path[1..];
    var below := if item.Bind? then Bind(item.b.(index := q)) else item;
    assert path == [i] + q;
    assert item == ShiftItem([i], below);
    WalkDown(u, at, i, q);
    ItemFromBelow(u, at, i, q, below);
    ItemOccurs(u, next, 0, q, below);
    ShiftedIn([i], Items(u, next.id, 0, next.name, next.prefix, next.active), below);
  }

  // ---- What absorbing the items reports -------------------------------------------------------------------

  /** The field that has claimed a key: the first with it, among those that can be decoded. */
  function Owner(items: seq<Item>, key: string): Option<string> {
    if items == [] then None
    else
      var init, last := items[..|items| - 1], items[|items| - 1];
      if Owner(init, key).Some? then Owner(init, key)
      else if last.Bind? && last.b.key == key && Decodable(last.b.ty) then Some(last.b.field)
      else None
  }

  /** What is wrong with the item at `k`, given those before it. */
  ghost predicate Reports(items: seq<Item>, k: nat, v: Violation)
    requires k < |items|
  {
    match items[k]
    case Fault(w) => v == w
    case Group(_) => false
    case Bind(b) =>
      (match Owner(items[..k], b.key)
       case Some(owner) => v == Schema(b.key, b.field, DuplicateKey(owner))
       case None => !Decodable(b.ty) && v == Schema(b.key, b.field, Unsupported))
  }

  ghost predicate Reported(items: seq<Item>, v: Violation) { exists k :: 0 <= k < |items| && Reports(items, k, v) }

  lemma ReportedAppend(items: seq<Item>, item: Item, v: Violation)
    ensures Reported(items + [item], v) <==> Reported(items, v) || Reports(items + [item], |items|, v)
  {
    var all := items + [item];
    forall k | 0 <= k < |items| ensures Reports(all, k, v) <==> Reports(items, k, v) { assert all[..k] == items[..k]; }
    if Reports(all, |items|, v) { assert |items| < |all|; }
  }

  ghost predicate ReportOk(p: Plan, items: seq<Item>) {
    && (forall v :: v in p.violations <==> Reported(items, v))
    && (forall key :: key in p.seen <==> Owner(items, key).Some?)
    && (forall key :: key in p.seen ==> Owner(items, key) == Some(p.seen[key]))
  }

  lemma OwnerAppend(items: seq<Item>, item: Item, key: string)
    ensures Owner(items + [item], key) ==
            if Owner(items, key).Some? then Owner(items, key)
            else if item.Bind? && item.b.key == key && Decodable(item.b.ty) then Some(item.b.field)
            else None
  {
    assert (items + [item])[..|items|] == items;
  }

  lemma AbsorbReports(p: Plan, items: seq<Item>, item: Item)
    requires ReportOk(p, items)
    ensures ReportOk(Absorb(p, item), items + [item])
  {
    var q, all := Absorb(p, item), items + [item];
    assert all[|items|] == item && all[..|items|] == items;
    forall v ensures v in q.violations <==> Reported(all, v) { ReportedAppend(items, item, v); }
    forall key
      ensures key in q.seen <==> Owner(all, key).Some?
      ensures key in q.seen ==> Owner(all, key) == Some(q.seen[key])
    {
      OwnerAppend(items, item, key);
    }
  }

  lemma {:induction false} AbsorbedReports(items: seq<Item>)
    ensures ReportOk(AbsorbAll(NO_PLAN, items), items)
  {
    if items != [] {
      var m := |items| - 1;
      AbsorbedReports(items[..m]);
      AbsorbReports(AbsorbAll(NO_PLAN, items[..m]), items[..m], items[m]);
      assert items == items[..m] + [items[m]];
    }
  }

  lemma {:induction false} OwnerIs(items: seq<Item>, key: string) returns (k: nat)
    requires Owner(items, key).Some?
    ensures k < |items| && items[k].Bind? && items[k].b.key == key && Decodable(items[k].b.ty)
    ensures Owner(items, key) == Some(items[k].b.field)
    ensures forall j :: 0 <= j < k && items[j].Bind? && items[j].b.key == key ==> !Decodable(items[j].b.ty)
  {
    var m := |items| - 1;
    if Owner(items[..m], key).Some? {
      k := OwnerIs(items[..m], key);
      assert forall j :: 0 <= j < m ==> items[..m][j] == items[j];
    } else {
      k := m;
      forall j | 0 <= j < m && items[j].Bind? && items[j].b.key == key ensures !Decodable(items[j].b.ty) {
        NoOwner(items[..m], key, j);
        assert items[..m][j] == items[j];
      }
    }
  }

  lemma {:induction false} NoOwner(items: seq<Item>, key: string, j: nat)
    requires Owner(items, key) == None && j < |items| && items[j].Bind? && items[j].b.key == key
    ensures !Decodable(items[j].b.ty)
  {
    if j < |items| - 1 { NoOwner(items[..|items| - 1], key, j); }
  }

  // ---- In terms of the fields -----------------------------------------------------------------------------

  /** The value field at a path that the walk gets to. */
  ghost predicate KeyedField(u: Universe, at: Place, path: Index)
    requires WellFormed(u) && at.id < |u|
  {
    path != [] && OnWalk(u, at, path) && SpotAt(u, at, path).Some? && ValueTagged(SpotAt(u, at, path).value)
  }

  /** `owner` is an earlier decodable field with the same key. */
  ghost predicate ClaimedBy(u: Universe, at: Place, path: Index, owner: Index)
    requires WellFormed(u) && at.id < |u| && KeyedField(u, at, path)
  {
    && KeyedField(u, at, owner) && LexLess(owner, path)
    && KeyOf(SpotAt(u, at, owner).value) == KeyOf(SpotAt(u, at, path).value)
    && Decodable(SpotAt(u, at, owner).value.field.ty)
  }

  /** What is wrong with the field at `path`: its tags; or its key, which an earlier field has claimed, the
      first of those that have it being named; or its type. */
  ghost predicate FieldFault(u: Universe, at: Place, path: Index, v: Violation)
    requires WellFormed(u) && at.id < |u|
  {
    && path != [] && OnWalk(u, at, path) && SpotAt(u, at, path).Some?
    && var s, name := SpotAt(u, at, path).value, NameAt(u, at, path);
    || TagFault(s, name, v)
    || (&& ValueTagged(s) && v.Schema? && v.env == KeyOf(s) && v.field == name
        && if exists owner :: ClaimedBy(u, at, path, owner)
           then v.reason.DuplicateKey? && NamesFirst(u, at, path, v.reason.owner)
           else v.reason == Unsupported && !Decodable(s.field.ty))
  }

  ghost predicate NamesFirst(u: Universe, at: Place, path: Index, name: string)
    requires WellFormed(u) && at.id < |u| && KeyedField(u, at, path)
  {
    exists owner :: FirstClaim(u, at, path, owner) && name == NameAt(u, at, owner)
  }

  ghost predicate FirstClaim(u: Universe, at: Place, path: Index, owner: Index)
    requires WellFormed(u) && at.id < |u| && KeyedField(u, at, path)
  {
    ClaimedBy(u, at, path, owner) && forall other :: ClaimedBy(u, at, path, other) ==> !LexLess(other, owner)
  }

  lemma {:induction false} LexAsymmetric(a: Index, b: Index)
    requires LexLess(a, b)
    ensures !LexLess(b, a)
  {
    if a != [] && a[0] == b[0] { LexAsymmetric(a[1..], b[1..]); }
  }

  lemma PositionsAreOrdered(items: seq<Item>, j: nat, k: nat)
    requires Ordered(items) && j < |items| && k < |items| && items[j].Bind? && items[k].Bind?
    ensures LexLess(items[j].b.index, items[k].b.index) <==> j < k
  {
    if j == k { LexIrreflexive(items[j].b.index); }
    if k < j { LexAsymmetric(items[k].b.index, items[j].b.index); }
  }

  /** The items of the walk at a place, in order. */
  ghost predicate ItemsOf(u: Universe, at: Place, items: seq<Item>)
    requires WellFormed(u) && at.id < |u|
  {
    items == Items(u, at.id, 0, at.name, at.prefix, at.active) && Ordered(items)
  }

  /** The binding at a position is that of a keyed field. */
  lemma BindAt(u: Universe, at: Place, items: seq<Item>, k: nat)
    requires WellFormed(u) && at.id < |u| && ItemsOf(u, at, items) && k < |items| && items[k].Bind?
    ensures ItemAt(u, at, items[k].b.index, items[k]) && KeyedField(u, at, items[k].b.index)
  {
    var path := ItemMeans(u, at, 0, items[k]);
  }

  /** And each keyed field has its position. */
  lemma PositionOf(u: Universe, at: Place, items: seq<Item>, path: Index) returns (k: nat)
    requires WellFormed(u) && at.id < |u| && ItemsOf(u, at, items) && KeyedField(u, at, path)
    ensures k < |items| && items[k].Bind? && items[k].b.index == path && ItemAt(u, at, path, items[k])
  {
    var s := SpotAt(u, at, path).value;
    var item := Bind(Binding(path, NameAt(u, at, path), KeyOf(s), s.field.def, s.field.ty));
    ItemOccurs(u, at, 0, path, item);
    k :| 0 <= k < |items| && items[k] == item;
  }

  /** A claim on a key shows as an owner among the items before. */
  lemma ClaimIsOwner(u: Universe, at: Place, items: seq<Item>, k: nat, owner: Index)
    requires WellFormed(u) && at.id < |u| && ItemsOf(u, at, items) && k < |items| && items[k].Bind?
    requires KeyedField(u, at, items[k].b.index) && ItemAt(u, at, items[k].b.index, items[k])
    requires ClaimedBy(u, at, items[k].b.index, owner)
    ensures Owner(items[..k], items[k].b.key).Some?
  {
    var j := PositionOf(u, at, items, owner);
    PositionsAreOrdered(items, j, k);
    assert items[..k][j] == items[j];
    if Owner(items[..k], items[k].b.key) == None { NoOwner(items[..k], items[k].b.key, j); }
  }

  /** And the owner among the items before is the first claim. */
  lemma OwnerIsFirst(u: Universe, at: Place, items: seq<Item>, k: nat) returns (j: nat)
    requires WellFormed(u) && at.id < |u| && ItemsOf(u, at, items) && k < |items| && items[k].Bind?
    requires KeyedField(u, at, items[k].b.index) && ItemAt(u, at, items[k].b.index, items[k])
    requires Owner(items[..k], items[k].b.key).Some?
    ensures j < k && items[j].Bind? && FirstClaim(u, at, items[k].b.index, items[j].b.index)
    ensures Owner(items[..k], items[k].b.key) == Some(NameAt(u, at, items[j].b.index))
  {
    j := OwnerIs(items[..k], items[k].b.key);
    assert items[..k][j] == items[j];
    BindAt(u, at, items, j);
    PositionsAreOrdered(items, j, k);
    assert ClaimedBy(u, at, items[k].b.index, items[j].b.index);
    forall other | ClaimedBy(u, at, items[k].b.index, other) ensures !LexLess(other, items[j].b.index) {
      var i := PositionOf(u, at, items, other);
      PositionsAreOrdered(items, i, j);
      assert i < k ==> items[..k][i] == items[i];
    }
  }

  lemma FirstIsUnique(u: Universe, at: Place, items: seq<Item>, k: nat, a: Index, b: Index)
    requires WellFormed(u) && at.id < |u| && ItemsOf(u, at, items) && k < |items| && items[k].Bind?
    requires KeyedField(u, at, items[k].b.index)
    requires FirstClaim(u, at, items[k].b.index, a) && FirstClaim(u, at, items[k].b.index, b)
    ensures a == b
  {
    var i := PositionOf(u, at, items, a);
    var j := PositionOf(u, at, items, b);
    PositionsAreOrdered(items, i, j);
    PositionsAreOrdered(items, j, i);
  }

  /** One binding: what absorbing says about it is what is wrong with its field. */
  lemma BindReports(u: Universe, at: Place, items: seq<Item>, k: nat, v: Violation)
    requires WellFormed(u) && at.id < |u| && ItemsOf(u, at, items) && k < |items| && items[k].Bind?
    ensures Reports(items, k, v) <==> FieldFault(u, at, items[k].b.index, v)
  {
    var path := items[k].b.index;
    BindAt(u, at, items, k);
    if Owner(items[..k], items[k].b.key).Some? {
      var j := OwnerIsFirst(u, at, items, k);
      assert ClaimedBy(u, at, path, items[j].b.index);
      if NamesFirst(u, at, path, if v.Schema? && v.reason.DuplicateKey? then v.reason.owner else "") {
        var owner :| FirstClaim(u, at, path, owner)
                     && (if v.Schema? && v.reason.DuplicateKey? then v.reason.owner else "") == NameAt(u, at, owner);
        FirstIsUnique(u, at, items, k, owner, items[j].b.index);
      }
    } else {
      forall owner ensures !ClaimedBy(u, at, path, owner) {
        if ClaimedBy(u, at, path, owner) { ClaimIsOwner(u, at, items, k, owner); }
      }
    }
  }

  /** A type is reported for exactly what is wrong with its fields: for each field that the walk gets to,
      its broken tag rule, its key that an earlier field has claimed, or its undecodable type, each under the
      field's dotted path. */
  lemma ReportedExactly(u: Universe, root: nat, prefix: string, v: Violation)
    requires WellFormed(u) && root < |u|
    ensures v in PlanOf(u, root, prefix).violations <==>
            exists path :: FieldFault(u, RootPlace(u, root, prefix), path, v)
  {
    var at := RootPlace(u, root, prefix);
    var items := Items(u, root, 0, u[root].name, prefix, [root]);
    ItemsOrdered(u, root, 0, u[root].name, prefix, [root]);
    AbsorbedReports(items);
    assert v in PlanOf(u, root, prefix).violations <==> Reported(items, v);
    if Reported(items, v) {
      var k :| 0 <= k < |items| && Reports(items, k, v);
      if items[k].Bind? {
        BindReports(u, at, items, k, v);
      } else {
        var path := ItemMeans(u, at, 0, items[k]);
        assert FieldFault(u, at, path, v);
      }
    }
    if path :| FieldFault(u, at, path, v) { FaultIsReported(u, at, items, path, v); }
  }

  lemma FaultIsReported(u: Universe, at: Place, items: seq<Item>, path: Index, v: Violation)
    requires WellFormed(u) && at.id < |u| && ItemsOf(u, at, items) && FieldFault(u, at, path, v)
    ensures Reported(items, v)
  {
    var s, name := SpotAt(u, at, path).value, NameAt(u, at, path);
    if TagFault(s, name, v) {
      ItemOccurs(u, at, 0, path, Fault(v));
      var k :| 0 <= k < |items| && items[k] == Fault(v);
      assert Reports(items, k, v);
    } else {
      var k := PositionOf(u, at, items, path);
      BindReports(u, at, items, k, v);
    }
  }
}
