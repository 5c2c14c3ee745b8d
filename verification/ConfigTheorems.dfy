/** Load, and what it promises (config/config.go). */
module ConfigTheorems {
  import opened Prelude
  import opened ConfigTypes
  import opened ConfigMeaning
  import opened ConfigPlan
  import opened ConfigSchema
  import opened ConfigLoad
  import opened ConfigRefinement

  /** Every reachable field is well tagged and decodable, and no two claim the same key. */
  ghost predicate Loadable(u: Universe, root: nat, prefix: string)
    requires WellFormed(u) && root < |u|
  {
    FieldsOk(u, root, 0, prefix, [root]) && KeysDistinct(u, root, prefix)
  }

  function Decoded(u: Universe, root: nat, prefix: string, src: Source, p: Parsers): (seq<Value>, seq<Violation>)
    requires WellFormed(u) && root < |u|
  {
    Direct(u, root, 0, u[root].name, prefix, [root], src, p)
  }

  function Zero(u: Universe, t: Type): Value
    requires WellFormed(u) && InUniverse(u, t)
  {
    match t
    case Struct(id) => Record(ZeroFields(u, id, 0))
    case Slice(_) => Nil
    case Pointer(_) => Nil
    case _ => ZeroLeaf
  }

  /** The plan of a loadable type, run by the decode loop, against decoding by recursion. */
  lemma PlanRunsAsDecoded(u: Universe, root: nat, prefix: string, src: Source, p: Parsers)
    requires WellFormed(u) && root < |u| && PlanOf(u, root, prefix).violations == []
    ensures var plan, d := PlanOf(u, root, prefix), Decoded(u, root, prefix, src, p);
            && Loadable(u, root, prefix)
            && AllDecodable(plan.bindings)
            && Runs(u, root, ZeroFields(u, root, 0), Live(plan.bindings, plan.bindings, plan.blocks, src), src, p,
                    d.0, d.1)
  {
    var items := Items(u, root, 0, u[root].name, prefix, [root]);
    LoadableExactly(u, root, prefix);
    AbsorbsCleanly(items);
    BindingsAreDecodable(items);
    Refines(u, root, 0, u[root].name, prefix, [root], ZeroFields(u, root, 0), src, p);
    assert ZeroFields(u, root, 0)[0..] == ZeroFields(u, root, 0);
    assert ZeroFields(u, root, 0)[..0] + Decoded(u, root, prefix, src, p).0 == Decoded(u, root, prefix, src, p).0;
  }

  lemma {:induction false} BindingsAreDecodable(items: seq<Item>)
    requires Clean(items)
    ensures AllDecodable(Bindings(items))
  {
    if items != [] { BindingsAreDecodable(items[..|items| - 1]); }
  }

  // ---- What a loaded value holds ------------------------------------------------------------------

  /** The value at an index path, if no pointer on the way is nil. */
  function ValueAt(fs: seq<Value>, path: Index): Option<Value>
    decreases |path|
  {
    if path == [] || path[0] >= |fs| then None
    else if |path| == 1 then Some(fs[path[0]])
    else
      match fs[path[0]]
      case Record(gs) => ValueAt(gs, path[1..])
      case Ref(Record(gs)) => ValueAt(gs, path[1..])
      case _ => None
  }

  /** Some key at or below the spot is in the source. */
  predicate SpotSet(u: Universe, s: Spot, src: Source)
    requires WellFormed(u)
  {
    if IsNested(s.field.ty) then
      && s.field.envPrefix.Some? && Inner(s.field.ty) < |u|
      && AnySet(u, Inner(s.field.ty), 0, s.prefix + s.field.envPrefix.value, s.active + [Inner(s.field.ty)], src)
    else s.field.env.Some? && s.prefix + s.field.env.value in src
  }

  ghost predicate SomeKeySet(u: Universe, id: nat, prefix: string, active: seq<nat>, src: Source)
    requires WellFormed(u) && id < |u|
  {
    exists path: Index, key :: key in src && KeyedAt(u, id, path, prefix, active, key)
  }

  ghost predicate KeyedAt(u: Universe, id: nat, path: Index, prefix: string, active: seq<nat>, key: string)
    requires WellFormed(u) && id < |u|
  {
    Reach(u, id, path, prefix, active).Some? && Keyed(Reach(u, id, path, prefix, active).value, key)
  }

  lemma {:induction false} BindingsAreItems(items: seq<Item>, b: Binding)
    ensures b in Bindings(items) <==> Bind(b) in items
  {
    if items != [] {
      BindingsAreItems(items[..|items| - 1], b);
      assert items == items[..|items| - 1] + [items[|items| - 1]];
    }
  }

  /** AnySet looks at exactly the keys of the value fields that can be reached. */
  lemma AnySetMeansSomeKey(u: Universe, id: nat, name: string, prefix: string, active: seq<nat>, src: Source)
    requires WellFormed(u) && id < |u| && Clean(Items(u, id, 0, name, prefix, active))
    ensures AnySet(u, id, 0, prefix, active, src) <==> SomeKeySet(u, id, prefix, active, src)
  {
    var items := Items(u, id, 0, name, prefix, active);
    var bs := Bindings(items);
    FoundMeansSet(u, id, 0, name, prefix, active, src);
    if AnyFound(bs, src) {
      var k :| 0 <= k < |bs| && bs[k].key in src;
      BindingsAreItems(items, bs[k]);
      BindingsAreLocated(u, id, 0, name, prefix, active, Bind(bs[k]));
      assert KeyedAt(u, id, bs[k].index, prefix, active, bs[k].key);
    }
    if SomeKeySet(u, id, prefix, active, src) {
      var path: Index, key :| key in src && KeyedAt(u, id, path, prefix, active, key);
      var b := PathsAreBound(u, id, 0, name, prefix, active, path, key);
      BindingsAreItems(items, b);
      var k :| 0 <= k < |bs| && bs[k] == b;
    }
  }

  lemma {:induction false} CleanAt(u: Universe, id: nat, i: nat, k: nat, name: string, prefix: string, active: seq<nat>)
    requires WellFormed(u) && id < |u| && i <= k < |u[id].fields|
    requires Clean(Items(u, id, i, name, prefix, active))
    ensures Clean(FieldItems(u, id, k, name, prefix, active))
    decreases k - i
  {
    CleanConcat(FieldItems(u, id, i, name, prefix, active), Items(u, id, i + 1, name, prefix, active));
    if i < k { CleanAt(u, id, i + 1, k, name, prefix, active); }
  }

  type Fields = (seq<Value>, seq<Violation>)

  ghost predicate Includes(es: seq<Violation>, some: seq<Violation>) { forall v :: v in some ==> v in es }

  /** `rest` is `all` without its first field. */
  ghost predicate Follows(all: Fields, rest: Fields) {
    |all.0| == |rest.0| + 1 && all.0[1..] == rest.0 && Includes(all.1, rest.1)
  }

  lemma {:induction false} Telescope(ds: seq<Fields>)
    requires ds != [] && ds[|ds| - 1].0 != [] && forall j :: 0 <= j < |ds| - 1 ==> Follows(ds[j], ds[j + 1])
    ensures var n := |ds| - 1; |ds[0].0| > n && ds[0].0[n] == ds[n].0[0] && Includes(ds[0].1, ds[n].1)
  {
    var n := |ds| - 1;
    if n > 0 {
      var rest := ds[1..];
      assert forall j :: 0 <= j < n ==> rest[j] == ds[j + 1];
      Telescope(rest);
      assert Follows(ds[0], ds[1]);
      assert ds[0].0[n] == ds[1].0[n - 1];
    }
  }

  lemma DirectFollows(u: Universe, id: nat, i: nat, name: string, prefix: string, active: seq<nat>,
                      src: Source, p: Parsers)
    requires WellFormed(u) && id < |u| && i < |u[id].fields|
    ensures Follows(Direct(u, id, i, name, prefix, active, src, p), Direct(u, id, i + 1, name, prefix, active, src, p))
  {
    DirectSplits(u, id, i, name, prefix, active, src, p);
  }

  lemma DirectHead(u: Universe, id: nat, k: nat, name: string, prefix: string, active: seq<nat>,
                   src: Source, p: Parsers)
    requires WellFormed(u) && id < |u| && k < |u[id].fields|
    ensures var all := Direct(u, id, 0, name, prefix, active, src, p);
            var rest := Direct(u, id, k, name, prefix, active, src, p);
            all.0[k] == rest.0[0] && Includes(all.1, rest.1)
  {
    var ds := seq(k + 1, j requires 0 <= j <= k => Direct(u, id, j, name, prefix, active, src, p));
    forall j | 0 <= j < k ensures Follows(ds[j], ds[j + 1]) {
      DirectFollows(u, id, j, name, prefix, active, src, p);
    }
    Telescope(ds);
  }

  lemma DirectAt(u: Universe, id: nat, k: nat, name: string, prefix: string, active: seq<nat>, src: Source, p: Parsers)
    requires WellFormed(u) && id < |u| && k < |u[id].fields|
    ensures var all := Direct(u, id, 0, name, prefix, active, src, p);
            var one := DirectField(u, id, k, name, prefix, active, src, p);
            all.0[k] == one.0 && Includes(all.1, one.1) && (all.1 == [] ==> one.1 == [])
  {
    DirectHead(u, id, k, name, prefix, active, src, p);
    DirectSplits(u, id, k, name, prefix, active, src, p);
    var es := Direct(u, id, 0, name, prefix, active, src, p).1;
    var one := DirectField(u, id, k, name, prefix, active, src, p).1;
    if one != [] { assert one[0] in one && one[0] in es; }
  }

  lemma {:induction false} AnySetAt(u: Universe, id: nat, i: nat, k: nat, prefix: string, active: seq<nat>, src: Source)
    requires WellFormed(u) && id < |u| && i <= k < |u[id].fields| && FieldSet(u, id, k, prefix, active, src)
    ensures AnySet(u, id, i, prefix, active, src)
    decreases k - i
  {
    if i < k { AnySetAt(u, id, i + 1, k, prefix, active, src); }
  }

  /** What must stand at a spot once everything has been decoded. */
  ghost predicate Holds(s: Spot, src: Source, p: Parsers, v: Value) {
    if IsNested(s.field.ty) then (if s.field.ty.Pointer? then v.Ref? && v.target.Record? else v.Record?)
    else
      && s.field.env.Some? && s.prefix + s.field.env.value in src && Decodable(s.field.ty)
      && Means(p, s.field.ty, src[s.prefix + s.field.env.value], Some(v))
  }

  /** What a nested field holds once it is decoded. */
  lemma NestedAt(u: Universe, id: nat, k: nat, name: string, prefix: string, active: seq<nat>, src: Source, p: Parsers)
    requires WellFormed(u) && id < |u| && k < |u[id].fields| && Walked(u[id].fields[k])
    requires IsNested(u[id].fields[k].ty) && FieldOk(Spot(u[id].fields[k], prefix, active))
    requires !u[id].fields[k].ty.Pointer? || SpotSet(u, Spot(u[id].fields[k], prefix, active), src)
    ensures var f := u[id].fields[k];
            var inner := Inner(f.ty);
            inner < |u| &&
            var d := Direct(u, inner, 0, name + "." + f.name, prefix + f.envPrefix.value, active + [inner], src, p);
            DirectField(u, id, k, name, prefix, active, src, p) == (Wrap(f.ty, d.0), d.1)
  {
    InnerExists(u, id, k);
  }

  lemma ThroughNested(fs: seq<Value>, path: Index, t: Type, gs: seq<Value>)
    requires |path| > 1 && path[0] < |fs| && fs[path[0]] == Wrap(t, gs)
    ensures ValueAt(fs, path) == ValueAt(gs, path[1..])
  {}

  /** What decoding a clean struct says about field `k`: its rule, its value, and what is nested in it. */
  lemma FieldAt(u: Universe, id: nat, k: nat, name: string, prefix: string, active: seq<nat>, src: Source, p: Parsers)
    requires WellFormed(u) && id < |u| && k < |u[id].fields| && Walked(u[id].fields[k])
    requires Clean(Items(u, id, 0, name, prefix, active))
    ensures var f := u[id].fields[k];
            && FieldOk(Spot(f, prefix, active))
            && (IsNested(f.ty) ==>
                  && Inner(f.ty) < |u|
                  && Clean(Items(u, Inner(f.ty), 0, name + "." + f.name, prefix + f.envPrefix.value,
                                 active + [Inner(f.ty)])))
    ensures var all := Direct(u, id, 0, name, prefix, active, src, p);
            var one := DirectField(u, id, k, name, prefix, active, src, p);
            all.0[k] == one.0 && Includes(all.1, one.1) && (all.1 == [] ==> one.1 == [])
  {
    CleanAt(u, id, 0, k, name, prefix, active);
    CleanField(u, id, k, name, prefix, active);
    DirectAt(u, id, k, name, prefix, active, src, p);
    if IsNested(u[id].fields[k].ty) { InnerExists(u, id, k); }
  }

  /** Going down one nested field that exists. */
  lemma Descend(u: Universe, id: nat, path: Index, name: string, prefix: string, active: seq<nat>, src: Source,
                p: Parsers)
    requires WellFormed(u) && id < |u| && |path| > 1 && path[0] < |u[id].fields| && Walked(u[id].fields[path[0]])
    requires Clean(Items(u, id, 0, name, prefix, active)) && IsNested(u[id].fields[path[0]].ty)
    requires var f := u[id].fields[path[0]]; f.ty.Pointer? ==> SpotSet(u, Spot(f, prefix, active), src)
    ensures var f, all := u[id].fields[path[0]], Direct(u, id, 0, name, prefix, active, src, p);
            && f.envPrefix.Some? && Inner(f.ty) < |u|
            && var d := Direct(u, Inner(f.ty), 0, name + "." + f.name, prefix + f.envPrefix.value,
                            active + [Inner(f.ty)], src, p);
            && ValueAt(all.0, path) == ValueAt(d.0, path[1..])
            && Includes(all.1, d.1) && (all.1 == [] ==> d.1 == [])
  {
    var f := u[id].fields[path[0]];
    FieldAt(u, id, path[0], name, prefix, active, src, p);
    NestedAt(u, id, path[0], name, prefix, active, src, p);
    var d := Direct(u, Inner(f.ty), 0, name + "." + f.name, prefix + f.envPrefix.value, active + [Inner(f.ty)], src, p);
    ThroughNested(Direct(u, id, 0, name, prefix, active, src, p).0, path, f.ty, d.0);
  }

  /** On success every key in the source that some field claims has been decoded into that field, and
      every block above it exists. */
  lemma {:induction false} SetFieldsArrive(u: Universe, id: nat, path: Index, name: string, prefix: string,
                                           active: seq<nat>, src: Source, p: Parsers)
    requires WellFormed(u) && id < |u| && Clean(Items(u, id, 0, name, prefix, active))
    requires Direct(u, id, 0, name, prefix, active, src, p).1 == []
    requires Reach(u, id, path, prefix, active).Some? && SpotSet(u, Reach(u, id, path, prefix, active).value, src)
    ensures var r := ValueAt(Direct(u, id, 0, name, prefix, active, src, p).0, path);
            r.Some? && Holds(Reach(u, id, path, prefix, active).value, src, p, r.value)
    decreases |path|
  {
    FieldAt(u, id, path[0], name, prefix, active, src, p);
    if |path| == 1 {
      SetFieldArrives(u, id, path[0], name, prefix, active, src, p);
    } else {
      var f := u[id].fields[path[0]];
      var inner, fp, pre, act := Inner(f.ty), name + "." + f.name, prefix + f.envPrefix.value, active + [Inner(f.ty)];
      assert Reach(u, id, path, prefix, active) == Reach(u, inner, path[1..], pre, act);
      SetBelow(u, inner, path[1..], fp, pre, act, src);
      Descend(u, id, path, name, prefix, active, src, p);
      SetFieldsArrive(u, inner, path[1..], fp, pre, act, src, p);
    }
  }

  lemma SetFieldArrives(u: Universe, id: nat, k: nat, name: string, prefix: string, active: seq<nat>, src: Source,
                        p: Parsers)
    requires WellFormed(u) && id < |u| && k < |u[id].fields| && Walked(u[id].fields[k])
    requires FieldOk(Spot(u[id].fields[k], prefix, active))
    requires SpotSet(u, Spot(u[id].fields[k], prefix, active), src)
    requires DirectField(u, id, k, name, prefix, active, src, p).1 == []
    ensures Holds(Spot(u[id].fields[k], prefix, active), src, p, DirectField(u, id, k, name, prefix, active, src, p).0)
  {
    var f := u[id].fields[k];
    if IsNested(f.ty) {
      NestedAt(u, id, k, name, prefix, active, src, p);
    } else {
      DecodeMeans(p, f.ty, src[prefix + f.env.value]);
    }
  }

  lemma {:induction false} SetBelow(u: Universe, id: nat, path: Index, name: string, prefix: string,
                                    active: seq<nat>, src: Source)
    requires WellFormed(u) && id < |u| && Clean(Items(u, id, 0, name, prefix, active))
    requires Reach(u, id, path, prefix, active).Some? && SpotSet(u, Reach(u, id, path, prefix, active).value, src)
    ensures AnySet(u, id, 0, prefix, active, src)
    decreases |path|
  {
    var k := path[0];
    var f := u[id].fields[k];
    CleanAt(u, id, 0, k, name, prefix, active);
    CleanField(u, id, k, name, prefix, active);
    if |path| > 1 {
      InnerExists(u, id, k);
      SetBelow(u, Inner(f.ty), path[1..], name + "." + f.name, prefix + f.envPrefix.value, active + [Inner(f.ty)], src);
    }
    AnySetAt(u, id, 0, k, prefix, active, src);
  }

  lemma UnsetBlockIsNil(u: Universe, id: nat, k: nat, name: string, prefix: string, active: seq<nat>, src: Source,
                        p: Parsers)
    requires WellFormed(u) && id < |u| && k < |u[id].fields| && Walked(u[id].fields[k])
    requires IsNested(u[id].fields[k].ty) && u[id].fields[k].ty.Pointer?
             && FieldOk(Spot(u[id].fields[k], prefix, active))
    requires !SpotSet(u, Spot(u[id].fields[k], prefix, active), src)
    ensures DirectField(u, id, k, name, prefix, active, src, p) == (Nil, [])
  {
    InnerExists(u, id, k);
  }

  /** A pointer block in which nothing is set is nil, or lies in a block that is. */
  lemma {:induction false} UnsetBlocksStayNil(u: Universe, id: nat, path: Index, name: string, prefix: string,
                                              active: seq<nat>, src: Source, p: Parsers)
    requires WellFormed(u) && id < |u| && Clean(Items(u, id, 0, name, prefix, active))
    requires Reach(u, id, path, prefix, active).Some?
    requires var s := Reach(u, id, path, prefix, active).value;
             IsNested(s.field.ty) && s.field.ty.Pointer? && !SpotSet(u, s, src)
    ensures var r := ValueAt(Direct(u, id, 0, name, prefix, active, src, p).0, path); r.Some? ==> r.value == Nil
    decreases |path|
  {
    var f := u[id].fields[path[0]];
    FieldAt(u, id, path[0], name, prefix, active, src, p);
    if f.ty.Pointer? && !SpotSet(u, Spot(f, prefix, active), src) {
      UnsetBlockIsNil(u, id, path[0], name, prefix, active, src, p);
    } else if |path| > 1 {
      var inner, fp, pre, act := Inner(f.ty), name + "." + f.name, prefix + f.envPrefix.value, active + [Inner(f.ty)];
      assert Reach(u, id, path, prefix, active) == Reach(u, inner, path[1..], pre, act);
      Descend(u, id, path, name, prefix, active, src, p);
      UnsetBlocksStayNil(u, inner, path[1..], fp, pre, act, src, p);
    }
  }

  /** In a loaded value an optional block is there exactly when some key below it is set; defaults do
      not count. */
  lemma BlockPresentExactly(u: Universe, root: nat, prefix: string, src: Source, p: Parsers, path: Index)
    requires WellFormed(u) && root < |u| && Loadable(u, root, prefix)
    requires Decoded(u, root, prefix, src, p).1 == []
    requires Reach(u, root, path, prefix, [root]).Some? && Reach(u, root, path, prefix, [root]).value.field.ty.Pointer?
    requires IsNested(Reach(u, root, path, prefix, [root]).value.field.ty)
    ensures var s := Reach(u, root, path, prefix, [root]).value;
            var r := ValueAt(Decoded(u, root, prefix, src, p).0, path);
            var inner := Inner(s.field.ty);
            && inner < |u| && s.field.envPrefix.Some?
            && ((r.Some? && r.value != Nil)
                 <==> SomeKeySet(u, inner, s.prefix + s.field.envPrefix.value, s.active + [inner], src))
  {
    var name, s := u[root].name, Reach(u, root, path, prefix, [root]).value;
    RulesMakeItClean(u, root, 0, name, prefix, [root]);
    CleanBelow(u, root, path, name, prefix, [root], src);
    if SpotSet(u, s, src) {
      SetFieldsArrive(u, root, path, name, prefix, [root], src, p);
    } else {
      UnsetBlocksStayNil(u, root, path, name, prefix, [root], src, p);
    }
  }

  lemma {:induction false} CleanBelow(u: Universe, id: nat, path: Index, name: string, prefix: string,
                                      active: seq<nat>, src: Source)
    requires WellFormed(u) && id < |u| && Clean(Items(u, id, 0, name, prefix, active))
    requires Reach(u, id, path, prefix, active).Some? && IsNested(Reach(u, id, path, prefix, active).value.field.ty)
    ensures var s := Reach(u, id, path, prefix, active).value;
            && Inner(s.field.ty) < |u| && s.field.envPrefix.Some?
            && (SpotSet(u, s, src) <==>
                SomeKeySet(u, Inner(s.field.ty), s.prefix + s.field.envPrefix.value, s.active + [Inner(s.field.ty)],
                           src))
    decreases |path|
  {
    var k := path[0];
    var f := u[id].fields[k];
    CleanAt(u, id, 0, k, name, prefix, active);
    CleanField(u, id, k, name, prefix, active);
    InnerExists(u, id, k);
    var fp, pre, act := name + "." + f.name, prefix + f.envPrefix.value, active + [Inner(f.ty)];
    if |path| > 1 {
      CleanBelow(u, Inner(f.ty), path[1..], fp, pre, act, src);
    } else {
      AnySetMeansSomeKey(u, Inner(f.ty), fp, pre, act, src);
    }
  }
}
