/** Planning: the walk over a config type (config/plan.go). */
module ConfigPlan {
  import opened Prelude
  import opened ConfigTypes

  datatype Reason =
    | BothTags | NeedsPrefix | Cyclic | MissingEnv | EmptyEnv | DuplicateKey(owner: string) | Unsupported | NotAStruct

  datatype Violation =
    | Schema(env: string, field: string, reason: Reason)
    | Required(env: string, field: string)
    | Undecodable(env: string, field: string)
    | Invalid(field: string)

  type Index = seq<nat>

  datatype Binding = Binding(index: Index, field: string, key: string, def: Option<string>, ty: Type)

  datatype Block = Block(index: Index, field: string)

  /** What the walk meets, in order: a tagged value field, an optional group, or a fault. */
  datatype Item = Bind(b: Binding) | Group(blk: Block) | Fault(v: Violation)

  /** A struct, or a pointer to one, that does not parse itself. */
  predicate IsNested(t: Type) { t.Struct? || (t.Pointer? && t.elem.Struct?) }

  function Inner(t: Type): nat
    requires IsNested(t)
  {
    match t case Struct(id) => id case Pointer(e) => e.id
  }

  /** The walk passes over unexported fields and those tagged env:"-". */
  predicate Walked(f: Field) { f.exported && f.env != Some("-") }

  /** Struct types not on the current path: the first component of the termination measure. */
  function Free(u: Universe, active: seq<nat>): set<nat> { set x | 0 <= x < |u| && x !in active }

  lemma FreeShrinks(u: Universe, active: seq<nat>, id: nat)
    requires id < |u| && id !in active
    ensures Free(u, active + [id]) < Free(u, active)
  {
    assert id in Free(u, active) && id !in Free(u, active + [id]);
  }

  lemma InnerExists(u: Universe, id: nat, i: nat)
    requires WellFormed(u) && id < |u| && i < |u[id].fields| && IsNested(u[id].fields[i].ty)
    ensures Inner(u[id].fields[i].ty) < |u|
  {
    var t := u[id].fields[i].ty;
    assert InUniverse(u, t);
    if t.Pointer? { assert InUniverse(u, t.elem); }
  }

  function ShiftItem(at: Index, item: Item): Item {
    match item
    case Bind(b) => Bind(b.(index := at + b.index))
    case Group(blk) => Group(blk.(index := at + blk.index))
    case Fault(_) => item
  }

  function Shift(at: Index, items: seq<Item>): (r: seq<Item>)
    ensures |r| == |items| && forall k :: 0 <= k < |r| ==> r[k] == ShiftItem(at, items[k])
  {
    seq(|items|, k requires 0 <= k < |items| => ShiftItem(at, items[k]))
  }

  /** A nested pointer field opens an optional block. */
  function BlockOf(f: Field, i: nat, path: string): seq<Item> {
    if f.ty.Pointer? then [Group(Block([i], path))] else []
  }

  /** Items of field `i` of struct `id`, with index paths relative to that struct. */
  function FieldItems(u: Universe, id: nat, i: nat, path: string, prefix: string, active: seq<nat>): seq<Item>
    requires WellFormed(u) && id < |u| && i < |u[id].fields|
    decreases Free(u, active), |u[id].fields| - i, 0
  {
    var f := u[id].fields[i];
    var fieldPath := path + "." + f.name;
    if !Walked(f) then []
    else if f.env.Some? && f.envPrefix.Some? then [Fault(Schema("", fieldPath, BothTags))]
    else if IsNested(f.ty) then
      if f.envPrefix == None then [Fault(Schema("", fieldPath, NeedsPrefix))]
      else if Inner(f.ty) in active then [Fault(Schema("", fieldPath, Cyclic))]
      else
        InnerExists(u, id, i);
        FreeShrinks(u, active, Inner(f.ty));
        BlockOf(f, i, fieldPath)
        + Shift([i], Items(u, Inner(f.ty), 0, fieldPath, prefix + f.envPrefix.value, active + [Inner(f.ty)]))
    else if f.env == None then [Fault(Schema("", fieldPath, MissingEnv))]
    else if f.env == Some("") then [Fault(Schema("", fieldPath, EmptyEnv))]
    else [Bind(Binding([i], fieldPath, prefix + f.env.value, f.def, f.ty))]
  }

  /** Items of fields `i` and up. */
  function Items(u: Universe, id: nat, i: nat, path: string, prefix: string, active: seq<nat>): seq<Item>
    requires WellFormed(u) && id < |u| && i <= |u[id].fields|
    decreases Free(u, active), |u[id].fields| - i, 1
  {
    if i == |u[id].fields| then []
    else FieldItems(u, id, i, path, prefix, active) + Items(u, id, i + 1, path, prefix, active)
  }

  /** The walker's output: bindings, blocks, violations and the keys claimed so far. */
  datatype Plan = Plan(bindings: seq<Binding>, blocks: seq<Block>, violations: seq<Violation>,
                       seen: map<string, string>)

  const NO_PLAN := Plan([], [], [], map[])

  function Absorb(p: Plan, item: Item): Plan {
    match item
    case Fault(v) => p.(violations := p.violations + [v])
    case Group(blk) => p.(blocks := p.blocks + [blk])
    case Bind(b) =>
      if b.key in p.seen then p.(violations := p.violations + [Schema(b.key, b.field, DuplicateKey(p.seen[b.key]))])
      else if !Decodable(b.ty) then p.(violations := p.violations + [Schema(b.key, b.field, Unsupported)])
      else p.(bindings := p.bindings + [b], seen := p.seen[b.key := b.field])
  }

  function AbsorbAll(p: Plan, items: seq<Item>): Plan {
    if items == [] then p else Absorb(AbsorbAll(p, items[..|items| - 1]), items[|items| - 1])
  }

  lemma {:induction false} AbsorbConcat(p: Plan, a: seq<Item>, b: seq<Item>)
    ensures AbsorbAll(p, a + b) == AbsorbAll(AbsorbAll(p, a), b)
  {
    if b == [] {
      assert a + b == a;
    } else {
      var m := |b| - 1;
      AbsorbConcat(p, a, b[..m]);
      assert (a + b)[..|a + b| - 1] == a + b[..m];
    }
  }

  lemma ShiftConcat(at: Index, a: seq<Item>, b: seq<Item>)
    ensures Shift(at, a + b) == Shift(at, a) + Shift(at, b)
  {}

  lemma ShiftTwice(a: Index, b: Index, items: seq<Item>)
    ensures Shift(a, Shift(b, items)) == Shift(a + b, items)
  {
    forall k | 0 <= k < |items| ensures ShiftItem(a, ShiftItem(b, items[k])) == ShiftItem(a + b, items[k]) {
      if items[k].Bind? { assert a + (b + items[k].b.index) == a + b + items[k].b.index; }
      if items[k].Group? { assert a + (b + items[k].blk.index) == a + b + items[k].blk.index; }
    }
  }

  lemma AbsorbShifted(p: Plan, index: Index, a: seq<Item>, b: seq<Item>)
    ensures AbsorbAll(p, Shift(index, a + b)) == AbsorbAll(AbsorbAll(p, Shift(index, a)), Shift(index, b))
  {
    ShiftConcat(index, a, b);
    AbsorbConcat(p, Shift(index, a), Shift(index, b));
  }

  class Walker {
    var bindings: seq<Binding>
    var blocks: seq<Block>
    var violations: seq<Violation>
    var seen: map<string, string>
    var active: seq<nat>

    ghost function Value(): Plan
      reads this
    {
      Plan(bindings, blocks, violations, seen)
    }

    constructor (root: nat)
      ensures Value() == NO_PLAN && active == [root]
    {
      bindings, blocks, violations, seen, active := [], [], [], map[], [root];
    }

    /** walk: terminates on every type graph, since each nested call has one free struct type less,
        and absorbs exactly the items of the type, index paths extended by the caller's. */
    method Walk(u: Universe, id: nat, path: string, prefix: string, index: Index)
      requires WellFormed(u) && id < |u|
      modifies this
      ensures active == old(active)
      ensures Value() == AbsorbAll(old(Value()), Shift(index, Items(u, id, 0, path, prefix, old(active))))
      decreases Free(u, active)
    {
      for i := 0 to |u[id].fields|
        invariant active == old(active)
        invariant AbsorbAll(Value(), Shift(index, Items(u, id, i, path, prefix, active)))
                  == AbsorbAll(old(Value()), Shift(index, Items(u, id, 0, path, prefix, active)))
      {
        AbsorbShifted(Value(), index, FieldItems(u, id, i, path, prefix, active),
                      Items(u, id, i + 1, path, prefix, active));
        WalkField(u, id, i, path, prefix, index);
      }
    }

    /** One turn of the walk's loop. */
    method WalkField(u: Universe, id: nat, i: nat, path: string, prefix: string, index: Index)
      requires WellFormed(u) && id < |u| && i < |u[id].fields|
      modifies this
      ensures active == old(active)
      ensures Value() == AbsorbAll(old(Value()), Shift(index, FieldItems(u, id, i, path, prefix, old(active))))
      decreases Free(u, active), 0
    {
      var f := u[id].fields[i];
      if !f.exported { return; }
      var fieldPath := path + "." + f.name;
      if f.env == Some("-") { return; }
      ghost var items := FieldItems(u, id, i, path, prefix, active);
      if f.env.Some? && f.envPrefix.Some? {
        Add(Schema("", fieldPath, BothTags), index, items);
        return;
      }
      if IsNested(f.ty) {
        if f.envPrefix == None {
          Add(Schema("", fieldPath, NeedsPrefix), index, items);
          return;
        }
        var inner := Inner(f.ty);
        if inner in active {
          Add(Schema("", fieldPath, Cyclic), index, items);
          return;
        }
        InnerExists(u, id, i);
        ghost var sub := Items(u, inner, 0, fieldPath, prefix + f.envPrefix.value, active + [inner]);
        ghost var group := BlockOf(f, i, fieldPath);
        assert items == group + Shift([i], sub);
        AbsorbShifted(Value(), index, group, Shift([i], sub));
        ShiftTwice(index, [i], sub);
        if f.ty.Pointer? {
          blocks := blocks + [Block(index + [i], fieldPath)];
          assert Shift(index, group)[..0] == [];
        }
        FreeShrinks(u, active, inner);
        active := active + [inner];
        Walk(u, inner, fieldPath, prefix + f.envPrefix.value, index + [i]);
        active := active[..|active| - 1];
        return;
      }
      if f.env == None {
        Add(Schema("", fieldPath, MissingEnv), index, items);
        return;
      }
      if f.env == Some("") {
        Add(Schema("", fieldPath, EmptyEnv), index, items);
        return;
      }
      var key := prefix + f.env.value;
      assert Shift(index, items)[..0] == [];
      if key in seen {
        violations := violations + [Schema(key, fieldPath, DuplicateKey(seen[key]))];
        return;
      }
      if !Decodable(f.ty) {
        violations := violations + [Schema(key, fieldPath, Unsupported)];
        return;
      }
      seen := seen[key := fieldPath];
      bindings := bindings + [Binding(index + [i], fieldPath, key, f.def, f.ty)];
    }

    method Add(v: Violation, ghost index: Index, ghost items: seq<Item>)
      requires items == [Fault(v)]
      modifies `violations
      ensures violations == old(violations) + [v]
      ensures Value() == AbsorbAll(old(Value()), Shift(index, items))
    {
      violations := violations + [v];
      assert Shift(index, items)[..0] == [];
    }
  }

  /** The plan of a struct type, under a key prefix. */
  function PlanOf(u: Universe, root: nat, prefix: string): Plan
    requires WellFormed(u) && root < |u|
  {
    AbsorbAll(NO_PLAN, Items(u, root, 0, u[root].name, prefix, [root]))
  }

  method BuildPlan(u: Universe, t: Type, prefix: string) returns (p: Plan)
    requires WellFormed(u) && InUniverse(u, t)
    ensures t.Struct? ==> p == PlanOf(u, t.id, prefix)
    ensures !t.Struct? ==> p.violations == [Schema("", "", NotAStruct)] && p.bindings == [] && p.blocks == []
  {
    if !t.Struct? {
      return Plan([], [], [Schema("", "", NotAStruct)], map[]);
    }
    var w := new Walker(t.id);
    w.Walk(u, t.id, u[t.id].name, prefix, []);
    p := Plan(w.bindings, w.blocks, w.violations, w.seen);
    ShiftByNothing(Items(u, t.id, 0, u[t.id].name, prefix, [t.id]));
  }

  lemma ShiftByNothing(items: seq<Item>)
    ensures Shift([], items) == items
  {
    forall k | 0 <= k < |items| ensures ShiftItem([], items[k]) == items[k] {
      if items[k].Bind? { assert [] + items[k].b.index == items[k].b.index; }
      if items[k].Group? { assert [] + items[k].blk.index == items[k].blk.index; }
    }
  }
}
