/** Loading: resolving, skipping absent blocks and decoding (config/config.go). */
module ConfigLoad {
  import opened Prelude
  import opened ConfigTypes
  import opened ConfigPlan

  type Source = map<string, string>

  /** underBlock: a strict prefix test. */
  predicate Under(index: Index, block: Index) { |index| > |block| && index[..|block|] == block }

  /** Some binding of the block's subtree is set in the source; defaults do not count. */
  ghost predicate Present(bs: seq<Binding>, src: Source, blk: Block) {
    exists k :: 0 <= k < |bs| && Under(bs[k].index, blk.index) && bs[k].key in src
  }

  ghost predicate Skipped(bs: seq<Binding>, blks: seq<Block>, src: Source, b: Binding) {
    exists j :: 0 <= j < |blks| && Under(b.index, blks[j].index) && !Present(bs, src, blks[j])
  }

  /** The bindings of `some` that are not skipped in a plan of `bs` and `blks`. */
  ghost function Live(some: seq<Binding>, bs: seq<Binding>, blks: seq<Block>, src: Source): seq<Binding> {
    if some == [] then []
    else
      var m := |some| - 1;
      Live(some[..m], bs, blks, src) + if Skipped(bs, blks, src, some[m]) then [] else [some[m]]
  }

  /** What the decode loop does with one binding. */
  datatype Act = Write(index: Index, value: Value) | Leave | Fail(v: Violation)

  function DecodeInto(p: Parsers, b: Binding, raw: string): Act
    requires Decodable(b.ty)
  {
    match Decode(p, b.ty, raw)
    case Some(v) => Write(b.index, v)
    case None => Fail(Undecodable(b.key, b.field))
  }

  function ActOf(p: Parsers, src: Source, b: Binding): Act
    requires Decodable(b.ty)
  {
    if b.key in src then DecodeInto(p, b, src[b.key])
    else if b.def.Some? then DecodeInto(p, b, b.def.value)
    else if b.ty.Pointer? then Leave
    else Fail(Required(b.key, b.field))
  }

  predicate AllDecodable(bs: seq<Binding>) { forall k :: 0 <= k < |bs| ==> Decodable(bs[k].ty) }

  datatype Assignment = Assignment(index: Index, value: Value)

  function Written(act: Act): seq<Assignment> {
    if act.Write? then [Assignment(act.index, act.value)] else []
  }

  function Failed(act: Act): seq<Violation> { if act.Fail? then [act.v] else [] }

  function Writes(p: Parsers, src: Source, bs: seq<Binding>): seq<Assignment>
    requires AllDecodable(bs)
  {
    if bs == [] then []
    else
      var m := |bs| - 1;
      Writes(p, src, bs[..m]) + Written(ActOf(p, src, bs[m]))
  }

  function Fails(p: Parsers, src: Source, bs: seq<Binding>): seq<Violation>
    requires AllDecodable(bs)
  {
    if bs == [] then []
    else
      var m := |bs| - 1;
      Fails(p, src, bs[..m]) + Failed(ActOf(p, src, bs[m]))
  }

  /** The fields of what a nested field holds, allocating a nil pointer. */
  function Target(u: Universe, id: nat, v: Value): seq<Value>
    requires WellFormed(u) && id < |u|
  {
    match v
    case Record(gs) => gs
    case Ref(Record(gs)) => gs
    case _ => ZeroFields(u, id, 0)
  }

  /** fieldByIndexAlloc followed by a store: `x` ends up at `path` in the fields of struct `id`. */
  function SetAt(u: Universe, id: nat, fs: seq<Value>, path: Index, x: Value): (r: seq<Value>)
    requires WellFormed(u) && id < |u| && |fs| == |u[id].fields|
    ensures |r| == |fs|
    decreases |path|
  {
    if path == [] || path[0] >= |fs| then fs
    else if |path| == 1 then fs[path[0] := x]
    else if !IsNested(u[id].fields[path[0]].ty) then fs
    else
      InnerExists(u, id, path[0]);
      var ty := u[id].fields[path[0]].ty;
      var gs := Target(u, Inner(ty), fs[path[0]]);
      if |gs| != |u[Inner(ty)].fields| then fs
      else
        var hs := SetAt(u, Inner(ty), gs, path[1..], x);
        fs[path[0] := if ty.Pointer? then Ref(Record(hs)) else Record(hs)]
  }

  function SetAll(u: Universe, id: nat, fs: seq<Value>, ws: seq<Assignment>): (r: seq<Value>)
    requires WellFormed(u) && id < |u| && |fs| == |u[id].fields|
    ensures |r| == |fs|
  {
    if ws == [] then fs
    else SetAt(u, id, SetAll(u, id, fs, ws[..|ws| - 1]), ws[|ws| - 1].index, ws[|ws| - 1].value)
  }

  /** Stage 2: which bindings of a plan belong to an absent block. */
  method FindSkipped(bs: seq<Binding>, blks: seq<Block>, src: Source) returns (skip: seq<bool>)
    ensures |skip| == |bs| && forall i :: 0 <= i < |bs| ==> (skip[i] <==> Skipped(bs, blks, src, bs[i]))
  {
    var found := new bool[|bs|];
    for i := 0 to |bs|
      invariant forall k :: 0 <= k < i ==> found[k] == (bs[k].key in src)
    {
      found[i] := bs[i].key in src;
    }
    var flags := new bool[|bs|](_ => false);
    for j := 0 to |blks|
      invariant forall k :: 0 <= k < |bs| ==> found[k] == (bs[k].key in src)
      invariant forall i :: 0 <= i < |bs| ==> (flags[i] <==> Skipped(bs, blks[..j], src, bs[i]))
    {
      var present := false;
      for k := 0 to |bs|
        invariant present <==> exists l :: 0 <= l < k && Under(bs[l].index, blks[j].index) && bs[l].key in src
      {
        if Under(bs[k].index, blks[j].index) && found[k] { present := true; }
      }
      SkippedByOneMore(bs, blks, src, j);
      if !present {
        for i := 0 to |bs|
          invariant forall k :: 0 <= k < |bs| ==> found[k] == (bs[k].key in src)
          invariant forall k :: 0 <= k < |bs| ==>
                                  (flags[k] <==>
                                   Skipped(bs, blks[..j], src, bs[k]) || (k < i && Under(bs[k].index, blks[j].index)))
        {
          if Under(bs[i].index, blks[j].index) { flags[i] := true; }
        }
      }
    }
    assert blks[..|blks|] == blks;
    skip := flags[..];
  }

  lemma SkippedByOneMore(bs: seq<Binding>, blks: seq<Block>, src: Source, j: nat)
    requires j < |blks|
    ensures forall i :: 0 <= i < |bs| ==>
                          (Skipped(bs, blks[..j + 1], src, bs[i]) <==>
                           Skipped(bs, blks[..j], src, bs[i])
                           || (Under(bs[i].index, blks[j].index) && !Present(bs, src, blks[j])))
  {
    var one := blks[..j + 1];
    forall i | 0 <= i < |bs|
      ensures Skipped(bs, one, src, bs[i]) <==>
              Skipped(bs, blks[..j], src, bs[i]) || (Under(bs[i].index, blks[j].index) && !Present(bs, src, blks[j]))
    {
      if Skipped(bs, blks[..j], src, bs[i]) {
        var k :| 0 <= k < j && Under(bs[i].index, blks[..j][k].index) && !Present(bs, src, blks[..j][k]);
        assert one[k] == blks[..j][k];
      }
      if Under(bs[i].index, blks[j].index) && !Present(bs, src, blks[j]) { assert one[j] == blks[j]; }
    }
  }

  /** Stage 3: the decode loop over a plan, from the zero value of the root struct. */
  method DecodeAllBindings(u: Universe, id: nat, bs: seq<Binding>, blks: seq<Block>, src: Source, p: Parsers)
    returns (fs: seq<Value>, violations: seq<Violation>)
    requires WellFormed(u) && id < |u| && AllDecodable(bs)
    ensures AllDecodable(Live(bs, bs, blks, src))
    ensures violations == Fails(p, src, Live(bs, bs, blks, src))
    ensures fs == SetAll(u, id, ZeroFields(u, id, 0), Writes(p, src, Live(bs, bs, blks, src)))
  {
    var skip := FindSkipped(bs, blks, src);
    fs, violations := ZeroFields(u, id, 0), [];
    ghost var live: seq<Binding> := [];
    for i := 0 to |bs|
      invariant live == Live(bs[..i], bs, blks, src) && AllDecodable(live)
      invariant violations == Fails(p, src, live)
      invariant fs == SetAll(u, id, ZeroFields(u, id, 0), Writes(p, src, live))
    {
      assert bs[..i + 1][..i] == bs[..i];
      if skip[i] { continue; }
      var act := ActOf(p, src, bs[i]);
      OneMoreDecoded(u, id, ZeroFields(u, id, 0), src, p, live, bs[i]);
      live := live + [bs[i]];
      match act {
        case Write(index, value) => fs := SetAt(u, id, fs, index, value);
        case Leave =>
        case Fail(v) => violations := violations + [v];
      }
    }
    assert bs[..|bs|] == bs;
  }

  /** What one more binding adds to the writes and to the failures. */
  lemma OneMore(p: Parsers, src: Source, before: seq<Binding>, b: Binding)
    requires AllDecodable(before) && Decodable(b.ty)
    ensures AllDecodable(before + [b])
    ensures var act := ActOf(p, src, b);
            && Fails(p, src, before + [b]) == Fails(p, src, before) + Failed(act)
            && Writes(p, src, before + [b]) == Writes(p, src, before) + Written(act)
  {
    var one := before + [b];
    assert one[..|one| - 1] == before && one[|one| - 1] == b;
  }

  lemma SetOneMore(u: Universe, id: nat, fs: seq<Value>, ws: seq<Assignment>, a: Assignment)
    requires WellFormed(u) && id < |u| && |fs| == |u[id].fields|
    ensures SetAll(u, id, fs, ws + [a]) == SetAt(u, id, SetAll(u, id, fs, ws), a.index, a.value)
  {
    assert (ws + [a])[..|ws|] == ws;
  }

  /** What one turn of the decode loop does to the violations and to the struct. */
  lemma OneMoreDecoded(u: Universe, id: nat, fs: seq<Value>, src: Source, p: Parsers, before: seq<Binding>, b: Binding)
    requires WellFormed(u) && id < |u| && |fs| == |u[id].fields| && AllDecodable(before) && Decodable(b.ty)
    ensures AllDecodable(before + [b])
    ensures var act, was := ActOf(p, src, b), SetAll(u, id, fs, Writes(p, src, before));
            && Fails(p, src, before + [b])
               == (if act.Fail? then Fails(p, src, before) + [act.v] else Fails(p, src, before))
            && SetAll(u, id, fs, Writes(p, src, before + [b]))
               == if act.Write? then SetAt(u, id, was, act.index, act.value) else was
  {
    var act, ws := ActOf(p, src, b), Writes(p, src, before);
    OneMore(p, src, before, b);
    match act
    case Write(index, value) => SetOneMore(u, id, fs, ws, Assignment(index, value));
    case _ => assert ws + [] == ws;
  }

  lemma {:induction false} LiveIsDecodable(some: seq<Binding>, bs: seq<Binding>, blks: seq<Block>, src: Source)
    requires AllDecodable(some)
    ensures AllDecodable(Live(some, bs, blks, src))
  {
    if some != [] { LiveIsDecodable(some[..|some| - 1], bs, blks, src); }
  }

  // ---- The reference: decode by recursion over the type ------------------------------------------

  /** Some key of a value field at or below fields `i` and up is set in the source. */
  function AnySet(u: Universe, id: nat, i: nat, prefix: string, active: seq<nat>, src: Source): bool
    requires WellFormed(u) && id < |u| && i <= |u[id].fields|
    decreases Free(u, active), |u[id].fields| - i, 1
  {
    i < |u[id].fields| && (FieldSet(u, id, i, prefix, active, src) || AnySet(u, id, i + 1, prefix, active, src))
  }

  function FieldSet(u: Universe, id: nat, i: nat, prefix: string, active: seq<nat>, src: Source): bool
    requires WellFormed(u) && id < |u| && i < |u[id].fields|
    decreases Free(u, active), |u[id].fields| - i, 0
  {
    var f := u[id].fields[i];
    if !Walked(f) then false
    else if !IsNested(f.ty) then f.env.Some? && prefix + f.env.value in src
    else if f.envPrefix == None || Inner(f.ty) in active then false
    else
      InnerExists(u, id, i);
      FreeShrinks(u, active, Inner(f.ty));
      AnySet(u, Inner(f.ty), 0, prefix + f.envPrefix.value, active + [Inner(f.ty)], src)
  }

  /** One value field: its own variable, else its default, else nil for a pointer, else missing. */
  function DirectValue(p: Parsers, src: Source, ty: Type, key: string, field: string, def: Option<string>,
                       zero: Value): (Value, seq<Violation>)
    requires Decodable(ty)
  {
    if key in src || def.Some? then
      match Decode(p, ty, if key in src then src[key] else def.value)
      case Some(v) => (v, [])
      case None => (zero, [Undecodable(key, field)])
    else if ty.Pointer? then (Nil, [])
    else (zero, [Required(key, field)])
  }

  /** Fields `i` and up of struct `id`, with the violations in declaration order. A pointer block is
      decoded when something in it is set and stays nil otherwise. */
  function Direct(u: Universe, id: nat, i: nat, path: string, prefix: string, active: seq<nat>, src: Source, p: Parsers)
    : (r: (seq<Value>, seq<Violation>))
    requires WellFormed(u) && id < |u| && i <= |u[id].fields|
    ensures |r.0| == |u[id].fields| - i
    decreases Free(u, active), |u[id].fields| - i, 1
  {
    if i == |u[id].fields| then ([], [])
    else
      var (v, es) := DirectField(u, id, i, path, prefix, active, src, p);
      var (vs, fs) := Direct(u, id, i + 1, path, prefix, active, src, p);
      ([v] + vs, es + fs)
  }

  function DirectNested(u: Universe, inner: nat, pointer: bool, path: string, prefix: string, active: seq<nat>,
                        src: Source, p: Parsers)
    : (Value, seq<Violation>)
    requires WellFormed(u) && inner < |u|
    decreases Free(u, active), |u[inner].fields|, 2
  {
    if pointer && !AnySet(u, inner, 0, prefix, active, src) then (Nil, [])
    else
      var (vs, es) := Direct(u, inner, 0, path, prefix, active, src, p);
      (if pointer then Ref(Record(vs)) else Record(vs), es)
  }

  function DirectField(u: Universe, id: nat, i: nat, path: string, prefix: string, active: seq<nat>, src: Source,
                       p: Parsers)
    : (Value, seq<Violation>)
    requires WellFormed(u) && id < |u| && i < |u[id].fields|
    decreases Free(u, active), |u[id].fields| - i, 0
  {
    var f := u[id].fields[i];
    var zero := ZeroFields(u, id, i)[0];
    if !Walked(f) then (zero, [])
    else if IsNested(f.ty) then
      if f.envPrefix == None || Inner(f.ty) in active then (zero, [])
      else
        InnerExists(u, id, i);
        FreeShrinks(u, active, Inner(f.ty));
        DirectNested(u, Inner(f.ty), f.ty.Pointer?, path + "." + f.name, prefix + f.envPrefix.value,
                     active + [Inner(f.ty)], src, p)
    else if f.env == None || !Decodable(f.ty) then (zero, [])
    else DirectValue(p, src, f.ty, prefix + f.env.value, path + "." + f.name, f.def, zero)
  }

  lemma DirectSplits(u: Universe, id: nat, i: nat, path: string, prefix: string, active: seq<nat>, src: Source,
                     p: Parsers)
    requires WellFormed(u) && id < |u| && i < |u[id].fields|
    ensures var one := DirectField(u, id, i, path, prefix, active, src, p);
            var rest := Direct(u, id, i + 1, path, prefix, active, src, p);
            Direct(u, id, i, path, prefix, active, src, p) == ([one.0] + rest.0, one.1 + rest.1)
  {}
}
