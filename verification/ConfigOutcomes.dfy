/** What a load makes of each single field, in terms of the source and the parsers (config/config.go). */
module ConfigOutcomes {
  import opened Prelude
  import opened ConfigTypes
  import opened ConfigMeaning
  import opened ConfigPlan
  import opened ConfigSchema
  import opened ConfigLoad
  import opened ConfigTheorems

  /** The dotted path of the field at an index path. */
  function PathName(u: Universe, id: nat, path: Index, name: string): string
    requires WellFormed(u) && id < |u|
    decreases |path|
  {
    if path == [] || path[0] >= |u[id].fields| then name
    else
      var f := u[id].fields[path[0]];
      if |path| > 1 && IsNested(f.ty) then
        InnerExists(u, id, path[0]);
        PathName(u, Inner(f.ty), path[1..], name + "." + f.name)
      else name + "." + f.name
  }

  /** No optional block above the field is absent: in each some key is set. */
  ghost predicate Open(u: Universe, id: nat, path: Index, prefix: string, active: seq<nat>, src: Source)
    requires WellFormed(u) && id < |u|
    decreases |path|
  {
    |path| > 1 && path[0] < |u[id].fields| && IsNested(u[id].fields[path[0]].ty)
    && u[id].fields[path[0]].envPrefix.Some? ==>
      (InnerExists(u, id, path[0]);
       var f := u[id].fields[path[0]];
       var pre, act := prefix + f.envPrefix.value, active + [Inner(f.ty)];
       && (f.ty.Pointer? ==> SomeKeySet(u, Inner(f.ty), pre, act, src))
       && Open(u, Inner(f.ty), path[1..], pre, act, src))
  }

  /** The string a value field is decoded from: what the source says, else the default. */
  function Raw(s: Spot, src: Source): Option<string>
    requires s.field.env.Some?
  {
    var key := s.prefix + s.field.env.value;
    if key in src then Some(src[key]) else s.field.def
  }

  /** What is wrong with a value field whose blocks are there, under its key and dotted path: a string
      that means nothing, or no string for a field that is not a pointer. */
  ghost predicate Faulty(p: Parsers, src: Source, s: Spot, name: string, v: Violation) {
    && !IsNested(s.field.ty) && s.field.env.Some?
    && match Raw(s, src)
       case Some(raw) => v == Undecodable(s.prefix + s.field.env.value, name) && Means(p, s.field.ty, raw, None)
       case None => v == Required(s.prefix + s.field.env.value, name) && !s.field.ty.Pointer?
  }

  /** The value of such a field that has no fault: what its string means, or nil for an unset pointer. */
  ghost predicate Worth(p: Parsers, src: Source, s: Spot, x: Value)
    requires s.field.env.Some?
  {
    match Raw(s, src)
    case Some(raw) => Means(p, s.field.ty, raw, Some(x))
    case None => s.field.ty.Pointer? && x == Nil
  }

  lemma ValueFieldOutcome(p: Parsers, src: Source, s: Spot, name: string, zero: Value)
    requires !IsNested(s.field.ty) && FieldOk(s)
    ensures var d := DirectValue(p, src, s.field.ty, s.prefix + s.field.env.value, name, s.field.def, zero);
            && |d.1| <= 1 && (forall v :: v in d.1 <==> Faulty(p, src, s, name, v))
            && (d.1 == [] ==> Worth(p, src, s, d.0))
            && (d.1 != [] ==> forall x :: !Worth(p, src, s, x))
  {
    var key := s.prefix + s.field.env.value;
    match Raw(s, src)
    case None =>
    case Some(raw) =>
      DecodeMeans(p, s.field.ty, raw);
      DecodesExactly(p, s.field.ty, raw, None);
      forall x ensures Decode(p, s.field.ty, raw) == Some(x) <==> Means(p, s.field.ty, raw, Some(x)) {
        DecodesExactly(p, s.field.ty, raw, Some(x));
      }
  }

  // ---- Path by path -----------------------------------------------------------------------------------

  /** Where one goes from a struct through nested field `k`. */
  datatype Place = Place(id: nat, name: string, prefix: string, active: seq<nat>)

  function RootPlace(u: Universe, root: nat, prefix: string): Place
    requires root < |u|
  {
    Place(root, u[root].name, prefix, [root])
  }

  function Through(u: Universe, at: Place, k: nat): Place
    requires WellFormed(u) && at.id < |u| && k < |u[at.id].fields|
    requires IsNested(u[at.id].fields[k].ty) && u[at.id].fields[k].envPrefix.Some?
  {
    var f := u[at.id].fields[k];
    Place(Inner(f.ty), at.name + "." + f.name, at.prefix + f.envPrefix.value, at.active + [Inner(f.ty)])
  }

  function SpotAt(u: Universe, at: Place, path: Index): Option<Spot>
    requires WellFormed(u) && at.id < |u|
  {
    Reach(u, at.id, path, at.prefix, at.active)
  }

  function NameAt(u: Universe, at: Place, path: Index): string
    requires WellFormed(u) && at.id < |u|
  {
    PathName(u, at.id, path, at.name)
  }

  ghost predicate OpenAt(u: Universe, at: Place, path: Index, src: Source)
    requires WellFormed(u) && at.id < |u|
  {
    Open(u, at.id, path, at.prefix, at.active, src)
  }

  ghost predicate CleanPlace(u: Universe, at: Place)
    requires WellFormed(u) && at.id < |u|
  {
    Clean(Items(u, at.id, 0, at.name, at.prefix, at.active))
  }

  /** The outcome of decoding the struct at a place. */
  function Outcome(u: Universe, at: Place, src: Source, p: Parsers): Fields
    requires WellFormed(u) && at.id < |u|
  {
    Direct(u, at.id, 0, at.name, at.prefix, at.active, src, p)
  }

  ghost predicate SetBelowPlace(u: Universe, at: Place, src: Source)
    requires WellFormed(u) && at.id < |u|
  {
    SomeKeySet(u, at.id, at.prefix, at.active, src)
  }

  /** One step down a path. */
  lemma StepDown(u: Universe, at: Place, path: Index, src: Source)
    requires WellFormed(u) && at.id < |u| && |path| > 1 && SpotAt(u, at, path).Some?
    ensures var k := path[0];
            && k < |u[at.id].fields| && Walked(u[at.id].fields[k]) && IsNested(u[at.id].fields[k].ty)
            && u[at.id].fields[k].envPrefix.Some?
            && var next := Through(u, at, k);
            && next.id < |u| && SpotAt(u, at, path) == SpotAt(u, next, path[1..])
            && NameAt(u, at, path) == NameAt(u, next, path[1..])
            && (OpenAt(u, at, path, src) <==>
                (u[at.id].fields[k].ty.Pointer? ==> SetBelowPlace(u, next, src)) && OpenAt(u, next, path[1..], src))
  {
    InnerExists(u, at.id, path[0]);
  }

  lemma CleanThrough(u: Universe, at: Place, k: nat, src: Source)
    requires WellFormed(u) && at.id < |u| && CleanPlace(u, at) && k < |u[at.id].fields| && Walked(u[at.id].fields[k])
    requires IsNested(u[at.id].fields[k].ty)
    ensures var f := u[at.id].fields[k];
            && f.envPrefix.Some? && FieldOk(Spot(f, at.prefix, at.active))
            && var next := Through(u, at, k);
            && next.id < |u| && CleanPlace(u, next)
            && (SpotSet(u, Spot(f, at.prefix, at.active), src) <==> SetBelowPlace(u, next, src))
  {
    var f := u[at.id].fields[k];
    CleanAt(u, at.id, 0, k, at.name, at.prefix, at.active);
    CleanField(u, at.id, k, at.name, at.prefix, at.active);
    InnerExists(u, at.id, k);
    var next := Through(u, at, k);
    AnySetMeansSomeKey(u, next.id, next.name, next.prefix, next.active, src);
  }

  /** Going down a nested field that exists changes nothing about what is found below it. */
  lemma DescendTo(u: Universe, at: Place, path: Index, src: Source, p: Parsers)
    requires WellFormed(u) && at.id < |u| && CleanPlace(u, at) && |path| > 1 && SpotAt(u, at, path).Some?
    requires OpenAt(u, at, path, src)
    ensures path[0] < |u[at.id].fields| && IsNested(u[at.id].fields[path[0]].ty)
    ensures u[at.id].fields[path[0]].envPrefix.Some?
    ensures var next, d := Through(u, at, path[0]), Outcome(u, at, src, p);
            && next.id < |u| && CleanPlace(u, next)
            && ValueAt(d.0, path) == ValueAt(Outcome(u, next, src, p).0, path[1..])
            && Includes(d.1, Outcome(u, next, src, p).1) && (d.1 == [] ==> Outcome(u, next, src, p).1 == [])
  {
    StepDown(u, at, path, src);
    CleanThrough(u, at, path[0], src);
    Descend(u, at.id, path, at.name, at.prefix, at.active, src, p);
  }

  lemma FieldHere(u: Universe, at: Place, k: nat, src: Source, p: Parsers)
    requires WellFormed(u) && at.id < |u| && CleanPlace(u, at) && k < |u[at.id].fields|
    requires Walked(u[at.id].fields[k]) && !IsNested(u[at.id].fields[k].ty)
    ensures var s, name := Spot(u[at.id].fields[k], at.prefix, at.active), at.name + "." + u[at.id].fields[k].name;
            var d := Outcome(u, at, src, p);
            && FieldOk(s) && (forall v :: Faulty(p, src, s, name, v) ==> v in d.1)
            && (d.1 == [] ==> Worth(p, src, s, d.0[k]))
  {
    var s, name := Spot(u[at.id].fields[k], at.prefix, at.active), at.name + "." + u[at.id].fields[k].name;
    FieldAt(u, at.id, k, at.name, at.prefix, at.active, src, p);
    ValueFieldOutcome(p, src, s, name, ZeroFields(u, at.id, k)[0]);
  }

  /** A value field whose blocks are there: its fault is reported, and when nothing is, its value stands at
      its path. */
  lemma {:induction false} OpenFieldOutcome(u: Universe, at: Place, path: Index, src: Source, p: Parsers)
    requires WellFormed(u) && at.id < |u| && CleanPlace(u, at) && SpotAt(u, at, path).Some?
    requires !IsNested(SpotAt(u, at, path).value.field.ty) && OpenAt(u, at, path, src)
    ensures var s, d := SpotAt(u, at, path).value, Outcome(u, at, src, p);
            && s.field.env.Some?
            && (forall v :: Faulty(p, src, s, NameAt(u, at, path), v) ==> v in d.1)
            && (d.1 == [] ==> ValueAt(d.0, path).Some? && Worth(p, src, s, ValueAt(d.0, path).value))
    decreases |path|
  {
    if |path| == 1 {
      FieldHere(u, at, path[0], src, p);
    } else {
      StepDown(u, at, path, src);
      DescendTo(u, at, path, src, p);
      OpenFieldOutcome(u, Through(u, at, path[0]), path[1..], src, p);
    }
  }

  /** A field in a block that is absent has no place in the value. */
  lemma {:induction false} ClosedFieldOutcome(u: Universe, at: Place, path: Index, src: Source, p: Parsers)
    requires WellFormed(u) && at.id < |u| && CleanPlace(u, at) && SpotAt(u, at, path).Some?
    requires !OpenAt(u, at, path, src)
    ensures ValueAt(Outcome(u, at, src, p).0, path) == None
    decreases |path|
  {
    StepDown(u, at, path, src);
    var f, next := u[at.id].fields[path[0]], Through(u, at, path[0]);
    CleanThrough(u, at, path[0], src);
    if f.ty.Pointer? && !SetBelowPlace(u, next, src) {
      UnsetBlockIsNil(u, at.id, path[0], at.name, at.prefix, at.active, src, p);
      FieldAt(u, at.id, path[0], at.name, at.prefix, at.active, src, p);
    } else {
      Descend(u, at.id, path, at.name, at.prefix, at.active, src, p);
      ClosedFieldOutcome(u, next, path[1..], src, p);
    }
  }

  // ---- Nothing else is reported, and in order -----------------------------------------------------------

  /** The violation is the fault of the value field at this path, whose blocks are there. */
  ghost predicate FaultAt(u: Universe, at: Place, q: Index, v: Violation, src: Source, p: Parsers)
    requires WellFormed(u) && at.id < |u|
  {
    && q != [] && SpotAt(u, at, q).Some? && OpenAt(u, at, q, src)
    && Faulty(p, src, SpotAt(u, at, q).value, NameAt(u, at, q), v)
  }

  ghost predicate Increasing(qs: seq<Index>) { forall j, k :: 0 <= j < k < |qs| ==> LexLess(qs[j], qs[k]) }

  /** One path for each violation, in the same order, from field `lo` up to before field `hi`. */
  ghost predicate FaultsAt(u: Universe, at: Place, qs: seq<Index>, es: seq<Violation>, lo: nat, hi: nat, src: Source,
                           p: Parsers)
    requires WellFormed(u) && at.id < |u|
  {
    && |qs| == |es| && Increasing(qs)
    && (forall k :: 0 <= k < |qs| ==> FaultAt(u, at, qs[k], es[k], src, p) && lo <= qs[k][0] < hi)
  }

  lemma FaultsTogether(u: Universe, at: Place, qs: seq<Index>, es: seq<Violation>, rs: seq<Index>, fs: seq<Violation>,
                       lo: nat, mid: nat, hi: nat, src: Source, p: Parsers)
    requires WellFormed(u) && at.id < |u| && lo <= mid <= hi
    requires FaultsAt(u, at, qs, es, lo, mid, src, p) && FaultsAt(u, at, rs, fs, mid, hi, src, p)
    ensures FaultsAt(u, at, qs + rs, es + fs, lo, hi, src, p)
  {
    var all := qs + rs;
    forall j, k | 0 <= j < k < |all| ensures LexLess(all[j], all[k]) {
      if j < |qs| <= k { assert qs[j][0] < rs[k - |qs|][0]; }
    }
  }

  function Prepend(i: nat, qs: seq<Index>): (r: seq<Index>)
    ensures |r| == |qs| && forall k :: 0 <= k < |r| ==> r[k] == [i] + qs[k]
  {
    seq(|qs|, k requires 0 <= k < |qs| => [i] + qs[k])
  }

  lemma FaultFromBelow(u: Universe, at: Place, i: nat, q: Index, v: Violation, src: Source, p: Parsers)
    requires WellFormed(u) && at.id < |u| && CleanPlace(u, at) && i < |u[at.id].fields| && Walked(u[at.id].fields[i])
    requires IsNested(u[at.id].fields[i].ty) && u[at.id].fields[i].envPrefix.Some? && u[at.id].fields[i].env == None
    requires Through(u, at, i).id < |u| && FaultAt(u, Through(u, at, i), q, v, src, p)
    requires u[at.id].fields[i].ty.Pointer? ==> SetBelowPlace(u, Through(u, at, i), src)
    ensures FaultAt(u, at, [i] + q, v, src, p)
  {
    assert ([i] + q)[1..] == q;
    assert SpotAt(u, at, [i] + q) == SpotAt(u, Through(u, at, i), q);
    StepDown(u, at, [i] + q, src);
  }

  lemma FaultsFromBelow(u: Universe, at: Place, i: nat, qs: seq<Index>, es: seq<Violation>, hi: nat, src: Source,
                        p: Parsers)
    requires WellFormed(u) && at.id < |u| && CleanPlace(u, at) && i < |u[at.id].fields| && Walked(u[at.id].fields[i])
    requires IsNested(u[at.id].fields[i].ty) && u[at.id].fields[i].envPrefix.Some? && u[at.id].fields[i].env == None
    requires Through(u, at, i).id < |u| && FaultsAt(u, Through(u, at, i), qs, es, 0, hi, src, p)
    requires u[at.id].fields[i].ty.Pointer? ==> SetBelowPlace(u, Through(u, at, i), src)
    ensures FaultsAt(u, at, Prepend(i, qs), es, i, i + 1, src, p)
  {
    var all := Prepend(i, qs);
    forall k | 0 <= k < |qs| ensures FaultAt(u, at, all[k], es[k], src, p) && i <= all[k][0] < i + 1 {
      FaultFromBelow(u, at, i, qs[k], es[k], src, p);
    }
    forall j, k | 0 <= j < k < |all| ensures LexLess(all[j], all[k]) {
      assert all[j][1..] == qs[j] && all[k][1..] == qs[k];
    }
  }

  lemma OwnFault(u: Universe, at: Place, i: nat, src: Source, p: Parsers) returns (qs: seq<Index>)
    requires WellFormed(u) && at.id < |u| && i < |u[at.id].fields| && Walked(u[at.id].fields[i])
    requires !IsNested(u[at.id].fields[i].ty) && FieldOk(Spot(u[at.id].fields[i], at.prefix, at.active))
    ensures FaultsAt(u, at, qs, DirectField(u, at.id, i, at.name, at.prefix, at.active, src, p).1, i, i + 1, src, p)
  {
    var s, name := Spot(u[at.id].fields[i], at.prefix, at.active), at.name + "." + u[at.id].fields[i].name;
    ValueFieldOutcome(p, src, s, name, ZeroFields(u, at.id, i)[0]);
    var es := DirectField(u, at.id, i, at.name, at.prefix, at.active, src, p).1;
    if es == [] {
      qs := [];
    } else {
      qs := [[i]];
      assert es[0] in es;
      assert SpotAt(u, at, [i]) == Some(s) && NameAt(u, at, [i]) == name;
      assert FaultAt(u, at, [i], es[0], src, p);
    }
  }

  lemma {:induction false} FieldFaults(u: Universe, at: Place, i: nat, src: Source, p: Parsers) returns (qs: seq<Index>)
    requires WellFormed(u) && at.id < |u| && CleanPlace(u, at) && i < |u[at.id].fields|
    ensures FaultsAt(u, at, qs, DirectField(u, at.id, i, at.name, at.prefix, at.active, src, p).1, i, i + 1, src, p)
    decreases Free(u, at.active), |u[at.id].fields| - i, 0
  {
    var f := u[at.id].fields[i];
    if !Walked(f) { return []; }
    FieldAt(u, at.id, i, at.name, at.prefix, at.active, src, p);
    if !IsNested(f.ty) {
      qs := OwnFault(u, at, i, src, p);
    } else {
      CleanThrough(u, at, i, src);
      var next := Through(u, at, i);
      if f.ty.Pointer? && !SetBelowPlace(u, next, src) {
        UnsetBlockIsNil(u, at.id, i, at.name, at.prefix, at.active, src, p);
        qs := [];
      } else {
        FreeShrinks(u, at.active, next.id);
        NestedAt(u, at.id, i, at.name, at.prefix, at.active, src, p);
        var below := FaultsFrom(u, next, 0, src, p);
        FaultsFromBelow(u, at, i, below, Outcome(u, next, src, p).1, |u[next.id].fields|, src, p);
        qs := Prepend(i, below);
      }
    }
  }

  /** Every violation is the fault of one value field whose blocks are there, each field has one at most,
      and they come in the order of the fields. */
  lemma {:induction false} FaultsFrom(u: Universe, at: Place, i: nat, src: Source, p: Parsers) returns (qs: seq<Index>)
    requires WellFormed(u) && at.id < |u| && CleanPlace(u, at) && i <= |u[at.id].fields|
    ensures FaultsAt(u, at, qs, Direct(u, at.id, i, at.name, at.prefix, at.active, src, p).1, i, |u[at.id].fields|,
                     src, p)
    decreases Free(u, at.active), |u[at.id].fields| - i, 1
  {
    if i == |u[at.id].fields| { return []; }
    var here := FieldFaults(u, at, i, src, p);
    var rest := FaultsFrom(u, at, i + 1, src, p);
    DirectSplits(u, at.id, i, at.name, at.prefix, at.active, src, p);
    FaultsTogether(u, at, here, DirectField(u, at.id, i, at.name, at.prefix, at.active, src, p).1,
                   rest, Direct(u, at.id, i + 1, at.name, at.prefix, at.active, src, p).1,
                   i, i + 1, |u[at.id].fields|, src, p);
    qs := here + rest;
  }

  // ---- Fields that are passed over ------------------------------------------------------------------------

  lemma {:induction false} ZeroFieldAt(u: Universe, id: nat, i: nat, k: nat)
    requires WellFormed(u) && id < |u| && i <= k < |u[id].fields|
    ensures ZeroFields(u, id, i)[k - i] == ZeroFields(u, id, k)[0]
    decreases k - i
  {
    if i < k { ZeroFieldAt(u, id, i + 1, k); }
  }

  /** The zero of a field: nil for a slice or a pointer, the zero struct for a struct, else a zero leaf. */
  lemma ZeroIs(u: Universe, id: nat, k: nat)
    requires WellFormed(u) && id < |u| && k < |u[id].fields|
    ensures var t, zero := u[id].fields[k].ty, ZeroFields(u, id, 0)[k];
            && (t.Slice? || t.Pointer? ==> zero == Nil)
            && (t.Struct? ==> t.id < id && zero == Record(ZeroFields(u, t.id, 0)))
            && (t.Leaf? || t.Text? || t.Other? ==> zero == ZeroLeaf)
  {
    ZeroFieldAt(u, id, 0, k);
  }

  /** A field that is not exported, or is tagged to be skipped, keeps its zero. */
  lemma PassedOverFieldsAreZero(u: Universe, at: Place, k: nat, src: Source, p: Parsers)
    requires WellFormed(u) && at.id < |u| && k < |u[at.id].fields| && !Walked(u[at.id].fields[k])
    ensures Outcome(u, at, src, p).0[k] == ZeroFields(u, at.id, 0)[k]
  {
    DirectAt(u, at.id, k, at.name, at.prefix, at.active, src, p);
    ZeroFieldAt(u, at.id, 0, k);
  }
}
