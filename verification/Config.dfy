/** Load, and what it reports and returns for each field (config/config.go). */
module Config {
  import opened Prelude
  import opened ConfigTypes
  import opened ConfigMeaning
  import opened ConfigPlan
  import opened ConfigSchema
  import opened ConfigLoad
  import opened ConfigTheorems
  import opened ConfigOutcomes
  import opened ConfigReport

  /** What a load has to say about the value field at `path`: a violation under its key is its own fault,
      and only a field whose blocks are there has one; such a fault is reported; and when there is nothing
      to report the field holds what its string means, or has no place in an absent block. */
  ghost predicate FieldReported(u: Universe, root: nat, prefix: string, src: Source, p: Parsers, path: Index,
                                fs: seq<Value>, violations: seq<Violation>)
    requires WellFormed(u) && root < |u|
  {
    var at := RootPlace(u, root, prefix);
    SpotAt(u, at, path).Some? && !IsNested(SpotAt(u, at, path).value.field.ty) ==>
      var s, name := SpotAt(u, at, path).value, NameAt(u, at, path);
      && s.field.env.Some?
      && (forall v :: v in violations && (v.Required? || v.Undecodable?) && v.env == s.prefix + s.field.env.value ==>
                        OpenAt(u, at, path, src) && Faulty(p, src, s, name, v))
      && (OpenAt(u, at, path, src) ==> forall v :: Faulty(p, src, s, name, v) ==> v in violations)
      && (violations == [] ==>
            if OpenAt(u, at, path, src) then ValueAt(fs, path).Some? && Worth(p, src, s, ValueAt(fs, path).value)
            else ValueAt(fs, path) == None)
  }

  /** Nothing but faults of fields is reported, each once, in the order of the fields. */
  ghost predicate OnlyFaults(u: Universe, root: nat, prefix: string, src: Source, p: Parsers,
                             violations: seq<Violation>)
    requires WellFormed(u) && root < |u|
  {
    exists qs :: FaultsAt(u, RootPlace(u, root, prefix), qs, violations, 0, |u[root].fields|, src, p)
  }

  lemma DecodedIsReported(u: Universe, root: nat, prefix: string, src: Source, p: Parsers, path: Index)
    requires WellFormed(u) && root < |u| && Loadable(u, root, prefix)
    ensures var d := Decoded(u, root, prefix, src, p);
            FieldReported(u, root, prefix, src, p, path, d.0, d.1)
  {
    var at := RootPlace(u, root, prefix);
    RulesMakeItClean(u, root, 0, u[root].name, prefix, [root]);
    if SpotAt(u, at, path).Some? && !IsNested(SpotAt(u, at, path).value.field.ty) {
      var s, d := SpotAt(u, at, path).value, Decoded(u, root, prefix, src, p);
      if OpenAt(u, at, path, src) {
        OpenFieldOutcome(u, at, path, src, p);
      } else {
        ClosedFieldOutcome(u, at, path, src, p);
      }
      OwnKeyIsSet(u, root, prefix, path);
      forall v | v in d.1 && (v.Required? || v.Undecodable?) && v.env == s.prefix + s.field.env.value
        ensures OpenAt(u, at, path, src) && Faulty(p, src, s, NameAt(u, at, path), v)
      {
        FaultIsOwn(u, root, prefix, src, p, path, v);
      }
    }
  }

  lemma OwnKeyIsSet(u: Universe, root: nat, prefix: string, path: Index)
    requires WellFormed(u) && root < |u| && FieldsOk(u, root, 0, prefix, [root])
    requires Reach(u, root, path, prefix, [root]).Some?
    requires !IsNested(Reach(u, root, path, prefix, [root]).value.field.ty)
    ensures Reach(u, root, path, prefix, [root]).value.field.env.Some?
  {
    assert FieldOk(Reach(u, root, path, prefix, [root]).value);
  }

  /** Full keys are distinct, so a violation under a field's key is that field's. */
  lemma FaultIsOwn(u: Universe, root: nat, prefix: string, src: Source, p: Parsers, path: Index, v: Violation)
    requires WellFormed(u) && root < |u| && Loadable(u, root, prefix)
    requires CleanPlace(u, RootPlace(u, root, prefix)) && SpotAt(u, RootPlace(u, root, prefix), path).Some?
    requires v in Decoded(u, root, prefix, src, p).1 && (v.Required? || v.Undecodable?)
    requires Keyed(SpotAt(u, RootPlace(u, root, prefix), path).value, v.env)
    ensures FaultAt(u, RootPlace(u, root, prefix), path, v, src, p)
  {
    var at, es := RootPlace(u, root, prefix), Decoded(u, root, prefix, src, p).1;
    var qs := FaultsFrom(u, at, 0, src, p);
    var k :| 0 <= k < |es| && es[k] == v;
    assert FaultAt(u, at, qs[k], v, src, p);
    assert Keyed(SpotAt(u, at, qs[k]).value, v.env);
    assert qs[k] == path;
  }

  lemma DecodedIsOnlyFaults(u: Universe, root: nat, prefix: string, src: Source, p: Parsers)
    requires WellFormed(u) && root < |u| && Loadable(u, root, prefix)
    ensures OnlyFaults(u, root, prefix, src, p, Decoded(u, root, prefix, src, p).1)
  {
    RulesMakeItClean(u, root, 0, u[root].name, prefix, [root]);
    var qs := FaultsFrom(u, RootPlace(u, root, prefix), 0, src, p);
  }

  /** Load: plan, resolve, decode, validate. The type's own check comes last; a type without one
      passes it. Anything to report means the zero value. */
  method Load(u: Universe, t: Type, prefix: string, src: Source, p: Parsers, valid: Value -> bool)
    returns (v: Value, violations: seq<Violation>)
    requires WellFormed(u) && InUniverse(u, t)
    ensures violations != [] ==> v == Zero(u, t)
    ensures !t.Struct? ==> violations == [Schema("", "", NotAStruct)]
    ensures t.Struct? && !Loadable(u, t.id, prefix) ==> violations == PlanOf(u, t.id, prefix).violations != []
    ensures t.Struct? && !Loadable(u, t.id, prefix) ==>
              forall e :: e in violations <==> exists path :: FieldFault(u, RootPlace(u, t.id, prefix), path, e)
    ensures t.Struct? && Loadable(u, t.id, prefix) ==>
              var d := Decoded(u, t.id, prefix, src, p);
              if d.1 != [] then violations == d.1
              else if !valid(Record(d.0)) then violations == [Invalid(u[t.id].name)]
              else violations == [] && v == Record(d.0)
    ensures t.Struct? && Loadable(u, t.id, prefix) ==>
              && v.Record?
              && (forall path :: FieldReported(u, t.id, prefix, src, p, path, v.fields, violations))
              && (OnlyFaults(u, t.id, prefix, src, p, violations) || violations == [Invalid(u[t.id].name)])
  {
    var plan := BuildPlan(u, t, prefix);
    if plan.violations != [] {
      if t.Struct? {
        LoadableExactly(u, t.id, prefix);
        forall e ensures e in plan.violations <==> exists path :: FieldFault(u, RootPlace(u, t.id, prefix), path, e) {
          ReportedExactly(u, t.id, prefix, e);
        }
      }
      return Zero(u, t), plan.violations;
    }
    PlanRunsAsDecoded(u, t.id, prefix, src, p);
    AllReported(u, t.id, prefix, src, p);
    var fs;
    fs, violations := DecodeAllBindings(u, t.id, plan.bindings, plan.blocks, src, p);
    if violations != [] { return Zero(u, t), violations; }
    if !valid(Record(fs)) { return Zero(u, t), [Invalid(u[t.id].name)]; }
    v := Record(fs);
  }

  /** What decoding reports is reported in each of Load's three ends. */
  lemma AllReported(u: Universe, root: nat, prefix: string, src: Source, p: Parsers)
    requires WellFormed(u) && root < |u| && Loadable(u, root, prefix)
    ensures var d := Decoded(u, root, prefix, src, p);
            && OnlyFaults(u, root, prefix, src, p, d.1)
            && (forall path :: FieldReported(u, root, prefix, src, p, path, d.0, d.1))
            && (d.1 != [] ==> forall path, fs :: FieldReported(u, root, prefix, src, p, path, fs, d.1))
            && (d.1 == [] ==>
                  forall path, fs, name :: FieldReported(u, root, prefix, src, p, path, fs, [Invalid(name)]))
  {
    DecodedIsOnlyFaults(u, root, prefix, src, p);
    forall path ensures FieldReported(u, root, prefix, src, p, path, Decoded(u, root, prefix, src, p).0,
                                      Decoded(u, root, prefix, src, p).1) {
      DecodedIsReported(u, root, prefix, src, p, path);
    }
    var d := Decoded(u, root, prefix, src, p);
    forall path, fs | d.1 != [] ensures FieldReported(u, root, prefix, src, p, path, fs, d.1) {
      assert FieldReported(u, root, prefix, src, p, path, d.0, d.1);
    }
    forall path, fs, name | d.1 == [] ensures FieldReported(u, root, prefix, src, p, path, fs, [Invalid(name)]) {
      assert FieldReported(u, root, prefix, src, p, path, d.0, d.1);
      var at := RootPlace(u, root, prefix);
      if SpotAt(u, at, path).Some? && !IsNested(SpotAt(u, at, path).value.field.ty) && OpenAt(u, at, path, src) {
        NoFaultLeft(u, root, prefix, src, p, path);
      }
    }
  }

  lemma NoFaultLeft(u: Universe, root: nat, prefix: string, src: Source, p: Parsers, path: Index)
    requires WellFormed(u) && root < |u| && Loadable(u, root, prefix) && Decoded(u, root, prefix, src, p).1 == []
    requires SpotAt(u, RootPlace(u, root, prefix), path).Some? && OpenAt(u, RootPlace(u, root, prefix), path, src)
    requires !IsNested(SpotAt(u, RootPlace(u, root, prefix), path).value.field.ty)
    ensures forall v :: !Faulty(p, src, SpotAt(u, RootPlace(u, root, prefix), path).value,
                                NameAt(u, RootPlace(u, root, prefix), path), v)
  {
    RulesMakeItClean(u, root, 0, u[root].name, prefix, [root]);
    OpenFieldOutcome(u, RootPlace(u, root, prefix), path, src, p);
  }

  // ---- Read off for the commonest types -------------------------------------------------------------------

  /** A key that is set opens every block above its field. */
  lemma {:induction false} SetKeyOpens(u: Universe, at: Place, path: Index, key: string, src: Source)
    requires WellFormed(u) && at.id < |u| && SpotAt(u, at, path).Some?
    requires Keyed(SpotAt(u, at, path).value, key) && key in src
    ensures OpenAt(u, at, path, src)
    decreases |path|
  {
    if |path| > 1 {
      StepDown(u, at, path, src);
      var next := Through(u, at, path[0]);
      assert KeyedAt(u, next.id, path[1..], next.prefix, next.active, key);
      SetKeyOpens(u, next, path[1..], key, src);
    }
  }

  /** One outcome for a string: rejected, and so reported, or a value that the field holds on success. */
  ghost predicate Read(s: Spot, name: string, fs: seq<Value>, path: Index, violations: seq<Violation>,
                       rejected: bool, x: Value)
    requires s.field.env.Some?
  {
    && (Undecodable(s.prefix + s.field.env.value, name) in violations <==> rejected)
    && (violations == [] ==> ValueAt(fs, path) == Some(x))
  }

  function ScalarOf(r: Option<int>): Value { match r case Some(n) => Scalar(n) case None => Nil }

  predicate Scalarly(t: Type) { t.Leaf? || t.Text? }

  /** A field with a string, its own key's or else its default, in blocks that are there, is rejected exactly
      when the string means nothing for its type. */
  lemma RejectedExactly(u: Universe, root: nat, prefix: string, src: Source, p: Parsers, path: Index, raw: string,
                        fs: seq<Value>, violations: seq<Violation>)
    requires WellFormed(u) && root < |u| && FieldReported(u, root, prefix, src, p, path, fs, violations)
    requires var at := RootPlace(u, root, prefix);
             && SpotAt(u, at, path).Some? && !IsNested(SpotAt(u, at, path).value.field.ty) && OpenAt(u, at, path, src)
    requires Raw(SpotAt(u, RootPlace(u, root, prefix), path).value, src) == Some(raw)
    ensures var at := RootPlace(u, root, prefix);
            var s, name := SpotAt(u, at, path).value, NameAt(u, at, path);
            && (Undecodable(s.prefix + s.field.env.value, name) in violations <==> Means(p, s.field.ty, raw, None))
            && (violations == [] ==> ValueAt(fs, path).Some? && Means(p, s.field.ty, raw, ValueAt(fs, path)))
  {
    var at := RootPlace(u, root, prefix);
    var s, name := SpotAt(u, at, path).value, NameAt(u, at, path);
    var v := Undecodable(s.prefix + s.field.env.value, name);
    if Means(p, s.field.ty, raw, None) { assert Faulty(p, src, s, name, v); }
  }

  /** A scalar, or a type that parses itself, is rejected exactly when its parser rejects the string and
      holds else what the parser says; a pointer to one is a reference to that. */
  lemma ScalarsAreRead(u: Universe, root: nat, prefix: string, src: Source, p: Parsers, path: Index, raw: string,
                       fs: seq<Value>, violations: seq<Violation>)
    requires WellFormed(u) && root < |u| && FieldReported(u, root, prefix, src, p, path, fs, violations)
    requires var at := RootPlace(u, root, prefix);
             && SpotAt(u, at, path).Some? && !IsNested(SpotAt(u, at, path).value.field.ty) && OpenAt(u, at, path, src)
    requires Raw(SpotAt(u, RootPlace(u, root, prefix), path).value, src) == Some(raw)
    ensures var at := RootPlace(u, root, prefix);
            var s, name := SpotAt(u, at, path).value, NameAt(u, at, path);
            var t := s.field.ty;
            && (Scalarly(t) ==>
                  Read(s, name, fs, path, violations, p(t.parser, raw) == None, ScalarOf(p(t.parser, raw))))
            && (t.Pointer? && Scalarly(t.elem) ==>
                  Read(s, name, fs, path, violations, p(t.elem.parser, raw) == None,
                    Ref(ScalarOf(p(t.elem.parser, raw)))))
  {
    RejectedExactly(u, root, prefix, src, p, path, raw, fs, violations);
  }

  /** An empty string is an empty slice, and a slice of scalars is rejected exactly when the parser rejects
      one of the comma-separated parts, and holds else what it says of each. */
  lemma SlicesAreRead(u: Universe, root: nat, prefix: string, src: Source, p: Parsers, path: Index, raw: string,
                      fs: seq<Value>, violations: seq<Violation>)
    requires WellFormed(u) && root < |u| && FieldReported(u, root, prefix, src, p, path, fs, violations)
    requires var at := RootPlace(u, root, prefix);
             && SpotAt(u, at, path).Some? && !IsNested(SpotAt(u, at, path).value.field.ty) && OpenAt(u, at, path, src)
    requires Raw(SpotAt(u, RootPlace(u, root, prefix), path).value, src) == Some(raw)
    requires var t := SpotAt(u, RootPlace(u, root, prefix), path).value.field.ty; t.Slice? && t.elem.Leaf?
    ensures var at, parts := RootPlace(u, root, prefix), Split(raw);
            var s, name := SpotAt(u, at, path).value, NameAt(u, at, path);
            var k := s.field.ty.elem.parser;
            if raw == "" then Read(s, name, fs, path, violations, false, List([]))
            else
              Read(s, name, fs, path, violations, exists i :: 0 <= i < |parts| && p(k, parts[i]) == None,
                   List(seq(|parts|, i requires 0 <= i < |parts| => ScalarOf(p(k, parts[i])))))
  {
    RejectedExactly(u, root, prefix, src, p, path, raw, fs, violations);
    var at := RootPlace(u, root, prefix);
    var s := SpotAt(u, at, path).value;
    if raw != "" {
      PartsAreRead(p, s.field.ty.elem.parser, raw,
                   Undecodable(s.prefix + s.field.env.value, NameAt(u, at, path)) in violations,
                   violations == [], ValueAt(fs, path));
    }
  }

  lemma PartsAreRead(p: Parsers, k: nat, raw: string, reported: bool, none: bool, x: Option<Value>)
    requires raw != "" && (reported <==> Means(p, Slice(Leaf(k)), raw, None))
    requires none ==> x.Some? && Means(p, Slice(Leaf(k)), raw, x)
    ensures var parts := Split(raw);
            && (reported <==> exists i :: 0 <= i < |parts| && p(k, parts[i]) == None)
            && (none ==> x == Some(List(seq(|parts|, i requires 0 <= i < |parts| => ScalarOf(p(k, parts[i]))))))
  {
    var parts := Split(raw);
    forall i | 0 <= i < |parts| ensures Means(p, Leaf(k), parts[i], None) <==> p(k, parts[i]) == None {}
    if none {
      forall i | 0 <= i < |parts| ensures x.value.elems[i] == ScalarOf(p(k, parts[i])) {
        assert Means(p, Leaf(k), parts[i], Some(x.value.elems[i]));
      }
      assert x.value.elems == seq(|parts|, i requires 0 <= i < |parts| => ScalarOf(p(k, parts[i])));
    }
  }

  /** So for every key in the source, wherever its field lies. */
  lemma SetKeysAreRead(u: Universe, root: nat, prefix: string, src: Source, path: Index, key: string)
    requires WellFormed(u) && root < |u| && SpotAt(u, RootPlace(u, root, prefix), path).Some? && key in src
    requires Keyed(SpotAt(u, RootPlace(u, root, prefix), path).value, key)
    ensures OpenAt(u, RootPlace(u, root, prefix), path, src)
    ensures Raw(SpotAt(u, RootPlace(u, root, prefix), path).value, src) == Some(src[key])
  {
    SetKeyOpens(u, RootPlace(u, root, prefix), path, key, src);
  }

  /** A field without a string, in blocks that are there: a pointer is nil, anything else is required. */
  lemma UnsetFieldsAreRequired(u: Universe, root: nat, prefix: string, src: Source, p: Parsers, path: Index,
                               fs: seq<Value>, violations: seq<Violation>)
    requires WellFormed(u) && root < |u| && FieldReported(u, root, prefix, src, p, path, fs, violations)
    requires var at := RootPlace(u, root, prefix);
             && SpotAt(u, at, path).Some? && !IsNested(SpotAt(u, at, path).value.field.ty) && OpenAt(u, at, path, src)
    requires var s := SpotAt(u, RootPlace(u, root, prefix), path).value;
             s.field.env.Some? && s.prefix + s.field.env.value !in src && s.field.def == None
    ensures var at := RootPlace(u, root, prefix);
            var s, name := SpotAt(u, at, path).value, NameAt(u, at, path);
            && (Required(s.prefix + s.field.env.value, name) in violations <==> !s.field.ty.Pointer?)
            && (violations == [] ==> ValueAt(fs, path) == Some(Nil))
  {
    var at := RootPlace(u, root, prefix);
    var s, name := SpotAt(u, at, path).value, NameAt(u, at, path);
    var v := Required(s.prefix + s.field.env.value, name);
    if !s.field.ty.Pointer? { assert Faulty(p, src, s, name, v); }
  }
}
