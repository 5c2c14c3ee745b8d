/**
 Registration: the Lifecycle object that Add, OnStarted, OnDrain and Fatal fill in
 (lifecycle/lifecycle.go). What Run does with it is the step system of LifecycleRun.
 */
module Lifecycle {
  import opened Prelude
  import opened Levels
  import opened Health

  type Err = int

  const DEFAULT_STOP_TIMEOUT := 15_000_000_000

  datatype Ref = Ref(owner: Lifecycle, i: int)

  datatype ConstructionError = NilStart(name: string) | NilStop(name: string) | ForeignRef(name: string)

  datatype Component = Component(name: string, hasStart: bool, hasStop: bool,
                                 afterRefs: seq<Ref>, after: seq<int>, stopTimeout: int)

  /** The dependency graph Run hands to levels. */
  function GraphOf(comps: seq<Component>): (g: Graph)
    ensures |g| == |comps| && forall i :: 0 <= i < |g| ==> g[i] == comps[i].after
  {
    seq(|comps|, i requires 0 <= i < |comps| => comps[i].after)
  }

  /** A Ref that `owner` may resolve while it has `n` components. */
  predicate Resolvable(owner: Lifecycle, r: Ref, n: nat) {
    r.owner == owner && 0 <= r.i < n
  }

  /** The refs of `refs` that resolve, as indices, in order. */
  function ResolvedRefs(owner: Lifecycle, refs: seq<Ref>, n: nat): (s: seq<int>) {
    if refs == [] then []
    else
      var init := ResolvedRefs(owner, refs[..|refs| - 1], n);
      var r := refs[|refs| - 1];
      if Resolvable(owner, r, n) then init + [r.i] else init
  }

  /** One construction error for each ref that does not resolve. */
  function RefErrors(owner: Lifecycle, refs: seq<Ref>, n: nat, name: string): (s: seq<ConstructionError>) {
    if refs == [] then []
    else
      var init := RefErrors(owner, refs[..|refs| - 1], n, name);
      if Resolvable(owner, refs[|refs| - 1], n) then init else init + [ForeignRef(name)]
  }

  /** Every resolved index is in range, and when no error is reported nothing was dropped. */
  lemma {:induction false} RefsResolve(owner: Lifecycle, refs: seq<Ref>, n: nat, name: string)
    ensures var s := ResolvedRefs(owner, refs, n);
            && (forall k :: 0 <= k < |s| ==> 0 <= s[k] < n)
            && |s| + |RefErrors(owner, refs, n, name)| == |refs|
            && (RefErrors(owner, refs, n, name) == [] ==>
                  |s| == |refs| && forall k :: 0 <= k < |s| ==> Resolvable(owner, refs[k], n) && s[k] == refs[k].i)
  {
    if refs != [] { RefsResolve(owner, refs[..|refs| - 1], n, name); }
  }

  /** A Ref of another Lifecycle, or to a component not added yet, adds one error and no edge; any other
      adds its edge and no error. */
  lemma OneMoreRef(owner: Lifecycle, refs: seq<Ref>, r: Ref, n: nat, name: string)
    ensures var usable := r.owner == owner && 0 <= r.i < n;
            && ResolvedRefs(owner, refs + [r], n) == ResolvedRefs(owner, refs, n) + (if usable then [r.i] else [])
            && RefErrors(owner, refs + [r], n, name)
               == RefErrors(owner, refs, n, name) + (if usable then [] else [ForeignRef(name)])
  {
    assert (refs + [r])[..|refs|] == refs;
  }

  /** Add reports a missing Start, a missing Stop, and a Ref that is not of this Lifecycle and of a component
      added before, and nothing else. */
  lemma {:induction false} ReportedByAdd(owner: Lifecycle, name: string, hasStart: bool, hasStop: bool,
                                         refs: seq<Ref>, n: nat)
    ensures var errs := AddErrors(owner, name, hasStart, hasStop, refs, n);
            && (forall e :: e in errs ==> e in {NilStart(name), NilStop(name), ForeignRef(name)})
            && (NilStart(name) in errs <==> !hasStart) && (NilStop(name) in errs <==> !hasStop)
            && (ForeignRef(name) in errs <==>
                  exists k :: 0 <= k < |refs| && !(refs[k].owner == owner && 0 <= refs[k].i < n))
  {
    UsableExactly(owner, name, refs, n);
    var foreign := RefErrors(owner, refs, n, name);
    if foreign != [] { assert foreign[0] in foreign; }
  }

  lemma {:induction false} UsableExactly(owner: Lifecycle, name: string, refs: seq<Ref>, n: nat)
    ensures forall e :: e in RefErrors(owner, refs, n, name) ==> e == ForeignRef(name)
    ensures RefErrors(owner, refs, n, name) == [] <==>
            forall k :: 0 <= k < |refs| ==> refs[k].owner == owner && 0 <= refs[k].i < n
  {
    if refs != [] {
      var init, last := refs[..|refs| - 1], refs[|refs| - 1];
      UsableExactly(owner, name, init, n);
      OneMoreRef(owner, init, last, n, name);
      assert refs == init + [last];
    }
  }

  /** Component `i` lost nothing it declared: both functions present, every Ref resolved. */
  ghost predicate Complete(owner: Lifecycle, c: Component, i: nat) {
    && c.hasStart && c.hasStop
    && |c.after| == |c.afterRefs|
    && (forall k :: 0 <= k < |c.after| ==> Resolvable(owner, c.afterRefs[k], i) && c.after[k] == c.afterRefs[k].i)
  }

  /** The graph only points backwards, and an empty error list means nothing declared was lost. */
  ghost predicate WellBuilt(owner: Lifecycle, comps: seq<Component>, errs: seq<ConstructionError>) {
    && Forward(GraphOf(comps))
    && (errs == [] ==> forall i :: 0 <= i < |comps| ==> Complete(owner, comps[i], i))
  }

  /** What Add appends to the error list. */
  function AddErrors(owner: Lifecycle, name: string, hasStart: bool, hasStop: bool, refs: seq<Ref>,
                     n: nat): seq<ConstructionError> {
    (if hasStart then [] else [NilStart(name)]) + (if hasStop then [] else [NilStop(name)])
    + RefErrors(owner, refs, n, name)
  }

  lemma AddKeepsWellBuilt(owner: Lifecycle, comps: seq<Component>, errs: seq<ConstructionError>,
                          name: string, hasStart: bool, hasStop: bool, refs: seq<Ref>, timeout: int)
    requires WellBuilt(owner, comps, errs)
    ensures WellBuilt(owner,
                      comps + [Component(name, hasStart, hasStop, refs, ResolvedRefs(owner, refs, |comps|), timeout)],
                      errs + AddErrors(owner, name, hasStart, hasStop, refs, |comps|))
  {
    RefsResolve(owner, refs, |comps|, name);
    var c := Component(name, hasStart, hasStop, refs, ResolvedRefs(owner, refs, |comps|), timeout);
    assert forall i :: 0 <= i < |comps| ==> GraphOf(comps + [c])[i] == GraphOf(comps)[i];
    assert errs + AddErrors(owner, name, hasStart, hasStop, refs, |comps|) == [] ==> errs == [];
  }

  class Lifecycle {
    var stopTimeout: int
    var comps: seq<Component>
    var errs: seq<ConstructionError>
    var startedHooks: seq<Hook>
    var drainHooks: seq<Hook>
    var fatalErr: Option<Err>
    var fatalClosed: bool

    ghost predicate Valid()
      reads this
    {
      WellBuilt(this, comps, errs) && (fatalClosed <==> fatalErr.Some?)
    }

    constructor (timeout: int)
      ensures Valid() && comps == [] && errs == [] && startedHooks == [] && drainHooks == []
      ensures stopTimeout == (if timeout == 0 then DEFAULT_STOP_TIMEOUT else timeout)
      ensures fatalErr == None
    {
      stopTimeout := if timeout == 0 then DEFAULT_STOP_TIMEOUT else timeout;
      comps, errs, startedHooks, drainHooks := [], [], [], [];
      fatalErr, fatalClosed := None, false;
    }

    /** Add: whatever the caller declares, the graph stays forward; each unusable
        declaration adds one error and is dropped. */
    method Add(name: string, hasStart: bool, hasStop: bool, refs: seq<Ref>, timeout: int) returns (ref: Ref)
      requires Valid()
      modifies `comps, `errs
      ensures Valid()
      ensures ref == Ref(this, |old(comps)|)
      ensures comps == old(comps)
                       + [Component(name, hasStart, hasStop, refs, ResolvedRefs(this, refs, |old(comps)|), timeout)]
      ensures errs == old(errs) + AddErrors(this, name, hasStart, hasStop, refs, |old(comps)|)
    {
      AddKeepsWellBuilt(this, comps, errs, name, hasStart, hasStop, refs, timeout);
      if !hasStart { errs := errs + [NilStart(name)]; }
      if !hasStop { errs := errs + [NilStop(name)]; }
      var after := ResolveRefs(name, refs);
      assert errs == old(errs) + AddErrors(this, name, hasStart, hasStop, refs, |comps|);
      comps := comps + [Component(name, hasStart, hasStop, refs, after, timeout)];
      ref := Ref(this, |comps| - 1);
    }

    /** The loop over the declared refs: each one resolves to an index or adds an error. */
    method ResolveRefs(name: string, refs: seq<Ref>) returns (after: seq<int>)
      modifies `errs
      ensures after == ResolvedRefs(this, refs, |comps|)
      ensures errs == old(errs) + RefErrors(this, refs, |comps|, name)
    {
      after := [];
      for k := 0 to |refs|
        invariant after == ResolvedRefs(this, refs[..k], |comps|)
        invariant errs == old(errs) + RefErrors(this, refs[..k], |comps|, name)
      {
        assert refs[..k + 1][..k] == refs[..k];
        if !Resolvable(this, refs[k], |comps|) {
          errs := errs + [ForeignRef(name)];
        } else {
          after := after + [refs[k].i];
        }
      }
      assert refs[..|refs|] == refs;
    }

    method OnStarted(h: Hook)
      modifies `startedHooks
      ensures startedHooks == old(startedHooks) + [h]
    {
      startedHooks := startedHooks + [h];
    }

    method OnDrain(h: Hook)
      modifies `drainHooks
      ensures drainHooks == old(drainHooks) + [h]
    {
      drainHooks := drainHooks + [h];
    }

    /** Fatal as one call with no other call running: the first error that is not nil
        wins and closes the channel; nothing later changes either. */
    method Fatal(err: Option<Err>)
      requires Valid()
      modifies `fatalErr, `fatalClosed
      ensures Valid()
      ensures fatalErr == if old(fatalErr).Some? then old(fatalErr) else err
    {
      if err == None { return; }
      if !fatalClosed {
        fatalErr := err;
        fatalClosed := true;
      }
    }
  }
}
