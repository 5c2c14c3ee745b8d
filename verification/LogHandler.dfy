/**
 The deferred handler (logging/handler.go). The list of deferred calls is a Go slice: a window on
 a backing array with spare capacity that an append may write into.
 */
module LogHandler {
  import opened LogTree

  /** A Go slice of ops: the first `len` elements of `arr`, with room for `cap`. */
  datatype Slice = Slice(arr: array<Op>, len: nat, cap: nat) {
    predicate Valid() { len <= cap <= arr.Length }

    function Contents(): seq<Op>
      requires Valid()
      reads arr
    {
      arr[..len]
    }

    /** slices.Clip: the same window with no spare capacity. */
    function Clip(): (s: Slice)
      requires Valid()
      ensures s.Valid() && s.arr == arr && s.len == len && s.cap == len
    {
      Slice(arr, len, len)
    }
  }

  /** append(s, op): writes into the spare capacity when there is some, else copies to a larger
      array with `spare` elements to spare. */
  method Append(s: Slice, op: Op, spare: nat) returns (r: Slice)
    requires s.Valid()
    modifies if s.len < s.cap then {s.arr} else {}
    ensures r.Valid() && r.len == s.len + 1
    ensures r.Contents() == old(s.Contents()) + [op]
    ensures if s.len < s.cap
            then r.arr == s.arr && r.cap == s.cap && s.arr[..] == old(s.arr[..])[s.len := op]
            else fresh(r.arr) && r.cap == s.len + 1 + spare
  {
    if s.len < s.cap {
      s.arr[s.len] := op;
      r := Slice(s.arr, s.len + 1, s.cap);
    } else {
      var bigger := new Op[s.len + 1 + spare](_ => op);
      for k := 0 to s.len
        invariant bigger[..k] == s.arr[..k] && bigger[s.len] == op
        invariant s.arr[..] == old(s.arr[..])
      {
        bigger[k] := s.arr[k];
      }
      r := Slice(bigger, s.len + 1, s.len + 1 + spare);
    }
  }

  /** Extractors are functions of the request context; `ex[k]` is what extractor k returns for it. */
  type Extracted = seq<seq<Attr>>

  function Concat(ex: Extracted): (r: seq<Attr>) {
    if ex == [] then [] else Concat(ex[..|ex| - 1]) + ex[|ex| - 1]
  }

  /** One WithAttrs call on the base for each extractor that contributes something. */
  function ExtractorOps(ex: Extracted): (r: seq<Op>) {
    if ex == [] then []
    else
      var init, last := ExtractorOps(ex[..|ex| - 1]), ex[|ex| - 1];
      if last == [] then init else init + [WithAttrs(last)]
  }

  /** The handler: the calls already applied to the base, how many extractors it has, and the calls
      it has deferred. `path` is the list of calls that led to it from the root. */
  class Handler {
    const next: seq<Op>
    const extractors: nat
    const ops: Slice
    ghost const base: seq<Op>
    ghost const path: seq<Op>

    ghost predicate Valid()
      reads ops.arr
    {
      && ops.Valid()
      && (extractors == 0 ==> ops.len == 0 && next == base + Effective(path))
      && (extractors > 0 ==> next == base && ops.Contents() == Effective(path))
    }

    constructor (next: seq<Op>, extractors: nat, ops: Slice, ghost base: seq<Op>, ghost path: seq<Op>)
      ensures this.next == next && this.extractors == extractors && this.ops == ops
      ensures this.base == base && this.path == path
    {
      this.next, this.extractors, this.ops, this.base, this.path := next, extractors, ops, base, path;
    }
  }

  method NewHandler(next: seq<Op>, extractors: nat) returns (h: Handler)
    ensures h.Valid() && h.base == next && h.path == [] && h.extractors == extractors
  {
    var none := new Op[0];
    h := new Handler(next, extractors, Slice(none, 0, 0), next, []);
  }

  /** WithAttrs and WithGroup: an empty call returns the receiver, without extractors the call goes
      to the base at once, otherwise it is deferred. Nothing that exists is written to. */
  method Derive(h: Handler, op: Op, spare: nat) returns (child: Handler)
    requires h.Valid()
    ensures child.Valid() && child.base == h.base && child.extractors == h.extractors
    ensures Effective(child.path) == Effective(h.path + [op])
    ensures if Ignored(op) then child == h else child.path == h.path + [op]
  {
    assert (h.path + [op])[..|h.path|] == h.path;
    if Ignored(op) { return h; }
    if h.extractors == 0 {
      var none := new Op[0];
      child := new Handler(h.next + [op], 0, Slice(none, 0, 0), h.base, h.path + [op]);
    } else {
      var ops := Append(h.ops.Clip(), op, spare);
      child := new Handler(h.next, h.extractors, ops, h.base, h.path + [op]);
    }
  }

  /** What Handle renders: fast path with nothing deferred, slow path replaying on the root. */
  method Handle(h: Handler, elide: bool, ex: Extracted, record: seq<Attr>) returns (tree: seq<Node>)
    requires h.Valid() && |ex| == h.extractors
    ensures tree == if h.ops.len == 0 then Render(elide, h.next, record + Concat(ex))
                    else Render(elide, h.next + ExtractorOps(ex) + h.ops.Contents(), record)
  {
    if h.ops.len == 0 {
      if h.extractors == 0 {
        assert record + Concat(ex) == record;
        return Render(elide, h.next, record);
      }
      var r := record;
      for k := 0 to |ex|
        invariant r == record + Concat(ex[..k])
      {
        assert ex[..k + 1][..k] == ex[..k];
        if |ex[k]| > 0 { r := r + ex[k]; }
      }
      assert ex[..|ex|] == ex;
      return Render(elide, h.next, r);
    }
    var n := h.next;
    for k := 0 to |ex|
      invariant n == h.next + ExtractorOps(ex[..k])
    {
      assert ex[..k + 1][..k] == ex[..k];
      if |ex[k]| > 0 { n := n + [WithAttrs(ex[k])]; }
    }
    assert ex[..|ex|] == ex;
    for k := 0 to h.ops.len
      invariant n == h.next + ExtractorOps(ex) + h.ops.Contents()[..k]
    {
      n := n + [h.ops.arr[k]];
    }
    assert h.ops.Contents()[..h.ops.len] == h.ops.Contents();
    return Render(elide, n, record);
  }

  /** One derivation in a tree of them: from handler number `parent`, with call `op`. */
  datatype Derivation = Derivation(parent: nat, op: Op, spare: nat)

  /** The calls on the path from the root to each handler of the tree. */
  function Paths(script: seq<Derivation>): (r: seq<seq<Op>>)
    requires forall k :: 0 <= k < |script| ==> script[k].parent <= k
    ensures |r| == |script| + 1
  {
    if script == [] then [[]]
    else
      var init, d := Paths(script[..|script| - 1]), script[|script| - 1];
      init + [init[d.parent] + [d.op]]
  }

  /** Any tree of derivations: however the handlers share ancestors, each one ends up with the calls
      on its own path, whatever spare capacity the runtime left behind each append. */
  method DeriveTree(root: Handler, script: seq<Derivation>) returns (hs: seq<Handler>)
    requires root.Valid() && root.path == []
    requires forall k :: 0 <= k < |script| ==> script[k].parent <= k
    ensures |hs| == |script| + 1 && hs[0] == root
    ensures forall k :: 0 <= k < |hs| ==>
                          && hs[k].Valid() && hs[k].base == root.base && hs[k].extractors == root.extractors
                          && Effective(hs[k].path) == Effective(Paths(script)[k])
  {
    hs := [root];
    ghost var paths: seq<seq<Op>> := [[]];
    for n := 0 to |script|
      invariant |hs| == |paths| == n + 1 && hs[0] == root
      invariant paths == Paths(script[..n])
      invariant forall k :: 0 <= k <= n ==>
                              && hs[k].Valid() && hs[k].base == root.base && hs[k].extractors == root.extractors
                              && Effective(hs[k].path) == Effective(paths[k])
    {
      var d := script[n];
      var child := Derive(hs[d.parent], d.op, d.spare);
      assert script[..n + 1][..n] == script[..n];
      EffectiveAppend(hs[d.parent].path, d.op);
      EffectiveAppend(paths[d.parent], d.op);
      hs := hs + [child];
      paths := paths + [paths[d.parent] + [d.op]];
    }
    assert script[..|script|] == script;
  }

  lemma EffectiveAppend(calls: seq<Op>, op: Op)
    ensures Effective(calls + [op]) == Effective(calls) + if Ignored(op) then [] else [op]
  {
    assert (calls + [op])[..|calls|] == calls;
  }

  /** Without the Clip two children of a parent whose array has room share their last op: the first
      child reads the call made on the second. */
  method UnclippedSiblingsCollide(parent: Slice, a: Op, b: Op) returns (first: Slice, second: Slice)
    requires parent.Valid() && parent.len < parent.cap
    modifies parent.arr
    ensures first.Valid() && second.Valid()
    ensures first.Contents() == old(parent.Contents()) + [b]
    ensures second.Contents() == old(parent.Contents()) + [b]
  {
    first := Append(parent, a, 0);
    second := Append(parent, b, 0);
    assert first.arr[..first.len] == second.arr[..second.len];
  }
}
