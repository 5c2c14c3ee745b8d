/** What a handler with extractors renders, compared with plain slog (logging/handler.go). */
module LogTheorems {
  import opened LogTree
  import opened LogHandler

  /** What Handle renders for a handler on `base` reached by `calls`. */
  function Handled(elide: bool, base: seq<Op>, calls: seq<Op>, ex: Extracted, record: seq<Attr>): seq<Node> {
    if ex == [] then Render(elide, base + Effective(calls), record)
    else if Effective(calls) == [] then Render(elide, base, record + Concat(ex))
    else Render(elide, base + ExtractorOps(ex) + Effective(calls), record)
  }

  /** A handler and its Handle are this function of the path that led to the handler. */
  method HandleIsAFunctionOfThePath(h: Handler, elide: bool, ex: Extracted, record: seq<Attr>) returns (tree: seq<Node>)
    requires h.Valid() && |ex| == h.extractors
    ensures tree == Handled(elide, h.base, h.path, ex, record)
  {
    tree := Handle(h, elide, ex, record);
    assert record + [] == record;
  }

  lemma {:induction false} ExtractorOpsAttach(ex: Extracted)
    ensures Ungrouped(ExtractorOps(ex)) && Attached(ExtractorOps(ex)) == Concat(ex)
  {
    if ex != [] {
      var init, last := ex[..|ex| - 1], ex[|ex| - 1];
      ExtractorOpsAttach(init);
      if last != [] { AttachedAppend(ExtractorOps(init), last); }
    }
  }

  /** Where the extractor attributes are put among the top-level nodes. */
  function Place(base: seq<Op>, calls: seq<Op>, record: seq<Attr>): nat {
    |Attached(base)| + if Effective(calls) == [] then |record| else 0
  }

  /** Over an ungrouped base the tree is exactly plain slog's with the extractor attributes put in
      at the top level, side by side and in order, and nothing put anywhere else: in front of the
      deferred calls on the slow path, after the record's own attributes on the fast one. */
  lemma ExtractorsLandOnTop(elide: bool, base: seq<Op>, calls: seq<Op>, ex: Extracted, record: seq<Attr>)
    requires Ungrouped(base)
    ensures var plain := Plain(elide, base, calls, record);
            var at := Place(base, calls, record);
            && at <= |plain|
            && Handled(elide, base, calls, ex, record) == plain[..at] + Leaves(Concat(ex)) + plain[at..]
  {
    PlainTree(elide, base, calls, record);
    var plain, at := Plain(elide, base, calls, record), Place(base, calls, record);
    if ex == [] {
      NoExtractorsMeansPlain(elide, base, calls, record);
      assert plain[..at] + [] + plain[at..] == plain;
    } else if Effective(calls) == [] {
      LandsOnTheFastPath(elide, base, calls, ex, record);
    } else {
      LandsOnTheSlowPath(elide, base, calls, ex, record);
    }
  }

  lemma LandsOnTheFastPath(elide: bool, base: seq<Op>, calls: seq<Op>, ex: Extracted, record: seq<Attr>)
    requires Ungrouped(base) && ex != [] && Effective(calls) == []
    ensures var plain := Plain(elide, base, calls, record);
            var at := Place(base, calls, record);
            && at <= |plain|
            && Handled(elide, base, calls, ex, record) == plain[..at] + Leaves(Concat(ex)) + plain[at..]
  {
    PlainTree(elide, base, calls, record);
    FastPathTree(elide, base, ex, record);
    var plain, at := Plain(elide, base, calls, record), Place(base, calls, record);
    Inserted(plain, at, Leaves(Attached(base)) + Leaves(record), [], Leaves(Concat(ex)));
  }

  lemma LandsOnTheSlowPath(elide: bool, base: seq<Op>, calls: seq<Op>, ex: Extracted, record: seq<Attr>)
    requires Ungrouped(base) && ex != [] && Effective(calls) != []
    ensures var plain := Plain(elide, base, calls, record);
            var at := Place(base, calls, record);
            && at <= |plain|
            && Handled(elide, base, calls, ex, record) == plain[..at] + Leaves(Concat(ex)) + plain[at..]
  {
    PlainTree(elide, base, calls, record);
    SlowPathTree(elide, base, Effective(calls), ex, record);
    var plain, at := Plain(elide, base, calls, record), Place(base, calls, record);
    Inserted(plain, at, Leaves(Attached(base)), Render(elide, Effective(calls), record), Leaves(Concat(ex)));
  }

  lemma PlainTree(elide: bool, base: seq<Op>, calls: seq<Op>, record: seq<Attr>)
    requires Ungrouped(base)
    ensures Plain(elide, base, calls, record) == Leaves(Attached(base)) + Render(elide, Effective(calls), record)
  {
    PlainIsEffective(elide, base, calls, record);
    RenderAfterUngrouped(elide, base, Effective(calls), record);
  }

  lemma PlainIsEffective(elide: bool, base: seq<Op>, calls: seq<Op>, record: seq<Attr>)
    ensures Plain(elide, base, calls, record) == Render(elide, base + Effective(calls), record)
  {
    EffectiveRendersTheSame(elide, base, calls, [], record);
    assert base + Effective(calls) + [] == base + Effective(calls) && base + calls + [] == base + calls;
  }

  lemma Inserted(plain: seq<Node>, at: nat, a: seq<Node>, b: seq<Node>, x: seq<Node>)
    requires plain == a + b && at == |a|
    ensures plain[..at] + x + plain[at..] == a + x + b
  {
    assert plain[..at] == a && plain[at..] == b;
  }

  lemma FastPathTree(elide: bool, base: seq<Op>, ex: Extracted, record: seq<Attr>)
    requires Ungrouped(base)
    ensures Render(elide, base, record + Concat(ex)) == Leaves(Attached(base)) + Leaves(record) + Leaves(Concat(ex))
  {
    assert base + [] == base;
    RenderAfterUngrouped(elide, base, [], record + Concat(ex));
    LeavesConcat(record, Concat(ex));
  }

  lemma SlowPathTree(elide: bool, base: seq<Op>, ops: seq<Op>, ex: Extracted, record: seq<Attr>)
    requires Ungrouped(base)
    ensures Render(elide, base + ExtractorOps(ex) + ops, record) ==
            Leaves(Attached(base)) + Leaves(Concat(ex)) + Render(elide, ops, record)
  {
    ExtractorOpsAttach(ex);
    assert base + ExtractorOps(ex) + ops == base + (ExtractorOps(ex) + ops);
    RenderAfterUngrouped(elide, base, ExtractorOps(ex) + ops, record);
    RenderAfterUngrouped(elide, ExtractorOps(ex), ops, record);
  }

  /** With no extractors the handler is plain slog, over any base. */
  lemma NoExtractorsMeansPlain(elide: bool, base: seq<Op>, calls: seq<Op>, record: seq<Attr>)
    ensures Handled(elide, base, calls, [], record) == Plain(elide, base, calls, record)
  {
    PlainIsEffective(elide, base, calls, record);
  }

  /** The two paths agree up to the order of top-level nodes: replaying no calls on the slow path
      would render the same nodes as the fast path does. */
  lemma PathsAgreeUpToOrder(elide: bool, base: seq<Op>, ex: Extracted, record: seq<Attr>)
    requires Ungrouped(base)
    ensures multiset(Render(elide, base + ExtractorOps(ex), record))
            == multiset(Render(elide, base, record + Concat(ex)))
  {
    FastPathTree(elide, base, ex, record);
    SlowPathTree(elide, base, [], ex, record);
    assert base + ExtractorOps(ex) + [] == base + ExtractorOps(ex);
  }

  /** The leaves at the top level of a tree. */
  predicate OnTop(tree: seq<Node>, attr: Attr) { Leaf(attr) in tree }

  /** The promise of top-level placement rests on the base: an attribute that only an extractor
      supplies is at the top level exactly when the base handler was given with no group open. */
  lemma {:induction false} TopLevelNeedsAnUngroupedBase(elide: bool, base: seq<Op>, calls: seq<Op>, ex: Extracted,
                                                        record: seq<Attr>, attr: Attr)
    requires attr in Concat(ex)
    requires attr !in Attached(base) && attr !in record && attr !in Attached(Effective(calls))
    ensures OnTop(Handled(elide, base, calls, ex, record), attr) <==> Ungrouped(base)
  {
    if Ungrouped(base) {
      ExtractorsLandOnTop(elide, base, calls, ex, record);
      LeafOf(Concat(ex), attr);
    } else if Effective(calls) == [] {
      BuriedByGroup(elide, base, [], record + Concat(ex), attr);
      assert base + [] == base;
    } else {
      BuriedByGroup(elide, base, ExtractorOps(ex) + Effective(calls), record, attr);
      assert base + ExtractorOps(ex) + Effective(calls) == base + (ExtractorOps(ex) + Effective(calls));
    }
  }

  lemma LeafOf(attrs: seq<Attr>, attr: Attr)
    ensures Leaf(attr) in Leaves(attrs) <==> attr in attrs
  {
    if attr in attrs {
      var k :| 0 <= k < |attrs| && attrs[k] == attr;
      assert Leaves(attrs)[k] == Leaf(attr);
    }
  }

  lemma {:induction false} BuriedByGroup(elide: bool, base: seq<Op>, rest: seq<Op>, record: seq<Attr>, attr: Attr)
    requires !Ungrouped(base) && attr !in Attached(base)
    ensures !OnTop(Render(elide, base + rest, record), attr)
  {
    assert (base + rest)[1..] == base[1..] + rest;
    if base[0].WithAttrs? {
      BuriedByGroup(elide, base[1..], rest, record, attr);
      LeafOf(base[0].attrs, attr);
    } else if base[0].name == "" {
      BuriedByGroup(elide, base[1..], rest, record, attr);
    }
  }

  /** With a group open on the base an extractor's attribute ends up inside it. */
  lemma GroupedBaseHidesExtractors()
    ensures var id := Attr("request_id", 7);
            Handled(true, [WithGroup("http")], [], [[id]], []) == [Group("http", [Leaf(id)])]
  {
    var id := Attr("request_id", 7);
    assert [[id]][..0] == [];
    assert Concat([[id]]) == [] + [id] == [id];
    assert [WithGroup("http")][1..] == [];
    assert [] + [id] == [id];
    assert Leaves([id]) == [Leaf(id)];
    assert Render(true, [], [id]) == [Leaf(id)];
  }

  function Lengths(ex: Extracted): nat { if ex == [] then 0 else Lengths(ex[..|ex| - 1]) + |ex[|ex| - 1]| }

  /** Every extractor's attributes are there, whole and in the order of the extractors. */
  lemma {:induction false} ExtractorsInOrder(ex: Extracted, k: nat)
    requires k < |ex|
    ensures var from := Lengths(ex[..k]);
            from + |ex[k]| <= |Concat(ex)| == Lengths(ex) && Concat(ex)[from..from + |ex[k]|] == ex[k]
  {
    var m := |ex| - 1;
    LengthIsSum(ex);
    LengthIsSum(ex[..m]);
    if k < m {
      ExtractorsInOrder(ex[..m], k);
      assert ex[..m][..k] == ex[..k];
    }
  }

  lemma {:induction false} LengthIsSum(ex: Extracted)
    ensures |Concat(ex)| == Lengths(ex)
  {
    if ex != [] { LengthIsSum(ex[..|ex| - 1]); }
  }

  /** Over a base with no group open, each attribute of each extractor is at the top level. */
  lemma EveryExtractorIsOnTop(elide: bool, base: seq<Op>, calls: seq<Op>, ex: Extracted, record: seq<Attr>, k: nat,
                              attr: Attr)
    requires Ungrouped(base) && k < |ex| && attr in ex[k]
    ensures OnTop(Handled(elide, base, calls, ex, record), attr)
  {
    ExtractorsInOrder(ex, k);
    assert attr in Concat(ex)[Lengths(ex[..k])..Lengths(ex[..k]) + |ex[k]|];
    ExtractorsLandOnTop(elide, base, calls, ex, record);
    LeafOf(Concat(ex), attr);
  }
}
