/** Running a plan is decoding by recursion over the type. */
module ConfigRefinement {
  import opened ConfigTypes
  import opened ConfigPlan
  import opened ConfigSchema
  import opened ConfigLoad

  function Moved(at: Index, b: Binding): Binding { b.(index := at + b.index) }

  function MoveBindings(at: Index, bs: seq<Binding>): (r: seq<Binding>)
    ensures |r| == |bs| && forall k :: 0 <= k < |r| ==> r[k] == Moved(at, bs[k])
  {
    seq(|bs|, k requires 0 <= k < |bs| => Moved(at, bs[k]))
  }

  function MoveBlocks(at: Index, blks: seq<Block>): (r: seq<Block>)
    ensures |r| == |blks| && forall k :: 0 <= k < |r| ==> r[k] == blks[k].(index := at + blks[k].index)
  {
    seq(|blks|, k requires 0 <= k < |blks| => blks[k].(index := at + blks[k].index))
  }

  function MoveWrites(at: Index, ws: seq<Assignment>): (r: seq<Assignment>)
    ensures |r| == |ws| && forall k :: 0 <= k < |r| ==> r[k] == ws[k].(index := at + ws[k].index)
  {
    seq(|ws|, k requires 0 <= k < |ws| => ws[k].(index := at + ws[k].index))
  }

  /** The bindings that are decoded when `items` is the whole plan. */
  ghost function LiveItems(items: seq<Item>, src: Source): seq<Binding> {
    Live(Bindings(items), Bindings(items), Blocks(items), src)
  }

  ghost predicate AnyFound(bs: seq<Binding>, src: Source) {
    exists k :: 0 <= k < |bs| && bs[k].key in src
  }

  // ---- Plans fall apart along fields and move with their index --------------------------------------

  function BindingOf(item: Item): seq<Binding> { match item case Bind(b) => [b] case _ => [] }

  function BlockIn(item: Item): seq<Block> { match item case Group(blk) => [blk] case _ => [] }

  lemma OneMoreItem(items: seq<Item>, item: Item)
    ensures Bindings(items + [item]) == Bindings(items) + BindingOf(item)
    ensures Blocks(items + [item]) == Blocks(items) + BlockIn(item)
  {
    assert (items + [item])[..|items|] == items;
  }

  lemma {:induction false} BindingsConcat(a: seq<Item>, b: seq<Item>)
    ensures Bindings(a + b) == Bindings(a) + Bindings(b)
  {
    if b == [] {
      assert a + b == a;
    } else {
      var init, last := b[..|b| - 1], b[|b| - 1];
      BindingsConcat(a, init);
      assert b == init + [last] && a + b == a + init + [last];
      OneMoreItem(a + init, last);
    }
  }

  lemma {:induction false} BlocksConcat(a: seq<Item>, b: seq<Item>)
    ensures Blocks(a + b) == Blocks(a) + Blocks(b)
  {
    if b == [] {
      assert a + b == a;
    } else {
      var init, last := b[..|b| - 1], b[|b| - 1];
      BlocksConcat(a, init);
      assert b == init + [last] && a + b == a + init + [last];
      OneMoreItem(a + init, last);
    }
  }

  lemma PartsConcat(a: seq<Item>, b: seq<Item>)
    ensures Bindings(a + b) == Bindings(a) + Bindings(b) && Blocks(a + b) == Blocks(a) + Blocks(b)
  {
    BindingsConcat(a, b);
    BlocksConcat(a, b);
  }

  lemma MoveItem(at: Index, item: Item)
    ensures BindingOf(ShiftItem(at, item)) == MoveBindings(at, BindingOf(item))
    ensures BlockIn(ShiftItem(at, item)) == MoveBlocks(at, BlockIn(item))
  {}

  lemma MovesConcat(at: Index, bs: seq<Binding>, cs: seq<Binding>, blks: seq<Block>, clks: seq<Block>)
    ensures MoveBindings(at, bs + cs) == MoveBindings(at, bs) + MoveBindings(at, cs)
    ensures MoveBlocks(at, blks + clks) == MoveBlocks(at, blks) + MoveBlocks(at, clks)
  {}

  lemma {:induction false} PartsMove(at: Index, items: seq<Item>)
    ensures Bindings(Shift(at, items)) == MoveBindings(at, Bindings(items))
    ensures Blocks(Shift(at, items)) == MoveBlocks(at, Blocks(items))
  {
    if items != [] {
      var init, last := items[..|items| - 1], items[|items| - 1];
      PartsMove(at, init);
      assert items == init + [last] && Shift(at, items) == Shift(at, init) + [ShiftItem(at, last)];
      OneMoreItem(init, last);
      OneMoreItem(Shift(at, init), ShiftItem(at, last));
      MoveItem(at, last);
      MovesConcat(at, Bindings(init), BindingOf(last), Blocks(init), BlockIn(last));
    }
  }

  ghost predicate PartsWithin(bs: seq<Binding>, blks: seq<Block>, lo: nat, hi: nat) {
    && (forall b :: b in bs ==> Starts(b.index, lo, hi))
    && (forall blk :: blk in blks ==> Starts(blk.index, lo, hi))
  }

  lemma {:induction false} PartsStart(items: seq<Item>, lo: nat, hi: nat)
    requires StartsWithin(items, lo, hi)
    ensures PartsWithin(Bindings(items), Blocks(items), lo, hi)
  {
    if items != [] { PartsStart(items[..|items| - 1], lo, hi); }
  }

  lemma {:induction false} LiveConcat(a: seq<Binding>, b: seq<Binding>, bs: seq<Binding>, blks: seq<Block>, src: Source)
    ensures Live(a + b, bs, blks, src) == Live(a, bs, blks, src) + Live(b, bs, blks, src)
  {
    if b == [] {
      assert a + b == a;
    } else {
      var m := |b| - 1;
      LiveConcat(a, b[..m], bs, blks, src);
      assert (a + b)[..|a + b| - 1] == a + b[..m];
    }
  }

  lemma {:induction false} LiveAgrees(some: seq<Binding>, bs: seq<Binding>, blks: seq<Block>, bs': seq<Binding>,
                                      blks': seq<Block>, src: Source)
    requires forall b :: b in some ==> (Skipped(bs, blks, src, b) <==> Skipped(bs', blks', src, b))
    ensures Live(some, bs, blks, src) == Live(some, bs', blks', src)
  {
    if some != [] { LiveAgrees(some[..|some| - 1], bs, blks, bs', blks', src); }
  }

  /** A larger plan skips what a part of it skips when nothing else lies above or below the part. */
  lemma SkippedInPart(b: Binding, bs: seq<Binding>, blks: seq<Block>, bs': seq<Binding>, blks': seq<Block>, src: Source)
    requires forall x :: x in bs ==> x in bs'
    requires forall x, y :: x in bs' && y in blks && Under(x.index, y.index) ==> x in bs
    requires forall y :: y in blks ==> y in blks'
    requires forall y :: y in blks' && Under(b.index, y.index) ==> y in blks
    ensures Skipped(bs, blks, src, b) <==> Skipped(bs', blks', src, b)
  {
    forall y | y in blks ensures Present(bs, src, y) <==> Present(bs', src, y) {
      if Present(bs, src, y) {
        var k :| 0 <= k < |bs| && Under(bs[k].index, y.index) && bs[k].key in src;
        assert bs[k] in bs';
        var l :| 0 <= l < |bs'| && bs'[l] == bs[k];
      }
      if Present(bs', src, y) {
        var k :| 0 <= k < |bs'| && Under(bs'[k].index, y.index) && bs'[k].key in src;
        assert bs'[k] in bs;
        var l :| 0 <= l < |bs| && bs[l] == bs'[k];
      }
    }
    if Skipped(bs, blks, src, b) {
      var j :| 0 <= j < |blks| && Under(b.index, blks[j].index) && !Present(bs, src, blks[j]);
      assert blks[j] in blks';
      var l :| 0 <= l < |blks'| && blks'[l] == blks[j];
    }
    if Skipped(bs', blks', src, b) {
      var j :| 0 <= j < |blks'| && Under(b.index, blks'[j].index) && !Present(bs', src, blks'[j]);
      assert blks'[j] in blks;
      var l :| 0 <= l < |blks| && blks[l] == blks'[j];
    }
  }

  /** Fields with lower and with higher first index do not affect each other. */
  lemma LiveSplits(a: seq<Item>, b: seq<Item>, m: nat, n: nat, src: Source)
    requires StartsWithin(a, 0, m) && StartsWithin(b, m, n)
    ensures LiveItems(a + b, src) == LiveItems(a, src) + LiveItems(b, src)
  {
    PartsConcat(a, b);
    PartsStart(a, 0, m);
    PartsStart(b, m, n);
    var bsA, bsB, blksA, blksB := Bindings(a), Bindings(b), Blocks(a), Blocks(b);
    LiveConcat(bsA, bsB, bsA + bsB, blksA + blksB, src);
    forall x | x in bsA ensures Skipped(bsA, blksA, src, x) <==> Skipped(bsA + bsB, blksA + blksB, src, x) {
      SkippedInPart(x, bsA, blksA, bsA + bsB, blksA + blksB, src);
    }
    forall x | x in bsB ensures Skipped(bsB, blksB, src, x) <==> Skipped(bsA + bsB, blksA + blksB, src, x) {
      SkippedInPart(x, bsB, blksB, bsA + bsB, blksA + blksB, src);
    }
    LiveAgrees(bsA, bsA, blksA, bsA + bsB, blksA + blksB, src);
    LiveAgrees(bsB, bsB, blksB, bsA + bsB, blksA + blksB, src);
  }

  lemma UnderMoved(at: Index, x: Index, y: Index)
    ensures Under(at + x, at + y) <==> Under(x, y)
  {
    if |x| > |y| {
      assert (at + x)[..|at + y|] == at + x[..|y|];
      if at + x[..|y|] == at + y { assert x[..|y|] == (at + x[..|y|])[|at|..] == (at + y)[|at|..] == y; }
    }
  }

  lemma PresentMoved(at: Index, bs: seq<Binding>, src: Source, blk: Block)
    ensures Present(MoveBindings(at, bs), src, blk.(index := at + blk.index)) <==> Present(bs, src, blk)
  {
    var moved, there := MoveBindings(at, bs), blk.(index := at + blk.index);
    forall k | 0 <= k < |bs| ensures Under(moved[k].index, there.index) <==> Under(bs[k].index, blk.index) {
      UnderMoved(at, bs[k].index, blk.index);
    }
    if Present(bs, src, blk) {
      var k :| 0 <= k < |bs| && Under(bs[k].index, blk.index) && bs[k].key in src;
      assert Under(moved[k].index, there.index) && moved[k].key in src;
    }
  }

  /** `b` lies in `blk`, which is absent. */
  ghost predicate DroppedBy(bs: seq<Binding>, src: Source, b: Binding, blk: Block) {
    Under(b.index, blk.index) && !Present(bs, src, blk)
  }

  lemma DroppedMoved(at: Index, bs: seq<Binding>, src: Source, b: Binding, blk: Block)
    ensures DroppedBy(MoveBindings(at, bs), src, Moved(at, b), blk.(index := at + blk.index))
            <==> DroppedBy(bs, src, b, blk)
  {
    UnderMoved(at, b.index, blk.index);
    PresentMoved(at, bs, src, blk);
  }

  lemma DroppedIsSkipped(bs: seq<Binding>, blks: seq<Block>, src: Source, b: Binding)
    ensures Skipped(bs, blks, src, b) <==> exists j :: 0 <= j < |blks| && DroppedBy(bs, src, b, blks[j])
  {
    if j :| 0 <= j < |blks| && DroppedBy(bs, src, b, blks[j]) {
      assert Under(b.index, blks[j].index);
    }
    if Skipped(bs, blks, src, b) {
      var j :| 0 <= j < |blks| && Under(b.index, blks[j].index) && !Present(bs, src, blks[j]);
      assert DroppedBy(bs, src, b, blks[j]);
    }
  }

  /** Moving a plan changes nothing, nor does putting it below a block that is present. */
  lemma SkippedMoved(at: Index, b: Binding, bs: seq<Binding>, blks: seq<Block>, above: seq<Block>, src: Source)
    requires forall j :: 0 <= j < |above| ==> Present(MoveBindings(at, bs), src, above[j])
    ensures Skipped(MoveBindings(at, bs), above + MoveBlocks(at, blks), src, Moved(at, b))
            <==> Skipped(bs, blks, src, b)
  {
    var moved, there := MoveBindings(at, bs), above + MoveBlocks(at, blks);
    DroppedIsSkipped(bs, blks, src, b);
    DroppedIsSkipped(moved, there, src, Moved(at, b));
    forall j | 0 <= j < |blks|
      ensures DroppedBy(moved, src, Moved(at, b), there[|above| + j]) <==> DroppedBy(bs, src, b, blks[j])
    {
      DroppedMoved(at, bs, src, b, blks[j]);
    }
    if j :| 0 <= j < |there| && DroppedBy(moved, src, Moved(at, b), there[j]) {
      assert j >= |above| && there[|above| + (j - |above|)] == there[j];
    }
  }

  lemma {:induction false} LiveMoved(at: Index, some: seq<Binding>, bs: seq<Binding>, blks: seq<Block>,
                                     above: seq<Block>, src: Source)
    requires forall j :: 0 <= j < |above| ==> Present(MoveBindings(at, bs), src, above[j])
    ensures Live(MoveBindings(at, some), MoveBindings(at, bs), above + MoveBlocks(at, blks), src)
            == MoveBindings(at, Live(some, bs, blks, src))
  {
    if some != [] {
      var m := |some| - 1;
      LiveMoved(at, some[..m], bs, blks, above, src);
      assert MoveBindings(at, some)[..m] == MoveBindings(at, some[..m]);
      SkippedMoved(at, some[m], bs, blks, above, src);
    }
  }

  lemma {:induction false} LiveUnderAbsent(some: seq<Binding>, bs: seq<Binding>, blks: seq<Block>, src: Source,
                                           blk: Block)
    requires blk in blks && !Present(bs, src, blk)
    requires forall b :: b in some ==> Under(b.index, blk.index)
    ensures Live(some, bs, blks, src) == []
  {
    if some != [] {
      LiveUnderAbsent(some[..|some| - 1], bs, blks, src, blk);
      var j :| 0 <= j < |blks| && blks[j] == blk;
    }
  }

  /** A struct held by value leaves its fields' bindings as they are. */
  lemma LiveByValue(i: nat, sub: seq<Item>, src: Source)
    ensures LiveItems(Shift([i], sub), src) == MoveBindings([i], LiveItems(sub, src))
  {
    PartsMove([i], sub);
    LiveMoved([i], Bindings(sub), Bindings(sub), Blocks(sub), [], src);
    assert [] + MoveBlocks([i], Blocks(sub)) == MoveBlocks([i], Blocks(sub));
  }

  lemma PartsOfBlock(blk: Block, sub: seq<Item>)
    ensures Bindings([Group(blk)] + sub) == Bindings(sub) && Blocks([Group(blk)] + sub) == [blk] + Blocks(sub)
  {
    PartsConcat([Group(blk)], sub);
    assert [Group(blk)][..0] == [];
  }

  lemma AllUnder(bs: seq<Binding>, blk: Block)
    requires |blk.index| == 1 && forall b :: b in bs ==> b.index != []
    ensures forall k :: 0 <= k < |bs| ==> Under(MoveBindings(blk.index, bs)[k].index, blk.index)
  {
    forall k | 0 <= k < |bs| ensures Under(MoveBindings(blk.index, bs)[k].index, blk.index) {
      assert bs[k] in bs;
      assert (blk.index + bs[k].index)[..1] == blk.index;
    }
  }

  /** Bindings below one block, which comes first: all or none of them get through. */
  lemma LiveBelow(blk: Block, bs: seq<Binding>, blks: seq<Block>, src: Source)
    requires |blk.index| == 1 && forall b :: b in bs ==> b.index != []
    ensures var moved := MoveBindings(blk.index, bs);
            Live(moved, moved, [blk] + MoveBlocks(blk.index, blks), src)
            == if AnyFound(bs, src) then MoveBindings(blk.index, Live(bs, bs, blks, src)) else []
  {
    var moved, all := MoveBindings(blk.index, bs), [blk] + MoveBlocks(blk.index, blks);
    AllUnder(bs, blk);
    if AnyFound(bs, src) {
      var k :| 0 <= k < |bs| && bs[k].key in src;
      assert Under(moved[k].index, blk.index) && moved[k].key in src;
      LiveMoved(blk.index, bs, bs, blks, [blk], src);
    } else {
      assert all[0] == blk;
      LiveUnderAbsent(moved, moved, all, src, blk);
    }
  }

  /** A block lets them through exactly when one of them is found. */
  lemma LiveInBlock(blk: Block, sub: seq<Item>, n: nat, src: Source)
    requires StartsWithin(sub, 0, n) && |blk.index| == 1
    ensures LiveItems([Group(blk)] + Shift(blk.index, sub), src)
            == if AnyFound(Bindings(sub), src) then MoveBindings(blk.index, LiveItems(sub, src)) else []
  {
    PartsOfBlock(blk, Shift(blk.index, sub));
    PartsMove(blk.index, sub);
    PartsStart(sub, 0, n);
    LiveBelow(blk, Bindings(sub), Blocks(sub), src);
  }

  // ---- Acts move and concatenate too ---------------------------------------------------------------

  ghost predicate ActsAdd(p: Parsers, src: Source, a: seq<Binding>, b: seq<Binding>, all: seq<Binding>)
    requires AllDecodable(a) && AllDecodable(b)
  {
    && AllDecodable(all)
    && Fails(p, src, all) == Fails(p, src, a) + Fails(p, src, b)
    && Writes(p, src, all) == Writes(p, src, a) + Writes(p, src, b)
  }

  lemma ActsAddNone(p: Parsers, src: Source, a: seq<Binding>)
    requires AllDecodable(a)
    ensures ActsAdd(p, src, a, [], a)
  {}

  lemma ActsAddOne(p: Parsers, src: Source, a: seq<Binding>, init: seq<Binding>, last: Binding)
    requires AllDecodable(a) && AllDecodable(init) && Decodable(last.ty) && ActsAdd(p, src, a, init, a + init)
    ensures AllDecodable(init + [last]) && ActsAdd(p, src, a, init + [last], a + init + [last])
  {
    var act := ActOf(p, src, last);
    OneMore(p, src, init, last);
    OneMore(p, src, a + init, last);
    Regroup(Fails(p, src, a), Fails(p, src, init), Failed(act));
    Regroup(Writes(p, src, a), Writes(p, src, init), Written(act));
  }

  lemma Regroup<T>(a: seq<T>, b: seq<T>, c: seq<T>)
    ensures a + (b + c) == a + b + c
  {}

  lemma {:induction false} ActsConcat(p: Parsers, src: Source, a: seq<Binding>, b: seq<Binding>)
    requires AllDecodable(a) && AllDecodable(b)
    ensures ActsAdd(p, src, a, b, a + b)
    decreases |b|
  {
    if |b| == 0 {
      assert b == [] && a + b == a;
      ActsAddNone(p, src, a);
    } else {
      var init, last := b[..|b| - 1], b[|b| - 1];
      Regroup(a, init, [last]);
      assert b == init + [last];
      ActsConcat(p, src, a, init);
      ActsAddOne(p, src, a, init, last);
    }
  }

  lemma ActMoves(p: Parsers, src: Source, at: Index, b: Binding)
    requires Decodable(b.ty)
    ensures ActOf(p, src, Moved(at, b))
            == var act := ActOf(p, src, b); if act.Write? then act.(index := at + act.index) else act
  {}

  lemma MoveOneMore(at: Index, bs: seq<Binding>, b: Binding)
    ensures MoveBindings(at, bs + [b]) == MoveBindings(at, bs) + [Moved(at, b)]
  {}

  lemma MoveOneWrite(at: Index, ws: seq<Assignment>, a: Assignment)
    ensures MoveWrites(at, ws + [a]) == MoveWrites(at, ws) + [a.(index := at + a.index)]
  {}

  ghost predicate ActsAlike(p: Parsers, src: Source, at: Index, bs: seq<Binding>)
    requires AllDecodable(bs)
  {
    && AllDecodable(MoveBindings(at, bs))
    && Fails(p, src, MoveBindings(at, bs)) == Fails(p, src, bs)
    && Writes(p, src, MoveBindings(at, bs)) == MoveWrites(at, Writes(p, src, bs))
  }

  lemma OneMoreAlike(p: Parsers, src: Source, at: Index, bs: seq<Binding>, b: Binding)
    requires AllDecodable(bs) && ActsAlike(p, src, at, bs) && Decodable(b.ty)
    ensures AllDecodable(bs + [b]) && ActsAlike(p, src, at, bs + [b])
  {
    MoveOneMore(at, bs, b);
    OneMore(p, src, bs, b);
    OneMore(p, src, MoveBindings(at, bs), Moved(at, b));
    ActMoves(p, src, at, b);
    var act := ActOf(p, src, b);
    if act.Write? { MoveOneWrite(at, Writes(p, src, bs), Assignment(act.index, act.value)); }
  }

  lemma {:induction false} ActsMove(p: Parsers, src: Source, at: Index, bs: seq<Binding>)
    requires AllDecodable(bs)
    ensures ActsAlike(p, src, at, bs)
    decreases |bs|
  {
    if |bs| == 0 {
      assert bs == [];
    } else {
      var init, last := bs[..|bs| - 1], bs[|bs| - 1];
      assert bs == init + [last];
      ActsMove(p, src, at, init);
      OneMoreAlike(p, src, at, init, last);
    }
  }

  lemma {:induction false} SetAllConcat(u: Universe, id: nat, fs: seq<Value>, a: seq<Assignment>, b: seq<Assignment>)
    requires WellFormed(u) && id < |u| && |fs| == |u[id].fields|
    ensures SetAll(u, id, fs, a + b) == SetAll(u, id, SetAll(u, id, fs, a), b)
  {
    if b == [] {
      assert a + b == a;
    } else {
      var m := |b| - 1;
      SetAllConcat(u, id, fs, a, b[..m]);
      assert (a + b)[..|a + b| - 1] == a + b[..m];
    }
  }

  function Wrap(t: Type, fs: seq<Value>): Value { if t.Pointer? then Ref(Record(fs)) else Record(fs) }

  /** The struct type that field `i` nests, and the fields it holds there. */
  ghost predicate NestHolds(u: Universe, id: nat, i: nat, fs: seq<Value>, inner: nat, gs: seq<Value>)
    requires WellFormed(u) && id < |u|
  {
    && |fs| == |u[id].fields| && i < |fs| && IsNested(u[id].fields[i].ty)
    && inner == Inner(u[id].fields[i].ty) && inner < |u|
    && gs == Target(u, inner, fs[i]) && |gs| == |u[inner].fields|
  }

  lemma SetAtNested(u: Universe, id: nat, i: nat, fs: seq<Value>, inner: nat, gs: seq<Value>, path: Index, x: Value)
    requires WellFormed(u) && id < |u| && NestHolds(u, id, i, fs, inner, gs) && path != []
    ensures SetAt(u, id, fs, [i] + path, x) == fs[i := Wrap(u[id].fields[i].ty, SetAt(u, inner, gs, path, x))]
  {
    assert ([i] + path)[1..] == path;
  }

  lemma NestHoldsWrapped(u: Universe, id: nat, i: nat, fs: seq<Value>, inner: nat, gs: seq<Value>, hs: seq<Value>)
    requires WellFormed(u) && id < |u| && NestHolds(u, id, i, fs, inner, gs) && |hs| == |gs|
    ensures NestHolds(u, id, i, fs[i := Wrap(u[id].fields[i].ty, hs)], inner, hs)
  {}

  lemma SetAllNestedStep(u: Universe, id: nat, i: nat, fs: seq<Value>, inner: nat, gs: seq<Value>,
                         init: seq<Assignment>, last: Assignment)
    requires WellFormed(u) && id < |u| && NestHolds(u, id, i, fs, inner, gs) && last.index != []
    requires SetAll(u, id, fs, MoveWrites([i], init))
             == if init == [] then fs else fs[i := Wrap(u[id].fields[i].ty, SetAll(u, inner, gs, init))]
    ensures SetAll(u, id, fs, MoveWrites([i], init + [last]))
            == fs[i := Wrap(u[id].fields[i].ty, SetAll(u, inner, gs, init + [last]))]
  {
    var before, hs := SetAll(u, id, fs, MoveWrites([i], init)), SetAll(u, inner, gs, init);
    MoveOneWrite([i], init, last);
    SetOneMore(u, id, fs, MoveWrites([i], init), last.(index := [i] + last.index));
    SetOneMore(u, inner, gs, init, last);
    if init != [] { NestHoldsWrapped(u, id, i, fs, inner, gs, hs); }
    SetAtNested(u, id, i, before, inner, hs, last.index, last.value);
  }

  /** Assigning below field `i` assigns within the struct the field holds, allocating it first if it
      is a nil pointer. */
  lemma {:induction false} SetAllNested(u: Universe, id: nat, i: nat, fs: seq<Value>, inner: nat, gs: seq<Value>,
                                        ws: seq<Assignment>)
    requires WellFormed(u) && id < |u| && NestHolds(u, id, i, fs, inner, gs)
    requires forall k :: 0 <= k < |ws| ==> ws[k].index != []
    ensures SetAll(u, id, fs, MoveWrites([i], ws))
            == if ws == [] then fs else fs[i := Wrap(u[id].fields[i].ty, SetAll(u, inner, gs, ws))]
  {
    if ws != [] {
      var init, last := ws[..|ws| - 1], ws[|ws| - 1];
      assert ws == init + [last];
      SetAllNested(u, id, i, fs, inner, gs, init);
      SetAllNestedStep(u, id, i, fs, inner, gs, init, last);
    }
  }

  // ---- What is found is what is set ------------------------------------------------------------------

  lemma FoundConcat(a: seq<Binding>, b: seq<Binding>, src: Source)
    ensures AnyFound(a + b, src) <==> AnyFound(a, src) || AnyFound(b, src)
  {
    if AnyFound(a, src) {
      var k :| 0 <= k < |a| && a[k].key in src;
      assert (a + b)[k] == a[k];
    }
    if AnyFound(b, src) {
      var k :| 0 <= k < |b| && b[k].key in src;
      assert (a + b)[|a| + k] == b[k];
    }
  }

  lemma FoundMoved(at: Index, bs: seq<Binding>, src: Source)
    ensures AnyFound(MoveBindings(at, bs), src) <==> AnyFound(bs, src)
  {
    if AnyFound(bs, src) {
      var k :| 0 <= k < |bs| && bs[k].key in src;
      assert MoveBindings(at, bs)[k].key in src;
    }
  }

  lemma SingleBinding(b: Binding)
    ensures Bindings([Bind(b)]) == [b] && Blocks([Bind(b)]) == []
  {
    var items := [Bind(b)];
    assert items[..0] == [];
    assert Bindings(items) == Bindings([]) + [b] == [b];
  }

  lemma NestedFound(f: Field, i: nat, path: string, sub: seq<Item>, src: Source)
    ensures AnyFound(Bindings(BlockOf(f, i, path) + Shift([i], sub)), src) <==> AnyFound(Bindings(sub), src)
  {
    PartsMove([i], sub);
    FoundMoved([i], Bindings(sub), src);
    if f.ty.Pointer? {
      PartsOfBlock(Block([i], path), Shift([i], sub));
    } else {
      assert [] + Shift([i], sub) == Shift([i], sub);
    }
  }

  lemma {:induction false} FieldFoundMeansSet(u: Universe, id: nat, i: nat, name: string, prefix: string,
                                              active: seq<nat>, src: Source)
    requires WellFormed(u) && id < |u| && i < |u[id].fields|
    requires Clean(FieldItems(u, id, i, name, prefix, active))
    ensures AnyFound(Bindings(FieldItems(u, id, i, name, prefix, active)), src)
            <==> FieldSet(u, id, i, prefix, active, src)
    decreases Free(u, active), |u[id].fields| - i, 0
  {
    var f := u[id].fields[i];
    if Walked(f) {
      CleanField(u, id, i, name, prefix, active);
      if IsNested(f.ty) {
        InnerExists(u, id, i);
        FreeShrinks(u, active, Inner(f.ty));
        var inner, fp, pre, act := Inner(f.ty), name + "." + f.name, prefix + f.envPrefix.value, active + [Inner(f.ty)];
        FoundMeansSet(u, inner, 0, fp, pre, act, src);
        NestedFound(f, i, fp, Items(u, inner, 0, fp, pre, act), src);
      } else {
        var b := Binding([i], name + "." + f.name, prefix + f.env.value, f.def, f.ty);
        SingleBinding(b);
        assert AnyFound([b], src) <==> [b][0].key in src;
      }
    }
  }

  lemma {:induction false} FoundMeansSet(u: Universe, id: nat, i: nat, name: string, prefix: string,
                                         active: seq<nat>, src: Source)
    requires WellFormed(u) && id < |u| && i <= |u[id].fields|
    requires Clean(Items(u, id, i, name, prefix, active))
    ensures AnyFound(Bindings(Items(u, id, i, name, prefix, active)), src) <==> AnySet(u, id, i, prefix, active, src)
    decreases Free(u, active), |u[id].fields| - i, 1
  {
    if i < |u[id].fields| {
      var here, rest := FieldItems(u, id, i, name, prefix, active), Items(u, id, i + 1, name, prefix, active);
      CleanConcat(here, rest);
      FieldFoundMeansSet(u, id, i, name, prefix, active, src);
      FoundMeansSet(u, id, i + 1, name, prefix, active, src);
      PartsConcat(here, rest);
      FoundConcat(Bindings(here), Bindings(rest), src);
    }
  }

  /** A binding that is found is never skipped. */
  lemma {:induction false} FoundIsLive(some: seq<Binding>, bs: seq<Binding>, blks: seq<Block>, src: Source, b: Binding)
    requires b in some && b in bs && b.key in src
    ensures b in Live(some, bs, blks, src)
  {
    var m := |some| - 1;
    if some[m] == b {
      var k :| 0 <= k < |bs| && bs[k] == b;
      forall j | 0 <= j < |blks| && Under(b.index, blks[j].index) ensures Present(bs, src, blks[j]) {
        assert Under(bs[k].index, blks[j].index) && bs[k].key in src;
      }
    } else {
      FoundIsLive(some[..m], bs, blks, src, b);
    }
  }

  /** A found binding is written or fails. */
  lemma {:induction false} FoundIsWritten(p: Parsers, src: Source, bs: seq<Binding>, b: Binding)
    requires AllDecodable(bs) && b in bs && b.key in src && Fails(p, src, bs) == []
    ensures Writes(p, src, bs) != []
  {
    var m := |bs| - 1;
    if bs[m] != b { FoundIsWritten(p, src, bs[..m], b); }
  }

  lemma {:induction false} LiveComesFrom(some: seq<Binding>, bs: seq<Binding>, blks: seq<Block>, src: Source)
    ensures forall b :: b in Live(some, bs, blks, src) ==> b in some
  {
    if some != [] { LiveComesFrom(some[..|some| - 1], bs, blks, src); }
  }

  lemma {:induction false} WritesHavePaths(p: Parsers, src: Source, bs: seq<Binding>)
    requires AllDecodable(bs) && forall b :: b in bs ==> b.index != []
    ensures forall k :: 0 <= k < |Writes(p, src, bs)| ==> Writes(p, src, bs)[k].index != []
  {
    if bs != [] { WritesHavePaths(p, src, bs[..|bs| - 1]); }
  }

  // ---- The refinement --------------------------------------------------------------------------------

  /** Decoding `bs` into `fs` reports `es`, and yields `out` when there is nothing to report. */
  ghost predicate Runs(u: Universe, id: nat, fs: seq<Value>, bs: seq<Binding>, src: Source, p: Parsers,
                       out: seq<Value>, es: seq<Violation>)
    requires WellFormed(u) && id < |u| && |fs| == |u[id].fields|
  {
    && AllDecodable(bs)
    && Fails(p, src, bs) == es
    && (es == [] ==> SetAll(u, id, fs, Writes(p, src, bs)) == out)
  }

  lemma RunsThen(u: Universe, id: nat, fs: seq<Value>, a: seq<Binding>, b: seq<Binding>, src: Source, p: Parsers,
                 mid: seq<Value>, es: seq<Violation>, out: seq<Value>, es': seq<Violation>)
    requires WellFormed(u) && id < |u| && |fs| == |mid| == |u[id].fields|
    requires Runs(u, id, fs, a, src, p, mid, es) && Runs(u, id, mid, b, src, p, out, es')
    ensures Runs(u, id, fs, a + b, src, p, out, es + es')
  {
    ActsConcat(p, src, a, b);
    SetAllConcat(u, id, fs, Writes(p, src, a), Writes(p, src, b));
  }

  /** A struct held by value is written in place; a pointer needs something to be written. */
  lemma NestedBecomes(u: Universe, id: nat, i: nat, fs: seq<Value>, inner: nat, gs: seq<Value>, ws: seq<Assignment>)
    requires WellFormed(u) && id < |u| && NestHolds(u, id, i, fs, inner, gs)
    requires forall k :: 0 <= k < |ws| ==> ws[k].index != []
    requires ws != [] || (u[id].fields[i].ty.Struct? && fs[i].Record?)
    ensures SetAll(u, id, fs, MoveWrites([i], ws)) == fs[i := Wrap(u[id].fields[i].ty, SetAll(u, inner, gs, ws))]
  {
    SetAllNested(u, id, i, fs, inner, gs, ws);
    assert fs[i := fs[i]] == fs;
  }

  /** A nested field: run what is inside on what it holds. */
  lemma RunsNested(u: Universe, id: nat, i: nat, fs: seq<Value>, inner: nat, gs: seq<Value>, bs: seq<Binding>,
                   src: Source, p: Parsers, out: seq<Value>, es: seq<Violation>)
    requires WellFormed(u) && id < |u| && NestHolds(u, id, i, fs, inner, gs)
    requires forall b :: b in bs ==> b.index != []
    requires Runs(u, inner, gs, bs, src, p, out, es)
    requires (u[id].fields[i].ty.Struct? && fs[i].Record?) || (exists b :: b in bs && b.key in src)
    ensures Runs(u, id, fs, MoveBindings([i], bs), src, p, fs[i := Wrap(u[id].fields[i].ty, out)], es)
  {
    ActsMove(p, src, [i], bs);
    if es == [] {
      WritesHavePaths(p, src, bs);
      if b :| b in bs && b.key in src { FoundIsWritten(p, src, bs, b); }
      NestedBecomes(u, id, i, fs, inner, gs, Writes(p, src, bs));
    }
  }

  lemma LiveSingle(b: Binding, src: Source)
    ensures LiveItems([Bind(b)], src) == [b]
  {
    SingleBinding(b);
    assert [b][..0] == [] && [b][0] == b && !Skipped([b], [], src, b);
    assert Live([b], [b], [], src) == Live([], [b], [], src) + [b];
  }

  lemma ActsOfOne(p: Parsers, src: Source, b: Binding)
    requires Decodable(b.ty)
    ensures var act := ActOf(p, src, b);
            && AllDecodable([b])
            && Fails(p, src, [b]) == Failed(act) && Writes(p, src, [b]) == Written(act)
  {
    var none: seq<Binding> := [];
    var act := ActOf(p, src, b);
    OneMore(p, src, none, b);
    assert none + [b] == [b];
    NothingBefore(Fails(p, src, none), Failed(act));
    NothingBefore(Writes(p, src, none), Written(act));
  }

  lemma NothingBefore<T>(a: seq<T>, b: seq<T>)
    requires a == []
    ensures a + b == b
  {}

  lemma SetOne(u: Universe, id: nat, i: nat, fs: seq<Value>, v: Value)
    requires WellFormed(u) && id < |u| && i < |u[id].fields| && |fs| == |u[id].fields|
    ensures SetAll(u, id, fs, [Assignment([i], v)]) == fs[i := v]
  {
    SetOneMore(u, id, fs, [], Assignment([i], v));
    assert [] + [Assignment([i], v)] == [Assignment([i], v)];
  }

  /** One binding of a field of the struct itself. */
  lemma RunsSingle(u: Universe, id: nat, i: nat, fs: seq<Value>, b: Binding, src: Source, p: Parsers)
    requires WellFormed(u) && id < |u| && i < |u[id].fields| && |fs| == |u[id].fields|
    requires b.index == [i] && Decodable(b.ty)
    ensures var act := ActOf(p, src, b);
            Runs(u, id, fs, [b], src, p, fs[i := if act.Write? then act.value else fs[i]],
                 if act.Fail? then [act.v] else [])
  {
    ActsOfOne(p, src, b);
    var act := ActOf(p, src, b);
    if act.Write? { SetOne(u, id, i, fs, act.value); } else { assert fs[i := fs[i]] == fs; }
  }

  lemma DirectIsAct(p: Parsers, src: Source, b: Binding, zero: Value)
    requires Decodable(b.ty) && (b.ty.Pointer? ==> zero == Nil)
    ensures var act := ActOf(p, src, b);
            DirectValue(p, src, b.ty, b.key, b.field, b.def, zero)
            == (if act.Write? then act.value else zero, if act.Fail? then [act.v] else [])
  {}

  /** The binding of a value field that obeys its rule. */
  function ValueBinding(f: Field, i: nat, name: string, prefix: string): Binding
    requires f.env.Some?
  {
    Binding([i], name + "." + f.name, prefix + f.env.value, f.def, f.ty)
  }

  lemma ValueItem(u: Universe, id: nat, i: nat, name: string, prefix: string, active: seq<nat>, src: Source, p: Parsers)
    requires WellFormed(u) && id < |u| && i < |u[id].fields|
    requires Walked(u[id].fields[i]) && FieldOk(Spot(u[id].fields[i], prefix, active)) && !IsNested(u[id].fields[i].ty)
    ensures var b := ValueBinding(u[id].fields[i], i, name, prefix);
            && FieldItems(u, id, i, name, prefix, active) == [Bind(b)]
            && DirectField(u, id, i, name, prefix, active, src, p)
               == DirectValue(p, src, b.ty, b.key, b.field, b.def, ZeroFields(u, id, i)[0])
            && (b.ty.Pointer? ==> ZeroFields(u, id, i)[0] == Nil)
  {}

  lemma ValueRefines(u: Universe, id: nat, i: nat, name: string, prefix: string, active: seq<nat>, fs: seq<Value>,
                     src: Source, p: Parsers)
    requires WellFormed(u) && id < |u| && i < |u[id].fields| && |fs| == |u[id].fields|
    requires Walked(u[id].fields[i]) && FieldOk(Spot(u[id].fields[i], prefix, active)) && !IsNested(u[id].fields[i].ty)
    requires fs[i] == ZeroFields(u, id, i)[0]
    ensures var d := DirectField(u, id, i, name, prefix, active, src, p);
            Runs(u, id, fs, LiveItems(FieldItems(u, id, i, name, prefix, active), src), src, p, fs[i := d.0], d.1)
  {
    ValueItem(u, id, i, name, prefix, active, src, p);
    BindingRuns(u, id, i, fs, ValueBinding(u[id].fields[i], i, name, prefix), src, p);
  }

  lemma BindingRuns(u: Universe, id: nat, i: nat, fs: seq<Value>, b: Binding, src: Source, p: Parsers)
    requires WellFormed(u) && id < |u| && i < |u[id].fields| && |fs| == |u[id].fields|
    requires b.index == [i] && Decodable(b.ty) && (b.ty.Pointer? ==> fs[i] == Nil)
    ensures var d := DirectValue(p, src, b.ty, b.key, b.field, b.def, fs[i]);
            Runs(u, id, fs, LiveItems([Bind(b)], src), src, p, fs[i := d.0], d.1)
  {
    LiveSingle(b, src);
    RunsSingle(u, id, i, fs, b, src, p);
    DirectIsAct(p, src, b, fs[i]);
  }

  lemma {:induction false} FieldRefines(u: Universe, id: nat, i: nat, name: string, prefix: string, active: seq<nat>,
                                        fs: seq<Value>, src: Source, p: Parsers)
    requires WellFormed(u) && id < |u| && i < |u[id].fields| && |fs| == |u[id].fields|
    requires Clean(FieldItems(u, id, i, name, prefix, active))
    requires fs[i] == ZeroFields(u, id, i)[0]
    ensures var d := DirectField(u, id, i, name, prefix, active, src, p);
            Runs(u, id, fs, LiveItems(FieldItems(u, id, i, name, prefix, active), src), src, p, fs[i := d.0], d.1)
    decreases Free(u, active), |u[id].fields| - i, 1
  {
    var f := u[id].fields[i];
    if Walked(f) {
      CleanField(u, id, i, name, prefix, active);
      if IsNested(f.ty) {
        NestedRefines(u, id, i, name, prefix, active, fs, src, p);
      } else {
        ValueRefines(u, id, i, name, prefix, active, fs, src, p);
      }
    } else {
      assert fs[i := fs[i]] == fs;
    }
  }

  /** Items that decode into the zero fields of struct `inner` with this outcome. */
  ghost predicate SubRuns(u: Universe, inner: nat, sub: seq<Item>, src: Source, p: Parsers, out: seq<Value>,
                          es: seq<Violation>)
    requires WellFormed(u) && inner < |u|
  {
    && StartsWithin(sub, 0, |u[inner].fields|)
    && Runs(u, inner, ZeroFields(u, inner, 0), LiveItems(sub, src), src, p, out, es)
  }

  lemma LiveHavePaths(sub: seq<Item>, n: nat, src: Source)
    requires StartsWithin(sub, 0, n)
    ensures forall b :: b in LiveItems(sub, src) ==> b.index != []
  {
    PartsStart(sub, 0, n);
    LiveComesFrom(Bindings(sub), Bindings(sub), Blocks(sub), src);
  }

  lemma FoundIsLiveItem(sub: seq<Item>, src: Source) returns (b: Binding)
    requires AnyFound(Bindings(sub), src)
    ensures b in LiveItems(sub, src) && b.key in src
  {
    var bs := Bindings(sub);
    var k :| 0 <= k < |bs| && bs[k].key in src;
    b := bs[k];
    FoundIsLive(bs, bs, Blocks(sub), src, b);
  }

  /** A struct held by value. */
  lemma ValueStructRuns(u: Universe, id: nat, i: nat, fs: seq<Value>, inner: nat, sub: seq<Item>, src: Source,
                        p: Parsers, out: seq<Value>, es: seq<Violation>)
    requires WellFormed(u) && id < |u| && inner < |u| && NestHolds(u, id, i, fs, inner, ZeroFields(u, inner, 0))
    requires SubRuns(u, inner, sub, src, p, out, es) && u[id].fields[i].ty.Struct? && fs[i].Record?
    ensures Runs(u, id, fs, LiveItems([] + Shift([i], sub), src), src, p, fs[i := Record(out)], es)
  {
    assert [] + Shift([i], sub) == Shift([i], sub);
    LiveByValue(i, sub, src);
    LiveHavePaths(sub, |u[inner].fields|, src);
    RunsNested(u, id, i, fs, inner, ZeroFields(u, inner, 0), LiveItems(sub, src), src, p, out, es);
  }

  /** An optional block in which a key is found is decoded. */
  lemma PresentBlockRuns(u: Universe, id: nat, i: nat, fs: seq<Value>, inner: nat, sub: seq<Item>, path: string,
                         src: Source, p: Parsers, out: seq<Value>, es: seq<Violation>)
    requires WellFormed(u) && id < |u| && inner < |u| && NestHolds(u, id, i, fs, inner, ZeroFields(u, inner, 0))
    requires SubRuns(u, inner, sub, src, p, out, es) && u[id].fields[i].ty.Pointer? && AnyFound(Bindings(sub), src)
    ensures Runs(u, id, fs, LiveItems([Group(Block([i], path))] + Shift([i], sub), src), src, p,
                 fs[i := Ref(Record(out))], es)
  {
    LiveInBlock(Block([i], path), sub, |u[inner].fields|, src);
    LiveHavePaths(sub, |u[inner].fields|, src);
    var b := FoundIsLiveItem(sub, src);
    RunsNested(u, id, i, fs, inner, ZeroFields(u, inner, 0), LiveItems(sub, src), src, p, out, es);
  }

  /** Any other block is left nil. */
  lemma AbsentBlockRuns(u: Universe, id: nat, i: nat, fs: seq<Value>, sub: seq<Item>, n: nat, path: string,
                        src: Source, p: Parsers)
    requires WellFormed(u) && id < |u| && |fs| == |u[id].fields| && i < |fs| && fs[i] == Nil
    requires StartsWithin(sub, 0, n) && !AnyFound(Bindings(sub), src)
    ensures Runs(u, id, fs, LiveItems([Group(Block([i], path))] + Shift([i], sub), src), src, p, fs[i := Nil], [])
  {
    LiveInBlock(Block([i], path), sub, n, src);
    assert fs[i := Nil] == fs;
  }

  lemma ItemsOfNested(u: Universe, id: nat, i: nat, name: string, prefix: string, active: seq<nat>)
    requires WellFormed(u) && id < |u| && i < |u[id].fields|
    requires Walked(u[id].fields[i]) && FieldOk(Spot(u[id].fields[i], prefix, active)) && IsNested(u[id].fields[i].ty)
    ensures var f := u[id].fields[i];
            var (fp, pre, act) := Below(f, name, prefix, active);
            && Inner(f.ty) < |u|
            && FieldItems(u, id, i, name, prefix, active)
               == BlockOf(f, i, fp) + Shift([i], Items(u, Inner(f.ty), 0, fp, pre, act))
  {
    InnerExists(u, id, i);
  }

  lemma DirectOfNested(u: Universe, id: nat, i: nat, name: string, prefix: string, active: seq<nat>, src: Source,
                       p: Parsers)
    requires WellFormed(u) && id < |u| && i < |u[id].fields|
    requires IsNested(u[id].fields[i].ty) && Inner(u[id].fields[i].ty) < |u|
    requires Walked(u[id].fields[i]) && FieldOk(Spot(u[id].fields[i], prefix, active))
    ensures var f := u[id].fields[i];
            var (fp, pre, act) := Below(f, name, prefix, active);
            DirectField(u, id, i, name, prefix, active, src, p)
            == DirectNested(u, Inner(f.ty), f.ty.Pointer?, fp, pre, act, src, p)
  {}

  lemma ZeroOfNested(u: Universe, id: nat, i: nat)
    requires WellFormed(u) && id < |u| && i < |u[id].fields|
    requires IsNested(u[id].fields[i].ty) && Inner(u[id].fields[i].ty) < |u|
    ensures ZeroFields(u, id, i)[0]
            == if u[id].fields[i].ty.Pointer? then Nil else Record(ZeroFields(u, Inner(u[id].fields[i].ty), 0))
  {}

  lemma InteriorIs(u: Universe, f: Field, path: string, prefix: string, active: seq<nat>, src: Source, p: Parsers,
                   x: Interior)
    requires WellFormed(u) && IsNested(f.ty) && Inner(f.ty) < |u|
    requires x == InteriorOf(u, Inner(f.ty), path, prefix, active, src, p)
    ensures DirectNested(u, Inner(f.ty), f.ty.Pointer?, path, prefix, active, src, p)
            == Nested(f, !x.any, x.out, x.es)
  {}

  /** What is inside a nested field, named once: its items, its outcome, and whether a key in it is set. */
  datatype Interior = Interior(inner: nat, sub: seq<Item>, out: seq<Value>, es: seq<Violation>, any: bool)

  function InteriorOf(u: Universe, inner: nat, name: string, prefix: string, active: seq<nat>, src: Source,
                      p: Parsers): Interior
    requires WellFormed(u) && inner < |u|
  {
    var d := Direct(u, inner, 0, name, prefix, active, src, p);
    Interior(inner, Items(u, inner, 0, name, prefix, active), d.0, d.1, AnySet(u, inner, 0, prefix, active, src))
  }

  ghost predicate InteriorOk(u: Universe, x: Interior, src: Source, p: Parsers)
    requires WellFormed(u) && x.inner < |u|
  {
    SubRuns(u, x.inner, x.sub, src, p, x.out, x.es) && (AnyFound(Bindings(x.sub), src) <==> x.any)
  }

  lemma {:induction false} Inside(u: Universe, inner: nat, name: string, prefix: string, active: seq<nat>,
                                  src: Source, p: Parsers, x: Interior)
    requires WellFormed(u) && inner < |u| && Clean(Items(u, inner, 0, name, prefix, active))
    requires x == InteriorOf(u, inner, name, prefix, active, src, p)
    ensures InteriorOk(u, x, src, p)
    decreases Free(u, active), |u[inner].fields| + 1
  {
    Refines(u, inner, 0, name, prefix, active, ZeroFields(u, inner, 0), src, p);
    ItemsOrdered(u, inner, 0, name, prefix, active);
    FoundMeansSet(u, inner, 0, name, prefix, active, src);
  }

  /** The outcome of nested field `f`, given the outcome of what is inside it. */
  function Nested(f: Field, absent: bool, out: seq<Value>, es: seq<Violation>): (Value, seq<Violation>) {
    if f.ty.Pointer? && absent then (Nil, []) else (Wrap(f.ty, out), es)
  }

  /** One nested field, given how what is inside runs. */
  lemma NestedRuns(u: Universe, id: nat, i: nat, fs: seq<Value>, items: seq<Item>, x: Interior, path: string,
                   src: Source, p: Parsers)
    requires WellFormed(u) && id < |u| && x.inner < |u|
    requires NestHolds(u, id, i, fs, x.inner, ZeroFields(u, x.inner, 0)) && InteriorOk(u, x, src, p)
    requires fs[i] == if u[id].fields[i].ty.Pointer? then Nil else Record(ZeroFields(u, x.inner, 0))
    requires items == BlockOf(u[id].fields[i], i, path) + Shift([i], x.sub)
    ensures var v := Nested(u[id].fields[i], !x.any, x.out, x.es);
            Runs(u, id, fs, LiveItems(items, src), src, p, fs[i := v.0], v.1)
  {
    if !u[id].fields[i].ty.Pointer? {
      ValueStructRuns(u, id, i, fs, x.inner, x.sub, src, p, x.out, x.es);
    } else if x.any {
      PresentBlockRuns(u, id, i, fs, x.inner, x.sub, path, src, p, x.out, x.es);
    } else {
      AbsentBlockRuns(u, id, i, fs, x.sub, |u[x.inner].fields|, path, src, p);
    }
  }

  /** The key prefix and the active types inside nested field `f`. */
  function Below(f: Field, name: string, prefix: string, active: seq<nat>): (string, string, seq<nat>)
    requires IsNested(f.ty) && f.envPrefix.Some?
  {
    (name + "." + f.name, prefix + f.envPrefix.value, active + [Inner(f.ty)])
  }

  /** What the two sides make of a clean nested field, in terms of what is inside it. */
  lemma NestedSides(u: Universe, id: nat, i: nat, name: string, prefix: string, active: seq<nat>, fs: seq<Value>,
                    src: Source, p: Parsers) returns (x: Interior)
    requires WellFormed(u) && id < |u| && i < |u[id].fields| && |fs| == |u[id].fields|
    requires Walked(u[id].fields[i]) && IsNested(u[id].fields[i].ty) && fs[i] == ZeroFields(u, id, i)[0]
    requires Clean(FieldItems(u, id, i, name, prefix, active))
    ensures var f := u[id].fields[i];
            && Inner(f.ty) < |u| && Inner(f.ty) !in active && f.envPrefix.Some?
            && var (fp, pre, act) := Below(f, name, prefix, active);
            && Clean(Items(u, Inner(f.ty), 0, fp, pre, act))
            && x == InteriorOf(u, Inner(f.ty), fp, pre, act, src, p)
            && FieldItems(u, id, i, name, prefix, active) == BlockOf(f, i, fp) + Shift([i], x.sub)
    ensures var f := u[id].fields[i];
            && DirectField(u, id, i, name, prefix, active, src, p) == Nested(f, !x.any, x.out, x.es)
            && fs[i] == (if f.ty.Pointer? then Nil else Record(ZeroFields(u, x.inner, 0)))
            && NestHolds(u, id, i, fs, x.inner, ZeroFields(u, x.inner, 0))
  {
    var f := u[id].fields[i];
    CleanField(u, id, i, name, prefix, active);
    ItemsOfNested(u, id, i, name, prefix, active);
    DirectOfNested(u, id, i, name, prefix, active, src, p);
    ZeroOfNested(u, id, i);
    var (fp, pre, act) := Below(f, name, prefix, active);
    x := InteriorOf(u, Inner(f.ty), fp, pre, act, src, p);
    InteriorIs(u, f, fp, pre, act, src, p, x);
  }

  lemma {:induction false} NestedRefines(u: Universe, id: nat, i: nat, name: string, prefix: string,
                                         active: seq<nat>, fs: seq<Value>, src: Source, p: Parsers)
    requires WellFormed(u) && id < |u| && i < |u[id].fields| && |fs| == |u[id].fields|
    requires Clean(FieldItems(u, id, i, name, prefix, active)) && Walked(u[id].fields[i])
    requires IsNested(u[id].fields[i].ty) && fs[i] == ZeroFields(u, id, i)[0]
    ensures var d := DirectField(u, id, i, name, prefix, active, src, p);
            Runs(u, id, fs, LiveItems(FieldItems(u, id, i, name, prefix, active), src), src, p, fs[i := d.0], d.1)
    decreases Free(u, active), |u[id].fields| - i, 0
  {
    var x := NestedSides(u, id, i, name, prefix, active, fs, src, p);
    FreeShrinks(u, active, x.inner);
    var (fp, pre, act) := Below(u[id].fields[i], name, prefix, active);
    Inside(u, x.inner, fp, pre, act, src, p, x);
    NestedRuns(u, id, i, fs, FieldItems(u, id, i, name, prefix, active), x, fp, src, p);
  }

  lemma LiveFields(u: Universe, id: nat, i: nat, name: string, prefix: string, active: seq<nat>, src: Source)
    requires WellFormed(u) && id < |u| && i < |u[id].fields|
    ensures LiveItems(Items(u, id, i, name, prefix, active), src)
            == LiveItems(FieldItems(u, id, i, name, prefix, active), src)
               + LiveItems(Items(u, id, i + 1, name, prefix, active), src)
  {
    FieldItemsOrdered(u, id, i, name, prefix, active);
    ItemsOrdered(u, id, i + 1, name, prefix, active);
    LiveSplits(FieldItems(u, id, i, name, prefix, active), Items(u, id, i + 1, name, prefix, active),
               i + 1, |u[id].fields|, src);
  }

  /** Zero fields from `i` on stay so from the next field on, whatever field `i` becomes. */
  lemma ZeroTail(u: Universe, id: nat, i: nat, fs: seq<Value>, v: Value)
    requires WellFormed(u) && id < |u| && i < |u[id].fields| && |fs| == |u[id].fields|
    requires fs[i..] == ZeroFields(u, id, i)
    ensures fs[i] == ZeroFields(u, id, i)[0]
    ensures fs[i := v][i + 1..] == ZeroFields(u, id, i + 1) && fs[i := v][..i + 1] == fs[..i] + [v]
  {
    assert fs[i] == fs[i..][0];
    assert fs[i := v][i + 1..] == fs[i..][1..];
  }

  /** Field `i` and then the rest. */
  lemma RefinesFrom(u: Universe, id: nat, i: nat, name: string, prefix: string, active: seq<nat>, fs: seq<Value>,
                    src: Source, p: Parsers)
    requires WellFormed(u) && id < |u| && i < |u[id].fields| && |fs| == |u[id].fields|
    requires var v := DirectField(u, id, i, name, prefix, active, src, p);
             var d := Direct(u, id, i + 1, name, prefix, active, src, p);
             var here := LiveItems(FieldItems(u, id, i, name, prefix, active), src);
             var rest := LiveItems(Items(u, id, i + 1, name, prefix, active), src);
             && Runs(u, id, fs, here, src, p, fs[i := v.0], v.1)
             && Runs(u, id, fs[i := v.0], rest, src, p, fs[..i] + [v.0] + d.0, d.1)
    ensures var d := Direct(u, id, i, name, prefix, active, src, p);
            Runs(u, id, fs, LiveItems(Items(u, id, i, name, prefix, active), src), src, p, fs[..i] + d.0, d.1)
  {
    var v := DirectField(u, id, i, name, prefix, active, src, p);
    var d := Direct(u, id, i + 1, name, prefix, active, src, p);
    LiveFields(u, id, i, name, prefix, active, src);
    DirectSplits(u, id, i, name, prefix, active, src, p);
    RunsThen(u, id, fs, LiveItems(FieldItems(u, id, i, name, prefix, active), src),
             LiveItems(Items(u, id, i + 1, name, prefix, active), src), src, p,
             fs[i := v.0], v.1, fs[..i] + [v.0] + d.0, d.1);
    assert fs[..i] + [v.0] + d.0 == fs[..i] + ([v.0] + d.0);
  }

  /** For a clean walk the flat plan, with its skipped blocks and index paths, does what decoding by
      recursion does: the same violations in the same order, or the same fields. */
  lemma {:induction false} Refines(u: Universe, id: nat, i: nat, name: string, prefix: string, active: seq<nat>,
                                   fs: seq<Value>, src: Source, p: Parsers)
    requires WellFormed(u) && id < |u| && i <= |u[id].fields| && |fs| == |u[id].fields|
    requires Clean(Items(u, id, i, name, prefix, active))
    requires fs[i..] == ZeroFields(u, id, i)
    ensures var d := Direct(u, id, i, name, prefix, active, src, p);
            Runs(u, id, fs, LiveItems(Items(u, id, i, name, prefix, active), src), src, p, fs[..i] + d.0, d.1)
    decreases Free(u, active), |u[id].fields| - i, 2
  {
    if i < |u[id].fields| {
      var v := DirectField(u, id, i, name, prefix, active, src, p).0;
      CleanConcat(FieldItems(u, id, i, name, prefix, active), Items(u, id, i + 1, name, prefix, active));
      ZeroTail(u, id, i, fs, v);
      FieldRefines(u, id, i, name, prefix, active, fs, src, p);
      Refines(u, id, i + 1, name, prefix, active, fs[i := v], src, p);
      RefinesFrom(u, id, i, name, prefix, active, fs, src, p);
    } else {
      assert fs[..i] + [] == fs;
    }
  }
}
