/** Plain log/slog semantics: the tree of attributes a handler renders for one record. */
module LogTree {
  datatype Attr = Attr(key: string, value: int)

  datatype Node = Leaf(attr: Attr) | Group(name: string, children: seq<Node>)

  /** A WithAttrs or WithGroup call. */
  datatype Op = WithAttrs(attrs: seq<Attr>) | WithGroup(name: string)

  function Leaves(attrs: seq<Attr>): (r: seq<Node>) {
    seq(|attrs|, k requires 0 <= k < |attrs| => Leaf(attrs[k]))
  }

  /** The base handler's output: attributes land in the innermost open group, and a WithGroup with an
      empty name opens none. With `elide` the base leaves out a group that stays empty. */
  function Render(elide: bool, ops: seq<Op>, attrs: seq<Attr>): seq<Node> {
    if ops == [] then Leaves(attrs)
    else
      var rest := Render(elide, ops[1..], attrs);
      match ops[0]
      case WithAttrs(as_) => Leaves(as_) + rest
      case WithGroup(name) => if name == "" then rest else if elide && rest == [] then [] else [Group(name, rest)]
  }

  /** The calls that change nothing. */
  predicate Ignored(op: Op) { op == WithAttrs([]) || op == WithGroup("") }

  function Effective(calls: seq<Op>): (ops: seq<Op>) {
    if calls == [] then []
    else
      var init, op := Effective(calls[..|calls| - 1]), calls[|calls| - 1];
      if Ignored(op) then init else init + [op]
  }

  /** What a plain slog handler on top of `base` renders after `calls`. */
  function Plain(elide: bool, base: seq<Op>, calls: seq<Op>, attrs: seq<Attr>): seq<Node> {
    Render(elide, base + calls, attrs)
  }

  /** Leaving out the calls that change nothing changes nothing. */
  lemma {:induction false} EffectiveRendersTheSame(elide: bool, base: seq<Op>, calls: seq<Op>, rest: seq<Op>,
                                                   attrs: seq<Attr>)
    ensures Render(elide, base + Effective(calls) + rest, attrs) == Render(elide, base + calls + rest, attrs)
  {
    if calls != [] {
      var init, op := calls[..|calls| - 1], calls[|calls| - 1];
      assert calls == init + [op];
      assert base + calls + rest == base + init + ([op] + rest);
      EffectiveRendersTheSame(elide, base, init, [op] + rest, attrs);
      if Ignored(op) {
        IgnoredRendersNothing(elide, base + Effective(init), op, rest, attrs);
      } else {
        assert base + Effective(calls) + rest == base + Effective(init) + ([op] + rest);
      }
    }
  }

  lemma {:induction false} IgnoredRendersNothing(elide: bool, a: seq<Op>, op: Op, b: seq<Op>, attrs: seq<Attr>)
    requires Ignored(op)
    ensures Render(elide, a + ([op] + b), attrs) == Render(elide, a + b, attrs)
  {
    if a == [] {
      assert a + ([op] + b) == [op] + b && a + b == b && ([op] + b)[1..] == b;
    } else {
      IgnoredRendersNothing(elide, a[1..], op, b, attrs);
      assert (a + ([op] + b))[1..] == a[1..] + ([op] + b) && (a + b)[1..] == a[1..] + b;
    }
  }

  /** No group is open: the handler writes at the top level. */
  predicate Ungrouped(ops: seq<Op>) { forall k :: 0 <= k < |ops| ==> ops[k].WithAttrs? || ops[k].name == "" }

  function Carried(op: Op): seq<Attr> { match op case WithAttrs(as_) => as_ case WithGroup(_) => [] }

  /** The attributes of the WithAttrs calls, in order. */
  function Attached(ops: seq<Op>): seq<Attr> {
    if ops == [] then [] else Carried(ops[0]) + Attached(ops[1..])
  }

  lemma AttachedCons(op: Op, rest: seq<Op>)
    ensures Attached([op] + rest) == Carried(op) + Attached(rest)
  {
    assert ([op] + rest)[1..] == rest;
  }

  lemma Regroup(a: seq<Attr>, b: seq<Attr>, c: seq<Attr>)
    ensures a + (b + c) == a + b + c
  {}

  lemma {:induction false} AttachedAppend(ops: seq<Op>, attrs: seq<Attr>)
    ensures Attached(ops + [WithAttrs(attrs)]) == Attached(ops) + attrs
  {
    var op := WithAttrs(attrs);
    if ops == [] {
      assert ops + [op] == [op] + [];
      AttachedCons(op, []);
      assert attrs + [] == [] + attrs == attrs;
    } else {
      var rest := ops[1..];
      AttachedAppend(rest, attrs);
      assert ops + [op] == [ops[0]] + (rest + [op]);
      AttachedCons(ops[0], rest + [op]);
      Regroup(Carried(ops[0]), Attached(rest), attrs);
    }
  }

  /** On top of an ungrouped prefix the rest renders unchanged, after the attached attributes. */
  lemma {:induction false} RenderAfterUngrouped(elide: bool, a: seq<Op>, b: seq<Op>, attrs: seq<Attr>)
    requires Ungrouped(a)
    ensures Render(elide, a + b, attrs) == Leaves(Attached(a)) + Render(elide, b, attrs)
  {
    if a == [] {
      assert a + b == b;
    } else {
      var all := a + b;
      RenderAfterUngrouped(elide, a[1..], b, attrs);
      assert all[0] == a[0] && all[1..] == a[1..] + b;
      LeavesConcat(Carried(a[0]), Attached(a[1..]));
      assert Render(elide, all, attrs) == Leaves(Carried(a[0])) + Render(elide, a[1..] + b, attrs);
    }
  }

  lemma LeavesConcat(a: seq<Attr>, b: seq<Attr>)
    ensures Leaves(a + b) == Leaves(a) + Leaves(b)
  {}
}
