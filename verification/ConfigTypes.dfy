/** Config types as data, and decoding one value from a string (config/decode.go). */
module ConfigTypes {
  import opened Prelude

  /**
   A field type. `Leaf` stands for the types decoded from one string by a fixed parser (durations,
   strings, booleans and numbers); `Text` for a type that parses itself, `slice` telling whether its
   kind is Slice; `Struct` refers to a named struct of the universe; `Other` is any other kind.
   */
  datatype Type =
    | Leaf(parser: nat)
    | Text(parser: nat, slice: bool)
    | Struct(id: nat)
    | Slice(elem: Type)
    | Pointer(elem: Type)
    | Other

  datatype Field = Field(name: string, exported: bool, env: Option<string>, envPrefix: Option<string>,
                         def: Option<string>, ty: Type)

  datatype StructDecl = StructDecl(name: string, fields: seq<Field>)

  /** The struct types of a program; they may refer to each other cyclically through pointers. */
  type Universe = seq<StructDecl>

  predicate InUniverse(u: Universe, t: Type) {
    match t
    case Struct(id) => id < |u|
    case Slice(e) => InUniverse(u, e)
    case Pointer(e) => InUniverse(u, e)
    case _ => true
  }

  /** Every reference resolves, and no struct holds itself by value: such a type does not exist in Go,
      so the structs can be numbered with a struct held by value below its holder. */
  ghost predicate WellFormed(u: Universe) {
    forall id, i :: 0 <= id < |u| && 0 <= i < |u[id].fields| ==>
                      && InUniverse(u, u[id].fields[i].ty)
                      && (u[id].fields[i].ty.Struct? ==> u[id].fields[i].ty.id < id)
  }

  datatype Value =
    | ZeroLeaf | Scalar(n: int) | List(elems: seq<Value>) | Nil | Ref(target: Value) | Record(fields: seq<Value>)

  /** The zero values of fields `i` and up of struct `id`. */
  function ZeroFields(u: Universe, id: nat, i: nat): (r: seq<Value>)
    requires WellFormed(u) && id < |u| && i <= |u[id].fields|
    ensures |r| == |u[id].fields| - i
    decreases id, |u[id].fields| - i
  {
    if i == |u[id].fields| then []
    else
      [match u[id].fields[i].ty
       case Struct(j) => Record(ZeroFields(u, j, 0))
       case Slice(_) => Nil
       case Pointer(_) => Nil
       case _ => ZeroLeaf] + ZeroFields(u, id, i + 1)
  }

  /** What the fixed parsers make of a string: a value or an error. */
  type Parsers = (nat, string) -> Option<int>

  predicate KindIsSlice(t: Type) { t.Slice? || (t.Text? && t.slice) }

  /** decoderFor succeeds: scalars, self-parsing types, and slices or pointers of such, but no slice
      of slices. */
  predicate Decodable(t: Type) {
    match t
    case Leaf(_) => true
    case Text(_, _) => true
    case Slice(e) => Decodable(e) && !KindIsSlice(e)
    case Pointer(e) => Decodable(e)
    case _ => false
  }

  /** strings.Split(s, ","). */
  function Split(s: string): (parts: seq<string>)
    ensures |parts| >= 1
  {
    if s == "" then [""]
    else
      var rest := Split(s[1..]);
      if s[0] == ',' then [""] + rest else [[s[0]] + rest[0]] + rest[1..]
  }

  function Join(parts: seq<string>): string
    requires |parts| >= 1
  {
    if |parts| == 1 then parts[0] else parts[0] + "," + Join(parts[1..])
  }

  /** Splitting loses nothing and leaves no separator inside a part. */
  lemma {:induction false} SplitJoins(s: string)
    ensures Join(Split(s)) == s
    ensures forall k :: 0 <= k < |Split(s)| ==> ',' !in Split(s)[k]
  {
    if s != "" {
      var rest := Split(s[1..]);
      SplitJoins(s[1..]);
      if s[0] == ',' {
        assert ([""] + rest)[1..] == rest;
        assert Join([""] + rest) == "" + "," + Join(rest);
      } else {
        var parts := [[s[0]] + rest[0]] + rest[1..];
        assert parts[1..] == rest[1..];
        assert Join(parts) == [s[0]] + Join(rest) by {
          if |rest| > 1 {
            assert [s[0]] + rest[0] + "," + Join(rest[1..]) == [s[0]] + (rest[0] + "," + Join(rest[1..]));
          }
        }
      }
    }
  }

  /** The decoder built for `t`: None is an error, and then nothing is written. */
  function Decode(p: Parsers, t: Type, raw: string): (r: Option<Value>)
    requires Decodable(t)
    decreases t, 0
  {
    match t
    case Leaf(k) => (match p(k, raw) case Some(n) => Some(Scalar(n)) case None => None)
    case Text(k, _) => (match p(k, raw) case Some(n) => Some(Scalar(n)) case None => None)
    case Slice(e) =>
      if raw == "" then Some(List([]))
      else (match DecodeAll(p, e, Split(raw)) case Some(vs) => Some(List(vs)) case None => None)
    case Pointer(e) => (match Decode(p, e, raw) case Some(v) => Some(Ref(v)) case None => None)
  }

  /** Element by element; the first error is the whole slice's. */
  function DecodeAll(p: Parsers, t: Type, parts: seq<string>): (r: Option<seq<Value>>)
    requires Decodable(t)
    ensures r.Some? ==> |r.value| == |parts|
    decreases t, 1, |parts|
  {
    if parts == [] then Some([])
    else
      var m := |parts| - 1;
      match DecodeAll(p, t, parts[..m])
      case None => None
      case Some(vs) => match Decode(p, t, parts[m]) case Some(v) => Some(vs + [v]) case None => None
  }

  /** A slice decodes exactly when every element does, each to its own element's value. */
  lemma {:induction false} DecodeAllElements(p: Parsers, t: Type, parts: seq<string>)
    requires Decodable(t)
    ensures DecodeAll(p, t, parts).Some? <==> forall k :: 0 <= k < |parts| ==> Decode(p, t, parts[k]).Some?
    ensures DecodeAll(p, t, parts).Some? ==>
              forall k :: 0 <= k < |parts| ==> Decode(p, t, parts[k]) == Some(DecodeAll(p, t, parts).value[k])
  {
    if parts != [] {
      var m := |parts| - 1;
      DecodeAllElements(p, t, parts[..m]);
      assert forall k :: 0 <= k < m ==> parts[..m][k] == parts[k];
    }
  }
}
