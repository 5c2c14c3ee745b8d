/** What a config string means for a type, apart from the decoder that reads it (config/decode.go). */
module ConfigMeaning {
  import opened Prelude
  import opened ConfigTypes

  /** `r` is what `raw` means for type `t`: no value when a parser that it reaches rejects its part. A
      value that parses itself and a scalar are what their parser says, a pointer is to what its element
      means, the empty string is the empty slice, and any other slice has one element for each
      comma-separated part, and means nothing as soon as one part does. */
  ghost predicate Means(p: Parsers, t: Type, raw: string, r: Option<Value>)
    decreases t
  {
    match t
    case Leaf(k) => ParserSays(p, k, raw, r)
    case Text(k, _) => ParserSays(p, k, raw, r)
    case Pointer(e) =>
      (match r
       case None => Means(p, e, raw, None)
       case Some(v) => v.Ref? && Means(p, e, raw, Some(v.target)))
    case Slice(e) =>
      if raw == "" then r == Some(List([]))
      else
        (match r
         case None => exists i :: 0 <= i < |Split(raw)| && Means(p, e, Split(raw)[i], None)
         case Some(v) =>
           && v.List? && |v.elems| == |Split(raw)|
           && forall i :: 0 <= i < |v.elems| ==> Means(p, e, Split(raw)[i], Some(v.elems[i])))
    case _ => false
  }

  predicate ParserSays(p: Parsers, k: nat, raw: string, r: Option<Value>) {
    match p(k, raw)
    case None => r == None
    case Some(n) => r == Some(Scalar(n))
  }

  /** The decoder finds what the string means. */
  lemma {:induction false} DecodeMeans(p: Parsers, t: Type, raw: string)
    requires Decodable(t)
    ensures Means(p, t, raw, Decode(p, t, raw))
    decreases t
  {
    match t
    case Pointer(e) => DecodeMeans(p, e, raw);
    case Slice(e) =>
      if raw != "" {
        var parts := Split(raw);
        DecodeAllElements(p, e, parts);
        forall i | 0 <= i < |parts| ensures Means(p, e, parts[i], Decode(p, e, parts[i])) {
          DecodeMeans(p, e, parts[i]);
        }
        if DecodeAll(p, e, parts) == None {
          var i :| 0 <= i < |parts| && Decode(p, e, parts[i]) == None;
          assert Means(p, e, parts[i], None);
        }
      }
    case _ =>
  }

  /** And nothing else: a string means one thing. */
  lemma {:induction false} MeaningIsUnique(p: Parsers, t: Type, raw: string, r: Option<Value>, r': Option<Value>)
    requires Means(p, t, raw, r) && Means(p, t, raw, r')
    ensures r == r'
    decreases t, 0
  {
    match t
    case Pointer(e) =>
      MeaningIsUnique(p, e, raw, if r.Some? then Some(r.value.target) else None,
                      if r'.Some? then Some(r'.value.target) else None);
    case Slice(e) => if raw != "" { SliceIsUnique(p, e, raw, r, r'); }
    case _ =>
  }

  lemma {:induction false} SliceIsUnique(p: Parsers, e: Type, raw: string, r: Option<Value>, r': Option<Value>)
    requires raw != "" && Means(p, Slice(e), raw, r) && Means(p, Slice(e), raw, r')
    ensures r == r'
    decreases e, 1
  {
    var parts := Split(raw);
    if r.Some? && r'.Some? {
      forall i | 0 <= i < |parts| ensures r.value.elems[i] == r'.value.elems[i] {
        MeaningIsUnique(p, e, parts[i], Some(r.value.elems[i]), Some(r'.value.elems[i]));
      }
      assert r.value.elems == r'.value.elems;
    } else if r.Some? || r'.Some? {
      var i :| 0 <= i < |parts| && Means(p, e, parts[i], None);
      MeaningIsUnique(p, e, parts[i], None, Some((if r.Some? then r else r').value.elems[i]));
    }
  }

  /** So the decoder succeeds with `v` exactly when that is what the string means, and fails exactly when
      it means nothing. */
  lemma DecodesExactly(p: Parsers, t: Type, raw: string, r: Option<Value>)
    requires Decodable(t)
    ensures Decode(p, t, raw) == r <==> Means(p, t, raw, r)
  {
    DecodeMeans(p, t, raw);
    if Means(p, t, raw, r) { MeaningIsUnique(p, t, raw, Decode(p, t, raw), r); }
  }

  /** The slice decoder's loop. */
  method DecodeSlice(p: Parsers, elem: Type, raw: string) returns (r: Option<Value>)
    requires Decodable(Slice(elem))
    ensures r == Decode(p, Slice(elem), raw) && Means(p, Slice(elem), raw, r)
  {
    DecodeMeans(p, Slice(elem), raw);
    if raw == "" { return Some(List([])); }
    var parts := Split(raw);
    var out: seq<Value> := [];
    for k := 0 to |parts|
      invariant DecodeAll(p, elem, parts[..k]) == Some(out)
    {
      var v := Decode(p, elem, parts[k]);
      DecodeAllElements(p, elem, parts);
      if v == None { return None; }
      assert parts[..k + 1][..k] == parts[..k];
      out := out + [v.value];
    }
    assert parts[..|parts|] == parts;
    r := Some(List(out));
  }

  // ---- Which types can be decoded -----------------------------------------------------------------------

  /** The type below `n` slices and pointers, if there are as many. */
  function Below(t: Type, n: nat): Option<Type> {
    if n == 0 then Some(t)
    else
      match t
      case Slice(e) => Below(e, n - 1)
      case Pointer(e) => Below(e, n - 1)
      case _ => None
  }

  /** No struct and no unsupported kind lies `n` levels below, and no slice of slices. */
  predicate FineBelow(t: Type, n: nat) {
    match Below(t, n)
    case None => true
    case Some(Struct(_)) => false
    case Some(Other) => false
    case Some(Slice(e)) => !KindIsSlice(e)
    case _ => true
  }

  lemma FineStep(t: Type, n: nat)
    requires t.Slice? || t.Pointer?
    ensures FineBelow(t, n + 1) <==> FineBelow(t.elem, n)
  {
    assert Below(t, n + 1) == Below(t.elem, n);
  }

  lemma {:induction false} DecodableIsFine(t: Type, n: nat)
    requires Decodable(t)
    ensures FineBelow(t, n)
  {
    if n > 0 && (t.Slice? || t.Pointer?) {
      DecodableIsFine(t.elem, n - 1);
      FineStep(t, n - 1);
    }
  }

  lemma {:induction false} FineIsDecodable(t: Type)
    requires forall n: nat :: FineBelow(t, n)
    ensures Decodable(t)
  {
    assert FineBelow(t, 0);
    if t.Slice? || t.Pointer? {
      forall n: nat ensures FineBelow(t.elem, n) {
        assert FineBelow(t, n + 1);
        FineStep(t, n);
      }
      FineIsDecodable(t.elem);
    }
  }

  /** A type can be decoded exactly when below its slices and pointers lies nothing but one with a parser,
      and no slice holds slices. */
  lemma DecodableExactly(t: Type)
    ensures Decodable(t) <==> forall n: nat :: FineBelow(t, n)
  {
    if Decodable(t) {
      forall n: nat ensures FineBelow(t, n) { DecodableIsFine(t, n); }
    } else if forall n: nat :: FineBelow(t, n) {
      FineIsDecodable(t);
    }
  }
}
