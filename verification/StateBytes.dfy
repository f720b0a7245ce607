/**
 The byte streams save states are made of: little-endian integers, runs of
 bytes and arrays of integers. `Encode` and `Parse` are each other's inverse;
 `Writer` and `Reader` are the emulator's cursors over a buffer, the first also
 usable with no buffer to measure what would be written.
 */
module StateBytes {
  import opened Words

  const MAX32: nat := 0xFFFF_FFFF

  // ---------- Integers ----------

  function Pow256(w: nat): nat { if w == 0 then 1 else 256 * Pow256(w - 1) }

  function Le(w: nat, v: nat): (s: seq<Byte>)
    ensures |s| == w
  {
    if w == 0 then [] else [v % 256] + Le(w - 1, v / 256)
  }

  function FromLe(s: seq<Byte>): nat { if s == [] then 0 else s[0] + 256 * FromLe(s[1..]) }

  lemma {:induction false} LeRoundTrip(w: nat, v: nat)
    requires v < Pow256(w)
    ensures FromLe(Le(w, v)) == v
  {
    if w > 0 {
      LeRoundTrip(w - 1, v / 256);
      assert Le(w, v)[1..] == Le(w - 1, v / 256);
    }
  }

  lemma {:induction false} FromLeRoundTrip(s: seq<Byte>)
    ensures FromLe(s) < Pow256(|s|) && Le(|s|, FromLe(s)) == s
  {
    if s != [] {
      FromLeRoundTrip(s[1..]);
      assert [s[0]] + s[1..] == s;
    }
  }

  // The low byte comes first.
  lemma LowByteFirst(v: nat)
    ensures Le(1, v) == [v % 256] && Le(2, v) == [v % 256, v / 256 % 256]
    ensures Le(4, v) == [v % 256, v / 256 % 256, v / 0x1_0000 % 256, v / 0x100_0000 % 256]
  {
    hide Le;
    assert v / 256 / 256 == v / 0x1_0000 && v / 0x1_0000 / 256 == v / 0x100_0000;
    LeOf(0, v / 0x100_0000 / 256);
    LeOf(1, v / 0x100_0000);
    LeOf(2, v / 0x1_0000);
    LeOf(3, v / 256);
    LeOf(4, v);
    LeOf(0, v / 256);
    LeOf(1, v);
    LeOf(1, v / 256);
    LeOf(2, v);
  }

  lemma LeOf(w: nat, v: nat)
    ensures Le(w, v) == if w == 0 then [] else [v % 256] + Le(w - 1, v / 256)
  {
  }

  // ---------- Fields ----------

  datatype Kind = KNum(w: nat) | KRaw(n: nat) | KArr(w: nat, n: nat)

  datatype Field = Num(w: nat, v: nat) | Raw(bytes: seq<Byte>) | Arr(w: nat, vs: seq<nat>)

  predicate Fits(f: Field, k: Kind)
  {
    match k
    case KNum(w) => f.Num? && f.w == w && f.v < Pow256(w)
    case KRaw(n) => f.Raw? && |f.bytes| == n
    case KArr(w, n) => f.Arr? && f.w == w && |f.vs| == n && forall i :: 0 <= i < n ==> f.vs[i] < Pow256(w)
  }

  predicate AllFit(fs: seq<Field>, kinds: seq<Kind>)
  {
    |fs| == |kinds| && forall i :: 0 <= i < |fs| ==> Fits(fs[i], kinds[i])
  }

  function KindSize(k: Kind): nat
  {
    match k
    case KNum(w) => w
    case KRaw(n) => n
    case KArr(w, n) => n * w
  }

  function TotalSize(kinds: seq<Kind>): nat
  {
    if kinds == [] then 0 else KindSize(kinds[0]) + TotalSize(kinds[1..])
  }

  function EncodeArr(w: nat, vs: seq<nat>): (s: seq<Byte>)
    ensures |s| == |vs| * w
  {
    if vs == [] then [] else Le(w, vs[0]) + EncodeArr(w, vs[1..])
  }

  function EncodeOne(f: Field): (s: seq<Byte>)
  {
    match f
    case Num(w, v) => Le(w, v)
    case Raw(bytes) => bytes
    case Arr(w, vs) => EncodeArr(w, vs)
  }

  function Encode(fs: seq<Field>): seq<Byte>
  {
    if fs == [] then [] else EncodeOne(fs[0]) + Encode(fs[1..])
  }

  function DecodeArr(w: nat, n: nat, s: seq<Byte>): (vs: seq<nat>)
    requires |s| == n * w
    ensures |vs| == n
  {
    if n == 0 then [] else
      assert n * w == w + (n - 1) * w;
      [FromLe(s[..w])] + DecodeArr(w, n - 1, s[w..])
  }

  function DecodeOne(k: Kind, s: seq<Byte>): (f: Field)
    requires |s| == KindSize(k)
  {
    match k
    case KNum(w) => Num(w, FromLe(s))
    case KRaw(n) => Raw(s)
    case KArr(w, n) => Arr(w, DecodeArr(w, n, s))
  }

  datatype Parsed = Parsed(fields: seq<Field>, rest: seq<Byte>)

  function Parse(kinds: seq<Kind>, s: seq<Byte>): (r: Option<Parsed>)
  {
    if kinds == [] then Some(Parsed([], s))
    else
      var n := KindSize(kinds[0]);
      if |s| < n then None
      else
        match Parse(kinds[1..], s[n..])
        case None => None
        case Some(p) => Some(Parsed([DecodeOne(kinds[0], s[..n])] + p.fields, p.rest))
  }

  // ---------- Reading and writing are inverse ----------

  lemma {:induction false} DecodeEncodeArr(w: nat, vs: seq<nat>)
    requires forall i :: 0 <= i < |vs| ==> vs[i] < Pow256(w)
    ensures DecodeArr(w, |vs|, EncodeArr(w, vs)) == vs
  {
    if vs != [] {
      var s := EncodeArr(w, vs);
      assert |vs| * w == w + (|vs| - 1) * w;
      assert s[..w] == Le(w, vs[0]) && s[w..] == EncodeArr(w, vs[1..]);
      LeRoundTrip(w, vs[0]);
      DecodeEncodeArr(w, vs[1..]);
      assert [vs[0]] + vs[1..] == vs;
    }
  }

  lemma {:induction false} EncodeDecodeArr(w: nat, n: nat, s: seq<Byte>)
    requires |s| == n * w
    ensures forall i :: 0 <= i < n ==> DecodeArr(w, n, s)[i] < Pow256(w)
    ensures EncodeArr(w, DecodeArr(w, n, s)) == s
  {
    if n > 0 {
      assert n * w == w + (n - 1) * w;
      FromLeRoundTrip(s[..w]);
      EncodeDecodeArr(w, n - 1, s[w..]);
      var vs := DecodeArr(w, n, s);
      assert vs[1..] == DecodeArr(w, n - 1, s[w..]);
      assert forall i :: 1 <= i < n ==> vs[i] == vs[1..][i - 1];
      assert s[..w] + s[w..] == s;
    }
  }

  lemma DecodeEncodeOne(f: Field, k: Kind)
    requires Fits(f, k)
    ensures |EncodeOne(f)| == KindSize(k) && DecodeOne(k, EncodeOne(f)) == f
  {
    match k
    case KNum(w) => LeRoundTrip(w, f.v);
    case KRaw(n) =>
    case KArr(w, n) => DecodeEncodeArr(w, f.vs);
  }

  lemma EncodeDecodeOne(k: Kind, s: seq<Byte>)
    requires |s| == KindSize(k)
    ensures Fits(DecodeOne(k, s), k) && EncodeOne(DecodeOne(k, s)) == s
  {
    match k
    case KNum(w) => FromLeRoundTrip(s);
    case KRaw(n) =>
    case KArr(w, n) => EncodeDecodeArr(w, n, s);
  }

  // One step of Parse, over a stream that starts with the encoding of a field.
  lemma ParseStep(kinds: seq<Kind>, f: Field, s: seq<Byte>)
    requires kinds != [] && Fits(f, kinds[0])
    ensures Parse(kinds, EncodeOne(f) + s)
         == match Parse(kinds[1..], s)
            case None => None
            case Some(p) => Some(Parsed([f] + p.fields, p.rest))
  {
    hide Fits, EncodeOne, DecodeOne, KindSize;
    DecodeEncodeOne(f, kinds[0]);
    var n := KindSize(kinds[0]);
    assert (EncodeOne(f) + s)[..n] == EncodeOne(f);
    assert (EncodeOne(f) + s)[n..] == s;
  }

  lemma {:induction false} ParseEncode(kinds: seq<Kind>, fs: seq<Field>, rest: seq<Byte>)
    requires AllFit(fs, kinds)
    ensures Parse(kinds, Encode(fs) + rest) == Some(Parsed(fs, rest))
    ensures |Encode(fs)| == TotalSize(kinds)
  {
    hide Fits, EncodeOne, DecodeOne, KindSize;
    if fs == [] {
      assert Encode(fs) + rest == rest;
    } else {
      ParseEncode(kinds[1..], fs[1..], rest);
      ParseStep(kinds, fs[0], Encode(fs[1..]) + rest);
      DecodeEncodeOne(fs[0], kinds[0]);
      assert Encode(fs) + rest == EncodeOne(fs[0]) + (Encode(fs[1..]) + rest);
      assert [fs[0]] + fs[1..] == fs;
    }
  }

  lemma {:induction false} EncodeParse(kinds: seq<Kind>, s: seq<Byte>)
    ensures Parse(kinds, s).Some? <==> TotalSize(kinds) <= |s|
    ensures Parse(kinds, s).Some? ==>
              var p := Parse(kinds, s).value;
              AllFit(p.fields, kinds) && Encode(p.fields) == s[..TotalSize(kinds)] && p.rest == s[TotalSize(kinds)..]
  {
    hide Fits, EncodeOne, DecodeOne, KindSize;
    if kinds != [] && |s| >= KindSize(kinds[0]) {
      var n := KindSize(kinds[0]);
      EncodeDecodeOne(kinds[0], s[..n]);
      EncodeParse(kinds[1..], s[n..]);
      if Parse(kinds[1..], s[n..]).Some? {
        var p, q := Parse(kinds, s).value, Parse(kinds[1..], s[n..]).value;
        assert p.fields[1..] == q.fields;
        assert forall i :: 1 <= i < |kinds| ==> p.fields[i] == q.fields[i - 1] && kinds[i] == kinds[1..][i - 1];
        assert s[..n] + s[n..][..TotalSize(kinds[1..])] == s[..TotalSize(kinds)];
      }
    }
  }

  lemma {:induction false} EncodeAppend(a: seq<Field>, b: seq<Field>)
    ensures Encode(a + b) == Encode(a) + Encode(b)
  {
    hide EncodeOne;
    if a == [] {
      assert a + b == b;
    } else {
      EncodeAppend(a[1..], b);
      assert (a + b)[0] == a[0] && (a + b)[1..] == a[1..] + b;
    }
  }
}
