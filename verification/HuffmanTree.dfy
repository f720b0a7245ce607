/**
 The run-length form in which a tree's code lengths are stored: values of a
 fixed width, one of which escapes to a run. Reading it inverts writing it.
 */
module HuffmanTree {
  import opened Words
  import opened BitStream
  import opened HuffmanBits
  import opened HuffmanCode
  import opened HuffmanDecoder

  // rhuff_rle_value_bits
  function ValueBits(maxBits: nat): (w: nat)
    ensures 3 <= w <= 5
  {
    if maxBits >= 16 then 5 else if maxBits >= 8 then 4 else 3
  }

  // A length on its own, or a length and how often more than three times it comes.
  datatype Item = Single(length: nat) | Run(length: nat, extra: nat)

  // The values an item is stored as. A one escapes, and twice means itself.
  function Values(i: Item): seq<nat>
  {
    match i
    case Single(length) => if length == 1 then [1, 1] else [length]
    case Run(length, extra) => [1, length, extra]
  }

  function Lengths(i: Item): (s: seq<nat>)
    ensures |s| >= 1
  {
    match i
    case Single(length) => [length]
    case Run(length, extra) => seq(extra + 3, _ => length)
  }

  // ---------- Reading ----------

  function ItemAt(data: seq<Byte>, p: nat, w: nat): Item
  {
    var first := Window(data, p, w);
    if first != 1 then Single(first)
    else
      var second := Window(data, p + w, w);
      if second == 1 then Single(1) else Run(second, Window(data, p + w + w, w))
  }

  // How many bits an item takes.
  function Width(i: Item, w: nat): nat
  {
    match i
    case Single(length) => if length == 1 then w + w else w
    case Run(_, _) => w + w + w
  }

  function FirstN(s: seq<nat>, n: nat): (r: seq<nat>)
    ensures |r| == if |s| < n then |s| else n
  {
    if |s| <= n then s else s[..n]
  }

  // The lengths read from bit p on, behind those already there, until there are n, and where reading ends.
  datatype Tree = Tree(lengths: seq<nat>, end: nat)

  function TreeAt(data: seq<Byte>, p: nat, w: nat, n: nat, done: seq<nat>): (t: Tree)
    requires |done| <= n
    ensures |t.lengths| == n && p <= t.end
    decreases n - |done|
  {
    if |done| == n then Tree(done, p)
    else
      var i := ItemAt(data, p, w);
      TreeAt(data, p + Width(i, w), w, n, FirstN(done + Lengths(i), n))
  }

  // rhuff_read_tree_rle
  method ReadTree(d: Decoder, b: BitReader) returns (status: Status)
    requires d.Valid() && Coherent(b.State())
    modifies d, d.lookup, b
    ensures d.Valid()
    ensures var p, w := Pos(old(b.State())), if d.maxBits >= 16 then 5 else if d.maxBits >= 8 then 4 else 3;
            var t := TreeAt(old(b.data), p, w, d.numCodes, []);
            if old(b.overflow) || old(b.used) + (t.end - p) > 8 * |old(b.data)| then status == ErrorData
            else
              && d.lengths == t.lengths && Coherent(b.State()) && Pos(b.State()) == t.end && !b.overflow
              && (status == Ok <==> Buildable(d.lengths, d.maxBits, d.lookup.Length))
              && (status == Ok ==> TableFor(d.lookup[..], d.lengths, d.maxBits))
  {
    hide Coherent, TreeAt, ItemAt, Window, Buildable, TableFor, Shl;
    var w := ValueBits(d.maxBits);
    ghost var start := b.State();
    CoherentFacts(start);
    ghost var t := TreeAt(start.data, Pos(start), w, d.numCodes, []);
    var lengths: seq<nat> := [];
    while |lengths| < d.numCodes
      invariant |lengths| <= d.numCodes
      invariant d.Valid() && b.data == start.data && Coherent(b.State()) && Pos(b.State()) >= 0
      invariant b.used - Pos(b.State()) == start.used - Pos(start)
      invariant lengths == [] || !b.overflow
      invariant b.overflow <==> start.overflow || b.used > 8 * |start.data|
      invariant t == TreeAt(start.data, Pos(b.State()), w, d.numCodes, lengths)
      decreases d.numCodes - |lengths|
    {
      TreeStep(start.data, Pos(b.State()), w, d.numCodes, lengths);
      var item := ReadItem(b, w);
      lengths := FirstN(lengths + Lengths(item), d.numCodes);
      CoherentFacts(b.State());
      if b.overflow {
        return ErrorData;
      }
    }
    TreeEnd(start.data, Pos(b.State()), w, lengths);
    d.lengths := lengths;
    status := d.Build();
  }

  lemma CoherentFacts(b: Bits)
    requires Coherent(b)
    ensures Pos(b) >= 0 && (b.used > 8 * |b.data| ==> b.overflow)
  {
  }

  lemma TreeStep(data: seq<Byte>, p: nat, w: nat, n: nat, done: seq<nat>)
    requires |done| < n
    ensures var i := ItemAt(data, p, w);
            TreeAt(data, p, w, n, done) == TreeAt(data, p + Width(i, w), w, n, FirstN(done + Lengths(i), n))
  {
  }

  lemma TreeEnd(data: seq<Byte>, p: nat, w: nat, done: seq<nat>)
    ensures TreeAt(data, p, w, |done|, done) == Tree(done, p)
  {
  }

  method ReadItem(b: BitReader, w: nat) returns (item: Item)
    requires Coherent(b.State()) && 3 <= w <= 5 && Pos(b.State()) >= 0
    modifies b
    ensures item == ItemAt(old(b.data), Pos(old(b.State())), w)
    ensures b.data == old(b.data) && Coherent(b.State())
    ensures Pos(b.State()) == Pos(old(b.State())) + Width(item, w)
    ensures b.used == old(b.used) + Width(item, w)
    ensures b.overflow <==> old(b.overflow) || b.used > 8 * |b.data|
  {
    hide Coherent, Window;
    CoherentFacts(b.State());
    var value := b.Read(w);
    if value != 1 {
      return Single(value);
    }
    value := b.Read(w);
    if value == 1 {
      return Single(1);
    }
    var extra := b.Read(w);
    return Run(value, extra);
  }

  // ---------- Reading inverts writing ----------

  // Items whose values fit the width; a run of ones would read as single ones.
  predicate Storable(items: seq<Item>, w: nat)
  {
    forall k :: 0 <= k < |items| ==> ItemFits(items[k], w)
  }

  predicate ItemFits(i: Item, w: nat)
  {
    i.length < Pow2(w) && (i.Run? ==> i.length != 1 && i.extra < Pow2(w))
  }

  function ValueStream(vs: seq<nat>, w: nat): (s: seq<nat>)
    ensures |s| == |vs| * w
  {
    if vs == [] then [] else BitsOf(vs[0], w) + ValueStream(vs[1..], w)
  }

  function TreeBits(items: seq<Item>, w: nat): seq<nat>
  {
    if items == [] then [] else ValueStream(Values(items[0]), w) + TreeBits(items[1..], w)
  }

  function Expanded(items: seq<Item>): seq<nat>
  {
    if items == [] then [] else Lengths(items[0]) + Expanded(items[1..])
  }

  // The stream at p starts with an item.
  lemma {:induction false} ItemRead(data: seq<Byte>, p: nat, w: nat, i: Item)
    requires ItemFits(i, w) && w >= 1 && Holds(data, p, ValueStream(Values(i), w))
    ensures ItemAt(data, p, w) == i && Width(i, w) == |ValueStream(Values(i), w)|
  {
    hide Window, BitsOf, Holds, Shl;
    var vs := Values(i);
    assert Pow2(w) > 1 by { OneFits(w); }
    assert ValueStream(vs, w) == BitsOf(vs[0], w) + ValueStream(vs[1..], w);
    HoldsPrefix(data, p, BitsOf(vs[0], w), ValueStream(vs[1..], w));
    WindowOfBits(data, p, vs[0], w);
    if |vs| > 1 {
      var rest := vs[1..];
      assert ValueStream(rest, w) == BitsOf(rest[0], w) + ValueStream(rest[1..], w);
      HoldsPrefix(data, p + w, BitsOf(rest[0], w), ValueStream(rest[1..], w));
      WindowOfBits(data, p + w, rest[0], w);
      if |vs| > 2 {
        var last := rest[1..];
        assert ValueStream(last, w) == BitsOf(last[0], w) + ValueStream(last[1..], w);
        HoldsPrefix(data, p + w + w, BitsOf(last[0], w), ValueStream(last[1..], w));
        WindowOfBits(data, p + w + w, last[0], w);
      }
    }
  }

  // What literal values in the stream stand for. A value other than one is a length; two ones are a length of one;
  // a one, a length and a number k are that length k + 3 times, as far as there are symbols left.
  lemma ValuesRead(data: seq<Byte>, p: nat, w: nat, n: nat, done: seq<nat>, v: nat, k: nat)
    requires |done| < n && w >= 1 && v < Pow2(w) && k < Pow2(w)
    ensures v != 1 && Holds(data, p, BitsOf(v, w)) ==>
              TreeAt(data, p, w, n, done) == TreeAt(data, p + w, w, n, done + [v])
    ensures Holds(data, p, BitsOf(1, w) + BitsOf(1, w)) ==>
              TreeAt(data, p, w, n, done) == TreeAt(data, p + 2 * w, w, n, done + [1])
    ensures v != 1 && Holds(data, p, BitsOf(1, w) + (BitsOf(v, w) + BitsOf(k, w))) ==>
              var times: nat := Min(k + 3, n - |done|);
              TreeAt(data, p, w, n, done) == TreeAt(data, p + 3 * w, w, n, done + seq(times, _ => v))
  {
    hide Window, BitsOf, Holds, Shl, TreeAt, ItemAt, Width;
    OneFits(w);
    TreeStep(data, p, w, n, done);
    if v != 1 && Holds(data, p, BitsOf(v, w)) {
      StoredAs(data, p, w, Single(v));
      assert FirstN(done + [v], n) == done + [v];
    }
    if Holds(data, p, BitsOf(1, w) + BitsOf(1, w)) {
      StoredAs(data, p, w, Single(1));
      assert FirstN(done + [1], n) == done + [1];
    }
    if v != 1 && Holds(data, p, BitsOf(1, w) + (BitsOf(v, w) + BitsOf(k, w))) {
      StoredAs(data, p, w, Run(v, k));
      var times: nat := Min(k + 3, n - |done|);
      assert FirstN(done + Lengths(Run(v, k)), n) == done + seq(times, _ => v);
    }
  }

  // The item that values stand for is read from their bits.
  lemma StoredAs(data: seq<Byte>, p: nat, w: nat, i: Item)
    requires ItemFits(i, w) && w >= 1
    requires Holds(data, p, if i.Run? then BitsOf(1, w) + (BitsOf(i.length, w) + BitsOf(i.extra, w))
                            else if i.length == 1 then BitsOf(1, w) + BitsOf(1, w)
                            else BitsOf(i.length, w))
    ensures ItemAt(data, p, w) == i
    ensures Width(i, w) == if i.Run? then 3 * w else if i.length == 1 then 2 * w else w
  {
    hide Window, BitsOf, Holds, Shl, ItemAt;
    var stored := if i.Run? then BitsOf(1, w) + (BitsOf(i.length, w) + BitsOf(i.extra, w))
                  else if i.length == 1 then BitsOf(1, w) + BitsOf(1, w)
                  else BitsOf(i.length, w);
    if i.Run? {
      StreamOf(1, [i.length, i.extra], w);
      StreamOf(i.length, [i.extra], w);
      StreamOf(i.extra, [], w);
    } else if i.length == 1 {
      StreamOf(1, [1], w);
      StreamOf(1, [], w);
    } else {
      StreamOf(i.length, [], w);
    }
    assert ValueStream(Values(i), w) == stored;
    ItemRead(data, p, w, i);
  }

  lemma StreamOf(v: nat, rest: seq<nat>, w: nat)
    ensures ValueStream([v] + rest, w) == BitsOf(v, w) + ValueStream(rest, w)
    ensures rest == [] ==> ValueStream([v], w) == BitsOf(v, w)
  {
    assert ([v] + rest)[1..] == rest;
    assert rest == [] ==> [v] + rest == [v];
    assert BitsOf(v, w) + [] == BitsOf(v, w);
  }

  lemma OneFits(w: nat)
    requires w >= 1
    ensures Pow2(w) > 1
  {
    ShlShl(1, 1, w - 1);
  }

  // A reader standing at the stored items of n lengths reads exactly those lengths and stops behind them.
  lemma {:induction false} TreeRoundTrip(data: seq<Byte>, p: nat, w: nat, items: seq<Item>, done: seq<nat>)
    requires Storable(items, w) && w >= 1 && Holds(data, p, TreeBits(items, w))
    ensures TreeAt(data, p, w, |done + Expanded(items)|, done)
         == Tree(done + Expanded(items), p + |TreeBits(items, w)|)
    decreases |items|
  {
    hide Window, Holds, ItemAt, Width, ValueStream;
    var n := |done + Expanded(items)|;
    if items == [] {
      assert done + Expanded(items) == done;
      TreeEnd(data, p, w, done);
    } else {
      var i, rest := items[0], items[1..];
      HoldsPrefix(data, p, ValueStream(Values(i), w), TreeBits(rest, w));
      ItemRead(data, p, w, i);
      assert Storable(rest, w);
      var next := done + Lengths(i);
      assert next + Expanded(rest) == done + Expanded(items);
      assert FirstN(next, n) == next;
      TreeStep(data, p, w, n, done);
      TreeRoundTrip(data, p + Width(i, w), w, rest, next);
    }
  }

  // A reader standing at the stored lengths of all symbols reads them, builds from them and stops behind them.
  method ReadStoredTree(d: Decoder, b: BitReader, ghost items: seq<Item>) returns (status: Status)
    requires d.Valid() && Coherent(b.State()) && !b.overflow && Pos(b.State()) >= 0
    requires Storable(items, ValueBits(d.maxBits)) && |Expanded(items)| == d.numCodes
    requires Holds(b.data, Pos(b.State()), TreeBits(items, ValueBits(d.maxBits)))
    requires b.used + |TreeBits(items, ValueBits(d.maxBits))| <= 8 * |b.data|
    modifies d, d.lookup, b
    ensures d.Valid() && d.lengths == Expanded(items)
    ensures Coherent(b.State()) && !b.overflow
    ensures Pos(b.State()) == Pos(old(b.State())) + |TreeBits(items, ValueBits(d.maxBits))|
    ensures status == Ok <==> Buildable(Expanded(items), d.maxBits, d.lookup.Length)
    ensures status == Ok ==> TableFor(d.lookup[..], Expanded(items), d.maxBits)
  {
    hide Coherent, TreeAt, Holds, TreeBits, Buildable, TableFor, Expanded, Shl;
    TreeRoundTrip(b.data, Pos(b.State()), ValueBits(d.maxBits), items, []);
    assert [] + Expanded(items) == Expanded(items);
    status := ReadTree(d, b);
  }

  // Every list of lengths that fit can be stored, for instance one by one.
  function OneByOne(lengths: seq<nat>): (items: seq<Item>)
  {
    if lengths == [] then [] else [Single(lengths[0])] + OneByOne(lengths[1..])
  }

  lemma {:induction false} OneByOneStores(lengths: seq<nat>, w: nat)
    requires forall k :: 0 <= k < |lengths| ==> lengths[k] < Pow2(w)
    ensures Storable(OneByOne(lengths), w) && Expanded(OneByOne(lengths)) == lengths
  {
    hide Shl;
    if lengths != [] {
      var items := OneByOne(lengths);
      OneByOneStores(lengths[1..], w);
      assert items[1..] == OneByOne(lengths[1..]);
      assert forall k :: 1 <= k < |items| ==> items[k] == items[1..][k - 1];
      assert [lengths[0]] + lengths[1..] == lengths;
    }
  }
}
