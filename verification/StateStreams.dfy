/**
 The cursors of the save-state code: a writer that fills a window of a buffer,
 or only measures when it has none; a reader over a window of one; and the
 chunks, a four-byte name and a length before a payload, that they frame.
 */
module StateStreams {
  import opened Words
  import opened StateBytes

  // ---------- Chunks ----------

  type Name = s: seq<Byte> | |s| == 4 witness [0, 0, 0, 0]

  function Chunk(name: Name, payload: seq<Byte>): (c: seq<Byte>)
    ensures |c| == 8 + |payload|
  {
    name + Le(4, |payload|) + payload
  }

  datatype Framed = Framed(payload: seq<Byte>, used: nat)

  function Unchunk(name: Name, s: seq<Byte>): (r: Option<Framed>)
    ensures r.Some? ==> 8 <= r.value.used <= |s| && r.value.used == 8 + |r.value.payload|
  {
    if |s| < 4 || s[..4] != name || |s| < 8 then None
    else
      var n := FromLe(s[4..8]);
      if n > |s| - 8 then None else Some(Framed(s[8..8 + n], 8 + n))
  }

  lemma UnchunkChunk(name: Name, payload: seq<Byte>, rest: seq<Byte>)
    requires |payload| <= MAX32
    ensures Unchunk(name, Chunk(name, payload) + rest) == Some(Framed(payload, 8 + |payload|))
  {
    hide Le, FromLe;
    var s := Chunk(name, payload) + rest;
    LeRoundTrip(4, |payload|);
    assert s[..4] == name;
    assert s[4..8] == Le(4, |payload|);
    assert s[8..8 + |payload|] == payload;
  }

  lemma ChunkUnchunk(name: Name, s: seq<Byte>)
    requires Unchunk(name, s).Some?
    ensures var f := Unchunk(name, s).value; s[..f.used] == Chunk(name, f.payload)
  {
    hide Le, FromLe;
    var f := Unchunk(name, s).value;
    FromLeRoundTrip(s[4..8]);
    assert s[..f.used] == s[..4] + s[4..8] + s[8..f.used];
  }

  // Unchunk in the order the reader takes the parts.
  lemma UnchunkByParts(name: Name, s: seq<Byte>)
    ensures Unchunk(name, s) ==
            if |s| < 4 || s[..4] != name || |s[4..]| < 4 then None
            else
              var body := s[4..][4..];
              var n := FromLe(s[4..][..4]);
              if n > |body| then None else Some(Framed(body[..n], 8 + n))
  {
    hide FromLe;
    if |s| >= 8 {
      assert s[4..][..4] == s[4..8];
      assert s[4..][4..] == s[8..];
      assert forall n: nat :: n <= |s| - 8 ==> s[8..8 + n] == s[8..][..n];
    }
  }

  // ---------- Writing ----------

  datatype Out = Out(offset: nat, failed: bool)

  // What a reservation of n bytes does to the writer; no limit means there is no buffer.
  function Reserved(o: Out, n: nat, limit: Option<nat>): Out
  {
    if o.failed then o
    else if n > MAX32 - o.offset then o.(failed := true)
    else Out(o.offset + n, limit.Some? && o.offset + n > limit.value)
  }

  function Overwrite(s: seq<Byte>, at: nat, src: seq<Byte>): (r: seq<Byte>)
    requires at + |src| <= |s|
    ensures |r| == |s|
  {
    s[..at] + src + s[at + |src|..]
  }

  lemma OverwriteNone(s: seq<Byte>, at: nat)
    requires at <= |s|
    ensures Overwrite(s, at, []) == s
  {
  }

  lemma OverwriteTwice(s: seq<Byte>, at: nat, a: seq<Byte>, b: seq<Byte>)
    requires at + |a| + |b| <= |s|
    ensures Overwrite(Overwrite(s, at, a), at + |a|, b) == Overwrite(s, at, a + b)
  {
  }

  lemma LeStep(done: seq<Byte>, w: nat, v: nat)
    requires w > 0
    ensures done + [v % 256] + Le(w - 1, v / 256) == done + Le(w, v)
  {
  }

  method LittleEndian(w: nat, v: nat) returns (bytes: seq<Byte>)
    ensures bytes == Le(w, v)
  {
    hide Le;
    var k, x := 0, v;
    bytes := [];
    while k < w
      invariant 0 <= k <= w
      invariant bytes + Le(w - k, x) == Le(w, v)
    {
      LeStep(bytes, w - k, x);
      bytes := bytes + [x % 256];
      k, x := k + 1, x / 256;
    }
  }

  class Writer {
    const data: array?<Byte>
    const base: nat
    const size: nat
    var offset: nat
    var failed: bool

    ghost predicate Valid()
      reads this
    {
      && offset <= MAX32
      && (data != null ==> base + size <= data.Length && (!failed ==> offset <= size))
    }

    ghost predicate Room(n: nat) { n <= MAX32 && (data != null ==> n <= size) }

    function Limit(): Option<nat> { if data == null then None else Some(size) }

    function State(): Out
      reads this
    {
      Out(offset, failed)
    }

    ghost function Buffer(): seq<Byte>
      reads data
    {
      if data == null then [] else data[..]
    }

    // The buffer after src is written where the writer stands, if it fits.
    ghost function With(src: seq<Byte>): (b: seq<Byte>)
      requires Valid()
      reads this, data
    {
      if data == null || Reserved(State(), |src|, Limit()).failed then Buffer()
      else Overwrite(Buffer(), base + offset, src)
    }

    constructor (data: array?<Byte>, base: nat, size: nat)
      requires data != null ==> base + size <= data.Length
      ensures Valid() && State() == Out(0, false)
      ensures this.data == data && this.base == base && this.size == size
    {
      this.data, this.base, this.size := data, base, size;
      offset, failed := 0, false;
    }

    // opera_state_write_reserve; the result is where in the buffer the reservation starts.
    method Reserve(n: nat) returns (at: Option<nat>)
      requires Valid()
      modifies this
      ensures Valid()
      ensures State() == Reserved(old(State()), n, Limit())
      ensures at == if failed || data == null then None else Some(base + old(offset))
    {
      if failed {
        return None;
      }
      if n > MAX32 - offset {
        failed := true;
        return None;
      }
      var start := offset;
      offset := offset + n;
      if data != null && offset > size {
        failed := true;
        return None;
      }
      return if data == null then None else Some(base + start);
    }

    method WriteBytes(src: seq<Byte>) returns (ok: bool)
      requires Valid()
      modifies this, data
      ensures Valid() && ok == !failed
      ensures State() == Reserved(old(State()), |src|, Limit())
      ensures Buffer() == old(With(src))
    {
      var at := Reserve(|src|);
      if at.Some? {
        var k := 0;
        while k < |src|
          invariant 0 <= k <= |src|
          invariant Buffer() == Overwrite(old(Buffer()), at.value, src[..k])
          invariant Valid() && State() == Reserved(old(State()), |src|, Limit()) && !failed
        {
          data[at.value + k] := src[k];
          k := k + 1;
        }
        assert src[..k] == src;
      }
      return !failed;
    }

    // opera_state_write_u8, _u16, _u32 and _u64: the low byte first.
    method WriteUint(w: nat, v: nat) returns (ok: bool)
      requires Valid()
      modifies this, data
      ensures Valid() && ok == !failed
      ensures State() == Reserved(old(State()), w, Limit())
      ensures Buffer() == old(With(Le(w, v)))
    {
      var bytes := LittleEndian(w, v);
      ok := WriteBytes(bytes);
    }

    method WriteField(f: Field) returns (ok: bool)
      requires Valid()
      modifies this, data
      ensures Valid() && ok == !failed
      ensures State() == Reserved(old(State()), |EncodeOne(f)|, Limit())
      ensures Buffer() == old(With(EncodeOne(f)))
    {
      match f
      case Num(w, v) => ok := WriteUint(w, v);
      case Raw(bytes) => ok := WriteBytes(bytes);
      case Arr(w, vs) => ok := WriteBytes(EncodeArr(w, vs));
    }

    // Fields one after the other, up to the first that fails.
    method WriteFields(fs: seq<Field>) returns (ok: bool)
      requires Valid()
      modifies this, data
      ensures Valid() && ok == !failed
      ensures ok <==> !old(failed) && Room(old(offset) + |Encode(fs)|)
      ensures ok ==> offset == old(offset) + |Encode(fs)|
      ensures ok && data != null ==> Buffer() == Overwrite(old(Buffer()), base + old(offset), Encode(fs))
    {
      hide EncodeOne, Overwrite;
      var i := 0;
      ok := !failed;
      assert fs[..0] == [];
      if ok && data != null {
        OverwriteNone(Buffer(), base + offset);
      }
      while i < |fs| && ok
        invariant 0 <= i <= |fs|
        invariant Valid() && ok == !failed
        invariant ok ==> !old(failed) && Room(offset) && offset == old(offset) + |Encode(fs[..i])|
        invariant ok && data != null ==> Buffer() == Overwrite(old(Buffer()), base + old(offset), Encode(fs[..i]))
        invariant !ok ==> old(failed) || !Room(old(offset) + |Encode(fs)|)
      {
        EncodeTo(fs, i);
        ok := WriteField(fs[i]);
        if ok && data != null {
          OverwriteTwice(old(Buffer()), base + old(offset), Encode(fs[..i]), EncodeOne(fs[i]));
        }
        i := i + 1;
      }
      assert ok ==> fs[..i] == fs;
    }
  }

  lemma EncodeTo(fs: seq<Field>, i: nat)
    requires i < |fs|
    ensures Encode(fs[..i + 1]) == Encode(fs[..i]) + EncodeOne(fs[i])
    ensures |Encode(fs[..i + 1])| <= |Encode(fs)|
  {
    hide EncodeOne;
    assert fs[..i + 1] == fs[..i] + [fs[i]];
    EncodeAppend(fs[..i], [fs[i]]);
    assert Encode([fs[i]]) == EncodeOne(fs[i]) + Encode([]);
    assert fs == fs[..i + 1] + fs[i + 1..];
    EncodeAppend(fs[..i + 1], fs[i + 1..]);
  }

  // The sizing pass: the payload written with no buffer behind it. Zero if it does not fit 32 bits.
  method PayloadSize(fs: seq<Field>) returns (n: nat)
    ensures n == if |Encode(fs)| <= MAX32 then |Encode(fs)| else 0
  {
    var w := new Writer(null, 0, MAX32);
    var ok := w.WriteFields(fs);
    return if ok then w.offset else 0;
  }

  // How every component saves itself: measure, then write the header and the payload.
  method SaveChunk(name: Name, fs: seq<Field>, buf: array<Byte>, base: nat) returns (used: nat)
    requires 8 + |Encode(fs)| <= MAX32 && base + 8 + |Encode(fs)| <= buf.Length
    modifies buf
    ensures used == |Chunk(name, Encode(fs))|
    ensures buf[..] == Overwrite(old(buf[..]), base, Chunk(name, Encode(fs)))
  {
    hide Overwrite, Encode, EncodeOne, Le;
    var n := PayloadSize(fs);
    var w := new Writer(buf, base, 8 + n);
    var ok := w.WriteBytes(name);
    ok := w.WriteUint(4, n);
    OverwriteTwice(old(buf[..]), base, name, Le(4, n));
    ok := w.WriteFields(fs);
    OverwriteTwice(old(buf[..]), base, name + Le(4, n), Encode(fs));
    return w.offset;
  }

  // ---------- Reading ----------

  class Reader {
    const data: seq<Byte>
    var offset: nat
    var failed: bool

    ghost predicate Valid()
      reads this
    {
      offset <= |data|
    }

    function Rest(): seq<Byte>
      requires Valid()
      reads this
    {
      data[offset..]
    }

    constructor (data: seq<Byte>)
      ensures Valid() && offset == 0 && !failed && this.data == data && Rest() == data
    {
      this.data, offset, failed := data, 0, false;
    }

    function Remaining(): nat
      requires Valid()
      reads this
    {
      |data| - offset
    }

    predicate Finished()
      reads this
    {
      !failed && offset == |data|
    }

    method SkipBytes(n: nat) returns (ok: bool)
      requires Valid()
      modifies this
      ensures Valid() && ok == (!old(failed) && n <= old(Remaining())) == !failed
      ensures offset == if ok then old(offset) + n else old(offset)
    {
      if failed {
        return false;
      }
      if n > Remaining() {
        failed := true;
        return false;
      }
      offset := offset + n;
      return true;
    }

    method ReadBytes(n: nat) returns (ok: bool, bytes: seq<Byte>)
      requires Valid()
      modifies this
      ensures Valid() && ok == (!old(failed) && n <= old(Remaining())) == !failed
      ensures offset == if ok then old(offset) + n else old(offset)
      ensures ok ==> bytes == old(Rest())[..n] && Rest() == old(Rest())[n..]
    {
      bytes := [];
      ok := SkipBytes(n);
      if ok {
        bytes := data[offset - n..offset];
      }
    }

    // opera_state_read_u8, _u16, _u32 and _u64.
    method ReadUint(w: nat) returns (ok: bool, v: nat)
      requires Valid()
      modifies this
      ensures Valid() && ok == (!old(failed) && w <= old(Remaining())) == !failed
      ensures offset == if ok then old(offset) + w else old(offset)
      ensures ok ==> v == FromLe(old(Rest())[..w]) && Rest() == old(Rest())[w..]
    {
      v := 0;
      if failed || Remaining() < w {
        failed := true;
        return false, v;
      }
      var k := w;
      while k > 0
        invariant 0 <= k <= w
        invariant v == FromLe(data[offset + k..offset + w])
      {
        k := k - 1;
        v := data[offset + k] + 256 * v;
        assert data[offset + k..offset + w][1..] == data[offset + k + 1..offset + w];
      }
      assert data[offset..offset + w] == Rest()[..w];
      offset := offset + w;
      return true, v;
    }

    // An array's stored form is its own bytes on a little-endian host.
    method ReadField(k: Kind) returns (ok: bool, f: Field)
      requires Valid()
      modifies this
      ensures Valid() && ok == (!old(failed) && KindSize(k) <= old(Remaining())) == !failed
      ensures ok ==> f == DecodeOne(k, old(Rest())[..KindSize(k)]) && Rest() == old(Rest())[KindSize(k)..]
    {
      match k
      case KNum(w) =>
        var v;
        ok, v := ReadUint(w);
        f := Num(w, v);
      case KRaw(n) =>
        var bytes;
        ok, bytes := ReadBytes(n);
        f := Raw(bytes);
      case KArr(w, n) =>
        var bytes;
        ok, bytes := ReadBytes(n * w);
        f := if ok then Arr(w, DecodeArr(w, n, bytes)) else Raw([]);
    }

    // Fields one after the other, up to the first that fails.
    method ReadFields(kinds: seq<Kind>) returns (ok: bool, fs: seq<Field>)
      requires Valid()
      modifies this
      ensures Valid() && ok == !failed
      ensures ok <==> !old(failed) && Parse(kinds, old(Rest())).Some?
      ensures ok ==> Parse(kinds, old(Rest())) == Some(Parsed(fs, Rest()))
    {
      hide DecodeOne, KindSize;
      fs := [];
      ok := !failed;
      var i := 0;
      assert kinds[0..] == kinds;
      PrefixedNone(Parse(kinds, Rest()));
      while i < |kinds| && ok
        invariant 0 <= i <= |kinds|
        invariant Valid() && ok == !failed
        invariant !ok ==> old(failed) || Parse(kinds, old(Rest())).None?
        invariant ok ==> !old(failed) && Parse(kinds, old(Rest())) == Prefixed(fs, Parse(kinds[i..], Rest()))
      {
        ghost var before, done := Rest(), fs;
        var f;
        ok, f := ReadField(kinds[i]);
        assert kinds[i..][1..] == kinds[i + 1..];
        if ok {
          fs := fs + [f];
          PrefixedTwice(done, f, Parse(kinds[i + 1..], Rest()));
        }
        i := i + 1;
      }
      assert ok ==> kinds[i..] == [] && fs + [] == fs;
    }

    method ReadChunk(name: Name) returns (ok: bool, payload: Reader)
      requires Valid()
      modifies this
      ensures Valid() && fresh(payload) && payload.Valid()
      ensures ok <==> !old(failed) && Unchunk(name, old(Rest())).Some?
      ensures ok ==> var f := Unchunk(name, old(Rest())).value;
                     !failed && offset == old(offset) + f.used
                     && payload.data == f.payload && payload.offset == 0 && !payload.failed
      ensures !ok ==> failed
    {
      hide FromLe, Unchunk;
      payload := new Reader([]);
      UnchunkByParts(name, Rest());
      var actual, n;
      ok, actual := ReadBytes(4);
      if !ok || actual != name {
        failed := true;
        return false, payload;
      }
      ok, n := ReadUint(4);
      if !ok || n > Remaining() {
        failed := true;
        return false, payload;
      }
      payload := new Reader(Rest()[..n]);
      offset := offset + n;
    }
  }

  // A parse result with fields already read put in front.
  function Prefixed(fs: seq<Field>, r: Option<Parsed>): Option<Parsed>
  {
    match r
    case None => None
    case Some(p) => Some(Parsed(fs + p.fields, p.rest))
  }

  lemma PrefixedNone(r: Option<Parsed>)
    ensures Prefixed([], r) == r
  {
    if r.Some? {
      assert [] + r.value.fields == r.value.fields;
    }
  }

  lemma PrefixedTwice(fs: seq<Field>, f: Field, r: Option<Parsed>)
    ensures Prefixed(fs, Prefixed([f], r)) == Prefixed(fs + [f], r)
  {
    if r.Some? {
      assert fs + ([f] + r.value.fields) == fs + [f] + r.value.fields;
    }
  }
}
