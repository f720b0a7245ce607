/**
 Reading back what was burned. Image files are put together from the sectors of
 their tracks, each sector from its sync pattern, headers, user data and check
 bytes; what a read through the opened cue returns is then known byte for byte.
 */
module CueBurn {
  import opened Words
  import opened CueLayout

  // A sector as it stands in a file: user data alone, a full CD-ROM sector of mode 1 or 2, or samples.
  datatype RawSector =
    | Cooked(data: seq<Byte>)
    | Mode1(header: seq<Byte>, data: seq<Byte>, check: seq<Byte>)
    | Mode2(header: seq<Byte>, subheader: seq<Byte>, data: seq<Byte>, check: seq<Byte>)
    | Samples(data: seq<Byte>)

  const SYNC: seq<Byte> := [0, 0xFF, 0xFF, 0xFF, 0xFF, 0xFF, 0xFF, 0xFF, 0xFF, 0xFF, 0xFF, 0]

  predicate WellFormed(r: RawSector)
  {
    match r
    case Cooked(data) => |data| == 2048
    case Mode1(header, data, check) => |header| == 4 && |data| == 2048 && |check| == 288
    case Mode2(header, subheader, data, check) =>
      |header| == 4 && |subheader| == 8 && |data| == 2048 && |check| == 280
    case Samples(data) => |data| == 2352
  }

  function FormatOf(r: RawSector): Format
  {
    match r
    case Cooked(_) => Mode1_2048
    case Mode1(_, _, _) => Mode1_2352
    case Mode2(_, _, _, _) => Mode2_2352
    case Samples(_) => Audio
  }

  function SectorBytes(r: RawSector): seq<Byte>
  {
    match r
    case Cooked(data) => data
    case Mode1(header, data, check) => SYNC + header + data + check
    case Mode2(header, subheader, data, check) => SYNC + header + subheader + data + check
    case Samples(data) => data
  }

  // A sector has its format's size, and its user data where the format has it.
  lemma SectorParts(r: RawSector)
    requires WellFormed(r)
    ensures |SectorBytes(r)| == SectorSize(FormatOf(r))
    ensures var at := DataOffset(FormatOf(r));
            !r.Samples? ==> at + 2048 <= |SectorBytes(r)| && SectorBytes(r)[at..at + 2048] == r.data
  {
  }

  function TrackBytes(rs: seq<RawSector>): seq<Byte>
  {
    if rs == [] then [] else TrackBytes(rs[..|rs| - 1]) + SectorBytes(rs[|rs| - 1])
  }

  predicate OfFormat(rs: seq<RawSector>, f: Format)
  {
    forall k :: 0 <= k < |rs| ==> WellFormed(rs[k]) && FormatOf(rs[k]) == f
  }

  lemma {:induction false} TrackLength(rs: seq<RawSector>, f: Format)
    requires OfFormat(rs, f)
    ensures |TrackBytes(rs)| == Span(f, |rs|)
  {
    hide WellFormed, FormatOf, SectorBytes;
    if rs != [] {
      TrackLength(rs[..|rs| - 1], f);
      SectorParts(rs[|rs| - 1]);
    }
  }

  lemma {:induction false} SectorAt(rs: seq<RawSector>, f: Format, k: nat)
    requires OfFormat(rs, f) && k < |rs|
    ensures Span(f, k) + SectorSize(f) <= |TrackBytes(rs)|
    ensures TrackBytes(rs)[Span(f, k)..Span(f, k) + SectorSize(f)] == SectorBytes(rs[k])
  {
    hide WellFormed, FormatOf, SectorBytes, Span, SectorSize;
    var last := |rs| - 1;
    var front := rs[..last];
    TrackLength(front, f);
    SectorParts(rs[last]);
    var bytes, more := TrackBytes(front), SectorBytes(rs[last]);
    assert TrackBytes(rs) == bytes + more;
    if k == last {
      assert (bytes + more)[|bytes|..|bytes| + |more|] == more;
    } else {
      SectorAt(front, f, k);
      var p, size := Span(f, k), SectorSize(f);
      assert (bytes + more)[p..p + size] == bytes[p..p + size];
    }
  }

  // ---------- Files ----------

  // The bytes of a file from the first n tracks.
  function Burned(ts: seq<CueTrack>, raw: seq<seq<RawSector>>, n: nat, file: nat): seq<Byte>
    requires n <= |ts| == |raw|
  {
    if n == 0 then []
    else Burned(ts, raw, n - 1, file) + if ts[n - 1].file == file then TrackBytes(raw[n - 1]) else []
  }

  // The sectors ahead of a track's INDEX 01 that stand in its file: those of the file's first track.
  function Pregap(ts: seq<CueTrack>, i: nat): nat
    requires i < |ts|
  {
    if FirstInFile(ts, i) then ts[i].index else 0
  }

  // The files hold the tracks' sectors one after the other, each track's up to the next one's index.
  predicate IsBurned(cue: Cue, raw: seq<seq<RawSector>>, files: seq<seq<Byte>>)
  {
    var ts := cue.tracks;
    && |raw| == |ts| && |files| == |cue.sizes|
    && (forall f :: 0 <= f < |files| ==> |files[f]| == cue.sizes[f] && files[f] == Burned(ts, raw, |ts|, f))
    && (forall i :: 0 <= i < |ts| ==> OfFormat(raw[i], ts[i].format) && Pregap(ts, i) <= |raw[i]|)
    && (forall i :: 0 <= i < |ts| - 1 && ts[i].file == ts[i + 1].file ==>
                      |raw[i]| == Pregap(ts, i) + (ts[i + 1].index - ts[i].index))
  }

  lemma {:induction false} BurnedPrefix(ts: seq<CueTrack>, raw: seq<seq<RawSector>>, m: nat, n: nat, file: nat)
    requires m <= n <= |ts| == |raw|
    ensures Burned(ts, raw, m, file) <= Burned(ts, raw, n, file)
    decreases n
  {
    if m < n {
      BurnedPrefix(ts, raw, m, n - 1, file);
    }
  }

  lemma {:induction false} NothingBurned(ts: seq<CueTrack>, raw: seq<seq<RawSector>>, n: nat, file: nat)
    requires n <= |ts| == |raw| && forall j :: 0 <= j < n ==> ts[j].file != file
    ensures Burned(ts, raw, n, file) == []
  {
    if n > 0 {
      NothingBurned(ts, raw, n - 1, file);
    }
  }

  // The byte offset worked out for a track is where its INDEX 01 was burned.
  lemma {:induction false} OffsetWhereBurned(cue: Cue, raw: seq<seq<RawSector>>, files: seq<seq<Byte>>, i: nat)
    requires Regular(cue) && IsBurned(cue, raw, files) && i < |cue.tracks|
    ensures var ts := cue.tracks;
            && |raw| == |ts|
            && Ideal(ts, i) == |Burned(ts, raw, i, ts[i].file)| + Span(ts[i].format, Pregap(ts, i))
  {
    hide Regular, Span, Burned, IsBurned, Ideal, TrackBytes, Pregap;
    var ts := cue.tracks;
    TrackCounts(cue, raw, files, i);
    if FirstInFile(ts, i) {
      FirstBurned(cue, raw, i);
      IdealFirst(ts, i);
    } else {
      OffsetWhereBurned(cue, raw, files, i - 1);
      TrackCounts(cue, raw, files, i - 1);
      NextBurned(cue, raw, i);
    }
  }

  lemma FirstBurned(cue: Cue, raw: seq<seq<RawSector>>, i: nat)
    requires Regular(cue) && i < |cue.tracks| == |raw| && FirstInFile(cue.tracks, i)
    ensures Burned(cue.tracks, raw, i, cue.tracks[i].file) == [] && Pregap(cue.tracks, i) == cue.tracks[i].index
  {
    hide Regular, Burned;
    var ts := cue.tracks;
    forall j | 0 <= j < i
      ensures ts[j].file != ts[i].file
    {
      FilesInOrder(cue, j, i - 1);
      FilesInOrder(cue, i - 1, i);
    }
    NothingBurned(ts, raw, i, ts[i].file);
  }

  lemma NextBurned(cue: Cue, raw: seq<seq<RawSector>>, i: nat)
    requires Regular(cue) && 0 < i < |cue.tracks| == |raw| && !FirstInFile(cue.tracks, i)
    requires var ts := cue.tracks;
             && |TrackBytes(raw[i - 1])| == Span(ts[i - 1].format, |raw[i - 1]|)
             && |raw[i - 1]| == Pregap(ts, i - 1) + (ts[i].index - ts[i - 1].index)
             && Ideal(ts, i - 1)
             == |Burned(ts, raw, i - 1, ts[i - 1].file)| + Span(ts[i - 1].format, Pregap(ts, i - 1))
    ensures var ts := cue.tracks;
            Ideal(ts, i) == |Burned(ts, raw, i, ts[i].file)| + Span(ts[i].format, Pregap(ts, i))
  {
    hide Regular, Burned, Ideal, TrackBytes, Span;
    var ts := cue.tracks;
    FilesInOrder(cue, i - 1, i);
    BurnedNext(ts, raw, i - 1);
    IdealStep(ts, i);
    SpanAdds(ts[i - 1].format, Pregap(ts, i - 1), ts[i].index - ts[i - 1].index);
    SpanAdds(ts[i].format, 0, 0);
    assert Pregap(ts, i) == 0;
  }

  lemma IdealFirst(ts: seq<CueTrack>, i: nat)
    requires i < |ts| && FirstInFile(ts, i)
    ensures Ideal(ts, i) == Span(ts[i].format, ts[i].index)
  {
  }

  // How many sectors a track has, and how many bytes they take.
  lemma TrackCounts(cue: Cue, raw: seq<seq<RawSector>>, files: seq<seq<Byte>>, i: nat)
    requires IsBurned(cue, raw, files) && i < |cue.tracks|
    ensures |raw| == |cue.tracks| && |TrackBytes(raw[i])| == Span(cue.tracks[i].format, |raw[i]|)
    ensures Pregap(cue.tracks, i) <= |raw[i]|
    ensures i + 1 < |cue.tracks| && cue.tracks[i].file == cue.tracks[i + 1].file ==>
              |raw[i]| == Pregap(cue.tracks, i) + (cue.tracks[i + 1].index - cue.tracks[i].index)
  {
    hide Span, Burned, TrackBytes, OfFormat;
    TrackLength(raw[i], cue.tracks[i].format);
  }

  lemma SpanAdds(f: Format, a: nat, b: nat)
    ensures Span(f, a + b) == Span(f, a) + Span(f, b) && Span(f, 0) == 0
  {
  }

  // The bytes a read takes.
  function Taken(files: seq<seq<Byte>>, e: Extent): seq<Byte>
    requires e.file < |files| && e.start + e.length <= |files[e.file]|
  {
    files[e.file][e.start..e.start + e.length]
  }

  // The sector of a track that a disc address names.
  function Named(cue: Cue, raw: seq<seq<RawSector>>, i: nat, sector: nat): Option<RawSector>
    requires Openable(cue) && |raw| == |cue.tracks| && i < |raw| && Start(cue, i) <= sector
  {
    var k := Pregap(cue.tracks, i) + (sector - Start(cue, i));
    if k < |raw[i]| then Some(raw[i][k]) else None
  }

  // That sector stands at the position worked out for it.
  lemma BurnedAt(cue: Cue, raw: seq<seq<RawSector>>, files: seq<seq<Byte>>, i: nat, sector: nat)
    requires Regular(cue) && IsBurned(cue, raw, files) && Openable(cue) && i < |cue.tracks|
    requires Start(cue, i) <= sector && Named(cue, raw, i, sector).Some?
    ensures var t := cue.tracks[i];
            var p := Ideal(cue.tracks, i) + Span(t.format, sector - Start(cue, i));
            && WellFormed(Named(cue, raw, i, sector).value) && FormatOf(Named(cue, raw, i, sector).value) == t.format
            && t.file < |files| && p + SectorSize(t.format) <= |files[t.file]|
            && files[t.file][p..p + SectorSize(t.format)] == SectorBytes(Named(cue, raw, i, sector).value)
  {
    hide Regular, Ideal, Span, TrackBytes, Start, WellFormed, FormatOf, SectorBytes, Burned;
    var ts, t := cue.tracks, cue.tracks[i];
    OffsetWhereBurned(cue, raw, files, i);
    var k := Pregap(ts, i) + (sector - Start(cue, i));
    SpanAdds(t.format, Pregap(ts, i), sector - Start(cue, i));
    SectorAt(raw[i], t.format, k);
    BurnedPrefix(ts, raw, i + 1, |ts|, t.file);
    BurnedNext(ts, raw, i);
    var before := Burned(ts, raw, i, t.file);
    SliceOf(files[t.file], before, TrackBytes(raw[i]), Span(t.format, k), SectorSize(t.format));
  }

  lemma BurnedNext(ts: seq<CueTrack>, raw: seq<seq<RawSector>>, i: nat)
    requires i < |ts| == |raw|
    ensures Burned(ts, raw, i + 1, ts[i].file) == Burned(ts, raw, i, ts[i].file) + TrackBytes(raw[i])
  {
    hide TrackBytes;
  }

  lemma SliceOf(whole: seq<Byte>, before: seq<Byte>, part: seq<Byte>, at: nat, n: nat)
    requires before + part <= whole && at + n <= |part|
    ensures |before| + at + n <= |whole|
    ensures whole[|before| + at..|before| + at + n] == part[at..at + n]
  {
    assert forall j :: 0 <= j < |part| ==> (before + part)[|before| + j] == part[j];
  }

  // Main result: through the image opened from the cue of burned files, a read of 2048 bytes of a data sector
  // returns its user data and a read of 2352 bytes or more the whole sector, by whatever track it was burned in.
  lemma ReadBack(cue: Cue, image: Image, raw: seq<seq<RawSector>>, files: seq<seq<Byte>>, i: nat, sector: nat, n: nat)
    requires Regular(cue) && IsBurned(cue, raw, files) && Openable(cue) && IsImageOf(image, cue)
    requires At(cue, i, sector) && Named(cue, raw, i, sector).Some? && sector < image.blocks
    ensures i < |image.tracks| && Holds(image.tracks, i, sector)
    ensures var r, e := Named(cue, raw, i, sector).value, ExtentOf(image.tracks[i], sector, n);
            && (n == 2048 && !r.Samples? ==>
                  && e.file < |files| && e.start + e.length <= |files[e.file]|
                  && Taken(files, e) == r.data)
            && (n >= 2352 ==>
                  && e.file < |files| && e.start + e.length <= |files[e.file]|
                  && Taken(files, e) == SectorBytes(r))
  {
    hide Regular, Ideal, Span, Start, Burned, SectorBytes, WellFormed, Offset, OfFormat, End, FormatOf, Position, PositionIn, SectorSize, DataOffset;
    HoldsIsAt(cue, image, i, sector);
    BurnedAt(cue, raw, files, i, sector);
    var r := Named(cue, raw, i, sector).value;
    assert image.tracks[i] == TrackOf(cue, i);
    assert PositionIn(cue, i, sector)
        == Ideal(cue.tracks, i) + Span(cue.tracks[i].format, sector - Start(cue, i)) by { PositionIs(cue, i, sector); }
    ReadOf(files, image.tracks[i], r, sector, n);
  }

  lemma PositionIs(cue: Cue, i: nat, sector: nat)
    requires Openable(cue) && At(cue, i, sector)
    ensures PositionIn(cue, i, sector) == Ideal(cue.tracks, i) + Span(cue.tracks[i].format, sector - Start(cue, i))
  {
  }

  // A read of a sector that stands at its track's position for it.
  lemma ReadOf(files: seq<seq<Byte>>, t: Track, r: RawSector, sector: nat, n: nat)
    requires t.start <= sector && t.file < |files| && WellFormed(r) && FormatOf(r) == t.format
    requires var p := Position(t, sector);
             && p + SectorSize(t.format) <= |files[t.file]|
             && files[t.file][p..p + SectorSize(t.format)] == SectorBytes(r)
    ensures var e := ExtentOf(t, sector, n);
            && e.file == t.file
            && (n == 2048 && !r.Samples? ==>
                  e.start + e.length <= |files[e.file]| && Taken(files, e) == r.data)
            && (n >= 2352 ==> e.start + e.length <= |files[e.file]| && Taken(files, e) == SectorBytes(r))
  {
    hide SectorBytes, Span;
    SectorParts(r);
    var p, at, size := Position(t, sector), DataOffset(t.format), SectorSize(t.format);
    var file := files[t.file];
    if n == 2048 && !r.Samples? {
      SliceOfSlice(file, p, size, at, 2048);
    }
  }

  lemma SliceOfSlice(s: seq<Byte>, p: nat, n: nat, at: nat, m: nat)
    requires p + n <= |s| && at + m <= n
    ensures s[p..p + n][at..at + m] == s[p + at..p + at + m]
  {
    var inner, outer := s[p..p + n][at..at + m], s[p + at..p + at + m];
    assert |inner| == |outer| == m;
    assert forall k :: 0 <= k < m ==> inner[k] == s[p..p + n][at + k] == s[p + at + k] == outer[k];
  }

  // A burned track has a sector for every address it holds, unless the next file starts with a pregap.
  lemma EveryAddressNamed(cue: Cue, raw: seq<seq<RawSector>>, files: seq<seq<Byte>>, i: nat, sector: nat)
    requires Regular(cue) && NoPregaps(cue) && IsBurned(cue, raw, files) && Openable(cue) && At(cue, i, sector)
    ensures Named(cue, raw, i, sector).Some?
  {
    hide Regular, Ideal, Start, Limit, NoPregaps, TrackBytes, Burned, Blocks;
    var ts, t := cue.tracks, cue.tracks[i];
    EndIsLimit(cue, i);
    TrackReach(cue, i);
    OffsetWhereBurned(cue, raw, files, i);
    if LastInFile(ts, i) {
      LastOfFile(cue, i);
      BurnedNext(ts, raw, i);
      NoneAfter(cue, raw, i, |ts|);
      TrackLength(raw[i], t.format);
    } else {
      NextIndex(cue, i);
    }
  }

  // Tracks of the same file start as far apart on the disc as their indices.
  lemma NextIndex(cue: Cue, i: nat)
    requires Regular(cue) && Openable(cue) && i < |cue.tracks| && !LastInFile(cue.tracks, i)
    ensures Limit(cue, i) - Start(cue, i) == cue.tracks[i + 1].index - cue.tracks[i].index
  {
    hide Regular, Base;
  }

  lemma {:induction false} NoneAfter(cue: Cue, raw: seq<seq<RawSector>>, i: nat, n: nat)
    requires Regular(cue) && i < n <= |cue.tracks| == |raw| && LastInFile(cue.tracks, i)
    ensures Burned(cue.tracks, raw, n, cue.tracks[i].file) == Burned(cue.tracks, raw, i + 1, cue.tracks[i].file)
  {
    hide Regular, TrackBytes;
    if i + 1 < n {
      NoneAfter(cue, raw, i, n - 1);
      FilesInOrder(cue, i, i + 1);
      FilesInOrder(cue, i + 1, n - 1);
    }
  }

  // A file of sectors of one format without tracks is read sector by sector from its start.
  lemma RawReadBack(image: Image, rs: seq<RawSector>, f: Format, k: nat, n: nat)
    requires OfFormat(rs, f) && k < |rs| && image.sectorSize == SectorSize(f) && image.dataOffset == DataOffset(f)
    ensures var e, file := RawExtent(image, k, n), TrackBytes(rs);
            && (n == 2048 && f != Audio ==> e.start + e.length <= |file| && Taken([file], e) == rs[k].data)
            && (n >= 2352 ==> e.start + e.length <= |file| && Taken([file], e) == SectorBytes(rs[k]))
  {
    hide SectorBytes, TrackBytes;
    SectorAt(rs, f, k);
    SectorParts(rs[k]);
    var p, size, at := Span(f, k), SectorSize(f), DataOffset(f);
    assert p == k * size;
    if n == 2048 && f != Audio {
      SliceOfSlice(TrackBytes(rs), p, size, at, 2048);
    }
  }

  // Two data sectors in a file are a burned cue.
  lemma TwoSectorsBurned(a: seq<Byte>, b: seq<Byte>)
    requires |a| == |b| == 2048
    ensures var cue := Cue([CueTrack(1, 0, 0, Mode1_2048)], [4096], 2048, 0);
            Regular(cue) && NoPregaps(cue) && IsBurned(cue, [[Cooked(a), Cooked(b)]], [a + b])
  {
    hide Regular, NoPregaps, TrackBytes, Burned;
    var ts, rs := [CueTrack(1, 0, 0, Mode1_2048)], [Cooked(a), Cooked(b)];
    OneTrackRegular();
    TwoSectorBytes(a, b);
    BurnedNext(ts, [rs], 0);
    NothingBurned(ts, [rs], 0, 0);
  }

  lemma TwoSectorBytes(a: seq<Byte>, b: seq<Byte>)
    ensures TrackBytes([Cooked(a), Cooked(b)]) == a + b
  {
    assert [Cooked(a), Cooked(b)][..1] == [Cooked(a)] && [Cooked(a)][..0] == [];
    assert TrackBytes([Cooked(a)]) == a;
  }

  lemma OneTrackRegular()
    ensures var cue := Cue([CueTrack(1, 0, 0, Mode1_2048)], [4096], 2048, 0); Regular(cue) && NoPregaps(cue)
  {
    assert Ideal([CueTrack(1, 0, 0, Mode1_2048)], 0) == 0;
  }
}
