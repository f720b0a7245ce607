/**
 Where the sectors of a cue sheet's tracks lie in its image files. A cue gives
 each track a file and an INDEX 01 position in it; opening it computes byte
 offsets, file lengths in frames and disc addresses, and a sector read looks up
 its track and its bytes from those.
 */
module CueLayout {
  import opened Words

  datatype Format = Mode1_2048 | Mode1_2352 | Mode2_2352 | Audio | Unknown

  datatype CueTrack = CueTrack(num: Byte, file: nat, index: Word, format: Format)

  // sizes are the lengths of the files; sectorSize and dataOffset are those of the sheet's first format,
  // for what no track covers.
  datatype Cue = Cue(tracks: seq<CueTrack>, sizes: seq<nat>, sectorSize: nat, dataOffset: nat)

  function SectorSize(f: Format): (n: nat)
    ensures n == 2048 || n == 2352
  {
    if f.Mode1_2048? then 2048 else 2352
  }

  function DataOffset(f: Format): nat
  {
    match f
    case Mode1_2352 => 16
    case Mode2_2352 => 24
    case _ => 0
  }

  // n sectors of a format, in bytes.
  function Span(f: Format, n: nat): nat { if f.Mode1_2048? then 2048 * n else 2352 * n }

  datatype Track = Track(num: Byte, file: nat, start: nat, frames: nat, fileOffset: nat, format: Format)

  datatype Image = Image(tracks: seq<Track>, blocks: nat, files: nat, sectorSize: nat, dataOffset: nat)

  // ---------- What opening computes ----------

  // The last of the first n tracks that lies in a file.
  function Last(ts: seq<CueTrack>, n: nat, file: nat): (r: Option<nat>)
    requires n <= |ts|
    ensures r.Some? ==> r.value < n && ts[r.value].file == file
    ensures r.Some? ==> forall j :: r.value < j < n ==> ts[j].file != file
    ensures r.None? ==> forall j :: 0 <= j < n ==> ts[j].file != file
  {
    if n == 0 then None else if ts[n - 1].file == file then Some(n - 1) else Last(ts, n - 1, file)
  }

  // The product is taken in 32 bits.
  function Offset(ts: seq<CueTrack>, i: nat): nat
    requires i < |ts|
    decreases i
  {
    match Last(ts, i, ts[i].file)
    case Some(p) =>
      if ts[i].index >= ts[p].index
      then Offset(ts, p) + Span(ts[p].format, ts[i].index - ts[p].index) % WORD_SIZE
      else Span(ts[i].format, ts[i].index) % WORD_SIZE
    case None => Span(ts[i].format, ts[i].index) % WORD_SIZE
  }

  function Frames(cue: Cue, f: nat): nat
    requires f < |cue.sizes|
  {
    match Last(cue.tracks, |cue.tracks|, f)
    case Some(p) =>
      var t, at := cue.tracks[p], Offset(cue.tracks, p);
      if cue.sizes[f] > at then t.index + (cue.sizes[f] - at) / SectorSize(t.format) else 0
    case None => if cue.sectorSize > 0 then cue.sizes[f] / cue.sectorSize else 0
  }

  // The disc address of a file's first frame.
  function Base(cue: Cue, f: nat): nat
    requires f <= |cue.sizes|
  {
    if f == 0 then 0 else Base(cue, f - 1) + Frames(cue, f - 1)
  }

  function Blocks(cue: Cue): nat { Base(cue, |cue.sizes|) }

  predicate Openable(cue: Cue)
  {
    forall i :: 0 <= i < |cue.tracks| ==> cue.tracks[i].file < |cue.sizes| && !cue.tracks[i].format.Unknown?
  }

  function Start(cue: Cue, i: nat): nat
    requires Openable(cue) && i < |cue.tracks|
  {
    Base(cue, cue.tracks[i].file) + cue.tracks[i].index
  }

  function End(cue: Cue, i: nat): nat
    requires Openable(cue) && i < |cue.tracks|
  {
    if i + 1 < |cue.tracks| then Start(cue, i + 1) else Blocks(cue)
  }

  function TrackOf(cue: Cue, i: nat): Track
    requires Openable(cue) && i < |cue.tracks|
  {
    var t := cue.tracks[i];
    Track(t.num, t.file, Start(cue, i), Max(0, End(cue, i) - Start(cue, i)), Offset(cue.tracks, i), t.format)
  }

  predicate IsImageOf(image: Image, cue: Cue)
    requires Openable(cue)
  {
    && |image.tracks| == |cue.tracks| && image.blocks == Blocks(cue)
    && image.files == |cue.sizes| && image.sectorSize == cue.sectorSize && image.dataOffset == cue.dataOffset
    && forall i :: 0 <= i < |cue.tracks| ==> image.tracks[i] == TrackOf(cue, i)
  }

  // ---------- Looking a sector up ----------

  // The first track that starts at or before the sector and is not followed by another that does.
  predicate Holds(ts: seq<Track>, i: nat, sector: nat)
    requires i < |ts|
  {
    ts[i].start <= sector && (i + 1 < |ts| ==> sector < ts[i + 1].start)
  }

  method TrackForSector(image: Image, sector: nat) returns (track: Option<nat>)
    ensures track.Some? ==> track.value < |image.tracks| && Holds(image.tracks, track.value, sector)
    ensures track.Some? ==> forall j :: 0 <= j < track.value ==> !Holds(image.tracks, j, sector)
    ensures track.None? ==> forall j :: 0 <= j < |image.tracks| ==> !Holds(image.tracks, j, sector)
  {
    var i := 0;
    while i < |image.tracks|
      invariant 0 <= i <= |image.tracks|
      invariant forall j :: 0 <= j < i ==> !Holds(image.tracks, j, sector)
    {
      if sector < image.tracks[i].start {
        i := i + 1;
        continue;
      }
      if i + 1 < |image.tracks| && sector >= image.tracks[i + 1].start {
        i := i + 1;
        continue;
      }
      return Some(i);
    }
    return None;
  }

  // The first byte of a sector in the file of the track that holds it.
  function Position(t: Track, sector: nat): nat
    requires t.start <= sector
  {
    t.fileOffset + Span(t.format, sector - t.start)
  }

  // What a read of n bytes of a sector covers: whole sectors from their start, less from the user data on.
  function ReadStart(t: Track, sector: nat, n: nat): nat
    requires t.start <= sector
  {
    Position(t, sector) + if n >= SectorSize(t.format) then 0 else DataOffset(t.format)
  }

  function ReadLength(t: Track, n: nat): nat { Min(n, SectorSize(t.format)) }

  // A read stays inside its sector exactly when it is of the whole sector or ends with it.
  lemma ReadInsideSector(t: Track, sector: nat, n: nat)
    requires t.start <= sector
    ensures n <= 2048 || n >= 2352 ==>
              ReadStart(t, sector, n) + ReadLength(t, n) <= Position(t, sector) + SectorSize(t.format)
    ensures ReadStart(t, sector, n) + ReadLength(t, n) <= Position(t, sector) + SectorSize(t.format)
       <==> n >= SectorSize(t.format) || n + DataOffset(t.format) <= SectorSize(t.format)
  {
  }

  // ---------- Cues with their tracks in order ----------

  // Byte offsets as they are meant, without the 32-bit product.
  function Ideal(ts: seq<CueTrack>, i: nat): nat
    requires i < |ts|
  {
    if i > 0 && ts[i - 1].file == ts[i].file && ts[i - 1].index <= ts[i].index
    then Ideal(ts, i - 1) + Span(ts[i - 1].format, ts[i].index - ts[i - 1].index)
    else Span(ts[i].format, ts[i].index)
  }

  // Every file has tracks, the files follow each other, indices do not decrease within one, and each
  // track's offset lies inside a file of under 4 GiB.
  predicate Regular(cue: Cue)
  {
    var ts := cue.tracks;
    && Openable(cue) && ts != []
    && ts[0].file == 0 && ts[|ts| - 1].file + 1 == |cue.sizes|
    && (forall i :: 0 <= i < |ts| - 1 ==> NextInOrder(ts[i], ts[i + 1]))
    && forall i :: 0 <= i < |ts| ==> Ideal(ts, i) < cue.sizes[ts[i].file] <= WORD_SIZE
  }

  predicate NextInOrder(a: CueTrack, b: CueTrack)
  {
    (a.file == b.file && a.index <= b.index) || a.file + 1 == b.file
  }

  predicate FirstInFile(ts: seq<CueTrack>, i: nat)
    requires i < |ts|
  {
    i == 0 || ts[i - 1].file != ts[i].file
  }

  // Every file after the first starts with a track at its own start.
  predicate NoPregaps(cue: Cue)
  {
    forall i :: 0 < i < |cue.tracks| && FirstInFile(cue.tracks, i) ==> cue.tracks[i].index == 0
  }

  lemma {:induction false} FilesInOrder(cue: Cue, i: nat, j: nat)
    requires Regular(cue) && i <= j < |cue.tracks|
    ensures cue.tracks[i].file <= cue.tracks[j].file
    ensures cue.tracks[i].file == cue.tracks[j].file ==> cue.tracks[i].index <= cue.tracks[j].index
    decreases j - i
  {
    hide Ideal, Openable;
    if i < j {
      assert NextInOrder(cue.tracks[j - 1], cue.tracks[j]);
      FilesInOrder(cue, i, j - 1);
    }
  }

  lemma LastBefore(cue: Cue, i: nat)
    requires Regular(cue) && i < |cue.tracks|
    ensures Last(cue.tracks, i, cue.tracks[i].file)
         == if FirstInFile(cue.tracks, i) then None else Some(i - 1)
  {
    hide Ideal, Openable;
    if FirstInFile(cue.tracks, i) && i > 0 {
      forall j | 0 <= j < i
        ensures cue.tracks[j].file != cue.tracks[i].file
      {
        FilesInOrder(cue, j, i - 1);
        FilesInOrder(cue, i - 1, i);
      }
    }
  }

  lemma InsideFile(cue: Cue, i: nat)
    requires Regular(cue) && i < |cue.tracks|
    ensures cue.tracks[i].file < |cue.sizes| && Ideal(cue.tracks, i) < cue.sizes[cue.tracks[i].file] <= WORD_SIZE
  {
    hide Ideal;
  }

  lemma IdealStep(ts: seq<CueTrack>, i: nat)
    requires 0 < i < |ts| && ts[i - 1].file == ts[i].file && ts[i - 1].index <= ts[i].index
    ensures Ideal(ts, i) == Ideal(ts, i - 1) + Span(ts[i - 1].format, ts[i].index - ts[i - 1].index)
  {
  }

  // No product overflows, so the offsets are the intended ones.
  lemma {:induction false} OffsetIsIdeal(cue: Cue, i: nat)
    requires Regular(cue) && i < |cue.tracks|
    ensures Offset(cue.tracks, i) == Ideal(cue.tracks, i)
  {
    hide Regular, Last, Span;
    var ts := cue.tracks;
    LastBefore(cue, i);
    InsideFile(cue, i);
    if !FirstInFile(ts, i) {
      hide Ideal;
      OffsetIsIdeal(cue, i - 1);
      FilesInOrder(cue, i - 1, i);
      IdealStep(ts, i);
    }
  }

  // ---------- How far each track reaches ----------

  predicate LastInFile(ts: seq<CueTrack>, i: nat)
    requires i < |ts|
  {
    i + 1 == |ts| || ts[i].file != ts[i + 1].file
  }

  lemma LastOfFile(cue: Cue, i: nat)
    requires Regular(cue) && i < |cue.tracks| && LastInFile(cue.tracks, i)
    ensures Last(cue.tracks, |cue.tracks|, cue.tracks[i].file) == Some(i)
  {
    hide Ideal, Openable;
    forall j | i < j < |cue.tracks|
      ensures cue.tracks[j].file != cue.tracks[i].file
    {
      FilesInOrder(cue, i, i + 1);
      FilesInOrder(cue, i + 1, j);
    }
  }

  // Where a track ends in its own file: the next track of the file, or the file's last whole frame.
  function Limit(cue: Cue, i: nat): nat
    requires Openable(cue) && i < |cue.tracks|
  {
    if LastInFile(cue.tracks, i) then Base(cue, cue.tracks[i].file + 1) else Start(cue, i + 1)
  }

  lemma WholeSectors(f: Format, bytes: nat)
    ensures Span(f, bytes / SectorSize(f)) <= bytes < Span(f, bytes / SectorSize(f)) + SectorSize(f)
  {
  }

  // A track's sectors fill its bytes up to the next track, or to less than a sector before the end of the file.
  lemma TrackReach(cue: Cue, i: nat)
    requires Regular(cue) && i < |cue.tracks|
    ensures Start(cue, i) <= Limit(cue, i)
    ensures var t := cue.tracks[i];
            var reach := Ideal(cue.tracks, i) + Span(t.format, Limit(cue, i) - Start(cue, i));
            if LastInFile(cue.tracks, i) then reach <= cue.sizes[t.file] < reach + SectorSize(t.format)
            else reach == Ideal(cue.tracks, i + 1)
  {
    hide Regular, Ideal, Span;
    RegularIsOpenable(cue);
    var t := cue.tracks[i];
    if LastInFile(cue.tracks, i) {
      LastOfFile(cue, i);
      OffsetIsIdeal(cue, i);
      InsideFile(cue, i);
      WholeSectors(t.format, cue.sizes[t.file] - Ideal(cue.tracks, i));
    } else {
      FilesInOrder(cue, i, i + 1);
      IdealStep(cue.tracks, i + 1);
    }
  }

  lemma RegularIsOpenable(cue: Cue)
    requires Regular(cue)
    ensures Openable(cue) && cue.tracks != [] && cue.tracks[|cue.tracks| - 1].file + 1 == |cue.sizes|
  {
    hide Ideal;
  }

  // On the disc a track reaches further than in its file by the pregap of the next file's first track.
  lemma EndAfterLimit(cue: Cue, i: nat)
    requires Regular(cue) && i < |cue.tracks|
    ensures Openable(cue)
    ensures End(cue, i) - Limit(cue, i)
         == if i + 1 < |cue.tracks| && LastInFile(cue.tracks, i) then cue.tracks[i + 1].index else 0
  {
    hide Regular, Base;
    RegularIsOpenable(cue);
    if i + 1 < |cue.tracks| {
      NextFile(cue, i);
    }
  }

  lemma NextFile(cue: Cue, i: nat)
    requires Regular(cue) && i + 1 < |cue.tracks|
    ensures NextInOrder(cue.tracks[i], cue.tracks[i + 1])
  {
    hide Ideal, Openable;
  }

  lemma {:induction false} StartsInOrder(cue: Cue, i: nat, j: nat)
    requires Regular(cue) && i <= j < |cue.tracks|
    ensures Openable(cue) && Start(cue, i) <= Start(cue, j)
    decreases j - i
  {
    hide Regular, Ideal, Start, Limit;
    RegularIsOpenable(cue);
    if i < j {
      StartsInOrder(cue, i, j - 1);
      TrackReach(cue, j - 1);
      EndAfterLimit(cue, j - 1);
    }
  }

  // The byte ranges of the tracks of one file follow each other.
  lemma {:induction false} TracksInOrder(cue: Cue, i: nat, j: nat)
    requires Regular(cue) && i < j < |cue.tracks| && cue.tracks[i].file == cue.tracks[j].file
    ensures Openable(cue) && Start(cue, i) <= Limit(cue, i) && !LastInFile(cue.tracks, i)
    ensures Ideal(cue.tracks, i) + Span(cue.tracks[i].format, Limit(cue, i) - Start(cue, i)) <= Ideal(cue.tracks, j)
    ensures Limit(cue, i) == Start(cue, j) ==>
              Ideal(cue.tracks, i) + Span(cue.tracks[i].format, Limit(cue, i) - Start(cue, i)) == Ideal(cue.tracks, j)
    decreases j - i
  {
    hide Regular, Ideal, Base;
    RegularIsOpenable(cue);
    FilesInOrder(cue, i, i + 1);
    FilesInOrder(cue, i + 1, j);
    TrackReach(cue, i);
    if i + 1 < j {
      StartsInOrder(cue, i + 1, i + 2);
      FilesInOrder(cue, i + 1, i + 2);
      FilesInOrder(cue, i + 2, j);
      StartsInOrder(cue, i + 2, j);
      TracksInOrder(cue, i + 1, j);
    }
  }

  // ---------- Sectors on the disc and bytes in the files ----------

  // Track i holds the sector.
  predicate At(cue: Cue, i: nat, sector: nat)
    requires Openable(cue)
  {
    i < |cue.tracks| && Start(cue, i) <= sector < End(cue, i)
  }

  function PositionIn(cue: Cue, i: nat, sector: nat): nat
    requires Openable(cue) && At(cue, i, sector)
  {
    Ideal(cue.tracks, i) + Span(cue.tracks[i].format, sector - Start(cue, i))
  }

  lemma {:induction false} SomeTrackHolds(cue: Cue, sector: nat, n: nat) returns (i: nat)
    requires Regular(cue) && n < |cue.tracks|
    requires Openable(cue) && Start(cue, 0) <= sector < End(cue, n)
    ensures i <= n && At(cue, i, sector)
  {
    hide Regular, Start, Blocks;
    if Start(cue, n) <= sector {
      i := n;
    } else {
      i := SomeTrackHolds(cue, sector, n - 1);
    }
  }

  lemma OneTrackHolds(cue: Cue, i: nat, j: nat, sector: nat)
    requires Regular(cue) && Openable(cue) && At(cue, i, sector) && At(cue, j, sector)
    ensures i == j
  {
    hide Regular, Start, Blocks;
    if i < j {
      StartsInOrder(cue, i + 1, j);
    } else if j < i {
      StartsInOrder(cue, j + 1, i);
    }
  }

  lemma EndIsLimit(cue: Cue, i: nat)
    requires Regular(cue) && NoPregaps(cue) && i < |cue.tracks|
    ensures Openable(cue) && End(cue, i) == Limit(cue, i)
  {
    hide Regular, Base;
    EndAfterLimit(cue, i);
    if i + 1 < |cue.tracks| && LastInFile(cue.tracks, i) {
      assert FirstInFile(cue.tracks, i + 1);
    }
  }

  // Every sector's bytes lie in its file.
  lemma SectorInFile(cue: Cue, i: nat, sector: nat)
    requires Regular(cue) && NoPregaps(cue) && Openable(cue) && At(cue, i, sector)
    ensures PositionIn(cue, i, sector) + SectorSize(cue.tracks[i].format) <= cue.sizes[cue.tracks[i].file]
  {
    hide Regular, Ideal, Start, Limit, NoPregaps, Blocks;
    EndIsLimit(cue, i);
    TrackReach(cue, i);
    if !LastInFile(cue.tracks, i) {
      InsideFile(cue, i + 1);
    }
  }

  // Sectors of one file do not overlap.
  lemma SectorsDisjoint(cue: Cue, i: nat, s: nat, j: nat, t: nat)
    requires Regular(cue) && Openable(cue) && At(cue, i, s) && At(cue, j, t) && s < t
    requires cue.tracks[i].file == cue.tracks[j].file
    ensures PositionIn(cue, i, s) + SectorSize(cue.tracks[i].format) <= PositionIn(cue, j, t)
  {
    hide Regular, Ideal, Start, Limit, Blocks;
    if j < i {
      StartsInOrder(cue, j + 1, i);
    }
    if i < j {
      TracksInOrder(cue, i, j);
      EndAfterLimit(cue, i);
    }
  }

  // The sector after one follows it in the file, or starts the next file that holds any.
  lemma SectorsAdjacent(cue: Cue, i: nat, j: nat, s: nat)
    requires Regular(cue) && NoPregaps(cue) && Openable(cue) && At(cue, i, s) && At(cue, j, s + 1)
    ensures cue.tracks[i].file == cue.tracks[j].file ==>
              PositionIn(cue, j, s + 1) == PositionIn(cue, i, s) + SectorSize(cue.tracks[i].format)
    ensures cue.tracks[i].file != cue.tracks[j].file ==>
              PositionIn(cue, j, s + 1) == 0 && cue.tracks[i].file < cue.tracks[j].file
  {
    hide Regular, Ideal, Start, Limit, Blocks, NoPregaps;
    if j < i {
      StartsInOrder(cue, j + 1, i);
    }
    if i < j {
      StartsInOrder(cue, i + 1, j);
      EndIsLimit(cue, i);
      if cue.tracks[i].file == cue.tracks[j].file {
        TracksInOrder(cue, i, j);
      } else {
        FilesInOrder(cue, i, j);
        NewFileStartsAtZero(cue, i, j, s);
      }
    }
  }

  lemma NewFileStartsAtZero(cue: Cue, i: nat, j: nat, s: nat)
    requires Regular(cue) && NoPregaps(cue) && Openable(cue) && i < j
    requires At(cue, i, s) && At(cue, j, s + 1) && cue.tracks[i].file != cue.tracks[j].file
    ensures Start(cue, j) == s + 1 && Ideal(cue.tracks, j) == 0
  {
    hide Regular, Ideal, Blocks, Base;
    var k := FirstOfFile(cue, i, j);
    StartsInOrder(cue, i + 1, k);
    StartsInOrder(cue, k, j);
    assert cue.tracks[j].index == 0;
    IdealAtZero(cue, j);
  }

  lemma {:induction false} FirstOfFile(cue: Cue, i: nat, j: nat) returns (k: nat)
    requires Regular(cue) && i < j < |cue.tracks| && cue.tracks[i].file != cue.tracks[j].file
    ensures i < k <= j && FirstInFile(cue.tracks, k) && cue.tracks[k].file == cue.tracks[j].file
    decreases j
  {
    hide Regular;
    if FirstInFile(cue.tracks, j) {
      k := j;
    } else {
      k := FirstOfFile(cue, i, j - 1);
    }
  }

  lemma {:induction false} IdealAtZero(cue: Cue, j: nat)
    requires Regular(cue) && j < |cue.tracks| && cue.tracks[j].index == 0
    ensures Ideal(cue.tracks, j) == 0
  {
    hide Regular;
    if j > 0 && cue.tracks[j - 1].file == cue.tracks[j].file {
      FilesInOrder(cue, j - 1, j);
      IdealAtZero(cue, j - 1);
    }
  }

  // A later file whose first track does not start the file sends some sector past the end of the file before it.
  lemma PregapLeavesFile(cue: Cue, k: nat)
    requires Regular(cue) && 0 < k < |cue.tracks| && FirstInFile(cue.tracks, k) && cue.tracks[k].index > 0
    ensures Openable(cue) && At(cue, k - 1, Start(cue, k) - 1)
    ensures PositionIn(cue, k - 1, Start(cue, k) - 1) + SectorSize(cue.tracks[k - 1].format)
          > cue.sizes[cue.tracks[k - 1].file]
  {
    hide Regular, Ideal, Base;
    EndAfterLimit(cue, k - 1);
    TrackReach(cue, k - 1);
  }

  // Main result: all sectors lie inside their files exactly when no later file starts with a pregap.
  lemma LayoutIsExact(cue: Cue)
    requires Regular(cue)
    ensures Openable(cue)
    ensures NoPregaps(cue) <==>
            forall i: nat, s: nat :: At(cue, i, s) ==>
              PositionIn(cue, i, s) + SectorSize(cue.tracks[i].format) <= cue.sizes[cue.tracks[i].file]
  {
    hide Regular, PositionIn, Start, End;
    RegularIsOpenable(cue);
    if NoPregaps(cue) {
      forall i: nat, s: nat | At(cue, i, s)
        ensures PositionIn(cue, i, s) + SectorSize(cue.tracks[i].format) <= cue.sizes[cue.tracks[i].file]
      {
        SectorInFile(cue, i, s);
      }
    } else {
      var k: nat :| 0 < k < |cue.tracks| && FirstInFile(cue.tracks, k) && cue.tracks[k].index != 0;
      PregapLeavesFile(cue, k);
    }
  }

  // ---------- Opening ----------

  // The byte offset of every track, remembering the last track seen in each file.
  method Offsets(cue: Cue) returns (ok: bool, offsets: seq<nat>, last: seq<Option<nat>>)
    ensures ok == Openable(cue)
    ensures ok ==> |offsets| == |cue.tracks| && forall i :: 0 <= i < |offsets| ==> offsets[i] == Offset(cue.tracks, i)
    ensures ok ==> |last| == |cue.sizes| && forall f :: 0 <= f < |last| ==> last[f] == Last(cue.tracks, |cue.tracks|, f)
  {
    hide Last, Offset, Span;
    var ts := cue.tracks;
    NoneSeen(ts);
    offsets, last := [], seq(|cue.sizes|, _ => None);
    var i := 0;
    while i < |ts|
      invariant 0 <= i <= |ts| && |offsets| == i && |last| == |cue.sizes|
      invariant forall j :: 0 <= j < i ==> ts[j].file < |cue.sizes| && !ts[j].format.Unknown?
      invariant forall j :: 0 <= j < i ==> offsets[j] == Offset(ts, j)
      invariant forall f :: 0 <= f < |last| ==> last[f] == Last(ts, i, f)
    {
      var t := ts[i];
      if t.file >= |cue.sizes| || t.format.Unknown? {
        return false, [], [];
      }
      var p, at := last[t.file], 0;
      forall f | 0 <= f < |last|
        ensures Last(ts, i + 1, f) == if f == t.file then Some(i) else last[f]
      {
        LastSeen(ts, i, f);
      }
      OffsetFrom(ts, i);
      if p.Some? && t.index >= ts[p.value].index {
        at := offsets[p.value] + Span(ts[p.value].format, t.index - ts[p.value].index) % WORD_SIZE;
      } else {
        at := Span(t.format, t.index) % WORD_SIZE;
      }
      offsets, last := offsets + [at], last[t.file := Some(i)];
      i := i + 1;
    }
    ok := true;
  }

  lemma NoneSeen(ts: seq<CueTrack>)
    ensures forall f: nat :: Last(ts, 0, f) == None
  {
  }

  lemma LastSeen(ts: seq<CueTrack>, i: nat, f: nat)
    requires i < |ts|
    ensures Last(ts, i + 1, f) == if f == ts[i].file then Some(i) else Last(ts, i, f)
  {
  }

  lemma OffsetFrom(ts: seq<CueTrack>, i: nat)
    requires i < |ts|
    ensures var t, p := ts[i], Last(ts, i, ts[i].file);
            Offset(ts, i) == if p.Some? && t.index >= ts[p.value].index
                             then Offset(ts, p.value) + Span(ts[p.value].format, t.index - ts[p.value].index) % WORD_SIZE
                             else Span(t.format, t.index) % WORD_SIZE
  {
    hide Last, Span;
  }

  method FileFrames(cue: Cue, f: nat, offsets: seq<nat>, last: Option<nat>) returns (frames: nat)
    requires |offsets| == |cue.tracks| && forall i :: 0 <= i < |offsets| ==> offsets[i] == Offset(cue.tracks, i)
    requires f < |cue.sizes| && last == Last(cue.tracks, |cue.tracks|, f)
    ensures frames == Frames(cue, f)
  {
    hide Last, Offset, SectorSize;
    frames := 0;
    if last.Some? {
      var p := last.value;
      if cue.sizes[f] > offsets[p] {
        frames := cue.tracks[p].index + (cue.sizes[f] - offsets[p]) / SectorSize(cue.tracks[p].format);
      }
    } else if cue.sectorSize > 0 {
      frames := cue.sizes[f] / cue.sectorSize;
    }
  }

  // The disc address of every file, and of the end.
  method Bases(cue: Cue, offsets: seq<nat>, last: seq<Option<nat>>) returns (bases: seq<nat>)
    requires |offsets| == |cue.tracks| && forall i :: 0 <= i < |offsets| ==> offsets[i] == Offset(cue.tracks, i)
    requires |last| == |cue.sizes| && forall f :: 0 <= f < |last| ==> last[f] == Last(cue.tracks, |cue.tracks|, f)
    ensures |bases| == |cue.sizes| + 1 && forall f :: 0 <= f < |bases| ==> bases[f] == Base(cue, f)
  {
    hide Last, Offset, Frames;
    bases := [0];
    var f := 0;
    while f < |cue.sizes|
      invariant 0 <= f <= |cue.sizes| && |bases| == f + 1
      invariant forall g :: 0 <= g <= f ==> bases[g] == Base(cue, g)
    {
      var frames := FileFrames(cue, f, offsets, last[f]);
      bases := bases + [bases[f] + frames];
      f := f + 1;
    }
  }

  method OpenCue(cue: Cue) returns (image: Option<Image>)
    ensures image.Some? <==> Openable(cue)
    ensures image.Some? ==> IsImageOf(image.value, cue)
  {
    hide Offset, Last, Base;
    var ok, offsets, last := Offsets(cue);
    if !ok {
      return None;
    }
    var bases := Bases(cue, offsets, last);
    var ts, blocks := cue.tracks, bases[|cue.sizes|];
    var tracks: seq<Track> := [];
    var i := 0;
    while i < |ts|
      invariant 0 <= i <= |ts| && |tracks| == i
      invariant forall j :: 0 <= j < i ==> tracks[j] == TrackOf(cue, j).(frames := 0)
    {
      tracks := tracks + [Track(ts[i].num, ts[i].file, bases[ts[i].file] + ts[i].index, 0, offsets[i], ts[i].format)];
      i := i + 1;
    }
    i := 0;
    while i < |ts|
      invariant 0 <= i <= |ts| && |tracks| == |ts|
      invariant forall j :: 0 <= j < i ==> tracks[j] == TrackOf(cue, j)
      invariant forall j :: i <= j < |ts| ==> tracks[j] == TrackOf(cue, j).(frames := 0)
    {
      var next := if i + 1 < |ts| then tracks[i + 1].start else blocks;
      if next > tracks[i].start {
        tracks := tracks[i := tracks[i].(frames := next - tracks[i].start)];
      }
      i := i + 1;
    }
    return Some(Image(tracks, blocks, |cue.sizes|, cue.sectorSize, cue.dataOffset));
  }

  // ---------- The image's lookup is the layout's ----------

  lemma HoldsIsAt(cue: Cue, image: Image, i: nat, sector: nat)
    requires Regular(cue) && Openable(cue) && IsImageOf(image, cue) && i < |image.tracks| && sector < image.blocks
    ensures Holds(image.tracks, i, sector) <==> At(cue, i, sector)
    ensures At(cue, i, sector) ==> Position(image.tracks[i], sector) == PositionIn(cue, i, sector)
  {
    hide Regular, Ideal, Offset, Start, Blocks;
    OffsetIsIdeal(cue, i);
    assert image.tracks[i] == TrackOf(cue, i);
    if i + 1 < |cue.tracks| {
      assert image.tracks[i + 1] == TrackOf(cue, i + 1);
    }
  }

  // The bytes a sector read asks a file for.
  datatype Extent = Extent(file: nat, start: nat, length: nat)

  function ExtentOf(t: Track, sector: nat, n: nat): Extent
    requires t.start <= sector
  {
    Extent(t.file, ReadStart(t, sector, n), ReadLength(t, n))
  }

  // retro_cdimage_read: a sector of the first file as if it had no tracks.
  function RawExtent(image: Image, sector: nat, n: nat): Extent
  {
    var offset := if n >= image.sectorSize then 0 else image.dataOffset;
    Extent(0, sector * image.sectorSize + offset, Min(n, image.sectorSize))
  }

  // A sector is read from the first track that holds it; outside all tracks it is read raw from a single file
  // and not at all from several.
  method ReadSector(image: Image, sector: nat, n: nat) returns (r: Option<Extent>)
    ensures (forall i :: 0 <= i < |image.tracks| ==> !Holds(image.tracks, i, sector)) ==>
              r == if image.files > 1 then None else Some(RawExtent(image, sector, n))
    ensures forall i :: 0 <= i < |image.tracks| && Holds(image.tracks, i, sector)
                        && (forall j :: 0 <= j < i ==> !Holds(image.tracks, j, sector))
                        ==> r == Some(ExtentOf(image.tracks[i], sector, n))
  {
    var track := TrackForSector(image, sector);
    if track.None? {
      return if image.files > 1 then None else Some(RawExtent(image, sector, n));
    }
    var t := image.tracks[track.value];
    var offset := if n >= SectorSize(t.format) then 0 else DataOffset(t.format);
    var start := t.fileOffset + Span(t.format, sector - t.start) + offset;
    r := Some(Extent(t.file, start, Min(n, SectorSize(t.format))));
  }

  // Main result: of a regular cue without pregaps, every sector from the first track on is found, and a read
  // of it, whole or of its user data, takes bytes of its own range inside its file.
  lemma ReadStaysInside(cue: Cue, image: Image, sector: nat, n: nat) returns (i: nat)
    requires Regular(cue) && NoPregaps(cue) && Openable(cue) && IsImageOf(image, cue)
    requires image.tracks[0].start <= sector < image.blocks
    ensures At(cue, i, sector) && i < |image.tracks| && Holds(image.tracks, i, sector)
    ensures forall j :: 0 <= j < |image.tracks| && Holds(image.tracks, j, sector) ==> j == i
    ensures n <= 2048 || n >= 2352 ==>
              var e := ExtentOf(image.tracks[i], sector, n);
              && e.file == cue.tracks[i].file < |cue.sizes|
              && PositionIn(cue, i, sector) <= e.start
              && e.start + e.length <= PositionIn(cue, i, sector) + SectorSize(cue.tracks[i].format)
              && PositionIn(cue, i, sector) + SectorSize(cue.tracks[i].format) <= cue.sizes[e.file]
  {
    hide Regular, NoPregaps, Ideal, Offset, Start, Blocks;
    RegularIsOpenable(cue);
    assert image.tracks[0] == TrackOf(cue, 0);
    i := SomeTrackHolds(cue, sector, |cue.tracks| - 1);
    HoldsIsAt(cue, image, i, sector);
    forall j | 0 <= j < |image.tracks| && Holds(image.tracks, j, sector)
      ensures j == i
    {
      HoldsIsAt(cue, image, j, sector);
      OneTrackHolds(cue, i, j, sector);
    }
    assert image.tracks[i] == TrackOf(cue, i);
    SectorInFile(cue, i, sector);
    ReadInsideSector(image.tracks[i], sector, n);
  }

  // A data track and an audio track in one file and an audio track in another are such a cue.
  lemma MixedCueIsRegular()
    ensures var cue := Cue([CueTrack(1, 0, 0, Mode1_2352), CueTrack(2, 0, 100, Audio), CueTrack(3, 1, 0, Audio)],
                           [2352 * 200, 2352 * 50], 2352, 16);
            Regular(cue) && NoPregaps(cue)
  {
    var ts := [CueTrack(1, 0, 0, Mode1_2352), CueTrack(2, 0, 100, Audio), CueTrack(3, 1, 0, Audio)];
    assert Ideal(ts, 0) == 0 && Ideal(ts, 1) == 235200 && Ideal(ts, 2) == 0;
  }

  // An audio track in each of two files, the second with the usual two seconds before it, is regular and has a pregap.
  lemma PregapCueIsRegular()
    ensures var cue := Cue([CueTrack(1, 0, 0, Audio), CueTrack(2, 1, 150, Audio)], [2352 * 200, 2352 * 300], 2352, 0);
            Regular(cue) && !NoPregaps(cue)
  {
    var ts := [CueTrack(1, 0, 0, Audio), CueTrack(2, 1, 150, Audio)];
    assert Ideal(ts, 0) == 0 && Ideal(ts, 1) == 2352 * 150;
    assert FirstInFile(ts, 1) && ts[1].index != 0;
  }
}
