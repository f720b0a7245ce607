/**
 The table of contents the drive gets from the image: every track's start goes
 through minutes, seconds and frames, and the drive finds tracks from those. It
 finds the one the image's own lookup finds.
 */
module CueToc {
  import opened Words
  import opened DiscTime
  import opened CueLayout

  const CAPACITY: nat := 100

  // ---------- The table of contents ----------

  datatype Entry = Entry(control: nat, number: nat, msf: Msf)

  const EMPTY: Entry := Entry(0, 0, Msf(0, 0, 0))

  datatype DiscId = DaOrCdrom | CdromXa

  datatype Toc = Toc(entries: seq<Entry>, first: nat, last: nat, disc: DiscId)

  // Minutes are stored in a byte.
  function EntryFor(t: Track): Entry
  {
    var msf := ToMsf(t.start);
    Entry(if t.format.Audio? then 1 else 5, t.num, msf.(minutes := msf.minutes % 256))
  }

  predicate Listed(t: Track) { 0 < t.num < CAPACITY }

  function Cleared(): (e: seq<Entry>)
    ensures |e| == CAPACITY && forall n :: 0 <= n < CAPACITY ==> e[n] == EMPTY
  {
    seq(CAPACITY, _ => EMPTY)
  }

  // The table after the first n tracks; numbers out of range are left out, and zero means no track yet.
  function Filled(ts: seq<Track>, n: nat): (toc: Toc)
    requires n <= |ts|
    ensures |toc.entries| == CAPACITY
  {
    if n == 0 then Toc(Cleared(), 0, 0, DaOrCdrom)
    else
      var toc, t := Filled(ts, n - 1), ts[n - 1];
      if !Listed(t) then toc
      else
        Toc(toc.entries[t.num := EntryFor(t)],
            if toc.first == 0 || t.num < toc.first then t.num else toc.first,
            Max(toc.last, t.num),
            if t.format.Mode2_2352? then CdromXa else toc.disc)
  }

  method GetToc(image: Image) returns (toc: Toc)
    ensures var filled := Filled(image.tracks, |image.tracks|);
            toc == if filled.first != 0 then filled else filled.(first := 1, last := 1)
  {
    hide EntryFor, Cleared;
    var ts := image.tracks;
    var entries := Cleared();
    var first, last, disc := 0, 0, DaOrCdrom;
    var i := 0;
    while i < |ts|
      invariant 0 <= i <= |ts|
      invariant Toc(entries, first, last, disc) == Filled(ts, i)
    {
      var t := ts[i];
      if t.num == 0 || t.num >= CAPACITY {
        i := i + 1;
        continue;
      }
      if first == 0 || t.num < first {
        first := t.num;
      }
      if t.num > last {
        last := t.num;
      }
      if t.format.Mode2_2352? {
        disc := CdromXa;
      }
      entries := entries[t.num := EntryFor(t)];
      i := i + 1;
    }
    return if first != 0 then Toc(entries, first, last, disc) else Toc(entries, 1, 1, disc);
  }

  // The disc is an XA disc exactly when a listed track is in mode 2.
  lemma {:induction false} DiscIsXa(ts: seq<Track>, n: nat)
    requires n <= |ts|
    ensures Filled(ts, n).disc == CdromXa <==> exists k :: 0 <= k < n && Listed(ts[k]) && ts[k].format == Mode2_2352
  {
    hide EntryFor, Cleared;
    if n > 0 {
      DiscIsXa(ts, n - 1);
    }
  }

  // ---------- Finding a track from it ----------

  predicate InRange(n: nat) { 0 < n < CAPACITY }

  predicate EntryValid(e: Entry)
  {
    && (e.number != 0 || e.control != 0 || e.msf != Msf(0, 0, 0))
    && Proper(e.msf)
  }

  // The scan of cdrom_track_for_lba from entry n on; best is the track chosen so far, if any.
  function Scan(toc: Toc, n: nat, lba: nat, best: Option<nat>): Option<nat>
    requires |toc.entries| == CAPACITY && toc.last < CAPACITY
    decreases CAPACITY - n
  {
    if n > toc.last then best
    else
      var e := toc.entries[n];
      if !EntryValid(e) then Scan(toc, n + 1, lba, best)
      else if FromMsf(e.msf) > lba then if best.None? then Some(n) else best
      else Scan(toc, n + 1, lba, Some(n))
  }

  // The track and the address it starts at, zero when there is none.
  method TrackForLba(toc: Toc, lba: nat) returns (track: Option<nat>, start: nat)
    requires |toc.entries| == CAPACITY
    ensures track == if InRange(toc.first) && InRange(toc.last) && toc.first <= toc.last
                     then Scan(toc, toc.first, lba, None) else None
    ensures track.Some? ==> track.value < CAPACITY && start == FromMsf(toc.entries[track.value].msf)
    ensures track.None? ==> start == 0
  {
    hide EntryValid, FromMsf;
    track, start := None, 0;
    if !InRange(toc.first) || !InRange(toc.last) || toc.last < toc.first {
      return;
    }
    var n := toc.first;
    while n <= toc.last
      invariant toc.first <= n <= toc.last + 1
      invariant track.Some? ==> track.value < CAPACITY && start == FromMsf(toc.entries[track.value].msf)
      invariant track.None? ==> start == 0
      invariant Scan(toc, n, lba, track) == Scan(toc, toc.first, lba, None)
    {
      var e := toc.entries[n];
      if !EntryValid(e) {
        n := n + 1;
        continue;
      }
      var at := FromMsf(e.msf);
      if track.None? {
        track, start := Some(n), at;
      }
      if at > lba {
        break;
      }
      track, start := Some(n), at;
      n := n + 1;
    }
  }

  // ---------- Both lookups agree ----------

  // Track numbers increase within 1..99, starts do not decrease, and minutes fit a byte.
  predicate Numbered(ts: seq<Track>)
  {
    && ts != []
    && (forall k :: 0 <= k < |ts| ==> Listed(ts[k]) && ts[k].start + BIAS < 256 * FRAMES_PER_MINUTE)
    && forall j, k :: 0 <= j < k < |ts| ==> ts[j].num < ts[k].num && ts[j].start <= ts[k].start
  }

  // The table holds exactly the image's tracks.
  predicate Lists(toc: Toc, ts: seq<Track>)
    requires Numbered(ts)
  {
    && |toc.entries| == CAPACITY && toc.first == ts[0].num && toc.last == ts[|ts| - 1].num
    && (forall k :: 0 <= k < |ts| ==>
                      EntryValid(toc.entries[ts[k].num]) && FromMsf(toc.entries[ts[k].num].msf) == ts[k].start)
    && forall n :: 0 <= n < CAPACITY && EntryValid(toc.entries[n]) ==> exists k :: 0 <= k < |ts| && ts[k].num == n
  }

  lemma EntryIsRight(t: Track)
    requires Listed(t) && t.start + BIAS < 256 * FRAMES_PER_MINUTE
    ensures EntryValid(EntryFor(t)) && FromMsf(EntryFor(t).msf) == t.start
    ensures EntryFor(t).number == t.num && EntryFor(t).control == if t.format == Audio then 1 else 5
  {
    MsfRoundTrip(t.start);
  }

  lemma {:induction false} FilledHolds(ts: seq<Track>, n: nat)
    requires Numbered(ts) && n <= |ts|
    ensures var toc := Filled(ts, n);
            && toc.first == (if n == 0 then 0 else ts[0].num) && toc.last == (if n == 0 then 0 else ts[n - 1].num)
            && (forall k :: 0 <= k < n ==> toc.entries[ts[k].num] == EntryFor(ts[k]))
            && forall e :: 0 <= e < CAPACITY && toc.entries[e] != EMPTY ==> exists k :: 0 <= k < n && ts[k].num == e
  {
    hide EntryFor, Cleared;
    if n > 0 {
      FilledHolds(ts, n - 1);
      var before, toc := Filled(ts, n - 1), Filled(ts, n);
      forall e | 0 <= e < CAPACITY && toc.entries[e] != EMPTY
        ensures exists k :: 0 <= k < n && ts[k].num == e
      {
        if e == ts[n - 1].num {
        } else {
          assert before.entries[e] != EMPTY;
          var k :| 0 <= k < n - 1 && ts[k].num == e;
        }
      }
    }
  }

  // The table of a numbered image lists its tracks, each under its own number at its own start, and tells data
  // tracks, control 5, from audio ones, control 1.
  lemma {:induction false} FilledLists(ts: seq<Track>)
    requires Numbered(ts)
    ensures Filled(ts, |ts|).first != 0 && Lists(Filled(ts, |ts|), ts)
    ensures forall k :: 0 <= k < |ts| ==>
              var e := Filled(ts, |ts|).entries[ts[k].num];
              e.number == ts[k].num && e.control == if ts[k].format == Audio then 1 else 5
  {
    hide EntryFor, EntryValid, FromMsf, Filled;
    FilledHolds(ts, |ts|);
    EmptyIsInvalid();
    forall k | 0 <= k < |ts|
      ensures EntryValid(EntryFor(ts[k])) && FromMsf(EntryFor(ts[k]).msf) == ts[k].start
      ensures EntryFor(ts[k]).number == ts[k].num
      ensures EntryFor(ts[k]).control == if ts[k].format == Audio then 1 else 5
    {
      EntryIsRight(ts[k]);
    }
  }

  lemma EmptyIsInvalid()
    ensures !EntryValid(EMPTY)
  {
  }

  lemma {:induction false} ScanFinds(toc: Toc, ts: seq<Track>, n: nat, k: nat, lba: nat, i: nat)
    requires Numbered(ts) && Lists(toc, ts) && k <= |ts| && toc.first <= n
    requires forall j :: 0 <= j < k ==> ts[j].num < n && ts[j].start <= lba
    requires forall j :: k <= j < |ts| ==> n <= ts[j].num
    requires i < |ts| && Holds(ts, i, lba)
    ensures Scan(toc, n, lba, if k == 0 then None else Some(ts[k - 1].num)) == Some(ts[i].num)
    decreases CAPACITY - n
  {
    hide EntryValid, FromMsf;
    if n > toc.last {
      assert k == |ts|;
      assert i == |ts| - 1;
    } else if !EntryValid(toc.entries[n]) {
      ScanFinds(toc, ts, n + 1, k, lba, i);
    } else {
      var m :| 0 <= m < |ts| && ts[m].num == n;
      NumberedHere(ts, n, k, m);
      if ts[k].start > lba {
        LastStarted(ts, k, lba, i);
      } else {
        ScanFinds(toc, ts, n + 1, k + 1, lba, i);
      }
    }
  }

  lemma {:induction false} NumberedHere(ts: seq<Track>, n: nat, k: nat, m: nat)
    requires Numbered(ts) && k <= |ts| && m < |ts| && ts[m].num == n
    requires forall j :: 0 <= j < k ==> ts[j].num < n
    requires forall j :: k <= j < |ts| ==> n <= ts[j].num
    ensures m == k && forall j :: k < j < |ts| ==> n + 1 <= ts[j].num
  {
    NumbersIncrease(ts, k, m);
  }

  lemma NumbersIncrease(ts: seq<Track>, j: nat, k: nat)
    requires Numbered(ts)
    ensures j < k < |ts| ==> ts[j].num < ts[k].num
  {
  }

  lemma {:induction false} LastStarted(ts: seq<Track>, k: nat, lba: nat, i: nat)
    requires Numbered(ts) && k < |ts| && ts[k].start > lba && i < |ts| && Holds(ts, i, lba)
    requires forall j :: 0 <= j < k ==> ts[j].start <= lba
    ensures k == i + 1
  {
  }

  // Main result: the track found through the table of contents is the one the image's lookup returns, and
  // ahead of the first track, where the image finds none, it is the first.
  lemma {:induction false} TocAgrees(toc: Toc, ts: seq<Track>, lba: nat, i: nat)
    requires Numbered(ts) && Lists(toc, ts) && i < |ts| && Holds(ts, i, lba)
    ensures Scan(toc, toc.first, lba, None) == Some(ts[i].num)
  {
    ScanFinds(toc, ts, toc.first, 0, lba, i);
  }

  // A regular cue's image is numbered when its track numbers increase and its addresses fit the table.
  lemma {:induction false} RegularIsNumbered(cue: Cue, image: Image)
    requires Regular(cue) && Openable(cue) && IsImageOf(image, cue)
    requires forall k :: 0 <= k < |cue.tracks| ==> 0 < cue.tracks[k].num < CAPACITY
    requires forall j, k :: 0 <= j < k < |cue.tracks| ==> cue.tracks[j].num < cue.tracks[k].num
    requires image.blocks + BIAS < 256 * FRAMES_PER_MINUTE
    ensures Numbered(image.tracks)
  {
    hide Regular, Start, Blocks, Ideal, Offset, Limit;
    RegularIsOpenable(cue);
    var ts := image.tracks;
    forall j, k | 0 <= j < k < |ts|
      ensures ts[j].num < ts[k].num && ts[j].start <= ts[k].start
    {
      StartsInOrder(cue, j, k);
      assert ts[j] == TrackOf(cue, j) && ts[k] == TrackOf(cue, k);
    }
    var n := |ts| - 1;
    TrackReach(cue, n);
    EndAfterLimit(cue, n);
    forall k | 0 <= k < |ts|
      ensures Listed(ts[k]) && ts[k].start + BIAS < 256 * FRAMES_PER_MINUTE
    {
      StartsInOrder(cue, k, n);
      assert ts[k] == TrackOf(cue, k);
    }
  }

  lemma {:induction false} TocBeforeFirst(toc: Toc, ts: seq<Track>, lba: nat)
    requires Numbered(ts) && Lists(toc, ts) && lba < ts[0].start
    ensures Scan(toc, toc.first, lba, None) == Some(ts[0].num)
    ensures forall i :: 0 <= i < |ts| ==> !Holds(ts, i, lba)
  {
    assert EntryValid(toc.entries[ts[0].num]);
  }

  // ---------- Reading through a remembered stream position ----------

  // A file behind a stream; `at` is where the stream really stands, `pos` where the image believes it does.
  class ImageFile {
    const data: seq<Byte>
    var at: nat
    var pos: Option<nat>

    // A remembered position is the stream's own.
    ghost predicate Valid()
      reads this
    {
      pos.Some? ==> pos.value == at
    }

    // Opening leaves the stream anywhere and nothing remembered.
    constructor (data: seq<Byte>, at: nat)
      ensures Valid() && this.data == data
    {
      this.data, this.at, pos := data, at, None;
    }

    // What a stream at p gives when asked for n bytes.
    function Bytes(p: nat, n: nat): seq<Byte>
    {
      if p >= |data| then [] else data[p..Min(p + n, |data|)]
    }

    // cdimage_read_at: skipping the seek never changes what is read. A seek may fail, as the caller says.
    method ReadAt(p: nat, n: nat, seekable: bool) returns (ok: bool, bytes: seq<Byte>)
      requires Valid()
      modifies this
      ensures Valid()
      ensures ok <==> seekable || old(pos) == Some(p)
      ensures ok ==> bytes == Bytes(p, n)
      ensures ok && |bytes| > 0 ==> pos == Some(p + |bytes|)
    {
      bytes := [];
      if pos != Some(p) {
        if !seekable {
          pos := None;
          return false, bytes;
        }
        at := p;
      }
      bytes := Bytes(at, n);
      at := at + |bytes|;
      pos := if |bytes| > 0 then Some(p + |bytes|) else None;
      return true, bytes;
    }
  }
}
