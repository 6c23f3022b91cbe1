/** The file tailer (utils/tailfile.py): it reads on from where it was, reopens the file
    each time it has waited, and starts over when the file looks like another one. */
module TailFiles {
  import opened Wrappers
  import opened Sums

  const CRC_SIZE := 16

  /** The contents of every file by inode, and the inode now at the path; a file that was
      moved away can still be read through an open handle. */
  datatype Disk = Disk(files: map<int, string>, path: int) {
    predicate Valid() {
      path in files
    }

    function Data(): string
      requires Valid()
    {
      files[path]
    }
  }

  datatype Handle = Handle(inode: int, pos: nat)

  /** What the tailer keeps: of the last opening the inode, the size and the checksum of
      the first bytes; and the open file. */
  datatype Reader = Reader(inode: Option<int>, size: nat, crc: Option<int>, handle: Option<Handle>)

  type Checksum = string -> int

  function CrcOf(crc: Checksum, data: string): Option<int> {
    if |data| >= CRC_SIZE then Some(crc(data[..CRC_SIZE])) else None
  }

  /** The file is another one, is shorter than when last opened, or begins differently. */
  predicate LooksNew(crc: Checksum, r: Reader, disk: Disk)
    requires disk.Valid()
  {
    var data := disk.Data();
    || (r.inode.Some? && disk.path != r.inode.value)
    || (r.size > 0 && |data| < r.size)
    || (|data| >= CRC_SIZE && r.crc.Some? && CrcOf(crc, data) != r.crc)
  }

  function Opened(crc: Checksum, r: Reader, disk: Disk, moveEnd: bool, pos: nat): Reader
    requires disk.Valid()
  {
    var data := disk.Data();
    var at := if r.handle.Some? && LooksNew(crc, r, disk) then 0 else if moveEnd then |data| else pos;
    Reader(Some(disk.path), |data|, CrcOf(crc, data), Some(Handle(disk.path, at)))
  }

  /** `readline`: up to and with the next newline, or to the end. */
  function Line(data: string): (line: string)
    ensures |line| <= |data| && line == data[..|line|]
    ensures line == "" <==> data == ""
  {
    if data == "" then ""
    else if data[0] == '\n' then [data[0]]
    else [data[0]] + Line(data[1..])
  }

  /** Nothing is read past the end of the file. */
  function LineAt(disk: Disk, h: Handle): string {
    if h.inode in disk.files && h.pos <= |disk.files[h.inode]| then Line(disk.files[h.inode][h.pos..]) else ""
  }

  function StripLeft(s: string, c: char): string {
    if s != "" && s[0] == c then StripLeft(s[1..], c) else s
  }

  function StripRight(s: string, c: char): string {
    if s != "" && s[|s| - 1] == c then StripRight(s[..|s| - 1], c) else s
  }

  /** What the callback is given: a truncation may have left holes in the file. */
  function Delivered(line: string): string {
    StripRight(StripRight(StripLeft(line, 0 as char), 0 as char), '\n')
  }

  class TailFile {
    const crcOf: Checksum
    var inode: Option<int>
    var size: nat
    var crc: Option<int>
    var f: Option<Handle>

    constructor (crcOf: Checksum)
      ensures this.crcOf == crcOf && State() == Reader(None, 0, None, None)
    {
      this.crcOf := crcOf;
      inode, size, crc, f := None, 0, None, None;
    }

    ghost function State(): Reader
      reads this
    {
      Reader(inode, size, crc, f)
    }

    method OpenFile(disk: Disk, moveEnd: bool, pos: nat)
      requires disk.Valid()
      modifies this
      ensures State() == Opened(crcOf, old(State()), disk, moveEnd, pos)
    {
      var alreadyOpen := f.Some?;
      f := None;
      var newSize, newCrc := |disk.Data()|, None;
      if newSize >= CRC_SIZE {
        newCrc := Some(crcOf(disk.Data()[..CRC_SIZE]));
      }
      var toEnd, from := moveEnd, pos;
      if alreadyOpen {
        if inode.Some? && disk.path != inode.value {
          toEnd, from := false, 0;
        } else if size > 0 && newSize < size {
          toEnd, from := false, 0;
        }
        if newSize >= CRC_SIZE && crc.Some? && newCrc != crc {
          toEnd, from := false, 0;
        }
      }
      inode, size, crc := Some(disk.path), newSize, newCrc;
      f := Some(Handle(disk.path, if toEnd then newSize else from));
    }

    /** One turn of the reading loop: the line read, which is empty at the end of the
        file and else ends at the first newline or with the file, and what the callback
        gets of it. */
    method ReadLine(disk: Disk) returns (line: string, given: string)
      requires f.Some?
      modifies `f
      ensures line == LineAt(disk, old(f).value) && given == Delivered(line)
      ensures f == Some(Handle(old(f).value.inode, old(f).value.pos + |line|))
      ensures forall i :: 0 <= i < |line| - 1 ==> line[i] != '\n'
      ensures line != "" && line[|line| - 1] != '\n' ==>
                old(f).value.inode in disk.files && f.value.pos == |disk.files[f.value.inode]|
    {
      var h := f.value;
      line := "";
      if h.inode in disk.files && h.pos <= |disk.files[h.inode]| {
        line := ReadUntilNewline(disk.files[h.inode], h.pos);
        LineEnds(disk.files[h.inode][h.pos..]);
      }
      f := Some(Handle(h.inode, h.pos + |line|));
      var noHoles := Strip(line, 0 as char, true);
      given := Strip(noHoles, '\n', false);
    }
  }

  method ReadUntilNewline(data: string, pos: nat) returns (line: string)
    requires pos <= |data|
    ensures line == Line(data[pos..])
  {
    var end := pos;
    while end < |data| && data[end] != '\n'
      invariant pos <= end <= |data|
      invariant forall k :: pos <= k < end ==> data[k] != '\n'
    {
      end := end + 1;
    }
    LineIs(data, pos, end);
    if end < |data| {
      end := end + 1;
    }
    line := data[pos..end];
  }

  /** The line from `pos` on, when `end` is the next newline or the end. */
  lemma {:induction false} LineIs(data: string, pos: nat, end: nat)
    requires pos <= end <= |data| && (forall k :: pos <= k < end ==> data[k] != '\n')
    requires end < |data| ==> data[end] == '\n'
    ensures Line(data[pos..]) == if end < |data| then data[pos..end + 1] else data[pos..end]
    decreases end - pos
  {
    if pos < end {
      LineIs(data, pos + 1, end);
      assert data[pos..][1..] == data[pos + 1..];
    }
  }

  /** `strip(c)`, or else `rstrip(c)`. */
  method Strip(s: string, c: char, both: bool) returns (r: string)
    ensures r == StripRight(if both then StripLeft(s, c) else s, c)
  {
    var from, to := 0, |s|;
    while both && from < |s| && s[from] == c
      invariant 0 <= from <= |s|
      invariant StripLeft(s, c) == StripLeft(s[from..], c)
      invariant !both ==> from == 0
    {
      assert s[from..][1..] == s[from + 1..];
      from := from + 1;
    }
    var rest := s[from..];
    assert rest == if both then StripLeft(s, c) else s;
    to := |rest|;
    assert rest[..to] == rest;
    while to > 0 && rest[to - 1] == c
      invariant 0 <= to <= |rest|
      invariant StripRight(rest, c) == StripRight(rest[..to], c)
    {
      assert rest[..to][..to - 1] == rest[..to - 1];
      to := to - 1;
    }
    r := rest[..to];
  }

  /** A line has a newline at its end, or is all there is. */
  lemma {:induction false} LineEnds(data: string)
    ensures var line := Line(data);
      && (line != "" && line[|line| - 1] != '\n' ==> line == data)
      && forall i :: 0 <= i < |line| - 1 ==> line[i] != '\n'
  {
    if data != "" && data[0] != '\n' {
      LineEnds(data[1..]);
      assert data == [data[0]] + data[1..];
    }
  }

  /** Of a line without holes the callback gets all but the newline. */
  lemma LineIsDelivered(data: string)
    requires data != "" && (0 as char) !in Line(data)
    ensures var line := Line(data);
      Delivered(line) == if line[|line| - 1] == '\n' then line[..|line| - 1] else line
  {
    var line := Line(data);
    var n := |line| - 1;
    assert line[0] in line && line[n] in line;
    assert StripRight(StripLeft(line, 0 as char), 0 as char) == line;
    LineEnds(data);
    if n > 0 {
      assert line[..n][n - 1] == line[n - 1];
    }
    assert StripRight(line[..n], '\n') == line[..n];
  }

  lemma {:induction false} StripRightExactly(s: string, c: char)
    ensures var r := StripRight(s, c);
      && |r| <= |s| && r == s[..|r|] && (r != "" ==> r[|r| - 1] != c)
      && forall i :: |r| <= i < |s| ==> s[i] == c
  {
    if s != "" && s[|s| - 1] == c {
      StripRightExactly(s[..|s| - 1], c);
    }
  }

  lemma {:induction false} StripLeftExactly(s: string, c: char)
    ensures var r := StripLeft(s, c);
      && |r| <= |s| && r == s[|s| - |r|..] && (r != "" ==> r[0] != c)
      && forall i :: 0 <= i < |s| - |r| ==> s[i] == c
  {
    if s != "" && s[0] == c {
      StripLeftExactly(s[1..], c);
      forall i | 0 <= i < |s| - |StripLeft(s, c)| ensures s[i] == c {
        if i > 0 {
          assert s[1..][i - 1] == s[i];
        }
      }
    }
  }

  /** The callback gets the line without the holes at its ends, and of that without the
      newlines at the end. */
  lemma DeliveredExactly(line: string) returns (from: nat, to: nat)
    ensures from <= to <= |line|
    ensures forall i :: (0 <= i < from || to <= i < |line|) ==> line[i] == 0 as char
    ensures from < to ==> line[from] != 0 as char && line[to - 1] != 0 as char
    ensures var given := Delivered(line);
      && |given| <= to - from && given == line[from..from + |given|]
      && (given != "" ==> given[|given| - 1] != '\n')
      && forall i :: from + |given| <= i < to ==> line[i] == '\n'
  {
    var hole := 0 as char;
    var rest := StripLeft(line, hole);
    var kept := StripRight(rest, hole);
    StripLeftExactly(line, hole);
    StripRightExactly(rest, hole);
    StripRightExactly(kept, '\n');
    from, to := |line| - |rest|, |line| - |rest| + |kept|;
    assert kept == line[from..to];
    forall i | to <= i < |line| ensures line[i] == hole {
      assert rest[i - from] == line[i];
    }
  }

  // ---- runs: the tailer and those who write to the file ----

  /** Of one file the bytes `from` to `to`. */
  datatype Stretch = Stretch(inode: int, from: nat, to: nat)

  /** `waiting`: the generator has yielded and reopens the file when it goes on. An
      observer adds the lines `read`, the stretches read of the files `left`, and where
      reading of the present file began. */
  datatype World = World(disk: Disk, reader: Reader, waiting: bool, read: seq<string>, left: seq<Stretch>, start: nat)

  /** Writers may append to any file, put another one in place, or rewrite the one in
      place; the tailer reads a line, which its callback may ask to stop at, or goes on. */
  datatype Event =
    | Grow(inode: int, more: string)
    | Rotate(inode: int, data: string)
    | Rewrite(data: string)
    | Read(stop: bool)
    | Resume

  predicate Enabled(w: World, e: Event) {
    w.disk.Valid() && w.reader.handle.Some?
    && match e
       case Grow(inode, _) => inode in w.disk.files
       case Rotate(inode, _) => inode !in w.disk.files
       case Rewrite(_) => true
       case Read(_) => !w.waiting
       case Resume => w.waiting
  }

  function Step(crc: Checksum, w: World, e: Event): World
    requires Enabled(w, e)
  {
    var disk, h := w.disk, w.reader.handle.value;
    match e
    case Grow(inode, more) => w.(disk := disk.(files := disk.files[inode := disk.files[inode] + more]))
    case Rotate(inode, data) => w.(disk := Disk(disk.files[inode := data], inode))
    case Rewrite(data) => w.(disk := disk.(files := disk.files[disk.path := data]))
    case Read(stop) =>
      var line := LineAt(disk, h);
      w.(reader := w.reader.(handle := Some(Handle(h.inode, h.pos + |line|))), waiting := line == "" || stop,
         read := w.read + [line])
    case Resume =>
      var r := w.(reader := Opened(crc, w.reader, disk, false, h.pos), waiting := false);
      if LooksNew(crc, w.reader, disk) then r.(left := w.left + [Stretch(h.inode, w.start, h.pos)], start := 0) else r
  }

  ghost predicate Reaches(crc: Checksum, w: World, events: seq<Event>, r: World)
    decreases |events|
  {
    if events == [] then r == w
    else Enabled(w, events[0]) && Reaches(crc, Step(crc, w, events[0]), events[1..], r)
  }

  function Start(crc: Checksum, disk: Disk, moveEnd: bool): World
    requires disk.Valid()
  {
    World(disk, Opened(crc, Reader(None, 0, None, None), disk, moveEnd, 0), false, [], [],
          if moveEnd then |disk.Data()| else 0)
  }

  predicate Within(disk: Disk, s: Stretch) {
    s.inode in disk.files && s.from <= s.to <= |disk.files[s.inode]|
  }

  ghost predicate AllWithin(disk: Disk, stretches: seq<Stretch>) {
    forall i :: 0 <= i < |stretches| ==> Within(disk, stretches[i])
  }

  function Bytes(disk: Disk, s: Stretch): string {
    if Within(disk, s) then disk.files[s.inode][s.from..s.to] else ""
  }

  /** The text of the stretches, one after the other. */
  function Text(disk: Disk, stretches: seq<Stretch>): string {
    if stretches == [] then "" else Text(disk, stretches[..|stretches| - 1]) + Bytes(disk, stretches[|stretches| - 1])
  }

  /** The stretch of the file that is open. */
  function Present(w: World): Stretch
    requires w.reader.handle.Some?
  {
    Stretch(w.reader.handle.value.inode, w.start, w.reader.handle.value.pos)
  }

  /** What was recorded at the last opening is still true of the open file. */
  ghost predicate Recorded(crc: Checksum, r: Reader, data: string) {
    r.size <= |data| && (r.crc.Some? ==> CrcOf(crc, data) == r.crc)
  }

  /** Each file was read in one stretch, and each but the first from its beginning. */
  ghost predicate OncePerFile(stretches: seq<Stretch>) {
    && (forall i, j :: 0 <= i < j < |stretches| ==> stretches[i].inode != stretches[j].inode)
    && (forall i :: 0 < i < |stretches| ==> stretches[i].from == 0)
  }

  ghost predicate Touring(crc: Checksum, w: World) {
    && w.disk.Valid() && w.reader.handle.Some?
    && var h, all := w.reader.handle.value, w.left + [Present(w)];
      && w.reader.inode == Some(h.inode) && h.inode in w.disk.files
      && AllWithin(w.disk, all) && OncePerFile(all)
      && (forall i :: 0 <= i < |w.left| ==> w.left[i].inode != w.disk.path)
      && Recorded(crc, w.reader, w.disk.files[h.inode])
      && Flatten(w.read) == Text(w.disk, all)
  }

  predicate NoRewrites(events: seq<Event>) {
    forall i :: 0 <= i < |events| ==> !events[i].Rewrite?
  }

  lemma {:induction false} TextKept(a: Disk, b: Disk, stretches: seq<Stretch>)
    requires forall i :: 0 <= i < |stretches| ==> Bytes(a, stretches[i]) == Bytes(b, stretches[i])
    ensures Text(a, stretches) == Text(b, stretches)
  {
    if stretches != [] {
      TextKept(a, b, stretches[..|stretches| - 1]);
    }
  }

  lemma TextOne(disk: Disk, stretches: seq<Stretch>, s: Stretch)
    ensures Text(disk, stretches + [s]) == Text(disk, stretches) + Bytes(disk, s)
  {
    assert (stretches + [s])[..|stretches|] == stretches;
  }

  lemma GrowTours(crc: Checksum, w: World, inode: int, more: string)
    requires Touring(crc, w) && inode in w.disk.files
    ensures Touring(crc, Step(crc, w, Grow(inode, more)))
  {
    var r := Step(crc, w, Grow(inode, more));
    var all, data := w.left + [Present(w)], w.disk.files[inode];
    forall i | 0 <= i < |all| ensures Within(r.disk, all[i]) && Bytes(w.disk, all[i]) == Bytes(r.disk, all[i]) {
      assert Within(w.disk, all[i]);
      assert all[i].inode == inode ==> (data + more)[all[i].from..all[i].to] == data[all[i].from..all[i].to];
    }
    TextKept(w.disk, r.disk, all);
    assert |data| >= CRC_SIZE ==> (data + more)[..CRC_SIZE] == data[..CRC_SIZE];
  }

  lemma RotateTours(crc: Checksum, w: World, inode: int, data: string)
    requires Touring(crc, w) && inode !in w.disk.files
    ensures Touring(crc, Step(crc, w, Rotate(inode, data)))
  {
    var r := Step(crc, w, Rotate(inode, data));
    var all := w.left + [Present(w)];
    forall i | 0 <= i < |all|
      ensures Within(r.disk, all[i]) && all[i].inode != inode && Bytes(w.disk, all[i]) == Bytes(r.disk, all[i])
    {
      assert Within(w.disk, all[i]);
    }
    TextKept(w.disk, r.disk, all);
    forall i | 0 <= i < |w.left| ensures w.left[i].inode != inode {
      assert all[i] == w.left[i];
    }
  }

  lemma LastReplaced(disk: Disk, left: seq<Stretch>, a: Stretch, b: Stretch)
    requires AllWithin(disk, left + [a]) && OncePerFile(left + [a])
    requires Within(disk, b) && b.inode == a.inode && b.from == a.from
    ensures AllWithin(disk, left + [b]) && OncePerFile(left + [b])
  {
    var before, after := left + [a], left + [b];
    assert forall i :: 0 <= i < |after| ==> after[i].inode == before[i].inode && after[i].from == before[i].from;
    assert forall i :: 0 <= i < |left| ==> after[i] == before[i];
  }

  lemma LineBytes(disk: Disk, h: Handle, start: nat)
    requires Within(disk, Stretch(h.inode, start, h.pos))
    ensures var line := LineAt(disk, h);
      var longer := Stretch(h.inode, start, h.pos + |line|);
      Within(disk, longer) && Bytes(disk, longer) == Bytes(disk, Stretch(h.inode, start, h.pos)) + line
  {
    var data, line := disk.files[h.inode], LineAt(disk, h);
    assert data[h.pos..][..|line|] == data[h.pos..h.pos + |line|];
    assert data[start..h.pos] + data[h.pos..h.pos + |line|] == data[start..h.pos + |line|];
  }

  lemma ReadTours(crc: Checksum, w: World, stop: bool)
    requires Touring(crc, w) && !w.waiting
    ensures Touring(crc, Step(crc, w, Read(stop)))
  {
    var r, h := Step(crc, w, Read(stop)), w.reader.handle.value;
    assert (w.left + [Present(w)])[|w.left|] == Present(w);
    LineBytes(w.disk, h, w.start);
    LastReplaced(w.disk, w.left, Present(w), Present(r));
    TextGrows(w.disk, w.left, Present(w), Present(r), LineAt(w.disk, h));
    FlattenOne(w.read, LineAt(w.disk, h));
  }

  lemma TextGrows(disk: Disk, left: seq<Stretch>, a: Stretch, b: Stretch, line: string)
    requires Bytes(disk, b) == Bytes(disk, a) + line
    ensures Text(disk, left + [b]) == Text(disk, left + [a]) + line
  {
    TextOne(disk, left, a);
    TextOne(disk, left, b);
    assert Text(disk, left) + (Bytes(disk, a) + line) == Text(disk, left) + Bytes(disk, a) + line;
  }

  /** Going on starts over exactly when another file took the path. */
  lemma ResumeTours(crc: Checksum, w: World)
    requires Touring(crc, w) && w.waiting
    ensures Touring(crc, Step(crc, w, Resume))
    ensures LooksNew(crc, w.reader, w.disk) <==> w.disk.path != w.reader.handle.value.inode
  {
    var r := Step(crc, w, Resume);
    if w.disk.path != w.reader.handle.value.inode {
      var before := w.left + [Present(w)];
      assert r.left == before && Present(r) == Stretch(w.disk.path, 0, 0);
      TextOne(w.disk, before, Present(r));
      forall i | 0 <= i < |before| ensures before[i].inode != w.disk.path {
        assert i < |w.left| ==> before[i] == w.left[i];
      }
    } else {
      assert Present(r) == Present(w);
    }
  }

  lemma StepTours(crc: Checksum, w: World, e: Event)
    requires Touring(crc, w) && Enabled(w, e) && !e.Rewrite?
    ensures Touring(crc, Step(crc, w, e))
  {
    match e
    case Grow(inode, more) => GrowTours(crc, w, inode, more);
    case Rotate(inode, data) => RotateTours(crc, w, inode, data);
    case Read(stop) => ReadTours(crc, w, stop);
    case Resume => ResumeTours(crc, w);
  }

  lemma {:induction false} RunTours(crc: Checksum, w: World, events: seq<Event>, r: World)
    requires Touring(crc, w) && NoRewrites(events) && Reaches(crc, w, events, r)
    ensures Touring(crc, r)
    decreases |events|
  {
    if events != [] {
      StepTours(crc, w, events[0]);
      RunTours(crc, Step(crc, w, events[0]), events[1..], r);
    }
  }

  lemma StartTours(crc: Checksum, disk: Disk, moveEnd: bool)
    requires disk.Valid()
    ensures Touring(crc, Start(crc, disk, moveEnd))
  {
    var w := Start(crc, disk, moveEnd);
    TextOne(disk, [], Present(w));
  }

  /** The first stretch is of this file, from this byte on. */
  ghost predicate Began(w: World, inode: int, from: nat) {
    && w.reader.handle.Some? && w.reader.inode == Some(w.reader.handle.value.inode)
    && var first := (w.left + [Present(w)])[0]; first.inode == inode && first.from == from
  }

  lemma {:induction false} RunBegan(crc: Checksum, w: World, events: seq<Event>, r: World, inode: int, from: nat)
    requires Began(w, inode, from) && Reaches(crc, w, events, r)
    ensures Began(r, inode, from)
    decreases |events|
  {
    if events != [] {
      RunBegan(crc, Step(crc, w, events[0]), events[1..], r, inode, from);
    }
  }

  /** However files grow and take the path, and reads and pauses fall: the lines read are
      stretches of the files, one of each and in order, each after the first from byte 0.
      Of a file left behind just what is past its stretch is never read, and nothing is
      read twice. */
  lemma ReadsStretches(crc: Checksum, disk: Disk, moveEnd: bool, events: seq<Event>, r: World)
    requires disk.Valid() && NoRewrites(events) && Reaches(crc, Start(crc, disk, moveEnd), events, r)
    ensures r.reader.handle.Some?
    ensures var all := r.left + [Present(r)];
      && OncePerFile(all) && AllWithin(r.disk, all) && Flatten(r.read) == Text(r.disk, all)
      && all[0].inode == disk.path && all[0].from == if moveEnd then |disk.Data()| else 0
  {
    var w := Start(crc, disk, moveEnd);
    StartTours(crc, disk, moveEnd);
    RunTours(crc, w, events, r);
    RunBegan(crc, w, events, r, disk.path, w.start);
  }

  predicate AppendOnly(events: seq<Event>) {
    forall i :: 0 <= i < |events| ==> !events[i].Rotate? && !events[i].Rewrite?
  }

  lemma {:induction false} RunKeepsPath(crc: Checksum, w: World, events: seq<Event>, r: World)
    requires w.disk.Valid() && AppendOnly(events) && Reaches(crc, w, events, r)
    ensures r.disk.Valid() && r.disk.path == w.disk.path
    decreases |events|
  {
    if events != [] {
      RunKeepsPath(crc, Step(crc, w, events[0]), events[1..], r);
    }
  }

  lemma OneFileRead(crc: Checksum, w: World, start: nat)
    requires Touring(crc, w) && Began(w, w.disk.path, start)
    ensures var pos, data := w.reader.handle.value.pos, w.disk.Data();
      start <= pos <= |data| && Flatten(w.read) == data[start..pos]
  {
    var all := w.left + [Present(w)];
    assert w.left == [] && all[0] == Present(w);
    TextOne(w.disk, [], Present(w));
  }

  /** When no other file takes the path, the lines read make up the file from where the
      tailer began to where it is: nothing is lost, repeated or read out of order. */
  lemma AppendOnlyConserves(crc: Checksum, disk: Disk, moveEnd: bool, events: seq<Event>, r: World)
    requires disk.Valid() && AppendOnly(events) && Reaches(crc, Start(crc, disk, moveEnd), events, r)
    ensures var start := if moveEnd then |disk.Data()| else 0;
      && r.reader.handle.Some? && r.disk.Valid() && r.disk.path == disk.path
      && start <= r.reader.handle.value.pos <= |r.disk.Data()|
      && Flatten(r.read) == r.disk.Data()[start..r.reader.handle.value.pos]
  {
    var w := Start(crc, disk, moveEnd);
    StartTours(crc, disk, moveEnd);
    RunTours(crc, w, events, r);
    RunBegan(crc, w, events, r, disk.path, w.start);
    RunKeepsPath(crc, w, events, r);
    OneFileRead(crc, r, w.start);
  }

  /** Each read moves on until the end of the open file is reached, and an empty line says
      that all of it has been delivered. */
  lemma EmptyLineMeansAllRead(crc: Checksum, w: World, stop: bool)
    requires Touring(crc, w) && !w.waiting
    ensures var h, r := w.reader.handle.value, Step(crc, w, Read(stop));
      && h.inode in w.disk.files && Touring(crc, r)
      && (if h.pos < |w.disk.files[h.inode]| then r.reader.handle.value.pos > h.pos
          else r.waiting && r.read == w.read + [""] && Present(r) == Stretch(h.inode, w.start, |w.disk.files[h.inode]|))
  {
    ReadTours(crc, w, stop);
    assert (w.left + [Present(w)])[|w.left|] == Present(w);
  }

  // ---- rewriting in place ----

  predicate OnlyReads(events: seq<Event>) {
    forall i :: 0 <= i < |events| ==> events[i].Read?
  }

  /** Reading goes on in the open file, and stays where it is when that is past its end. */
  lemma {:induction false} ReadsMoveOn(crc: Checksum, w: World, more: seq<Event>, v: World)
    requires OnlyReads(more) && w.reader.handle.Some? && Reaches(crc, w, more, v)
    ensures v.disk == w.disk && v.reader.handle.Some? && v.reader == w.reader.(handle := v.reader.handle)
    ensures var h, to := w.reader.handle.value, v.reader.handle.value;
      && to.inode == h.inode && h.pos <= to.pos
      && (h.inode in w.disk.files && |w.disk.files[h.inode]| <= h.pos ==> to.pos == h.pos)
    decreases |more|
  {
    if more != [] {
      ReadsMoveOn(crc, Step(crc, w, more[0]), more[1..], v);
    }
  }

  /** A rewrite in place, made while the tailer reads or waits, is noticed when it next
      goes on exactly when the file is shorter than when it was last opened or its first
      bytes changed. Else reading goes on from where it is; and if it was past the new end
      already, it has stayed there, and what is written up to there is never read. */
  lemma RewriteNoticedExactly(crc: Checksum, w: World, data: string, more: seq<Event>, v: World)
    requires Enabled(w, Rewrite(data)) && w.reader.inode == Some(w.disk.path)
             && w.reader.handle.value.inode == w.disk.path
    requires OnlyReads(more) && Reaches(crc, Step(crc, w, Rewrite(data)), more, v) && v.waiting
    ensures Enabled(v, Resume)
    ensures var pos, size := w.reader.handle.value.pos, w.reader.size;
      var to, after := v.reader.handle.value.pos, Step(crc, v, Resume);
      var noticed := (0 < size && |data| < size)
                     || (|data| >= CRC_SIZE && w.reader.crc.Some? && CrcOf(crc, data) != w.reader.crc);
      && (LooksNew(crc, v.reader, v.disk) <==> noticed)
      && after.reader.handle == Some(Handle(w.disk.path, if noticed then 0 else to))
      && pos <= to && (|data| <= pos ==> to == pos)
      && (!noticed && |data| <= pos ==> LineAt(after.disk, after.reader.handle.value) == "")
  {
    ReadsMoveOn(crc, Step(crc, w, Rewrite(data)), more, v);
  }

  /** So a file that shrank below the read position is not always read from the start: this
      one was empty when last opened. */
  lemma ShrinkMayBeMissed(crc: Checksum)
    ensures var disk := Disk(map[1 := ""], 1);
      exists events, r ::
        && Reaches(crc, Start(crc, disk, false), events, r)
        && events == [Grow(1, "a\n"), Read(true), Rewrite("b"), Resume]
        && r.reader.handle == Some(Handle(1, 2)) && r.disk == Disk(map[1 := "b"], 1)
  {
    var w0 := Start(crc, Disk(map[1 := ""], 1), false);
    var w1 := Step(crc, w0, Grow(1, "a\n"));
    assert "" + "a\n" == "a\n" && w1.disk == Disk(map[1 := "a\n"], 1);
    ReadsBothBytes(crc, w1);
    var w2 := Step(crc, w1, Read(true));
    var w3 := Step(crc, w2, Rewrite("b"));
    var w4 := Step(crc, w3, Resume);
    assert w3.disk == Disk(map[1 := "b"], 1) && !LooksNew(crc, w3.reader, w3.disk);
    Chain(crc, w3, Resume, [], w4);
    Chain(crc, w2, Rewrite("b"), [Resume], w4);
    Chain(crc, w1, Read(true), [Rewrite("b"), Resume], w4);
    Chain(crc, w0, Grow(1, "a\n"), [Read(true), Rewrite("b"), Resume], w4);
  }

  lemma ReadsBothBytes(crc: Checksum, w: World)
    requires w.disk == Disk(map[1 := "a\n"], 1) && !w.waiting
             && w.reader == Reader(Some(1), 0, None, Some(Handle(1, 0)))
    ensures var r := Step(crc, w, Read(true));
      r.waiting && r.disk == w.disk && r.reader == Reader(Some(1), 0, None, Some(Handle(1, 2)))
  {
    assert "a\n"[0..] == "a\n" && Line("a\n") == "a\n";
    assert LineAt(w.disk, Handle(1, 0)) == "a\n";
  }

  lemma Chain(crc: Checksum, w: World, e: Event, events: seq<Event>, r: World)
    requires Enabled(w, e) && Reaches(crc, Step(crc, w, e), events, r)
    ensures Reaches(crc, w, [e] + events, r)
  {
    assert ([e] + events)[1..] == events;
  }
}
