/**
 * Finding where to resume an FLV download (rtmpdump-jni.c): GetLastKeyframe walks backward over the size
 * trailers, OpenResumeFile forward over the tag headers.
 */
module FlvScan {
  import opened Wrappers
  import opened Bytes
  import opened FlvFile

  /** What GetLastKeyframe hands back, and where it leaves the file. */
  datatype Frame = Frame(seek: nat, content: seq<byte>, frameType: byte, cursor: nat)

  /** A walk: the tag positions it read, and its result. */
  datatype Walk<+T> = Walk(visited: seq<nat>, result: Option<T>)
  {
    function After(pos: nat): Walk<T> { Walk([pos] + visited, result) }
  }

  /** Below this size the 32-bit sum of a trailer and 4 cannot wrap. */
  const MAX_SIZE: nat := 0x1_0000_0000 + 12

  predicate IsKey(header: seq<byte>)
    requires |header| == 12
  {
    header[0] == 0x09 && header[11] / 16 == 1
  }

  predicate Wanted(header: seq<byte>, audioOnly: bool)
    requires |header| == 12
  {
    if audioOnly then header[0] == 0x08 else IsKey(header)
  }

  /** The rest of the function once a frame is found; `pos` is behind the twelve bytes of its header. */
  function Deliver(bytes: seq<byte>, start: int, pos: nat, header: seq<byte>, prevTagSize: nat): Option<Frame>
    requires |header| == 12
  {
    var size := (prevTagSize - 11) % 0x1_0000_0000;
    var at := if start + 11 >= 0 then start + 11 else pos;
    var content := ReadAt(bytes, at, size);
    var top: int := header[7];
    var seek := N2l3(header[4..7]) + 0x100_0000 * top;
    if |content| != size then None
    else Some(Frame(seek, content, header[0],
                    if seek != 0 && start + prevTagSize + 4 >= 0 then start + prevTagSize + 4 else at + size))
  }

  /** What one step back reads: the size trailer, and the first twelve bytes of the tag it leads to. */
  datatype Sight = Sight(prevTagSize: nat, at: nat, header: seq<byte>)

  function Look(bytes: seq<byte>, tsize: nat): (r: Option<Sight>)
    ensures r.Some? ==> |r.value.header| == 12 && tsize + 13 <= |bytes|
  {
    var left := |bytes| - tsize;
    if left < 13 then None else
    var prevTagSize := N2l(bytes[left - 4..left]);
    if prevTagSize == 0 || prevTagSize > |bytes| - 4 - 13 then None else
    var start := left - (prevTagSize + 4);
    var at := if start >= 0 then start else left;
    var header := ReadAt(bytes, at, 12);
    if |header| != 12 then None else Some(Sight(prevTagSize, at, header))
  }

  predicate Skips(header: seq<byte>, audioOnly: bool, skip: nat)
    requires |header| == 12
  {
    skip > 0 && (audioOnly || IsKey(header))
  }

  /** The backward walk when `tsize` bytes at the end have been passed. */
  function Scan(bytes: seq<byte>, audioOnly: bool, tsize: nat, skip: nat): Walk<Frame>
    decreases |bytes| - tsize
  {
    var sight := Look(bytes, tsize);
    if sight.None? then Walk([], None) else
    var Sight(prevTagSize, at, header) := sight.value;
    var next := tsize + prevTagSize + 4;
    if Skips(header, audioOnly, skip) then Scan(bytes, audioOnly, next, skip - 1).After(at)
    else if !Wanted(header, audioOnly) then Scan(bytes, audioOnly, next, skip).After(at)
    else Walk([at], Deliver(bytes, |bytes| - next, at + 12, header, prevTagSize))
  }

  function IsAudioOnly(dataType: byte): bool { (dataType / 4) % 2 == 1 && dataType % 2 == 0 }

  function LastKeyframe(bytes: seq<byte>, skip: nat): Walk<Frame> {
    if |bytes| < 5 then Walk([], None) else Scan(bytes, IsAudioOnly(bytes[4]), 0, skip)
  }

  method LookBack(file: File, tsize: nat) returns (sight: Option<Sight>)
    requires |file.bytes| <= MAX_SIZE
    modifies file
    ensures sight == Look(file.bytes, tsize)
    ensures sight.Some? ==> file.pos == sight.value.at + 12
  {
    var size := |file.bytes|;
    if size - tsize < 13 { return None; }
    file.Seek(size - tsize - 4);
    var buffer := file.Read(4);
    if |buffer| != 4 { return None; }
    var prevTagSize := N2l(buffer);
    if prevTagSize == 0 { return None; }
    if prevTagSize > size - 4 - 13 { return None; }
    file.Seek(size - (tsize + prevTagSize + 4));
    var start := size - (tsize + prevTagSize + 4);
    var from := if start >= 0 then start else size - tsize;
    buffer := file.Read(12);
    if |buffer| != 12 { return None; }
    sight := Some(Sight(prevTagSize, from, buffer));
  }

  method DeliverFrame(file: File, start: int, header: seq<byte>, prevTagSize: nat)
    returns (ok: bool, dSeek: nat, initialFrame: seq<byte>)
    requires |header| == 12
    modifies file
    ensures var r := Deliver(file.bytes, start, old(file.pos), header, prevTagSize);
            (ok <==> r.Some?) && (ok ==> r == Some(Frame(dSeek, initialFrame, header[0], file.pos)))
  {
    dSeek := 0;
    var size := (prevTagSize - 11) % 0x1_0000_0000;
    file.Seek(start + 11);
    initialFrame := file.Read(size);
    ok := |initialFrame| == size;
    if ok {
      var top: int := header[7];
      dSeek := N2l3(header[4..7]) + 0x100_0000 * top;
      if dSeek != 0 { file.Seek(start + prevTagSize + 4); }
    }
  }

  /** The whole walk, when `seen` is behind it. */
  ghost function Rest(bytes: seq<byte>, audioOnly: bool, tsize: nat, skip: nat, seen: seq<nat>): Walk<Frame> {
    var w := Scan(bytes, audioOnly, tsize, skip);
    Walk(seen + w.visited, w.result)
  }

  lemma RestGoesOn(bytes: seq<byte>, audioOnly: bool, tsize: nat, skip: nat, seen: seq<nat>, sight: Sight)
    requires Look(bytes, tsize) == Some(sight)
    requires Skips(sight.header, audioOnly, skip) || !Wanted(sight.header, audioOnly)
    ensures Rest(bytes, audioOnly, tsize, skip, seen) ==
            Rest(bytes, audioOnly, tsize + sight.prevTagSize + 4,
                 if Skips(sight.header, audioOnly, skip) then skip - 1 else skip, seen + [sight.at])
  {
    var next := tsize + sight.prevTagSize + 4;
    var rest := Scan(bytes, audioOnly, next, if Skips(sight.header, audioOnly, skip) then skip - 1 else skip).visited;
    assert seen + [sight.at] + rest == seen + ([sight.at] + rest);
  }

  /** The walk when the loop ends: without a frame, or at one. */
  ghost function Ended(bytes: seq<byte>, tsize: nat, seen: seq<nat>, sight: Option<Sight>): Walk<Frame>
    requires sight.Some? ==> |sight.value.header| == 12
  {
    Walk(seen, if sight.None? then None
               else Deliver(bytes, |bytes| - tsize, sight.value.at + 12, sight.value.header, sight.value.prevTagSize))
  }

  lemma RestEnds(bytes: seq<byte>, audioOnly: bool, tsize: nat, skip: nat, seen: seq<nat>)
    requires Look(bytes, tsize).None?
    ensures Rest(bytes, audioOnly, tsize, skip, seen) == Ended(bytes, tsize, seen, Look(bytes, tsize))
  {
    assert seen + [] == seen;
  }

  lemma RestStops(bytes: seq<byte>, audioOnly: bool, tsize: nat, skip: nat, seen: seq<nat>,
                  sight: Option<Sight>, next: nat, seen': seq<nat>)
    requires Look(bytes, tsize) == sight && sight.Some?
    requires !Skips(sight.value.header, audioOnly, skip) && Wanted(sight.value.header, audioOnly)
    requires next == tsize + sight.value.prevTagSize + 4 && seen' == seen + [sight.value.at]
    ensures Rest(bytes, audioOnly, tsize, skip, seen) == Ended(bytes, next, seen', sight)
  {
  }

  /** The loop: the frame it stops at, if any, and how much of the file's end it has passed then. */
  method WalkBack(file: File, audioOnly: bool, nSkipKeyFrames: nat)
    returns (sight: Option<Sight>, tsize: nat, ghost visited: seq<nat>)
    requires |file.bytes| <= MAX_SIZE
    modifies file
    ensures sight.Some? ==> |sight.value.header| == 12 && file.pos == sight.value.at + 12
    ensures Rest(file.bytes, audioOnly, 0, nSkipKeyFrames, []) == Ended(file.bytes, tsize, visited, sight)
  {
    ghost var goal := Rest(file.bytes, audioOnly, 0, nSkipKeyFrames, []);
    var skip := nSkipKeyFrames;
    tsize, visited := 0, [];
    while true
      invariant goal == Rest(file.bytes, audioOnly, tsize, skip, visited)
      decreases |file.bytes| - tsize
    {
      sight := LookBack(file, tsize);
      if sight.None? {
        RestEnds(file.bytes, audioOnly, tsize, skip, visited);
        return;
      }
      var Sight(prevTagSize, at, header) := sight.value;
      var next := tsize + prevTagSize + 4;
      if Skips(header, audioOnly, skip) {
        RestGoesOn(file.bytes, audioOnly, tsize, skip, visited, sight.value);
        skip := skip - 1;
      } else if Wanted(header, audioOnly) {
        RestStops(file.bytes, audioOnly, tsize, skip, visited, sight, next, visited + [at]);
        tsize, visited := next, visited + [at];
        return;
      } else {
        RestGoesOn(file.bytes, audioOnly, tsize, skip, visited, sight.value);
      }
      tsize, visited := next, visited + [at];
    }
  }

  lemma RestAtStart(bytes: seq<byte>, skip: nat)
    requires |bytes| >= 5
    ensures Rest(bytes, IsAudioOnly(bytes[4]), 0, skip, []) == LastKeyframe(bytes, skip)
  {
  }

  /** The out-parameters say what the walk comes to. */
  ghost predicate Reports(w: Walk<Frame>, ok: bool, dSeek: nat, content: seq<byte>, frameType: byte,
                          pos: nat, visited: seq<nat>) {
    && w.visited == visited
    && (ok <==> w.result.Some?)
    && (ok ==> w.result == Some(Frame(dSeek, content, frameType, pos)))
  }

  /** GetLastKeyframe, on whatever bytes the file holds */
  method GetLastKeyframe(file: File, nSkipKeyFrames: nat)
    returns (ok: bool, dSeek: nat, initialFrame: seq<byte>, initialFrameType: byte, ghost visited: seq<nat>)
    requires |file.bytes| <= MAX_SIZE
    modifies file
    ensures Reports(LastKeyframe(file.bytes, nSkipKeyFrames),
                    ok, dSeek, initialFrame, initialFrameType, file.pos, visited)
  {
    ok, dSeek, initialFrame, initialFrameType, visited := false, 0, [], 0, [];
    file.Seek(4);
    var dataType := file.Read(1);
    if |dataType| != 1 { return; }
    RestAtStart(file.bytes, nSkipKeyFrames);
    var sight, tsize;
    sight, tsize, visited := WalkBack(file, IsAudioOnly(dataType[0]), nSkipKeyFrames);
    if sight.None? { return; }
    initialFrameType := sight.value.header[0];
    ok, dSeek, initialFrame :=
      DeliverFrame(file, |file.bytes| - tsize, sight.value.header, sight.value.prevTagSize);
  }
}
