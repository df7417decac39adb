/**
 * GetLastKeyframe (rtmpdump-jni.c) on any file at all, well-formed or not: which tags the backward walk reads,
 * where it ends, and what it hands back.
 */
module FlvBackward {
  import opened Bytes
  import opened FlvFile
  import opened FlvScan
  import opened Wrappers

  /** The size that the four octets before `end` announce */
  function Trailer(bytes: seq<byte>, end: int): nat
    requires 4 <= end <= |bytes|
  {
    var a: int, b: int, c: int, d: int := bytes[end - 4], bytes[end - 3], bytes[end - 2], bytes[end - 1];
    0x100_0000 * a + 0x1_0000 * b + 256 * c + d
  }

  /** A tag ends at `end`: its size is there, not zero and not too large, and twelve octets can be read of it. */
  predicate Readable(bytes: seq<byte>, end: int) {
    && 13 <= end <= |bytes|
    && 0 < Trailer(bytes, end) <= |bytes| - 17
    && At(bytes, end) + 12 <= |bytes|
  }

  /** Where it begins; a size that leads in front of the file leaves the reading position behind the size. */
  function At(bytes: seq<byte>, end: int): (at: nat)
    requires 13 <= end <= |bytes|
  {
    if end - Trailer(bytes, end) - 4 >= 0 then end - Trailer(bytes, end) - 4 else end
  }

  predicate Keyframe(bytes: seq<byte>, at: nat) { at + 12 <= |bytes| && bytes[at] == 9 && bytes[at + 11] / 16 == 1 }

  /** How many of these tags count as skipped: all of them in an audio file, else the keyframes. */
  function Counted(bytes: seq<byte>, tags: seq<nat>, audioOnly: bool): nat {
    if tags == [] then 0
    else (if audioOnly || Keyframe(bytes, tags[0]) then 1 else 0) + Counted(bytes, tags[1..], audioOnly)
  }

  /** The tag to resume at: an audio tag or a keyframe, with enough of them behind it. */
  predicate Target(bytes: seq<byte>, tags: seq<nat>, i: nat, audioOnly: bool, skip: nat)
    requires i < |tags|
  {
    && tags[i] + 12 <= |bytes|
    && (if audioOnly then bytes[tags[i]] == 8 else Keyframe(bytes, tags[i]))
    && Counted(bytes, tags[..i], audioOnly) >= skip
  }

  /** The tags end where the next one begins, the last of them where the file does. */
  ghost predicate Linked(bytes: seq<byte>, ends: seq<int>, tags: seq<nat>) {
    && |ends| == |tags| + 1
    && forall i :: 0 <= i < |tags| ==>
         && Readable(bytes, ends[i]) && tags[i] == At(bytes, ends[i])
         && ends[i + 1] == ends[i] - Trailer(bytes, ends[i]) - 4
  }

  /** Where the content of the tag that ends there is read, and how long it should be. */
  function ContentAt(bytes: seq<byte>, end: int): nat
    requires 13 <= end <= |bytes|
  {
    var start := end - Trailer(bytes, end) - 4;
    if start + 11 >= 0 then start + 11 else At(bytes, end) + 12
  }

  function ContentSize(bytes: seq<byte>, end: int): nat
    requires 13 <= end <= |bytes|
  {
    (Trailer(bytes, end) - 11) % 0x1_0000_0000
  }

  /**
   * The frame's content, type and timestamp are the tag's; there is none if the file is too short for it. The
   * file is left behind the tag, or behind the content when the timestamp is zero.
   */
  ghost predicate Framed(bytes: seq<byte>, end: int, result: Option<Frame>)
    requires Readable(bytes, end)
  {
    var from, size, at := ContentAt(bytes, end), ContentSize(bytes, end), At(bytes, end);
    && (result.Some? <==> from + size <= |bytes| || size == 0)
    && (result.Some? ==>
          var f := result.value;
          var low: int, mid: int, high: int, top: int := bytes[at + 6], bytes[at + 5], bytes[at + 4], bytes[at + 7];
          && f.frameType == bytes[at]
          && f.seek == low + 256 * mid + 0x1_0000 * high + 0x100_0000 * top
          && |f.content| == size && (size > 0 ==> f.content == bytes[from..from + size])
          && f.cursor == if f.seek != 0 then end else from + size)
  }

  /** The result of a walk that read these tags. */
  ghost predicate Outcome(bytes: seq<byte>, ends: seq<int>, tags: seq<nat>, audioOnly: bool, skip: nat,
                          result: Option<Frame>)
    requires Linked(bytes, ends, tags)
  {
    var n := |tags|;
    && (forall i :: 0 <= i < n - 1 ==> !Target(bytes, tags, i, audioOnly, skip))
    && if n > 0 && Target(bytes, tags, n - 1, audioOnly, skip) then
         Framed(bytes, ends[n - 1], result)
       else
         result == None && !Readable(bytes, ends[n])
  }

  // ---- One step ----

  lemma LookIs(bytes: seq<byte>, end: nat)
    requires end <= |bytes|
    ensures var sight := Look(bytes, |bytes| - end);
            && (sight.Some? <==> Readable(bytes, end))
            && (sight.Some? ==> && sight.value.prevTagSize == Trailer(bytes, end)
                                && sight.value.at == At(bytes, end)
                                && sight.value.header == bytes[sight.value.at..sight.value.at + 12])
  {
    if end >= 13 {
      var trailer := bytes[end - 4..end];
      assert N2l(trailer) == Trailer(bytes, end);
    }
  }

  lemma TimestampIs(bytes: seq<byte>, at: nat, header: seq<byte>)
    requires at + 12 <= |bytes| && header == bytes[at..at + 12]
    ensures var low: int, mid: int, high: int := bytes[at + 6], bytes[at + 5], bytes[at + 4];
            N2l3(header[4..7]) == low + 256 * mid + 0x1_0000 * high
    ensures header[7] == bytes[at + 7] && header[0] == bytes[at]
  {
    assert header[4..7] == [header[4], header[5], header[6]];
    assert header[4] == bytes[at + 4] && header[5] == bytes[at + 5] && header[6] == bytes[at + 6];
  }

  lemma ContentIs(bytes: seq<byte>, from: nat, size: nat)
    ensures var content := ReadAt(bytes, from, size);
            && (|content| == size <==> from + size <= |bytes| || size == 0)
            && (|content| == size && size > 0 ==> content == bytes[from..from + size])
  {
  }

  lemma DeliverFrames(bytes: seq<byte>, end: nat, header: seq<byte>)
    requires Readable(bytes, end) && header == bytes[At(bytes, end)..At(bytes, end) + 12]
    ensures Framed(bytes, end, Deliver(bytes, end - Trailer(bytes, end) - 4, At(bytes, end) + 12, header,
                                       Trailer(bytes, end)))
  {
    TimestampIs(bytes, At(bytes, end), header);
    ContentIs(bytes, ContentAt(bytes, end), ContentSize(bytes, end));
  }

  // ---- The walk ----

  lemma KeyIs(bytes: seq<byte>, at: nat)
    requires at + 12 <= |bytes|
    ensures IsKey(bytes[at..at + 12]) <==> Keyframe(bytes, at)
    ensures bytes[at..at + 12][0] == bytes[at]
  {
  }

  lemma LinkedCons(bytes: seq<byte>, end: int, ends: seq<int>, tags: seq<nat>)
    requires Readable(bytes, end) && Linked(bytes, ends, tags) && ends[0] == end - Trailer(bytes, end) - 4
    ensures Linked(bytes, [end] + ends, [At(bytes, end)] + tags)
  {
    var es, ts := [end] + ends, [At(bytes, end)] + tags;
    forall i | 0 <= i < |ts|
      ensures Readable(bytes, es[i]) && ts[i] == At(bytes, es[i]) && es[i + 1] == es[i] - Trailer(bytes, es[i]) - 4
    {
      if i > 0 { assert es[i] == ends[i - 1] && ts[i] == tags[i - 1] && es[i + 1] == ends[i]; }
    }
  }

  /** Whether a tag is the target does not change when one is put in front and the skips are counted on. */
  lemma TargetCons(bytes: seq<byte>, at: nat, tags: seq<nat>, i: nat, audioOnly: bool, skip: nat, skip': nat)
    requires i < |tags|
    requires skip == skip' + (if audioOnly || Keyframe(bytes, at) then 1 else 0) || (skip == skip' == 0)
    ensures Target(bytes, [at] + tags, i + 1, audioOnly, skip) <==> Target(bytes, tags, i, audioOnly, skip')
  {
    var all := [at] + tags;
    assert all[..i + 1][1..] == tags[..i] && all[..i + 1][0] == at;
  }

  lemma OutcomeCons(bytes: seq<byte>, end: int, ends: seq<int>, tags: seq<nat>, audioOnly: bool, skip: nat, skip': nat,
                    result: Option<Frame>)
    requires Readable(bytes, end) && Linked(bytes, ends, tags) && ends[0] == end - Trailer(bytes, end) - 4
    requires Linked(bytes, [end] + ends, [At(bytes, end)] + tags)
    requires || skip == skip' + (if audioOnly || Keyframe(bytes, At(bytes, end)) then 1 else 0)
             || skip == skip' == 0
    requires !Target(bytes, [At(bytes, end)] + tags, 0, audioOnly, skip)
    requires Outcome(bytes, ends, tags, audioOnly, skip', result)
    ensures Outcome(bytes, [end] + ends, [At(bytes, end)] + tags, audioOnly, skip, result)
  {
    var at := At(bytes, end);
    var es, ts := [end] + ends, [at] + tags;
    forall i | 1 <= i < |ts|
      ensures Target(bytes, ts, i, audioOnly, skip) <==> Target(bytes, tags, i - 1, audioOnly, skip')
    {
      TargetCons(bytes, at, tags, i - 1, audioOnly, skip, skip');
    }
    assert es[|ts|] == ends[|tags|];
    if tags != [] { assert es[|ts| - 1] == ends[|tags| - 1]; }
  }

  lemma NotTarget(bytes: seq<byte>, tags: seq<nat>, header: seq<byte>, audioOnly: bool, skip: nat)
    requires tags != [] && tags[0] + 12 <= |bytes| && header == bytes[tags[0]..tags[0] + 12]
    requires Skips(header, audioOnly, skip) || !Wanted(header, audioOnly)
    ensures !Target(bytes, tags, 0, audioOnly, skip)
  {
    KeyIs(bytes, tags[0]);
    assert Counted(bytes, tags[..0], audioOnly) == 0;
  }

  /** What a walk from here on is to have read and found. */
  ghost predicate Walked(bytes: seq<byte>, end: int, ends: seq<int>, w: Walk<Frame>, audioOnly: bool, skip: nat) {
    Linked(bytes, ends, w.visited) && ends[0] == end && Outcome(bytes, ends, w.visited, audioOnly, skip, w.result)
  }

  lemma PassedTag(bytes: seq<byte>, end: int, header: seq<byte>, later: seq<int>, w: Walk<Frame>, audioOnly: bool,
                  skip: nat, skip': nat)
    requires Readable(bytes, end) && header == bytes[At(bytes, end)..At(bytes, end) + 12]
    requires Skips(header, audioOnly, skip) || !Wanted(header, audioOnly)
    requires skip' == if Skips(header, audioOnly, skip) then skip - 1 else skip
    requires Walked(bytes, end - Trailer(bytes, end) - 4, later, w, audioOnly, skip')
    ensures Walked(bytes, end, [end] + later, w.After(At(bytes, end)), audioOnly, skip)
  {
    KeyIs(bytes, At(bytes, end));
    LinkedCons(bytes, end, later, w.visited);
    NotTarget(bytes, [At(bytes, end)] + w.visited, header, audioOnly, skip);
    OutcomeCons(bytes, end, later, w.visited, audioOnly, skip, skip', w.result);
  }

  lemma FoundTag(bytes: seq<byte>, end: int, header: seq<byte>, audioOnly: bool, skip: nat)
    requires Readable(bytes, end) && header == bytes[At(bytes, end)..At(bytes, end) + 12]
    requires !Skips(header, audioOnly, skip) && Wanted(header, audioOnly)
    ensures var start := end - Trailer(bytes, end) - 4;
            Walked(bytes, end, [end, start],
                   Walk([At(bytes, end)], Deliver(bytes, start, At(bytes, end) + 12, header, Trailer(bytes, end))),
                   audioOnly, skip)
  {
    KeyIs(bytes, At(bytes, end));
    DeliverFrames(bytes, end, header);
    var ends, tags := [end, end - Trailer(bytes, end) - 4], [At(bytes, end)];
    assert Linked(bytes, ends, tags);
    assert Target(bytes, tags, 0, audioOnly, skip);
  }

  lemma NoTag(bytes: seq<byte>, end: int, audioOnly: bool, skip: nat)
    requires !Readable(bytes, end)
    ensures Walked(bytes, end, [end], Walk([], None), audioOnly, skip)
  {
  }

  /** The walk from an end on */
  ghost function From(bytes: seq<byte>, audioOnly: bool, end: int, skip: nat): Walk<Frame>
    requires end <= |bytes|
  {
    Scan(bytes, audioOnly, |bytes| - end, skip)
  }

  /** The three ways a walk can take */
  lemma WalkPasses(bytes: seq<byte>, audioOnly: bool, end: nat, skip: nat, header: seq<byte>) returns (skip': nat)
    requires Readable(bytes, end) && header == bytes[At(bytes, end)..At(bytes, end) + 12]
    requires Skips(header, audioOnly, skip) || !Wanted(header, audioOnly)
    ensures skip' == if Skips(header, audioOnly, skip) then skip - 1 else skip
    ensures From(bytes, audioOnly, end, skip)
            == From(bytes, audioOnly, end - Trailer(bytes, end) - 4, skip').After(At(bytes, end))
  {
    LookIs(bytes, end);
    skip' := if Skips(header, audioOnly, skip) then skip - 1 else skip;
  }

  lemma WalkFinds(bytes: seq<byte>, audioOnly: bool, end: nat, skip: nat, header: seq<byte>)
    requires Readable(bytes, end) && header == bytes[At(bytes, end)..At(bytes, end) + 12]
    requires !Skips(header, audioOnly, skip) && Wanted(header, audioOnly)
    ensures From(bytes, audioOnly, end, skip)
            == Walk([At(bytes, end)], Deliver(bytes, end - Trailer(bytes, end) - 4, At(bytes, end) + 12, header,
                                              Trailer(bytes, end)))
  {
    LookIs(bytes, end);
  }

  lemma WalkStops(bytes: seq<byte>, audioOnly: bool, end: int, skip: nat)
    requires end <= |bytes| && !Readable(bytes, end)
    ensures From(bytes, audioOnly, end, skip) == Walk([], None)
  {
    if end >= 0 { LookIs(bytes, end); }
  }

  lemma {:induction false} WalkIs(bytes: seq<byte>, audioOnly: bool, end: int, skip: nat) returns (ends: seq<int>)
    requires end <= |bytes|
    ensures Walked(bytes, end, ends, From(bytes, audioOnly, end, skip), audioOnly, skip)
    decreases if end < 0 then 0 else end
  {
    if !Readable(bytes, end) {
      ends := [end];
      WalkStops(bytes, audioOnly, end, skip);
      NoTag(bytes, end, audioOnly, skip);
    } else {
      var start := end - Trailer(bytes, end) - 4;
      var header := bytes[At(bytes, end)..At(bytes, end) + 12];
      if Skips(header, audioOnly, skip) || !Wanted(header, audioOnly) {
        var skip' := WalkPasses(bytes, audioOnly, end, skip, header);
        var later := WalkIs(bytes, audioOnly, start, skip');
        ends := [end] + later;
        PassedTag(bytes, end, header, later, From(bytes, audioOnly, start, skip'), audioOnly, skip, skip');
      } else {
        ends := [end, start];
        WalkFinds(bytes, audioOnly, end, skip, header);
        FoundTag(bytes, end, header, audioOnly, skip);
      }
    }
  }

  /**
   * On any file: the walk reads tags back from the end of the file, each of which ends where the one read before
   * begins, up to the first that is an audio tag or keyframe with `skip` counted ones behind it; and it fails
   * exactly when it meets an end at which no tag can be read, or the file is too short for the content.
   */
  lemma LastKeyframeIs(bytes: seq<byte>, skip: nat) returns (ends: seq<int>)
    requires |bytes| >= 5
    ensures var w := LastKeyframe(bytes, skip);
            && Linked(bytes, ends, w.visited) && ends[0] == |bytes|
            && Outcome(bytes, ends, w.visited, IsAudioOnly(bytes[4]), skip, w.result)
  {
    ends := WalkIs(bytes, IsAudioOnly(bytes[4]), |bytes|, skip);
  }
}
