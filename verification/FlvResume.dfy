/** What the backward walk finds on well-formed files, and that it meets the positions of the forward walk. */
module FlvResume {
  import opened Wrappers
  import opened Bytes
  import opened FlvFile
  import opened FlvScan

  // ---- The frame to find ----

  predicate IsKeyframe(t: Tag) { t.typ == 0x09 && t.data != [] && t.data[0] / 16 == 1 }

  predicate IsWanted(t: Tag, audioOnly: bool) {
    if audioOnly then t.typ == 0x08 else IsKeyframe(t)
  }

  /** From the end: pass `skip` keyframes, or in an audio file `skip` tags, and take the next wanted tag. */
  function Pick(tags: seq<Tag>, audioOnly: bool, skip: nat): (i: Option<nat>)
    ensures i.Some? ==> i.value < |tags|
  {
    if tags == [] then None else
    var n := |tags| - 1;
    if skip > 0 && (audioOnly || IsKeyframe(tags[n])) then Pick(tags[..n], audioOnly, skip - 1)
    else if IsWanted(tags[n], audioOnly) then Some(n)
    else Pick(tags[..n], audioOnly, skip)
  }

  function Keyframes(tags: seq<Tag>): nat {
    if tags == [] then 0
    else Keyframes(tags[..|tags| - 1]) + if IsKeyframe(tags[|tags| - 1]) then 1 else 0
  }

  /** In a video file that is the keyframe with `skip` keyframes behind it; there is none if at most `skip` exist. */
  lemma {:induction false} PickIsNthKeyframe(tags: seq<Tag>, skip: nat)
    ensures var i := Pick(tags, false, skip);
            && (i.None? <==> Keyframes(tags) <= skip)
            && (i.Some? ==> IsKeyframe(tags[i.value]) && Keyframes(tags) == Keyframes(tags[..i.value + 1]) + skip)
    decreases |tags|
  {
    if tags != [] {
      var n := |tags| - 1;
      var left := if skip > 0 && IsKeyframe(tags[n]) then skip - 1 else skip;
      PickIsNthKeyframe(tags[..n], left);
      var i := Pick(tags, false, skip);
      if i == Some(n) {
        assert tags[..n + 1] == tags;
      } else if i.Some? {
        assert tags[..n][..i.value + 1] == tags[..i.value + 1];
      }
    }
  }

  /** In an audio file it is the last audio tag before the last `skip` tags. */
  lemma {:induction false} PickIsLastAudio(tags: seq<Tag>, skip: nat)
    ensures var i, n := Pick(tags, true, skip), |tags| - skip;
            && (i.None? <==> forall j :: 0 <= j < n ==> tags[j].typ != 0x08)
            && (i.Some? ==> i.value < n && tags[i.value].typ == 0x08
                            && forall j :: i.value < j < n ==> tags[j].typ != 0x08)
    decreases |tags|
  {
    if tags != [] {
      PickIsLastAudio(tags[..|tags| - 1], if skip > 0 then skip - 1 else 0);
    }
  }

  // ---- Well-formed files, cut at their tags ----

  predicate TagHere(bytes: seq<byte>, start: nat, end: nat, t: Tag) {
    t.Valid() && start + 15 + |t.data| == end <= |bytes| && bytes[start..end] == TagBytes(t)
  }

  /** `starts` are the starts of the tags and the end of the file. */
  predicate Cuts(bytes: seq<byte>, starts: seq<nat>, tags: seq<Tag>) {
    && |starts| == |tags| + 1 && starts[|tags|] == |bytes|
    && 13 <= starts[0] <= |bytes| && N2l(bytes[starts[0] - 4..starts[0]]) == 0
    && (forall k {:trigger tags[k]} :: 0 <= k < |tags| ==>
          starts[0] <= starts[k] && TagHere(bytes, starts[k], starts[k + 1], tags[k]))
  }

  function Starts(head: seq<byte>, tags: seq<Tag>): seq<nat> {
    seq(|tags| + 1, k requires 0 <= k <= |tags| => Start(head, tags, k))
  }

  lemma LayoutCuts(head: seq<byte>, tags: seq<Tag>)
    requires IsHead(head) && AllValid(tags)
    ensures Cuts(Layout(head, tags), Starts(head, tags), tags)
  {
    var bytes, starts := Layout(head, tags), Starts(head, tags);
    assert tags[..0] == [] && tags[..|tags|] == tags;
    assert bytes[|head|..|head| + 4] == L2n(0);
    Write32ThenRead(0);
    forall k | 0 <= k < |tags| ensures starts[0] <= starts[k] && TagHere(bytes, starts[k], starts[k + 1], tags[k]) {
      TagAt(head, tags, k);
    }
  }

  // ---- One step back over a tag ----

  lemma HeaderBytes(t: Tag, header: seq<byte>)
    requires t.Valid() && header == TagBytes(t)[..12]
    ensures header[0] == t.typ && IsKey(header) == IsKeyframe(t)
    ensures forall audioOnly :: Wanted(header, audioOnly) == IsWanted(t, audioOnly)
    ensures var top: int := header[7]; N2l3(header[4..7]) + 0x100_0000 * top == t.timestamp
  {
    HeaderOf(t);
    var s := TagBytes(t);
    assert header[4..7] == s[4..7];
    if t.data == [] {
      assert s[11..] == L2n(11);
      assert header[11] == s[11..][0] == 0;
    } else {
      assert s[11] == s[11..11 + |t.data|][0];
    }
  }

  lemma LookHere(bytes: seq<byte>, start: nat, end: nat, t: Tag)
    requires TagHere(bytes, start, end, t) && start >= 13
    ensures Look(bytes, |bytes| - end) == Some(Sight(11 + |t.data|, start, TagBytes(t)[..12]))
  {
    TrailerOf(t);
    SliceOfSlice(bytes, start, end, 0, 12);
    SliceOfSlice(bytes, start, end, 11 + |t.data|, 15 + |t.data|);
  }

  lemma ContentAt(bytes: seq<byte>, start: nat, end: nat, t: Tag)
    requires TagHere(bytes, start, end, t)
    ensures ReadAt(bytes, start + 11, |t.data|) == t.data
  {
    HeaderOf(t);
    SliceOfSlice(bytes, start, end, 11, 11 + |t.data|);
  }

  /** The frame of a tag that ends there. With a zero timestamp the cursor stays before the trailer. */
  function FrameOf(t: Tag, end: nat): Frame {
    Frame(t.timestamp, t.data, t.typ, if t.timestamp != 0 || end < 4 then end else end - 4)
  }

  lemma DeliverIs(bytes: seq<byte>, start: nat, header: seq<byte>, content: seq<byte>, seek: nat)
    requires |header| == 12 && |content| < 0x100_0000 && ReadAt(bytes, start + 11, |content|) == content
    requires var top: int := header[7]; N2l3(header[4..7]) + 0x100_0000 * top == seek
    ensures Deliver(bytes, start, start + 12, header, 11 + |content|)
            == Some(Frame(seek, content, header[0], start + |content| + if seek != 0 then 15 else 11))
  {
    assert (11 + |content| - 11) % 0x1_0000_0000 == |content|;
  }

  lemma DeliverTag(bytes: seq<byte>, start: nat, end: nat, t: Tag)
    requires TagHere(bytes, start, end, t)
    ensures Deliver(bytes, start, start + 12, TagBytes(t)[..12], 11 + |t.data|) == Some(FrameOf(t, end))
  {
    var header := TagBytes(t)[..12];
    HeaderBytes(t, header);
    ContentAt(bytes, start, end, t);
    DeliverIs(bytes, start, header, t.data, t.timestamp);
  }

  /** The walk goes on behind the tag, with `left` frames to skip. */
  predicate Passes(t: Tag, audioOnly: bool, skip: nat, left: nat) {
    if skip > 0 && (audioOnly || IsKeyframe(t)) then left == skip - 1 else left == skip && !IsWanted(t, audioOnly)
  }

  lemma ScanPasses(bytes: seq<byte>, start: nat, end: nat, t: Tag, audioOnly: bool, skip: nat, left: nat)
    requires TagHere(bytes, start, end, t) && start >= 13
    requires Passes(t, audioOnly, skip, left)
    ensures Scan(bytes, audioOnly, |bytes| - end, skip) == Scan(bytes, audioOnly, |bytes| - start, left).After(start)
  {
    LookHere(bytes, start, end, t);
    HeaderBytes(t, TagBytes(t)[..12]);
    assert |bytes| - end + (11 + |t.data|) + 4 == |bytes| - start;
  }

  lemma ScanStops(bytes: seq<byte>, start: nat, end: nat, t: Tag, audioOnly: bool, skip: nat)
    requires TagHere(bytes, start, end, t) && start >= 13
    requires !(skip > 0 && (audioOnly || IsKeyframe(t))) && IsWanted(t, audioOnly)
    ensures Scan(bytes, audioOnly, |bytes| - end, skip) == Walk([start], Some(FrameOf(t, end)))
  {
    LookHere(bytes, start, end, t);
    HeaderBytes(t, TagBytes(t)[..12]);
    DeliverTag(bytes, start, end, t);
    assert |bytes| - (|bytes| - end + (11 + |t.data|) + 4) == start;
  }

  lemma ScanAtFirst(bytes: seq<byte>, start: nat, audioOnly: bool, skip: nat)
    requires 13 <= start <= |bytes| && N2l(bytes[start - 4..start]) == 0
    ensures Scan(bytes, audioOnly, |bytes| - start, skip) == Walk([], None)
  {
  }

  // ---- The backward walk ----

  /** Tag starts before number `k`, down to number `i` */
  function Backward(starts: seq<nat>, k: nat, i: nat): seq<nat>
    requires i <= k <= |starts|
    decreases k
  {
    if k == i then [] else [starts[k - 1]] + Backward(starts, k - 1, i)
  }

  /** The walk that should be seen: back to the frame's tag, or to the first tag. */
  function Expected(starts: seq<nat>, tags: seq<Tag>, k: nat, i: Option<nat>): Walk<Frame>
    requires |starts| == |tags| + 1 && k <= |tags| && (i.Some? ==> i.value < k)
  {
    if i.None? then Walk(Backward(starts, k, 0), None)
    else Walk(Backward(starts, k, i.value), Some(FrameOf(tags[i.value], starts[i.value + 1])))
  }

  lemma ExpectedStep(starts: seq<nat>, tags: seq<Tag>, k: nat, i: Option<nat>)
    requires |starts| == |tags| + 1 && 1 <= k <= |tags| && (i.Some? ==> i.value < k - 1)
    ensures Expected(starts, tags, k, i) == Expected(starts, tags, k - 1, i).After(starts[k - 1])
  {
  }

  lemma ExpectedEnd(starts: seq<nat>, tags: seq<Tag>, k: nat, i: Option<nat>)
    requires |starts| == |tags| + 1 && 1 <= k <= |tags| && i == Some(k - 1)
    ensures Expected(starts, tags, k, i) == Walk([starts[k - 1]], Some(FrameOf(tags[k - 1], starts[k])))
  {
    assert Backward(starts, k, k - 1) == [starts[k - 1]] + Backward(starts, k - 1, k - 1);
  }

  lemma PickStep(tags: seq<Tag>, audioOnly: bool, k: nat, skip: nat)
    requires 1 <= k <= |tags|
    ensures Pick(tags[..k], audioOnly, skip) ==
            if skip > 0 && (audioOnly || IsKeyframe(tags[k - 1])) then Pick(tags[..k - 1], audioOnly, skip - 1)
            else if IsWanted(tags[k - 1], audioOnly) then Some(k - 1)
            else Pick(tags[..k - 1], audioOnly, skip)
  {
    assert tags[..k][..k - 1] == tags[..k - 1];
  }

  /** The walk from the start of tag `k` is the one that leads to tag `i`. */
  ghost predicate Leads(bytes: seq<byte>, starts: seq<nat>, tags: seq<Tag>,
                        audioOnly: bool, k: nat, skip: nat, i: Option<nat>)
    requires |starts| == |tags| + 1 && k <= |tags|
  {
    && (i.Some? ==> i.value < k)
    && starts[k] <= |bytes|
    && Scan(bytes, audioOnly, |bytes| - starts[k], skip) == Expected(starts, tags, k, i)
  }

  lemma TagAtCut(bytes: seq<byte>, starts: seq<nat>, tags: seq<Tag>, k: nat)
    requires Cuts(bytes, starts, tags) && 1 <= k <= |tags|
    ensures 13 <= starts[k - 1] && TagHere(bytes, starts[k - 1], starts[k], tags[k - 1])
  {
    var j := k - 1;
    assert TagHere(bytes, starts[j], starts[j + 1], tags[j]);
  }

  lemma PassesAt(bytes: seq<byte>, starts: seq<nat>, tags: seq<Tag>, audioOnly: bool, k: nat, skip: nat, left: nat)
    requires Cuts(bytes, starts, tags) && 1 <= k <= |tags|
    requires Passes(tags[k - 1], audioOnly, skip, left)
    ensures starts[k - 1] <= starts[k] <= |bytes|
    ensures Scan(bytes, audioOnly, |bytes| - starts[k], skip)
            == Scan(bytes, audioOnly, |bytes| - starts[k - 1], left).After(starts[k - 1])
  {
    TagAtCut(bytes, starts, tags, k);
    ScanPasses(bytes, starts[k - 1], starts[k], tags[k - 1], audioOnly, skip, left);
  }

  lemma LeadsFurther(bytes: seq<byte>, starts: seq<nat>, tags: seq<Tag>,
                     audioOnly: bool, k: nat, skip: nat, left: nat, i: Option<nat>)
    requires |starts| == |tags| + 1 && 1 <= k <= |tags| && starts[k] <= |bytes|
    requires Leads(bytes, starts, tags, audioOnly, k - 1, left, i)
    requires Scan(bytes, audioOnly, |bytes| - starts[k], skip)
             == Scan(bytes, audioOnly, |bytes| - starts[k - 1], left).After(starts[k - 1])
    ensures Leads(bytes, starts, tags, audioOnly, k, skip, i)
  {
    ExpectedStep(starts, tags, k, i);
  }

  lemma LeadsHere(bytes: seq<byte>, starts: seq<nat>, tags: seq<Tag>,
                        audioOnly: bool, k: nat, skip: nat, i: Option<nat>)
    requires Cuts(bytes, starts, tags) && 1 <= k <= |tags| && i == Some(k - 1)
    requires !(skip > 0 && (audioOnly || IsKeyframe(tags[k - 1]))) && IsWanted(tags[k - 1], audioOnly)
    ensures Leads(bytes, starts, tags, audioOnly, k, skip, i)
  {
    TagAtCut(bytes, starts, tags, k);
    ScanStops(bytes, starts[k - 1], starts[k], tags[k - 1], audioOnly, skip);
    ExpectedEnd(starts, tags, k, i);
  }

  lemma LeadsNowhere(bytes: seq<byte>, starts: seq<nat>, tags: seq<Tag>, audioOnly: bool, skip: nat)
    requires Cuts(bytes, starts, tags)
    ensures Leads(bytes, starts, tags, audioOnly, 0, skip, None)
  {
    ScanAtFirst(bytes, starts[0], audioOnly, skip);
  }

  lemma {:induction false} ScanFrom(bytes: seq<byte>, starts: seq<nat>, tags: seq<Tag>, audioOnly: bool,
                                    k: nat, skip: nat)
    requires Cuts(bytes, starts, tags) && k <= |tags|
    ensures Leads(bytes, starts, tags, audioOnly, k, skip, Pick(tags[..k], audioOnly, skip))
    decreases k
  {
    var i := Pick(tags[..k], audioOnly, skip);
    if k == 0 {
      LeadsNowhere(bytes, starts, tags, audioOnly, skip);
    } else {
      PickStep(tags, audioOnly, k, skip);
      var passes := skip > 0 && (audioOnly || IsKeyframe(tags[k - 1]));
      if passes || !IsWanted(tags[k - 1], audioOnly) {
        var left := if passes then skip - 1 else skip;
        ScanFrom(bytes, starts, tags, audioOnly, k - 1, left);
        PassesAt(bytes, starts, tags, audioOnly, k, skip, left);
        LeadsFurther(bytes, starts, tags, audioOnly, k, skip, left, i);
      } else {
        LeadsHere(bytes, starts, tags, audioOnly, k, skip, i);
      }
    }
  }

  /** On every well-formed file the walk ends at the tag that Pick names, or fails when there is none. */
  lemma WellFormedWalk(head: seq<byte>, tags: seq<Tag>, skip: nat)
    requires IsHead(head) && AllValid(tags)
    ensures var audioOnly := IsAudioOnly(head[4]);
            LastKeyframe(Layout(head, tags), skip)
            == Expected(Starts(head, tags), tags, |tags|, Pick(tags, audioOnly, skip))
  {
    var bytes := Layout(head, tags);
    LayoutCuts(head, tags);
    ScanFrom(bytes, Starts(head, tags), tags, IsAudioOnly(head[4]), |tags|, skip);
    assert tags[..|tags|] == tags;
    assert bytes[4] == head[4];
  }

  /**
   * In a well-formed video file GetLastKeyframe fails exactly when at most `skip` keyframes exist. Otherwise
   * it returns timestamp, data and type of the keyframe with `skip` keyframes behind it, and leaves the file
   * behind that tag exactly when the timestamp is not zero. It has read the tags from the last one back.
   */
  lemma VideoResume(head: seq<byte>, tags: seq<Tag>, skip: nat) returns (i: nat)
    requires IsHead(head) && AllValid(tags) && !IsAudioOnly(head[4])
    ensures var w := LastKeyframe(Layout(head, tags), skip);
            && (w.result.None? <==> Keyframes(tags) <= skip)
            && (w.result.Some? ==>
                  && i < |tags| && IsKeyframe(tags[i]) && Keyframes(tags) == Keyframes(tags[..i + 1]) + skip
                  && w.result.value.seek == tags[i].timestamp
                  && w.result.value.content == tags[i].data && w.result.value.frameType == tags[i].typ
                  && (w.result.value.cursor == Start(head, tags, i + 1) <==> tags[i].timestamp != 0))
            && w.visited == Backward(Starts(head, tags), |tags|, if w.result.Some? then i else 0)
  {
    WellFormedWalk(head, tags, skip);
    PickIsNthKeyframe(tags, skip);
    var pick := Pick(tags, false, skip);
    i := if pick.Some? then pick.value else 0;
  }

  /** The same in an audio file, for the last audio tag before the last `skip` tags of any kind. */
  lemma AudioResume(head: seq<byte>, tags: seq<Tag>, skip: nat) returns (i: nat)
    requires IsHead(head) && AllValid(tags) && IsAudioOnly(head[4])
    ensures var w := LastKeyframe(Layout(head, tags), skip);
            && (w.result.None? <==> forall j :: 0 <= j < |tags| - skip ==> tags[j].typ != 0x08)
            && (w.result.Some? ==>
                  && i < |tags| - skip && tags[i].typ == 0x08
                  && (forall j :: i < j < |tags| - skip ==> tags[j].typ != 0x08)
                  && w.result == Some(FrameOf(tags[i], Start(head, tags, i + 1))))
            && w.visited == Backward(Starts(head, tags), |tags|, if w.result.Some? then i else 0)
  {
    WellFormedWalk(head, tags, skip);
    PickIsLastAudio(tags, skip);
    var pick := Pick(tags, true, skip);
    i := if pick.Some? then pick.value else 0;
  }
}
