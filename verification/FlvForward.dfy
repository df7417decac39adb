/** The forward walk of OpenResumeFile (rtmpdump-jni.c) over the tag headers, in search of the metadata tag. */
module FlvForward {
  import opened Wrappers
  import opened Bytes
  import opened FlvFile
  import opened FlvScan
  import opened FlvResume

  /** What the AMF decoder, which is not modelled, makes of a script tag. */
  datatype Meta = Undecodable | Other | OnMetaData

  type Decoder = seq<byte> -> Meta

  const SCRIPT: byte := 0x12

  predicate IsFlv(bytes: seq<byte>) {
    |bytes| >= 13 && bytes[0] == 'F' as int && bytes[1] == 'L' as int && bytes[2] == 'V' as int && bytes[3] == 0x01
    && (bytes[4] % 2 == 1 || bytes[4] / 4 % 2 == 1)
  }

  /** OpenResumeFile on an existing file: whether it accepts it, and the walk it makes. */
  function Open(bytes: seq<byte>, decode: Decoder): (bool, Walk<seq<byte>>) {
    if bytes == [] then (true, Walk([], None))
    else if !IsFlv(bytes) || N2l(bytes[5..9]) + 4 > |bytes| then (false, Walk([], None))
    else (true, Forward(bytes, N2l(bytes[5..9]) + 4, decode))
  }

  /** What the loop does with the tag at a position: go on, or leave with the metadata or without. */
  datatype Verdict = GoOn(next: nat) | Stop(meta: Option<seq<byte>>)

  function Judge(bytes: seq<byte>, pos: nat, decode: Decoder): Verdict
    requires pos + 4 < |bytes|
  {
    var dataSize := N2l3(bytes[pos + 1..pos + 4]);
    var data := ReadAt(bytes, pos + 11, dataSize);
    if bytes[pos] == SCRIPT && (|data| != dataSize || decode(data).Undecodable?) then Stop(None)
    else if bytes[pos] == SCRIPT && decode(data).OnMetaData? then Stop(Some(data))
    else GoOn(pos + dataSize + 11 + 4)
  }

  /** The loop from a position on: the tag positions it reads, and the metadata it finds. */
  function Forward(bytes: seq<byte>, pos: nat, decode: Decoder): Walk<seq<byte>>
    decreases |bytes| - pos
  {
    if pos + 4 >= |bytes| then Walk([], None) else
    var verdict := Judge(bytes, pos, decode);
    if verdict.Stop? then Walk([pos], verdict.meta) else Forward(bytes, verdict.next, decode).After(pos)
  }

  ghost function Onward(bytes: seq<byte>, pos: nat, decode: Decoder, seen: seq<nat>): Walk<seq<byte>> {
    Walk(seen + Forward(bytes, pos, decode).visited, Forward(bytes, pos, decode).result)
  }

  lemma OnwardStep(bytes: seq<byte>, pos: nat, decode: Decoder, seen: seq<nat>)
    requires pos + 4 < |bytes|
    ensures var verdict := Judge(bytes, pos, decode);
            Onward(bytes, pos, decode, seen) ==
            if verdict.Stop? then Walk(seen + [pos], verdict.meta)
            else Onward(bytes, verdict.next, decode, seen + [pos])
  {
    var verdict := Judge(bytes, pos, decode);
    if verdict.GoOn? {
      assert seen + [pos] + Forward(bytes, verdict.next, decode).visited
          == seen + ([pos] + Forward(bytes, verdict.next, decode).visited);
    }
  }

  lemma OnwardEnds(bytes: seq<byte>, pos: nat, decode: Decoder, seen: seq<nat>)
    requires pos + 4 >= |bytes|
    ensures Onward(bytes, pos, decode, seen) == Walk(seen, None)
  {
    assert seen + [] == seen;
  }

  lemma OnwardAtStart(bytes: seq<byte>, pos: nat, decode: Decoder)
    ensures Onward(bytes, pos, decode, []) == Forward(bytes, pos, decode)
  {
    assert [] + Forward(bytes, pos, decode).visited == Forward(bytes, pos, decode).visited;
  }

  /** One iteration of the loop of OpenResumeFile */
  method ReadTag(file: File, pos: nat, decode: Decoder) returns (verdict: Verdict)
    requires pos + 4 < |file.bytes|
    modifies file
    ensures verdict == Judge(file.bytes, pos, decode)
  {
    file.Seek(pos);
    var hbuf := file.Read(4);
    assert hbuf[1..] == file.bytes[pos + 1..pos + 4] && hbuf[0] == file.bytes[pos];
    var dataSize := N2l3(hbuf[1..]);
    if hbuf[0] == SCRIPT {
      file.Seek(pos + 11);
      var buffer := file.Read(dataSize);
      if |buffer| != dataSize { return Stop(None); }
      var kind := decode(buffer);
      if kind.Undecodable? { return Stop(None); }
      if kind.OnMetaData? { return Stop(Some(buffer)); }
    }
    verdict := GoOn(pos + dataSize + 11 + 4);
  }

  /** The loop of OpenResumeFile */
  method FindMeta(file: File, start: nat, decode: Decoder) returns (meta: Option<seq<byte>>, ghost visited: seq<nat>)
    modifies file
    ensures Walk(visited, meta) == Forward(file.bytes, start, decode)
  {
    var pos := start;
    visited := [];
    OnwardAtStart(file.bytes, start, decode);
    while pos < |file.bytes| - 4
      invariant Forward(file.bytes, start, decode) == Onward(file.bytes, pos, decode, visited)
      decreases |file.bytes| - pos
    {
      OnwardStep(file.bytes, pos, decode, visited);
      var verdict := ReadTag(file, pos, decode);
      visited := visited + [pos];
      if verdict.Stop? { return verdict.meta, visited; }
      pos := verdict.next;
    }
    OnwardEnds(file.bytes, pos, decode, visited);
    meta := None;
  }

  /** OpenResumeFile; the duration, an AMF property, is not modelled. */
  method OpenResumeFile(file: File, decode: Decoder)
    returns (ok: bool, meta: Option<seq<byte>>, ghost visited: seq<nat>)
    modifies file
    ensures (ok, Walk(visited, meta)) == Open(file.bytes, decode)
  {
    ok, meta, visited := false, None, [];
    if |file.bytes| == 0 { return true, None, []; }
    file.Seek(0);
    var hbuf := file.Read(13);
    if |hbuf| != 13 { return; }
    if hbuf[0] != 'F' as int || hbuf[1] != 'L' as int || hbuf[2] != 'V' as int || hbuf[3] != 0x01 { return; }
    if hbuf[4] % 2 == 0 && hbuf[4] / 4 % 2 == 0 { return; }
    assert hbuf[5..9] == file.bytes[5..9];
    var dataOffset := N2l(hbuf[5..9]);
    file.Seek(dataOffset);
    hbuf := file.Read(4);
    if |hbuf| != 4 { return; }
    ok := true;
    meta, visited := FindMeta(file, dataOffset + 4, decode);
  }

  // ---- On well-formed files ----

  predicate Halts(t: Tag, decode: Decoder) { t.typ == SCRIPT && !decode(t.data).Other? }

  /** The first tag from `k` on at which the loop leaves */
  function FirstHalt(tags: seq<Tag>, k: nat, decode: Decoder): (m: nat)
    requires k <= |tags|
    ensures k <= m <= |tags| && (m < |tags| ==> Halts(tags[m], decode))
    ensures forall j :: k <= j < m ==> !Halts(tags[j], decode)
    decreases |tags| - k
  {
    if k == |tags| || Halts(tags[k], decode) then k else FirstHalt(tags, k + 1, decode)
  }

  function Found(tags: seq<Tag>, m: nat, decode: Decoder): Option<seq<byte>>
    requires m <= |tags|
  {
    if m < |tags| && decode(tags[m].data).OnMetaData? then Some(tags[m].data) else None
  }

  lemma TagFields(bytes: seq<byte>, start: nat, end: nat, t: Tag)
    requires TagHere(bytes, start, end, t)
    ensures start + 4 < |bytes|
    ensures bytes[start] == t.typ && N2l3(bytes[start + 1..start + 4]) == |t.data|
    ensures ReadAt(bytes, start + 11, |t.data|) == t.data
  {
    HeaderOf(t);
    ContentAt(bytes, start, end, t);
    SliceOfSlice(bytes, start, end, 1, 4);
    assert bytes[start..end][0] == TagBytes(t)[0];
  }

  lemma JudgeTag(bytes: seq<byte>, start: nat, end: nat, t: Tag, decode: Decoder)
    requires start + 4 < |bytes| && end == start + 15 + |t.data|
    requires bytes[start] == t.typ && N2l3(bytes[start + 1..start + 4]) == |t.data|
    requires ReadAt(bytes, start + 11, |t.data|) == t.data
    ensures Judge(bytes, start, decode) ==
            if !Halts(t, decode) then GoOn(end) else Stop(if decode(t.data).OnMetaData? then Some(t.data) else None)
  {
  }

  lemma ForwardAtTag(bytes: seq<byte>, start: nat, end: nat, t: Tag, decode: Decoder)
    requires TagHere(bytes, start, end, t)
    ensures Forward(bytes, start, decode) ==
            if !Halts(t, decode) then Forward(bytes, end, decode).After(start)
            else Walk([start], if decode(t.data).OnMetaData? then Some(t.data) else None)
  {
    TagFields(bytes, start, end, t);
    JudgeTag(bytes, start, end, t, decode);
  }

  /** How many tags the loop reads */
  function ReadUpTo(tags: seq<Tag>, k: nat, decode: Decoder): (n: nat)
    requires k <= |tags|
    ensures k <= n <= |tags|
  {
    var m := FirstHalt(tags, k, decode);
    if m < |tags| then m + 1 else m
  }

  ghost predicate ForwardIs(bytes: seq<byte>, starts: seq<nat>, tags: seq<Tag>, k: nat, decode: Decoder)
    requires |starts| == |tags| + 1 && k <= |tags|
  {
    Forward(bytes, starts[k], decode)
    == Walk(starts[k..ReadUpTo(tags, k, decode)], Found(tags, FirstHalt(tags, k, decode), decode))
  }

  lemma ForwardHalts(bytes: seq<byte>, starts: seq<nat>, tags: seq<Tag>, k: nat, decode: Decoder)
    requires |starts| == |tags| + 1 && k < |tags|
    requires TagHere(bytes, starts[k], starts[k + 1], tags[k]) && Halts(tags[k], decode)
    ensures ForwardIs(bytes, starts, tags, k, decode)
  {
    ForwardAtTag(bytes, starts[k], starts[k + 1], tags[k], decode);
    assert FirstHalt(tags, k, decode) == k;
    assert starts[k..k + 1] == [starts[k]];
  }

  lemma ForwardPasses(bytes: seq<byte>, starts: seq<nat>, tags: seq<Tag>, k: nat, decode: Decoder)
    requires |starts| == |tags| + 1 && k < |tags| && !Halts(tags[k], decode)
    requires Forward(bytes, starts[k], decode) == Forward(bytes, starts[k + 1], decode).After(starts[k])
    requires ForwardIs(bytes, starts, tags, k + 1, decode)
    ensures ForwardIs(bytes, starts, tags, k, decode)
  {
    HaltsLater(tags, k, decode);
    SliceFrom(starts, k, ReadUpTo(tags, k + 1, decode));
  }

  lemma HaltsLater(tags: seq<Tag>, k: nat, decode: Decoder)
    requires k < |tags| && !Halts(tags[k], decode)
    ensures FirstHalt(tags, k, decode) == FirstHalt(tags, k + 1, decode)
    ensures ReadUpTo(tags, k, decode) == ReadUpTo(tags, k + 1, decode)
  {
  }

  lemma SliceFrom(starts: seq<nat>, k: nat, n: nat)
    requires k < n <= |starts|
    ensures starts[k..n] == [starts[k]] + starts[k + 1..n]
  {
  }

  lemma ForwardEnds(bytes: seq<byte>, starts: seq<nat>, tags: seq<Tag>, decode: Decoder)
    requires Cuts(bytes, starts, tags)
    ensures ForwardIs(bytes, starts, tags, |tags|, decode)
  {
    assert starts[|tags|..|tags|] == [];
  }

  /** One tag of the walk, given the rest of it. */
  lemma ForwardStep(bytes: seq<byte>, starts: seq<nat>, tags: seq<Tag>, k: nat, decode: Decoder)
    requires |starts| == |tags| + 1 && k < |tags| && TagHere(bytes, starts[k], starts[k + 1], tags[k])
    requires ForwardIs(bytes, starts, tags, k + 1, decode)
    ensures ForwardIs(bytes, starts, tags, k, decode)
  {
    ForwardAtTag(bytes, starts[k], starts[k + 1], tags[k], decode);
    if Halts(tags[k], decode) {
      ForwardHalts(bytes, starts, tags, k, decode);
    } else {
      ForwardPasses(bytes, starts, tags, k, decode);
    }
  }

  lemma {:induction false} ForwardFrom(bytes: seq<byte>, starts: seq<nat>, tags: seq<Tag>, k: nat, decode: Decoder)
    requires Cuts(bytes, starts, tags) && k <= |tags|
    ensures ForwardIs(bytes, starts, tags, k, decode)
    decreases |tags| - k
  {
    if k == |tags| {
      ForwardEnds(bytes, starts, tags, decode);
    } else {
      ForwardFrom(bytes, starts, tags, k + 1, decode);
      TagAtCut(bytes, starts, tags, k + 1);
      ForwardStep(bytes, starts, tags, k, decode);
    }
  }

  lemma {:induction false} BackwardAt(starts: seq<nat>, k: nat, i: nat, j: nat)
    requires i <= k <= |starts| && j < k - i
    ensures |Backward(starts, k, i)| == k - i && Backward(starts, k, i)[j] == starts[k - 1 - j]
    decreases k
  {
    var rest := Backward(starts, k - 1, i);
    assert Backward(starts, k, i) == [starts[k - 1]] + rest;
    if k - 1 == i {
      assert rest == [];
    } else if j == 0 {
      BackwardAt(starts, k - 1, i, 0);
    } else {
      BackwardAt(starts, k - 1, i, j - 1);
      assert ([starts[k - 1]] + rest)[j] == rest[j - 1];
    }
  }

  /** One list is the other one's end, read backward. */
  ghost predicate ReversesEnd(back: seq<nat>, forward: seq<nat>) {
    |back| <= |forward| && forall j :: 0 <= j < |back| ==> back[j] == forward[|forward| - 1 - j]
  }

  lemma BackwardReverses(starts: seq<nat>, k: nat, i: nat)
    requires i <= k <= |starts|
    ensures ReversesEnd(Backward(starts, k, i), starts[..k])
  {
    if i < k { BackwardAt(starts, k, i, 0); }
    forall j | 0 <= j < |Backward(starts, k, i)| ensures Backward(starts, k, i)[j] == starts[..k][k - 1 - j] {
      BackwardAt(starts, k, i, j);
    }
  }

  /** OpenResumeFile reads the tags up to the first script tag that is metadata or does not decode. */
  lemma OpenOnLayout(head: seq<byte>, tags: seq<Tag>, decode: Decoder)
    requires IsHead(head) && AllValid(tags) && IsFlv(Layout(head, tags))
    ensures Open(Layout(head, tags), decode)
            == (true, Walk(Starts(head, tags)[0..ReadUpTo(tags, 0, decode)],
                           Found(tags, FirstHalt(tags, 0, decode), decode)))
  {
    LayoutCuts(head, tags);
    FirstStart(head, tags);
    ForwardFrom(Layout(head, tags), Starts(head, tags), tags, 0, decode);
    OpenIs(Layout(head, tags), Starts(head, tags)[0], decode);
  }

  lemma OpenIs(bytes: seq<byte>, first: nat, decode: Decoder)
    requires IsFlv(bytes) && N2l(bytes[5..9]) + 4 == first <= |bytes|
    ensures Open(bytes, decode) == (true, Forward(bytes, first, decode))
  {
  }

  lemma FirstStart(head: seq<byte>, tags: seq<Tag>)
    requires IsHead(head) && AllValid(tags)
    ensures Starts(head, tags)[0] == N2l(Layout(head, tags)[5..9]) + 4 <= |Layout(head, tags)|
  {
    assert tags[..0] == [];
    assert Layout(head, tags)[5..9] == head[5..9];
  }

  /**
   * On every well-formed file the forward walk reads a first part of the tag positions and the backward walk a
   * last part of the same positions in the opposite direction; where both come to a tag they read it at the
   * same place.
   */
  lemma WalksAgree(head: seq<byte>, tags: seq<Tag>, skip: nat, decode: Decoder)
    requires IsHead(head) && AllValid(tags) && IsFlv(Layout(head, tags))
    ensures var starts := Starts(head, tags)[..|tags|];
            var back := LastKeyframe(Layout(head, tags), skip).visited;
            var forth := Open(Layout(head, tags), decode).1.visited;
            && ReversesEnd(back, starts)
            && forth == starts[..ReadUpTo(tags, 0, decode)]
            && (forall j :: 0 <= j < |back| && |tags| - 1 - j < |forth| ==> back[j] == forth[|tags| - 1 - j])
  {
    OpenOnLayout(head, tags, decode);
    WellFormedWalk(head, tags, skip);
    var pick := Pick(tags, IsAudioOnly(head[4]), skip);
    BackwardReverses(Starts(head, tags), |tags|, if pick.Some? then pick.value else 0);
    var starts, n := Starts(head, tags)[..|tags|], ReadUpTo(tags, 0, decode);
    assert Starts(head, tags)[0..n] == starts[..n];
    BothRead(LastKeyframe(Layout(head, tags), skip).visited, starts, n);
  }

  lemma BothRead(back: seq<nat>, starts: seq<nat>, n: nat)
    requires ReversesEnd(back, starts) && n <= |starts|
    ensures forall j :: 0 <= j < |back| && |starts| - 1 - j < n ==> back[j] == starts[..n][|starts| - 1 - j]
  {
  }
}
