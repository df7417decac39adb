/** FLV files: their layout (Annex E.2 to E.4 of the Adobe FLV specification, version 10.1) and how they are read. */
module FlvFile {
  import opened Bytes

  /** AMF_DecodeInt24 is N2l3; this is AMF_DecodeInt32. */
  function N2l(s: seq<byte>): (n: nat)
    requires |s| == 4
  {
    var top: int := s[0];
    0x100_0000 * top + N2l3(s[1..])
  }

  function L2n(n: nat): (s: seq<byte>)
    ensures |s| == 4
  {
    [(n / 0x100_0000) % 256] + L2n3(n)
  }

  lemma Write32ThenRead(n: nat)
    requires n < 0x1_0000_0000
    ensures N2l(L2n(n)) == n
  {
    WriteThenRead(n);
    assert L2n(n)[1..] == L2n3(n);
  }

  /** A tag; the timestamp's upper eight bits are stored after the lower twenty-four. */
  datatype Tag = Tag(typ: byte, timestamp: nat, stream: seq<byte>, data: seq<byte>)
  {
    predicate Valid() { timestamp < 0x1_0000_0000 && |stream| == 3 && |data| < 0x100_0000 }
  }

  function Header(t: Tag): (s: seq<byte>)
    requires t.Valid()
    ensures |s| == 11
  {
    [t.typ] + L2n3(|t.data|) + L2n3(t.timestamp) + [t.timestamp / 0x100_0000] + t.stream
  }

  /** A tag and the size trailer behind it */
  function TagBytes(t: Tag): (s: seq<byte>)
    requires t.Valid()
    ensures |s| == 15 + |t.data|
  {
    Header(t) + t.data + L2n(11 + |t.data|)
  }

  predicate AllValid(tags: seq<Tag>) {
    forall i :: 0 <= i < |tags| ==> tags[i].Valid()
  }

  function Size(tags: seq<Tag>): nat {
    if tags == [] then 0 else Size(tags[..|tags| - 1]) + 15 + |tags[|tags| - 1].data|
  }

  function Body(tags: seq<Tag>): (s: seq<byte>)
    requires AllValid(tags)
    ensures |s| == Size(tags)
  {
    if tags == [] then [] else Body(tags[..|tags| - 1]) + TagBytes(tags[|tags| - 1])
  }

  /** A file: its header of `dataOffset` bytes, a zero size, and the tags. */
  function Layout(head: seq<byte>, tags: seq<Tag>): seq<byte>
    requires AllValid(tags)
  {
    head + L2n(0) + Body(tags)
  }

  predicate IsHead(head: seq<byte>) {
    |head| >= 9 && N2l(head[5..9]) == |head|
  }

  /** Where tag `k` starts; the last start is the end of the file. */
  function Start(head: seq<byte>, tags: seq<Tag>, k: nat): nat
    requires k <= |tags|
  {
    |head| + 4 + Size(tags[..k])
  }

  lemma StartNext(head: seq<byte>, tags: seq<Tag>, k: nat)
    requires k < |tags|
    ensures Start(head, tags, k + 1) == Start(head, tags, k) + 15 + |tags[k].data|
  {
    assert tags[..k + 1][..k] == tags[..k];
  }

  lemma {:induction false} BodyPrefix(tags: seq<Tag>, k: nat)
    requires AllValid(tags) && k <= |tags|
    ensures AllValid(tags[..k]) && |Body(tags[..k])| <= |Body(tags)|
    ensures Body(tags)[..|Body(tags[..k])|] == Body(tags[..k])
    decreases |tags|
  {
    if k == |tags| {
      assert tags[..k] == tags;
    } else {
      var init := tags[..|tags| - 1];
      BodyPrefix(init, k);
      assert init[..k] == tags[..k];
      assert Body(tags)[..|Body(tags[..k])|] == Body(init)[..|Body(tags[..k])|];
    }
  }

  lemma SliceOfSlice(s: seq<byte>, a: nat, b: nat, c: nat, d: nat)
    requires a <= b <= |s| && c <= d <= b - a
    ensures s[a..b][c..d] == s[a + c..a + d]
  {
    forall i | 0 <= i < d - c ensures s[a..b][c..d][i] == s[a + c..a + d][i] { assert s[a..b][c + i] == s[a + c + i]; }
  }

  lemma SliceBehind(first: seq<byte>, s: seq<byte>, a: nat, b: nat)
    requires a <= b <= |s|
    ensures (first + s)[|first| + a..|first| + b] == s[a..b]
  {
  }

  /** What lies between two starts is the tag. */
  lemma TagAt(head: seq<byte>, tags: seq<Tag>, k: nat)
    requires AllValid(tags) && k < |tags|
    ensures Start(head, tags, k) + 15 + |tags[k].data| == Start(head, tags, k + 1) <= |Layout(head, tags)|
    ensures Layout(head, tags)[Start(head, tags, k)..Start(head, tags, k + 1)] == TagBytes(tags[k])
  {
    StartNext(head, tags, k);
    TagInBody(tags, k);
    SliceBehind(head + L2n(0), Body(tags), Size(tags[..k]), Size(tags[..k + 1]));
  }

  lemma TagInBody(tags: seq<Tag>, k: nat)
    requires AllValid(tags) && k < |tags|
    ensures Size(tags[..k]) <= Size(tags[..k + 1]) <= |Body(tags)|
    ensures Body(tags)[Size(tags[..k])..Size(tags[..k + 1])] == TagBytes(tags[k])
  {
    BodyPrefix(tags, k + 1);
    var upto := tags[..k + 1];
    assert upto[..k] == tags[..k] && upto[k] == tags[k];
    var a, b := Size(tags[..k]), Size(upto);
    SliceOfSlice(Body(tags), 0, b, a, b);
    SliceBehind(Body(tags[..k]), TagBytes(tags[k]), 0, b - a);
  }

  /** The last four bytes of a tag are its size without them. */
  lemma TrailerOf(t: Tag)
    requires t.Valid()
    ensures N2l(TagBytes(t)[11 + |t.data|..]) == 11 + |t.data|
  {
    assert TagBytes(t)[11 + |t.data|..] == L2n(11 + |t.data|);
    Write32ThenRead(11 + |t.data|);
  }

  /** The type, the size and the timestamp come back from a tag's bytes. */
  lemma HeaderOf(t: Tag)
    requires t.Valid()
    ensures var s := TagBytes(t);
            && s[0] == t.typ && N2l3(s[1..4]) == |t.data| && s[11..11 + |t.data|] == t.data
            && (var top: int := s[7]; N2l3(s[4..7]) + 0x100_0000 * top == t.timestamp)
  {
    SevenParts([t.typ], L2n3(|t.data|), L2n3(t.timestamp), [t.timestamp / 0x100_0000], t.stream, t.data,
             L2n(11 + |t.data|));
    WriteThenRead(|t.data|);
    WriteThenRead(t.timestamp);
  }

  lemma SevenParts(a: seq<byte>, b: seq<byte>, c: seq<byte>, d: seq<byte>, e: seq<byte>,
                   data: seq<byte>, tail: seq<byte>)
    requires |a| == 1 && |b| == 3 && |c| == 3 && |d| == 1 && |e| == 3
    ensures var s := a + b + c + d + e + data + tail;
            && s[0] == a[0] && s[1..4] == b && s[4..7] == c && s[7] == d[0] && s[11..11 + |data|] == data
  {
    var head := a + b + c + d + e;
    assert head[1..4] == b && head[4..7] == c;
    assert (head + data + tail)[..11] == head;
  }

  // ---- Reading ----

  /** fread at a position */
  function ReadAt(bytes: seq<byte>, pos: nat, n: nat): (s: seq<byte>)
    ensures |s| <= n
  {
    if pos >= |bytes| then [] else if pos + n <= |bytes| then bytes[pos..pos + n] else bytes[pos..]
  }

  /** A file open for reading and its position */
  class File {
    const bytes: seq<byte>
    var pos: nat

    constructor (bytes: seq<byte>)
      ensures this.bytes == bytes && pos == 0
    {
      this.bytes, pos := bytes, 0;
    }

    /** fseeko from the start; seeking before it fails and moves nothing. */
    method Seek(to: int)
      modifies this
      ensures pos == if to >= 0 then to else old(pos)
    {
      if to >= 0 { pos := to; }
    }

    /** fread */
    method Read(n: nat) returns (s: seq<byte>)
      modifies this
      ensures s == ReadAt(bytes, old(pos), n) && pos == old(pos) + |s|
    {
      s := ReadAt(bytes, pos, n);
      pos := pos + |s|;
    }
  }
}
