/** The streaming collector of md32_common.h: HASH_UPDATE and HASH_FINAL over a block function. */
module HashCollector {
  import opened Bytes
  import opened HashPadding

  class HashCtx<H> {
    const compress: (H, seq<byte>) -> H
    const order: Order
    ghost const init: H
    var h: H
    var Nl: nat
    var Nh: nat
    const data: array<byte>
    var num: nat
    ghost var done: seq<byte>     // the octets that went through the block function
    ghost var tail: seq<byte>     // the octets still waiting in data

    ghost function Message(): seq<byte>
      reads this
    {
      done + tail
    }

    /** data holds the unprocessed tail followed by zeros, and the state is the fold over all whole blocks. */
    ghost predicate Buffered()
      reads this, data
    {
      && data.Length == CBLOCK
      && num == |tail| < CBLOCK
      && data[..num] == tail
      && (forall i :: num <= i < CBLOCK ==> data[i] == 0)
      && IsFold(compress, init, done, h)
    }

    /** Besides, (Nh, Nl) is the length in bits modulo 2^64. */
    ghost predicate Valid()
      reads this, data
    {
      Buffered() && Counts(Nh, Nl, |Message()|)
    }

    /** num is the length modulo the block size, so the tail is what a one-shot hash would have left. */
    lemma NumIsRemainder()
      requires Buffered()
      ensures num == |Message()| % CBLOCK
    {
      DivModUnique(|Message()|, CBLOCK, |done| / CBLOCK, num);
    }

    constructor (compress: (H, seq<byte>) -> H, init: H, order: Order)
      ensures Valid() && Message() == [] && this.init == init && this.compress == compress && this.order == order
      ensures fresh(data)
    {
      this.compress, this.init, this.order := compress, init, order;
      h := init;
      Nl, Nh, num := 0, 0, 0;
      data := new byte[CBLOCK];
      done, tail := [], [];
      new;
      Clear(0, CBLOCK);
      CountsZero();
      FoldNothing(compress, init);
    }

    /** memset to zero from `at` up to `end` */
    method Clear(at: nat, end: nat)
      requires at <= end <= data.Length
      modifies data
      ensures forall i :: 0 <= i < data.Length ==> data[i] == if at <= i < end then 0 else old(data[i])
    {
      forall i | at <= i < end { data[i] := 0; }
    }

    /** The two-word bit counter takes `len` more octets. */
    method Count(len: nat, ghost was: nat)
      requires Counts(Nh, Nl, was)
      modifies this`Nl, this`Nh
      ensures Counts(Nh, Nl, was + len)
    {
      var l := (Nl + (len % WORD) * 8 % WORD) % WORD;
      if l < Nl { Nh := (Nh + 1) % WORD; }
      Nh := (Nh + (len / 0x2000_0000) % WORD) % WORD;
      Nl := l;
      CountMore(old(Nh), old(Nl), was, len, Nh, Nl);
    }

    /** HASH_BLOCK_DATA_ORDER over whole blocks */
    method Blocks(s: seq<byte>)
      requires |s| % CBLOCK == 0
      modifies this`h
      ensures h == Fold(compress, old(h), s)
    {
      var i := 0;
      while i < |s|
        invariant 0 <= i <= |s| && i % CBLOCK == 0
        invariant Fold(compress, old(h), s) == Fold(compress, h, s[i..])
      {
        assert s[i..][..CBLOCK] == s[i..i + CBLOCK] && s[i..][CBLOCK..] == s[i + CBLOCK..];
        h := compress(h, s[i..i + CBLOCK]);
        i := i + CBLOCK;
      }
      assert s[i..] == [];
    }

    /** memcpy into data */
    method Store(at: nat, s: seq<byte>)
      requires at + |s| <= data.Length
      modifies data
      ensures data[..] == old(data[..at]) + s + old(data[at + |s|..])
    {
      forall i | 0 <= i < |s| { data[at + i] := s[i]; }
      assert data[..] == data[..at] + data[at..at + |s|] + data[at + |s|..];
    }

    /** The buffered tail is completed to a block. */
    method CompleteBlock(input: seq<byte>) returns (rest: seq<byte>)
      requires Buffered() && num != 0 && |input| + num >= CBLOCK
      modifies this`h, this`num, this`done, this`tail, data
      ensures Buffered() && tail == [] && done + rest == old(Message()) + input
    {
      var n := CBLOCK - num;
      Store(num, input[..n]);
      ghost var block := tail + input[..n];
      assert data[..] == block;
      FoldMore(compress, init, done, block, h);
      Blocks(data[..]);
      rest := input[n..];
      num := 0;
      Clear(0, CBLOCK);
      assert done + tail + input == done + block + rest;
      done, tail := done + block, [];
    }

    /** Whole blocks straight from the input, and what is left into data. */
    method AbsorbRest(input: seq<byte>)
      requires Buffered() && tail == []
      modifies this`h, this`num, this`done, this`tail, data
      ensures Buffered() && Message() == old(done) + input
    {
      var rest := input;
      var n := |rest| / CBLOCK;
      if n > 0 {
        ghost var blocks := rest[..n * CBLOCK];
        assert |blocks| % CBLOCK == 0;
        FoldMore(compress, init, done, blocks, h);
        Blocks(rest[..n * CBLOCK]);
        assert done + blocks + rest[n * CBLOCK..] == done + rest;
        done := done + blocks;
        rest := rest[n * CBLOCK..];
      }
      if |rest| != 0 {
        num := |rest|;
        Store(0, rest);
      }
      tail := rest;
    }

    /** HASH_UPDATE */
    method Update(input: seq<byte>)
      requires Valid()
      modifies this`h, this`Nl, this`Nh, this`num, this`done, this`tail, data
      ensures Valid() && Message() == old(Message()) + input
    {
      if |input| == 0 {
        assert Message() + input == Message();
        return;
      }
      Count(|input|, |Message()|);
      var rest := input;
      if num != 0 {
        if |input| >= CBLOCK || |input| + num >= CBLOCK {
          rest := CompleteBlock(input);
        } else {
          KeepAll(input);
          return;
        }
      }
      AbsorbRest(rest);
    }

    /** Input that does not complete a block is only buffered. */
    method KeepAll(input: seq<byte>)
      requires Buffered() && |input| + num < CBLOCK
      modifies this`num, this`tail, data
      ensures Buffered() && Message() == old(Message()) + input
    {
      Store(num, input);
      assert data[..num + |input|] == data[..][..num + |input|];
      num := num + |input|;
      assert done + (tail + input) == done + tail + input;
      tail := tail + input;
    }

    /** The bit count into the last eight octets. */
    method StoreLength(ghost len: nat)
      requires data.Length == CBLOCK && Counts(Nh, Nl, len)
      modifies data
      ensures data[..] == old(data[..CBLOCK - 8]) + Octets(8 * len, 8, order)
    {
      var first := if order.BigEndian? then Nh else Nl;
      var second := if order.BigEndian? then Nl else Nh;
      LengthFromWords(Nh, Nl, len, order);
      StoreWords(first, second);
      assert data[..] == old(data[..CBLOCK - 8]) + (HostL2c(first, order) + HostL2c(second, order));
    }

    method StoreWords(first: nat, second: nat)
      requires data.Length == CBLOCK && first < WORD && second < WORD
      modifies data
      ensures data[..] == old(data[..CBLOCK - 8]) + HostL2c(first, order) + HostL2c(second, order)
    {
      ghost var front := data[..CBLOCK - 8];
      Store(CBLOCK - 8, HostL2c(first, order));
      assert data[..CBLOCK - 4] == front + HostL2c(first, order);
      Store(CBLOCK - 4, HostL2c(second, order));
      assert data[..] == front + HostL2c(first, order) + HostL2c(second, order);
    }

    /** 0x80 after the tail; when the length no longer fits, that block goes first. */
    method StoreMarker() returns (n: nat)
      requires Buffered()
      modifies this`h, data
      ensures n <= CBLOCK - 8
      ensures num + 1 <= CBLOCK - 8 ==> n == num + 1 && data[..n] == tail + [0x80] && h == old(h)
      ensures num + 1 > CBLOCK - 8 ==> n == 0 && h == Fold(compress, old(h), MarkerBlock(tail))
    {
      n := num;
      data[n] := 0x80;
      assert data[..n + 1] == tail + [0x80];
      n := n + 1;
      if n > CBLOCK - 8 {
        Clear(n, CBLOCK);
        assert data[..] == MarkerBlock(tail);
        Blocks(data[..]);
        n := 0;
      }
    }

    /** The rest of the last block, and its way through the block function */
    method FinishBlock(n: nat, ghost front: seq<byte>)
      requires n == |front| <= CBLOCK - 8 && data.Length == CBLOCK && data[..n] == front
      requires Counts(Nh, Nl, |Message()|)
      modifies this`h, data
      ensures h == Fold(compress, old(h), LastBlock(front, |Message()|, order))
    {
      Clear(n, CBLOCK - 8);
      assert data[..CBLOCK - 8] == front + Zeros(CBLOCK - 8 - n);
      StoreLength(|Message()|);
      Blocks(data[..]);
    }

    /** HASH_FINAL: the state becomes that of the whole padded message. */
    method Final()
      requires Valid()
      modifies this`h, this`num, data
      ensures h == OneShot(compress, init, Message(), order)
      ensures num == 0 && data.Length == CBLOCK && forall i :: 0 <= i < CBLOCK ==> data[i] == 0
    {
      if num + 1 <= CBLOCK - 8 {
        FoldPaddedShort(compress, init, done, tail, order);
      } else {
        FoldPaddedLong(compress, init, done, tail, order);
      }
      var n := StoreMarker();
      FinishBlock(n, if num + 1 <= CBLOCK - 8 then tail + [0x80] else []);
      num := 0;
      Clear(0, CBLOCK);
    }
  }

  function Concat(chunks: seq<seq<byte>>): seq<byte> {
    if chunks == [] then [] else Concat(chunks[..|chunks| - 1]) + chunks[|chunks| - 1]
  }

  /** However the input is cut into chunks, the digest is that of the whole padded message. */
  method HashChunks<H>(compress: (H, seq<byte>) -> H, init: H, order: Order, chunks: seq<seq<byte>>) returns (h: H)
    ensures h == OneShot(compress, init, Concat(chunks), order)
  {
    var c := new HashCtx(compress, init, order);
    var i := 0;
    while i < |chunks|
      invariant 0 <= i <= |chunks| && c.Valid() && fresh(c) && fresh(c.data)
      invariant c.Message() == Concat(chunks[..i]) && c.compress == compress && c.init == init && c.order == order
    {
      c.Update(chunks[i]);
      assert chunks[..i + 1][..i] == chunks[..i];
      i := i + 1;
    }
    assert chunks[..i] == chunks;
    c.Final();
    h := c.h;
  }
}
