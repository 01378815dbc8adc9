/** Reading a byte range out of a response body that arrives in chunks. */
module BinaryChunk {
  import opened Common

  /** The body that chunks spell, empty chunks included. */
  function Body(chunks: seq<seq<Byte>>): seq<Byte> {
    if chunks == [] then [] else Body(chunks[..|chunks| - 1]) + chunks[|chunks| - 1]
  }

  /** The range that the caller asked for. */
  function Range(body: seq<Byte>, skip: nat, max: nat): seq<Byte> {
    body[Min(skip, |body|)..Min(skip + max, |body|)]
  }

  lemma BodySnoc(chunks: seq<seq<Byte>>, k: nat)
    requires k < |chunks|
    ensures Body(chunks[..k + 1]) == Body(chunks[..k]) + chunks[k]
  {
    assert chunks[..k + 1][..k] == chunks[..k];
  }

  lemma {:induction false} BodyPrefix(chunks: seq<seq<Byte>>, k: nat)
    requires k <= |chunks|
    ensures Body(chunks[..k]) <= Body(chunks)
    decreases |chunks| - k
  {
    if k == |chunks| {
      assert chunks[..k] == chunks;
    } else {
      BodyPrefix(chunks, k + 1);
      BodySnoc(chunks, k);
    }
  }

  /** A range that ends inside a prefix of the body is a range of the prefix. */
  lemma RangeOfPrefix(prefix: seq<Byte>, body: seq<Byte>, skip: nat, max: nat)
    requires prefix <= body && skip + max <= |prefix|
    ensures Range(prefix, skip, max) == Range(body, skip, max)
  {
  }

  /** What one more chunk adds to the range: nothing while skipping, else as much as is still wanted. */
  lemma RangeGrows(read: seq<Byte>, value: seq<Byte>, skip: nat, max: nat)
    requires |read| <= skip + max
    ensures var start := Min(|value|, skip - Min(skip, |read|));
            var take := Min(max - |Range(read, skip, max)|, |value| - start);
            && |Range(read, skip, max)| <= max
            && Range(read + value, skip, max) == Range(read, skip, max) + value[start..start + take]
            && (start + take < |value| <==> |read + value| > skip + max)
  {
  }

  /** The copy loop: pieces are written one behind the other into a buffer of their total size. */
  method Concatenate(pieces: seq<seq<Byte>>, size: nat) returns (bytes: seq<Byte>)
    requires size == |Body(pieces)|
    ensures bytes == Body(pieces)
  {
    var result := new Byte[size];
    var offset := 0;
    for k := 0 to |pieces|
      invariant offset == |Body(pieces[..k])| <= size && result[..offset] == Body(pieces[..k])
    {
      BodySnoc(pieces, k);
      BodyPrefix(pieces, k + 1);
      CopyInto(result, pieces[k], offset);
      offset := offset + |pieces[k]|;
    }
    assert pieces[..|pieces|] == pieces;
    bytes := result[..];
  }

  /** `readBinaryChunk`: exactly the bytes asked for, however the body was cut; `hasMore` exactly when some follow.
    The reader is cancelled just when there is more. */
  method ReadBinaryChunk(chunks: seq<seq<Byte>>, skipBytes: nat, maxBytes: nat)
    returns (bytes: seq<Byte>, hasMore: bool, cancelled: bool)
    ensures bytes == Range(Body(chunks), skipBytes, maxBytes)
    ensures hasMore <==> |Body(chunks)| > skipBytes + maxBytes
    ensures cancelled == hasMore
  {
    var pieces: seq<seq<Byte>> := [];
    var skipped, received := 0, 0;
    hasMore, cancelled := false, false;
    ghost var taken: seq<Byte> := [];
    var k := 0;
    assert chunks[..0] == [];
    while k < |chunks|
      invariant k <= |chunks| && skipped == Min(skipBytes, |Body(chunks[..k])|)
      invariant taken == Body(pieces) && received == |taken| <= maxBytes
      invariant taken == Range(Body(chunks[..k]), skipBytes, maxBytes)
      invariant |Body(chunks[..k])| <= skipBytes + maxBytes
    {
      var value := chunks[k];
      ghost var read := Body(chunks[..k]);
      BodySnoc(chunks, k);
      BodyPrefix(chunks, k + 1);
      RangeGrows(read, value, skipBytes, maxBytes);
      k := k + 1;
      var start := 0;
      if skipped < skipBytes {
        var count := Min(|value|, skipBytes - skipped);
        skipped := skipped + count;
        start := count;
      }
      if start == |value| { continue; }
      var remaining := maxBytes - received;
      if remaining == 0 {
        hasMore, cancelled := true, true;
        assert value[start..start + 0] == [];
        RangeOfPrefix(Body(chunks[..k]), Body(chunks), skipBytes, maxBytes);
        break;
      }
      var take := Min(remaining, |value| - start);
      assert (pieces + [value[start..start + take]])[..|pieces|] == pieces;
      pieces := pieces + [value[start..start + take]];
      taken := taken + value[start..start + take];
      received := received + take;
      if start + take < |value| {
        hasMore, cancelled := true, true;
        RangeOfPrefix(Body(chunks[..k]), Body(chunks), skipBytes, maxBytes);
        break;
      }
    }
    if !hasMore { assert chunks[..k] == chunks; }
    bytes := Concatenate(pieces, received);
  }

  /** `readBoundedBuffer`: the whole body, or an error exactly when it is longer than allowed. */
  method ReadBoundedBuffer(chunks: seq<seq<Byte>>, maxBytes: nat) returns (fits: bool, bytes: seq<Byte>)
    ensures fits <==> |Body(chunks)| <= maxBytes
    ensures fits ==> bytes == Body(chunks)
  {
    var received := 0;
    assert chunks[..0] == [];
    for k := 0 to |chunks|
      invariant received == |Body(chunks[..k])| <= maxBytes
    {
      BodySnoc(chunks, k);
      BodyPrefix(chunks, k + 1);
      received := received + |chunks[k]|;
      if received > maxBytes { return false, []; }
    }
    assert chunks[..|chunks|] == chunks;
    bytes := Concatenate(chunks, received);
    fits := true;
  }

  /** Consecutive ranges of the same body put it together again. */
  lemma RangesCompose(body: seq<Byte>, skip: nat, first: nat, second: nat)
    ensures Range(body, skip, first) + Range(body, skip + first, second) == Range(body, skip, first + second)
  {
  }

  function Sum(sizes: seq<nat>): nat { if sizes == [] then 0 else sizes[0] + Sum(sizes[1..]) }

  /** What a client puts together that asks for one range after the other. */
  function Gathered(body: seq<Byte>, skip: nat, sizes: seq<nat>): seq<Byte>
    decreases |sizes|
  {
    if sizes == [] then [] else Range(body, skip, sizes[0]) + Gathered(body, skip + sizes[0], sizes[1..])
  }

  /** A client that pages through a body with ranges of any sizes gets one range of it. */
  lemma {:induction false} PagesGather(body: seq<Byte>, skip: nat, sizes: seq<nat>)
    ensures Gathered(body, skip, sizes) == Range(body, skip, Sum(sizes))
    decreases |sizes|
  {
    if sizes != [] {
      PagesGather(body, skip + sizes[0], sizes[1..]);
      RangesCompose(body, skip, sizes[0], Sum(sizes[1..]));
    }
  }

  /** From the beginning to an answer without `hasMore` - no byte is left behind the last range - it gets the body. */
  lemma PagingSpellsBody(body: seq<Byte>, sizes: seq<nat>)
    requires |body| <= Sum(sizes)
    ensures Gathered(body, 0, sizes) == body
  {
    PagesGather(body, 0, sizes);
  }
}
