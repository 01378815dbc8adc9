/** The output of a managed session: the last bytes of everything appended, addressed by absolute cursor. */
module OutputRing {
  import opened Common

  const SESSION_RING_BYTES := 262144

  datatype Chunk = Chunk(start: nat, data: seq<Byte>) {
    function End(): nat { start + |data| }
  }

  /** The chunk is nonempty, ends by `to`, and has the bytes of `history` from its start on. */
  ghost predicate Shows(c: Chunk, to: nat, history: seq<Byte>)
    requires to <= |history|
  {
    c.data != [] && c.End() <= to && c.data == history[c.start..c.End()]
  }

  /** Chunks are nonempty, follow each other from `from` to `to`, and spell what `history` has there. */
  ghost predicate Covers(chunks: seq<Chunk>, from: nat, to: nat, history: seq<Byte>) {
    && to <= |history|
    && (if chunks == [] then from == to else chunks[0].start == from && chunks[|chunks| - 1].End() == to)
    && (forall i :: 0 <= i < |chunks| ==> Shows(chunks[i], to, history))
    && (forall i :: 0 < i < |chunks| ==> chunks[i].start == chunks[i - 1].End())
  }

  /** The shift loop and the cut: what ends before the retained window goes, and the first chunk left begins with it. */
  method Retain(chunks: seq<Chunk>, from: nat, to: nat, retainFrom: int, ghost history: seq<Byte>)
    returns (kept: seq<Chunk>, evicted: bool)
    requires chunks != [] && Covers(chunks, from, to, history) && retainFrom < to
    ensures kept != [] && kept[0].start == Max(from, retainFrom) && Covers(kept, kept[0].start, to, history)
    ensures evicted <==> from < retainFrom
  {
    kept, evicted := chunks, false;
    while |kept| > 0 && kept[0].End() <= retainFrom
      invariant kept != [] && from <= kept[0].start && Covers(kept, kept[0].start, to, history)
      invariant if evicted then kept[0].start <= retainFrom && from < retainFrom else kept == chunks
      decreases |kept|
    {
      CoversTail(kept, kept[0].start, to, history);
      kept := kept[1..];
      evicted := true;
    }
    var first := kept[0];
    if first.start < retainFrom {
      CoversCut(kept, first.start, to, history, retainFrom - first.start);
      kept := kept[0 := Chunk(retainFrom, first.data[retainFrom - first.start..])];
      evicted := true;
    }
  }

  /** The bytes of the history from `offset` on, `size` of them. */
  ghost function Window(history: seq<Byte>, offset: nat, size: nat): seq<Byte>
    requires size > 0 ==> offset + size <= |history|
  {
    if size == 0 then [] else history[offset..offset + size]
  }

  /** What one more chunk adds to a window that has reached `cursor`. */
  lemma WindowGrows(history: seq<Byte>, offset: nat, written: nat, c: Chunk, to: nat, copy: nat)
    requires to <= |history| && Shows(c, to, history) && c.start <= offset + written
    requires offset + written + copy <= c.End()
    ensures var begin := offset + written - c.start;
            Window(history, offset, written + copy) == Window(history, offset, written) + c.data[begin..begin + copy]
  {
    var begin := offset + written - c.start;
    if copy == 0 {
      assert c.data[begin..begin + copy] == [];
    } else {
      var old', new' := history[offset..offset + written], history[offset + written..offset + written + copy];
      assert c.data[begin..begin + copy] == new';
      assert history[offset..offset + written + copy] == old' + new';
      assert old' == Window(history, offset, written);
    }
  }

  /** From one chunk what lies behind the cursor, up to `size` bytes in all. */
  method CopyOverlap(buffer: array<Byte>, chunk: Chunk, offset: nat, written: nat, size: nat, ghost to: nat,
                     ghost history: seq<Byte>) returns (copy: nat)
    requires to <= |history| && Shows(chunk, to, history) && written < size == buffer.Length
    requires chunk.start <= offset + written < chunk.End() && offset + size <= to
    requires buffer[..written] == Window(history, offset, written)
    modifies buffer
    ensures copy == Min(chunk.End() - (offset + written), size - written)
    ensures buffer[..written + copy] == Window(history, offset, written + copy)
  {
    var begin := Max(0, offset + written - chunk.start);
    copy := Min(|chunk.data| - begin, size - written);
    WindowGrows(history, offset, written, chunk, to, copy);
    CopyInto(buffer, chunk.data[begin..begin + copy], written);
  }

  class OutputRing {
    var chunks: seq<Chunk>
    var start: nat
    var end: nat
    var evicted: bool
    ghost var history: seq<Byte>

    /** The ring holds the last bytes of the history, and knows whether there were more. */
    ghost predicate Valid() reads this {
      && end == |history| && start == Max(0, |history| - SESSION_RING_BYTES)
      && (evicted <==> start > 0)
      && Covers(chunks, start, end, history)
    }

    constructor ()
      ensures Valid() && history == []
    {
      chunks, start, end, evicted, history := [], 0, 0, false, [];
    }

    method Append(chunk: seq<Byte>)
      requires Valid()
      modifies this
      ensures Valid() && history == old(history) + chunk
    {
      if |chunk| == 0 { assert history + chunk == history; return; }
      CoversAppended(chunks, start, end, history, chunk);
      chunks := chunks + [Chunk(end, chunk)];
      end := end + |chunk|;
      history := history + chunk;
      var retainFrom := end - SESSION_RING_BYTES;
      var kept, cut := Retain(chunks, start, end, retainFrom, history);
      chunks := kept;
      if cut { evicted := true; }
      start := chunks[0].start;
    }

    /** The copying loop of `read`: from each chunk what lies behind the cursor, until `size` bytes are there. */
    method Copy(offset: nat, size: nat) returns (bytes: seq<Byte>)
      requires Valid() && start <= offset && (size > 0 ==> offset + size <= end)
      ensures |bytes| == size && bytes == Window(history, offset, size)
    {
      var buffer := new Byte[size];
      var cursor, written := offset, 0;
      for i := 0 to |chunks|
        invariant 0 <= written <= size && cursor == offset + written
        invariant written == size || i == 0 || chunks[i - 1].End() <= cursor
        invariant buffer[..written] == Window(history, offset, written)
      {
        var chunk := chunks[i];
        assert Shows(chunk, end, history);
        if chunk.End() <= cursor || written == size { continue; }
        var copy := CopyOverlap(buffer, chunk, offset, written, size, end, history);
        written := written + copy;
        cursor := cursor + copy;
      }
      bytes := buffer[..];
    }

    /** A read starts at the cursor asked for, or at the oldest byte kept, and is cut by `maxBytes` only;
      it says `truncated` exactly when bytes before the start were asked for or bytes behind its end exist. */
    method Read(from: int, maxBytes: int) returns (bytes: seq<Byte>, offset: nat, truncated: bool)
      requires Valid()
      ensures offset == Max(from, start)
      ensures |bytes| == Min(Max(0, maxBytes), Max(0, end - offset)) && bytes == Window(history, offset, |bytes|)
      ensures truncated <==> from < start || offset + |bytes| < end
    {
      offset := Max(from, start);
      var available := Max(0, end - offset);
      var size := Min(Max(0, maxBytes), available);
      bytes := Copy(offset, size);
      truncated := from < start || size < available;
    }
  }

  /** A read that begins where the last one ended misses nothing and repeats nothing. */
  lemma ReadsCompose(history: seq<Byte>, offset: nat, first: nat, second: nat)
    requires first + second > 0 ==> offset + first + second <= |history|
    ensures Window(history, offset, first) + Window(history, offset + first, second) ==
            Window(history, offset, first + second)
  {
  }

  // ---- a reader that follows the output ----

  datatype Event = Output(data: seq<Byte>) | Poll(maxBytes: int)

  /** A client that asks each time from where its last answer ended. `gap`: an answer began behind what was asked
    for. */
  datatype Follower = Follower(history: seq<Byte>, cursor: nat, got: seq<Byte>, gap: bool)

  ghost function Turn(f: Follower, e: Event): Follower
    requires f.cursor <= |f.history|
  {
    match e
    case Output(data) => f.(history := f.history + data)
    case Poll(maxBytes) =>
      var offset := Max(f.cursor, |f.history| - SESSION_RING_BYTES);
      var size := Min(Max(0, maxBytes), |f.history| - offset);
      Follower(f.history, offset + size, f.got + Window(f.history, offset, size), f.gap || offset > f.cursor)
  }

  ghost function Following(f: Follower, events: seq<Event>): (t: Follower)
    requires f.cursor <= |f.history|
    ensures t.cursor <= |t.history|
  {
    if events == [] then f else Turn(Following(f, events[..|events| - 1]), events[|events| - 1])
  }

  lemma WindowStands(history: seq<Byte>, data: seq<Byte>, offset: nat, size: nat)
    requires offset + size <= |history|
    ensures Window(history + data, offset, size) == Window(history, offset, size)
  {
  }

  /** What was gathered is the output behind `from`, up to the cursor. */
  ghost predicate Gathered(f: Follower, from: nat) {
    from <= f.cursor <= |f.history| && f.got == Window(f.history, from, f.cursor - from)
  }

  lemma OutputGathers(f: Follower, data: seq<Byte>, from: nat)
    requires Gathered(f, from)
    ensures Gathered(f.(history := f.history + data), from)
  {
    WindowStands(f.history, data, from, f.cursor - from);
  }

  lemma PollGathers(f: Follower, from: nat, size: nat)
    requires Gathered(f, from) && f.cursor + size <= |f.history|
    ensures Gathered(f.(cursor := f.cursor + size, got := f.got + Window(f.history, f.cursor, size)), from)
  {
    ReadsCompose(f.history, from, f.cursor - from, size);
  }

  /** A turn without a gap. */
  lemma TurnGathers(f: Follower, e: Event, from: nat)
    requires Gathered(f, from) && (e.Poll? ==> |f.history| - SESSION_RING_BYTES <= f.cursor)
    ensures Gathered(Turn(f, e), from)
  {
    match e
    case Output(data) => OutputGathers(f, data, from);
    case Poll(maxBytes) =>
      var size := Min(Max(0, maxBytes), |f.history| - f.cursor);
      PollGathers(f, from, size);
      var t := Turn(f, e);
      assert t.history == f.history && t.cursor == f.cursor + size;
      assert t.got == f.got + Window(f.history, f.cursor, size);
  }

  /** What a following client has gathered is exactly what the session has put out behind its first cursor, up to its
    present one, if no answer has shown a gap. */
  lemma {:induction false} FollowingMissesNothing(history: seq<Byte>, from: nat, events: seq<Event>)
    requires from <= |history|
    ensures var f := Following(Follower(history, from, [], false), events); !f.gap ==> Gathered(f, from)
  {
    if events != [] {
      FollowingMissesNothing(history, from, events[..|events| - 1]);
      var f := Following(Follower(history, from, [], false), events[..|events| - 1]);
      var e := events[|events| - 1];
      if !Turn(f, e).gap { TurnGathers(f, e, from); }
    }
  }

  /** No poll found more unread than the ring keeps. */
  ghost predicate NeverBehind(f: Follower, events: seq<Event>)
    requires f.cursor <= |f.history|
  {
    forall k :: 0 <= k < |events| && events[k].Poll? ==>
      var g := Following(f, events[..k]); |g.history| - g.cursor <= SESSION_RING_BYTES
  }

  /** An answer shows a gap if and only if more than the ring's size was unread at some poll. */
  lemma {:induction false} GapExactly(f: Follower, events: seq<Event>)
    requires f.cursor <= |f.history| && !f.gap
    ensures Following(f, events).gap <==> !NeverBehind(f, events)
  {
    if events != [] {
      var before := events[..|events| - 1];
      GapExactly(f, before);
      forall k | 0 <= k < |before| ensures before[..k] == events[..k] && before[k] == events[k] {}
    }
  }

  lemma CoversAppended(chunks: seq<Chunk>, from: nat, to: nat, history: seq<Byte>, data: seq<Byte>)
    requires Covers(chunks, from, to, history) && to == |history| && data != []
    ensures Covers(chunks + [Chunk(to, data)], from, to + |data|, history + data)
  {
  }

  lemma CoversTail(chunks: seq<Chunk>, from: nat, to: nat, history: seq<Byte>)
    requires Covers(chunks, from, to, history) && |chunks| > 0
    ensures Shows(chunks[0], to, history)
    ensures Covers(chunks[1..], chunks[0].End(), to, history)
  {
  }

  lemma CoversCut(chunks: seq<Chunk>, from: nat, to: nat, history: seq<Byte>, cut: nat)
    requires Covers(chunks, from, to, history) && |chunks| > 0 && cut < |chunks[0].data|
    ensures Covers(chunks[0 := Chunk(from + cut, chunks[0].data[cut..])], from + cut, to, history)
  {
  }
}
