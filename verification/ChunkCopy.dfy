/** Appending and prepending into an item kept in chunks. */
module ChunkCopy {
  import opened Basics
  import opened Division
  import opened Flatten

  /** A chunk: room for `size` bytes, of which the first are used. */
  datatype Chunk = Chunk(size: nat, data: seq<byte>)

  /** Where the bytes come from. */
  datatype Source = Flatly(data: seq<byte>) | Chunked(chunks: seq<seq<byte>>)

  function Content(s: Source): seq<byte> {
    if s.Flatly? then s.data else Flat(s.chunks)
  }

  function Data(chunks: seq<Chunk>): seq<byte> {
    if chunks == [] then [] else Data(chunks[..|chunks| - 1]) + chunks[|chunks| - 1].data
  }

  /** Only the last chunk of a chain has room. */
  ghost predicate Packed(chunks: seq<Chunk>) {
    chunks != [] && (forall i :: 0 <= i < |chunks| ==> |chunks[i].data| <= chunks[i].size) &&
    forall i :: 0 <= i < |chunks| - 1 ==> |chunks[i].data| == chunks[i].size
  }

  function Min(a: nat, b: nat): nat {
    if a < b then a else b
  }

  /** How many chunks a copy of `len` bytes asks for, with `room` left in the last one.  A chunk that has
      just been filled is followed by another at once, even when nothing is left to put in it. */
  function Needed(room: nat, len: nat, most: nat): nat
    requires most > 0
    decreases len, if room == 0 then 1 else 0
  {
    if len == 0 || room > len then 0 else 1 + Needed(Min(len - room, most), len - room, most)
  }

  lemma {:induction false} NeededBound(room: nat, len: nat, most: nat)
    requires most > 0
    ensures Needed(room, len, most) <= len + (if room == 0 then 1 else 0)
    decreases len, if room == 0 then 1 else 0
  {
    if len > 0 && room <= len {
      NeededBound(Min(len - room, most), len - room, most);
    }
  }

  /** How many chunks of full size the bytes take. */
  function Chunks(len: nat, most: nat): nat
    requires most > 0
  {
    (len + most - 1) / most
  }

  lemma ChunksIs(len: nat, most: nat)
    requires most > 0
    ensures Chunks(len, most) == if len == 0 then 0 else if len <= most then 1 else 1 + Chunks(len - most, most)
  {
    if len == 0 {
      QuotientIs(0, most - 1, most);
    } else if len <= most {
      QuotientIs(1, len - 1, most);
    } else {
      QuotientStep(len - 1, most);
    }
  }

  lemma QuotientStep(x: nat, m: nat)
    requires m > 0
    ensures (x + m) / m == x / m + 1
  {
    var q, r := x / m, x % m;
    assert x == q * m + r;
    assert (q + 1) * m == q * m + m;
    QuotientIs(q + 1, r, m);
  }

  lemma QuotientIs(q: nat, r: nat, m: nat)
    requires r < m
    ensures (q * m + r) / m == q
  {
    var d := (q * m + r) / m;
    assert q * m + r == d * m + (q * m + r) % m;
    if q < d { BlockUp(q, d, m); }
    if d < q { BlockUp(d, q, m); }
  }

  /** In closed form: none if the bytes leave room in the last chunk, and otherwise what the rest takes in
      chunks of full size, and one more. */
  lemma {:induction false} NeededIs(room: nat, len: nat, most: nat)
    requires most > 0
    ensures Needed(room, len, most) == if 0 < len && room <= len then 1 + Chunks(len - room, most) else 0
    decreases len, if room == 0 then 1 else 0
  {
    hide Chunks;
    if 0 < len && room <= len {
      var rest := len - room;
      NeededIs(Min(rest, most), rest, most);
      ChunksIs(rest, most);
      ChunksIs(0, most);
    }
  }

  /** A chunk was added that holds nothing and never can. */
  ghost predicate EmptyAdded(was: seq<Chunk>, now: seq<Chunk>) {
    |was| < |now| && now[|now| - 1] == Chunk(0, [])
  }

  /** The room in the last chunk once the bytes are in. */
  function RoomAfter(room: nat, len: nat): nat {
    if 0 < len && room <= len then 0 else room - len
  }

  /** In the middle of a copy of `len` bytes that found `had` chunks to be had and `room0` in the last one:
      `left` bytes remain, and there is `room` for some of them.  What has been asked for and what will be
      add up, and an added chunk is never larger than what is left. */
  ghost predicate Account(was: seq<Chunk>, had: nat, room0: nat, len: nat, most: nat,
                          now: seq<Chunk>, memory: nat, room: nat, left: nat)
    requires most > 0
  {
    had - memory + Needed(room, left, most) == Needed(room0, len, most) && |now| == |was| + had - memory &&
    RoomAfter(room, left) == RoomAfter(room0, len) &&
    (|was| < |now| ==> room <= left && (left == 0 ==> now[|now| - 1] == Chunk(0, [])))
  }

  lemma AccountStart(was: seq<Chunk>, had: nat, room: nat, len: nat, most: nat)
    requires most > 0
    ensures Account(was, had, room, len, most, was, had, room, len)
  {
  }

  /** Bytes that do not fill the last chunk. */
  lemma AccountPut(was: seq<Chunk>, had: nat, room0: nat, len: nat, most: nat,
                   now: seq<Chunk>, next: seq<Chunk>, memory: nat, room: nat, left: nat, t: nat)
    requires most > 0 && Account(was, had, room0, len, most, now, memory, room, left)
    requires t <= left && t < room && |next| == |now|
    ensures Account(was, had, room0, len, most, next, memory, room - t, left - t)
  {
  }

  /** Bytes that fill it, and the chunk that is asked for at once. */
  lemma AccountFill(was: seq<Chunk>, had: nat, room0: nat, len: nat, most: nat,
                    now: seq<Chunk>, next: seq<Chunk>, memory: nat, room: nat, left: nat)
    requires most > 0 && Account(was, had, room0, len, most, now, memory, room, left) && 0 < left && room <= left
    requires memory > 0 ==> |next| == |now| + 1 && next[|now|] == Chunk(Min(left - room, most), [])
    ensures memory > 0 ==> Account(was, had, room0, len, most, next, memory - 1, Min(left - room, most), left - room)
    ensures memory == 0 ==> had < Needed(room0, len, most)
  {
    assert Needed(room, left, most) == 1 + Needed(Min(left - room, most), left - room, most);
  }

  lemma AccountEnd(was: seq<Chunk>, had: nat, room0: nat, len: nat, most: nat, now: seq<Chunk>, memory: nat, room: nat)
    requires most > 0 && Account(was, had, room0, len, most, now, memory, room, 0)
    ensures memory == had - Needed(room0, len, most) && |now| == |was| + Needed(room0, len, most)
    ensures room == RoomAfter(room0, len) && (EmptyAdded(was, now) <==> 0 < len && room0 <= len)
  {
  }

  /** The chunks for both values, the first without its line end. */
  function NeededTwice(room: nat, append: bool, was: nat, add: nat, most: nat): nat
    requires most > 0 && was >= 2 && add >= 2
  {
    var first, second := if append then was else add, if append then add else was;
    Needed(room, first - 2, most) + Needed(RoomAfter(room, first - 2), second, most)
  }

  /** A new item starts without room: each value that is not empty costs its full chunks and an empty one. */
  lemma NewItemNeeds(append: bool, was: nat, add: nat, most: nat)
    requires most > 0 && was >= 2 && add >= 2
    ensures var first, second := if append then was - 2 else add - 2, if append then add else was;
      NeededTwice(0, append, was, add, most) ==
      (if first == 0 then 0 else 1 + Chunks(first, most)) + 1 + Chunks(second, most)
  {
    NeededIs(0, if append then was - 2 else add - 2, most);
    NeededIs(0, if append then add else was, most);
  }

  /** The next piece of one source chunk, behind everything before it. */
  lemma Follows(before: seq<byte>, src: seq<seq<byte>>, s: nat, copied: nat, todo: nat)
    requires s < |src| && copied + todo <= |src[s]|
    ensures |Flat(src[..s + 1])| == |Flat(src[..s])| + |src[s]|
    ensures var n := |Flat(src[..s])| + copied;
      n + todo <= |Flat(src)| &&
      before + Flat(src)[..n] + src[s][copied..copied + todo] == before + Flat(src)[..n + todo]
  {
    var n := |Flat(src[..s])| + copied;
    FlatSlice(src, s, copied, todo);
    Slices(Flat(src), 0, n, n + todo);
    Reassociate(before, Flat(src)[..n], src[s][copied..copied + todo]);
  }

  /** A chunked item.  `most` is what a chunk holds at most, `slab_chunk_size_max` less its header, and
      `memory` is how many more chunks the slab allocator can give. */
  class Item {
    const most: nat
    var memory: nat
    var chunks: seq<Chunk>

    ghost predicate Valid()
      reads this
    {
      most > 0 && Packed(chunks)
    }

    /** As allocated: a header chunk without room. */
    constructor (most: nat, memory: nat)
      requires most > 0
      ensures Valid() && Data(chunks) == [] && this.most == most && this.memory == memory
    {
      this.most, this.memory := most, memory;
      chunks := [Chunk(0, [])];
    }

    /** The last chunk has no room left. */
    predicate Full()
      requires chunks != []
      reads this
    {
      |chunks[|chunks| - 1].data| == chunks[|chunks| - 1].size
    }

    function Room(): nat
      requires chunks != [] && |chunks[|chunks| - 1].data| <= chunks[|chunks| - 1].size
      reads this
    {
      chunks[|chunks| - 1].size - |chunks[|chunks| - 1].data|
    }

    /** `do_item_alloc_chunk`: linked behind the last chunk, when there is memory. */
    method AllocChunk(remain: nat) returns (ok: bool)
      requires Valid() && Full()
      modifies this`chunks, this`memory
      ensures Valid() && Data(chunks) == Data(old(chunks)) && ok == (old(memory) > 0)
      ensures ok ==> chunks == old(chunks) + [Chunk(Min(remain, most), [])] && memory == old(memory) - 1
      ensures !ok ==> chunks == old(chunks) && memory == 0
    {
      ok := memory > 0;
      if ok {
        memory := memory - 1;
        chunks := chunks + [Chunk(Min(remain, most), [])];
      }
    }

    /** Advance until there is free space; a packed chain has it only at its end. */
    method FreeSpace() returns (d: nat)
      requires Valid()
      ensures d == |chunks| - 1
    {
      d := 0;
      while chunks[d].size == |chunks[d].data|
        invariant 0 <= d < |chunks|
        decreases |chunks| - d
      {
        if d + 1 < |chunks| {
          d := d + 1;
        } else {
          break;
        }
      }
    }

    /** `memcpy` behind the used part of the last chunk. */
    method Put(d: nat, piece: seq<byte>)
      requires Valid() && d == |chunks| - 1 && |chunks[d].data| + |piece| <= chunks[d].size
      modifies this`chunks
      ensures Valid() && |chunks| == |old(chunks)| &&
        chunks[d] == Chunk(old(chunks[d].size), old(chunks[d].data) + piece)
      ensures Data(chunks) == Data(old(chunks)) + piece
    {
      chunks := chunks[d := Chunk(chunks[d].size, chunks[d].data + piece)];
      assert chunks[..d] == old(chunks)[..d];
    }

    /** One round of either loop: a piece goes behind what is in the last chunk, and when that fills it another
        chunk is asked for. */
    method Round(d: nat, piece: seq<byte>, left: nat, ghost was: seq<Chunk>, ghost had: nat, ghost room0: nat,
        ghost len: nat) returns (ok: bool, next: nat)
      requires Valid() && d == |chunks| - 1 && 0 < left && |piece| <= left && |piece| <= Room()
      requires Account(was, had, room0, len, most, chunks, memory, Room(), left)
      modifies this`chunks, this`memory
      ensures Valid() && Data(chunks) == Data(old(chunks)) + piece
      ensures ok ==> next == |chunks| - 1 && Account(was, had, room0, len, most, chunks, memory, Room(), left - |piece|)
      ensures ok && |piece| < left && |piece| == old(Room()) ==> !Full()
      ensures !ok ==> memory == 0 && had < Needed(room0, len, most)
    {
      hide Data, Needed, Account;
      ghost var now, had0, room := chunks, memory, Room();
      Put(d, piece);
      ok, next := true, d;
      if chunks[d].size == |chunks[d].data| {
        ok := AllocChunk(left - |piece|);
        AccountFill(was, had, room0, len, most, now, chunks, had0, room, left);
        if ok {
          next := d + 1;
        }
      } else {
        AccountPut(was, had, room0, len, most, now, chunks, memory, room, left, |piece|);
      }
    }

    /** The loop for a source that is in one piece. */
    method CopyFlat(data: seq<byte>, len: nat) returns (ok: bool, ghost n: nat)
      requires Valid() && len <= |data|
      modifies this`chunks, this`memory
      ensures Valid() && n <= len && Data(chunks) == Data(old(chunks)) + data[..n]
      ensures (ok ==> n == len && memory == old(memory) - Needed(old(Room()), len, most)) && (!ok ==> memory == 0)
      ensures ok <==> old(memory) >= Needed(old(Room()), len, most)
      ensures ok ==> |chunks| == |old(chunks)| + Needed(old(Room()), len, most) && Room() == RoomAfter(old(Room()), len)
      ensures ok ==> (EmptyAdded(old(chunks), chunks) <==> 0 < len && old(Room()) <= len)
    {
      hide Data, Needed, Account, RoomAfter, EmptyAdded;
      AccountStart(chunks, memory, Room(), len, most);
      var d := FreeSpace();
      var done := 0;
      ok, n := true, 0;
      while len > done
        invariant 0 <= done <= len && d == |chunks| - 1 && Valid() && ok
        invariant n == done && Data(chunks) == Data(old(chunks)) + data[..done]
        invariant Account(old(chunks), old(memory), old(Room()), len, most, chunks, memory, Room(), len - done)
        decreases len - done, if Full() then 1 else 0
      {
        var room := chunks[d].size - |chunks[d].data|;
        var todo := if room < len - done then room else len - done;
        Slices(data, 0, done, done + todo);
        Reassociate(Data(old(chunks)), data[..done], data[done..done + todo]);
        ok, d := Round(d, data[done..done + todo], len - done, old(chunks), old(memory), old(Room()), len);
        done, n := done + todo, n + todo;
        if !ok {
          return;
        }
      }
      AccountEnd(old(chunks), old(memory), old(Room()), len, most, chunks, memory, Room());
    }

    /** The loop for a source in chunks: each destination chunk is filled before the next is made. */
    method CopyChunks(src: seq<seq<byte>>, len: nat) returns (ok: bool, ghost n: nat)
      requires Valid() && len <= |Flat(src)|
      modifies this`chunks, this`memory
      ensures Valid() && n <= len && Data(chunks) == Data(old(chunks)) + Flat(src)[..n]
      ensures (ok ==> n == len && memory == old(memory) - Needed(old(Room()), len, most)) && (!ok ==> memory == 0)
      ensures ok <==> old(memory) >= Needed(old(Room()), len, most)
      ensures ok ==> |chunks| == |old(chunks)| + Needed(old(Room()), len, most) && Room() == RoomAfter(old(Room()), len)
      ensures ok ==> (EmptyAdded(old(chunks), chunks) <==> 0 < len && old(Room()) <= len)
    {
      hide Flat, Data, Needed, Account, RoomAfter, EmptyAdded;
      AccountStart(chunks, memory, Room(), len, most);
      var d := FreeSpace();
      var remain, s, copied := len, 0, 0;
      ok, n := true, 0;
      FlatNone(src);
      while s < |src| && remain > 0
        invariant 0 <= s <= |src| && d == |chunks| - 1 && Valid() && ok && 0 <= remain <= len && n == len - remain
        invariant 0 <= copied && if s < |src| then copied <= |src[s]| else copied == 0
        invariant n == |Flat(src[..s])| + copied && n <= |Flat(src)|
        invariant Data(chunks) == Data(old(chunks)) + Flat(src)[..n]
        invariant Account(old(chunks), old(memory), old(Room()), len, most, chunks, memory, Room(), remain)
        decreases remain, |src| - s, if Full() then 1 else 0
      {
        var room, left := chunks[d].size - |chunks[d].data|, |src[s]| - copied;
        var todo := if room < left then room else left;
        if remain < todo {
          todo := remain;
        }
        Follows(Data(old(chunks)), src, s, copied, todo);
        ok, d := Round(d, src[s][copied..copied + todo], remain, old(chunks), old(memory), old(Room()), len);
        copied, remain, n := copied + todo, remain - todo, n + todo;
        if !ok {
          return;
        }
        if copied == |src[s]| {
          copied := 0;
          s := s + 1;
        }
      }
      if s == |src| {
        assert src[..s] == src;
      }
      AccountEnd(old(chunks), old(memory), old(Room()), len, most, chunks, memory, Room());
    }

    /** `_store_item_copy_chunks`. */
    method CopyFrom(src: Source, len: nat) returns (ok: bool, ghost n: nat)
      requires Valid() && len <= |Content(src)|
      modifies this`chunks, this`memory
      ensures Valid() && n <= len && Data(chunks) == Data(old(chunks)) + Content(src)[..n]
      ensures (ok ==> n == len && memory == old(memory) - Needed(old(Room()), len, most)) && (!ok ==> memory == 0)
      ensures ok <==> old(memory) >= Needed(old(Room()), len, most)
      ensures ok ==> |chunks| == |old(chunks)| + Needed(old(Room()), len, most) && Room() == RoomAfter(old(Room()), len)
      ensures ok ==> (EmptyAdded(old(chunks), chunks) <==> 0 < len && old(Room()) <= len)
    {
      hide Flat, Data;
      match src
      case Chunked(chunks) => ok, n := CopyChunks(chunks, len);
      case Flatly(data) => ok, n := CopyFlat(data, len);
    }

    /** `_store_item_copy_data` into a new, chunked item.  Every value ends in CRLF, and the first of the
        two loses it. */
    method CopyData(append: bool, was: Source, add: Source) returns (ok: bool)
      requires Valid() && Data(chunks) == [] && |Content(was)| >= 2 && |Content(add)| >= 2
      modifies this`chunks, this`memory
      ensures Valid()
      ensures ok ==>
        Data(chunks) == if append then Joined(Content(was), Content(add)) else Joined(Content(add), Content(was))
      ensures !ok ==> memory == 0
      ensures ok <==> old(memory) >= NeededTwice(old(Room()), append, |Content(was)|, |Content(add)|, most)
    {
      hide Flat, Data, Content, Needed;
      var first, second := if append then was else add, if append then add else was;
      ghost var n;
      ok, n := CopyFrom(first, |Content(first)| - 2);
      if !ok {
        return;
      }
      ok, n := CopyFrom(second, |Content(second)|);
      assert Content(second)[..|Content(second)|] == Content(second);
    }
  }

  /** One value after another, with the line end of the first dropped. */
  function Joined(a: seq<byte>, b: seq<byte>): seq<byte>
    requires |a| >= 2
  {
    a[..|a| - 2] + b
  }

  /** `_store_item_copy_data` into an item in one piece: two overlapping copies. */
  method CopyFlatData(append: bool, was: seq<byte>, add: seq<byte>, into: array<byte>)
    requires |was| >= 2 && |add| >= 2 && into.Length == |was| + |add| - 2
    modifies into
    ensures into[..] == if append then Joined(was, add) else Joined(add, was)
  {
    var first, second := if append then was else add, if append then add else was;
    Memcpy(into, 0, first);
    ghost var rest := old(into[|first|..]);
    assert into[..] == first + rest;
    Memcpy(into, |first| - 2, second);
    Overlapped(first, second, rest);
  }

  /** The second copy starts at the first one's CRLF and goes to the end. */
  lemma Overlapped(first: seq<byte>, second: seq<byte>, rest: seq<byte>)
    requires |first| >= 2 && |first| + |rest| == |first| + |second| - 2
    ensures (first + rest)[..|first| - 2] + second + (first + rest)[|first| - 2 + |second|..] == Joined(first, second)
  {
    assert (first + rest)[..|first| - 2] == first[..|first| - 2];
  }

  method Memcpy(into: array<byte>, at: nat, from: seq<byte>)
    requires at + |from| <= into.Length
    modifies into
    ensures into[..] == old(into[..at]) + from + old(into[at + |from|..])
  {
    for i := 0 to |from|
      invariant into[..at] == old(into[..at]) && into[at..at + i] == from[..i]
      invariant into[at + |from|..] == old(into[at + |from|..])
    {
      into[at + i] := from[i];
    }
    assert into[..] == into[..at] + into[at..at + |from|] + into[at + |from|..];
  }
}
