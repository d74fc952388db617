/** The reference-counted frame buffers of lavc/cmdutils.c and their per-stream free list.  Pixel memory and
    the dimension checks of the image library are parameters of the call. */
module FramePool {

  /** What av_mallocz and av_image_alloc give to one call of alloc_buffer; error is negative. */
  datatype Allocation = NoNode | NoImage(error: int) | Allocated

  const INVALID_PARAMETERS := -1
  const ENOMEM_ERROR := -12

  class FrameBuffer {
    const w: int
    const h: int
    const pixFmt: int
    const pool: Pool
    var refcount: int
    var next: FrameBuffer?

    constructor (pool: Pool, w: int, h: int, pixFmt: int)
      ensures this.pool == pool && this.w == w && this.h == h && this.pixFmt == pixFmt
      ensures refcount == 0 && next == null
    {
      this.pool, this.w, this.h, this.pixFmt := pool, w, h, pixFmt;
      refcount, next := 0, null;
    }
  }

  class Pool {
    var head: FrameBuffer?
    ghost var list: seq<FrameBuffer>            // the free list, from the head
    ghost var live: set<FrameBuffer>            // allocated from this pool and not freed
    ghost var refs: multiset<FrameBuffer>       // references handed out and not yet released

    /** The next pointers run through `list` without repetition and end. */
    ghost predicate Linked()
      reads this, list
    {
      && head == (if list == [] then null else list[0])
      && (forall i, j :: 0 <= i < j < |list| ==> list[i] != list[j])
      && (forall i {:trigger list[i]} :: 0 <= i < |list| ==> list[i].next == if i + 1 < |list| then list[i + 1] else null)
    }

    /** A live buffer is on the list exactly when nobody refers to it, and its count is the references out. */
    ghost predicate Counted()
      reads this, live
    {
      && (forall b :: b in list ==> b in live) && (forall b :: b in refs ==> b in live)
      && (forall b :: b in live ==> b.pool == this && b.refcount == refs[b] && (b in list <==> b.refcount == 0))
    }

    /** `buf` is live, unreferenced and off the list; every other live buffer is counted. */
    ghost predicate CountedBut(buf: FrameBuffer)
      reads this, live
    {
      && (forall b :: b in list ==> b in live && b != buf) && (forall b :: b in refs ==> b in live && b != buf)
      && buf in live && buf.pool == this && buf.refcount == 0
      && (forall b :: b in live && b != buf ==> b.pool == this && b.refcount == refs[b] && (b in list <==> b.refcount == 0))
    }

    ghost predicate Valid()
      reads this, list, live
    {
      Linked() && Counted()
    }

    /** The buffer reached from the head through n next pointers. */
    ghost function Nth(n: nat): (b: FrameBuffer?)
      requires Linked() && n <= |list|
      reads this, list
      ensures b == if n < |list| then list[n] else null
    {
      if n == 0 then head else Nth(n - 1).next
    }

    /** The chain of next pointers visits exactly the live buffers without references, each once, and ends. */
    lemma ChainIsFreeList(b: FrameBuffer)
      requires Valid()
      ensures b in live && refs[b] == 0 <==> exists n: nat :: n < |list| && Nth(n) == b
      ensures forall m: nat, n: nat :: m < n <= |list| ==> Nth(m) != Nth(n)
      ensures Nth(|list|) == null
    {
      if b in list {
        var n: nat :| n < |list| && list[n] == b;
        assert Nth(n) == b;
      }
    }

    constructor ()
      ensures Valid() && list == [] && live == {} && refs == multiset{}
    {
      head, list, live, refs := null, [], {}, multiset{};
    }

    /** alloc_buffer. */
    method AllocBuffer(w: int, h: int, pixFmt: int, alloc: Allocation) returns (ret: int, buf: FrameBuffer?)
      requires alloc.NoImage? ==> alloc.error < 0
      ensures ret == 0 <==> alloc.Allocated?
      ensures ret <= 0 && (buf == null <==> ret < 0)
      ensures ret < 0 ==> ret == if alloc.NoImage? then alloc.error else ENOMEM_ERROR
      ensures buf != null ==> fresh(buf) && buf.pool == this && Matches(buf, w, h, pixFmt)
      ensures buf != null ==> buf.refcount == 0 && buf.next == null
    {
      if alloc.NoNode? { return ENOMEM_ERROR, null; }
      var node := new FrameBuffer(this, w, h, pixFmt);
      if alloc.NoImage? { return alloc.error, null; }
      return 0, node;
    }

    /** The first free buffer leaves the list; it has no references. */
    method PopHead() returns (buf: FrameBuffer)
      requires Valid() && head != null
      modifies this`head, this`list, head`next
      ensures old(list) != [] && buf == old(list)[0] && list == old(list)[1..]
      ensures Linked() && CountedBut(buf)
    {
      buf := head;
      assert buf in list;
      head := buf.next;
      list := list[1..];
      buf.next := null;
    }

    lemma HeadLive()
      requires Valid()
      ensures (head == null <==> list == []) && (head != null ==> head in live)
    {
      if list != [] { assert list[0] in list; }
    }

    /** The allocation into an empty pool. */
    method Refill(w: int, h: int, pixFmt: int, alloc: Allocation) returns (ret: int)
      requires Valid() && head == null && (alloc.NoImage? ==> alloc.error < 0)
      modifies this`head, this`list, this`live
      ensures Valid() && fresh(live - old(live))
      ensures ret == if alloc.Allocated? then 0 else if alloc.NoImage? then alloc.error else ENOMEM_ERROR
      ensures ret != 0 ==> head == null && list == [] && live == old(live)
      ensures ret == 0 ==> head != null && list == [head] && live == old(live) + {head}
      ensures ret == 0 ==> fresh(head) && Matches(head, w, h, pixFmt)
    {
      var buf;
      ret, buf := AllocBuffer(w, h, pixFmt, alloc);
      if ret < 0 { return; }
      head, list, live := buf, [buf], live + {buf};
    }

    /** The buffer just taken is freed and a new one allocated in its place. */
    method Replace(taken: FrameBuffer, w: int, h: int, pixFmt: int, alloc: Allocation) returns (ret: int, buf: FrameBuffer?)
      requires Linked() && CountedBut(taken) && (alloc.NoImage? ==> alloc.error < 0)
      modifies this`live
      ensures Linked()
      ensures ret == if alloc.Allocated? then 0 else if alloc.NoImage? then alloc.error else ENOMEM_ERROR
      ensures ret != 0 ==> Counted() && buf == null && live == old(live) - {taken}
      ensures ret == 0 ==> buf != null && fresh(buf) && Matches(buf, w, h, pixFmt) && CountedBut(buf)
      ensures ret == 0 ==> live == old(live) - {taken} + {buf}
    {
      live := live - {taken};
      ret, buf := AllocBuffer(w, h, pixFmt, alloc);
      if ret < 0 { return; }
      live := live + {buf};
    }

    /** The middle of codec_get_buffer: the buffer to hand out, off the list and not yet counted. */
    method Obtain(w: int, h: int, pixFmt: int, alloc: Allocation) returns (ret: int, buf: FrameBuffer?)
      requires Valid() && (alloc.NoImage? ==> alloc.error < 0)
      modifies this`head, this`list, this`live, live
      ensures Linked() && fresh(live - old(live)) && list == Tail(old(list))
      ensures ret == (if Reusable(old(list), w, h, pixFmt) || alloc.Allocated? then 0
                      else if alloc.NoImage? then alloc.error else ENOMEM_ERROR)
      ensures ret != 0 ==> Counted() && buf == null && live == old(live) - Head(old(list))
      ensures ret == 0 ==> buf != null && Matches(buf, w, h, pixFmt) && CountedBut(buf)
      ensures ret == 0 && Reusable(old(list), w, h, pixFmt) ==> buf == old(list)[0] && live == old(live)
      ensures ret == 0 && !Reusable(old(list), w, h, pixFmt) ==> fresh(buf) && live == old(live) - Head(old(list)) + {buf}
    {
      hide Counted, CountedBut;
      if head == null {
        HeadLive();
        ret := Refill(w, h, pixFmt, alloc);
        if ret < 0 { return ret, null; }
      }
      HeadLive();
      buf := PopHead();
      if buf.w != w || buf.h != h || buf.pixFmt != pixFmt {
        ret, buf := Replace(buf, w, h, pixFmt, alloc);
        if ret < 0 { return ret, null; }
      }
      return 0, buf;
    }

    method FirstRef(buf: FrameBuffer)
      requires Linked() && CountedBut(buf)
      modifies this`refs, buf`refcount
      ensures Valid() && buf !in old(refs) && refs == old(refs) + multiset{buf}
    {
      assert buf.refcount == 0;
      buf.refcount := buf.refcount + 1;
      refs := refs + multiset{buf};
    }

    /** codec_get_buffer: takes the most recently released buffer, or a new one when the list is empty or that
        buffer has the wrong size or format, in which case the old one is freed. */
    method GetBuffer(w: int, h: int, pixFmt: int, sizeOk: bool, alloc: Allocation) returns (ret: int, frame: FrameBuffer?)
      requires Valid() && (alloc.NoImage? ==> alloc.error < 0)
      modifies this, live
      ensures Valid() && fresh(live - old(live))
      ensures ret == 0 <==> sizeOk && pixFmt >= 0 && (Reusable(old(list), w, h, pixFmt) || alloc.Allocated?)
      ensures list == if sizeOk && pixFmt >= 0 then Tail(old(list)) else old(list)
      ensures ret == 0 ==> frame != null && Matches(frame, w, h, pixFmt) && frame !in old(refs)
      ensures ret == 0 ==> refs == old(refs) + multiset{frame}
      ensures ret == 0 && Reusable(old(list), w, h, pixFmt) ==> frame == old(list)[0] && live == old(live)
      ensures ret == 0 && !Reusable(old(list), w, h, pixFmt) ==> fresh(frame)
      ensures ret == 0 && !Reusable(old(list), w, h, pixFmt) ==> live == old(live) - Head(old(list)) + {frame}
      ensures ret != 0 ==> frame == null && refs == old(refs)
      ensures ret != 0 ==> live == if sizeOk && pixFmt >= 0 then old(live) - Head(old(list)) else old(live)
    {
      hide Linked, Counted;
      if !sizeOk || pixFmt < 0 { return INVALID_PARAMETERS, null; }
      ret, frame := Obtain(w, h, pixFmt, alloc);
      if ret < 0 { return; }
      FirstRef(frame);
    }

    /** The extra reference that the filter graph takes on a decoded frame. */
    method AddRef(buf: FrameBuffer)
      requires Valid() && buf in refs
      modifies this`refs, buf`refcount
      ensures Valid() && refs == old(refs) + multiset{buf}
    {
      assert buf.refcount > 0;
      buf.refcount := buf.refcount + 1;
      refs := refs + multiset{buf};
    }

    /** The search in unref_buffer for a buffer that is being put on the list a second time. */
    method Listed(buf: FrameBuffer) returns (found: bool)
      requires Linked()
      ensures found <==> buf in list
    {
      var tmp := head;
      ghost var i := 0;
      while tmp != null
        invariant 0 <= i <= |list| && tmp == if i < |list| then list[i] else null
        invariant buf !in list[..i]
        decreases |list| - i
      {
        if tmp == buf { return true; }
        tmp := tmp.next;
        i := i + 1;
      }
      return false;
    }

    method PushFree(buf: FrameBuffer)
      requires Linked() && CountedBut(buf)
      modifies this`head, this`list, buf`next
      ensures Valid() && list == [buf] + old(list)
    {
      buf.next := head;
      head := buf;
      list := [buf] + list;
    }

    /** unref_buffer, the body of codec_release_buffer and filter_release_buffer. */
    method UnrefBuffer(buf: FrameBuffer)
      requires Valid() && buf in refs
      modifies this`head, this`list, this`refs, buf
      ensures Valid() && refs == old(refs) - multiset{buf}
      ensures list == if old(refs)[buf] == 1 then [buf] + old(list) else old(list)
    {
      assert buf.refcount > 0;
      buf.refcount := buf.refcount - 1;
      refs := refs - multiset{buf};
      if buf.refcount == 0 {
        var found := Listed(buf);
        assert !found;
        PushFree(buf);
      }
    }

    /** One pass of free_buffer_pool. */
    method FreeHead()
      requires Valid() && head != null
      modifies this`head, this`list, this`live
      ensures Valid() && old(list) != [] && list == old(list)[1..] && live == old(live) - {old(list)[0]}
    {
      assert head in list;
      head := head.next;
      live := live - {list[0]};
      list := list[1..];
    }

    lemma OnlyReferredLeft()
      requires Valid() && list == []
      ensures forall b :: b in live <==> b in refs
    {
    }

    /** free_buffer_pool: frees the listed buffers and no other; buffers still referred to stay live. */
    method FreeBufferPool()
      requires Valid()
      modifies this`head, this`list, this`live
      ensures Valid() && list == [] && live == old(live) - Elements(old(list))
      ensures forall b :: b in live <==> b in refs
    {
      hide Linked, Counted;
      ghost var freed := [];
      HeadLive();
      while head != null
        invariant Valid() && (head == null <==> list == [])
        invariant freed + list == old(list) && live == old(live) - Elements(freed)
        decreases |list|
      {
        freed := freed + [list[0]];
        FreeHead();
        HeadLive();
      }
      OnlyReferredLeft();
    }
  }

  predicate Matches(b: FrameBuffer, w: int, h: int, pixFmt: int) { b.w == w && b.h == h && b.pixFmt == pixFmt }

  /** The buffer that codec_get_buffer looks at can be handed out as it is. */
  predicate Reusable(list: seq<FrameBuffer>, w: int, h: int, pixFmt: int) {
    list != [] && Matches(list[0], w, h, pixFmt)
  }

  function Head(list: seq<FrameBuffer>): set<FrameBuffer> { if list == [] then {} else {list[0]} }

  function Tail(list: seq<FrameBuffer>): seq<FrameBuffer> { if list == [] then list else list[1..] }

  function Elements(list: seq<FrameBuffer>): set<FrameBuffer> { set b | b in list }

  /** Buffers never move between pools. */
  lemma PoolsDisjoint(p: Pool, q: Pool)
    requires p.Valid() && q.Valid() && p != q
    ensures p.live !! q.live
  {
    forall b | b in p.live ensures b !in q.live { assert b.pool == p; }
  }

  /** What the codec and the filter graph do with a pool; k picks one of the references they hold. */
  datatype Operation =
    | Get(w: int, h: int, pixFmt: int, sizeOk: bool, alloc: Allocation)
    | Ref(k: nat)
    | Release(k: nat)
    | FreePool

  lemma Without(s: seq<FrameBuffer>, k: nat)
    requires k < |s|
    ensures multiset(s[..k] + s[k + 1..]) == multiset(s) - multiset{s[k]} && s[k] in multiset(s)
  {
    assert s == s[..k] + [s[k]] + s[k + 1..];
  }

  method Perform(pool: Pool, held: seq<FrameBuffer>, op: Operation) returns (now: seq<FrameBuffer>)
    requires pool.Valid() && pool.refs == multiset(held) && (op.Get? && op.alloc.NoImage? ==> op.alloc.error < 0)
    modifies pool, pool.live
    ensures pool.Valid() && pool.refs == multiset(now) && fresh(pool.live - old(pool.live))
  {
    hide Pool.Linked, Pool.Counted;
    now := held;
    match op
    case Get(w, h, pixFmt, sizeOk, alloc) =>
      var ret, frame := pool.GetBuffer(w, h, pixFmt, sizeOk, alloc);
      if ret == 0 { now := held + [frame]; }
    case Ref(k) =>
      if k < |held| {
        HeldIsLive(pool, held, k);
        pool.AddRef(held[k]);
        now := held + [held[k]];
      }
    case Release(k) =>
      if k < |held| {
        HeldIsLive(pool, held, k);
        Without(held, k);
        pool.UnrefBuffer(held[k]);
        now := held[..k] + held[k + 1..];
      }
    case FreePool =>
      pool.FreeBufferPool();
  }

  /** Any sequence of operations keeps the pool valid, and its counts are the references still held. */
  method Use(pool: Pool, operations: seq<Operation>) returns (held: seq<FrameBuffer>)
    requires pool.Valid() && pool.refs == multiset{}
    requires forall op :: op in operations ==> op.Get? && op.alloc.NoImage? ==> op.alloc.error < 0
    modifies pool, pool.live
    ensures pool.Valid() && pool.refs == multiset(held)
  {
    hide Pool.Valid;
    held := [];
    for i := 0 to |operations|
      invariant pool.Valid() && pool.refs == multiset(held) && fresh(pool.live - old(pool.live))
    {
      held := Perform(pool, held, operations[i]);
    }
  }

  lemma HeldIsLive(pool: Pool, held: seq<FrameBuffer>, k: nat)
    requires pool.Valid() && pool.refs == multiset(held) && k < |held|
    ensures held[k] in pool.refs && held[k] in pool.live
  {
    assert held[k] in multiset(held);
  }
}
