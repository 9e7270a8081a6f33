/** The LED framebuffer character device: the flush `ioctl`, which sends
    the buffer to the FPGA FIFO as a chain of DMA transfers of at most one
    page each, the `mmap` argument checks, and the completion callback that
    counts finished transfers. The DMA engine and the page-table remapping
    are outside the model: what they answer is given as parameters. */
module LedDriver {
  import opened Constants

  /** `BUFFER_SIZE`: the largest buffer the driver maps or sends. */
  const BUFFER_SIZE: nat := 0x4000
  /** The largest single DMA transfer the flush issues. */
  const CHUNK_SIZE: nat := 4096
  /** `PAGE_SHIFT`: a page offset of `pgoff` pages is `pgoff << PAGE_SHIFT` bytes. */
  const PAGE_SHIFT: nat := 12
  const PAGE_SIZE: nat := 4096

  /** Error numbers, returned negated. */
  const ENXIO: int := 6
  const EINVAL: int := 22

  /** One memcpy descriptor: `size` bytes from bus address `start` to the FIFO. */
  datatype Chunk = Chunk(start: nat, size: nat)

  /** The driver's state: the remembered flush size, the completion counter,
      every descriptor submitted to the DMA channel and how many of them
      `dma_async_issue_pending` has released so far. */
  datatype Device = Device(fbSize: nat, frame: int, submitted: seq<Chunk>, issued: nat)

  /** What the DMA engine answers for the `k`-th descriptor of a flush:
      whether `device_prep_dma_memcpy` returns a descriptor, and whether
      `tx_submit` accepts it. */
  type Answer = nat -> bool

  /** A flush size the driver accepts. */
  predicate ValidSize(n: nat) {
    0 < n <= BUFFER_SIZE
  }

  /** The transfers the flush loop cuts `[start, start + size)` into. */
  function Chunks(start: nat, size: nat): seq<Chunk>
    decreases size
  {
    if size == 0 then []
    else
      var n := if size > CHUNK_SIZE then CHUNK_SIZE else size;
      [Chunk(start, n)] + Chunks(start + n, size - n)
  }

  /** The number of bytes `cs` moves. */
  function Total(cs: seq<Chunk>): nat {
    if cs == [] then 0 else cs[0].size + Total(cs[1..])
  }

  /** The chunks are contiguous from `start`, none is empty or longer than a
      page, every one but the last is a full page, they move `size` bytes in
      all, and there are `ceil(size / 4096)` of them. */
  lemma {:induction false} ChunksShape(start: nat, size: nat)
    ensures var cs := Chunks(start, size);
            && |cs| == (size + CHUNK_SIZE - 1) / CHUNK_SIZE
            && Total(cs) == size
            && (|cs| > 0 ==> cs[0].start == start)
            && (forall i :: 0 <= i < |cs| ==> 0 < cs[i].size <= CHUNK_SIZE)
            && (forall i :: 0 <= i < |cs| - 1 ==> cs[i].size == CHUNK_SIZE)
            && (forall i :: 0 <= i < |cs| - 1 ==> cs[i + 1].start == cs[i].start + cs[i].size)
    decreases size
  {
    if size > 0 {
      var n := if size > CHUNK_SIZE then CHUNK_SIZE else size;
      ChunksShape(start + n, size - n);
      var cs := Chunks(start, size);
      var rest := Chunks(start + n, size - n);
      assert cs == [Chunk(start, n)] + rest;
      assert cs[1..] == rest;
      if size > CHUNK_SIZE {
        assert (size - n + CHUNK_SIZE - 1) / CHUNK_SIZE + 1 == (size + CHUNK_SIZE - 1) / CHUNK_SIZE;
      } else {
        assert rest == [];
      }
    }
  }

  /** The last chunk ends exactly at `start + size`. */
  lemma {:induction false} ChunksEnd(start: nat, size: nat)
    requires size > 0
    ensures var cs := Chunks(start, size);
            |cs| > 0 && cs[|cs| - 1].start + cs[|cs| - 1].size == start + size
    decreases size
  {
    var n := if size > CHUNK_SIZE then CHUNK_SIZE else size;
    if size > n {
      ChunksEnd(start + n, size - n);
      assert Chunks(start, size)[1..] == Chunks(start + n, size - n);
    }
  }

  /** An accepted size never needs more than four transfers. */
  lemma ValidSizeAtMostFourChunks(start: nat, size: nat)
    requires ValidSize(size)
    ensures 1 <= |Chunks(start, size)| <= 4
  {
    ChunksShape(start, size);
  }

  /** A whole frame goes out as two full pages and a 304-byte tail. */
  lemma FrameChunks(start: nat)
    ensures Chunks(start, FRAME_SIZE_BYTES)
            == [Chunk(start, 4096), Chunk(start + 4096, 4096), Chunk(start + 8192, 304)]
  {
    assert Chunks(start + 8192, 304) == [Chunk(start + 8192, 304)] + Chunks(start + 8496, 0);
    assert Chunks(start + 4096, 4400) == [Chunk(start + 4096, 4096)] + Chunks(start + 8192, 304);
  }

  function FirstFailureFrom(n: nat, prepOk: Answer, submitOk: Answer, k: nat): (f: nat)
    requires k <= n
    ensures k <= f <= n
    ensures forall j :: k <= j < f ==> prepOk(j) && submitOk(j)
    ensures f < n ==> !(prepOk(f) && submitOk(f))
    decreases n - k
  {
    if k == n then n
    else if !(prepOk(k) && submitOk(k)) then k
    else FirstFailureFrom(n, prepOk, submitOk, k + 1)
  }

  /** The first of `n` descriptors the engine refuses, or `n` if it takes
      them all. */
  function FirstFailure(n: nat, prepOk: Answer, submitOk: Answer): (f: nat)
    ensures f <= n
    ensures forall j :: 0 <= j < f ==> prepOk(j) && submitOk(j)
    ensures f < n ==> !(prepOk(f) && submitOk(f))
  {
    FirstFailureFrom(n, prepOk, submitOk, 0)
  }

  /** `ioctl_ledfb(param)` on `dev` with the buffer at bus address `start`:
      the new state and the return value. */
  function IoctlStep(dev: Device, start: nat, param: nat, prepOk: Answer, submitOk: Answer): (Device, int) {
    var size := if param > 0 then param else dev.fbSize;
    if !ValidSize(size) then
      (dev.(fbSize := 0), -EINVAL)
    else
      FlushStep(dev.(fbSize := size), start, prepOk, submitOk)
  }

  /** The transfer loop of `ioctl_ledfb` for the remembered size: the
      chunks up to the first refused descriptor are submitted, and the
      channel is released only when every one was. */
  function FlushStep(dev: Device, start: nat, prepOk: Answer, submitOk: Answer): (Device, int) {
    var cs := Chunks(start, dev.fbSize);
    var f := FirstFailure(|cs|, prepOk, submitOk);
    var sent := dev.(submitted := dev.submitted + cs[..f]);
    if f == |cs| then (sent.(issued := |sent.submitted|), 0)
    else if !prepOk(f) then (sent, -ENXIO)
    else (sent, -EINVAL)
  }

  /** A size that is zero (with nothing remembered) or above `BUFFER_SIZE`
      is refused with -EINVAL, forgets the remembered size and sends
      nothing. */
  lemma IoctlRejectsSize(dev: Device, start: nat, param: nat, prepOk: Answer, submitOk: Answer)
    requires !ValidSize(if param > 0 then param else dev.fbSize)
    ensures var (d, rc) := IoctlStep(dev, start, param, prepOk, submitOk);
            rc == -EINVAL && d == dev.(fbSize := 0)
  {
  }

  /** With an accepted size and an engine that takes every descriptor, the
      flush submits all the chunks, releases them and returns 0; the size is
      remembered and the frame counter untouched. */
  lemma IoctlSends(dev: Device, start: nat, param: nat, prepOk: Answer, submitOk: Answer)
    requires ValidSize(if param > 0 then param else dev.fbSize)
    requires forall k :: prepOk(k) && submitOk(k)
    ensures var size := if param > 0 then param else dev.fbSize;
            var (d, rc) := IoctlStep(dev, start, param, prepOk, submitOk);
            && rc == 0
            && d.fbSize == size && d.frame == dev.frame
            && d.submitted == dev.submitted + Chunks(start, size)
            && d.issued == |d.submitted|
  {
    var size := if param > 0 then param else dev.fbSize;
    var cs := Chunks(start, size);
    assert FirstFailure(|cs|, prepOk, submitOk) == |cs|;
    assert cs[..|cs|] == cs;
  }

  /** When the engine refuses descriptor `f`, the flush returns -ENXIO (no
      descriptor) or -EINVAL (not submitted), keeps the descriptors before
      `f` submitted, issues nothing and sends no later chunk. */
  lemma IoctlStopsAtFailure(dev: Device, start: nat, param: nat, prepOk: Answer, submitOk: Answer, f: nat)
    requires ValidSize(if param > 0 then param else dev.fbSize)
    requires f < |Chunks(start, if param > 0 then param else dev.fbSize)|
    requires forall j :: 0 <= j < f ==> prepOk(j) && submitOk(j)
    requires !(prepOk(f) && submitOk(f))
    ensures var size := if param > 0 then param else dev.fbSize;
            var (d, rc) := IoctlStep(dev, start, param, prepOk, submitOk);
            && rc == (if !prepOk(f) then -ENXIO else -EINVAL)
            && d.fbSize == size && d.frame == dev.frame
            && d.submitted == dev.submitted + Chunks(start, size)[..f]
            && d.issued == dev.issued
  {
    var size := if param > 0 then param else dev.fbSize;
    var g := FirstFailure(|Chunks(start, size)|, prepOk, submitOk);
    assert g == f;
  }

  /** The flush returns 0, -ENXIO or -EINVAL, and releases the channel only
      when it returns 0. */
  lemma IoctlResults(dev: Device, start: nat, param: nat, prepOk: Answer, submitOk: Answer)
    ensures var (d, rc) := IoctlStep(dev, start, param, prepOk, submitOk);
            && (rc == 0 || rc == -ENXIO || rc == -EINVAL)
            && (rc != 0 ==> d.issued == dev.issued)
            && d.frame == dev.frame
            && |dev.submitted| <= |d.submitted| <= |dev.submitted| + 4
            && d.submitted[..|dev.submitted|] == dev.submitted
  {
    var size := if param > 0 then param else dev.fbSize;
    if ValidSize(size) {
      ValidSizeAtMostFourChunks(start, size);
    }
  }

  /** A size passed once is remembered: a later flush with parameter 0 uses
      it again. */
  lemma SizeRemembered(dev: Device, start: nat, param: nat, prepOk: Answer, submitOk: Answer,
                       start2: nat, prepOk2: Answer, submitOk2: Answer)
    requires ValidSize(param)
    ensures var d := IoctlStep(dev, start, param, prepOk, submitOk).0;
            IoctlStep(d, start2, 0, prepOk2, submitOk2).0.fbSize == param
  {
  }

  /** `mmap_ledfb` for a mapping of `size` bytes at page offset `pgoff`;
      `remapOk` is what `remap_pfn_range` answers. */
  function MmapStep(dev: Device, pgoff: nat, size: nat, remapOk: bool): (Device, int) {
    var offset := pgoff * PAGE_SIZE;
    if offset != 0 then (dev, -EINVAL)
    else if size > BUFFER_SIZE then (dev, -EINVAL)
    else (dev.(fbSize := 0, frame := 0), if remapOk then 0 else -ENXIO)
  }

  /** A nonzero offset or an oversized mapping is refused with -EINVAL and
      changes nothing; otherwise the size and the counter are cleared, even
      when the remap then fails. */
  lemma MmapChecks(dev: Device, pgoff: nat, size: nat, remapOk: bool)
    ensures var (d, rc) := MmapStep(dev, pgoff, size, remapOk);
            && (pgoff != 0 || size > BUFFER_SIZE <==> rc == -EINVAL)
            && (rc == -EINVAL ==> d == dev)
            && (rc != -EINVAL ==> d == dev.(fbSize := 0, frame := 0) && (rc == 0 <==> remapOk))
  {
  }

  /** After a successful `mmap`, a flush with parameter 0 has no size to
      reuse: it is refused with -EINVAL and sends nothing. */
  lemma MmapThenBareFlush(dev: Device, pgoff: nat, size: nat, remapOk: bool,
                          start: nat, prepOk: Answer, submitOk: Answer)
    requires MmapStep(dev, pgoff, size, remapOk).1 == 0
    ensures var d := MmapStep(dev, pgoff, size, remapOk).0;
            var (e, rc) := IoctlStep(d, start, 0, prepOk, submitOk);
            rc == -EINVAL && e.submitted == dev.submitted && e.fbSize == 0 && e.frame == 0
  {
  }

  /** `dma_callback`: one completed transfer. */
  function CallbackStep(dev: Device): Device {
    dev.(frame := dev.frame + 1)
  }

  /** `n` completions. */
  function Callbacks(dev: Device, n: nat): Device
    decreases n
  {
    if n == 0 then dev else Callbacks(CallbackStep(dev), n - 1)
  }

  /** Each completion adds exactly one to the counter and touches nothing
      else, so `n` completions add `n`. */
  lemma {:induction false} CallbacksCount(dev: Device, n: nat)
    ensures Callbacks(dev, n) == dev.(frame := dev.frame + n)
    decreases n
  {
    if n > 0 {
      CallbacksCount(CallbackStep(dev), n - 1);
    }
  }

  /** The counter counts transfers, not frames: once the three transfers of
      one flushed frame complete, it has moved on by three. */
  lemma FrameFlushCountsThree(dev: Device, start: nat, prepOk: Answer, submitOk: Answer)
    requires forall k :: prepOk(k) && submitOk(k)
    ensures var (d, rc) := IoctlStep(dev, start, FRAME_SIZE_BYTES, prepOk, submitOk);
            && rc == 0
            && |d.submitted| == |dev.submitted| + 3
            && Callbacks(d, |d.submitted| - |dev.submitted|).frame == dev.frame + 3
  {
    FrameSizeFacts();
    IoctlSends(dev, start, FRAME_SIZE_BYTES, prepOk, submitOk);
    FrameChunks(start);
    var d := IoctlStep(dev, start, FRAME_SIZE_BYTES, prepOk, submitOk).0;
    CallbacksCount(d, 3);
  }

  /** The device structure `ledfb_dev`; `srcHandle` is the bus address the
      buffer was mapped at when the module loaded. */
  class LedFb {
    var fbSize: nat
    var frame: int
    var submitted: seq<Chunk>
    var issued: nat
    const srcHandle: nat

    function Value(): Device
      reads this
    {
      Device(fbSize, frame, submitted, issued)
    }

    /** The zeroed static structure, once the buffer is mapped. */
    constructor (srcHandle: nat)
      ensures Value() == Device(0, 0, [], 0) && this.srcHandle == srcHandle
    {
      this.srcHandle := srcHandle;
      fbSize := 0;
      frame := 0;
      submitted := [];
      issued := 0;
    }

    /** `ioctl_ledfb`: the flush. */
    method Ioctl(param: nat, prepOk: Answer, submitOk: Answer) returns (rc: int)
      modifies this
      ensures (Value(), rc) == IoctlStep(old(Value()), srcHandle, param, prepOk, submitOk)
    {
      if param > 0 {
        fbSize := param;
      }
      if fbSize == 0 || fbSize > BUFFER_SIZE {
        fbSize := 0;
        return -EINVAL;
      }
      rc := Flush(prepOk, submitOk);
    }

    /** The `while (buf_start < buf_end)` loop of `ioctl_ledfb` and the
        `dma_async_issue_pending` after it. */
    method Flush(prepOk: Answer, submitOk: Answer) returns (rc: int)
      requires ValidSize(fbSize)
      modifies this
      ensures (Value(), rc) == FlushStep(old(Value()), srcHandle, prepOk, submitOk)
    {
      ghost var dev := Value();
      var bufStart := srcHandle;
      var bufEnd := srcHandle + fbSize;
      ghost var cs := Chunks(srcHandle, fbSize);
      ghost var f := FirstFailure(|cs|, prepOk, submitOk);
      var k: nat := 0;
      while bufStart < bufEnd
        invariant srcHandle <= bufStart <= bufEnd && k <= |cs| && k <= f
        invariant Chunks(bufStart, bufEnd - bufStart) == cs[k..]
        invariant submitted == dev.submitted + cs[..k]
        invariant fbSize == dev.fbSize == bufEnd - srcHandle && frame == dev.frame && issued == dev.issued
        decreases bufEnd - bufStart
      {
        var bufSize := bufEnd - bufStart;
        if bufSize > CHUNK_SIZE {
          bufSize := CHUNK_SIZE;
        }
        assert cs[k] == Chunk(bufStart, bufSize) && cs[k + 1..] == Chunks(bufStart + bufSize, bufEnd - bufStart - bufSize);
        if !prepOk(k) {
          return -ENXIO;
        }
        if !submitOk(k) {
          return -EINVAL;
        }
        submitted := submitted + [Chunk(bufStart, bufSize)];
        assert cs[..k + 1] == cs[..k] + [cs[k]];
        bufStart := bufStart + bufSize;
        k := k + 1;
      }
      assert k == |cs| && cs[..k] == cs;
      issued := |submitted|;
      rc := 0;
    }

    /** `mmap_ledfb`: `size` is `vm_end - vm_start`. */
    method Mmap(pgoff: nat, size: nat, remapOk: bool) returns (rc: int)
      modifies this
      ensures (Value(), rc) == MmapStep(old(Value()), pgoff, size, remapOk)
    {
      var offset := pgoff * PAGE_SIZE;
      if offset != 0 {
        return -EINVAL;
      }
      if size > BUFFER_SIZE {
        return -EINVAL;
      }
      fbSize := 0;
      frame := 0;
      if !remapOk {
        return -ENXIO;
      }
      rc := 0;
    }

    /** `dma_callback`. */
    method Callback()
      modifies this
      ensures Value() == CallbackStep(old(Value()))
    {
      frame := frame + 1;
    }
  }
}
