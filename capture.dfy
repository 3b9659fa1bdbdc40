/**
 * The integer control rules of the V4L2 capture program: the encode-mode
 * normalisation after option parsing, the single read-mode buffer set up
 * by `init_read` and the destination `read_frame` reads into, the search
 * that matches a dequeued user-pointer buffer to the pool, and the
 * countdown that captures `frame_count` frames.
 */
module Capture {

  import opened Common

  /** `enum io_method`. */
  datatype IoMethod = IoRead | IoMmap | IoUserptr

  /** A memory address; 0 is `NULL`. */
  type Address = nat

  const Null: Address := 0

  /** `struct buffer`: the start address and length of one capture buffer. */
  datatype BufferInfo = BufferInfo(start: Address, length: nat)

  /** The option globals that the post-parse rule reads and writes. */
  datatype Options = Options(io: IoMethod, output: int, encode: int)

  /**
   * After option parsing: encode mode forces `read()` I/O and turns raw
   * output to standard output off, whatever the flags said; without encode
   * mode the options stay as parsed.
   */
  function EncodeModeRule(o: Options): (r: Options)
    ensures r.encode == o.encode
    ensures o.encode != 0 ==> r.io == IoRead && r.output == 0
    ensures o.encode == 0 ==> r == o
  {
    if o.encode != 0 then o.(io := IoRead, output := 0) else o
  }

  /** Applying the rule a second time changes nothing. */
  lemma EncodeModeRuleIdempotent(o: Options)
    ensures EncodeModeRule(EncodeModeRule(o)) == EncodeModeRule(o)
  {
  }

  /** The buffer table `init_read` leaves: one entry of the given length, unallocated when the caller supplies the buffers. */
  function ReadModeBuffers(bufferSize: nat, externalReadBuffer: bool, allocation: Address): (r: seq<BufferInfo>)
    ensures |r| == 1 && r[0].length == bufferSize
    ensures externalReadBuffer ==> r[0].start == Null
    ensures !externalReadBuffer ==> r[0].start == allocation
  {
    [BufferInfo(if externalReadBuffer then Null else allocation, bufferSize)]
  }

  /** The address `read_frame` reads into in read mode: the caller's buffer, or the internal one when the caller passes `NULL`. */
  function ReadDestination(buffers: seq<BufferInfo>, outBuf: Address): (dest: Address)
    requires |buffers| >= 1
    ensures outBuf != Null ==> dest == outBuf
    ensures outBuf == Null ==> dest == buffers[0].start
  {
    if outBuf == Null then buffers[0].start else outBuf
  }

  /**
   * With the read I/O method and without encode mode, `init_device` runs
   * `init_read` with no external buffer and `main` then captures with `capture_frame(NULL, NULL)`:
   * once the allocation succeeded, every read goes to the freshly allocated
   * internal buffer, never to `NULL`. In encode mode, reads go to exactly
   * the buffer the caller passes.
   */
  lemma ReadModeDestinations(o: Options, bufferSize: nat, allocation: Address, outBuf: Address)
    requires allocation != Null
    ensures var opts := EncodeModeRule(o);
      var buffers := ReadModeBuffers(bufferSize, opts.encode != 0, allocation);
      && (opts.encode == 0 && opts.io == IoRead ==> ReadDestination(buffers, Null) == allocation)
      && (opts.encode == 0 && opts.io == IoRead ==> ReadDestination(buffers, Null) != Null)
      && (opts.encode != 0 ==> opts.io == IoRead && ReadDestination(buffers, outBuf) == outBuf)
  {
  }

  /** A dequeued user-pointer buffer is pool entry `b` when both its address and its length agree. */
  predicate Matches(b: BufferInfo, userptr: Address, length: nat) {
    userptr == b.start && length == b.length
  }

  /**
   * The search loop of `read_frame` in user-pointer mode: the index of the
   * first of the `nBuffers` pool entries that the dequeued buffer matches,
   * or `nBuffers` when there is none.
   */
  method FindUserptrBuffer(buffers: seq<BufferInfo>, nBuffers: nat, userptr: Address, length: nat) returns (i: nat)
    requires nBuffers <= |buffers|
    ensures i <= nBuffers
    ensures i < nBuffers ==> Matches(buffers[i], userptr, length)
    ensures forall k :: 0 <= k < i ==> !Matches(buffers[k], userptr, length)
    ensures i < nBuffers <==> exists k :: 0 <= k < nBuffers && Matches(buffers[k], userptr, length)
  {
    i := 0;
    while i < nBuffers
      invariant i <= nBuffers
      invariant forall k :: 0 <= k < i ==> !Matches(buffers[k], userptr, length)
    {
      if userptr == buffers[i].start && length == buffers[i].length {
        break;
      }
      i := i + 1;
    }
  }

  /** `assert(i < n_buffers)` failing: the dequeued buffer is not one of the pool's. */
  datatype Fault = AssertionFailed

  /**
   * The user-pointer branch of `read_frame` after `VIDIOC_DQBUF`: the pool
   * index of the dequeued buffer, or the assertion failure when it matches
   * no entry.
   */
  method MatchDequeuedBuffer(buffers: seq<BufferInfo>, nBuffers: nat, userptr: Address, length: nat)
    returns (r: Result<nat, Fault>)
    requires nBuffers <= |buffers|
    ensures r.Ok? ==> r.value < nBuffers && Matches(buffers[r.value], userptr, length)
    ensures r.Ok? ==> forall k :: 0 <= k < r.value ==> !Matches(buffers[k], userptr, length)
    ensures r.Err? <==> forall k :: 0 <= k < nBuffers ==> !Matches(buffers[k], userptr, length)
  {
    var i := FindUserptrBuffer(buffers, nBuffers, userptr, length);
    if i < nBuffers {
      r := Ok(i);
    } else {
      r := Err(AssertionFailed);
    }
  }

  /**
   * The process-wide state of the capture program that these rules touch.
   * `framesCaptured` counts the calls of `capture_frame`, whose device I/O
   * is outside the model.
   */
  class CaptureState {
    var io: IoMethod
    var output: int
    var encode: int
    var frameCount: int
    var buffers: seq<BufferInfo>
    var nBuffers: nat
    var framesCaptured: nat

    /** The static initialisers: memory-mapped I/O, no output, no encoding, 100 frames. */
    constructor ()
      ensures io == IoMmap && output == 0 && encode == 0 && frameCount == 100
      ensures buffers == [] && nBuffers == 0 && framesCaptured == 0
    {
      io, output, encode, frameCount := IoMmap, 0, 0, 100;
      buffers, nBuffers, framesCaptured := [], 0, 0;
    }

    function CurrentOptions(): Options
      reads this
    {
      Options(io, output, encode)
    }

    /** The normalisation at the end of option parsing in `main`. */
    method ApplyEncodeMode()
      modifies this`io, this`output
      ensures CurrentOptions() == EncodeModeRule(old(CurrentOptions()))
    {
      if encode != 0 {
        io := IoRead;
        output := 0;
      }
    }

    /**
     * `init_read`: one buffer-table entry whose length is the capture size;
     * its memory is allocated (`allocation`, the result of `malloc`) only
     * when the caller does not supply buffers. `ok` is false when that
     * allocation fails, where the program exits.
     */
    method InitRead(bufferSize: u32, externalReadBuffer: bool, allocation: Address) returns (ok: bool)
      modifies this`buffers
      ensures buffers == ReadModeBuffers(bufferSize as nat, externalReadBuffer, allocation)
      ensures ok <==> externalReadBuffer || allocation != Null
    {
      buffers := [BufferInfo(Null, bufferSize as nat)];
      ok := true;
      if !externalReadBuffer {
        buffers := [buffers[0].(start := allocation)];
        ok := allocation != Null;
      }
    }

    /** The destination of the `read()` in the read-mode branch of `read_frame`. */
    method ReadFrameDestination(outBuf: Address) returns (dest: Address, maxLength: nat)
      requires |buffers| >= 1
      ensures dest == ReadDestination(buffers, outBuf) && maxLength == buffers[0].length
    {
      dest := outBuf;
      if dest == Null {
        dest := buffers[0].start;
      }
      maxLength := buffers[0].length;
    }

    /** The user-pointer branch of `read_frame`, matching the dequeued buffer against the first `n_buffers` entries. */
    method ReadFrameUserptr(userptr: Address, length: nat) returns (r: Result<nat, Fault>)
      requires nBuffers <= |buffers|
      ensures r.Ok? ==> r.value < nBuffers && Matches(buffers[r.value], userptr, length)
      ensures r.Ok? ==> forall k :: 0 <= k < r.value ==> !Matches(buffers[k], userptr, length)
      ensures r.Err? <==> forall k :: 0 <= k < nBuffers ==> !Matches(buffers[k], userptr, length)
    {
      r := MatchDequeuedBuffer(buffers, nBuffers, userptr, length);
    }

    /** One `capture_frame(NULL, NULL)`: its select loop and device read are outside the model. */
    method CaptureFrame()
      modifies this`framesCaptured
      ensures framesCaptured == old(framesCaptured) + 1
    {
      framesCaptured := framesCaptured + 1;
    }

    /**
     * `mainloop`: `frame_count` converted to `unsigned int` and counted
     * down with `while (count-- > 0)`, capturing one frame per iteration;
     * no frame for a count of 0, and 2^32 + frame_count frames for a
     * negative count.
     */
    method MainLoop()
      modifies this`framesCaptured
      ensures framesCaptured == old(framesCaptured) + ToU32(frameCount) as int
    {
      var count := ToU32(frameCount);
      while count > 0
        invariant framesCaptured + count as int == old(framesCaptured) + ToU32(frameCount) as int
      {
        // the post-decrement after the final test wraps `count` to UINT_MAX; it is not read again
        count := count - 1;
        CaptureFrame();
      }
    }
  }
}
