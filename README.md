# capture-encode: the integer core of the capture and encode demo

This project models in Dafny the sequential, integer parts of a Raspberry Pi
capture-and-encode program: a V4L2 capture tool (`capture-encode.c`) and an
OpenMAX IL video-encode demo (`encode.c`). It covers:

- the planar YUV 4:2:0 frame layout of the encode demo (the `PITCH`,
  `HEIGHT`, `HEIGHT16` and `SIZE` macros) and `generate_test_card`, which
  draws an animated checkerboard-like test card into a frame buffer in place;
- the derivation of the encoder's input port definition from the loop's
  arguments, with the frame rate in Q16.16 fixed point, and the read-back of
  that rate when a port definition is reported;
- `time_diff`, the difference of two `struct timespec` values;
- the control rules of the capture program: the encode-mode normalisation
  after option parsing, the single read-mode buffer of `init_read` and the
  destination `read_frame` reads into, the search that matches a dequeued
  user-pointer buffer to the pool, and the countdown of `mainloop`.

Modules, one per component:

- `Common` (`common.dfy`): `byte` and `u32` newtypes, the C conversions to
  `unsigned int` and `char`, Option/Result, and a division lemma.
- `FrameLayout` (`frame_layout.dfy`): the layout macros as functions of the
  width, proved for every width and instantiated at 640.
- `TestCard` (`test_card.dfy`): the pattern, the byte values, the decoding of
  a buffer offset to the block that owns it, the specification `TestCard`
  of the whole frame, and `GenerateTestCard`, a method over an `array<byte>`
  with the source's nested loops and pointer advances, proved to leave
  `buf[..] == TestCard(old(buf[..]), frame)`.
- `PortDefinition` (`port_definition.dfy`): the port definition record, the
  field updates, and the Q16.16 conversion both ways.
- `Timespec` (`timespec.dfy`): `time_diff` and its exactness and
  normalisation.
- `Capture` (`capture.dfy`): the option record, the buffer table, the search
  and a `CaptureState` class for the program's globals, whose methods update
  them in place.

Modelling decisions:

- The bitwise `(x + 31) & ~31` and `(x + 15) & ~15` are written as
  "subtract the remainder": on a non-negative value, clearing the low bits is
  exactly that.
- `>> 4` on a C `int` is taken to be an arithmetic shift (floor division by
  16), and `^ ... & 15` is the exclusive or of the low four bits.
- Bytes stored through `char *` are reduced modulo 256. Only the V byte ever
  wraps.
- `OMX_U32` and `unsigned int` are `u32`. `frameRate << 16` on a `uint`
  loses the bits shifted past bit 31. `nStride` is the signed `OMX_S32`.
- Addresses are natural numbers with 0 for `NULL`. The result of `malloc` is
  a parameter of `InitRead`.
- `capture_frame` is an opaque step that only counts itself
  (`CaptureState.framesCaptured`).

## Model

| member | source | states |
|---|---|---|
| `FrameLayout.AlignUp` | encode.c:41-43 | rounding up to an alignment gives a multiple of it that is at least the input and less than input plus alignment |
| `FrameLayout.AlignUpIsLeast` | encode.c:41-43 | the rounded value is the least multiple of the alignment not below the input |
| `FrameLayout.AlignUpOfMultiple` | encode.c:41 | rounding leaves a value unchanged exactly when it is already aligned |
| `FrameLayout.PitchOf` | encode.c:41 | `PITCH` is a multiple of 32, at least the width and less than width + 32 |
| `FrameLayout.HeightOf` | encode.c:42 | `HEIGHT` is nine sixteenths of the width, rounded down |
| `FrameLayout.Height16Of` | encode.c:43 | `HEIGHT16` is a multiple of 16, at least `HEIGHT` and less than `HEIGHT` + 16 |
| `FrameLayout.SizeOf` | encode.c:44 | twice `SIZE` is exactly `3 * WIDTH * HEIGHT16`: the halving drops nothing |
| `FrameLayout.LumaPlaneOf` | encode.c:51 | the luma plane, `PITCH * HEIGHT16`, holds at least `WIDTH * HEIGHT` bytes |
| `FrameLayout.ChromaPlaneOf` | encode.c:52 | each chroma plane, `(PITCH >> 1) * (HEIGHT16 >> 1)`, is exactly a quarter of the luma plane |
| `FrameLayout.LayoutEndIsThreeHalves` | encode.c:51-52 | luma plane plus two quarter-size chroma planes occupy `PITCH*HEIGHT16*3/2` bytes |
| `FrameLayout.SizeMatchesLayout` | encode.c:41-44 | `SIZE` (computed from `WIDTH`) never exceeds the three planes laid out with `PITCH`, and equals them exactly when the width is a multiple of 32 |
| `FrameLayout.DemoConstants` | encode.c:40-44 | at width 640: `PITCH`=640, `HEIGHT`=360, `HEIGHT16`=368, `SIZE`=353280, equal to the layout's extent |
| `TestCard.PatternIndex` | encode.c:59 | the pattern index is always in 0..15 |
| `TestCard.PatternZeroOnDiagonal` | encode.c:59 | the index is 0 exactly where both coordinates fall in the same 16-pixel band (modulo 16 bands) |
| `TestCard.PatternScrolls` | encode.c:59 | frame f+1 shows at block (i, j) what frame f shows at block (i+1, j+1) |
| `TestCard.LumaValue` | encode.c:60 | the luma byte is `0x80 + 8z` without truncation, within 0x80..0xf8 |
| `TestCard.CbValue` | encode.c:61 | the U byte is `0x10*z` without truncation |
| `TestCard.CrValue` | encode.c:62 | the V byte is `(0x80 + 0x30*z) mod 256`, truncated exactly when z ≥ 3 |
| `TestCard.BlockValue` | encode.c:59-62 | a block's Y byte is `0x80 + 8z`, its U byte `0x10*z`, its V byte `(0x80 + 0x30*z) mod 256`, for its pattern index z |
| `TestCard.LumaOffset` | encode.c:55-63 | for every block the loops visit, the two-by-two square of luma bytes at `2j*PITCH + 2i` lies inside the luma plane |
| `TestCard.CbOffset` | encode.c:56-64 | for every block the loops visit, the U byte at `u + j*(PITCH/2) + i` lies inside the U plane |
| `TestCard.CrOffset` | encode.c:57-65 | for every block the loops visit, the V byte at `v + j*(PITCH/2) + i` lies inside the V plane |
| `TestCard.TestCard` | encode.c:54-66 | the buffer after drawing: same length; byte k holds the value of the block at k, or its old value when no block is there |
| `TestCard.BlockAt` | encode.c:51-58 | every offset the loops address belongs to a block with column below `WIDTH/2` and row below `HEIGHT/2` |
| `TestCard.LumaOffsetsAddressBlock` | encode.c:55-60 | the four luma offsets `2j*PITCH+2i+{0,1,PITCH,PITCH+1}` belong to block (i, j) |
| `TestCard.CbOffsetAddressesBlock` | encode.c:56-61 | the U offset `u + j*(PITCH/2) + i` belongs to block (i, j) |
| `TestCard.CrOffsetAddressesBlock` | encode.c:57-62 | the V offset `v + j*(PITCH/2) + i` belongs to block (i, j) |
| `TestCard.BlockOffsets` | encode.c:55-62 | conversely, an offset belonging to block (i, j) is one of its six written offsets |
| `TestCard.DrawStep` | encode.c:59-62 | drawing block (i, j) changes exactly its six bytes, to the block's values |
| `TestCard.DrawBlock` | encode.c:59-62 | one inner-loop step in place: afterwards the buffer shows every block up to and including (i, j) |
| `TestCard.GenerateTestCard` | encode.c:47-70 | the buffer afterwards is `TestCard` of its old contents; the fill length is `SIZE` and the result is 1 |
| `TestCard.LumaBlockBytes` | encode.c:55-60 | all four luma bytes of block (i, j) equal `0x80 + 8z` |
| `TestCard.CbByte` | encode.c:56-61 | the U byte of block (i, j) is `0x10*z` |
| `TestCard.CrByte` | encode.c:57-62 | the V byte of block (i, j) is `(0x80+0x30z) mod 256` |
| `TestCard.PaddingUntouched` | encode.c:54-58 | luma rows `HEIGHT..HEIGHT16-1`, chroma rows `HEIGHT/2..HEIGHT16/2-1` and all bytes past the V plane keep their value |
| `TestCard.WritesWithinLayout` | encode.c:51-66 | every changed byte is inside the three planes, hence within the first `SIZE` bytes, and belongs to an addressed block |
| `TestCard.RedrawOverwrites` | encode.c:54-67 | drawing a frame over another leaves no trace of the earlier one |
| `Common.ToByte` | encode.c:60-62 | storing an `int` into a `char` keeps it modulo 256, unchanged when it fits |
| `PortDefinition.ToS32` | encode.c:387 | the signed stride equals the width modulo 2^32, unchanged below 2^31 |
| `PortDefinition.ToQ16` | encode.c:385 | `frameRate << 16` on 32 bits is `(frameRate mod 2^16) * 2^16` |
| `PortDefinition.FromQ16` | encode.c:99 | `x >> 16` is the whole number of units of 2^16 in x, below 2^16 |
| `PortDefinition.Q16RoundTrip` | encode.c:385 | reading back a Q16.16 rate gives the rate modulo 2^16, and the rate itself exactly when it is below 2^16 |
| `PortDefinition.ReportedFrameRate` | encode.c:94-100 | the rate `print_def_` reports is the integer part of the Q16.16 `xFramerate` |
| `PortDefinition.ConfigureInputPort` | encode.c:382-388 | buffer size, width, height, colour format as given; stride = width, slice height = height; the rate is `frameRate << 16` on 32 bits and reads back as the given rate mod 2^16; every other modelled field as read |
| `PortDefinition.ReportedRateIsConfigured` | encode.c:382-390 | after configuration, the reported rate is the configured one for rates below 2^16 |
| `PortDefinition.ConfigureIdempotent` | encode.c:382-388 | configuring an already configured definition with the same arguments changes nothing |
| `PortDefinition.ConfigureTestCardPort` | encode.c:164-169 | the test-card port setup is the loop's setup at 640x360, 30 fps, planar YUV 4:2:0, buffer size unchanged; its rate is 1966080 and reads back as 30 |
| `Timespec.TimeDiff` | capture-encode.c:63-73 | the result is exact in total nanoseconds; from normalised inputs it is normalised, and non-negative in seconds when end is not before start |
| `Timespec.TimeDiffIsElapsed` | capture-encode.c:63-73 | from normalised inputs the result is the normalised form of the elapsed nanoseconds |
| `Common.ToU32` | capture-encode.c:222 | converting `frame_count` to `unsigned int` reduces it modulo 2^32 (a negative count becomes 2^32 + count) |
| `Capture.EncodeModeRule` | capture-encode.c:705-708 | in encode mode, I/O becomes read and output 0; otherwise the options are unchanged |
| `Capture.EncodeModeRuleIdempotent` | capture-encode.c:705-708 | applying the rule twice equals applying it once |
| `Capture.ReadModeBuffers` | capture-encode.c:331-339 | one entry whose length is the buffer size; its start is `NULL` with external buffers, the allocation otherwise |
| `Capture.ReadDestination` | capture-encode.c:135-137 | read mode reads into the caller's buffer, and into the internal buffer only when the caller passes `NULL` |
| `Capture.ReadModeDestinations` | capture-encode.c:705-729 | with the read I/O method and without encode mode, `capture_frame(NULL, NULL)` reads into the allocated internal buffer; with it, into exactly the caller's buffer |
| `Capture.Matches` | capture-encode.c:170-171 | a dequeued buffer is pool entry i when both its address and its length agree with the entry |
| `Capture.FindUserptrBuffer` | capture-encode.c:169-172 | the first index whose address and length both match, or `n_buffers` exactly when none does |
| `Capture.MatchDequeuedBuffer` | capture-encode.c:166-174 | the matching pool index, or the assertion failure exactly when no entry matches |
| `Capture.CaptureState.constructor` | capture-encode.c:48-61 | the initial globals: mmap I/O, no output, no encoding, 100 frames, no buffers |
| `Capture.CaptureState.ApplyEncodeMode` | capture-encode.c:705-708 | the globals afterwards are `EncodeModeRule` of the globals before |
| `Capture.CaptureState.InitRead` | capture-encode.c:322-340 | the buffer table becomes `ReadModeBuffers`; it fails exactly when an internal buffer is needed and the allocation returned `NULL` |
| `Capture.CaptureState.ReadFrameDestination` | capture-encode.c:134-137 | the read goes to `ReadDestination` with at most `buffers[0].length` bytes |
| `Capture.CaptureState.ReadFrameUserptr` | capture-encode.c:161-174 | the first pool index among the first `n_buffers` entries that matches the dequeued buffer, or the assertion failure exactly when none does |
| `Capture.CaptureState.CaptureFrame` | capture-encode.c:186-212 | one capture, counted |
| `Capture.CaptureState.MainLoop` | capture-encode.c:220-229 | exactly `frame_count` (as `unsigned int`) captures, none for 0 |

## Left out

- All OpenMAX IL and `ilclient` calls in `encode.c` (component creation, parameter get/set, state changes, port enabling, buffer submission and retrieval, tunnels, teardown): they are thin calls into a library that is not part of this model, with asynchronous hardware callbacks.
- The busy wait for the encoder's output in `encode.c`: it races with hardware.
- V4L2 device I/O in `capture-encode.c` (`open_device`, `init_device`, `init_mmap`, `init_userp`, starting and stopping capture, `uninit_device`, `xioctl`, the `select` loop of `capture_frame`, and the `read()`/ioctl calls inside `read_frame`): system calls, memory mapping and timeouts.
- The memory-mapped branch of `read_frame` and its index assertion: device I/O around one comparison.
- Frame-rate statistics in `process_image` and `report_fps_avg`: floating point and the system clock. Only the integer `time_diff` is modelled.
- Option parsing with `getopt_long`, `usage`, output with `fwrite`/`fprintf`, and the `exit` paths: I/O and process control. Only the post-parse rule is kept. The `calloc` failure in `init_read` exits the process and is not modelled.
- `print_def_`: only the reported frame rate is modelled, not the text it prints.
- Timespec.TimeDiff: does not model overflow of the platform-width `time_t` and `long` fields (32 bits on the Raspberry Pi); for normalised inputs the nanosecond sum stays below 2·10^9 < 2^31, so only an overflow of the seconds is left out, and the inputs come from a monotonic clock.
- Capture.CaptureState.MainLoop: the `strtol` conversion of the count option to `int` is not modelled; `frame_count` is taken as already an `int`.
- TestCard.GenerateTestCard: requires both the buffer to hold the three planes and `i + frame` to stay within a C `int`, as the source needs; the caller's frame counter starts at 0.
