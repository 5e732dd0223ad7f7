# NV21 packing and per-frame bookkeeping of a camera edge-detection app

The app takes YUV_420_888 frames from the camera's image reader, packs them
into one NV21 byte array, has OpenCV convert that to RGBA and run a Canny edge
detector in native code, and hands the result to an OpenGL renderer. Nearly all
of the hand-written frame logic is in `MainActivity.kt`. This project models two
parts of it:

- **`Nv21Packer`** models `imageToMat`. The output array is zero-filled. The
  Y plane is copied to its front. A `while` loop with two cursors (`pos` into
  the output, `i` into the chroma planes) then writes `V[i]` and then `U[i]`
  for `i = 0, 2, 4, …` while `i` is below the U plane's remaining count. The
  result is wrapped as an 8-bit single-channel matrix of `height + height/2`
  rows by `width` columns. `PackNv21` keeps the array and the loop. It is
  proved equal to the function `Nv21` (luma, then `ChromaBytes`, then zeros).
  Lemmas then give where every output byte comes from, the V-before-U pair
  that each iteration writes, an inverse (splitting and de-interleaving the
  buffer gives back the Y plane and every second U and V sample), and how the
  matrix shape relates to the buffer length. The loop stays in bounds exactly
  when `ChromaFits` holds (`PackNv21` for one direction, `ChromaFitsExact` for
  the other). `PackNv21` requires it. `ImageToMat` models the
  exception thrown when it does not hold, or when a plane is missing, as a
  `Failure`.
- **`FramePipeline`** models the `onFrameAvailable` lambda. `FrameHandler` is
  a class with the source's `frameCount` and `lastFpsTime` fields. It also has
  ghost counters of acquired and closed images. `ProcessFrame` is the try
  block: each step either completes or ends the block with `Fail(stage)`.
  `OnFrameAvailable` runs the try block and then closes the image (the finally
  block), and does nothing when the reader returned no image. Both methods are
  proved against the pure functions `Tick` and `Handle`. Lemmas over any
  sequence of invocations (`HandlerWindow` combines them from the initial
  state) show three things: N acquired images mean N closes;
  failed frames leave no trace in the frame-rate window; and, on a clock that does not go
  backwards, the counter holds exactly the frames since the window last
  restarted, all within one second of `lastFpsTime`.

Inputs that come from the platform are parameters:

- the image (or `None`) returned by `acquireLatestImage`;
- the reading of `System.currentTimeMillis()`;
- the first foreign step that throws (`failAt`), standing for the OpenCV, JNI
  and GL calls.

The app itself builds only the NV21 buffer. It leaves the conversion to RGBA
to OpenCV.

Files: `wrappers.dfy` (Option, Result), `nv21.dfy` (module `Nv21Packer`),
`frame_handler.dfy` (module `FramePipeline`).

## Model

| member | source | states |
|---|---|---|
| `Nv21Packer.ChromaIterations` | app/src/main/java/com/flamapp/MainActivity.kt:115-119 | the loop runs ceil(uRemaining/2) times: `uRemaining <= 2n < uRemaining + 2` |
| `Nv21Packer.Nv21` | app/src/main/java/com/flamapp/MainActivity.kt:103-104 | the packed buffer has length ySize + width*height/2 |
| `Nv21Packer.ChromaBytes` | app/src/main/java/com/flamapp/MainActivity.kt:114-120 | the loop writes exactly 2*ceil(uRemaining/2) chroma bytes, so it leaves `pos = ySize + 2*ceil(uRemaining/2)` |
| `Nv21Packer.ChromaBytesAt` | app/src/main/java/com/flamapp/MainActivity.kt:116-119 | chroma byte c is V[c] when c is even and U[c-1] when c is odd |
| `Nv21Packer.Nv21At` | app/src/main/java/com/flamapp/MainActivity.kt:104-120 | every output byte is a Y byte at the same index, a chroma byte as above, or the zero left by the initialisation after the last chroma write |
| `Nv21Packer.Nv21ChromaPair` | app/src/main/java/com/flamapp/MainActivity.kt:114-120 | for each iteration k, nv21[ySize+2k] = V[2k] and nv21[ySize+2k+1] = U[2k] (V before U, every second byte taken) |
| `Nv21Packer.ChromaFitsExact` | app/src/main/java/com/flamapp/MainActivity.kt:114-120 | the in-bounds condition holds exactly when every iteration k reads V[2k] and writes chroma offsets 2k and 2k+1 in bounds; when it fails, the last iteration is out of bounds |
| `Nv21Packer.PackNv21` | app/src/main/java/com/flamapp/MainActivity.kt:103-120 | under the exact in-bounds condition (writes fit the chroma capacity and every V read is below vRemaining), the array is freshly allocated, has length ySize + width*height/2, and its contents are the NV21 buffer: Y prefix unchanged, interleaved chroma, zero tail |
| `Nv21Packer.EvenSamples` | app/src/main/java/com/flamapp/MainActivity.kt:119 | taking every second byte of a plane gives ceil(n/2) samples, sample t being byte 2t |
| `Nv21Packer.DeinterleaveChroma` | app/src/main/java/com/flamapp/MainActivity.kt:114-120 | de-interleaving the chroma region gives back all even-indexed U samples and the same number of even-indexed V samples |
| `Nv21Packer.Nv21RoundTrip` | app/src/main/java/com/flamapp/MainActivity.kt:104-120 | splitting the buffer at ySize returns the Y plane, then the de-interleaved chroma samples, then only zeros |
| `Nv21Packer.MatShapeCoversBuffer` | app/src/main/java/com/flamapp/MainActivity.kt:104-123 | with an unpadded Y plane (ySize = width*height), rows*cols of the (height + height/2) x width matrix never exceeds the buffer length, and equals it when the height is even |
| `Nv21Packer.ImageToMat` | app/src/main/java/com/flamapp/MainActivity.kt:100-125 | succeeds exactly when three planes exist and the loop stays in bounds; then the result is a (height + height/2) x width matrix holding the packed buffer; otherwise it is a missing-plane or index-out-of-bounds failure |
| `FramePipeline.Tick` | app/src/main/java/com/flamapp/MainActivity.kt:74-81 | a counted frame adds one to frameCount; if currentTime - lastFpsTime >= 1000 the window restarts (frameCount = 0, lastFpsTime = currentTime), otherwise lastFpsTime is unchanged; afterwards currentTime lies in the open window |
| `FramePipeline.RunWindow` | app/src/main/java/com/flamapp/MainActivity.kt:74-81 | after any run on a non-decreasing clock, frameCount is the number of frames after the one that last restarted the window (whose time is lastFpsTime), and each of them is within 1000 ms of lastFpsTime |
| `FramePipeline.Handle` | app/src/main/java/com/flamapp/MainActivity.kt:53-91 | with no image nothing changes; with one, it is acquired and closed exactly once whatever the outcome, and the window ticks only if the frame reached the counter |
| `FramePipeline.HandleAllCloses` | app/src/main/java/com/flamapp/MainActivity.kt:53-91 | over any sequence of invocations, N acquired images give exactly N closes |
| `FramePipeline.HandleAllWindow` | app/src/main/java/com/flamapp/MainActivity.kt:55-91 | over any sequence of invocations, the window equals counting only the frames that reached the counter; frames that threw before it leave both fields unchanged |
| `FramePipeline.HandlerWindow` | app/src/main/java/com/flamapp/MainActivity.kt:52-92 | from the initial state, after any sequence of invocations on a non-decreasing clock, closes == acquisitions, and frameCount counts the counted frames after the one that last restarted the window, all within 1000 ms of lastFpsTime |
| `FramePipeline.FrameHandler.constructor` | app/src/main/java/com/flamapp/MainActivity.kt:22-23 | the counter starts at 0 and the window at the creation-time clock reading, with nothing acquired or closed |
| `FramePipeline.FrameHandler.ProcessFrame` | app/src/main/java/com/flamapp/MainActivity.kt:55-86 | the try block ends with the frame's outcome; the fields tick when the counter is reached (Ok, or a throw during cleanup) and stay unchanged when an earlier step throws |
| `FramePipeline.FrameHandler.CloseImage` | app/src/main/java/com/flamapp/MainActivity.kt:89-91 | each close adds one to the close counter |
| `FramePipeline.FrameHandler.OnFrameAvailable` | app/src/main/java/com/flamapp/MainActivity.kt:52-92 | one invocation moves the state exactly as `Handle` says and keeps closes == acquired; the caught exception is reported as the outcome |

## Left out

- The RGBA conversion (`cvtColor`), the native Canny edge detector, the read-back into a direct buffer, the texture upload and the three matrix releases are foreign OpenCV, JNI and GL calls. Each is an opaque step that may throw, chosen by the `failAt` parameter. Their data is not modelled.
- OnFrameAvailable: only `Exception`s are caught. An `Error` thrown inside the try block (an `OutOfMemoryError` from allocating the array or the direct buffer, a linkage or initialiser error when the native bridge is first loaded) still closes the image once in the finally block. It leaves the fields as a throw at that step does, but it propagates out of the handler instead of being reported. The model reports every throwing step as a caught `Fail(stage)`.
- The floating-point frame rate and its log line are not modelled: the value is floating point and only logged. The catch block's error log is modelled only as the returned outcome.
- The renderer's synchronized latest-frame slot, the camera manager's device, session and thread lifecycle, the JNI bridge, and the activity lifecycle and permission callbacks are left out. They are concurrency and platform glue.
- Native matrices that are not released when an earlier step throws, as well as `new`/`delete` of the native result, are foreign memory management. They are not modelled.
- `Mat.put`: OpenCV decides how many bytes it copies into the matrix. The model's matrix carries the whole packed buffer, and `MatShapeCoversBuffer` states how the two sizes relate.
- Plane buffers are taken at position 0, so `remaining()` equals the limit and an absolute `get(i)` is in bounds exactly when `i < remaining()`. The code reads neither row nor pixel stride, so neither is modelled. Padded Y rows show up only as a larger ySize.
- When the loop goes out of bounds, the bytes written before the exception are not modelled, because the array is discarded with the exception.
- Kotlin's 32-bit `Int` arithmetic (`width * height`, the array size, `frameCount`) and the 64-bit `Long` clock are unbounded integers here. Camera frame sizes and frame counts stay far below the limits.
- `RunWindow` assumes the clock never goes backwards. `System.currentTimeMillis()` is a wall clock and can jump. `Tick` makes no such assumption.
- Bytes are opaque 8-bit values. Kotlin's signed `Byte` only copies them.
