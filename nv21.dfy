/** The NV21 packer of the frame handler (`imageToMat`): the three planes of
    a YUV_420_888 image are copied into one byte array that holds the whole
    luma plane followed by V and U samples interleaved, taking every second
    byte of each chroma plane (their pixel stride is 2), and the array is
    wrapped as a single-channel matrix of (height + height/2) rows by width
    columns. */
module Nv21Packer {
  import opened Wrappers

  type Byte = bv8

  /** One plane of the image: the bytes of its buffer from position 0 to the
      limit, so that `remaining()` is the length and an absolute `get(i)` is
      in bounds exactly when `i` is below it. */
  datatype Plane = Plane(buffer: seq<Byte>)

  /** A YUV_420_888 image as the reader hands it over: planes 0, 1 and 2 are
      Y, U and V. */
  datatype Image = Image(width: nat, height: nat, planes: seq<Plane>)

  /** A matrix of 8-bit single-channel elements and the bytes put into it at
      (0, 0). */
  datatype Mat = Mat(rows: nat, cols: nat, data: seq<Byte>)

  /** Why `imageToMat` throws: a plane index past the end of `planes`, or a
      chroma read or an output write past the end of its buffer. */
  datatype ConvertError = MissingPlane | IndexOutOfBounds

  /** Chroma bytes the output array leaves room for after the luma plane. */
  function ChromaCapacity(width: nat, height: nat): nat
  {
    width * height / 2
  }

  /** Rows of the NV21 matrix: the luma rows and half as many chroma rows. */
  function MatRows(height: nat): nat
  {
    height + height / 2
  }

  /** Number of times the interleaving loop runs: `i` goes 0, 2, 4, ... while
      it is below the U plane's remaining count. */
  function ChromaIterations(uRemaining: nat): (n: nat)
    ensures uRemaining <= 2 * n < uRemaining + 2
  {
    (uRemaining + 1) / 2
  }

  /** Every V read `vBuffer.get(i)` of the loop is in bounds: the last index
      read, 2 * (n - 1), is below the V plane's remaining count. */
  predicate VReadsInBounds(uRemaining: nat, vRemaining: nat)
  {
    ChromaIterations(uRemaining) == 0 || 2 * (ChromaIterations(uRemaining) - 1) < vRemaining
  }

  /** The loop runs to completion: every write to the output is in bounds and
      every V read is in bounds (U reads are kept in bounds by the guard). */
  predicate ChromaFits(uRemaining: nat, vRemaining: nat, capacity: nat)
  {
    2 * ChromaIterations(uRemaining) <= capacity && VReadsInBounds(uRemaining, vRemaining)
  }

  /** Iteration k of the loop reads V at plane index 2k and writes output
      chroma offsets 2k and 2k + 1, all in bounds. */
  predicate StepInBounds(k: nat, vRemaining: nat, capacity: nat)
  {
    2 * k < vRemaining && 2 * k + 1 < capacity
  }

  /** `ChromaFits` is exact: it holds precisely when every iteration of the
      loop stays in bounds, so when it fails some iteration throws. */
  lemma ChromaFitsExact(uRemaining: nat, vRemaining: nat, capacity: nat)
    ensures ChromaFits(uRemaining, vRemaining, capacity) <==>
              forall k: nat :: k < ChromaIterations(uRemaining) ==> StepInBounds(k, vRemaining, capacity)
    ensures !ChromaFits(uRemaining, vRemaining, capacity) ==>
              !StepInBounds(ChromaIterations(uRemaining) - 1, vRemaining, capacity)
  {
    var n := ChromaIterations(uRemaining);
    if !ChromaFits(uRemaining, vRemaining, capacity) {
      assert n > 0 && !StepInBounds(n - 1, vRemaining, capacity);
    }
  }

  /** The bytes the interleaving loop writes, in order: V[0], U[0], V[2],
      U[2], ... as long as the U index is below the U plane's length. */
  function ChromaBytes(u: seq<Byte>, v: seq<Byte>): (c: seq<Byte>)
    requires VReadsInBounds(|u|, |v|)
    ensures |c| == 2 * ChromaIterations(|u|)
    decreases |u|
  {
    if |u| == 0 then []
    else if |u| <= 2 then [v[0], u[0]]
    else [v[0], u[0]] + ChromaBytes(u[2..], v[2..])
  }

  /** The byte written at offset `c` of the chroma region: an even offset
      holds the V sample at that same plane index, an odd offset the U sample
      just before it. */
  function ChromaByte(u: seq<Byte>, v: seq<Byte>, c: nat): Byte
    requires VReadsInBounds(|u|, |v|)
    requires c < 2 * ChromaIterations(|u|)
  {
    if c % 2 == 0 then v[c] else u[c - 1]
  }

  /** Iteration k of the loop reads V and U at plane index 2k. */
  lemma ChromaByteOfIteration(u: seq<Byte>, v: seq<Byte>, k: nat)
    requires VReadsInBounds(|u|, |v|)
    requires k < ChromaIterations(|u|)
    ensures ChromaByte(u, v, 2 * k) == v[2 * k]
    ensures ChromaByte(u, v, 2 * k + 1) == u[2 * k]
  {
  }

  function Zeros(n: nat): (z: seq<Byte>)
    ensures |z| == n
    ensures forall j :: 0 <= j < n ==> z[j] == 0
  {
    seq(n, _ => 0)
  }

  /** The output array once the loop has finished: the luma bytes, the
      interleaved chroma bytes, and the zero bytes the loop never reached. */
  function Nv21(y: seq<Byte>, u: seq<Byte>, v: seq<Byte>, capacity: nat): (buf: seq<Byte>)
    requires ChromaFits(|u|, |v|, capacity)
    ensures |buf| == |y| + capacity
  {
    y + ChromaBytes(u, v) + Zeros(capacity - 2 * ChromaIterations(|u|))
  }

  lemma {:induction false} ChromaBytesAt(u: seq<Byte>, v: seq<Byte>, c: nat)
    requires VReadsInBounds(|u|, |v|)
    requires c < 2 * ChromaIterations(|u|)
    ensures ChromaBytes(u, v)[c] == ChromaByte(u, v, c)
    decreases |u|
  {
    if c >= 2 {
      ChromaBytesAt(u[2..], v[2..], c - 2);
    }
  }

  /** Where every byte of the output comes from. */
  lemma Nv21At(y: seq<Byte>, u: seq<Byte>, v: seq<Byte>, capacity: nat, j: nat)
    requires ChromaFits(|u|, |v|, capacity)
    requires j < |y| + capacity
    ensures j < |y| ==> Nv21(y, u, v, capacity)[j] == y[j]
    ensures |y| <= j < |y| + 2 * ChromaIterations(|u|) ==>
              Nv21(y, u, v, capacity)[j] == ChromaByte(u, v, j - |y|)
    ensures |y| + 2 * ChromaIterations(|u|) <= j ==> Nv21(y, u, v, capacity)[j] == 0
  {
    if |y| <= j < |y| + 2 * ChromaIterations(|u|) {
      ChromaBytesAt(u, v, j - |y|);
    }
  }

  /** Iteration k of the loop writes V[2k] and then U[2k], V first. */
  lemma Nv21ChromaPair(y: seq<Byte>, u: seq<Byte>, v: seq<Byte>, capacity: nat, k: nat)
    requires ChromaFits(|u|, |v|, capacity)
    requires k < ChromaIterations(|u|)
    ensures Nv21(y, u, v, capacity)[|y| + 2 * k] == v[2 * k]
    ensures Nv21(y, u, v, capacity)[|y| + 2 * k + 1] == u[2 * k]
  {
    Nv21At(y, u, v, capacity, |y| + 2 * k);
    Nv21At(y, u, v, capacity, |y| + 2 * k + 1);
  }

  /** Every second byte of a plane, starting with the first: the samples a
      pixel stride of 2 designates. */
  function EvenSamples(s: seq<Byte>): (r: seq<Byte>)
    ensures |r| == ChromaIterations(|s|)
    ensures forall t :: 0 <= t < |r| ==> r[t] == s[2 * t]
    decreases |s|
  {
    if |s| == 0 then []
    else if |s| <= 2 then [s[0]]
    else [s[0]] + EvenSamples(s[2..])
  }

  /** Reads an interleaved chroma region back as its V samples and its U
      samples, the way an NV21 consumer does. */
  function Deinterleave(c: seq<Byte>): (p: (seq<Byte>, seq<Byte>))
    requires |c| % 2 == 0
    ensures |p.0| == |c| / 2 && |p.1| == |c| / 2
    decreases |c|
  {
    if |c| == 0 then ([], [])
    else
      var rest := Deinterleave(c[2..]);
      ([c[0]] + rest.0, [c[1]] + rest.1)
  }

  /** The chroma region carries exactly the even-indexed U samples and as many
      even-indexed V samples. */
  lemma {:induction false} DeinterleaveChroma(u: seq<Byte>, v: seq<Byte>)
    requires VReadsInBounds(|u|, |v|)
    ensures ChromaIterations(|u|) <= |EvenSamples(v)|
    ensures Deinterleave(ChromaBytes(u, v)) == (EvenSamples(v)[..ChromaIterations(|u|)], EvenSamples(u))
    decreases |u|
  {
    if 2 < |u| {
      var c := ChromaBytes(u, v);
      assert c[2..] == ChromaBytes(u[2..], v[2..]);
      DeinterleaveChroma(u[2..], v[2..]);
      assert EvenSamples(v)[..ChromaIterations(|u|)]
          == [v[0]] + EvenSamples(v[2..])[..ChromaIterations(|u| - 2)];
    } else if 0 < |u| {
      assert ChromaBytes(u, v) == [v[0], u[0]];
      var c: seq<Byte> := [v[0], u[0]];
      var empty: seq<Byte> := [];
      assert c[2..] == empty;
      assert [c[0]] + empty == [v[0]];
      assert [c[1]] + empty == [u[0]];
      assert EvenSamples(v)[..1] == [v[0]];
      assert EvenSamples(u) == [u[0]];
    }
  }

  /** Splitting the packed buffer at the luma size gives back the luma plane
      unchanged, the chroma samples of both planes, and the untouched zeros. */
  lemma Nv21RoundTrip(y: seq<Byte>, u: seq<Byte>, v: seq<Byte>, capacity: nat)
    requires ChromaFits(|u|, |v|, capacity)
    ensures Nv21(y, u, v, capacity)[..|y|] == y
    ensures ChromaIterations(|u|) <= |EvenSamples(v)|
    ensures Deinterleave(Nv21(y, u, v, capacity)[|y|..|y| + 2 * ChromaIterations(|u|)])
            == (EvenSamples(v)[..ChromaIterations(|u|)], EvenSamples(u))
    ensures Nv21(y, u, v, capacity)[|y| + 2 * ChromaIterations(|u|)..]
            == Zeros(capacity - 2 * ChromaIterations(|u|))
  {
    var buf, n := Nv21(y, u, v, capacity), ChromaIterations(|u|);
    assert buf[|y|..|y| + 2 * n] == ChromaBytes(u, v);
    assert buf[|y| + 2 * n..] == Zeros(capacity - 2 * n);
    DeinterleaveChroma(u, v);
  }

  /** When the luma plane has no row padding, the matrix shape never spans
      more bytes than the packed buffer, and spans exactly all of them when
      the height is even. */
  lemma MatShapeCoversBuffer(y: seq<Byte>, u: seq<Byte>, v: seq<Byte>, width: nat, height: nat)
    requires ChromaFits(|u|, |v|, ChromaCapacity(width, height))
    requires |y| == width * height
    ensures MatRows(height) * width <= |Nv21(y, u, v, ChromaCapacity(width, height))|
    ensures height % 2 == 0 ==>
              MatRows(height) * width == |Nv21(y, u, v, ChromaCapacity(width, height))|
  {
    var q, r := height / 2, height % 2;
    assert height == 2 * q + r;
    assert MatRows(height) * width == width * height + q * width;
    assert width * height == 2 * (q * width) + r * width;
    assert ChromaCapacity(width, height) == q * width + r * width / 2;
  }

  /** A buffer that holds the luma bytes, then the chroma bytes, then zeros,
      is the NV21 buffer. */
  lemma Nv21Characterised(y: seq<Byte>, u: seq<Byte>, v: seq<Byte>, capacity: nat, s: seq<Byte>)
    requires ChromaFits(|u|, |v|, capacity)
    requires |s| == |y| + capacity
    requires forall j :: 0 <= j < |y| ==> s[j] == y[j]
    requires forall j :: |y| <= j < |y| + 2 * ChromaIterations(|u|) ==> s[j] == ChromaByte(u, v, j - |y|)
    requires forall j :: |y| + 2 * ChromaIterations(|u|) <= j < |s| ==> s[j] == 0
    ensures s == Nv21(y, u, v, capacity)
  {
    forall j | 0 <= j < |s|
      ensures s[j] == Nv21(y, u, v, capacity)[j]
    {
      Nv21At(y, u, v, capacity, j);
    }
  }

  /** Packs the three planes into a fresh NV21 array: the array starts zeroed,
      the luma plane is copied to its front, and the loop interleaves V and U
      behind it with the two cursors `pos` and `i`. */
  method PackNv21(y: seq<Byte>, u: seq<Byte>, v: seq<Byte>, width: nat, height: nat)
    returns (nv21: array<Byte>)
    requires ChromaFits(|u|, |v|, ChromaCapacity(width, height))
    ensures fresh(nv21)
    ensures nv21.Length == |y| + width * height / 2
    ensures nv21[..] == Nv21(y, u, v, ChromaCapacity(width, height))
  {
    var capacity := ChromaCapacity(width, height);
    var size := |y| + capacity;
    nv21 := new Byte[size](_ => 0);
    forall j | 0 <= j < |y| {
      nv21[j] := y[j];
    }
    ghost var n := ChromaIterations(|u|);
    var pos := |y|;
    var i := 0;
    ghost var k := 0;
    while i < |u|
      invariant i == 2 * k && k <= n
      invariant pos == |y| + i
      invariant forall j :: 0 <= j < |y| ==> nv21[j] == y[j]
      invariant forall j :: |y| <= j < pos ==> nv21[j] == ChromaByte(u, v, j - |y|)
      invariant forall j :: pos <= j < size ==> nv21[j] == 0
    {
      ChromaByteOfIteration(u, v, k);
      nv21[pos] := v[i];
      pos := pos + 1;
      nv21[pos] := u[i];
      pos := pos + 1;
      i := i + 2;
      k := k + 1;
    }
    Nv21Characterised(y, u, v, capacity, nv21[..]);
  }

  /** The image can be packed without an exception. */
  predicate Convertible(image: Image)
  {
    |image.planes| >= 3 &&
    ChromaFits(|image.planes[1].buffer|, |image.planes[2].buffer|,
               ChromaCapacity(image.width, image.height))
  }

  /** `imageToMat`: the matrix holding the packed planes, or the exception
      that the plane lookups, the V reads or the output writes raise. */
  method ImageToMat(image: Image) returns (r: Result<Mat, ConvertError>)
    ensures r.Success? <==> Convertible(image)
    ensures r.Failure? && |image.planes| < 3 ==> r.error == MissingPlane
    ensures r.Failure? && |image.planes| >= 3 ==> r.error == IndexOutOfBounds
    ensures r.Success? ==>
              r.value.rows == MatRows(image.height) && r.value.cols == image.width &&
              r.value.data == Nv21(image.planes[0].buffer, image.planes[1].buffer,
                                   image.planes[2].buffer, ChromaCapacity(image.width, image.height))
  {
    if |image.planes| < 3 {
      return Failure(MissingPlane);
    }
    var y, u, v := image.planes[0].buffer, image.planes[1].buffer, image.planes[2].buffer;
    if !ChromaFits(|u|, |v|, ChromaCapacity(image.width, image.height)) {
      return Failure(IndexOutOfBounds);
    }
    var nv21 := PackNv21(y, u, v, image.width, image.height);
    r := Success(Mat(MatRows(image.height), image.width, nv21[..]));
  }
}
