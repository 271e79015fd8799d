/** The one-time preparation of the server binary (internal/server/manager.go,
    initializeBedrockServer): the archive is cut into ten layer files, the
    layers are joined again in index order, the result is checked against
    the original by hash, and then extracted. Files are byte sequences; the
    layer files of the versions directory are a map from layer index to
    contents. */
module Archive {
  import opened Common

  const LayerCount: int := 10

  /** The fixed location the binary is reported at after extraction. */
  const ExtractedBedrockPath: string := "./bedrock-server-extracted/bedrock_server"

  datatype ArchiveError =
    | ArchiveUnreadable
    | LayerMissing(index: int)
    | IntegrityMismatch
    | HostIOFailed      // removing, opening, creating, copying or hashing a file failed
    | ExtractionFailed

  /** The archive file as `os.Stat` and a later read see it. */
  datatype ArchiveFile = Absent | StatFailed | Present(bytes: seq<byte>)

  /** Where layer `i` starts in an archive of `size` bytes: every layer but
      the last holds `size / 10` bytes, the last also the remainder. */
  function LayerStart(size: nat, i: int): (start: nat)
    requires 0 <= i <= LayerCount
    ensures start <= size
    ensures i < LayerCount ==> start == i * (size / LayerCount)
  {
    if i == LayerCount then size else i * (size / LayerCount)
  }

  /** Consecutive layers abut: layer `i` is `size / 10` bytes long, and
      the last one also holds the remainder. */
  lemma LayerStartStep(size: nat, i: int)
    requires 0 <= i < LayerCount
    ensures LayerStart(size, i + 1) == LayerStart(size, i) + size / LayerCount
                                       + (if i == LayerCount - 1 then size % LayerCount else 0)
  {
    var q := size / LayerCount;
    if i < LayerCount - 1 {
      assert (i + 1) * q == i * q + q;
    } else {
      assert 9 * q + q + size % LayerCount == size;
    }
  }

  /** The bytes of layer `i`. */
  function Layer(data: seq<byte>, i: int): seq<byte>
    requires 0 <= i < LayerCount
  {
    data[LayerStart(|data|, i)..LayerStart(|data|, i + 1)]
  }

  /** `splitArchive`: ten layers in order, read one after the other from
      the archive. */
  method SplitArchive(archive: seq<byte>) returns (layers: map<int, seq<byte>>)
    ensures forall i :: i in layers <==> 0 <= i < LayerCount
    ensures forall i :: 0 <= i < LayerCount - 1 ==> |layers[i]| == |archive| / LayerCount
    ensures |layers[LayerCount - 1]| == |archive| / LayerCount + |archive| % LayerCount
    ensures forall i :: 0 <= i < LayerCount ==> layers[i] == Layer(archive, i)
  {
    var layerSize := |archive| / LayerCount;
    var remainder := |archive| % LayerCount;
    var offset := 0;
    layers := map[];
    for i := 0 to LayerCount
      invariant offset == LayerStart(|archive|, i)
      invariant forall k :: k in layers <==> 0 <= k < i
      invariant forall k :: 0 <= k < i ==> layers[k] == Layer(archive, k)
    {
      var actualLayerSize := layerSize;
      if i == LayerCount - 1 {
        actualLayerSize := actualLayerSize + remainder;
      }
      LayerStartStep(|archive|, i);
      layers := layers[i := archive[offset..offset + actualLayerSize]];
      offset := offset + actualLayerSize;
    }
  }

  /** Layers `lo` to `hi - 1` of `layers`, joined in index order. */
  function Concat(layers: map<int, seq<byte>>, lo: int, hi: int): seq<byte>
    requires forall k :: lo <= k < hi ==> k in layers
    decreases hi - lo
  {
    if hi <= lo then [] else Concat(layers, lo, hi - 1) + layers[hi - 1]
  }

  /** `recombineLayers` without its final hash check: every layer file
      must exist, checked in index order, and the result is the layers
      joined in index order. */
  method JoinLayers(layers: map<int, seq<byte>>) returns (r: Result<seq<byte>, ArchiveError>)
    ensures r.Success? <==> forall k :: 0 <= k < LayerCount ==> k in layers
    ensures r.Success? ==> r.value == Concat(layers, 0, LayerCount)
    ensures r.Failure? ==>
              && r.error.LayerMissing? && 0 <= r.error.index < LayerCount
              && r.error.index !in layers
              && forall k :: 0 <= k < r.error.index ==> k in layers
  {
    var output := [];
    for i := 0 to LayerCount
      invariant forall k :: 0 <= k < i ==> k in layers
      invariant output == Concat(layers, 0, i)
    {
      if i !in layers {
        return Failure(LayerMissing(i));
      }
      output := output + layers[i];
    }
    return Success(output);
  }

  /** `verifyIntegrity`: the two files must have the same hash. The hash
      (SHA-256 in hex) is a parameter of the model. */
  function VerifyIntegrity(original: seq<byte>, recombined: seq<byte>, hash: seq<byte> -> string): (r: Result<(), ArchiveError>)
    ensures original == recombined ==> r.Success?
    ensures r.Success? <==> hash(original) == hash(recombined)
  {
    if hash(original) == hash(recombined) then Success(()) else Failure(IntegrityMismatch)
  }

  /** `recombineLayers`: join the layers, then check the result against the
      original archive. */
  method RecombineLayers(original: seq<byte>, layers: map<int, seq<byte>>, hash: seq<byte> -> string)
    returns (r: Result<seq<byte>, ArchiveError>)
    ensures r.Success? <==> (forall k :: 0 <= k < LayerCount ==> k in layers)
                            && hash(Concat(layers, 0, LayerCount)) == hash(original)
    ensures r.Success? ==> r.value == Concat(layers, 0, LayerCount)
    ensures (exists k :: 0 <= k < LayerCount && k !in layers) ==> r.Failure? && r.error.LayerMissing?
  {
    r := JoinLayers(layers);
    if r.Success? {
      var verified := VerifyIntegrity(original, r.value, hash);
      if verified.Failure? {
        r := Failure(verified.error);
      }
    }
  }

  /** `cleanupLayers`, restricted to the layer files: layers 0 to 9 are
      removed, any other file is left alone. */
  method CleanupLayers(files: map<int, seq<byte>>) returns (rest: map<int, seq<byte>>)
    ensures forall k :: k in rest <==> k in files && !(0 <= k < LayerCount)
    ensures forall k :: k in rest ==> rest[k] == files[k]
  {
    rest := files;
    for i := 0 to LayerCount
      invariant forall k :: k in rest <==> k in files && !(0 <= k < i)
      invariant forall k :: k in rest ==> rest[k] == files[k]
    {
      rest := rest - {i};
    }
  }

  // ---------------------------------------------------------------------
  // Splitting then joining gives the original back

  lemma {:induction false} ConcatOfSplit(data: seq<byte>, layers: map<int, seq<byte>>, n: int)
    requires 0 <= n <= LayerCount
    requires forall k :: 0 <= k < LayerCount ==> k in layers && layers[k] == Layer(data, k)
    ensures Concat(layers, 0, n) == data[..LayerStart(|data|, n)]
  {
    if n > 0 {
      ConcatOfSplit(data, layers, n - 1);
      assert data[..LayerStart(|data|, n)]
          == data[..LayerStart(|data|, n - 1)] + data[LayerStart(|data|, n - 1)..LayerStart(|data|, n)];
    }
  }

  /** The round trip: joining the layers of a split gives the archive back,
      whatever its size (including sizes not divisible by ten). */
  lemma SplitThenJoin(data: seq<byte>, layers: map<int, seq<byte>>)
    requires forall k :: 0 <= k < LayerCount ==> k in layers && layers[k] == Layer(data, k)
    ensures Concat(layers, 0, LayerCount) == data
  {
    ConcatOfSplit(data, layers, LayerCount);
    assert data[..|data|] == data;
  }

  /** The total size of layers `lo` up to `hi`. */
  function SizeOfLayers(layers: map<int, seq<byte>>, lo: int, hi: int): nat
    requires forall k :: lo <= k < hi ==> k in layers
    decreases hi - lo
  {
    if hi <= lo then 0 else SizeOfLayers(layers, lo, hi - 1) + |layers[hi - 1]|
  }

  lemma {:induction false} ConcatSize(layers: map<int, seq<byte>>, lo: int, hi: int)
    requires forall k :: lo <= k < hi ==> k in layers
    ensures |Concat(layers, lo, hi)| == SizeOfLayers(layers, lo, hi)
    decreases hi - lo
  {
    if hi > lo {
      ConcatSize(layers, lo, hi - 1);
    }
  }

  /** The layer files of a split add up to the archive's size: no byte is
      lost or written twice. */
  lemma LayerSizesSum(data: seq<byte>, layers: map<int, seq<byte>>)
    requires forall k :: 0 <= k < LayerCount ==> k in layers && layers[k] == Layer(data, k)
    ensures SizeOfLayers(layers, 0, LayerCount) == |data|
  {
    SplitThenJoin(data, layers);
    ConcatSize(layers, 0, LayerCount);
  }

  // ---------------------------------------------------------------------
  // A changed layer is seen by the integrity check

  lemma {:induction false} ConcatSplitsAt(layers: map<int, seq<byte>>, lo: int, mid: int, hi: int)
    requires lo <= mid <= hi
    requires forall k :: lo <= k < hi ==> k in layers
    ensures Concat(layers, lo, hi) == Concat(layers, lo, mid) + Concat(layers, mid, hi)
    decreases hi - mid
  {
    if hi > mid {
      ConcatSplitsAt(layers, lo, mid, hi - 1);
    }
  }

  lemma {:induction false} ConcatAgrees(a: map<int, seq<byte>>, b: map<int, seq<byte>>, lo: int, hi: int)
    requires forall k :: lo <= k < hi ==> k in a && k in b && a[k] == b[k]
    ensures Concat(a, lo, hi) == Concat(b, lo, hi)
    decreases hi - lo
  {
    if hi > lo {
      ConcatAgrees(a, b, lo, hi - 1);
    }
  }

  lemma DifferentMiddle(a: seq<byte>, x: seq<byte>, y: seq<byte>, rest: seq<byte>)
    requires x != y
    ensures a + (x + rest) != a + (y + rest)
  {
    if |x| == |y| {
      var j :| 0 <= j < |x| && x[j] != y[j];
      assert (a + (x + rest))[|a| + j] == x[j];
      assert (a + (y + rest))[|a| + j] == y[j];
    } else {
      assert |a + (x + rest)| != |a + (y + rest)|;
    }
  }

  lemma ConcatAround(layers: map<int, seq<byte>>, i: int, hi: int)
    requires 0 <= i < hi
    requires forall k :: 0 <= k < hi ==> k in layers
    ensures Concat(layers, 0, hi) == Concat(layers, 0, i) + (layers[i] + Concat(layers, i + 1, hi))
  {
    ConcatSplitsAt(layers, 0, i, hi);
    ConcatSplitsAt(layers, i, i + 1, hi);
    assert Concat(layers, i, i + 1) == layers[i];
  }

  /** OneChangedLayerIsDetected for any number of layers. */
  lemma OneChangedOfMany(layers: map<int, seq<byte>>, tampered: map<int, seq<byte>>, i: int, hi: int)
    requires 0 <= i < hi
    requires forall k :: 0 <= k < hi ==> k in layers && k in tampered
    requires forall k :: 0 <= k < hi && k != i ==> tampered[k] == layers[k]
    requires tampered[i] != layers[i]
    ensures Concat(tampered, 0, hi) != Concat(layers, 0, hi)
  {
    ConcatAround(layers, i, hi);
    ConcatAround(tampered, i, hi);
    ConcatAgrees(layers, tampered, 0, i);
    ConcatAgrees(layers, tampered, i + 1, hi);
    DifferentMiddle(Concat(layers, 0, i), layers[i], tampered[i], Concat(layers, i + 1, hi));
  }

  /** If exactly one layer file changes (a flipped byte, a truncation, ...)
      the joined file differs from before, so for a hash that tells the two
      apart the integrity check fails. */
  lemma OneChangedLayerIsDetected(layers: map<int, seq<byte>>, tampered: map<int, seq<byte>>, i: int)
    requires 0 <= i < LayerCount
    requires forall k :: 0 <= k < LayerCount ==> k in layers && k in tampered
    requires forall k :: 0 <= k < LayerCount && k != i ==> tampered[k] == layers[k]
    requires tampered[i] != layers[i]
    ensures Concat(tampered, 0, LayerCount) != Concat(layers, 0, LayerCount)
  {
    OneChangedOfMany(layers, tampered, i, LayerCount);
  }

  // ---------------------------------------------------------------------
  // The whole preparation

  /** `initializeBedrockServer`: with no archive the configured binary is
      used; with one, the stale layers are removed, the archive is split,
      joined and checked, and then extracted. `hostIO` says whether the
      file operations of those steps succeeded (removing the stale layers,
      opening and stat-ing the archive, creating `versions/` and the layer
      and recombined files, copying, and reading both files for their
      hashes); `extracted` says whether unzip or tar and the search for
      the binary succeeded. A fresh split always passes the integrity
      check, so with an archive the outcome depends on those two alone, and
      success always reports the fixed top-level path, even when the binary
      was found deeper in the tree. */
  method InitializeBedrockServer(
    archive: ArchiveFile, staleLayers: map<int, seq<byte>>, configuredPath: string,
    hash: seq<byte> -> string, hostIO: bool, extracted: bool)
    returns (r: Result<string, ArchiveError>)
    ensures archive.Absent? ==> r == Success(configuredPath)
    ensures archive.StatFailed? ==> r == Failure(ArchiveUnreadable)
    ensures archive.Present? ==> (r.Success? <==> hostIO && extracted)
    ensures archive.Present? && r.Success? ==> r.value == ExtractedBedrockPath
    ensures archive.Present? && !hostIO ==> r == Failure(HostIOFailed)
    ensures archive.Present? && hostIO && !extracted ==> r == Failure(ExtractionFailed)
  {
    match archive {
      case Absent =>
        return Success(configuredPath);
      case StatFailed =>
        return Failure(ArchiveUnreadable);
      case Present(data) =>
        var remaining := CleanupLayers(staleLayers);
        var layers := SplitArchive(data);
        if !hostIO {
          return Failure(HostIOFailed);
        }
        SplitThenJoin(data, layers);
        var recombined := RecombineLayers(data, layers, hash);
        if recombined.Failure? {
          // a fresh split always passes its integrity check
          assert false;
        }
        if !extracted {
          return Failure(ExtractionFailed);
        }
        return Success(ExtractedBedrockPath);
    }
  }
}
