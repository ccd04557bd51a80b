/** Estimates of the space an image needs: content sums, margin, cluster rounding. */
module Sizes {
  import opened Wrappers
  import opened Files
  import opened OciImages
  import opened MainConfigs
  import opened Collaborators

  /** `round_for_cluster(size, cluster_size)`: up to the next multiple of the cluster size. */
  function RoundForCluster(size: int, clusterSize: int := 512): (r: int)
    requires clusterSize > 0
    ensures r % clusterSize == 0
    ensures size <= r < size + clusterSize
    ensures size % clusterSize == 0 ==> r == size
  {
    if size % clusterSize == 0 then size
    else
      var q := size / clusterSize;
      assert size - size % clusterSize + clusterSize == (q + 1) * clusterSize by {
        assert (q + 1) * clusterSize == q * clusterSize + clusterSize;
      }
      MulMod(q + 1, clusterSize);
      size - size % clusterSize + clusterSize
  }

  /** A multiple of `c` leaves no remainder and divides back to its factor. */
  lemma MulMod(q: int, c: int)
    requires c > 0
    ensures (q * c) % c == 0 && (q * c) / c == q
  {
    var x := q * c;
    var k := q - x / c;
    assert k * c == x % c by {
      assert x == (x / c) * c + x % c;
      assert k * c == q * c - (x / c) * c;
    }
    if k >= 1 {
      MulMonotone(1, k, c);
    } else if k <= -1 {
      MulMonotone(k, -1, c);
    }
  }

  /** Multiplying by a positive number keeps the order. */
  lemma MulMonotone(a: int, b: int, c: int)
    requires a <= b && c > 0
    ensures a * c <= b * c
  {
    assert b * c - a * c == (b - a) * c;
  }

  /** The rounded size is the least multiple of the cluster size that holds `size`. */
  lemma RoundIsLeast(size: int, m: int, clusterSize: int)
    requires clusterSize > 0 && m % clusterSize == 0 && m >= size
    ensures RoundForCluster(size, clusterSize) <= m
  {
    if size % clusterSize != 0 {
      var q := size / clusterSize;
      var qm := m / clusterSize;
      assert m == qm * clusterSize;
      assert size == q * clusterSize + size % clusterSize;
      if qm <= q {
        MulMonotone(qm, q, clusterSize);
        assert false;
      }
      MulMonotone(q + 1, qm, clusterSize);
      assert (q + 1) * clusterSize == q * clusterSize + clusterSize;
    }
  }

  /** Rounding never reverses the order of two sizes. */
  lemma RoundMonotone(a: int, b: int, clusterSize: int)
    requires clusterSize > 0 && a <= b
    ensures RoundForCluster(a, clusterSize) <= RoundForCluster(b, clusterSize)
  {
    RoundIsLeast(a, RoundForCluster(b, clusterSize), clusterSize);
  }

  /** `get_margin_for(content_size)`: `int(0.1 * content_size)`, ten percent truncated toward zero. */
  function MarginFor(contentSize: int): (r: int)
    ensures contentSize >= 0 ==> 0 <= r && 10 * r <= contentSize < 10 * (r + 1)
    ensures contentSize < 0 ==> r <= 0 && 10 * (r - 1) < contentSize <= 10 * r
  {
    if contentSize >= 0 then contentSize / 10 else -((-contentSize) / 10)
  }

  /** `sum(f(x) for x in xs)`. */
  function SumOf<T>(xs: seq<T>, f: T -> int): int
  {
    if |xs| == 0 then 0 else f(xs[0]) + SumOf(xs[1..], f)
  }

  /** The sum over a concatenation is the sum of the sums. */
  lemma {:induction false} SumOfConcat<T>(xs: seq<T>, ys: seq<T>, f: T -> int)
    ensures SumOf(xs + ys, f) == SumOf(xs, f) + SumOf(ys, f)
    decreases |xs|
  {
    if |xs| > 0 {
      assert (xs + ys)[1..] == xs[1..] + ys;
      SumOfConcat(xs[1..], ys, f);
    } else {
      assert xs + ys == ys;
    }
  }

  /** Taking one element out of a sum, wherever it sits. */
  lemma SumOfRemove<T>(xs: seq<T>, i: nat, f: T -> int)
    requires i < |xs|
    ensures SumOf(xs, f) == f(xs[i]) + SumOf(xs[..i] + xs[i + 1..], f)
  {
    assert xs == xs[..i] + ([xs[i]] + xs[i + 1..]);
    SumOfConcat(xs[..i], [xs[i]] + xs[i + 1..], f);
    assert ([xs[i]] + xs[i + 1..])[1..] == xs[i + 1..];
    SumOfConcat(xs[..i], xs[i + 1..], f);
  }

  /** A sum does not depend on the order of its terms. */
  lemma {:induction false} SumOfPermutation<T>(xs: seq<T>, ys: seq<T>, f: T -> int)
    requires multiset(xs) == multiset(ys)
    ensures SumOf(xs, f) == SumOf(ys, f)
    decreases |xs|
  {
    if |xs| == 0 {
      assert |ys| == |multiset(ys)| == 0;
    } else {
      assert xs[0] in multiset(ys);
      var i :| 0 <= i < |ys| && ys[i] == xs[0];
      SumOfRemove(ys, i, f);
      var rest := ys[..i] + ys[i + 1..];
      assert ys == ys[..i] + [ys[i]] + ys[i + 1..];
      assert multiset(rest) == multiset(ys) - multiset{ys[i]};
      assert xs == [xs[0]] + xs[1..];
      assert multiset(xs[1..]) == multiset(xs) - multiset{xs[0]};
      SumOfPermutation(xs[1..], rest, f);
    }
  }

  function Filesize(img: OCIImage): int { img.filesize }
  function Fullsize(img: OCIImage): int { img.fullsize }

  /** `file.fullsize` as the sum reads it. */
  function FileFullsize(env: Env): FileData -> int
  {
    f => FullsizeOf(f, env)
  }

  /** `get_raw_content_size_for(images, files)`. */
  function RawContentSizeFor(images: seq<OCIImage>, files: seq<FileData>, env: Env): int
  {
    SumOf(images, Filesize) + SumOf(images, Fullsize) + SumOf(files, FileFullsize(env))
  }

  /** The content size counts each image twice (archive and expanded) and each file once, in any order. */
  lemma RawContentSizeOrderFree(images: seq<OCIImage>, images2: seq<OCIImage>,
                                files: seq<FileData>, files2: seq<FileData>, env: Env)
    requires multiset(images) == multiset(images2) && multiset(files) == multiset(files2)
    ensures RawContentSizeFor(images, files, env) == RawContentSizeFor(images2, files2, env)
  {
    SumOfPermutation(images, images2, Filesize);
    SumOfPermutation(images, images2, Fullsize);
    SumOfPermutation(files, files2, FileFullsize(env));
  }

  /** `get_min_image_size_for(rootfs_size, content_size, margin)`. */
  function MinImageSizeFor(rootfsSize: int, contentSize: int, margin: int): (r: int)
    ensures r % 512 == 0
    ensures rootfsSize + contentSize + margin <= r < rootfsSize + contentSize + margin + 512
  {
    RoundForCluster(rootfsSize + contentSize + margin)
  }

  /** A larger rootfs, content or margin never asks for a smaller image. */
  lemma MinImageSizeMonotone(rootfs: int, content: int, margin: int, rootfs2: int, content2: int, margin2: int)
    requires rootfs <= rootfs2 && content <= content2 && margin <= margin2
    ensures MinImageSizeFor(rootfs, content, margin) <= MinImageSizeFor(rootfs2, content2, margin2)
  {
    RoundMonotone(rootfs + content + margin, rootfs2 + content2 + margin2, 512);
  }

  /** `get_raw_content_size(config)`. */
  function RawContentSize(d: MainConfigData, env: Env): int
  {
    RawContentSizeFor(d.allImages, d.allFiles, env)
  }

  /**
   * `get_min_image_size(config)`: the base's rootfs size (OSError when not
   * ready), the content and its ten percent margin, rounded to 512.
   */
  function MinImageSize(d: MainConfigData, env: Env): (r: Result<int>)
    ensures r.Ok? <==> RootfsSize(d).Ok?
    ensures r.Err? ==> r.error.OSError?
    ensures r.Ok? ==> r.value % 512 == 0
    ensures r.Ok? ==>
              var content := RawContentSize(d, env);
              var total := RootfsSize(d).value + content + MarginFor(content);
              total <= r.value < total + 512
    ensures r.Ok? && RawContentSize(d, env) >= 0
            ==> r.value >= RootfsSize(d).value + RawContentSize(d, env) + RawContentSize(d, env) / 10
  {
    var content := RawContentSize(d, env);
    match RootfsSize(d)
    case Err(e) => Err(e)
    case Ok(rootfs) => Ok(MinImageSizeFor(rootfs, content, MarginFor(content)))
  }
}
