/**
  Copying a block of memory with six workers (`CopyInParallel`): the workers take equal, block-aligned shares
  of the middle, the calling thread takes what is left before and after them.
 */
module ParallelCopy {

  const THREADS: int := 6
  const TWO_64: int := 0x1_0000_0000_0000_0000

  type Byte = bv8

  // ----------------------------------------------------------------------------------- the layout

  function FloorToBlock(address: nat, blockSize: nat): nat
    requires blockSize > 0
  {
    address - address % blockSize
  }

  /** A signed difference divided by the unsigned block size. */
  function DivideUnsigned(d: int, blockSize: nat): int
    requires blockSize > 0
  {
    (if d < 0 then d + TWO_64 else d) / blockSize
  }

  /** Signed division towards zero. */
  function DivideSigned(d: int, n: int): int
    requires n > 0
  {
    if d < 0 then -(-d / n) else d / n
  }

  datatype Layout = Layout(left: int, right: int, head: int, body: int, chunk: int, tail: int)

  /** The layout between two boundaries: the right one moves back until the workers' shares are equal. */
  function LayoutBetween(left: int, right: int, src: nat, totalBytes: nat, blockSize: nat): Layout
    requires blockSize > 0
  {
    var totalBlocks := DivideUnsigned(right - left, blockSize);
    var right' := right - totalBlocks % THREADS * blockSize;
    Layout(left, right', left - src, right' - left, DivideSigned(right' - left, THREADS), src + totalBytes - right')
  }

  function LayoutOf(src: nat, totalBytes: nat, blockSize: nat): Layout
    requires blockSize > 0
  {
    LayoutBetween(FloorToBlock(src + blockSize - 1, blockSize), FloorToBlock(src + totalBytes, blockSize),
                  src, totalBytes, blockSize)
  }

  /** One copy: `size` bytes from offset `from` of the source to offset `to` of the destination. */
  datatype Segment = Segment(to: int, from: int, size: int)

  const JOBS: int := 8

  /** The head, the six workers' shares, the tail. */
  function Job(l: Layout, src: nat, i: nat): Segment
    requires i < JOBS
  {
    if i == 0 then Segment(0, 0, l.head)
    else if i <= THREADS then Segment(l.head + (i - 1) * l.chunk, l.left + (i - 1) * l.chunk - src, l.chunk)
    else Segment(l.head + l.body, l.right - src, l.tail)
  }

  /** A block boundary lies between the first byte and the end of the source. */
  predicate MeetsBoundary(src: nat, totalBytes: nat, blockSize: nat)
    requires blockSize > 0
  {
    src % blockSize == 0 || src % blockSize + totalBytes >= blockSize
  }

  lemma FloorIsMultiple(a: nat, b: nat)
    requires b > 0
    ensures FloorToBlock(a, b) == b * (a / b) <= a < FloorToBlock(a, b) + b
  {
  }

  lemma QuotientOf(b: nat, q: int, r: int)
    requires 0 <= r < b
    ensures (b * q + r) / b == q
  {
    var d := (b * q + r) / b;
    if d < q {
      MulMonotone(b, d + 1, q);
    } else if d > q {
      MulMonotone(b, q + 1, d);
    }
  }

  lemma MulMonotone(b: int, x: int, y: int)
    requires b >= 0 && x <= y
    ensures b * x <= b * y
  {
    assert b * y - b * x == b * (y - x);
  }

  /** The boundary that the head runs up to: the first one not before the source. */
  lemma LeftIsNextBoundary(src: nat, totalBytes: nat, blockSize: nat)
    requires blockSize > 0
    ensures var left := FloorToBlock(src + blockSize - 1, blockSize);
      src <= left < src + blockSize && left == if src % blockSize == 0 then src else src - src % blockSize + blockSize
  {
    var q, m := src / blockSize, src % blockSize;
    assert src == blockSize * q + m;
    if m == 0 {
      QuotientOf(blockSize, q, blockSize - 1);
    } else {
      assert src + blockSize - 1 == blockSize * (q + 1) + (m - 1);
      QuotientOf(blockSize, q + 1, m - 1);
    }
    FloorIsMultiple(src + blockSize - 1, blockSize);
  }

  /** A boundary is not past `n` exactly when it is not past the last boundary up to `n`. */
  lemma UpToLastBoundary(b: nat, l: int, n: nat)
    requires b > 0
    ensures b * l <= n <==> b * l <= FloorToBlock(n, b)
  {
    FloorIsMultiple(n, b);
    if l > n / b { MulMonotone(b, n / b + 1, l); } else { MulMonotone(b, l, n / b); }
  }

  /** The two boundaries are in order exactly when the source meets a boundary. */
  lemma BoundariesInOrder(src: nat, totalBytes: nat, blockSize: nat)
    requires blockSize > 0
    ensures var left, right := FloorToBlock(src + blockSize - 1, blockSize), FloorToBlock(src + totalBytes, blockSize);
      && (MeetsBoundary(src, totalBytes, blockSize) <==> left <= right)
      && (MeetsBoundary(src, totalBytes, blockSize) <==> left <= src + totalBytes)
  {
    LeftIsNextBoundary(src, totalBytes, blockSize);
    FloorIsMultiple(src + blockSize - 1, blockSize);
    UpToLastBoundary(blockSize, (src + blockSize - 1) / blockSize, src + totalBytes);
  }

  /** The parts follow one another and make up the whole. */
  ghost predicate Spans(l: Layout, src: nat, totalBytes: nat) {
    && 0 <= l.head && 0 <= l.tail && 0 <= l.chunk && l.body == THREADS * l.chunk
    && l.left == src + l.head && l.right == l.left + l.body && l.head + l.body + l.tail == totalBytes
  }

  ghost predicate WellLaidOut(l: Layout, src: nat, totalBytes: nat, blockSize: nat)
    requires blockSize > 0
  {
    && Spans(l, src, totalBytes) && l.head < blockSize && l.tail < THREADS * blockSize
    && l.left % blockSize == 0 && l.chunk % blockSize == 0
  }

  lemma MultipleLeavesNothing(b: nat, q: int)
    requires b > 0
    ensures (b * q) % b == 0
  {
    QuotientOf(b, q, 0);
  }

  /** `blocks` blocks between the boundaries, dealt out evenly. */
  lemma DealtEvenly(blockSize: nat, blocks: int)
    requires blocks >= 0 && blockSize > 0
    ensures DivideUnsigned(blockSize * blocks, blockSize) == blocks
    ensures blockSize * blocks - blocks % THREADS * blockSize == THREADS * (blockSize * (blocks / THREADS))
    ensures 0 <= blockSize * (blocks / THREADS) && 0 <= blocks % THREADS * blockSize <= (THREADS - 1) * blockSize
    ensures (blockSize * (blocks / THREADS)) % blockSize == 0
  {
    var share, rest := blocks / THREADS, blocks % THREADS;
    QuotientOf(blockSize, blocks, 0);
    MulMonotone(blockSize, 0, blocks);
    assert blockSize * blocks == blockSize * (THREADS * share + rest);
    assert blockSize * (THREADS * share + rest) == THREADS * (blockSize * share) + blockSize * rest;
    MulMonotone(blockSize, 0, rest);
    MulMonotone(blockSize, rest, THREADS - 1);
    MulMonotone(blockSize, 0, share);
    MultipleLeavesNothing(blockSize, share);
  }

  lemma BetweenBoundaries(left: int, blocks: int, src: nat, totalBytes: nat, blockSize: nat)
    requires blockSize > 0 && blocks >= 0 && src <= left < src + blockSize && left % blockSize == 0
    requires left + blockSize * blocks <= src + totalBytes < left + blockSize * blocks + blockSize
    ensures WellLaidOut(LayoutBetween(left, left + blockSize * blocks, src, totalBytes, blockSize),
                        src, totalBytes, blockSize)
  {
    DealtEvenly(blockSize, blocks);
    EvenShare(left, blocks, src, totalBytes, blockSize,
              blockSize * blocks, blockSize * (blocks / THREADS), blocks % THREADS * blockSize);
  }

  /** The same, with the products named. */
  lemma EvenShare(left: int, blocks: int, src: nat, totalBytes: nat, blockSize: nat, span: int, share: int, rest: int)
    requires blockSize > 0 && src <= left < src + blockSize && left % blockSize == 0
    requires left + span <= src + totalBytes < left + span + blockSize
    requires DivideUnsigned(span, blockSize) == blocks && rest == blocks % THREADS * blockSize
    requires span - rest == THREADS * share && share >= 0 && share % blockSize == 0
    requires 0 <= rest <= (THREADS - 1) * blockSize
    ensures WellLaidOut(LayoutBetween(left, left + span, src, totalBytes, blockSize), src, totalBytes, blockSize)
  {
    var l := LayoutBetween(left, left + span, src, totalBytes, blockSize);
    assert l.right == left + span - rest;
    assert l.chunk == share;
  }

  /** With a boundary in reach the shares are equal, aligned, and short only at the ends. */
  lemma LaidOutWell(src: nat, totalBytes: nat, blockSize: nat)
    requires blockSize > 0 && MeetsBoundary(src, totalBytes, blockSize)
    ensures WellLaidOut(LayoutOf(src, totalBytes, blockSize), src, totalBytes, blockSize)
  {
    var left, right := FloorToBlock(src + blockSize - 1, blockSize), FloorToBlock(src + totalBytes, blockSize);
    var blocks := BlocksBetween(src, totalBytes, blockSize);
    BetweenBoundaries(left, blocks, src, totalBytes, blockSize);
  }

  lemma BlocksBetween(src: nat, totalBytes: nat, blockSize: nat) returns (blocks: nat)
    requires blockSize > 0 && MeetsBoundary(src, totalBytes, blockSize)
    ensures var left, right := FloorToBlock(src + blockSize - 1, blockSize), FloorToBlock(src + totalBytes, blockSize);
      && right == left + blockSize * blocks && src <= left < src + blockSize && left % blockSize == 0
      && right <= src + totalBytes < right + blockSize
  {
    var l, r := (src + blockSize - 1) / blockSize, (src + totalBytes) / blockSize;
    BoundariesInOrder(src, totalBytes, blockSize);
    LeftIsNextBoundary(src, totalBytes, blockSize);
    FloorIsMultiple(src + blockSize - 1, blockSize);
    FloorIsMultiple(src + totalBytes, blockSize);
    MultipleLeavesNothing(blockSize, l);
    MultiplesApart(blockSize, l, r);
    blocks := r - l;
  }

  lemma MultiplesApart(b: nat, l: int, r: int)
    requires b * l <= b * r && b > 0
    ensures l <= r && b * r == b * l + b * (r - l)
  {
    if r < l { MulMonotone(b, r + 1, l); }
  }

  /** Without one, the head alone is longer than the whole block: no layout of this kind is possible. */
  lemma LaidOutWellIff(src: nat, totalBytes: nat, blockSize: nat)
    requires blockSize > 0
    ensures var l := LayoutOf(src, totalBytes, blockSize);
      && (WellLaidOut(l, src, totalBytes, blockSize) <==> MeetsBoundary(src, totalBytes, blockSize))
      && (!MeetsBoundary(src, totalBytes, blockSize) ==> Job(l, src, 0).size > totalBytes)
  {
    if MeetsBoundary(src, totalBytes, blockSize) {
      LaidOutWell(src, totalBytes, blockSize);
    } else {
      BoundariesInOrder(src, totalBytes, blockSize);
    }
  }

  // ----------------------------------------------------------------------------------- the tiling

  predicate Covers(s: Segment, x: int) {
    s.to <= x < s.to + s.size
  }

  /** Each job starts where the one before ends, and reads at the offset it writes to. */
  lemma JobsAreContiguous(l: Layout, src: nat, totalBytes: nat, i: nat)
    requires Spans(l, src, totalBytes) && i < JOBS
    ensures Job(l, src, i).from == Job(l, src, i).to >= 0 && Job(l, src, i).size >= 0
    ensures Job(l, src, 0).to == 0 && Job(l, src, JOBS - 1).to + Job(l, src, JOBS - 1).size == totalBytes
    ensures i + 1 < JOBS ==> Job(l, src, i).to + Job(l, src, i).size == Job(l, src, i + 1).to
  {
    assert i * l.chunk == (i - 1) * l.chunk + l.chunk;
    if i > 0 { MulMonotone(l.chunk, 0, i - 1); }
  }

  lemma {:induction false} LaterStartsLater(l: Layout, src: nat, totalBytes: nat, i: nat, j: nat)
    requires Spans(l, src, totalBytes) && i < j < JOBS
    ensures Job(l, src, i).to + Job(l, src, i).size <= Job(l, src, j).to
    decreases j
  {
    JobsAreContiguous(l, src, totalBytes, j - 1);
    if i < j - 1 {
      LaterStartsLater(l, src, totalBytes, i, j - 1);
    }
  }

  /** The job that writes byte `x`, among the first `n`. */
  lemma {:induction false} SomeJobCovers(l: Layout, src: nat, totalBytes: nat, x: int, n: nat) returns (i: nat)
    requires Spans(l, src, totalBytes) && 0 < n <= JOBS
    requires 0 <= x < Job(l, src, n - 1).to + Job(l, src, n - 1).size
    ensures i < n && Covers(Job(l, src, i), x)
  {
    i := n - 1;
    if x < Job(l, src, n - 1).to {
      JobsAreContiguous(l, src, totalBytes, 0);
      JobsAreContiguous(l, src, totalBytes, n - 2);
      i := SomeJobCovers(l, src, totalBytes, x, n - 1);
    }
  }

  /** Every byte of the block, and no other, is written by a job, and by one job only. */
  lemma JobsTile(l: Layout, src: nat, totalBytes: nat, x: int)
    requires Spans(l, src, totalBytes)
    ensures 0 <= x < totalBytes <==> exists i: nat :: i < JOBS && Covers(Job(l, src, i), x)
    ensures forall i: nat, j: nat :: i < JOBS && j < JOBS ==>
      Covers(Job(l, src, i), x) && Covers(Job(l, src, j), x) ==> i == j
  {
    JobsAreContiguous(l, src, totalBytes, JOBS - 1);
    if 0 <= x < totalBytes {
      var i := SomeJobCovers(l, src, totalBytes, x, JOBS);
    }
    forall i: nat | i < JOBS && Covers(Job(l, src, i), x) ensures 0 <= x < totalBytes {
      JobsAreContiguous(l, src, totalBytes, i);
      if i < JOBS - 1 { LaterStartsLater(l, src, totalBytes, i, JOBS - 1); }
    }
    forall i: nat, j: nat | i < j < JOBS ensures !(Covers(Job(l, src, i), x) && Covers(Job(l, src, j), x)) {
      LaterStartsLater(l, src, totalBytes, i, j);
    }
  }

  // ------------------------------------------------------------------------ any order of execution

  /** One byte copied by one of the threads: byte `offset` of job `job`. */
  datatype Copy = Copy(job: nat, offset: nat)

  predicate Within(l: Layout, src: nat, c: Copy) {
    c.job < JOBS && c.offset < Job(l, src, c.job).size
  }

  /** Copies of the threads interleaved in any order, repeated or not. */
  function Run(dst: seq<Byte>, source: seq<Byte>, l: Layout, src: nat, copies: seq<Copy>): (r: seq<Byte>)
    ensures |r| == |dst|
  {
    if copies == [] then dst
    else
      var d := Run(dst, source, l, src, copies[..|copies| - 1]);
      var c := copies[|copies| - 1];
      if !Within(l, src, c) then d
      else
        var to, from := Job(l, src, c.job).to + c.offset, Job(l, src, c.job).from + c.offset;
        if 0 <= to < |d| && 0 <= from < |source| then d[to := source[from]] else d
  }

  ghost predicate Done(l: Layout, src: nat, copies: seq<Copy>, x: int) {
    exists c :: c in copies && Within(l, src, c) && Job(l, src, c.job).to + c.offset == x
  }

  /** However the threads interleave, a byte some job has copied holds the source's byte, all others are as before. */
  lemma {:induction false} RunCopies(dst: seq<Byte>, source: seq<Byte>, l: Layout, src: nat, totalBytes: nat,
                                     copies: seq<Copy>, x: nat)
    requires Spans(l, src, totalBytes)
    requires totalBytes <= |source| && totalBytes <= |dst| && x < |dst|
    ensures Done(l, src, copies, x) ==> x < totalBytes
    ensures Run(dst, source, l, src, copies)[x] == if Done(l, src, copies, x) then source[x] else dst[x]
  {
    if copies != [] {
      var before, c := copies[..|copies| - 1], copies[|copies| - 1];
      RunCopies(dst, source, l, src, totalBytes, before, x);
      assert forall d :: d in copies <==> d in before || d == c;
      if Within(l, src, c) {
        JobsAreContiguous(l, src, totalBytes, c.job);
        var to := Job(l, src, c.job).to + c.offset;
        assert Covers(Job(l, src, c.job), to);
        JobsTile(l, src, totalBytes, to);
      }
    }
  }

  /** Every byte of every job has been copied: all threads have been joined. */
  ghost predicate Complete(l: Layout, src: nat, copies: seq<Copy>) {
    forall i: nat, o: nat :: i < JOBS && o < Job(l, src, i).size ==> Copy(i, o) in copies
  }

  lemma LayoutSpans(src: nat, totalBytes: nat, blockSize: nat)
    requires blockSize > 0 && MeetsBoundary(src, totalBytes, blockSize)
    ensures Spans(LayoutOf(src, totalBytes, blockSize), src, totalBytes)
  {
    hide LayoutOf, Spans;
    LaidOutWell(src, totalBytes, blockSize);
  }

  lemma CompleteRunCopies(dst: seq<Byte>, source: seq<Byte>, l: Layout, src: nat, totalBytes: nat, copies: seq<Copy>)
    requires Spans(l, src, totalBytes) && Complete(l, src, copies)
    requires totalBytes <= |source| && totalBytes <= |dst|
    ensures Run(dst, source, l, src, copies) == source[..totalBytes] + dst[totalBytes..]
  {
    hide Spans, Run, Job;
    forall x: nat | x < |dst|
      ensures Run(dst, source, l, src, copies)[x] == if x < totalBytes then source[x] else dst[x]
    {
      RunCopies(dst, source, l, src, totalBytes, copies, x);
      JobsTile(l, src, totalBytes, x);
      if x < totalBytes {
        var i: nat :| i < JOBS && Covers(Job(l, src, i), x);
        assert Copy(i, x - Job(l, src, i).to) in copies;
      }
    }
  }

  /** Once the threads are joined the block is copied and nothing else has changed, in whatever order they ran. */
  lemma AnyScheduleCopies(dst: seq<Byte>, source: seq<Byte>, src: nat, totalBytes: nat, blockSize: nat,
                          copies: seq<Copy>)
    requires blockSize > 0 && MeetsBoundary(src, totalBytes, blockSize)
    requires totalBytes <= |source| && totalBytes <= |dst|
    requires Complete(LayoutOf(src, totalBytes, blockSize), src, copies)
    ensures var l := LayoutOf(src, totalBytes, blockSize);
      Run(dst, source, l, src, copies) == source[..totalBytes] + dst[totalBytes..]
  {
    hide LayoutOf, Spans, Run, Complete;
    LayoutSpans(src, totalBytes, blockSize);
    CompleteRunCopies(dst, source, LayoutOf(src, totalBytes, blockSize), src, totalBytes, copies);
  }

  // ------------------------------------------------------------------------------------ the method

  /** `before` with the source laid over it from `lo` to `hi`. */
  function Overlaid(before: seq<Byte>, source: seq<Byte>, lo: int, hi: int): (r: seq<Byte>)
    ensures |r| == |before|
  {
    seq(|before|, x requires 0 <= x < |before| => if lo <= x < hi && x < |source| then source[x] else before[x])
  }

  lemma OverlaysJoin(before: seq<Byte>, source: seq<Byte>, a: int, b: int, c: int)
    requires a <= b <= c
    ensures Overlaid(Overlaid(before, source, a, b), source, b, c) == Overlaid(before, source, a, c)
    ensures Overlaid(Overlaid(before, source, b, c), source, a, b) == Overlaid(before, source, a, c)
    ensures Overlaid(before, source, a, a) == before
  {
  }

  lemma OverlaidBlock(before: seq<Byte>, source: seq<Byte>, n: nat)
    requires n <= |source| && n <= |before|
    ensures Overlaid(before, source, 0, n) == source[..n] + before[n..]
  {
  }

  method MemcpyS(dst: array<Byte>, to: nat, source: seq<Byte>, from: nat, size: nat)
    requires to + size <= dst.Length && from + size <= |source|
    modifies dst
    ensures forall x :: 0 <= x < dst.Length ==>
      dst[x] == if to <= x < to + size then source[from + x - to] else old(dst[x])
  {
    for k := 0 to size
      invariant forall x :: 0 <= x < dst.Length ==>
        dst[x] == if to <= x < to + k then source[from + x - to] else old(dst[x])
    {
      dst[to + k] := source[from + k];
    }
  }

  /** Nothing to do, copied, or a layout whose head is longer than the block: its copies would leave the block, and
      what they do is undefined. */
  datatype Outcome = Nothing | Copied | OutsideBlock

  /** The calling thread's own order, one of those above.  `src` is the address of `source`. */
  method CopyInParallel(dst: array<Byte>, src: nat, source: seq<Byte>, totalBytes: int, blockSize: nat)
    returns (r: Outcome)
    requires totalBytes <= |source| && totalBytes <= dst.Length
    modifies dst
    ensures r.Nothing? <==> blockSize == 0 || totalBytes <= 0
    ensures !r.Nothing? ==> (r.Copied? <==> MeetsBoundary(src, totalBytes, blockSize))
    ensures dst[..] == if r.Copied? then source[..totalBytes] + old(dst[totalBytes..]) else old(dst[..])
  {
    if blockSize == 0 || totalBytes <= 0 { return Nothing; }
    LaidOutWellIff(src, totalBytes, blockSize);
    hide LayoutOf, MeetsBoundary;
    if LayoutOf(src, totalBytes, blockSize).head > totalBytes { return OutsideBlock; }
    r := Copied;
    CopyParts(dst, source, LayoutOf(src, totalBytes, blockSize), src, totalBytes);
  }

  method CopyParts(dst: array<Byte>, source: seq<Byte>, l: Layout, src: nat, totalBytes: nat)
    requires Spans(l, src, totalBytes) && totalBytes <= |source| && totalBytes <= dst.Length
    modifies dst
    ensures dst[..] == source[..totalBytes] + old(dst[totalBytes..])
  {
    ghost var before := dst[..];
    CopyBody(dst, source, l, src, totalBytes);
    OverlaysJoin(before, source, 0, l.head, l.head + l.body);
    if l.head > 0 { CopyJob(dst, source, l, src, totalBytes, 0); }
    OverlaysJoin(before, source, 0, l.head + l.body, totalBytes);
    if l.tail > 0 { CopyJob(dst, source, l, src, totalBytes, JOBS - 1); }
    OverlaidBlock(before, source, totalBytes);
  }

  /** The six workers. */
  method CopyBody(dst: array<Byte>, source: seq<Byte>, l: Layout, src: nat, totalBytes: nat)
    requires Spans(l, src, totalBytes) && totalBytes <= |source| && totalBytes <= dst.Length
    modifies dst
    ensures dst[..] == Overlaid(old(dst[..]), source, l.head, l.head + l.body)
  {
    ghost var before := dst[..];
    OverlaysJoin(before, source, l.head, l.head, l.head);
    for i := 0 to THREADS
      invariant dst[..] == Overlaid(before, source, l.head, l.head + i * l.chunk)
    {
      assert (i + 1) * l.chunk == i * l.chunk + l.chunk;
      MulMonotone(l.chunk, 0, i);
      OverlaysJoin(before, source, l.head, l.head + i * l.chunk, l.head + (i + 1) * l.chunk);
      CopyJob(dst, source, l, src, totalBytes, i + 1);
    }
  }

  method CopyJob(dst: array<Byte>, source: seq<Byte>, l: Layout, src: nat, totalBytes: nat, i: nat)
    requires Spans(l, src, totalBytes) && i < JOBS
    requires totalBytes <= |source| && totalBytes <= dst.Length
    modifies dst
    ensures var job := Job(l, src, i); dst[..] == Overlaid(old(dst[..]), source, job.to, job.to + job.size)
  {
    JobsAreContiguous(l, src, totalBytes, i);
    if i < JOBS - 1 { LaterStartsLater(l, src, totalBytes, i, JOBS - 1); }
    JobsAreContiguous(l, src, totalBytes, JOBS - 1);
    var job := Job(l, src, i);
    MemcpyS(dst, job.to, source, job.from, job.size);
  }
}
