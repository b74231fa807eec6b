/** The stream copy of `write_bytes`: read the audio stream in chunks of at
    most the bytes still expected, stop at the first empty read, pass each
    chunk through an optional transform, write it, and finally pad the file
    with zero bytes up to the declared size. */
module StreamWriter {
  import opened Wrappers
  import opened Bytes

  /** The default `default_chunksize` of `write_bytes`. */
  const DEFAULT_CHUNK_SIZE: nat := 65536

  /** `chunk_process`: a transform applied to every chunk before it is written. */
  type Transform = seq<byte> -> seq<byte>

  /** `next(chunk_sizes)` on an exhausted iterator raises StopIteration. */
  datatype CopyError = StopIteration

  /** How many bytes one `read(n)` returns when `avail` bytes remain in the
      stream and the stream's next short-read limit is the head of `limits`
      (no limit once `limits` is empty). */
  function Granted(avail: nat, limits: seq<nat>, n: nat): (k: nat)
    ensures k <= n && k <= avail
  {
    Min(Min(n, avail), if limits == [] then n else limits[0])
  }

  function DropLimit(limits: seq<nat>): seq<nat>
  {
    if limits == [] then [] else limits[1..]
  }

  /** The audio stream `fd`: the bytes it has yet to deliver and the
      short-read limits of its next reads. */
  class Source {
    var rest: seq<byte>
    var limits: seq<nat>

    constructor (data: seq<byte>, limits: seq<nat>)
      ensures rest == data && this.limits == limits
    {
      this.rest := data;
      this.limits := limits;
    }

    /** `fd.read(n)`: at most n bytes from the front of what remains; fewer
        at the end of the stream or when the stream delivers a short read. */
    method Read(n: nat) returns (chunk: seq<byte>)
      modifies this
      ensures chunk == old(rest)[..Granted(|old(rest)|, old(limits), n)]
      ensures rest == old(rest)[|chunk|..]
      ensures limits == DropLimit(old(limits))
    {
      var k := Granted(|rest|, limits, n);
      chunk := rest[..k];
      rest := rest[k..];
      limits := DropLimit(limits);
    }
  }

  /** The output file `out_fd`, opened for writing. */
  class Sink {
    var contents: seq<byte>

    constructor ()
      ensures contents == []
    {
      contents := [];
    }

    /** `out_fd.write(b)` on a regular file writes all of `b` and returns its length. */
    method Write(b: seq<byte>) returns (count: nat)
      modifies this
      ensures contents == old(contents) + b && count == |b|
    {
      contents := contents + b;
      count := |b|;
    }
  }

  /** One `next(chunk_sizes) if chunk_sizes else default_chunksize`. */
  datatype NextSize = Exhausted | Size(n: nat, later: Option<seq<nat>>)

  function NextChunkSize(sizes: Option<seq<nat>>, defaultChunkSize: nat): NextSize
  {
    match sizes
    case None => Size(defaultChunkSize, None)
    case Some(s) => if s == [] then Exhausted else Size(s[0], Some(s[1..]))
  }

  datatype Stop = EmptyRead | ChunkSizesExhausted

  /** The reads of one copy: the non-empty chunks in the order they were
      read, and why the loop ended. */
  datatype Run = Run(chunks: seq<seq<byte>>, stop: Stop)

  /** The loop of `write_bytes` as a function of what the stream still holds
      (`rest`, `limits`), what is left of `chunk_sizes`, and how many bytes
      are still expected (`remaining` = size - bytes_read). */
  function Pump(rest: seq<byte>, limits: seq<nat>, sizes: Option<seq<nat>>, defaultChunkSize: nat, remaining: nat): Run
    decreases remaining
  {
    match NextChunkSize(sizes, defaultChunkSize)
    case Exhausted => Run([], ChunkSizesExhausted)
    case Size(n, later) =>
      var k := Granted(|rest|, limits, Min(n, remaining));
      if k == 0 then Run([], EmptyRead)
      else
        var tail := Pump(rest[k..], DropLimit(limits), later, defaultChunkSize, remaining - k);
        Run([rest[..k]] + tail.chunks, tail.stop)
  }

  function Concat(chunks: seq<seq<byte>>): seq<byte>
  {
    if chunks == [] then [] else chunks[0] + Concat(chunks[1..])
  }

  function Processed(chunkProcess: Option<Transform>, chunk: seq<byte>): seq<byte>
  {
    match chunkProcess
    case None => chunk
    case Some(f) => f(chunk)
  }

  /** The bytes the loop writes for the given chunks: each chunk, transformed, in order. */
  function Written(chunkProcess: Option<Transform>, chunks: seq<seq<byte>>): seq<byte>
  {
    if chunks == [] then [] else Processed(chunkProcess, chunks[0]) + Written(chunkProcess, chunks[1..])
  }

  /** What one copy appends to the file: the transformed chunks, then (when
      the loop ended at an empty read) `size - bytes_wrote` zero bytes. */
  function Emitted(run: Run, chunkProcess: Option<Transform>, size: nat): seq<byte>
  {
    var written := Written(chunkProcess, run.chunks);
    if run.stop == EmptyRead then written + Zeros(size - |written|) else written
  }

  /** The value `write_bytes` returns, or the exception it raises. */
  function Outcome(run: Run, chunkProcess: Option<Transform>): Result<nat, CopyError>
  {
    if run.stop == EmptyRead then Success(|Written(chunkProcess, run.chunks)|)
    else Failure(StopIteration)
  }

  /** One turn of the loop that reads k > 0 bytes: the chunk comes first,
      then the chunks of the rest of the copy. */
  lemma PumpStep(rest: seq<byte>, limits: seq<nat>, sizes: Option<seq<nat>>, defaultChunkSize: nat,
                 remaining: nat, n: nat, later: Option<seq<nat>>, k: nat)
    requires NextChunkSize(sizes, defaultChunkSize) == Size(n, later)
    requires k == Granted(|rest|, limits, Min(n, remaining)) && k > 0
    ensures var run := Pump(rest, limits, sizes, defaultChunkSize, remaining);
      var tail := Pump(rest[k..], DropLimit(limits), later, defaultChunkSize, remaining - k);
      && run == Run([rest[..k]] + tail.chunks, tail.stop)
      && Concat(run.chunks) == rest[..k] + Concat(tail.chunks)
  {
    var run := Pump(rest, limits, sizes, defaultChunkSize, remaining);
    var tail := Pump(rest[k..], DropLimit(limits), later, defaultChunkSize, remaining - k);
    assert run.chunks[1..] == tail.chunks;
  }

  lemma PrefixThenPrefix(s: seq<byte>, k: nat, m: nat)
    requires k + m <= |s|
    ensures s[..k] + s[k..][..m] == s[..k + m]
  {
  }

  /** Every read asks for at most `size - bytes_read` bytes, so the copy
      consumes a prefix of the stream no longer than `size`, in order. */
  lemma {:induction false} PumpDeliversPrefix(rest: seq<byte>, limits: seq<nat>, sizes: Option<seq<nat>>,
                                              defaultChunkSize: nat, remaining: nat)
    ensures var run := Pump(rest, limits, sizes, defaultChunkSize, remaining);
      var m := |Concat(run.chunks)|;
      m <= remaining && m <= |rest| && Concat(run.chunks) == rest[..m]
    decreases remaining
  {
    var run := Pump(rest, limits, sizes, defaultChunkSize, remaining);
    match NextChunkSize(sizes, defaultChunkSize)
    case Exhausted =>
      assert run.chunks == [];
    case Size(n, later) =>
      var k := Granted(|rest|, limits, Min(n, remaining));
      if k == 0 {
        assert run.chunks == [];
      } else {
        var tail := Pump(rest[k..], DropLimit(limits), later, defaultChunkSize, remaining - k);
        PumpDeliversPrefix(rest[k..], DropLimit(limits), later, defaultChunkSize, remaining - k);
        var m := |Concat(tail.chunks)|;
        assert m <= |rest| - k && Concat(tail.chunks) == rest[k..][..m];
        PrefixThenPrefix(rest, k, m);
        PumpStep(rest, limits, sizes, defaultChunkSize, remaining, n, later, k);
      }
  }

  predicate NonEmptyChunks(chunks: seq<seq<byte>>)
  {
    forall i :: 0 <= i < |chunks| ==> |chunks[i]| > 0
  }

  /** The loop stops at the first empty read, so no chunk it writes is empty. */
  lemma {:induction false} PumpChunksNonEmpty(rest: seq<byte>, limits: seq<nat>, sizes: Option<seq<nat>>,
                                              defaultChunkSize: nat, remaining: nat)
    ensures NonEmptyChunks(Pump(rest, limits, sizes, defaultChunkSize, remaining).chunks)
    decreases remaining
  {
    var run := Pump(rest, limits, sizes, defaultChunkSize, remaining);
    match NextChunkSize(sizes, defaultChunkSize)
    case Exhausted =>
    case Size(n, later) =>
      var k := Granted(|rest|, limits, Min(n, remaining));
      if k > 0 {
        PumpChunksNonEmpty(rest[k..], DropLimit(limits), later, defaultChunkSize, remaining - k);
        var tail := Pump(rest[k..], DropLimit(limits), later, defaultChunkSize, remaining - k);
        assert run.chunks == [rest[..k]] + tail.chunks;
        forall i | 0 <= i < |run.chunks|
          ensures |run.chunks[i]| > 0
        {
          if i > 0 {
            assert run.chunks[i] == tail.chunks[i - 1];
            assert |tail.chunks[i - 1]| > 0;
          }
        }
      }
  }

  lemma {:induction false} ConcatSnoc(chunks: seq<seq<byte>>, c: seq<byte>)
    ensures Concat(chunks + [c]) == Concat(chunks) + c
  {
    if chunks != [] {
      assert (chunks + [c])[1..] == chunks[1..] + [c];
      ConcatSnoc(chunks[1..], c);
    }
  }

  /** What the loop of WriteBytes keeps: the chunks read so far and what the
      stream still holds make up the stream it started from; the chunks read
      so far followed by those of the rest of the copy (`tail`) make up the
      whole run; and the file holds exactly the transformed chunks read so far. */
  ghost predicate CopyInvariant(run0: Run, rest0: seq<byte>, contents0: seq<byte>, chunkProcess: Option<Transform>,
                                chunks: seq<seq<byte>>, rest: seq<byte>, tail: Run, contents: seq<byte>,
                                bytesWrote: nat)
  {
    && rest0 == Concat(chunks) + rest
    && run0 == Run(chunks + tail.chunks, tail.stop)
    && contents == contents0 + Written(chunkProcess, chunks)
    && bytesWrote == |Written(chunkProcess, chunks)|
  }

  /** The loop ends when the rest of the copy reads nothing more: the run is over. */
  lemma CopyInvariantAtHalt(run0: Run, rest0: seq<byte>, contents0: seq<byte>, chunkProcess: Option<Transform>,
                            chunks: seq<seq<byte>>, rest: seq<byte>, stop: Stop, contents: seq<byte>,
                            bytesWrote: nat)
    requires CopyInvariant(run0, rest0, contents0, chunkProcess, chunks, rest, Run([], stop), contents, bytesWrote)
    ensures run0 == Run(chunks, stop)
    ensures rest0 == Concat(run0.chunks) + rest
    ensures contents == contents0 + Written(chunkProcess, run0.chunks)
    ensures bytesWrote == |Written(chunkProcess, run0.chunks)|
  {
    assert chunks + [] == chunks;
  }

  /** A turn that reads a chunk: the chunk joins those already read and
      its transform is appended to the file. */
  lemma CopyInvariantStep(run0: Run, rest0: seq<byte>, contents0: seq<byte>, chunkProcess: Option<Transform>,
                          chunks: seq<seq<byte>>, rest: seq<byte>, contents: seq<byte>, bytesWrote: nat,
                          chunk: seq<byte>, rest': seq<byte>, tail': Run, contents': seq<byte>, count: nat)
    requires CopyInvariant(run0, rest0, contents0, chunkProcess, chunks, rest,
                           Run([chunk] + tail'.chunks, tail'.stop), contents, bytesWrote)
    requires rest == chunk + rest'
    requires contents' == contents + Processed(chunkProcess, chunk)
    requires count == |Processed(chunkProcess, chunk)|
    ensures CopyInvariant(run0, rest0, contents0, chunkProcess, chunks + [chunk], rest', tail', contents',
                          bytesWrote + count)
  {
    assert chunks + ([chunk] + tail'.chunks) == (chunks + [chunk]) + tail'.chunks;
    ConcatSnoc(chunks, chunk);
    WrittenSnoc(chunkProcess, chunks, chunk);
  }

  lemma {:induction false} WrittenSnoc(chunkProcess: Option<Transform>, chunks: seq<seq<byte>>, c: seq<byte>)
    ensures Written(chunkProcess, chunks + [c]) == Written(chunkProcess, chunks) + Processed(chunkProcess, c)
  {
    if chunks != [] {
      assert (chunks + [c])[1..] == chunks[1..] + [c];
      WrittenSnoc(chunkProcess, chunks[1..], c);
    }
  }

  /** What one turn of the loop did: it stopped, or it read `got` > 0 bytes
      and wrote `count` bytes, with `later` what is left of `chunk_sizes`. */
  datatype Turn = Halted(stop: Stop) | Copied(later: Option<seq<nat>>, got: nat, count: nat)

  /** One turn of the `while True` loop, with `remaining` = size - bytes_read:
      take the next chunk size, read, and unless the read came back empty,
      transform the chunk and write it. The turn is the first step of the
      run the rest of the copy performs. */
  method CopyTurn(src: Source, sink: Sink, remaining: nat, sizes: Option<seq<nat>>,
                  chunkProcess: Option<Transform>, defaultChunkSize: nat, ghost run: Run)
    returns (turn: Turn, ghost chunk: seq<byte>, ghost tail: Run)
    requires run == Pump(src.rest, src.limits, sizes, defaultChunkSize, remaining)
    modifies src, sink
    ensures turn.Halted? ==>
      run == Run([], turn.stop) && src.rest == old(src.rest) && sink.contents == old(sink.contents)
    ensures turn.Copied? ==>
      && 0 < turn.got <= remaining
      && old(src.rest) == chunk + src.rest && |chunk| == turn.got
      && tail == Pump(src.rest, src.limits, turn.later, defaultChunkSize, remaining - turn.got)
      && run == Run([chunk] + tail.chunks, tail.stop)
      && sink.contents == old(sink.contents) + Processed(chunkProcess, chunk)
      && turn.count == |Processed(chunkProcess, chunk)|
  {
    var next := NextChunkSize(sizes, defaultChunkSize);
    if next.Exhausted? {
      return Halted(ChunkSizesExhausted), [], Run([], ChunkSizesExhausted);
    }
    var sizeToRead := Min(next.n, remaining);
    var read := src.Read(sizeToRead);
    if |read| == 0 {
      return Halted(EmptyRead), [], Run([], EmptyRead);
    }
    var out := Processed(chunkProcess, read);
    var count := sink.Write(out);
    turn, chunk := Copied(next.later, |read|, count), read;
    assert old(src.rest) == read + src.rest;
    tail := Pump(src.rest, src.limits, next.later, defaultChunkSize, remaining - |read|);
  }

  /** The `while True` loop of `write_bytes`: reads, transforms and writes
      chunks until a read comes back empty or `chunk_sizes` runs out. Which
      short-read limits the stream still has pending afterwards is not
      stated. */
  method CopyChunks(src: Source, sink: Sink, size: nat, chunkSizes: Option<seq<nat>>,
                    chunkProcess: Option<Transform>, defaultChunkSize: nat)
    returns (bytesWrote: nat, stop: Stop)
    modifies src, sink
    ensures var run := Pump(old(src.rest), old(src.limits), chunkSizes, defaultChunkSize, size);
      && old(src.rest) == Concat(run.chunks) + src.rest
      && sink.contents == old(sink.contents) + Written(chunkProcess, run.chunks)
      && bytesWrote == |Written(chunkProcess, run.chunks)|
      && stop == run.stop
  {
    ghost var rest0, contents0 := src.rest, sink.contents;
    ghost var run0 := Pump(rest0, src.limits, chunkSizes, defaultChunkSize, size);
    ghost var chunks: seq<seq<byte>> := [];
    ghost var tail := run0;
    var bytesRead: nat := 0;
    bytesWrote := 0;
    var sizes := chunkSizes;
    assert rest0 == Concat(chunks) + src.rest;
    while true
      invariant bytesRead <= size
      invariant tail == Pump(src.rest, src.limits, sizes, defaultChunkSize, size - bytesRead)
      invariant CopyInvariant(run0, rest0, contents0, chunkProcess, chunks, src.rest, tail, sink.contents, bytesWrote)
      decreases size - bytesRead
    {
      ghost var restBefore, contentsBefore := src.rest, sink.contents;
      var turn, chunk, nextTail :=
        CopyTurn(src, sink, size - bytesRead, sizes, chunkProcess, defaultChunkSize, tail);
      if turn.Halted? {
        stop := turn.stop;
        break;
      }
      CopyInvariantStep(run0, rest0, contents0, chunkProcess, chunks, restBefore, contentsBefore, bytesWrote,
                        chunk, src.rest, nextTail, sink.contents, turn.count);
      sizes, tail := turn.later, nextTail;
      chunks := chunks + [chunk];
      bytesRead := bytesRead + turn.got;
      bytesWrote := bytesWrote + turn.count;
    }
    CopyInvariantAtHalt(run0, rest0, contents0, chunkProcess, chunks, src.rest, stop, sink.contents, bytesWrote);
  }

  /** `write_bytes(fd, out_fd, size, chunk_sizes, chunk_process, default_chunksize)`:
      the copy loop, then `out_fd.write(b"\x00" * (size - bytes_wrote))`.
      As for CopyChunks, the stream's pending short-read limits afterwards
      are not stated. */
  method WriteBytes(src: Source, sink: Sink, size: nat, chunkSizes: Option<seq<nat>>,
                    chunkProcess: Option<Transform>, defaultChunkSize: nat)
    returns (result: Result<nat, CopyError>)
    modifies src, sink
    ensures var run := Pump(old(src.rest), old(src.limits), chunkSizes, defaultChunkSize, size);
      && old(src.rest) == Concat(run.chunks) + src.rest
      && sink.contents == old(sink.contents) + Emitted(run, chunkProcess, size)
      && result == Outcome(run, chunkProcess)
  {
    var bytesWrote, stop := CopyChunks(src, sink, size, chunkSizes, chunkProcess, defaultChunkSize);
    if stop == ChunkSizesExhausted {
      return Failure(StopIteration);
    }
    var padding := sink.Write(Zeros(size - bytesWrote));
    result := Success(bytesWrote);
  }
}

/** Properties of one `write_bytes` call, stated on the run it performs. */
module StreamWriterProperties {
  import opened Wrappers
  import opened Bytes
  import opened StreamWriter

  /** With no `chunk_process`, the file receives exactly the bytes read. */
  lemma {:induction false} WrittenWithoutTransform(chunks: seq<seq<byte>>)
    ensures Written(None, chunks) == Concat(chunks)
  {
    if chunks != [] {
      WrittenWithoutTransform(chunks[1..]);
    }
  }

  /** A read that asks for nothing, because nothing more is expected or the
      chunk size is 0, comes back empty and ends the copy. */
  lemma EmptyRequestEndsCopy(rest: seq<byte>, limits: seq<nat>, sizes: Option<seq<nat>>,
                             defaultChunkSize: nat, remaining: nat)
    requires NextChunkSize(sizes, defaultChunkSize).Size?
    requires remaining == 0 || NextChunkSize(sizes, defaultChunkSize).n == 0
    ensures Pump(rest, limits, sizes, defaultChunkSize, remaining) == Run([], EmptyRead)
  {
  }

  /** Whatever the transform, a copy that ends at an empty read leaves the
      file `max(size, bytes_wrote)` bytes longer, and returns `bytes_wrote`,
      the transformed bytes without the padding. */
  lemma PaddedLength(run: Run, chunkProcess: Option<Transform>, size: nat)
    requires run.stop == EmptyRead
    ensures var wrote := |Written(chunkProcess, run.chunks)|;
      && Outcome(run, chunkProcess) == Success(wrote)
      && |Emitted(run, chunkProcess, size)| == Max(size, wrote)
      && Emitted(run, chunkProcess, size)[..wrote] == Written(chunkProcess, run.chunks)
  {
  }

  /** Without a transform, the file ends exactly `size` bytes longer: the
      bytes the stream delivered, in order, then zero bytes. */
  lemma VerbatimCopy(rest: seq<byte>, limits: seq<nat>, sizes: Option<seq<nat>>,
                     defaultChunkSize: nat, size: nat)
    requires Pump(rest, limits, sizes, defaultChunkSize, size).stop == EmptyRead
    ensures var run := Pump(rest, limits, sizes, defaultChunkSize, size);
      var m := |Concat(run.chunks)|;
      && m <= size && m <= |rest|
      && Emitted(run, None, size) == rest[..m] + Zeros(size - m)
      && |Emitted(run, None, size)| == size
      && Outcome(run, None) == Success(m)
  {
    var run := Pump(rest, limits, sizes, defaultChunkSize, size);
    PumpDeliversPrefix(rest, limits, sizes, defaultChunkSize, size);
    WrittenWithoutTransform(run.chunks);
  }

  /** With no `chunk_sizes` every turn asks for the default chunk size, so
      the loop can end only at an empty read: without `chunk_sizes`,
      `write_bytes` never raises StopIteration. */
  lemma {:induction false} DefaultNeverExhausted(rest: seq<byte>, limits: seq<nat>,
                                                 defaultChunkSize: nat, remaining: nat)
    ensures Pump(rest, limits, None, defaultChunkSize, remaining).stop == EmptyRead
    decreases remaining
  {
    var k := Granted(|rest|, limits, Min(defaultChunkSize, remaining));
    if k > 0 {
      DefaultNeverExhausted(rest[k..], DropLimit(limits), defaultChunkSize, remaining - k);
    }
  }

  /** `write_bytes(stream, f, size)` as the download calls it, with no
      `chunk_sizes` and no `chunk_process`: the call returns the number of
      stream bytes copied, and the file grows by exactly `size` bytes, a
      prefix of the stream followed by zero bytes. */
  lemma DefaultVerbatimCopy(rest: seq<byte>, limits: seq<nat>, defaultChunkSize: nat, size: nat)
    ensures var run := Pump(rest, limits, None, defaultChunkSize, size);
      var m := |Concat(run.chunks)|;
      && m <= size && m <= |rest|
      && Emitted(run, None, size) == rest[..m] + Zeros(size - m)
      && |Emitted(run, None, size)| == size
      && Outcome(run, None) == Success(m)
  {
    DefaultNeverExhausted(rest, limits, defaultChunkSize, size);
    VerbatimCopy(rest, limits, None, defaultChunkSize, size);
  }

  /** With no `chunk_sizes` and any `chunk_process`, the call returns
      `bytes_wrote` and the file grows by max(size, bytes_wrote) bytes, the
      transformed chunks first. */
  lemma DefaultPaddedLength(rest: seq<byte>, limits: seq<nat>, defaultChunkSize: nat,
                            chunkProcess: Option<Transform>, size: nat)
    ensures var run := Pump(rest, limits, None, defaultChunkSize, size);
      var wrote := |Written(chunkProcess, run.chunks)|;
      && Outcome(run, chunkProcess) == Success(wrote)
      && |Emitted(run, chunkProcess, size)| == Max(size, wrote)
      && Emitted(run, chunkProcess, size)[..wrote] == Written(chunkProcess, run.chunks)
  {
    var run := Pump(rest, limits, None, defaultChunkSize, size);
    DefaultNeverExhausted(rest, limits, defaultChunkSize, size);
    PaddedLength(run, chunkProcess, size);
  }

  /** A stream that never delivers a zero-length short read, with chunk
      sizes that are positive and do not run out before the copy ends. */
  predicate Cooperative(limits: seq<nat>, sizes: Option<seq<nat>>, defaultChunkSize: nat, remaining: nat)
  {
    && (forall i :: 0 <= i < |limits| ==> limits[i] > 0)
    && match sizes
       case None => defaultChunkSize > 0
       case Some(s) => |s| > remaining && forall i :: 0 <= i < |s| ==> s[i] > 0
  }

  /** Against a cooperative stream the copy reads everything it can:
      `min(size, len(stream))` bytes, and it ends at an empty read. */
  lemma {:induction false} CooperativeCopyDrains(rest: seq<byte>, limits: seq<nat>, sizes: Option<seq<nat>>,
                                                 defaultChunkSize: nat, remaining: nat)
    requires Cooperative(limits, sizes, defaultChunkSize, remaining)
    ensures var run := Pump(rest, limits, sizes, defaultChunkSize, remaining);
      run.stop == EmptyRead && |Concat(run.chunks)| == Min(remaining, |rest|)
    decreases remaining
  {
    var run := Pump(rest, limits, sizes, defaultChunkSize, remaining);
    match NextChunkSize(sizes, defaultChunkSize)
    case Exhausted =>
      assert false;
    case Size(n, later) =>
      var k := Granted(|rest|, limits, Min(n, remaining));
      if k > 0 {
        assert Cooperative(DropLimit(limits), later, defaultChunkSize, remaining - k);
        CooperativeCopyDrains(rest[k..], DropLimit(limits), later, defaultChunkSize, remaining - k);
        PumpStep(rest, limits, sizes, defaultChunkSize, remaining, n, later, k);
      } else {
        assert remaining == 0 || rest == [];
      }
  }

  /** A cooperative stream copied without a transform: the file gets the
      stream's bytes, cut at `size`, then zero bytes up to `size`. When the
      stream holds exactly `size` bytes, the file is an exact copy. */
  lemma CooperativeVerbatimCopy(rest: seq<byte>, limits: seq<nat>, sizes: Option<seq<nat>>,
                                defaultChunkSize: nat, size: nat)
    requires Cooperative(limits, sizes, defaultChunkSize, size)
    ensures var run := Pump(rest, limits, sizes, defaultChunkSize, size);
      var m := Min(size, |rest|);
      && Emitted(run, None, size) == rest[..m] + Zeros(size - m)
      && (|rest| == size ==> Emitted(run, None, size) == rest)
      && (|rest| < size ==> Emitted(run, None, size) == rest + Zeros(size - |rest|))
  {
    CooperativeCopyDrains(rest, limits, sizes, defaultChunkSize, size);
    VerbatimCopy(rest, limits, sizes, defaultChunkSize, size);
  }

  /** 100 bytes in the stream and 150 expected: 150 bytes land in the file,
      the last 50 of them zero. */
  lemma ShortStreamExample(rest: seq<byte>)
    requires |rest| == 100
    ensures var run := Pump(rest, [], None, DEFAULT_CHUNK_SIZE, 150);
      var out := Emitted(run, None, 150);
      |out| == 150 && out[..100] == rest && forall i :: 100 <= i < 150 ==> out[i] == 0
  {
    CooperativeVerbatimCopy(rest, [], None, DEFAULT_CHUNK_SIZE, 150);
  }
}
