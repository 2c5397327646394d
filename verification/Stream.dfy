/** Captured command output: one capped writer per stream, fed by a demultiplexer
    (internal/runtime/docker/stream.go, internal/runtime/docker/docker.go). */
module Stream {
  import opened Wrappers

  /** The first limit bytes, or all of them. */
  function Cap(bytes: seq<Byte>, limit: nat): (r: seq<Byte>)
    ensures r <= bytes && |r| == if |bytes| <= limit then |bytes| else limit
  {
    if |bytes| <= limit then bytes else bytes[..limit]
  }

  class CappedWriter {
    var buf: seq<Byte>
    const limit: nat
    var truncated: bool
    ghost var written: seq<Byte>  // everything ever written

    /** The buffer is the capped text and the flag says whether that lost anything. */
    ghost predicate Valid()
      reads this
    {
      buf == Cap(written, limit) && (truncated <==> |written| > limit)
    }

    constructor (limit: nat)
      ensures Valid() && this.limit == limit && written == [] && buf == [] && !truncated
    {
      this.limit := limit;
      buf, truncated, written := [], false, [];
    }

    method Write(p: seq<Byte>) returns (n: nat)
      requires Valid()
      modifies this
      ensures Valid() && written == old(written) + p
      ensures n == |p|
    {
      var room := limit - |buf|;
      if |p| > room {
        truncated := true;
      }
      if room > 0 {
        buf := buf + p[..if room <= |p| then room else |p|];
      }
      written := written + p;
      return |p|;
    }
  }

  // ---- Both streams of one command ----

  datatype Frame = Stdout(payload: seq<Byte>) | Stderr(payload: seq<Byte>)

  // What one stream carried, in order.
  function Payload(frames: seq<Frame>, out: bool): seq<Byte> {
    if frames == [] then []
    else
      var last := frames[|frames| - 1];
      Payload(frames[..|frames| - 1], out) + (if last.Stdout? == out then last.payload else [])
  }

  /** Demultiplexing drains every frame into the writer of its stream. */
  method CopyFrames(frames: seq<Frame>, stdout: CappedWriter, stderr: CappedWriter)
    requires stdout != stderr && stdout.Valid() && stderr.Valid()
    requires stdout.written == [] && stderr.written == []
    modifies stdout, stderr
    ensures stdout.Valid() && stdout.written == Payload(frames, true)
    ensures stderr.Valid() && stderr.written == Payload(frames, false)
  {
    for k := 0 to |frames|
      invariant stdout.Valid() && stdout.written == Payload(frames[..k], true)
      invariant stderr.Valid() && stderr.written == Payload(frames[..k], false)
    {
      assert frames[..k + 1][..k] == frames[..k];
      match frames[k]
      case Stdout(p) => var n := stdout.Write(p);
      case Stderr(p) => var n := stderr.Write(p);
    }
    assert frames[..|frames|] == frames;
  }

  datatype Capture = Capture(stdout: seq<Byte>, stdoutTruncated: bool, stderr: seq<Byte>, stderrTruncated: bool)

  /** Running the copy into two fresh writers, as Exec does, captures of each stream its
      own first limit bytes and reports its own truncation, whatever the other wrote. */
  method CaptureFrames(frames: seq<Frame>, limit: nat) returns (r: Capture)
    ensures r.stdout == Cap(Payload(frames, true), limit)
    ensures r.stdoutTruncated <==> |Payload(frames, true)| > limit
    ensures r.stderr == Cap(Payload(frames, false), limit)
    ensures r.stderrTruncated <==> |Payload(frames, false)| > limit
  {
    var stdout := new CappedWriter(limit);
    var stderr := new CappedWriter(limit);
    CopyFrames(frames, stdout, stderr);
    return Capture(stdout.buf, stdout.truncated, stderr.buf, stderr.truncated);
  }

  lemma {:induction false} PayloadConcat(a: seq<Frame>, b: seq<Frame>, out: bool)
    ensures Payload(a + b, out) == Payload(a, out) + Payload(b, out)
  {
    if b == [] {
      assert a + b == a;
    } else {
      assert (a + b)[..|a + b| - 1] == a + b[..|b| - 1];
      PayloadConcat(a, b[..|b| - 1], out);
    }
  }

  // What frame f adds to a stream.
  function Own(f: Frame, out: bool): seq<Byte> {
    if f.Stdout? == out then f.payload else []
  }

  lemma PayloadOfOne(a: seq<Frame>, f: Frame, out: bool)
    ensures Payload(a + [f], out) == Payload(a, out) + Own(f, out)
  {
  }

  lemma PayloadOfPair(a: seq<Frame>, f: Frame, g: Frame, out: bool)
    ensures Payload(a + [f, g], out) == Payload(a, out) + (Own(f, out) + Own(g, out))
  {
    PayloadOfOne(a, f, out);
    PayloadOfOne(a + [f], g, out);
    assert a + [f, g] == a + [f] + [g];
  }

  lemma PayloadOfTwo(a: seq<Frame>, f: Frame, g: Frame, b: seq<Frame>, out: bool)
    ensures Payload(a + [f, g] + b, out) == Payload(a, out) + (Own(f, out) + Own(g, out)) + Payload(b, out)
  {
    PayloadConcat(a + [f, g], b, out);
    PayloadOfPair(a, f, g, out);
  }

  /** Neighbouring frames of different streams commute, so how the daemon interleaves
      the two streams never shows in either capture. */
  lemma InterleavingIsInvisible(a: seq<Frame>, p: seq<Byte>, q: seq<Byte>, b: seq<Frame>, out: bool)
    ensures Payload(a + [Stdout(p), Stderr(q)] + b, out) == Payload(a + [Stderr(q), Stdout(p)] + b, out)
  {
    PayloadOfTwo(a, Stdout(p), Stderr(q), b, out);
    PayloadOfTwo(a, Stderr(q), Stdout(p), b, out);
    assert Own(Stdout(p), out) + Own(Stderr(q), out) == Own(Stderr(q), out) + Own(Stdout(p), out);
  }

  /** Two frames of one stream carry what one frame of both payloads carries, so how the
      daemon chunks the output does not show either. */
  lemma ChunkingIsInvisible(a: seq<Frame>, p: seq<Byte>, q: seq<Byte>, b: seq<Frame>, out: bool)
    ensures Payload(a + [Stdout(p), Stdout(q)] + b, out) == Payload(a + [Stdout(p + q), Stdout([])] + b, out)
  {
    PayloadOfTwo(a, Stdout(p), Stdout(q), b, out);
    PayloadOfTwo(a, Stdout(p + q), Stdout([]), b, out);
    assert Own(Stdout(p), out) + Own(Stdout(q), out) == Own(Stdout(p + q), out) + Own(Stdout([]), out);
  }
}
