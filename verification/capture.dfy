/**
 * Response capture (jkcmd.c:441-452): successive reads from the serial line
 * are appended into the 0x300-byte buffer until a read returns nothing.
 *
 * The line is a sequence of bursts. A read of at most `room` bytes returns
 * the head of the current burst and leaves the rest of it pending; an empty
 * burst is a read that timed out or failed (read returning 0 or -1), after
 * which the loop stops.
 */
module Capture {

  /** Size of buf (jkcmd.c:333). */
  const BufSize: nat := 0x300

  /** The shortest response jkRead accepts (jkcmd.c:449). */
  const MinResponse: nat := 6

  /** The bytes the line delivers before it first falls silent. */
  function Arrived(line: seq<seq<bv8>>): seq<bv8>
    decreases |line|
  {
    if line == [] || line[0] == [] then [] else line[0] + Arrived(line[1..])
  }

  /** What ends up in buf: the arrived bytes, cut at the buffer's size. */
  function Received(line: seq<seq<bv8>>): (r: seq<bv8>)
    ensures |r| <= BufSize
  {
    var a := Arrived(line);
    if |a| <= BufSize then a else a[..BufSize]
  }

  /** One read(2) of at most `room` bytes: the bytes returned and the line afterwards. */
  function ReadStep(line: seq<seq<bv8>>, room: nat): (r: (seq<bv8>, seq<seq<bv8>>))
    ensures |r.0| <= room
    ensures r.0 == [] <==> room == 0 || line == [] || line[0] == []
    ensures r.0 != [] ==> |r.0| <= |line[0]| && r.0 == line[0][..|r.0|]
  {
    if line == [] || line[0] == [] || room == 0 then ([], line)
    else if |line[0]| <= room then (line[0], line[1..])
    else (line[0][..room], [line[0][room..]] + line[1..])
  }

  /** A read returns at most `room` bytes, in arrival order, and loses none of the rest. */
  lemma ReadStepDelivers(line: seq<seq<bv8>>, room: nat)
    ensures |ReadStep(line, room).0| <= room
    ensures ReadStep(line, room).0 != [] ==>
      ReadStep(line, room).0 + Arrived(ReadStep(line, room).1) == Arrived(line)
    ensures ReadStep(line, room).0 == [] ==> room == 0 || Arrived(line) == []
  {
    if line != [] && line[0] != [] && room > 0 && |line[0]| > room {
      var rest := [line[0][room..]] + line[1..];
      assert rest[1..] == line[1..];
      assert line[0][..room] + line[0][room..] == line[0];
    }
  }

  /** Bursts after a silent read never reach the buffer. */
  lemma {:induction false} ArrivedStopsAtGap(before: seq<seq<bv8>>, after: seq<seq<bv8>>)
    ensures Arrived(before + [[]] + after) == Arrived(before)
    decreases |before|
  {
    if before == [] {
      assert (before + [[]] + after)[0] == [];
    } else if before[0] == [] {
      assert (before + [[]] + after)[0] == [];
    } else {
      assert (before + [[]] + after)[1..] == before[1..] + [[]] + after;
      ArrivedStopsAtGap(before[1..], after);
    }
  }

  /** read(2) into buf[at..]: copies the returned bytes there and leaves the rest of buf alone. */
  method SerialRead(buf: array<bv8>, at: nat, line: seq<seq<bv8>>) returns (nRead: nat, pending: seq<seq<bv8>>)
    requires at <= buf.Length
    modifies buf
    ensures at + nRead <= buf.Length
    ensures (buf[at..at + nRead], pending) == ReadStep(line, buf.Length - at)
    ensures buf[..at] == old(buf[..at]) && buf[at + nRead..] == old(buf[at + nRead..])
  {
    var step := ReadStep(line, buf.Length - at);
    var got := step.0;
    pending := step.1;
    ReadStepDelivers(line, buf.Length - at);
    nRead := |got|;
    forall k | 0 <= k < nRead {
      buf[at + k] := got[k];
    }
    assert buf[at..at + nRead] == got;
  }

  /**
   * The capture loop of jkRead: buf[..n] holds what arrived, cut at the
   * buffer's size, and nothing past n is touched.
   */
  method CaptureResponse(buf: array<bv8>, line: seq<seq<bv8>>) returns (n: nat)
    requires buf.Length == BufSize
    modifies buf
    ensures n <= BufSize
    ensures buf[..n] == Received(line)
    ensures buf[n..] == old(buf[n..])
  {
    var i := 0;
    var nRead := 0;
    var pending := line;
    while true
      invariant i + nRead <= BufSize
      invariant buf[..i + nRead] + Arrived(pending) == Arrived(line)
      invariant buf[i + nRead..] == old(buf[i + nRead..])
      decreases BufSize - i - nRead
    {
      i := i + nRead;
      ghost var before := buf[..i];
      ghost var pendingBefore := pending;
      nRead, pending := SerialRead(buf, i, pending);
      ReadStepDelivers(pendingBefore, BufSize - i);
      assert buf[..i] == before;
      assert buf[..i + nRead] == before + buf[i..i + nRead];
      if nRead == 0 {
        break;
      }
    }
    n := i;
    CaptureEnds(buf[..n], pending, line);
  }

  /**
   * When the loop stops, the bytes kept and those still pending make up what
   * arrived, and either nothing more was pending or the buffer is full: so
   * the buffer holds exactly what Received says.
   */
  lemma CaptureEnds(got: seq<bv8>, pending: seq<seq<bv8>>, line: seq<seq<bv8>>)
    requires got + Arrived(pending) == Arrived(line) && |got| <= BufSize
    requires |got| < BufSize ==> Arrived(pending) == []
    ensures got == Received(line)
  {
    if |got| == BufSize {
      assert Arrived(line)[..BufSize] == got;
    }
  }

  /** Whatever the line does, the buffer holds at most 0x300 bytes and they are the first that arrived. */
  lemma ReceivedIsPrefix(line: seq<seq<bv8>>)
    ensures |Received(line)| <= BufSize
    ensures Received(line) == Arrived(line)[..|Received(line)|]
    ensures |Received(line)| < BufSize ==> Received(line) == Arrived(line)
  {
  }
}
