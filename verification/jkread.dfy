/**
 * One query cycle of jkRead (jkcmd.c:427-477) and the run of main
 * (jkcmd.c:479-505): stamp and send the request, capture the answer, locate
 * the frame, decode the group; main checks the device address and queries
 * the three groups in turn.
 *
 * The serial port is abstract: opening it is a parameter, the frames written
 * are returned, and the answer to each request is a line of bursts as in
 * module Capture.
 */
module JkRead {
  import opened Options
  import opened Bytes
  import opened Crc16
  import opened Catalog
  import opened Request
  import opened Capture
  import opened Locator
  import opened Decoder

  /** How one call of jkRead ends. */
  datatype GroupResult =
    | NoResponse           // "No response or response too short"
    | InvalidResponse      // "Invalid response"
    | Decoded(outcome: Outcome)

  /** The result of jkRead for `group` on the captured bytes s, with register base `base`. */
  function GroupOutcome(s: seq<bv8>, group: int, base: nat): (r: GroupResult)
    ensures r.NoResponse? <==> |s| < MinResponse
    ensures r.InvalidResponse? <==> |s| >= MinResponse && Locate(s, group).None?
    ensures r.Decoded? ==> Locate(s, group).Some? && HeaderLen <= Locate(s, group).value < |s|
  {
    if |s| < MinResponse then NoResponse
    else match Locate(s, group)
      case None => InvalidResponse
      case Some(p) => Decoded(Walk(JkRegs, s, p, base))
  }

  /**
   * jkRead (jkcmd.c:427-477): the frame written to the port, the register
   * base now in force, and how the group ended. jkCmd, buf and regVal are
   * the source's globals.
   */
  method JkReadGroup(cmd: array<bv8>, buf: array<bv8>, regVal: array<bv8>,
                     addr: bv8, group: int, prevBase: nat, line: seq<seq<bv8>>)
    returns (sent: seq<bv8>, base: nat, r: GroupResult)
    requires cmd.Length == FrameLen && buf.Length == BufSize && regVal.Length == RegValSize
    requires cmd != buf && cmd != regVal && buf != regVal
    modifies cmd, buf, regVal
    ensures sent == cmd[..] == Stamp(old(cmd[..]), addr, group)
    ensures base == BaseAfter(group, prevBase)
    ensures r == GroupOutcome(Received(line), group, base)
    ensures buf[..|Received(line)|] == Received(line)
    ensures buf[|Received(line)|..] == old(buf[|Received(line)|..])
    ensures !r.Decoded? ==> regVal[..] == old(regVal[..])
  {
    base := StampRequest(cmd, addr, group, prevBase);
    sent := cmd[..];
    var n := CaptureResponse(buf, line);
    if n < 6 {
      return sent, base, NoResponse;
    }
    var found := FindFrame(buf, n, group);
    if found.None? {
      return sent, base, InvalidResponse;
    }
    var o := DecodeGroup(JkRegs, buf, n, found.value, base, regVal);
    r := Decoded(o);
  }

  /** The device address main uses: 1 when none is given, otherwise the given one if it is in 1..15. */
  function BmsAddress(arg: Option<int>): (r: Option<bv8>)
    ensures arg.None? ==> r == Some(1)
    ensures arg.Some? ==> (r.Some? <==> 1 <= arg.value <= 15)
    ensures r.Some? ==> 1 <= r.value as int <= 15
    ensures r.Some? && arg.Some? ==> r.value as int == arg.value
  {
    match arg
    case None => Some(1)
    case Some(a) => if a < 1 || a > 15 then None else Some(a as bv8)
  }

  /** The command line: the serial port (argv[1]) and the parsed address (argv[2]), each possibly absent. */
  datatype Invocation = Invocation(port: Option<string>, address: Option<int>)

  /** How main ends. */
  datatype RunResult =
    | Usage
    | WrongAddress
    | PortNotOpened
    | Queried(sent: seq<seq<bv8>>, results: seq<GroupResult>)

  /**
   * main (jkcmd.c:479-505): argument checks, then jkRead for groups 1, 2
   * and 3 whatever each returns. `portOpens` is whether openSerial
   * succeeds; line1..line3 are the answers to the three requests.
   */
  method Run(inv: Invocation, portOpens: bool,
             line1: seq<seq<bv8>>, line2: seq<seq<bv8>>, line3: seq<seq<bv8>>,
             cmd: array<bv8>, buf: array<bv8>, regVal: array<bv8>)
    returns (res: RunResult)
    requires cmd[..] == CmdTemplate && buf.Length == BufSize && regVal.Length == RegValSize
    requires cmd != buf && cmd != regVal && buf != regVal
    modifies cmd, buf, regVal
    ensures inv.port.None? ==> res == Usage
    ensures inv.port.Some? && BmsAddress(inv.address).None? ==> res == WrongAddress
    ensures inv.port.Some? && BmsAddress(inv.address).Some? && !portOpens ==> res == PortNotOpened
    ensures !res.Queried? ==> cmd[..] == old(cmd[..])
    ensures res.Queried? ==>
      inv.port.Some? && BmsAddress(inv.address).Some? && portOpens &&
      var a := BmsAddress(inv.address).value;
      res.sent == [RequestFrame(a, 1), RequestFrame(a, 2), RequestFrame(a, 3)] &&
      res.results == [GroupOutcome(Received(line1), 1, 0x1000),
                      GroupOutcome(Received(line2), 2, 0x1200),
                      GroupOutcome(Received(line3), 3, 0x1400)]
  {
    if inv.port.None? {
      return Usage;
    }
    var addr := BmsAddress(inv.address);
    if addr.None? {
      return WrongAddress;
    }
    if !portOpens {
      return PortNotOpened;
    }
    var a := addr.value;
    var s1, b1, r1 := JkReadGroup(cmd, buf, regVal, a, 1, 0, line1);
    var s2, b2, r2 := JkReadGroup(cmd, buf, regVal, a, 2, b1, line2);
    RestampForgets(CmdTemplate, a, 1, a, 2);
    var s3, b3, r3 := JkReadGroup(cmd, buf, regVal, a, 3, b2, line3);
    RestampForgets(Stamp(CmdTemplate, a, 1), a, 2, a, 3);
    RestampForgets(CmdTemplate, a, 1, a, 3);
    return Queried([s1, s2, s3], [r1, r2, r3]);
  }

  /**
   * An answer made of garbage holding no header for the group, the header
   * for the group and a non-empty payload is accepted, and decoding starts
   * right after the header.
   */
  lemma WellFormedAnswer(garbage: seq<bv8>, group: int, payload: seq<bv8>)
    requires 1 <= group <= 3
    requires forall j :: 0 <= j && j + HeaderLen <= |garbage| ==> !HeaderAt(garbage, j, group)
    requires payload != []
    ensures GroupOutcome(garbage + JkSign + LeEncode(group, 2) + payload, group, Params(group).value.base)
         == Decoded(Walk(JkRegs, garbage + JkSign + LeEncode(group, 2) + payload,
                         |garbage| + HeaderLen, Params(group).value.base))
  {
    SkipsGarbage(garbage, group, payload);
  }

  /** No row of a table is decoded by two different groups: the three windows are disjoint. */
  lemma NoRegisterInTwoGroups(cat: seq<RegSpec>, g1: int, g2: int, e: RegSpec)
    requires 1 <= g1 <= 3 && 1 <= g2 <= 3 && g1 != g2
    ensures !(e in SelectedFrom(cat, 0, Params(g1).value.base) && e in SelectedFrom(cat, 0, Params(g2).value.base))
  {
    SelectedFromMembers(cat, 0, Params(g1).value.base, e);
    SelectedFromMembers(cat, 0, Params(g2).value.base, e);
    GroupsDistinct(g1, g2);
  }

  /** The calibration registers from 0x1600 on lie in no group's window, so no query decodes them. */
  lemma CalibrationNeverDecoded(cat: seq<RegSpec>, group: int, e: RegSpec)
    requires 1 <= group <= 3 && e.reg >= 0x1600
    ensures e !in SelectedFrom(cat, 0, Params(group).value.base)
  {
    SelectedFromMembers(cat, 0, Params(group).value.base, e);
  }

  /** 0x2F0 zero bytes, the header for group 1, then ten more zero bytes: 0x300 bytes in all. */
  function LateHeaderAnswer(): seq<bv8> {
    seq(0x2F0, _ => 0) + JkSign + LeEncode(1, 2) + seq(10, _ => 0)
  }

  /** The answer above is accepted, with the payload at 0x2F6. */
  lemma LateHeaderLocated()
    ensures |LateHeaderAnswer()| == BufSize
    ensures Locate(LateHeaderAnswer(), 1) == Some(0x2F6)
  {
    var garbage: seq<bv8> := seq(0x2F0, _ => 0);
    forall j | 0 <= j && j + HeaderLen <= |garbage|
      ensures !HeaderAt(garbage, j, 1)
    {
      assert garbage[j..j + 4][0] == 0;
    }
    SkipsGarbage(garbage, 1, seq(10, _ => 0));
  }

  /** On a table starting with rows 0x1000, 0x1004, 0x1008 of four bytes each: the two walks at payload 0x2F6 of 0x300 bytes. */
  lemma GuardsDifferAtBufferEnd(cat: seq<RegSpec>, s: seq<bv8>)
    requires |cat| >= 3 && |s| == BufSize
    requires cat[0].reg == 0x1000 && cat[1].reg == 0x1004 && cat[2].reg == 0x1008
    requires cat[0].kind == UInt32 && cat[1].kind == UInt32 && cat[2].kind == UInt32
    ensures |AsWrittenReadsFrom(cat, 0, 0x1000, BufSize)| >= 3
    ensures AsWrittenReadsFrom(cat, 0, 0x1000, BufSize)[2] == cat[2]
    ensures 0x2F6 + (cat[2].reg - 0x1000) + Width(cat[2].kind) == 0x302
    ensures Walk(cat, s, 0x2F6, 0x1000) == Extend([Field(cat[0], FieldAt(s, 0x2F6, 0x1000, cat[0])),
                                                   Field(cat[1], FieldAt(s, 0x2F6, 0x1000, cat[1]))], MissingData([]))
  {
    AsWrittenReadsFirstThree(cat);
    WalkStopsAtThird(cat, s);
  }

  /** The loop as written reads the first three of those rows: none has an offset above 0x300. */
  lemma AsWrittenReadsFirstThree(cat: seq<RegSpec>)
    requires |cat| >= 3
    requires cat[0].reg == 0x1000 && cat[1].reg == 0x1004 && cat[2].reg == 0x1008
    ensures |AsWrittenReadsFrom(cat, 0, 0x1000, BufSize)| >= 3
    ensures AsWrittenReadsFrom(cat, 0, 0x1000, BufSize)[2] == cat[2]
  {
    var rest := AsWrittenReadsFrom(cat, 3, 0x1000, BufSize);
    assert AsWrittenReadsFrom(cat, 2, 0x1000, BufSize) == [cat[2]] + rest;
    assert AsWrittenReadsFrom(cat, 1, 0x1000, BufSize) == [cat[1]] + ([cat[2]] + rest);
    assert AsWrittenReadsFrom(cat, 0, 0x1000, BufSize) == [cat[0]] + ([cat[1]] + ([cat[2]] + rest));
  }

  /** The model's walk reads the first two of those rows and stops at the third, which would end at 0x302. */
  lemma WalkStopsAtThird(cat: seq<RegSpec>, s: seq<bv8>)
    requires |cat| >= 3 && |s| == BufSize
    requires cat[0].reg == 0x1000 && cat[1].reg == 0x1004 && cat[2].reg == 0x1008
    requires cat[0].kind == UInt32 && cat[1].kind == UInt32 && cat[2].kind == UInt32
    ensures Walk(cat, s, 0x2F6, 0x1000) == Extend([Field(cat[0], FieldAt(s, 0x2F6, 0x1000, cat[0])),
                                                   Field(cat[1], FieldAt(s, 0x2F6, 0x1000, cat[1]))], MissingData([]))
  {
    var f0 := Field(cat[0], FieldAt(s, 0x2F6, 0x1000, cat[0]));
    var f1 := Field(cat[1], FieldAt(s, 0x2F6, 0x1000, cat[1]));
    assert WalkFrom(cat, 2, s, 0x2F6, 0x1000) == MissingData([]);
    assert WalkFrom(cat, 1, s, 0x2F6, 0x1000) == Extend([f1], MissingData([]));
    assert WalkFrom(cat, 0, s, 0x2F6, 0x1000) == Extend([f0], Extend([f1], MissingData([])));
    ExtendAssoc([f0], [f1], MissingData([]));
  }

  /**
   * The guard of jkcmd.c:468 as written lets reads run past the data: on the
   * 0x300-byte answer above, the payload starts at 0x2F6, the loop as written
   * reads the first three rows of the table, and the third (0x1008, four
   * bytes at offset 8) ends at 0x302, beyond the end of buf. The walk of the
   * model reads the first two rows and stops with MissingData at the third.
   */
  lemma GuardAsWrittenOverrunsBuffer()
    ensures |LateHeaderAnswer()| == BufSize && Locate(LateHeaderAnswer(), 1) == Some(0x2F6)
    ensures |AsWrittenReadsFrom(JkRegs, 0, 0x1000, BufSize)| >= 3
    ensures AsWrittenReadsFrom(JkRegs, 0, 0x1000, BufSize)[2] == JkRegs[2]
    ensures JkRegs[2].reg == 0x1008 && 0x2F6 + (JkRegs[2].reg - 0x1000) + Width(JkRegs[2].kind) > BufSize
    ensures Walk(JkRegs, LateHeaderAnswer(), 0x2F6, 0x1000).MissingData?
    ensures |Walk(JkRegs, LateHeaderAnswer(), 0x2F6, 0x1000).fields| == 2
  {
    LateHeaderLocated();
    FirstRows();
    GuardsDifferAtBufferEnd(JkRegs, LateHeaderAnswer());
  }

  /**
   * The same guard on a seven-byte answer (a header and one data byte):
   * the loop as written reads the four bytes of row 0x1000 though only one
   * was received; the model's walk reads nothing.
   */
  lemma GuardAsWrittenReadsUnreceived()
    ensures Locate(JkSign + [0x01, 0x00, 0x00], 1) == Some(6)
    ensures |AsWrittenReadsFrom(JkRegs, 0, 0x1000, 7)| >= 1 && AsWrittenReadsFrom(JkRegs, 0, 0x1000, 7)[0] == JkRegs[0]
    ensures 6 + (JkRegs[0].reg - 0x1000) + Width(JkRegs[0].kind) == 10
    ensures Walk(JkRegs, JkSign + [0x01, 0x00, 0x00], 6, 0x1000) == MissingData([])
  {
    SkipsGarbage([], 1, [0x00]);
    assert LeEncode(1, 2) == [0x01, 0x00];
    assert [] + JkSign + [0x01, 0x00] + [0x00] == JkSign + [0x01, 0x00, 0x00];
    FirstRows();
  }
}
