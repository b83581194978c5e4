/**
 * The request jkRead sends for each register group (jkcmd.c:330, 431-437):
 * a Modbus RTU "Write Multiple Registers" frame (function 0x10, Modbus
 * Application Protocol V1.1b3 section 6.12) writing the value 0 to one
 * register 0x16xx, the CRC appended low byte first as section 2.5.1.2 of
 * Modbus over Serial Line V1.02 requires. The BMS answers it with a dump of
 * the group's registers.
 */
module Request {
  import opened Options
  import opened Bytes
  import opened Crc16

  /** Length of jkCmd. */
  const FrameLen: nat := 11

  /** Length of the part of jkCmd the CRC covers. */
  const BodyLen: nat := 9

  /** jkCmd as initialised (jkcmd.c:330): address and CRC still zero. */
  const CmdTemplate: seq<bv8> := [0x00, 0x10, 0x16, 0x20, 0x00, 0x01, 0x02, 0x00, 0x00, 0x00, 0x00]

  /** What a register group sets: the low byte of the register written, and the register base of the answer. */
  datatype GroupParams = GroupParams(regLow: bv8, base: nat)

  /** The switch of jkRead (jkcmd.c:432-436); other groups set nothing. */
  function Params(group: int): (r: Option<GroupParams>)
    ensures r.Some? <==> 1 <= group <= 3
    ensures r.Some? ==> r.value.base == 0x1000 + 0x200 * (group - 1)
  {
    if group == 1 then Some(GroupParams(0x1E, 0x1000))
    else if group == 2 then Some(GroupParams(0x20, 0x1200))
    else if group == 3 then Some(GroupParams(0x1C, 0x1400))
    else None
  }

  /** The register base in force after jkRead for `group` when `prev` was in force before. */
  function BaseAfter(group: int, prev: nat): (base: nat)
    ensures 1 <= group <= 3 ==> base == 0x1000 + 0x200 * (group - 1)
    ensures !(1 <= group <= 3) ==> base == prev
  {
    match Params(group)
    case Some(p) => p.base
    case None => prev
  }

  /** jkCmd with the address and, for a known group, the length byte patched in (jkcmd.c:431-436). */
  function Patched(frame: seq<bv8>, addr: bv8, group: int): seq<bv8>
    requires |frame| == FrameLen
  {
    var addressed := frame[0 := addr];
    match Params(group)
    case Some(p) => addressed[3 := p.regLow]
    case None => addressed
  }

  /** jkCmd after jkRead patched it for `addr` and `group`: address, length byte, then the CRC of bytes 0..8. */
  function Stamp(frame: seq<bv8>, addr: bv8, group: int): (r: seq<bv8>)
    requires |frame| == FrameLen
    ensures |r| == FrameLen && r[0] == addr
    ensures r[BodyLen..] == [CrcLow(Crc(r[..BodyLen])), CrcHigh(Crc(r[..BodyLen]))]
  {
    var body := Patched(frame, addr, group);
    var crc := Crc(body[..BodyLen]);
    body[..BodyLen] + [CrcLow(crc), CrcHigh(crc)]
  }

  /** The request frame for a device address and one of the three groups. */
  function RequestFrame(addr: bv8, group: int): seq<bv8>
    requires 1 <= group <= 3
  {
    Stamp(CmdTemplate, addr, group)
  }

  /** A big-endian 16-bit field of a Modbus PDU. */
  function Be16(hi: bv8, lo: bv8): nat {
    hi as nat * 256 + lo as nat
  }

  /**
   * Patches jkCmd in place for one query (jkcmd.c:431-437) and returns the
   * register base now in force.
   */
  method StampRequest(cmd: array<bv8>, addr: bv8, group: int, prevBase: nat) returns (base: nat)
    requires cmd.Length == FrameLen
    modifies cmd
    ensures cmd[..] == Stamp(old(cmd[..]), addr, group)
    ensures base == BaseAfter(group, prevBase)
  {
    ghost var frame := cmd[..];
    cmd[0] := addr;
    match Params(group) {
      case Some(p) =>
        cmd[3] := p.regLow;
        base := p.base;
      case None =>
        base := prevBase;
    }
    assert cmd[..] == Patched(frame, addr, group);
    ghost var body := cmd[..BodyLen];
    var crc := CalcCrc(cmd, BodyLen);
    cmd[9] := CrcLow(crc);
    cmd[10] := CrcHigh(crc);
    assert cmd[..BodyLen] == body;
    assert cmd[..] == body + [CrcLow(crc), CrcHigh(crc)];
  }

  /** A stamped frame passes the receiver's CRC check: the CRC over all eleven bytes is zero. */
  lemma StampChecks(frame: seq<bv8>, addr: bv8, group: int)
    requires |frame| == FrameLen
    ensures Crc(Stamp(frame, addr, group)) == 0
  {
    var r := Stamp(frame, addr, group);
    var body := r[..BodyLen];
    assert r == body + [CrcLow(Crc(body)), CrcHigh(Crc(body))];
    CrcResidue(body);
  }

  /** Stamping keeps the bytes it does not patch: function code, register high byte, quantity, byte count and value. */
  lemma StampKeeps(frame: seq<bv8>, addr: bv8, group: int)
    requires |frame| == FrameLen
    ensures Stamp(frame, addr, group)[1..3] == frame[1..3]
    ensures Stamp(frame, addr, group)[4..BodyLen] == frame[4..BodyLen]
    ensures Stamp(frame, addr, group)[0] == addr
    ensures Params(group).None? ==> Stamp(frame, addr, group)[3] == frame[3]
  {
  }

  /**
   * jkCmd is a global reused by every query: stamping for a group overwrites
   * everything an earlier stamping wrote, so each request is the same as if
   * stamped from the initial template.
   */
  lemma RestampForgets(frame: seq<bv8>, addr0: bv8, group0: int, addr: bv8, group: int)
    requires |frame| == FrameLen && 1 <= group <= 3
    ensures Stamp(Stamp(frame, addr0, group0), addr, group) == Stamp(frame, addr, group)
  {
    var once := Stamp(frame, addr0, group0);
    assert once[..BodyLen][0 := addr][3 := Params(group).value.regLow]
        == frame[..BodyLen][0 := addr][3 := Params(group).value.regLow];
  }

  /**
   * What the BMS receives: device `addr`, function 0x10 (write multiple
   * registers), starting register 0x161E, 0x1620 or 0x161C by group,
   * quantity 1, byte count 2, value 0, and a CRC that checks.
   */
  lemma RequestMeaning(addr: bv8, group: int)
    requires 1 <= group <= 3
    ensures |RequestFrame(addr, group)| == FrameLen
    ensures RequestFrame(addr, group)[0] == addr
    ensures RequestFrame(addr, group)[1] == 0x10
    ensures Be16(RequestFrame(addr, group)[2], RequestFrame(addr, group)[3])
            == [0x161E, 0x1620, 0x161C][group - 1]
    ensures Be16(RequestFrame(addr, group)[4], RequestFrame(addr, group)[5]) == 1
    ensures RequestFrame(addr, group)[6] == 2
    ensures Be16(RequestFrame(addr, group)[7], RequestFrame(addr, group)[8]) == 0
    ensures Crc(RequestFrame(addr, group)) == 0
  {
    StampChecks(CmdTemplate, addr, group);
  }

  /** The three groups ask for different registers and get disjoint register windows. */
  lemma GroupsDistinct(g1: int, g2: int)
    requires 1 <= g1 <= 3 && 1 <= g2 <= 3 && g1 != g2
    ensures Params(g1).value.regLow != Params(g2).value.regLow
    ensures Params(g1).value.base + 0x200 <= Params(g2).value.base
         || Params(g2).value.base + 0x200 <= Params(g1).value.base
  {
  }
}
