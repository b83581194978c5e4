# jkcmd protocol core in Dafny

`jkcmd` queries a JK battery-management system (BMS) over a serial
line. For each of three register groups it sends a Modbus RTU request and
captures the answer. It then finds the JK frame in that answer and prints
every catalogued register of the group. This project models that protocol
layer of `jkcmd.c` and proves properties of it:

- `crc16.dfy` (module `Crc16`): `calcCrc` and `crcTable`.
  - The table is transcribed entry by entry.
  - The bitwise CRC-16/MODBUS (reflected polynomial 0xA001, initial value
    0xFFFF) is the reference.
  - The proofs show that every table entry is eight bitwise steps over its
    index, and that the table-driven loop computes the bitwise CRC.
- `request.dfy` (module `Request`): the 11-byte `jkCmd` template and how
  `jkRead` patches it in place.
  - It is a Modbus "Write Multiple Registers" request (function 0x10,
    Modbus Application Protocol V1.1b3 section 6.12).
  - The CRC goes low byte first, as section 2.5.1.2 of Modbus over Serial
    Line V1.02 requires.
- `capture.dfy` (module `Capture`): the read loop that fills the 0x300-byte
  `buf`.
  - The serial line is a sequence of bursts.
  - One `read` returns the head of the current burst, up to the room left in
    `buf`.
  - An empty burst is a read that returned 0 or -1, and it ends the loop.
- `locator.dfy` (module `Locator`): the scan for the signature `55 AA EB 90`
  followed by the group number as a little-endian word.
- `catalog.dfy` (module `Catalog`): `regType` and `jkRegs`, transcribed
  verbatim (253 rows).
- `decoder.dfy` (module `Decoder`): `readRegVal` and the decode loop of
  `jkRead`.
- `decimal.dfy` (module `Decimal`): the decimal text `sprintf` writes into
  `regVal` for the integer formats.
- `bytes.dfy` (module `Bytes`): the little-endian integer encodings that
  replace the source's pointer casts.
- `options.dfy` (module `Options`): an optional value.
- `jkread.dfy` (module `JkRead`): one `jkRead` cycle and `main`.

The globals `jkCmd`, `buf` and `regVal` are arrays passed to the methods that
update them. `regBase` and `dataPtr` are values passed in and returned.

The decode loop uses the in-bounds condition `payload + (reg - base) + width
<= n`. This differs from the source: the guard as written at jkcmd.c:468 is
modelled beside it (`Decoder.AsWrittenReadsFrom`) and recorded under
Findings.

The constant tables are transcribed as constants: `jkRegs` as
`Catalog.JkRegs`, `crcTable` as `Crc16.CrcTable`, `jkCmd` as
`Request.CmdTemplate` and `jkSign` as `Locator.JkSign`. The rows for
`Catalog.JkRegsSize`, the `Crc16.CrcRow*Values` lemmas,
`Request.RequestMeaning` and `Locator.SignNoSelfOverlap` state what is proved
about them.

## Model

| member | source | states |
|---|---|---|
| Bytes.LeUnsignedBound | jkcmd.c:344-360 | a k-byte little-endian field read unsigned lies below 256^k (the range of uint8_t/uint16_t/uint32_t) |
| Bytes.LeSignedRange | jkcmd.c:344-360 | a non-empty field read signed lies in the two's-complement range of its width (int8_t/int16_t/int32_t) |
| Bytes.LeSignedIsTwosComplement | jkcmd.c:344-360 | the signed reading equals the unsigned reading, or the unsigned reading less 256^k |
| Bytes.LeDecodeEncode | jkcmd.c:455-456 | decoding the k-byte little-endian encoding of v gives back v (the group word of the header) |
| Bytes.LeEncodeDecode | jkcmd.c:455-456 | every byte string is the encoding of its own little-endian value at its own length |
| Bytes.LeExample | jkcmd.c:356-358 | 64 00 00 00 reads as 100 unsigned and signed; FF FF reads as -1 signed |
| Decimal.Digits | jkcmd.c:344-358 | the "%u" text of a value is a non-empty string of ASCII digits |
| Decimal.DigitsRoundTrip | jkcmd.c:344-358 | reading the printed digits back as a decimal number gives the value printed |
| Decimal.DigitsCanonical | jkcmd.c:344-358 | the printed digits have no leading zero; the text starts with "0" only for the value 0 |
| Decimal.SignedRoundTrip | jkcmd.c:347-361 | the "%d" text (a "-" before the digits of a negative value) reads back as the value printed |
| Decimal.NoZeroByte | jkcmd.c:344-361 | the printed text contains no zero byte, so the C string left in regVal is exactly that text; for a value of at least 0, "%d" and "%u" print the same |
| Decimal.DigitsLength | jkcmd.c:344-361 | a value below 10^k prints in at most k digits |
| Decimal.Digits32 | jkcmd.c:344-361 | a value of a 32-bit type prints in at most 10 digits, 11 with a sign |
| Decimal.DigitsExample | jkcmd.c:356-361 | 100 prints as "100" and -1 as "-1" |
| Catalog.JkRegsSize | jkcmd.c:34-291 | the transcribed register table has 253 rows |
| Catalog.FirstRows | jkcmd.c:35-37 | the table opens with the 4-byte unsigned registers 0x1000, 0x1004 and 0x1008 |
| Catalog.Width | jkcmd.c:343-372 | each type is read as 1, 2, 4, 8 or 16 bytes, and 8 or more exactly for CHAR16/CHAR8 |
| Crc16.CrcRow0Values | jkcmd.c:296-297 | each of the sixteen transcribed entries 0x00..0x0F of crcTable equals eight bitwise 0xA001 steps over its index |
| Crc16.CrcRow1Values | jkcmd.c:298-299 | each of the sixteen transcribed entries 0x10..0x1F of crcTable equals eight bitwise 0xA001 steps over its index |
| Crc16.CrcRow2Values | jkcmd.c:300-301 | each of the sixteen transcribed entries 0x20..0x2F of crcTable equals eight bitwise 0xA001 steps over its index |
| Crc16.CrcRow3Values | jkcmd.c:302-303 | each of the sixteen transcribed entries 0x30..0x3F of crcTable equals eight bitwise 0xA001 steps over its index |
| Crc16.CrcRow4Values | jkcmd.c:304-305 | each of the sixteen transcribed entries 0x40..0x4F of crcTable equals eight bitwise 0xA001 steps over its index |
| Crc16.CrcRow5Values | jkcmd.c:306-307 | each of the sixteen transcribed entries 0x50..0x5F of crcTable equals eight bitwise 0xA001 steps over its index |
| Crc16.CrcRow6Values | jkcmd.c:308-309 | each of the sixteen transcribed entries 0x60..0x6F of crcTable equals eight bitwise 0xA001 steps over its index |
| Crc16.CrcRow7Values | jkcmd.c:310-311 | each of the sixteen transcribed entries 0x70..0x7F of crcTable equals eight bitwise 0xA001 steps over its index |
| Crc16.CrcRow8Values | jkcmd.c:312-313 | each of the sixteen transcribed entries 0x80..0x8F of crcTable equals eight bitwise 0xA001 steps over its index |
| Crc16.CrcRow9Values | jkcmd.c:314-315 | each of the sixteen transcribed entries 0x90..0x9F of crcTable equals eight bitwise 0xA001 steps over its index |
| Crc16.CrcRowAValues | jkcmd.c:316-317 | each of the sixteen transcribed entries 0xA0..0xAF of crcTable equals eight bitwise 0xA001 steps over its index |
| Crc16.CrcRowBValues | jkcmd.c:318-319 | each of the sixteen transcribed entries 0xB0..0xBF of crcTable equals eight bitwise 0xA001 steps over its index |
| Crc16.CrcRowCValues | jkcmd.c:320-321 | each of the sixteen transcribed entries 0xC0..0xCF of crcTable equals eight bitwise 0xA001 steps over its index |
| Crc16.CrcRowDValues | jkcmd.c:322-323 | each of the sixteen transcribed entries 0xD0..0xDF of crcTable equals eight bitwise 0xA001 steps over its index |
| Crc16.CrcRowEValues | jkcmd.c:324-325 | each of the sixteen transcribed entries 0xE0..0xEF of crcTable equals eight bitwise 0xA001 steps over its index |
| Crc16.CrcRowFValues | jkcmd.c:326-327 | each of the sixteen transcribed entries 0xF0..0xFF of crcTable equals eight bitwise 0xA001 steps over its index |
| Crc16.TableIsBitwise | jkcmd.c:295-328 | for every index k in 0..255, crcTable[k] equals eight bitwise reflected-0xA001 shift/XOR steps over a register holding k |
| Crc16.TableIndex | jkcmd.c:383 | the uint8_t `tmp` is the low byte of the register XOR the data byte: truncating crc ^ data to 8 bits keeps only the low byte of crc |
| Crc16.TableUpdate | jkcmd.c:383-385 | one table-driven iteration gives the same register as the bitwise byte step |
| Crc16.BitwiseSplit | jkcmd.c:383-385 | one bitwise byte step equals the register shifted down by 8, XOR the bitwise step over the low byte (register XOR data) alone |
| Crc16.TableStepIsBitwise | jkcmd.c:383-385 | one table-driven iteration (tmp = crc ^ b; crc >>= 8; crc ^= crcTable[tmp]) equals eight bitwise shift/XOR steps |
| Crc16.CalcCrc | jkcmd.c:376-388 | the table-driven loop over data[0..len) returns the bitwise Modbus CRC of exactly those bytes |
| Crc16.CrcFromAppend | jkcmd.c:381-386 | the CRC of a ++ b is the loop continued over b from the register left by a |
| Crc16.CrcEmpty | jkcmd.c:381 | the CRC of no bytes is the initial value 0xFFFF |
| Crc16.CrcCheckValue | jkcmd.c:376-388 | the CRC of the ASCII string "123456789" is the CRC-16/MODBUS check value 0x4B37 |
| Crc16.CrcResidue | jkcmd.c:437 | appending a message's CRC low byte first makes the CRC of the whole frame 0, which is how a receiver checks it |
| Request.Params | jkcmd.c:432-436 | the switch sets something exactly for groups 1..3, and the register base of group g is 0x1000 + 0x200 * (g - 1) |
| Request.BaseAfter | jkcmd.c:432-436 | after the switch regBase is 0x1000 + 0x200 * (g - 1) for a group g in 1..3, and the previous base for any other group |
| Request.Stamp | jkcmd.c:431-437 | the stamped jkCmd has eleven bytes, the address in byte 0, and the CRC of bytes 0..8 low byte first in bytes 9..10 |
| Request.StampRequest | jkcmd.c:431-437 | patches byte 0 with the address, byte 3 with 0x1E/0x20/0x1C for groups 1/2/3, writes the CRC of bytes 0..8 low byte first into bytes 9..10, and returns the base 0x1000/0x1200/0x1400 (the previous base for any other group) |
| Request.StampChecks | jkcmd.c:437 | every stamped frame carries a CRC that checks: the CRC over all eleven bytes is 0 |
| Request.StampKeeps | jkcmd.c:431-436 | stamping leaves bytes 1, 2 and 4..8 as they were, puts the address in byte 0, and leaves byte 3 alone for a group outside 1..3 |
| Request.RestampForgets | jkcmd.c:330 | the global jkCmd is reused: stamping an already stamped frame gives the same frame as stamping the template afresh |
| Request.RequestMeaning | jkcmd.c:330 | the frame sent for group g is: address, function 0x10, start register 0x161E/0x1620/0x161C, quantity 1, byte count 2, value 0, valid CRC |
| Request.GroupsDistinct | jkcmd.c:433-435 | the three groups write different registers and their 0x200-register windows do not overlap |
| Capture.ReadStepDelivers | jkcmd.c:445 | one read returns at most the room left in buf, in arrival order, loses nothing, and returns nothing only when buf is full or the line is silent |
| Capture.ArrivedStopsAtGap | jkcmd.c:443-446 | bytes arriving after a read that returned nothing never reach the buffer |
| Capture.ReadStep | jkcmd.c:445 | one read returns at most the room left in buf, the head of the current burst, and nothing exactly when there is no room or the line is silent |
| Capture.SerialRead | jkcmd.c:445 | a read at offset i writes exactly the bytes it returns into buf[i..] and leaves the rest of buf unchanged |
| Capture.CaptureResponse | jkcmd.c:441-447 | the capture loop leaves in buf[0..n) exactly the bytes that arrived before the first empty read, cut at 0x300, and touches nothing beyond n |
| Capture.CaptureEnds | jkcmd.c:441-447 | when the loop stops, buf holds exactly the received bytes: what arrived if it fits, else its first 0x300 bytes |
| Capture.ReceivedIsPrefix | jkcmd.c:333 | the capture never exceeds 0x300 bytes, is a prefix of what arrived, and is all of it when it is shorter than 0x300 |
| Locator.SignNoSelfOverlap | jkcmd.c:293 | the signature 55 AA EB 90 does not overlap a shifted copy of itself, and its first two bytes read as the word 0xAA55 |
| Locator.HeaderAtBytes | jkcmd.c:455-456 | a header at i is the signature followed by the group as the little-endian uint16_t at i + 4, so only a group below 0x10000 has one |
| Locator.LocateFrom | jkcmd.c:454-461 | a found payload start p lies six bytes after a header, with i + 6 <= p < n |
| Locator.LocateFromIsFirst | jkcmd.c:454-461 | the scan from i returns the payload start just after the least header at or after i, or fails only when no header starts before n - 6 |
| Locator.LocateIsFirst | jkcmd.c:454-463 | the payload starts six bytes after the first signature-plus-group header at a position below n - 6; "Invalid response" exactly when there is none |
| Locator.FindFrame | jkcmd.c:454-461 | the scan loop over buf[0..n) returns the same payload start as the first-header specification |
| Locator.SkipsGarbage | jkcmd.c:454-461 | for a group word below 0x5500, leading garbage with no header for the group is skipped (a stale header of another group included), and the payload is found right after the real header |
| Locator.NoHeaderRunsIntoSign | jkcmd.c:454-461 | no header for a group below 0x5500 starts in the five positions before a signature |
| Locator.HeaderWithoutPayloadRejected | jkcmd.c:454 | a header in the last six bytes, with nothing after it, is not accepted |
| Decoder.Interpret | jkcmd.c:343-373 | the switch reads unsigned types as unsigned numbers, signed types as signed numbers, FLOAT as raw bits and CHAR16/CHAR8 as text, and nothing else; raw bits and text are the bytes themselves |
| Decoder.InterpretUnsigned | jkcmd.c:344-358 | UINT8/UINT16/UINT32 fields read as the little-endian unsigned value of their width, below 256^width |
| Decoder.InterpretSigned | jkcmd.c:347-361 | INT8/INT16/INT32 fields read as the two's-complement value of their width |
| Decoder.InterpretVerbatim | jkcmd.c:362-371 | CHAR16/CHAR8 fields are their 16 or 8 bytes verbatim; a FLOAT field is its 4 raw bytes |
| Decoder.InterpretExample | jkcmd.c:356-358 | 64 00 00 00 as UINT32 is 100; FF FF as INT16 is -1 |
| Decoder.SelectedFromMembers | jkcmd.c:467 | a row is selected exactly when it is in the table and its register lies in [base, base + 0x200) |
| Decoder.WalkFromSpec | jkcmd.c:466-475 | from row i, the walk emits the selected rows in table order, each read from inside the captured bytes, stops at the first one not fully received, and is complete exactly when every selected row was read |
| Decoder.WalkSpec | jkcmd.c:466-475 | the same for the whole table |
| Decoder.ReadRegVal | jkcmd.c:338-374 | for a field inside buf[0..n), returns the value of its type at payload + (reg - base); for every type but FLOAT, regVal then holds the C string the source leaves there, which is the decimal text of the number or the copied characters, followed by a zero byte, with the rest of regVal unchanged |
| Decoder.RenderedFits | jkcmd.c:334 | the text of any non-FLOAT field, with its terminating zero, fits in regVal[128] |
| Decoder.Store | jkcmd.c:345-371 | writing a C string into regVal (sprintf, or memcpy then regVal[w] = 0) puts the text and a zero byte at its start and leaves the rest unchanged |
| Decoder.DecodeGroup | jkcmd.c:466-475 | the decode loop returns the walk over buf[0..n): fields in table order, stopping with MissingData at the first selected row whose bytes were not all received |
| Decoder.AsWrittenReadsFrom | jkcmd.c:466-475 | the loop as written reads a prefix of the selected rows: each one it reads has offset reg - base <= n, and it stops only at a selected row whose offset exceeds n |
| Decoder.CorrectedReadsPrefix | jkcmd.c:468 | the in-bounds walk reads a prefix of the rows the loop as written reads: never a row the written guard skips |
| Decoder.AgreeInBounds | jkcmd.c:466-475 | when every row the written guard admits has its bytes inside the capture, the in-bounds walk reads exactly as many rows as the loop as written, and runs to the end of the table exactly when that loop does |
| JkRead.GroupOutcome | jkcmd.c:449-475 | "No response" exactly when fewer than 6 bytes were captured, "Invalid response" exactly when there are 6 or more and no header is found, and a decode only from a located payload inside the capture |
| JkRead.JkReadGroup | jkcmd.c:427-477 | one query: the frame written is the stamped jkCmd, the base follows the group, and the result is "too short" below 6 bytes, "Invalid response" without a header, otherwise the walk from the located payload; buf holds the received bytes at its start and is unchanged past them; on "No response" and "Invalid response" regVal is untouched |
| JkRead.BmsAddress | jkcmd.c:488-496 | no address gives 1; a given address is accepted exactly when it lies in 1..15, and then unchanged |
| JkRead.Run | jkcmd.c:479-505 | usage error without a port; a wrong address is rejected before the port is opened or any frame written; otherwise the three frames for groups 1, 2, 3 are sent and each answer decoded with bases 0x1000, 0x1200, 0x1400 |
| JkRead.WellFormedAnswer | jkcmd.c:449-463 | an answer of garbage holding no header for the group, then the group header and a non-empty payload, is decoded from just after the header |
| JkRead.NoRegisterInTwoGroups | jkcmd.c:467 | no row is selected by two different groups |
| JkRead.CalibrationNeverDecoded | jkcmd.c:283-290 | rows at 0x1600 and above lie in no group's window and are never decoded |
| JkRead.LateHeaderLocated | jkcmd.c:454-461 | a 0x300-byte answer with its header at 0x2F0 is accepted with the payload at 0x2F6 |
| JkRead.GuardsDifferAtBufferEnd | jkcmd.c:468 | on any table opening with three 4-byte rows 0x1000/0x1004/0x1008 and a payload at 0x2F6 of 0x300 bytes, the written guard admits the third row, whose bytes end at 0x302, while the in-bounds walk stops after two |
| JkRead.AsWrittenReadsFirstThree | jkcmd.c:468 | on such a table and 0x300 captured bytes, the loop as written reads the first three rows |
| JkRead.WalkStopsAtThird | jkcmd.c:466-475 | on such a table with the payload at 0x2F6 of 0x300 bytes, the in-bounds walk reads two fields and stops with MissingData |
| JkRead.GuardAsWrittenOverrunsBuffer | jkcmd.c:468 | on the late-header answer the loop as written reads row 0x1008 past the end of buf; the in-bounds walk reads two fields and reports MissingData |
| JkRead.GuardAsWrittenReadsUnreceived | jkcmd.c:468 | on a 7-byte answer the loop as written reads the four bytes of row 0x1000 though one was received; the in-bounds walk reads nothing |

## Left out

- openSerial (jkcmd.c:390-425) is not modelled: termios flags, baud rate and the one-second VTIME timeout. Whether the port opens is a parameter of `JkRead.Run`.
- The open, write and read system calls are not modelled. Each answer is a given sequence of bursts, and the frame written is returned as a value. Timing is not modelled.
- A read that returns -1 is treated like one that returns 0. Both end the capture loop, as `while (nRead > 0)` does.
- The port is never flushed between groups. Bytes that arrive after the first empty read, or that do not fit in `buf`, stay queued and open the next group's capture. `JkRead.Run` takes one line per group, so `line2` and `line3` stand for those pending bytes followed by the new answer.
- Console output is not modelled: the printf of name and regVal, and the fprintf error messages. Each error message is a constructor instead: "No response or response too short" (jkcmd.c:450) is `JkRead.GroupResult.NoResponse`, "Invalid response" (jkcmd.c:462) is `JkRead.GroupResult.InvalidResponse`, "Missing data" (jkcmd.c:469) is `Decoder.Outcome.MissingData` inside `JkRead.GroupResult.Decoded`, the usage text (jkcmd.c:483-484) is `JkRead.RunResult.Usage`, "Wrong BMS address" (jkcmd.c:493) is `JkRead.RunResult.WrongAddress`, and "Can't open" (jkcmd.c:393) is `JkRead.RunResult.PortNotOpened`.
- T_FLOAT interpretation is not modelled because it is floating point. A FLOAT field is its four raw bytes.
- Decoder.ReadRegVal: for a FLOAT row the "%f" text sprintf writes into regVal is not modelled, and the contract says nothing about regVal after such a row.
- Decoder.ReadRegVal: requires the field to lie inside the captured bytes. The source does not guarantee this (see Findings); the model's decode loop only calls it when the bytes are there.
- Decoder.DecodeGroup: uses the in-bounds guard rather than the guard as written at jkcmd.c:468, and so do Decoder.Walk and the members built on it or on DecodeGroup: JkRead.GroupOutcome, JkRead.JkReadGroup and JkRead.Run. Decoder.AsWrittenReadsFrom gives only which rows the loop as written reads. The values it would print for those rows are not modelled: bytes past n in `buf` are whatever an earlier group's capture left there, and bytes past `buf[0x300]` are other memory. On an ordinary answer, where every row the written guard admits fits inside the capture, the two loops read the same rows (Decoder.AgreeInBounds with Decoder.CorrectedReadsPrefix).
- The usage text and sscanf parsing are not modelled. The address argument arrives already parsed, or absent. The case where sscanf fails and leaves bmsAddr unset is not modelled.
- Host byte order and unaligned pointer casts (jkcmd.c:5-6, 437, 456) are replaced by explicit little-endian encoding and decoding.
- The names in jkRegs are data only; the physical meaning of the registers is not modelled.
- The CRC of the answer is never checked by the source, and the model does not check it either.

## Findings

| source | as written | input that shows it | evidently intended | confidence | as-written member | corrected member |
|---|---|---|---|---|---|---|
| jkcmd.c:468 | stops only when `reg - regBase > nRead`, comparing the offset with the total bytes captured. It ignores where the payload starts and the width of the field, so readRegVal can read past the received bytes and past the end of `buf[0x300]` | a 0x300-byte answer: 0x2F0 zero bytes, `55 AA EB 90 01 00`, ten zero bytes. The payload starts at 0x2F6, and row 0x1008 (4 bytes at offset 8) would end at 0x302. A second input: the 7-byte answer `55 AA EB 90 01 00 00`, where row 0x1000 is read as 4 bytes but 1 was received | stop with "Missing data" unless `payload + (reg - regBase) + width <= nRead` | not executed | JkRead.GuardAsWrittenOverrunsBuffer | Decoder.DecodeGroup |
