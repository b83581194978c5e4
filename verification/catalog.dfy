/**
 * The register catalog of the JK BMS (jkRegs, jkcmd.c:34-291): every
 * register the tool knows, as (register address, value type, name), in the
 * source's order. Names are data only.
 */
module Catalog {

  /** The value types of regType (jkcmd.c:16-26). */
  datatype RegType = UInt8 | Int8 | UInt16 | Int16 | UInt32 | Int32 | Float32 | Char16 | Char8

  /** One row of jkRegs: a Modbus register address, its type and its display name. */
  datatype RegSpec = RegSpec(reg: nat, kind: RegType, name: string)

  /**
   * The number of bytes readRegVal consumes for a value of type t: the size
   * of the C type it reads through, or the 16 or 8 characters it copies.
   */
  function Width(t: RegType): (w: nat)
    ensures w == 1 || w == 2 || w == 4 || w == 8 || w == 16
    ensures w >= 8 <==> t == Char16 || t == Char8
  {
    match t
    case UInt8 | Int8 => 1
    case UInt16 | Int16 => 2
    case UInt32 | Int32 | Float32 => 4
    case Char16 => 16
    case Char8 => 8
  }

  /** Types read as two's-complement integers. */
  predicate IsSigned(t: RegType) {
    t == Int8 || t == Int16 || t == Int32
  }

  /** Types read as unsigned integers. */
  predicate IsUnsigned(t: RegType) {
    t == UInt8 || t == UInt16 || t == UInt32
  }

  /** Types copied as raw characters. */
  predicate IsText(t: RegType) {
    t == Char16 || t == Char8
  }

  /** A response carries the registers from its base up to 0x200 register addresses further. */
  const WindowSize: nat := 0x200

  /** The register lies in the window of the group whose register base is `base`. */
  predicate InWindow(reg: nat, base: nat) {
    base <= reg < base + WindowSize
  }

  // jkcmd.c:35-66
  const Regs0: seq<RegSpec> := [
    RegSpec(0x1000, UInt32, "VolSmartSleep"),
    RegSpec(0x1004, UInt32, "VolCellUV"),
    RegSpec(0x1008, UInt32, "VolCellUVPR"),
    RegSpec(0x100C, UInt32, "VolCellOV"),
    RegSpec(0x1010, UInt32, "VolCellOVPR"),
    RegSpec(0x1014, UInt32, "VolBalanTrig"),
    RegSpec(0x1018, UInt32, "VolSoc100"),
    RegSpec(0x101C, UInt32, "VolSoc0"),
    RegSpec(0x1020, UInt32, "VolCellRCV"),
    RegSpec(0x1024, UInt32, "VolCellRFV"),
    RegSpec(0x1028, UInt32, "VolSysPwrOff"),
    RegSpec(0x102C, UInt32, "CurBatCOC"),
    RegSpec(0x1030, UInt32, "TIMBatCOCPDly"),
    RegSpec(0x1034, UInt32, "TIMBatCOCPRDly"),
    RegSpec(0x1038, UInt32, "CurBatDcOC"),
    RegSpec(0x103C, UInt32, "TIMBatDcOCPDly"),
    RegSpec(0x1040, UInt32, "TIMBatDcOCPRDly"),
    RegSpec(0x1044, UInt32, "TIMBatSCPRDly"),
    RegSpec(0x1048, UInt32, "CurBalanMax"),
    RegSpec(0x104C, UInt32, "TMPBatCOT"),
    RegSpec(0x1050, Int32, "TMPBatCOTPR"),
    RegSpec(0x1054, Int32, "TMPBatDcOT"),
    RegSpec(0x1058, Int32, "TMPBatDcOTPR"),
    RegSpec(0x105C, Int32, "TMPBatCUT"),
    RegSpec(0x1060, Int32, "TMPBatCUTPR"),
    RegSpec(0x1064, Int32, "TMPMosOT"),
    RegSpec(0x1068, Int32, "TMPMosOTPR"),
    RegSpec(0x106C, UInt32, "CellCount"),
    RegSpec(0x1070, UInt32, "BatChargeEN"),
    RegSpec(0x1074, UInt32, "BatDisChargeEN"),
    RegSpec(0x1078, UInt32, "BalanEN"),
    RegSpec(0x107C, UInt32, "CapBatCell")
  ]

  // jkcmd.c:67-98
  const Regs1: seq<RegSpec> := [
    RegSpec(0x1080, UInt32, "SCPDelay"),
    RegSpec(0x1084, UInt32, "VolStartBalan"),
    RegSpec(0x1088, UInt32, "CellConWireRes0"),
    RegSpec(0x108C, UInt32, "CellConWireRes1"),
    RegSpec(0x1090, UInt32, "CellConWireRes2"),
    RegSpec(0x1094, UInt32, "CellConWireRes3"),
    RegSpec(0x1098, UInt32, "CellConWireRes4"),
    RegSpec(0x109C, UInt32, "CellConWireRes5"),
    RegSpec(0x10A0, UInt32, "CellConWireRes6"),
    RegSpec(0x10A4, UInt32, "CellConWireRes7"),
    RegSpec(0x10A8, UInt32, "CellConWireRes8"),
    RegSpec(0x10AC, UInt32, "CellConWireRes9"),
    RegSpec(0x10B0, UInt32, "CellConWireRes10"),
    RegSpec(0x10B4, UInt32, "CellConWireRes11"),
    RegSpec(0x10B8, UInt32, "CellConWireRes12"),
    RegSpec(0x10BC, UInt32, "CellConWireRes13"),
    RegSpec(0x10C0, UInt32, "CellConWireRes14"),
    RegSpec(0x10C4, UInt32, "CellConWireRes15"),
    RegSpec(0x10C8, UInt32, "CellConWireRes16"),
    RegSpec(0x10CC, UInt32, "CellConWireRes17"),
    RegSpec(0x10D0, UInt32, "CellConWireRes18"),
    RegSpec(0x10D4, UInt32, "CellConWireRes19"),
    RegSpec(0x10D8, UInt32, "CellConWireRes20"),
    RegSpec(0x10DC, UInt32, "CellConWireRes21"),
    RegSpec(0x10E0, UInt32, "CellConWireRes22"),
    RegSpec(0x10E4, UInt32, "CellConWireRes23"),
    RegSpec(0x10E8, UInt32, "CellConWireRes24"),
    RegSpec(0x10EC, UInt32, "CellConWireRes25"),
    RegSpec(0x10F0, UInt32, "CellConWireRes26"),
    RegSpec(0x10F4, UInt32, "CellConWireRes27"),
    RegSpec(0x10F8, UInt32, "CellConWireRes28"),
    RegSpec(0x10FC, UInt32, "CellConWireRes29")
  ]

  // jkcmd.c:99-131
  const Regs2: seq<RegSpec> := [
    RegSpec(0x1100, UInt32, "CellConWireRes30"),
    RegSpec(0x1104, UInt32, "CellConWireRes31"),
    RegSpec(0x1108, UInt32, "DevAddr"),
    RegSpec(0x110C, UInt32, "TIMProdischarge"),
    RegSpec(0x1114, UInt16, "Controls"),
    RegSpec(0x1118, UInt8, "TIMSmartSleep"),
    RegSpec(0x1119, UInt8, "DataDomainEnableControl"),
    RegSpec(0x1200, UInt16, "CellVol0"),
    RegSpec(0x1202, UInt16, "CellVol1"),
    RegSpec(0x1204, UInt16, "CellVol2"),
    RegSpec(0x1206, UInt16, "CellVol3"),
    RegSpec(0x1208, UInt16, "CellVol4"),
    RegSpec(0x120A, UInt16, "CellVol5"),
    RegSpec(0x120C, UInt16, "CellVol6"),
    RegSpec(0x120E, UInt16, "CellVol7"),
    RegSpec(0x1210, UInt16, "CellVol8"),
    RegSpec(0x1212, UInt16, "CellVol9"),
    RegSpec(0x1214, UInt16, "CellVol10"),
    RegSpec(0x1216, UInt16, "CellVol11"),
    RegSpec(0x1218, UInt16, "CellVol12"),
    RegSpec(0x121A, UInt16, "CellVol13"),
    RegSpec(0x121C, UInt16, "CellVol14"),
    RegSpec(0x121E, UInt16, "CellVol15"),
    RegSpec(0x1220, UInt16, "CellVol16"),
    RegSpec(0x1222, UInt16, "CellVol17"),
    RegSpec(0x1224, UInt16, "CellVol18"),
    RegSpec(0x1226, UInt16, "CellVol19"),
    RegSpec(0x1228, UInt16, "CellVol20"),
    RegSpec(0x122A, UInt16, "CellVol21"),
    RegSpec(0x122C, UInt16, "CellVol22"),
    RegSpec(0x122E, UInt16, "CellVol23"),
    RegSpec(0x1230, UInt16, "CellVol24")
  ]

  // jkcmd.c:132-163
  const Regs3: seq<RegSpec> := [
    RegSpec(0x1232, UInt16, "CellVol25"),
    RegSpec(0x1234, UInt16, "CellVol26"),
    RegSpec(0x1236, UInt16, "CellVol27"),
    RegSpec(0x1238, UInt16, "CellVol28"),
    RegSpec(0x123A, UInt16, "CellVol39"),
    RegSpec(0x123C, UInt16, "CellVol30"),
    RegSpec(0x123E, UInt16, "CellVol31"),
    RegSpec(0x1240, UInt32, "CellSta"),
    RegSpec(0x1244, UInt16, "CellVolAve"),
    RegSpec(0x1246, UInt16, "CellVdifMax"),
    RegSpec(0x1248, UInt8, "MaxVolCellNbr"),
    RegSpec(0x1249, UInt8, "MinVolCellNbr"),
    RegSpec(0x124A, UInt16, "CellWireRes0"),
    RegSpec(0x124C, UInt16, "CellWireRes1"),
    RegSpec(0x124E, UInt16, "CellWireRes2"),
    RegSpec(0x1250, UInt16, "CellWireRes3"),
    RegSpec(0x1252, UInt16, "CellWireRes4"),
    RegSpec(0x1254, UInt16, "CellWireRes5"),
    RegSpec(0x1256, UInt16, "CellWireRes6"),
    RegSpec(0x1258, UInt16, "CellWireRes7"),
    RegSpec(0x125A, UInt16, "CellWireRes8"),
    RegSpec(0x125C, UInt16, "CellWireRes9"),
    RegSpec(0x125E, UInt16, "CellWireRes10"),
    RegSpec(0x1260, UInt16, "CellWireRes11"),
    RegSpec(0x1262, UInt16, "CellWireRes12"),
    RegSpec(0x1264, UInt16, "CellWireRes13"),
    RegSpec(0x1266, UInt16, "CellWireRes14"),
    RegSpec(0x1268, UInt16, "CellWireRes15"),
    RegSpec(0x126A, UInt16, "CellWireRes16"),
    RegSpec(0x126C, UInt16, "CellWireRes17"),
    RegSpec(0x126E, UInt16, "CellWireRes18"),
    RegSpec(0x1270, UInt16, "CellWireRes19")
  ]

  // jkcmd.c:164-195
  const Regs4: seq<RegSpec> := [
    RegSpec(0x1272, UInt16, "CellWireRes20"),
    RegSpec(0x1274, UInt16, "CellWireRes21"),
    RegSpec(0x1276, UInt16, "CellWireRes22"),
    RegSpec(0x1278, UInt16, "CellWireRes23"),
    RegSpec(0x127A, UInt16, "CellWireRes24"),
    RegSpec(0x127C, UInt16, "CellWireRes25"),
    RegSpec(0x127E, UInt16, "CellWireRes26"),
    RegSpec(0x1280, UInt16, "CellWireRes27"),
    RegSpec(0x1282, UInt16, "CellWireRes28"),
    RegSpec(0x1284, UInt16, "CellWireRes29"),
    RegSpec(0x1286, UInt16, "CellWireRes30"),
    RegSpec(0x1288, UInt16, "CellWireRes31"),
    RegSpec(0x128A, Int16, "TempMos"),
    RegSpec(0x128C, UInt32, "CellWireResSta"),
    RegSpec(0x1290, UInt32, "TotBatVol"),
    RegSpec(0x1294, UInt32, "BatWatt"),
    RegSpec(0x1298, Int32, "BatCurrent"),
    RegSpec(0x129C, Int16, "TempBat1"),
    RegSpec(0x129E, Int16, "TempBat2"),
    RegSpec(0x12A0, UInt32, "Alarm"),
    RegSpec(0x12A4, UInt16, "BalanCurrent"),
    RegSpec(0x12A6, UInt8, "BalanSta"),
    RegSpec(0x12A7, UInt8, "SOCStateOfCharge"),
    RegSpec(0x12A8, Int32, "SOCCapRemain"),
    RegSpec(0x12AC, UInt32, "SOCFullChargeCap"),
    RegSpec(0x12B0, UInt32, "SOCCycleCount"),
    RegSpec(0x12B4, UInt32, "SOCCycleCap"),
    RegSpec(0x12B8, UInt8, "SOCSOH"),
    RegSpec(0x12B9, UInt8, "Precharge"),
    RegSpec(0x12BA, UInt16, "UserAlarm"),
    RegSpec(0x12BC, UInt32, "Runtime"),
    RegSpec(0x12C0, UInt8, "Charge")
  ]

  // jkcmd.c:196-228
  const Regs5: seq<RegSpec> := [
    RegSpec(0x12C1, UInt8, "Discharge"),
    RegSpec(0x12C2, UInt16, "UserAlarm2"),
    RegSpec(0x12C4, UInt16, "TimeDcOCPR"),
    RegSpec(0x12C6, UInt16, "TimeDcSCPR"),
    RegSpec(0x12C8, UInt16, "TimeCOCPR"),
    RegSpec(0x12CA, UInt16, "TimeCSCPR"),
    RegSpec(0x12CC, UInt16, "TimeUVPR"),
    RegSpec(0x12CE, UInt16, "TimeOVPR"),
    RegSpec(0x12D0, UInt8, "TempSensorAbsent"),
    RegSpec(0x12D1, UInt8, "TempSensorHeating"),
    RegSpec(0x12D2, UInt16, "Reserved"),
    RegSpec(0x12D4, UInt16, "TimeEmergency"),
    RegSpec(0x12D6, UInt16, "BatDisCurCorrect"),
    RegSpec(0x12D8, UInt16, "VolChargCur"),
    RegSpec(0x12DA, UInt16, "VolDischargCur"),
    RegSpec(0x12DC, Float32, "BatVolCorrect"),
    RegSpec(0x12E4, UInt16, "BatVol"),
    RegSpec(0x12E6, Int16, "HeatCurrent"),
    RegSpec(0x12EE, UInt8, "RVD1"),
    RegSpec(0x12EF, UInt8, "ChargerPlugged"),
    RegSpec(0x12F0, UInt32, "SysRunTicks"),
    RegSpec(0x12F8, Int16, "TempBat3"),
    RegSpec(0x12FA, Int16, "TempBat4"),
    RegSpec(0x12FC, Int16, "TempBat5"),
    RegSpec(0x1300, UInt32, "RTCTicks"),
    RegSpec(0x1308, UInt32, "TimeEnterSleep"),
    RegSpec(0x130C, UInt8, "PCLModuleSta"),
    RegSpec(0x130D, UInt8, "RVD2"),
    RegSpec(0x1400, Char16, "ManufacturerDeviceID"),
    RegSpec(0x1410, Char8, "HardwareVersion"),
    RegSpec(0x1418, Char8, "SoftwareVersion"),
    RegSpec(0x1420, UInt32, "ODDRunTime")
  ]

  // jkcmd.c:229-260
  const Regs6: seq<RegSpec> := [
    RegSpec(0x1424, UInt32, "PWROnTimes"),
    RegSpec(0x1470, Char16, "Password"),
    RegSpec(0x14B2, UInt8, "UART1MPRTOLNbr"),
    RegSpec(0x14B3, UInt8, "CANMPRTOLNbr"),
    RegSpec(0x14B4, UInt8, "UART1MPRTOLEnable0"),
    RegSpec(0x14B5, UInt8, "UART1MPRTOLEnable1"),
    RegSpec(0x14B6, UInt8, "UART1MPRTOLEnable2"),
    RegSpec(0x14B7, UInt8, "UART1MPRTOLEnable3"),
    RegSpec(0x14B8, UInt8, "UART1MPRTOLEnable4"),
    RegSpec(0x14B9, UInt8, "UART1MPRTOLEnable5"),
    RegSpec(0x14BA, UInt8, "UART1MPRTOLEnable6"),
    RegSpec(0x14BB, UInt8, "UART1MPRTOLEnable7"),
    RegSpec(0x14BC, UInt8, "UART1MPRTOLEnable8"),
    RegSpec(0x14BD, UInt8, "UART1MPRTOLEnable9"),
    RegSpec(0x14BE, UInt8, "UART1MPRTOLEnable10"),
    RegSpec(0x14BF, UInt8, "UART1MPRTOLEnable11"),
    RegSpec(0x14C0, UInt8, "UART1MPRTOLEnable12"),
    RegSpec(0x14C1, UInt8, "UART1MPRTOLEnable13"),
    RegSpec(0x14C2, UInt8, "UART1MPRTOLEnable14"),
    RegSpec(0x14C3, UInt8, "UART1MPRTOLEnable15"),
    RegSpec(0x14C4, UInt8, "CANMPRTOLEnable0"),
    RegSpec(0x14C5, UInt8, "CANMPRTOLEnable1"),
    RegSpec(0x14C6, UInt8, "CANMPRTOLEnable2"),
    RegSpec(0x14C7, UInt8, "CANMPRTOLEnable3"),
    RegSpec(0x14C8, UInt8, "CANMPRTOLEnable4"),
    RegSpec(0x14C9, UInt8, "CANMPRTOLEnable5"),
    RegSpec(0x14CA, UInt8, "CANMPRTOLEnable6"),
    RegSpec(0x14CB, UInt8, "CANMPRTOLEnable7"),
    RegSpec(0x14CC, UInt8, "CANMPRTOLEnable8"),
    RegSpec(0x14CD, UInt8, "CANMPRTOLEnable9"),
    RegSpec(0x14CE, UInt8, "CANMPRTOLEnable10"),
    RegSpec(0x14CF, UInt8, "CANMPRTOLEnable11")
  ]

  // jkcmd.c:261-290
  const Regs7: seq<RegSpec> := [
    RegSpec(0x14D0, UInt8, "CANMPRTOLEnable12"),
    RegSpec(0x14D1, UInt8, "CANMPRTOLEnable13"),
    RegSpec(0x14D2, UInt8, "CANMPRTOLEnable14"),
    RegSpec(0x14D3, UInt8, "CANMPRTOLEnable15"),
    RegSpec(0x14D4, UInt8, "UART2MPRTOLNbr"),
    RegSpec(0x14D5, UInt8, "UART2MPRTOLEnable"),
    RegSpec(0x14E4, UInt8, "LCDBuzzerTrigger"),
    RegSpec(0x14E5, UInt8, "DRY1Trigger"),
    RegSpec(0x14E6, UInt8, "DRY2Trigger"),
    RegSpec(0x14E7, UInt8, "UARTMPTLVer"),
    RegSpec(0x14E8, Int32, "LCDBuzzerTriggerVal"),
    RegSpec(0x14EC, Int32, "LCDBuzzerReleaseVal"),
    RegSpec(0x14F0, Int32, "DRY1TriggerVal"),
    RegSpec(0x14F4, Int32, "DRY1ReleaseVal"),
    RegSpec(0x14F8, Int32, "DRY2TriggerVal"),
    RegSpec(0x14FC, Int32, "DRY2ReleaseVal"),
    RegSpec(0x1500, Int32, "DataStoredPeriod"),
    RegSpec(0x1504, UInt8, "RCVTime"),
    RegSpec(0x1505, UInt8, "RFVTime"),
    RegSpec(0x1506, UInt8, "CANMPTLVer"),
    RegSpec(0x1507, UInt8, "RVD3"),
    RegSpec(0x1600, UInt16, "VoltageCalibration"),
    RegSpec(0x1604, UInt16, "Shutdown"),
    RegSpec(0x1606, UInt16, "CurrentCalibration"),
    RegSpec(0x160A, UInt16, "LI-ION"),
    RegSpec(0x160C, UInt16, "LIFEPO4"),
    RegSpec(0x160E, UInt16, "LTO"),
    RegSpec(0x1610, UInt16, "Emergency"),
    RegSpec(0x1612, UInt32, "Timecalibration")
  ]

  /** jkRegs, in the source's order. */
  const JkRegs: seq<RegSpec> := ((Regs0 + Regs1) + (Regs2 + Regs3)) + ((Regs4 + Regs5) + (Regs6 + Regs7))

  /** The table has 253 rows: 71, 117 and 57 in the three groups and 8 outside them. */
  lemma JkRegsSize()
    ensures |JkRegs| == 253
  {
  }

  /** The first three rows: the 4-byte registers 0x1000, 0x1004 and 0x1008 of the first group. */
  lemma FirstRows()
    ensures |JkRegs| >= 3
    ensures JkRegs[0] == RegSpec(0x1000, UInt32, "VolSmartSleep")
    ensures JkRegs[1] == RegSpec(0x1004, UInt32, "VolCellUV")
    ensures JkRegs[2] == RegSpec(0x1008, UInt32, "VolCellUVPR")
  {
    assert JkRegs[..3] == Regs0[..3];
  }
}
