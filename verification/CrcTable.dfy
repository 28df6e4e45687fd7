/** The lookup table of components/alpha_hwr/codec.cpp:9-42, checked entry by entry.

Entry i must be what eight steps of the bit-serial CRC leave of the byte i
standing in the high half of an otherwise empty register. The constant array is
written as the function from index to entry, a row of sixteen per high nibble.
*/
module CrcTable {

  // ---------------------------------------------------------------------------
  // The bit-serial step
  // ---------------------------------------------------------------------------

  // Addition of two registers over GF(2).
  function Sum(a: bv16, b: bv16): bv16 {
    a ^ b
  }

  function Shifted(crc: bv16): bv16 {
    crc << 1
  }

  predicate TopBit(crc: bv16) {
    crc & 0x8000 != 0
  }

  // One step: shift, and subtract the generator when a one falls out at the top.
  function BitStep(crc: bv16): bv16 {
    if TopBit(crc) then Sum(Shifted(crc), 0x1021) else Shifted(crc)
  }

  function EightSteps(crc: bv16): bv16 {
    BitStep(BitStep(BitStep(BitStep(BitStep(BitStep(BitStep(BitStep(crc))))))))
  }

  // A byte in the high half of the register.
  function High(b: bv8): bv16 {
    (b as bv16) << 8
  }

  // ---------------------------------------------------------------------------
  // The table
  // ---------------------------------------------------------------------------

  function Row0(i: bv8): bv16 {
    match i & 0x0F
    case 0x0 => 0x0000 case 0x1 => 0x1021 case 0x2 => 0x2042 case 0x3 => 0x3063
    case 0x4 => 0x4084 case 0x5 => 0x50A5 case 0x6 => 0x60C6 case 0x7 => 0x70E7
    case 0x8 => 0x8108 case 0x9 => 0x9129 case 0xA => 0xA14A case 0xB => 0xB16B
    case 0xC => 0xC18C case 0xD => 0xD1AD case 0xE => 0xE1CE case _ => 0xF1EF
  }

  function Row1(i: bv8): bv16 {
    match i & 0x0F
    case 0x0 => 0x1231 case 0x1 => 0x0210 case 0x2 => 0x3273 case 0x3 => 0x2252
    case 0x4 => 0x52B5 case 0x5 => 0x4294 case 0x6 => 0x72F7 case 0x7 => 0x62D6
    case 0x8 => 0x9339 case 0x9 => 0x8318 case 0xA => 0xB37B case 0xB => 0xA35A
    case 0xC => 0xD3BD case 0xD => 0xC39C case 0xE => 0xF3FF case _ => 0xE3DE
  }

  function Row2(i: bv8): bv16 {
    match i & 0x0F
    case 0x0 => 0x2462 case 0x1 => 0x3443 case 0x2 => 0x0420 case 0x3 => 0x1401
    case 0x4 => 0x64E6 case 0x5 => 0x74C7 case 0x6 => 0x44A4 case 0x7 => 0x5485
    case 0x8 => 0xA56A case 0x9 => 0xB54B case 0xA => 0x8528 case 0xB => 0x9509
    case 0xC => 0xE5EE case 0xD => 0xF5CF case 0xE => 0xC5AC case _ => 0xD58D
  }

  function Row3(i: bv8): bv16 {
    match i & 0x0F
    case 0x0 => 0x3653 case 0x1 => 0x2672 case 0x2 => 0x1611 case 0x3 => 0x0630
    case 0x4 => 0x76D7 case 0x5 => 0x66F6 case 0x6 => 0x5695 case 0x7 => 0x46B4
    case 0x8 => 0xB75B case 0x9 => 0xA77A case 0xA => 0x9719 case 0xB => 0x8738
    case 0xC => 0xF7DF case 0xD => 0xE7FE case 0xE => 0xD79D case _ => 0xC7BC
  }

  function Row4(i: bv8): bv16 {
    match i & 0x0F
    case 0x0 => 0x48C4 case 0x1 => 0x58E5 case 0x2 => 0x6886 case 0x3 => 0x78A7
    case 0x4 => 0x0840 case 0x5 => 0x1861 case 0x6 => 0x2802 case 0x7 => 0x3823
    case 0x8 => 0xC9CC case 0x9 => 0xD9ED case 0xA => 0xE98E case 0xB => 0xF9AF
    case 0xC => 0x8948 case 0xD => 0x9969 case 0xE => 0xA90A case _ => 0xB92B
  }

  function Row5(i: bv8): bv16 {
    match i & 0x0F
    case 0x0 => 0x5AF5 case 0x1 => 0x4AD4 case 0x2 => 0x7AB7 case 0x3 => 0x6A96
    case 0x4 => 0x1A71 case 0x5 => 0x0A50 case 0x6 => 0x3A33 case 0x7 => 0x2A12
    case 0x8 => 0xDBFD case 0x9 => 0xCBDC case 0xA => 0xFBBF case 0xB => 0xEB9E
    case 0xC => 0x9B79 case 0xD => 0x8B58 case 0xE => 0xBB3B case _ => 0xAB1A
  }

  function Row6(i: bv8): bv16 {
    match i & 0x0F
    case 0x0 => 0x6CA6 case 0x1 => 0x7C87 case 0x2 => 0x4CE4 case 0x3 => 0x5CC5
    case 0x4 => 0x2C22 case 0x5 => 0x3C03 case 0x6 => 0x0C60 case 0x7 => 0x1C41
    case 0x8 => 0xEDAE case 0x9 => 0xFD8F case 0xA => 0xCDEC case 0xB => 0xDDCD
    case 0xC => 0xAD2A case 0xD => 0xBD0B case 0xE => 0x8D68 case _ => 0x9D49
  }

  function Row7(i: bv8): bv16 {
    match i & 0x0F
    case 0x0 => 0x7E97 case 0x1 => 0x6EB6 case 0x2 => 0x5ED5 case 0x3 => 0x4EF4
    case 0x4 => 0x3E13 case 0x5 => 0x2E32 case 0x6 => 0x1E51 case 0x7 => 0x0E70
    case 0x8 => 0xFF9F case 0x9 => 0xEFBE case 0xA => 0xDFDD case 0xB => 0xCFFC
    case 0xC => 0xBF1B case 0xD => 0xAF3A case 0xE => 0x9F59 case _ => 0x8F78
  }

  function Row8(i: bv8): bv16 {
    match i & 0x0F
    case 0x0 => 0x9188 case 0x1 => 0x81A9 case 0x2 => 0xB1CA case 0x3 => 0xA1EB
    case 0x4 => 0xD10C case 0x5 => 0xC12D case 0x6 => 0xF14E case 0x7 => 0xE16F
    case 0x8 => 0x1080 case 0x9 => 0x00A1 case 0xA => 0x30C2 case 0xB => 0x20E3
    case 0xC => 0x5004 case 0xD => 0x4025 case 0xE => 0x7046 case _ => 0x6067
  }

  function Row9(i: bv8): bv16 {
    match i & 0x0F
    case 0x0 => 0x83B9 case 0x1 => 0x9398 case 0x2 => 0xA3FB case 0x3 => 0xB3DA
    case 0x4 => 0xC33D case 0x5 => 0xD31C case 0x6 => 0xE37F case 0x7 => 0xF35E
    case 0x8 => 0x02B1 case 0x9 => 0x1290 case 0xA => 0x22F3 case 0xB => 0x32D2
    case 0xC => 0x4235 case 0xD => 0x5214 case 0xE => 0x6277 case _ => 0x7256
  }

  function RowA(i: bv8): bv16 {
    match i & 0x0F
    case 0x0 => 0xB5EA case 0x1 => 0xA5CB case 0x2 => 0x95A8 case 0x3 => 0x8589
    case 0x4 => 0xF56E case 0x5 => 0xE54F case 0x6 => 0xD52C case 0x7 => 0xC50D
    case 0x8 => 0x34E2 case 0x9 => 0x24C3 case 0xA => 0x14A0 case 0xB => 0x0481
    case 0xC => 0x7466 case 0xD => 0x6447 case 0xE => 0x5424 case _ => 0x4405
  }

  function RowB(i: bv8): bv16 {
    match i & 0x0F
    case 0x0 => 0xA7DB case 0x1 => 0xB7FA case 0x2 => 0x8799 case 0x3 => 0x97B8
    case 0x4 => 0xE75F case 0x5 => 0xF77E case 0x6 => 0xC71D case 0x7 => 0xD73C
    case 0x8 => 0x26D3 case 0x9 => 0x36F2 case 0xA => 0x0691 case 0xB => 0x16B0
    case 0xC => 0x6657 case 0xD => 0x7676 case 0xE => 0x4615 case _ => 0x5634
  }

  function RowC(i: bv8): bv16 {
    match i & 0x0F
    case 0x0 => 0xD94C case 0x1 => 0xC96D case 0x2 => 0xF90E case 0x3 => 0xE92F
    case 0x4 => 0x99C8 case 0x5 => 0x89E9 case 0x6 => 0xB98A case 0x7 => 0xA9AB
    case 0x8 => 0x5844 case 0x9 => 0x4865 case 0xA => 0x7806 case 0xB => 0x6827
    case 0xC => 0x18C0 case 0xD => 0x08E1 case 0xE => 0x3882 case _ => 0x28A3
  }

  function RowD(i: bv8): bv16 {
    match i & 0x0F
    case 0x0 => 0xCB7D case 0x1 => 0xDB5C case 0x2 => 0xEB3F case 0x3 => 0xFB1E
    case 0x4 => 0x8BF9 case 0x5 => 0x9BD8 case 0x6 => 0xABBB case 0x7 => 0xBB9A
    case 0x8 => 0x4A75 case 0x9 => 0x5A54 case 0xA => 0x6A37 case 0xB => 0x7A16
    case 0xC => 0x0AF1 case 0xD => 0x1AD0 case 0xE => 0x2AB3 case _ => 0x3A92
  }

  function RowE(i: bv8): bv16 {
    match i & 0x0F
    case 0x0 => 0xFD2E case 0x1 => 0xED0F case 0x2 => 0xDD6C case 0x3 => 0xCD4D
    case 0x4 => 0xBDAA case 0x5 => 0xAD8B case 0x6 => 0x9DE8 case 0x7 => 0x8DC9
    case 0x8 => 0x7C26 case 0x9 => 0x6C07 case 0xA => 0x5C64 case 0xB => 0x4C45
    case 0xC => 0x3CA2 case 0xD => 0x2C83 case 0xE => 0x1CE0 case _ => 0x0CC1
  }

  function RowF(i: bv8): bv16 {
    match i & 0x0F
    case 0x0 => 0xEF1F case 0x1 => 0xFF3E case 0x2 => 0xCF5D case 0x3 => 0xDF7C
    case 0x4 => 0xAF9B case 0x5 => 0xBFBA case 0x6 => 0x8FD9 case 0x7 => 0x9FF8
    case 0x8 => 0x6E17 case 0x9 => 0x7E36 case 0xA => 0x4E55 case 0xB => 0x5E74
    case 0xC => 0x2E93 case 0xD => 0x3EB2 case 0xE => 0x0ED1 case _ => 0x1EF0
  }

  function Entry(i: bv8): bv16 {
    match i >> 4
    case 0x0 => Row0(i) case 0x1 => Row1(i) case 0x2 => Row2(i) case 0x3 => Row3(i)
    case 0x4 => Row4(i) case 0x5 => Row5(i) case 0x6 => Row6(i) case 0x7 => Row7(i)
    case 0x8 => Row8(i) case 0x9 => Row9(i) case 0xA => RowA(i) case 0xB => RowB(i)
    case 0xC => RowC(i) case 0xD => RowD(i) case 0xE => RowE(i) case _ => RowF(i)
  }

  lemma Quarter0(i: bv8)
    requires i >> 6 == 0
    ensures Entry(i) == EightSteps(High(i))
  {}

  lemma Quarter1(i: bv8)
    requires i >> 6 == 1
    ensures Entry(i) == EightSteps(High(i))
  {}

  lemma Quarter2(i: bv8)
    requires i >> 6 == 2
    ensures Entry(i) == EightSteps(High(i))
  {}

  lemma Quarter3(i: bv8)
    requires i >> 6 == 3
    ensures Entry(i) == EightSteps(High(i))
  {}

  /** Every entry of the table is the eight-step remainder of its index. */
  lemma TableEntry(i: bv8)
    ensures Entry(i) == EightSteps(High(i))
  {
    match i >> 6
    case 0 => Quarter0(i);
    case 1 => Quarter1(i);
    case 2 => Quarter2(i);
    case _ => Quarter3(i);
  }
}
