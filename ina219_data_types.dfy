/**
 * Register descriptions of the INA219 power monitor (ina219_data_types.h):
 * the bit-field layout of each 16-bit register, the validators of the
 * enumerated field values, the host-memory image of a register value and the
 * per-device scratch buffers.
 *
 * A register value is an explicit 16-bit word. Fields are laid out in
 * declaration order from the least significant bit up, which is what the
 * packed `uint16_t` bit-fields give on the little-endian target.
 */
module Ina219DataTypes {
  import opened EmbeddUtils

  /** A register value: one 16-bit word. */
  type Word = bv16

  /** One declared bit-field of a register: its name and its width in bits. */
  datatype Field = Field(name: string, width: nat)

  /** Number of bits a layout occupies. */
  function TotalWidth(layout: seq<Field>): nat
  {
    if |layout| == 0 then 0 else layout[0].width + TotalWidth(layout[1..])
  }

  /** Bit position of the least significant bit of field `i`: the widths of the fields declared before it. */
  function Offset(layout: seq<Field>, i: nat): nat
    requires i <= |layout|
  {
    if i == 0 then 0 else layout[0].width + Offset(layout[1..], i - 1)
  }

  /** Each field starts where the one declared before it ends. */
  lemma {:induction false} OffsetStep(layout: seq<Field>, i: nat)
    requires 0 < i <= |layout|
    ensures Offset(layout, i) == Offset(layout, i - 1) + layout[i - 1].width
  {
    if i > 1 {
      OffsetStep(layout[1..], i - 1);
    }
  }

  /** Widths add up over concatenation. */
  lemma {:induction false} TotalWidthAppend(a: seq<Field>, b: seq<Field>)
    ensures TotalWidth(a + b) == TotalWidth(a) + TotalWidth(b)
  {
    if |a| > 0 {
      assert (a + b)[1..] == a[1..] + b;
      TotalWidthAppend(a[1..], b);
    } else {
      assert a + b == b;
    }
  }

  /** A run of one-bit fields is as wide as it is long, and field `i` of it starts at bit `i`. */
  lemma {:induction false} UnitWidths(layout: seq<Field>, i: nat)
    requires forall k :: 0 <= k < |layout| ==> layout[k].width == 1
    requires i <= |layout|
    ensures TotalWidth(layout) == |layout|
    ensures Offset(layout, i) == i
  {
    if |layout| > 0 {
      UnitWidths(layout[1..], if i == 0 then 0 else i - 1);
    }
  }

  /** A field starting past a prefix: offsets shift by the width of what is prepended. */
  lemma {:induction false} OffsetAppend(a: seq<Field>, b: seq<Field>, i: nat)
    requires i <= |b|
    ensures Offset(a + b, |a| + i) == TotalWidth(a) + Offset(b, i)
  {
    if |a| > 0 {
      assert (a + b)[1..] == a[1..] + b;
      OffsetAppend(a[1..], b, i);
    } else {
      assert a + b == b;
    }
  }

  /** Every field of a layout lies within the layout's width. */
  lemma {:induction false} FieldInside(layout: seq<Field>, i: nat)
    requires i < |layout|
    ensures Offset(layout, i) + layout[i].width <= TotalWidth(layout)
  {
    if i > 0 {
      FieldInside(layout[1..], i - 1);
    }
  }

  /** A field declared before another ends at or below the other's first bit: fields never overlap. */
  lemma {:induction false} FieldsDisjoint(layout: seq<Field>, i: nat, j: nat)
    requires i < j < |layout|
    ensures Offset(layout, i) + layout[i].width <= Offset(layout, j)
  {
    if i > 0 {
      FieldsDisjoint(layout[1..], i - 1, j - 1);
    }
  }

  /** A layout describes a register when its fields fill exactly the 16 bits, no padding, no overlap. */
  predicate FillsRegister(layout: seq<Field>)
  {
    TotalWidth(layout) == 16
  }

  /** The low `width` bits set. */
  function Mask(width: nat): Word
    requires width <= 16
  {
    0xFFFF >> (16 - width)
  }

  /** The field of `width` bits whose least significant bit is `lsb`. */
  function GetField(w: Word, lsb: nat, width: nat): Word
    requires lsb + width <= 16
  {
    (w >> lsb) & Mask(width)
  }

  /** Field `i` of a register laid out by `layout`. */
  function FieldValue(layout: seq<Field>, i: nat, w: Word): Word
    requires FillsRegister(layout) && i < |layout|
  {
    FieldInside(layout, i);
    GetField(w, Offset(layout, i), layout[i].width)
  }

  // ---------------------------------------------------------------------------
  // Layouts, as declared by the structs (first declared field lowest).
  // ---------------------------------------------------------------------------

  /** Decimal digits of `k`, for the names of numbered bit-fields. */
  function Digits(k: nat): string
  {
    if k < 10 then ["0123456789"[k]] else Digits(k / 10) + ["0123456789"[k % 10]]
  }

  /** `n` one-bit fields named prefix0, prefix1, ... */
  function BitRun(prefix: string, n: nat): (run: seq<Field>)
    ensures |run| == n
    ensures forall k :: 0 <= k < n ==> run[k].width == 1
  {
    seq(n, k requires 0 <= k => Field(prefix + Digits(k), 1))
  }

  /** ina219_configuration_t. */
  const ConfigurationLayout: seq<Field> :=
    [Field("mode", 3), Field("sadc", 4), Field("badc", 4), Field("pg", 2),
     Field("brng", 1), Field("reserved", 1), Field("rst", 1)]
  const ConfigurationMode := 0
  const ConfigurationSadc := 1
  const ConfigurationBadc := 2
  const ConfigurationPg := 3
  const ConfigurationBrng := 4
  const ConfigurationReserved := 5
  const ConfigurationRst := 6

  /** ina219_shunt_voltage_t: data bits sd0..sd14, then the sign. */
  const ShuntVoltageLayout: seq<Field> := BitRun("sd", 15) + [Field("sign", 1)]
  const ShuntVoltageSign := 15

  /** ina219_bus_voltage_t: two flags, two reserved bits, then data bits bd0..bd11. */
  const BusVoltageLayout: seq<Field> :=
    [Field("ovf", 1), Field("cnvr", 1), Field("reserved", 2)] + BitRun("bd", 12)
  const BusVoltageOvf := 0
  const BusVoltageCnvr := 1
  const BusVoltageReserved := 2

  /** ina219_power_t: sixteen one-bit fields pd0..pd15. */
  const PowerLayout: seq<Field> := BitRun("pd", 16)

  /** ina219_current_t: a 15-bit value, then its sign bit. */
  const CurrentLayout: seq<Field> := [Field("current_value", 15), Field("csign", 1)]
  const CurrentValue := 0
  const CurrentCsign := 1

  /** ina219_calibration_t: sixteen one-bit fields fs0..fs15. */
  const CalibrationLayout: seq<Field> := BitRun("fs", 16)

  /** Each register's fields add up to exactly 16 bits. */
  lemma LayoutsFillRegister()
    ensures FillsRegister(ConfigurationLayout)
    ensures FillsRegister(ShuntVoltageLayout)
    ensures FillsRegister(BusVoltageLayout)
    ensures FillsRegister(PowerLayout)
    ensures FillsRegister(CurrentLayout)
    ensures FillsRegister(CalibrationLayout)
  {
    assert FillsRegister(ShuntVoltageLayout) by {
      UnitWidths(BitRun("sd", 15), 0);
      TotalWidthAppend(BitRun("sd", 15), [Field("sign", 1)]);
    }
    assert FillsRegister(BusVoltageLayout) by {
      UnitWidths(BitRun("bd", 12), 0);
      TotalWidthAppend([Field("ovf", 1), Field("cnvr", 1), Field("reserved", 2)], BitRun("bd", 12));
    }
    assert FillsRegister(PowerLayout) by {
      UnitWidths(PowerLayout, 0);
    }
    assert FillsRegister(CalibrationLayout) by {
      UnitWidths(CalibrationLayout, 0);
    }
  }

  /** Bit position of each configuration field: mode at bit 0, sadc at 3, badc at 7, pg at 11, brng at 13, reserved at 14, rst at 15. */
  const ConfigurationOffsets: seq<nat> := [0, 3, 7, 11, 13, 14, 15]

  /** The configuration fields start where the struct declares them. */
  lemma {:induction false} ConfigurationOffsetAt(i: nat)
    requires i < |ConfigurationLayout|
    ensures Offset(ConfigurationLayout, i) == ConfigurationOffsets[i]
  {
    if i > 0 {
      ConfigurationOffsetAt(i - 1);
      OffsetStep(ConfigurationLayout, i);
    }
  }

  /** Each configuration field is the word shifted down to the field's offset and masked to its width. */
  lemma ConfigurationFieldAt(i: nat, w: Word)
    requires i < |ConfigurationLayout|
    ensures FillsRegister(ConfigurationLayout)
    ensures Offset(ConfigurationLayout, i) == ConfigurationOffsets[i]
    ensures FieldValue(ConfigurationLayout, i, w) == GetField(w, ConfigurationOffsets[i], ConfigurationLayout[i].width)
  {
    LayoutsFillRegister();
    ConfigurationOffsetAt(i);
  }

  /** In a register made of one-bit fields, field `k` is bit `k` of the word. */
  lemma BitFieldIsBit(layout: seq<Field>, k: nat, w: Word)
    requires |layout| == 16 && forall j :: 0 <= j < 16 ==> layout[j].width == 1
    requires k < 16
    ensures FillsRegister(layout)
    ensures FieldValue(layout, k, w) == (w >> k) & 1
  {
    UnitWidths(layout, k);
  }

  // ---------------------------------------------------------------------------
  // The configuration register as a record of its fields.
  // ---------------------------------------------------------------------------

  /** The fields of ina219_configuration_t, each held in a word. */
  datatype Configuration = Configuration(mode: Word, sadc: Word, badc: Word, pg: Word,
                                         brng: Word, reserved: Word, rst: Word)
  {
    /** Every field fits its declared width. */
    predicate Fits()
    {
      mode < 8 && sadc < 16 && badc < 16 && pg < 4 && brng < 2 && reserved < 2 && rst < 2
    }
  }

  /** Reads the fields of a configuration word, each at its declared offset and width. */
  function DecodeConfiguration(w: Word): Configuration
  {
    Configuration(GetField(w, 0, 3), GetField(w, 3, 4), GetField(w, 7, 4), GetField(w, 11, 2),
                  GetField(w, 13, 1), GetField(w, 14, 1), GetField(w, 15, 1))
  }

  /** Builds a configuration word from its fields. */
  function EncodeConfiguration(c: Configuration): Word
    requires c.Fits()
  {
    c.mode | (c.sadc << 3) | (c.badc << 7) | (c.pg << 11) | (c.brng << 13) | (c.reserved << 14) | (c.rst << 15)
  }

  /** Decoding yields fields within their widths, and they are the fields the layout describes. */
  lemma DecodeConfigurationFields(w: Word)
    ensures DecodeConfiguration(w).Fits()
    ensures FillsRegister(ConfigurationLayout)
    ensures DecodeConfiguration(w).mode == FieldValue(ConfigurationLayout, ConfigurationMode, w)
    ensures DecodeConfiguration(w).sadc == FieldValue(ConfigurationLayout, ConfigurationSadc, w)
    ensures DecodeConfiguration(w).badc == FieldValue(ConfigurationLayout, ConfigurationBadc, w)
    ensures DecodeConfiguration(w).pg == FieldValue(ConfigurationLayout, ConfigurationPg, w)
    ensures DecodeConfiguration(w).brng == FieldValue(ConfigurationLayout, ConfigurationBrng, w)
    ensures DecodeConfiguration(w).reserved == FieldValue(ConfigurationLayout, ConfigurationReserved, w)
    ensures DecodeConfiguration(w).rst == FieldValue(ConfigurationLayout, ConfigurationRst, w)
  {
    LayoutsFillRegister();
    assert DecodeConfiguration(w).Fits() by {
      DecodeConfigurationShifts(w);
    }
    var c := DecodeConfiguration(w);
    assert c.mode == FieldValue(ConfigurationLayout, ConfigurationMode, w) by {
      ConfigurationFieldAt(ConfigurationMode, w);
    }
    assert c.sadc == FieldValue(ConfigurationLayout, ConfigurationSadc, w) by {
      ConfigurationFieldAt(ConfigurationSadc, w);
    }
    assert c.badc == FieldValue(ConfigurationLayout, ConfigurationBadc, w) by {
      ConfigurationFieldAt(ConfigurationBadc, w);
    }
    assert c.pg == FieldValue(ConfigurationLayout, ConfigurationPg, w) by {
      ConfigurationFieldAt(ConfigurationPg, w);
    }
    assert c.brng == FieldValue(ConfigurationLayout, ConfigurationBrng, w) by {
      ConfigurationFieldAt(ConfigurationBrng, w);
    }
    assert c.reserved == FieldValue(ConfigurationLayout, ConfigurationReserved, w) by {
      ConfigurationFieldAt(ConfigurationReserved, w);
    }
    assert c.rst == FieldValue(ConfigurationLayout, ConfigurationRst, w) by {
      ConfigurationFieldAt(ConfigurationRst, w);
    }
  }

  /** The decoder with its shift amounts and masks written out. */
  lemma DecodeConfigurationShifts(w: Word)
    ensures DecodeConfiguration(w) ==
              Configuration(w & 0x7, (w >> 3) & 0xF, (w >> 7) & 0xF, (w >> 11) & 0x3,
                            (w >> 13) & 0x1, (w >> 14) & 0x1, (w >> 15) & 0x1)
  {
    assert GetField(w, 0, 3) == w & 0x7;
    assert GetField(w, 3, 4) == (w >> 3) & 0xF;
    assert GetField(w, 7, 4) == (w >> 7) & 0xF;
    assert GetField(w, 11, 2) == (w >> 11) & 0x3;
    assert GetField(w, 13, 1) == (w >> 13) & 0x1;
    assert GetField(w, 14, 1) == (w >> 14) & 0x1;
    assert GetField(w, 15, 1) == (w >> 15) & 0x1;
  }

  /** Reading the fields of a word and writing them back gives the same word. */
  lemma ConfigurationWordRoundTrip(w: Word)
    ensures DecodeConfiguration(w).Fits()
    ensures EncodeConfiguration(DecodeConfiguration(w)) == w
  {
    DecodeConfigurationShifts(w);
  }

  /** Writing fields into a word and reading them back gives the same fields. */
  lemma ConfigurationFieldsRoundTrip(c: Configuration)
    requires c.Fits()
    ensures DecodeConfiguration(EncodeConfiguration(c)) == c
  {
    DecodeConfigurationShifts(EncodeConfiguration(c));
  }

  // ---------------------------------------------------------------------------
  // Enumerated field values and their validators (the *_VALID macros).
  // ---------------------------------------------------------------------------

  const ModePowerDown := 0
  const ModeShuntVoltageTriggered := 1
  const ModeBusVoltageTriggered := 2
  const ModeShuntAndBusTriggered := 3
  const ModeAdcOffDisabled := 4
  const ModeShuntVoltageContinuous := 5
  const ModeBusVoltageContinuous := 6
  const ModeShuntAndBusContinuous := 7

  /** INA219_CONFIGURATION_MODE_VALID: exactly the eight operating modes 0..7. */
  function ModeValid(v: int): (ok: bool)
    ensures ok <==> 0 <= v <= 7
  {
    v == ModePowerDown || v == ModeShuntVoltageTriggered || v == ModeBusVoltageTriggered ||
    v == ModeShuntAndBusTriggered || v == ModeAdcOffDisabled || v == ModeShuntVoltageContinuous ||
    v == ModeBusVoltageContinuous || v == ModeShuntAndBusContinuous
  }

  // Resolution/averaging codes shared by the shunt and bus ADC fields.
  const Adc9Bit := 0
  const Adc10Bit := 1
  const Adc4Samples := 10
  const Adc8Samples := 11
  const Adc12BitDefault := 8
  const Adc2Samples := 9
  const Adc16Samples := 12
  const Adc32Samples := 13
  const Adc64Samples := 14
  const Adc128Samples := 15

  /** The ten resolution/averaging codes of the SADC and BADC fields. */
  function AdcCode(v: int): bool
  {
    v == Adc9Bit || v == Adc10Bit || v == Adc4Samples || v == Adc8Samples ||
    v == Adc12BitDefault || v == Adc2Samples || v == Adc16Samples || v == Adc32Samples ||
    v == Adc64Samples || v == Adc128Samples
  }

  /** INA219_CONFIGURATION_SADC_VALID: 0, 1 and 8..15; the codes 2..7 are rejected. */
  function SadcValid(v: int): (ok: bool)
    ensures ok <==> v == 0 || v == 1 || 8 <= v <= 15
  {
    AdcCode(v)
  }

  /** INA219_CONFIGURATION_BADC_VALID: the same ten codes as SADC. */
  function BadcValid(v: int): (ok: bool)
    ensures ok <==> v == 0 || v == 1 || 8 <= v <= 15
  {
    AdcCode(v)
  }

  const PgGain1Range40mV := 0
  const PgGain2Range80mV := 1
  const PgGain4Range160mV := 2
  const PgGain8Range320mV := 3

  /** INA219_CONFIGURATION_PG_VALID: the four gains 0..3. */
  function PgValid(v: int): (ok: bool)
    ensures ok <==> 0 <= v <= 3
  {
    v == PgGain1Range40mV || v == PgGain2Range80mV || v == PgGain4Range160mV || v == PgGain8Range320mV
  }

  const Brng16VFsrDefault := 0
  const Brng32VFsr := 1

  /** INA219_CONFIGURATION_BRNG_VALID: 0 or 1. */
  function BrngValid(v: int): (ok: bool)
    ensures ok <==> v == 0 || v == 1
  {
    v == Brng16VFsrDefault || v == Brng32VFsr
  }

  const RstNoReset := 0
  const RstGenerateSystemReset := 1

  /** INA219_CONFIGURATION_RST_VALID: 0 or 1. */
  function RstValid(v: int): (ok: bool)
    ensures ok <==> v == 0 || v == 1
  {
    v == RstNoReset || v == RstGenerateSystemReset
  }

  const ShuntSignPositive := 0
  const ShuntSignNegative := 1

  /** INA219_SHUNT_VOLTAGE_SIGN_VALID: 0 or 1. */
  function ShuntVoltageSignValid(v: int): (ok: bool)
    ensures ok <==> v == 0 || v == 1
  {
    v == ShuntSignPositive || v == ShuntSignNegative
  }

  const OvfNoOverflow := 0
  const OvfOverflowOccurred := 1

  /** INA219_BUS_VOLTAGE_OVF_VALID: 0 or 1. */
  function BusVoltageOvfValid(v: int): (ok: bool)
    ensures ok <==> v == 0 || v == 1
  {
    v == OvfNoOverflow || v == OvfOverflowOccurred
  }

  const CnvrConversionNotReady := 0
  const CnvrConversionReady := 1

  /** INA219_BUS_VOLTAGE_CNVR_VALID: 0 or 1. */
  function BusVoltageCnvrValid(v: int): (ok: bool)
    ensures ok <==> v == 0 || v == 1
  {
    v == CnvrConversionNotReady || v == CnvrConversionReady
  }

  /** The one value INA219_POWER_PDn_RESERVED that every power bit is defined with. */
  const PowerPdReserved := 0

  /** INA219_POWER_PD0_VALID .. INA219_POWER_PD15_VALID (sixteen identical macros): only 0. */
  function PowerPdValid(v: int): (ok: bool)
    ensures ok <==> v == 0
  {
    v == PowerPdReserved
  }

  const CsignPositiveCurrentValue := 0
  const CsignNegativeCurrentValue := 1

  /** INA219_CURRENT_CSIGN_VALID: 0 or 1. */
  function CurrentCsignValid(v: int): (ok: bool)
    ensures ok <==> v == 0 || v == 1
  {
    v == CsignPositiveCurrentValue || v == CsignNegativeCurrentValue
  }

  /** The one value INA219_CALIBRATION_FSn_DEFAULT_VALUE that every calibration bit is defined with. */
  const CalibrationFsDefaultValue := 0

  /** INA219_CALIBRATION_FS0_VALID .. INA219_CALIBRATION_FS15_VALID (sixteen identical macros): only 0. */
  function CalibrationFsValid(v: int): (ok: bool)
    ensures ok <==> v == 0
  {
    v == CalibrationFsDefaultValue
  }

  /** Whatever word is read, its 3-bit mode, 2-bit pg and 1-bit brng and rst fields are valid. */
  lemma ConfigurationNarrowFieldsValid(w: Word)
    ensures FillsRegister(ConfigurationLayout)
    ensures ModeValid(FieldValue(ConfigurationLayout, ConfigurationMode, w) as int)
    ensures PgValid(FieldValue(ConfigurationLayout, ConfigurationPg, w) as int)
    ensures BrngValid(FieldValue(ConfigurationLayout, ConfigurationBrng, w) as int)
    ensures RstValid(FieldValue(ConfigurationLayout, ConfigurationRst, w) as int)
  {
    DecodeConfigurationFields(w);
  }

  /** The 4-bit sadc field can hold a code its validator rejects: the word 0x0010 has sadc == 2. */
  lemma SadcFieldCanBeInvalid()
    ensures FillsRegister(ConfigurationLayout)
    ensures FieldValue(ConfigurationLayout, ConfigurationSadc, 0x0010) == 2
    ensures !SadcValid(2)
  {
    ConfigurationFieldAt(ConfigurationSadc, 0x0010);
  }

  /** A power bit passes its validator exactly when that bit of the word is clear. */
  lemma PowerBitValid(k: nat, w: Word)
    requires k < 16
    ensures FillsRegister(PowerLayout)
    ensures PowerPdValid(FieldValue(PowerLayout, k, w) as int) <==> (w >> k) & 1 == 0
  {
    BitFieldIsBit(PowerLayout, k, w);
  }

  // ---------------------------------------------------------------------------
  // Register values in host memory.
  // ---------------------------------------------------------------------------

  /** Size in bytes of every register type (sizeof of a packed 16-bit struct). */
  const RegisterValueSize := 2

  /** The bytes of a register value in host memory, lowest address first, on the little-endian target. */
  function HostBytes(v: Uint16): seq<Byte>
  {
    [v % 256, v / 256]
  }

  /** The bytes of a register value on the wire: most significant byte first. */
  function WireBytes(v: Uint16): seq<Byte>
  {
    [v / 256, v % 256]
  }

  /** The register value held by two bytes of host memory. */
  function HostValue(lo: Byte, hi: Byte): Uint16
  {
    hi * 256 + lo
  }

  /** Reversing the host image gives the wire image and back: the packer is the endianness conversion. */
  lemma HostWireImages(v: Uint16)
    ensures |HostBytes(v)| == |WireBytes(v)| == RegisterValueSize
    ensures Reverse(HostBytes(v)) == WireBytes(v)
    ensures Reverse(WireBytes(v)) == HostBytes(v)
  {
    assert Reverse(HostBytes(v)) == [HostBytes(v)[1]] + Reverse([HostBytes(v)[0]]);
    assert Reverse(WireBytes(v)) == [WireBytes(v)[1]] + Reverse([WireBytes(v)[0]]);
  }

  /** Host memory and register values are in one-to-one correspondence. */
  lemma HostValueRoundTrip(v: Uint16, lo: Byte, hi: Byte)
    ensures HostValue(HostBytes(v)[0], HostBytes(v)[1]) == v
    ensures HostBytes(HostValue(lo, hi)) == [lo, hi]
  {
  }

  // ---------------------------------------------------------------------------
  // Scratch buffers and API table.
  // ---------------------------------------------------------------------------

  /** Largest message a write sends: one address byte and a two-byte register. */
  const WriteMessageMaxSize := 3

  /** Largest message a read receives. */
  const ReadMessageMaxSize := 3

  /** ina219_data_t: the device's two embedded scratch buffers. */
  class Ina219Data {
    const outBuf: array<Byte>
    const inBuf: array<Byte>

    /** The buffers have their declared sizes and are two different arrays. */
    ghost predicate Valid()
    {
      outBuf.Length == WriteMessageMaxSize && inBuf.Length == ReadMessageMaxSize && outBuf != inBuf
    }

    /** A statically allocated block: both buffers zero-filled. */
    constructor ()
      ensures Valid() && fresh(outBuf) && fresh(inBuf)
      ensures outBuf[..] == [0, 0, 0] && inBuf[..] == [0, 0, 0]
    {
      outBuf := new Byte[WriteMessageMaxSize](_ => 0);
      inBuf := new Byte[ReadMessageMaxSize](_ => 0);
    }
  }

  /** ina219_api_t: the table whose entries are the register write and read operations. */
  datatype Api = Ina219Api
}
