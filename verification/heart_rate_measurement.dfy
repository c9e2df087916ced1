/**
 * Decoding of the Heart Rate Measurement characteristic value, as the view
 * model's extractHeartRate does it: the rate is read at offset 1, as UINT16
 * when bit 0 of the characteristic's PROPERTIES is set and as UINT8 otherwise.
 * The Heart Rate Service itself puts that format bit in the flags byte at
 * offset 0; HeartRateValue below decodes that way, and the lemmas at the end
 * say when the two agree and give a value on which they do not.
 */
module HeartRateMeasurement {
  import opened Wrappers
  import opened Radio
  import opened GattAttributes

  /** BluetoothGattCharacteristic.FORMAT_UINT8 and FORMAT_UINT16. */
  datatype Format = Uint8 | Uint16 {

    /** Bytes read by getIntValue: the low nibble of the framework's format constant. */
    function Width(): nat {
      if Uint8? then 1 else 2
    }

    /** One more than the largest value of the format. */
    function Limit(): nat {
      if Uint8? then 0x100 else 0x1_0000
    }
  }

  /** The unsigned little-endian number a byte string spells. */
  function LittleEndian(bytes: seq<byte>): nat {
    if bytes == [] then 0 else bytes[0] as nat + 0x100 * LittleEndian(bytes[1..])
  }

  /**
   * BluetoothGattCharacteristic.getIntValue for the two unsigned formats:
   * null (None) when the value is too short for a read of the format's width
   * at `offset`, otherwise the little-endian number stored there.
   */
  function GetIntValue(value: seq<byte>, format: Format, offset: nat): (r: Option<int>)
    ensures r.None? <==> |value| < offset + format.Width()
    ensures r.Some? ==> r.value == LittleEndian(value[offset..offset + format.Width()])
    ensures r.Some? ==> 0 <= r.value < format.Limit()
  {
    if |value| < offset + format.Width() then None
    else
      match format
      case Uint8 =>
        assert value[offset..offset + 1][1..] == [];
        Some(value[offset] as int)
      case Uint16 =>
        var bytes := value[offset..offset + 2];
        assert bytes[1..][1..] == [];
        assert LittleEndian(bytes[1..]) == value[offset + 1] as nat;
        Some(value[offset] as int + (value[offset + 1] as int) * 0x100)
  }

  /**
   * Bit 0 of a Kotlin Int (`x and 0x01 != 0`). Dafny's remainder is never
   * negative, so it is also the low bit of a negative number's two's complement.
   */
  predicate Bit0Set(x: int) {
    x % 2 == 1
  }

  /** The format extractHeartRate chooses from the characteristic's properties. */
  function FormatFor(properties: int): Format {
    if Bit0Set(properties) then Uint16 else Uint8
  }

  /** What extractHeartRate returns when getIntValue yields null. */
  const NO_READING: int := -1

  /** The heart rate carried by a measurement value, or NO_READING when the value is too short. */
  function ExtractHeartRate(properties: int, value: seq<byte>): (bpm: int)
    ensures Bit0Set(properties) && |value| >= 3 ==> bpm == value[1] as int + 0x100 * value[2] as int
    ensures !Bit0Set(properties) && |value| >= 2 ==> bpm == value[1] as int
    ensures bpm == NO_READING <==> |value| < 1 + FormatFor(properties).Width()
    ensures NO_READING <= bpm < 0x1_0000
  {
    GetIntValue(value, FormatFor(properties), 1).GetOr(NO_READING)
  }

  /** A measurement value as a sensor sends it: the flags byte, then the rate in `format`, little-endian. */
  function EncodeMeasurement(flags: byte, format: Format, rate: nat): (bytes: seq<byte>)
    requires rate < format.Limit()
    ensures |bytes| == 1 + format.Width() && bytes[0] == flags
  {
    match format
    case Uint8 => [flags, rate as byte]
    case Uint16 => [flags, (rate % 0x100) as byte, (rate / 0x100) as byte]
  }

  /** Every rate the chosen format can hold is read back unchanged, whatever the flags byte holds. */
  lemma DecodeEncode(properties: int, flags: byte, rate: nat)
    requires rate < FormatFor(properties).Limit()
    ensures ExtractHeartRate(properties, EncodeMeasurement(flags, FormatFor(properties), rate)) == rate
  {
  }

  /** The Heart Rate Service's own rule: bit 0 of the flags byte at offset 0 selects UINT16. */
  function FlagsFormat(flags: byte): Format {
    if flags % 2 == 1 then Uint16 else Uint8
  }

  /** The heart rate as the Heart Rate Service defines the measurement value, None when it is too short. */
  function HeartRateValue(value: seq<byte>): (r: Option<int>)
    ensures r.None? <==> |value| == 0 || |value| < 1 + FlagsFormat(value[0]).Width()
  {
    if |value| == 0 then None else GetIntValue(value, FlagsFormat(value[0]), 1)
  }

  /** A rate encoded in the format its flags byte announces is read back unchanged by the Heart Rate Service's rule. */
  lemma HeartRateValueEncode(flags: byte, rate: nat)
    requires rate < FlagsFormat(flags).Limit()
    ensures HeartRateValue(EncodeMeasurement(flags, FlagsFormat(flags), rate)) == Some(rate)
  {
  }

  /** Where the properties bit and the flags bit agree, extractHeartRate reads what the sensor sent. */
  lemma ExtractAgreesWithFlagsFormat(properties: int, value: seq<byte>)
    requires |value| >= 1 && (Bit0Set(properties) <==> value[0] % 2 == 1)
    ensures ExtractHeartRate(properties, value) == HeartRateValue(value).GetOr(NO_READING)
  {
  }

  /**
   * Where they disagree the rate is misread: a sensor whose measurement
   * characteristic is notify-only sends 300 bpm in UINT16 form, and
   * extractHeartRate reads the low byte only.
   */
  lemma PropertiesBitMisreadsUint16Rate()
    ensures HeartRateValue([0x01, 0x2C, 0x01]) == Some(300)
    ensures ExtractHeartRate(PROPERTY_NOTIFY, [0x01, 0x2C, 0x01]) == 0x2C
  {
  }
}
