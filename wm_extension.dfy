/**
 * The `WMExtension` class of the adapter: the Classic Controller seen from
 * the sketch.  It owns the report buffer, the calibration bytes and the
 * optional callback run after each report read; the bus work is done by
 * the shared register engine.
 */
module WMExtension {
  import opened Cipher
  import opened Report
  import opened BusEngine

  /**
   * With the default calibration, the report installed by `init` has no
   * button pressed and every stick centred: 31 of 63 on the left stick,
   * 15 of 31 on the right one.
   */
  lemma InitialReportCentred()
    ensures DecodeReport(EncodeReport(InitialButtons(WithChecksum(DefaultCalibration))))
         == Idle(31, 31, 15, 15)
  {
    var c := WithChecksum(DefaultCalibration);
    assert c[..14] == DefaultCalibration[..14];
    assert c[2] == 0x7E && c[5] == 0x7E && c[8] == 0x7E && c[11] == 0x7E;
    DecodeEncode(InitialButtons(c));
  }

  class Extension {
    const engine: Engine
    /** `buttons_data`: the report sent on a read at 0x00. */
    const buttonsData: array<bv8>
    /** `calibration_data`. */
    const calibrationData: array<bv8>
    /** Whether `cbPtr` is set. */
    var hasCallback: bool

    ghost predicate Valid()
      reads this, engine
    {
      && engine.Valid() && buttonsData.Length == 6 && calibrationData.Length == 16
      && buttonsData != calibrationData
      && buttonsData != engine.registers && buttonsData != engine.wmRand && buttonsData != engine.wmKey
      && calibrationData != engine.registers && calibrationData != engine.wmRand
      && calibrationData != engine.wmKey
    }

    /** The class statics before `init`: a zeroed report, the default calibration, no callback. */
    constructor (genTabs: (seq<bv8>, seq<bv8>) -> Tables)
      ensures Valid() && fresh(engine) && fresh(engine.registers)
      ensures fresh(engine.wmRand) && fresh(engine.wmKey)
      ensures fresh(buttonsData) && fresh(calibrationData)
      ensures calibrationData[..] == DefaultCalibration
      ensures buttonsData[..] == [0, 0, 0, 0, 0, 0]
      ensures !hasCallback && engine.state == 0 && !engine.cryptSetupDone
    {
      engine := new Engine(genTabs);
      buttonsData := new bv8[6](_ => 0);
      var cal := new bv8[16](i requires 0 <= i < 16 => DefaultCalibration[i]);
      calibrationData := cal;
      hasCallback := false;
      assert cal[..] == DefaultCalibration;
    }

    /** `set_button_data_callback`: the callback is present or not. */
    method SetButtonDataCallback(present: bool)
      modifies this`hasCallback
      ensures hasCallback == present
    {
      hasCallback := present;
    }

    /** `get_calibration_byte`: byte b of the calibration data, 0 outside 0..15. */
    function GetCalibrationByte(b: int): (r: bv8)
      requires Valid()
      reads this, engine, calibrationData
      ensures 0 <= b < 16 ==> r == calibrationData[b]
      ensures !(0 <= b < 16) ==> r == 0
    {
      if 0 <= b <= 15 then calibrationData[b] else 0
    }

    /** `set_button_data`: the report for `s` becomes the next one sent. */
    method SetButtonData(s: ButtonState)
      requires Valid()
      modifies buttonsData
      ensures buttonsData[..] == EncodeReport(s)
    {
      WriteReport(buttonsData, s);
      assert buttonsData[..] == buttonsData[..6];
    }

    /**
     * `init` (without joining the bus): the register image, the checksummed
     * calibration bytes, and an initial report built from them.
     */
    method Init()
      requires Valid()
      modifies engine.registers, calibrationData, buttonsData
      ensures calibrationData[..] == WithChecksum(old(calibrationData[..]))
      ensures engine.registers[..] == InitialRegisters(calibrationData[..])
      ensures buttonsData[..] == EncodeReport(InitialButtons(calibrationData[..]))
      ensures forall b :: 0 <= b < 16 ==>
        GetCalibrationByte(b) == engine.registers[0x20 + b] == engine.registers[0x30 + b]
    {
      engine.LoadInitialRegisters(calibrationData);
      var c := calibrationData[..];
      ghost var r := engine.registers[..];
      SetButtonData(Idle(c[2] >> 2, c[5] >> 2, c[8] >> 3, c[11] >> 3));
      assert engine.registers[..] == r;
      forall b | 0 <= b < 16
        ensures GetCalibrationByte(b) == engine.registers[0x20 + b] == engine.registers[0x30 + b]
      {
        InitialCalibrationBytes(c, b);
        assert engine.registers[0x20 + b] == r[0x20 + b];
        assert engine.registers[0x30 + b] == r[0x30 + b];
      }
    }

    /**
     * `handle_request`: the engine answers the read, then, for a read of
     * the report, the callback runs if one is set.
     */
    method HandleRequest() returns (reply: Reply, callbackRun: bool)
      requires Valid()
      modifies engine`lastState, engine`offset
      ensures engine.state == 0x00 ==>
        && engine.lastState == old(engine.lastState) && engine.offset == old(engine.offset)
        && reply == Sent(if engine.EncryptionOn() then EncryptBlock(buttonsData[..], engine.tables, 0)
                         else buttonsData[..])
      ensures engine.state == 0xFA ==>
        && engine.lastState == old(engine.lastState) && engine.offset == old(engine.offset)
        && reply == Sent(if engine.EncryptionOn() then EncryptBlock(engine.registers[0xFA..], engine.tables, 0xFA)
                         else engine.registers[0xFA..])
      ensures engine.state != 0x00 && engine.state != 0xFA ==>
        var start := engine.state + engine.offset;
        && (engine.lastState, engine.offset) == NextPage(old(engine.lastState), old(engine.offset), engine.state)
        && (start + 8 > 256 ==> reply == Overrun(start))
        && (start + 8 <= 256 ==>
              var window := engine.registers[start .. start + 8];
              reply == Sent(if engine.EncryptionOn() then EncryptBlock(window, engine.tables, start)
                            else window))
      ensures callbackRun <==> engine.state == 0x00 && hasCallback
    {
      assert buttonsData[..][..6] == buttonsData[..];
      reply := engine.HandleRequest(buttonsData[..]);
      callbackRun := engine.state == 0x00 && hasCallback;
    }
  }
}
