/** The KPA500 amplifier's serial language: commands, band numbers, what each line says
    about the amplifier, and which lines change its operating state. */
module KpaLines {
  import opened Text
  import opened SafetyGate

  // ---------------------------------------------------------------- commands

  datatype Command =
    | Firmware | SerialNumber
    | OperateStatus | PowerSwr | Temperature | VoltsCurrent | FaultStatus
    | SetOperate | SetStandby | ClearFault

  function Wire(c: Command): string {
    match c
    case Firmware => "^RVM;"
    case SerialNumber => "^SN;"
    case OperateStatus => "^OS;"
    case PowerSwr => "^WS;"
    case Temperature => "^TM;"
    case VoltsCurrent => "^VI;"
    case FaultStatus => "^FL;"
    case SetOperate => "^OS1;"
    case SetStandby => "^OS0;"
    case ClearFault => "^FLC;"
  }

  function SafetyOf(c: Command): Safety {
    match c
    case SetOperate => RfRisk
    case SetStandby => StateChangeSafe
    case ClearFault => DestructiveOrUnknown
    case _ => ReadOnly
  }

  /** The prefix of a line that answers a command; the control commands have no answer. */
  function ExpectedPrefix(c: Command): Option<string> {
    match c
    case Firmware => Some("^RVM")
    case SerialNumber => Some("^SN")
    case OperateStatus => Some("^OS")
    case PowerSwr => Some("^WS")
    case Temperature => Some("^TM")
    case VoltsCurrent => Some("^VI")
    case FaultStatus => Some("^FL")
    case _ => None
  }

  predicate Answers(c: Command, line: string) {
    ExpectedPrefix(c).Some? && StartsWith(line, ExpectedPrefix(c).value) && EndsWith(line, ';')
  }

  /** Which lines answer a query: those that begin with its wire up to the semicolon and end in one.
      Nothing answers a control. */
  lemma AnswersMean(c: Command, line: string)
    ensures Answers(c, line) <==>
      && c in {Firmware, SerialNumber, OperateStatus, PowerSwr, Temperature, VoltsCurrent, FaultStatus}
      && StartsWith(line, Wire(c)[..|Wire(c)| - 1]) && line != "" && line[|line| - 1] == ';'
  {
    hide StartsWith;
    assert "^RVM;"[..4] == "^RVM" && "^SN;"[..3] == "^SN" && "^OS;"[..3] == "^OS" && "^WS;"[..3] == "^WS";
    assert "^TM;"[..3] == "^TM" && "^VI;"[..3] == "^VI" && "^FL;"[..3] == "^FL";
  }

  const POLL: seq<Command> := [OperateStatus, PowerSwr, Temperature, VoltsCurrent, FaultStatus]

  // ---------------------------------------------------------------- band numbers

  datatype Band = Unknown | M160 | M80 | M60 | M40 | M30 | M20 | M17 | M15 | M12 | M10 | M6

  function BandNumber(band: Band): string
    requires band != Unknown
  {
    match band
    case M160 => "00"
    case M80 => "01"
    case M60 => "02"
    case M40 => "03"
    case M30 => "04"
    case M20 => "05"
    case M17 => "06"
    case M15 => "07"
    case M12 => "08"
    case M10 => "09"
    case M6 => "10"
  }

  function BandWire(band: Band): Option<string> {
    if band == Unknown then None else Some("^BN" + BandNumber(band) + ";")
  }

  /** The band number a line names, whether it is a request or the amplifier's echo of one. */
  function EchoedBand(line: string): Option<nat> {
    var raw := Field(line, "^BN");
    if raw.Some? then ParseUnsigned(raw.value, U8_MAX) else None
  }

  function BandOrder(band: Band): nat
    requires band != Unknown
  {
    match band
    case M160 => 0 case M80 => 1 case M60 => 2 case M40 => 3 case M30 => 4 case M20 => 5
    case M17 => 6 case M15 => 7 case M12 => 8 case M10 => 9 case M6 => 10
  }

  /** A band wire reads back as the band's number. */
  lemma BandWireReadsBack(band: Band)
    requires band != Unknown
    ensures EchoedBand(BandWire(band).value) == Some(BandOrder(band))
  {
    var raw := BandNumber(band);
    FieldOf("^BN", raw);
    assert |raw| == 2 && AllDigits(raw);
    StartsAt(raw, "+", 0);
    assert Value(raw[..1]) == 10 * Value(raw[..1][..0]) + (raw[0] as int - '0' as int);
    assert raw[..1][..0] == "";
    assert Value(raw) == 10 * Value(raw[..1]) + (raw[1] as int - '0' as int);
  }

  /** Different bands have different wires, and an echo names at most one band. */
  lemma BandWiresDiffer(a: Band, b: Band)
    requires a != Unknown && b != Unknown
    ensures BandWire(a) == BandWire(b) <==> a == b
    ensures EchoedBand(BandWire(a).value) == EchoedBand(BandWire(b).value) <==> a == b
  {
    BandWireReadsBack(a);
    BandWireReadsBack(b);
  }

  // ---------------------------------------------------------------- what a line says

  datatype OperatingState = Standby | Idle | Operate | TransmitA | TransmitB | PowerUp | Fault

  /** The telemetry a poll maintains; SWR, volts and amperes in tenths. */
  datatype Amp = Amp(
    firmware: Option<string>, serialNumber: Option<string>,
    operate: bool, state: OperatingState, fault: Option<nat>, meffa: string,
    power: nat, swr: nat, temperature: int, volts: nat, amps: nat, speaker: Option<bool>)

  const INITIAL: Amp := Amp(None, None, false, Standby, None, "UNKNOWN", 0, 10, 0, 0, 0, None)

  datatype Reading =
    | NoReading
    | FirmwareIs(text: string) | SerialIs(text: string)
    | OperateIs(on: bool)
    | PowerSwrIs(power: Option<nat>, swr: Option<nat>)
    | TemperatureIs(celsius: int)
    | SupplyIs(volts: Option<nat>, amps: Option<nat>)
    | FaultIs(code: nat)
    | SpeakerIs(audible: bool)

  /** A maximal run without white space at the start of a text. */
  function FirstWord(s: string): string {
    if s == "" || IsSpace(s[0]) then "" else [s[0]] + FirstWord(s[1..])
  }

  /** The first two words of a text, if there are two. */
  function TwoWords(s: string): Option<(string, string)> {
    var text := TrimStart(s);
    var first := FirstWord(text);
    FirstWordIsPrefix(text);
    var second := FirstWord(TrimStart(text[|first|..]));
    if first != "" && second != "" then Some((first, second)) else None
  }

  lemma {:induction false} FirstWordIsPrefix(s: string)
    ensures |FirstWord(s)| <= |s| && s[..|FirstWord(s)|] == FirstWord(s)
    ensures forall c <- FirstWord(s) :: !IsSpace(c)
    ensures |FirstWord(s)| < |s| ==> IsSpace(s[|FirstWord(s)|])
  {
    if s != "" && !IsSpace(s[0]) {
      FirstWordIsPrefix(s[1..]);
    }
  }

  function Bounded(raw: string, max: nat): Option<nat> {
    var n := ParseUnsigned(raw, U16_MAX);
    if n.Some? && n.value <= max then n else None
  }

  /** Tenths of SWR; a reading of 0 stands for 1.0. */
  function SwrTenths(raw: string): Option<nat> {
    var n := ParseUnsigned(raw, U16_MAX);
    if n == Some(0) then Some(10) else if n.Some? && 10 <= n.value <= 990 then n else None
  }

  /** What one line reports; a line with an impossible value reports nothing. */
  function ReadingOf(response: string): Reading {
    var line := Trim(response);
    if Field(line, "^RVM").Some? then
      var raw := Field(line, "^RVM").value;
      if raw != "" then FirmwareIs(raw) else NoReading
    else if Field(line, "^SN").Some? then
      var raw := Field(line, "^SN").value;
      if raw != "" then SerialIs(raw) else NoReading
    else if Field(line, "^OS").Some? then
      var raw := Field(line, "^OS").value;
      if raw == "0" then OperateIs(false) else if raw == "1" then OperateIs(true) else NoReading
    else if Field(line, "^WS").Some? then
      var words := TwoWords(Field(line, "^WS").value);
      if words.Some? then PowerSwrIs(Bounded(words.value.0, 1000), SwrTenths(words.value.1)) else NoReading
    else if Field(line, "^TM").Some? then
      var celsius := ParseSigned(Field(line, "^TM").value, -32768, 32767);
      if celsius.Some? && -40 <= celsius.value <= 150 then TemperatureIs(celsius.value) else NoReading
    else if Field(line, "^VI").Some? then
      var words := TwoWords(Field(line, "^VI").value);
      if words.Some? then SupplyIs(Bounded(words.value.0, 999), Bounded(words.value.1, 999)) else NoReading
    else if Field(line, "^FL").Some? then
      var code := ParseUnsigned(Field(line, "^FL").value, U16_MAX);
      if code.Some? then FaultIs(code.value) else NoReading
    else if Field(line, "^SP").Some? then
      var raw := Trim(Field(line, "^SP").value);
      if raw == "0" then SpeakerIs(false) else if raw == "1" then SpeakerIs(true) else NoReading
    else NoReading
  }

  function Or<T>(reported: Option<T>, present: T): T {
    if reported.Some? then reported.value else present
  }

  function Settle(operate: bool): OperatingState {
    if operate then Operate else Standby
  }

  function Apply(r: Reading, a: Amp): Amp {
    match r
    case NoReading => a
    case FirmwareIs(text) => a.(firmware := Some(text))
    case SerialIs(text) => a.(serialNumber := Some(text))
    case OperateIs(on) => a.(operate := on, state := Settle(on))
    case PowerSwrIs(power, swr) => a.(power := Or(power, a.power), swr := Or(swr, a.swr))
    case TemperatureIs(celsius) => a.(temperature := celsius)
    case SupplyIs(volts, amps) => a.(volts := Or(volts, a.volts), amps := Or(amps, a.amps))
    case FaultIs(code) =>
      if code == 0 then a.(fault := None, meffa := "OK", state := Settle(a.operate))
      else a.(state := Fault, fault := Some(code))
    case SpeakerIs(audible) => a.(speaker := Some(audible))
  }

  function ParseResponse(response: string, a: Amp): Amp {
    Apply(ReadingOf(response), a)
  }

  function Readings(lines: seq<string>): seq<Reading> {
    seq(|lines|, i requires 0 <= i < |lines| => ReadingOf(lines[i]))
  }

  /** The amplifier after readings applied in arrival order. */
  function ApplyAll(rs: seq<Reading>, a: Amp): Amp {
    if rs == [] then a else Apply(rs[|rs| - 1], ApplyAll(rs[..|rs| - 1], a))
  }

  function ParseAll(lines: seq<string>, a: Amp): Amp {
    ApplyAll(Readings(lines), a)
  }

  // ---------------------------------------------------------------- reports as the amplifier prints them

  lemma OtherField(line: string, prefix: string, k: nat)
    requires k < |prefix| && k < |line| && line[k] != prefix[k]
    ensures Field(line, prefix).None?
  {
    StartsAt(line, prefix, k);
  }

  lemma {:induction false} WordBeforeSpace(word: string, rest: string)
    requires forall c <- word :: !IsSpace(c)
    requires rest == "" || IsSpace(rest[0])
    ensures FirstWord(word + rest) == word
  {
    if word == "" {
      assert word + rest == rest;
    } else {
      assert (word + rest)[1..] == word[1..] + rest;
      WordBeforeSpace(word[1..], rest);
    }
  }

  predicate IsWord(word: string) {
    word != "" && forall i :: 0 <= i < |word| ==> !IsSpace(word[i])
  }

  lemma WordsSplit(x: string, y: string)
    requires IsWord(x) && IsWord(y)
    ensures TwoWords(x + " " + y) == Some((x, y))
  {
    hide IsSpace;
    SpaceIsSpace();
    var text := x + " " + y;
    assert text[0] == x[0] && TrimStart(text) == text;
    assert text == x + (" " + y);
    WordBeforeSpace(x, " " + y);
    assert text[|x|..] == " " + y;
    assert (" " + y)[1..] == y;
    assert TrimStart(" " + y) == TrimStart(y) == y;
    assert y + "" == y;
    WordBeforeSpace(y, "");
  }

  lemma SpaceIsSpace()
    ensures IsSpace(' ')
  {
  }

  lemma DecimalIsWord(n: nat)
    ensures IsWord(Decimal(n))
  {
    hide Decimal;
    var digits := Decimal(n);
    assert forall i :: 0 <= i < |digits| ==> IsDigit(digits[i]);
  }

  lemma BoundedReads(n: nat, max: nat)
    requires n <= U16_MAX
    ensures Bounded(Decimal(n), max) == if n <= max then Some(n) else None
  {
    hide Decimal;
    ParseDecimal(n, U16_MAX);
  }

  lemma SwrReads(n: nat)
    requires n <= U16_MAX
    ensures SwrTenths(Decimal(n)) == if n == 0 then Some(10) else if 10 <= n <= 990 then Some(n) else None
  {
    hide Decimal;
    ParseDecimal(n, U16_MAX);
  }

  /** A printed fault code is read as that code. */
  lemma FaultReportReads(code: nat)
    requires code <= U16_MAX
    ensures ReadingOf("^FL" + Decimal(code) + ";") == FaultIs(code)
  {
    hide Decimal, Trim;
    ReportLine("^FL", Decimal(code));
    ParseDecimal(code, U16_MAX);
    var line := "^FL" + Decimal(code) + ";";
    OtherField(line, "^RVM", 1);
    OtherField(line, "^SN", 1);
    OtherField(line, "^OS", 1);
    OtherField(line, "^WS", 1);
    OtherField(line, "^TM", 1);
    OtherField(line, "^VI", 1);
  }

  /** Version and serial number reports keep their text, and a speaker report says 0 or 1. */
  lemma TextReportsRead(body: string)
    ensures ReadingOf("^RVM" + body + ";") == if body == "" then NoReading else FirmwareIs(body)
    ensures ReadingOf("^SN" + body + ";") == if body == "" then NoReading else SerialIs(body)
    ensures ReadingOf("^SP" + body + ";") == if Trim(body) == "0" then SpeakerIs(false)
                                             else if Trim(body) == "1" then SpeakerIs(true) else NoReading
  {
    hide ReadingOf;
    VersionReportReads(body);
    SerialReportReads(body);
    SpeakerReportReads(body);
  }

  lemma VersionReportReads(body: string)
    ensures ReadingOf("^RVM" + body + ";") == if body == "" then NoReading else FirmwareIs(body)
  {
    hide Trim, ParseUnsigned, ParseSigned, TwoWords;
    ReportLine("^RVM", body);
  }

  lemma SerialReportReads(body: string)
    ensures ReadingOf("^SN" + body + ";") == if body == "" then NoReading else SerialIs(body)
  {
    hide Trim, ParseUnsigned, ParseSigned, TwoWords;
    ReportLine("^SN", body);
    OtherField("^SN" + body + ";", "^RVM", 1);
  }

  lemma SpeakerReportReads(body: string)
    ensures ReadingOf("^SP" + body + ";") == if Trim(body) == "0" then SpeakerIs(false)
                                             else if Trim(body) == "1" then SpeakerIs(true) else NoReading
  {
    hide Trim, ParseUnsigned, ParseSigned, TwoWords;
    var line := "^SP" + body + ";";
    ReportLine("^SP", body);
    OtherField(line, "^RVM", 1);
    OtherField(line, "^SN", 2);
    OtherField(line, "^OS", 1);
    OtherField(line, "^WS", 1);
    OtherField(line, "^TM", 1);
    OtherField(line, "^VI", 1);
    OtherField(line, "^FL", 1);
  }

  /** Printed power and SWR are each taken exactly when they are possible values, and an SWR
      of 0 is read as 1.0. */
  lemma PowerReportReads(power: nat, swr: nat)
    requires power <= U16_MAX && swr <= U16_MAX
    ensures ReadingOf("^WS" + (Decimal(power) + " " + Decimal(swr)) + ";")
         == PowerSwrIs(if power <= 1000 then Some(power) else None,
                       if swr == 0 then Some(10) else if 10 <= swr <= 990 then Some(swr) else None)
  {
    hide Decimal, Trim, TwoWords, Bounded, SwrTenths, ParseUnsigned, ParseSigned;
    var body := Decimal(power) + " " + Decimal(swr);
    ReportLine("^WS", body);
    DecimalIsWord(power);
    DecimalIsWord(swr);
    WordsSplit(Decimal(power), Decimal(swr));
    BoundedReads(power, 1000);
    SwrReads(swr);
    var line := "^WS" + body + ";";
    OtherField(line, "^RVM", 1);
    OtherField(line, "^SN", 1);
    OtherField(line, "^OS", 1);
  }

  /** Printed volts and amperes, in tenths, are each taken exactly when they are possible. */
  lemma SupplyReportReads(volts: nat, amps: nat)
    requires volts <= U16_MAX && amps <= U16_MAX
    ensures ReadingOf("^VI" + (Decimal(volts) + " " + Decimal(amps)) + ";")
         == SupplyIs(if volts <= 999 then Some(volts) else None, if amps <= 999 then Some(amps) else None)
  {
    hide Decimal, Trim, TwoWords, Bounded, SwrTenths, ParseUnsigned, ParseSigned;
    var body := Decimal(volts) + " " + Decimal(amps);
    ReportLine("^VI", body);
    DecimalIsWord(volts);
    DecimalIsWord(amps);
    WordsSplit(Decimal(volts), Decimal(amps));
    BoundedReads(volts, 999);
    BoundedReads(amps, 999);
    var line := "^VI" + body + ";";
    OtherField(line, "^RVM", 1);
    OtherField(line, "^SN", 1);
    OtherField(line, "^OS", 1);
    OtherField(line, "^WS", 1);
    OtherField(line, "^TM", 1);
  }

  /** A printed temperature, with a minus sign below zero, is taken exactly from -40 to 150. */
  lemma TemperatureReportReads(celsius: int)
    requires -32768 <= celsius <= 32767
    ensures var body := if celsius < 0 then "-" + Decimal(-celsius) else Decimal(celsius);
            ReadingOf("^TM" + body + ";")
            == if -40 <= celsius <= 150 then TemperatureIs(celsius) else NoReading
  {
    hide Trim;
    var body := if celsius < 0 then "-" + Decimal(-celsius) else Decimal(celsius);
    ReportLine("^TM", body);
    SignedReads(celsius);
    var line := "^TM" + body + ";";
    OtherField(line, "^RVM", 1);
    OtherField(line, "^SN", 1);
    OtherField(line, "^OS", 1);
    OtherField(line, "^WS", 1);
  }

  lemma SignedReads(n: int)
    requires -32768 <= n <= 32767
    ensures ParseSigned(if n < 0 then "-" + Decimal(-n) else Decimal(n), -32768, 32767) == Some(n)
  {
    if n < 0 {
      assert ("-" + Decimal(-n))[..1] == "-" && ("-" + Decimal(-n))[1..] == Decimal(-n);
    } else {
      assert IsDigit(Decimal(n)[0]);
      StartsAt(Decimal(n), "-", 0);
      ParseDecimal(n, 32767);
    }
  }

  // ---------------------------------------------------------------- the fold, field by field

  /** The last value that a run of readings gives to one field. */
  function Latest<T>(rs: seq<Reading>, about: Reading -> Option<T>, initial: T): T {
    if rs == [] then initial
    else if about(rs[|rs| - 1]).Some? then about(rs[|rs| - 1]).value
    else Latest(rs[..|rs| - 1], about, initial)
  }

  function OperateIn(r: Reading): Option<bool> { if r.OperateIs? then Some(r.on) else None }
  function PowerIn(r: Reading): Option<nat> { if r.PowerSwrIs? then r.power else None }
  function SwrIn(r: Reading): Option<nat> { if r.PowerSwrIs? then r.swr else None }
  function TemperatureIn(r: Reading): Option<int> { if r.TemperatureIs? then Some(r.celsius) else None }
  function VoltsIn(r: Reading): Option<nat> { if r.SupplyIs? then r.volts else None }
  function AmpsIn(r: Reading): Option<nat> { if r.SupplyIs? then r.amps else None }
  function SpeakerIn(r: Reading): Option<Option<bool>> { if r.SpeakerIs? then Some(Some(r.audible)) else None }
  function FirmwareIn(r: Reading): Option<Option<string>> { if r.FirmwareIs? then Some(Some(r.text)) else None }
  function SerialIn(r: Reading): Option<Option<string>> { if r.SerialIs? then Some(Some(r.text)) else None }
  function FaultIn(r: Reading): Option<Option<nat>> {
    if r.FaultIs? then Some(if r.code == 0 then None else Some(r.code)) else None
  }
  function MeffaIn(r: Reading): Option<string> { if r == FaultIs(0) then Some("OK") else None }

  /** The operating state by the last line that has a say in it. */
  function StateAfter(rs: seq<Reading>, a: Amp): OperatingState {
    if rs == [] then a.state
    else
      var init, last := rs[..|rs| - 1], rs[|rs| - 1];
      match last
      case OperateIs(on) => Settle(on)
      case FaultIs(code) => if code == 0 then Settle(Latest(init, OperateIn, a.operate)) else Fault
      case _ => StateAfter(init, a)
  }

  /** Folding the parser over the lines in arrival order leaves each field at the last value
      reported for it. */
  lemma {:induction false} FoldKeepsLatest(rs: seq<Reading>, a: Amp)
    ensures ApplyAll(rs, a) == Amp(
      Latest(rs, FirmwareIn, a.firmware), Latest(rs, SerialIn, a.serialNumber),
      Latest(rs, OperateIn, a.operate), StateAfter(rs, a), Latest(rs, FaultIn, a.fault),
      Latest(rs, MeffaIn, a.meffa), Latest(rs, PowerIn, a.power), Latest(rs, SwrIn, a.swr),
      Latest(rs, TemperatureIn, a.temperature), Latest(rs, VoltsIn, a.volts),
      Latest(rs, AmpsIn, a.amps), Latest(rs, SpeakerIn, a.speaker))
  {
    if rs != [] {
      FoldKeepsLatest(rs[..|rs| - 1], a);
    }
  }

  lemma {:induction false} ApplyAllConcat(p: seq<Reading>, q: seq<Reading>, a: Amp)
    ensures ApplyAll(p + q, a) == ApplyAll(q, ApplyAll(p, a))
  {
    if q == [] {
      assert p + q == p;
    } else {
      assert (p + q)[..|p + q| - 1] == p + q[..|q| - 1];
      ApplyAllConcat(p, q[..|q| - 1], a);
    }
  }

  /** When the last line read is a valid fault report, the amplifier is faulted exactly when
      a fault is stored, and otherwise in the state its operate flag says. */
  lemma FaultReportSettles(lines: seq<string>, reply: string, a: Amp)
    requires ReadingOf(reply).FaultIs?
    ensures var end := ParseAll(lines + [reply], a);
            && (end.state == Fault <==> end.fault.Some?)
            && (end.fault.None? ==> end.state == Settle(end.operate))
  {
    assert Readings(lines + [reply])[..|lines|] == Readings(lines);
  }

  // ---------------------------------------------------------------- state changes

  /** What every run keeps: the amplifier is never seen transmitting, and it is in operate or
      in a fault only with the flag or the fault that says so. */
  predicate Plausible(a: Amp) {
    && a.state in {Standby, Operate, Fault, PowerUp}
    && (a.state == Operate ==> a.operate)
    && (a.state == Fault ==> a.fault.Some?)
    && (a.state == PowerUp ==> a.fault.None?)
  }

  /** What a run keeps that no strict startup disturbs: outside a fault the state agrees with
      the operate flag in both directions. */
  predicate Consistent(a: Amp) {
    Plausible(a) && a.state != PowerUp && (a.state == Standby ==> !a.operate)
  }

  /** The end of a strict startup puts the amplifier in standby without a look at the flag. */
  predicate Awry(a: Amp) {
    a.state == Standby && a.operate
  }

  const TELEMETRY: seq<string> := ["^OS", "^WS", "^TM", "^VI", "^FL"]

  predicate IsTelemetry(line: string) {
    exists prefix <- TELEMETRY :: StartsWith(line, prefix)
  }

  datatype Change = Change(before: OperatingState, after: OperatingState)

  /** Is a parsed line written down as a state change? */
  predicate Recorded(response: string, before: Amp, after: Amp) {
    IsTelemetry(Trim(response)) && Differs(before, after)
  }

  predicate Differs(a: Amp, b: Amp) {
    a.state != b.state || a.operate != b.operate
  }

  lemma StateReadingIsTelemetry(response: string)
    requires ReadingOf(response).OperateIs? || ReadingOf(response).FaultIs?
    ensures IsTelemetry(Trim(response))
  {
    var line := Trim(response);
    if ReadingOf(response).OperateIs? {
      assert Field(line, "^OS").Some?;
      FieldShape(line, "^OS");
      assert TELEMETRY[0] == "^OS";
    } else {
      assert Field(line, "^FL").Some?;
      FieldShape(line, "^FL");
      assert TELEMETRY[4] == "^FL";
    }
  }

  /** The prefix of a line that changes the state or the flag is always one of those written
      down. */
  lemma RecordedIffDiffers(response: string, a: Amp)
    ensures Recorded(response, a, ParseResponse(response, a)) <==> Differs(a, ParseResponse(response, a))
  {
    hide ReadingOf, IsTelemetry;
    if ReadingOf(response).OperateIs? || ReadingOf(response).FaultIs? {
      StateReadingIsTelemetry(response);
    }
  }

  /** A line is written down exactly when it changes the operating state, or reports standby
      of an amplifier in standby whose flag says operate; only there is the record no change.
      Every line keeps what runs keep. */
  lemma RecordedIffChanged(response: string, a: Amp)
    requires Plausible(a)
    ensures var b := ParseResponse(response, a);
            && Plausible(b) && (Consistent(a) ==> Consistent(b))
            && (Recorded(response, a, b) <==>
                  b.state != a.state || (Awry(a) && ReadingOf(response) == OperateIs(false)))
            && (Awry(b) <==> Awry(a) && !Recorded(response, a, b))
  {
    hide ReadingOf, Recorded;
    RecordedIffDiffers(response, a);
  }

  /** What a fold of readings writes down, in order. */
  function ChangePoints(rs: seq<Reading>, a: Amp): seq<Change> {
    if rs == [] then []
    else
      var init := rs[..|rs| - 1];
      var before, after := ApplyAll(init, a), ApplyAll(rs, a);
      ChangePoints(init, a) + (if Differs(before, after) then [Change(before.state, after.state)] else [])
  }

  /** Each change starts in the state where the one before it ended. */
  predicate Linked(changes: seq<Change>, from: OperatingState, to: OperatingState) {
    if changes == [] then from == to
    else
      var last := changes[|changes| - 1];
      last.after == to && Linked(changes[..|changes| - 1], from, last.before)
  }

  /** How many records are of no change. */
  function Empties(changes: seq<Change>): nat {
    if changes == [] then 0
    else
      var last := changes[|changes| - 1];
      Empties(changes[..|changes| - 1]) + (if last.before == last.after then 1 else 0)
  }

  lemma {:induction false} ChangePointsLink(rs: seq<Reading>, a: Amp)
    ensures Linked(ChangePoints(rs, a), a.state, ApplyAll(rs, a).state)
  {
    if rs != [] {
      ChangePointsLink(rs[..|rs| - 1], a);
      var before := ChangePoints(rs[..|rs| - 1], a);
      var all := ChangePoints(rs, a);
      assert all != before ==> all[..|all| - 1] == before;
    }
  }

  /** The first reading with a say in the operating state. */
  function FirstSay(rs: seq<Reading>): Option<Reading> {
    if rs == [] then None
    else
      var before, last := FirstSay(rs[..|rs| - 1]), rs[|rs| - 1];
      if before.Some? then before
      else if last.OperateIs? || last.FaultIs? then Some(last) else None
  }

  lemma {:induction false} AwryUntilSay(rs: seq<Reading>, a: Amp)
    requires Plausible(a)
    ensures Plausible(ApplyAll(rs, a))
    ensures Awry(ApplyAll(rs, a)) <==> Awry(a) && FirstSay(rs).None?
    ensures FirstSay(rs).Some? ==> FirstSay(rs).value.OperateIs? || FirstSay(rs).value.FaultIs?
  {
    if rs != [] {
      AwryUntilSay(rs[..|rs| - 1], a);
    }
  }

  /** Exactly one record of a fold is of no change if the amplifier was left awry and the
      first line with a say reports standby; otherwise every record is a real change. */
  lemma {:induction false} EmptyRecordsExactly(rs: seq<Reading>, a: Amp)
    requires Plausible(a)
    ensures Empties(ChangePoints(rs, a)) == if Awry(a) && FirstSay(rs) == Some(OperateIs(false)) then 1 else 0
  {
    hide Apply, Plausible, Differs, Awry, Empties;
    NoEmpties();
    if rs != [] {
      var init, last := rs[..|rs| - 1], rs[|rs| - 1];
      EmptyRecordsExactly(init, a);
      AwryUntilSay(init, a);
      OneEmptyRecord(last, ApplyAll(init, a));
      assert ChangePoints(init, a) + [] == ChangePoints(init, a);
      EmptiesGrow(ChangePoints(init, a), Change(ApplyAll(init, a).state, ApplyAll(rs, a).state));
    }
  }

  lemma NoEmpties()
    ensures Empties([]) == 0
  {
  }

  lemma EmptiesGrow(changes: seq<Change>, change: Change)
    ensures Empties(changes + [change]) == Empties(changes) + (if change.before == change.after then 1 else 0)
  {
    assert (changes + [change])[..|changes|] == changes;
  }

  lemma OneEmptyRecord(r: Reading, a: Amp)
    requires Plausible(a)
    ensures Differs(a, Apply(r, a)) && a.state == Apply(r, a).state <==> Awry(a) && r == OperateIs(false)
    ensures Differs(a, Apply(r, a)) ==> r.OperateIs? || r.FaultIs?
  {
  }

  lemma {:induction false} ChangePointsConcat(p: seq<Reading>, q: seq<Reading>, a: Amp)
    ensures ChangePoints(p + q, a) == ChangePoints(p, a) + ChangePoints(q, ApplyAll(p, a))
  {
    if q == [] {
      assert p + q == p;
    } else {
      assert (p + q)[..|p + q| - 1] == p + q[..|q| - 1];
      ChangePointsConcat(p, q[..|q| - 1], a);
      ApplyAllConcat(p, q, a);
      ApplyAllConcat(p, q[..|q| - 1], a);
    }
  }

  /** Readings that have no say in the operating state. */
  predicate Quiet(rs: seq<Reading>) {
    forall r <- rs :: !r.OperateIs? && !r.FaultIs?
  }

  lemma {:induction false} QuietKeepsState(rs: seq<Reading>, a: Amp)
    requires Quiet(rs)
    ensures !Differs(a, ApplyAll(rs, a)) && ChangePoints(rs, a) == []
  {
    if rs != [] {
      QuietKeepsState(rs[..|rs| - 1], a);
    }
  }

  /** One poll of an amplifier: the operate report, other telemetry, then the fault report. */
  function PollReadings(on: bool, rest: seq<Reading>, code: nat): seq<Reading> {
    [OperateIs(on)] + rest + [FaultIs(code)]
  }

  lemma OneReading(r: Reading, a: Amp)
    ensures ApplyAll([r], a) == Apply(r, a)
    ensures ChangePoints([r], a)
            == if Differs(a, Apply(r, a)) then [Change(a.state, Apply(r, a).state)] else []
  {
    assert [r][..0] == [];
  }

  lemma NoReadings(a: Amp)
    ensures ApplyAll([], a) == a && ChangePoints([], a) == []
  {
  }

  /** The state that a poll reports. */
  predicate ReportedBy(a: Amp, on: bool, code: nat) {
    a.operate == on && a.state == (if code == 0 then Settle(on) else Fault)
  }

  /** What a poll leaves, and what it writes down if it reports what was left before. */
  lemma PollWritesDown(a: Amp, on: bool, rest: seq<Reading>, code: nat)
    requires Quiet(rest)
    ensures var poll := PollReadings(on, rest, code);
            && ReportedBy(ApplyAll(poll, a), on, code)
            && (ReportedBy(a, on, code) ==>
                  ChangePoints(poll, a) == if code == 0 then []
                                           else [Change(Fault, Settle(on)), Change(Settle(on), Fault)])
  {
    var first := ApplyAll([OperateIs(on)], a);
    OneReading(OperateIs(on), a);
    ChangePointsConcat([OperateIs(on)], rest, a);
    ApplyAllConcat([OperateIs(on)], rest, a);
    QuietKeepsState(rest, first);
    var middle := ApplyAll([OperateIs(on)] + rest, a);
    OneReading(FaultIs(code), middle);
    ChangePointsConcat([OperateIs(on)] + rest, [FaultIs(code)], a);
    ApplyAllConcat([OperateIs(on)] + rest, [FaultIs(code)], a);
  }

  function Repeatedly(poll: seq<Reading>, n: nat): seq<Reading> {
    if n == 0 then [] else Repeatedly(poll, n - 1) + poll
  }

  /** After one poll of any amplifier, n more polls that report the same thing write down
      nothing if there is no fault; while a fault stands each writes down two changes, out of
      the fault and back into it. */
  lemma {:induction false} RepeatedPollsWriteDown(a: Amp, on: bool, rest: seq<Reading>, code: nat, n: nat)
    requires Quiet(rest)
    ensures var poll := PollReadings(on, rest, code);
            var first := ApplyAll(poll, a);
            && ReportedBy(ApplyAll(Repeatedly(poll, n), first), on, code)
            && |ChangePoints(Repeatedly(poll, n), first)| == if code == 0 then 0 else 2 * n
  {
    hide PollReadings, ApplyAll, ChangePoints, Apply, Quiet;
    var poll := PollReadings(on, rest, code);
    var first := ApplyAll(poll, a);
    NoReadings(first);
    PollWritesDown(a, on, rest, code);
    if n > 0 {
      var before := Repeatedly(poll, n - 1);
      RepeatedPollsWriteDown(a, on, rest, code, n - 1);
      PollWritesDown(ApplyAll(before, first), on, rest, code);
      ApplyAllConcat(before, poll, first);
      ChangePointsConcat(before, poll, first);
    }
  }

  // ---------------------------------------------------------------- verification of a control

  /** Does a status reply verify a control that has no acknowledgement? The reply is read
      into an amplifier in its initial state. */
  predicate Verifies(reply: string, operate: bool) {
    var amp := ParseResponse(reply, INITIAL);
    amp.operate == operate && amp.state == Settle(operate)
  }

  lemma OperateReading(reply: string)
    requires Trimmed(reply) && Answers(OperateStatus, reply)
    ensures ReadingOf(reply) == (if reply == "^OS1;" then OperateIs(true)
                                 else if reply == "^OS0;" then OperateIs(false) else NoReading)
  {
    TrimOfTrimmed(reply);
    StartsAt(reply, "^OS", 1);
    StartsAt(reply, "^RVM", 1);
    StartsAt(reply, "^SN", 1);
    var raw := Field(reply, "^OS").value;
    assert reply == "^OS" + raw + ";";
    if raw == "0" { assert reply == "^OS0;"; }
    if raw == "1" { assert reply == "^OS1;"; }
    assert "^OS0;"[3..4] == "0" && "^OS1;"[3..4] == "1";
  }

  /** A control command reads as a report of the very state it asks for. */
  lemma ControlWiresReadBack()
    ensures ReadingOf(Wire(SetOperate)) == OperateIs(true) && ReadingOf(Wire(SetStandby)) == OperateIs(false)
  {
    hide ReadingOf;
    assert "^OS1;"[..3] == "^OS" && "^OS0;"[..3] == "^OS";
    OperateReading("^OS1;");
    OperateReading("^OS0;");
  }

  /** Operate is verified only by the one right reply; standby is verified by every reply to
      the status query except that one. */
  lemma VerifiesExactly(reply: string)
    requires Trimmed(reply) && Answers(OperateStatus, reply)
    ensures Verifies(reply, true) <==> reply == "^OS1;"
    ensures Verifies(reply, false) <==> reply != "^OS1;"
  {
    hide ReadingOf, Answers;
    OperateReading(reply);
  }

  /** A line that merely echoes the query verifies standby, and says nothing about the
      amplifier. */
  lemma EchoVerifiesStandby(a: Amp)
    ensures Answers(OperateStatus, Wire(OperateStatus)) && Verifies(Wire(OperateStatus), false)
    ensures ParseResponse(Wire(OperateStatus), a) == a
  {
    assert Wire(OperateStatus)[..3] == "^OS";
    assert Answers(OperateStatus, Wire(OperateStatus));
    VerifiesExactly(Wire(OperateStatus));
    OperateReading(Wire(OperateStatus));
  }
}
