/** The KAT500 tuner's serial language: commands, the wires that carry them, the lines that
    answer them, and what each line says about the tuner. */
module KatLines {
  import opened Text
  import opened SafetyGate

  // ---------------------------------------------------------------- commands

  datatype Command =
    | NullWake | Firmware | SerialNumber
    | AntennaStatus | BypassStatus | Mode | TunePoll | FaultStatus | Vswr | ForwardAdc
    | Autotune | FrequencyContext | BypassOn | BypassOff | AntennaSelect(antenna: nat) | ManualTune

  function Wire(c: Command): string {
    match c
    case NullWake => ";"
    case Firmware => "RV;"
    case SerialNumber => "SN;"
    case AntennaStatus => "AN;"
    case BypassStatus => "BYP;"
    case Mode => "MD;"
    case TunePoll => "TP;"
    case FaultStatus => "FLT;"
    case Vswr => "VSWR;"
    case ForwardAdc => "VFWD;"
    case Autotune => "T;"
    case FrequencyContext => "F <kHz>;"
    case BypassOn => "BYPB;"
    case BypassOff => "BYPN;"
    case AntennaSelect(n) =>
      if n == 1 then "AN1;" else if n == 2 then "AN2;" else if n == 3 then "AN3;" else "AN?;"
    case ManualTune => "UNVERIFIED_MANUAL_TUNE;"
  }

  function SafetyOf(c: Command): Safety {
    match c
    case Autotune => RfRisk
    case FrequencyContext => StateChangeSafe
    case BypassOn => StateChangeSafe
    case BypassOff => StateChangeSafe
    case AntennaSelect(_) => StateChangeSafe
    case ManualTune => DestructiveOrUnknown
    case _ => ReadOnly
  }

  function ExpectedPrefixes(c: Command): seq<string> {
    match c
    case NullWake => [";"]
    case Firmware => ["RV"]
    case SerialNumber => ["SN"]
    case AntennaStatus => ["AN"]
    case AntennaSelect(_) => ["AN"]
    case BypassStatus => ["BYP"]
    case BypassOn => ["BYP"]
    case BypassOff => ["BYP"]
    case Mode => ["MD"]
    case TunePoll => ["TP"]
    case FaultStatus => ["FLT"]
    case Vswr => ["VSWR "]
    case ForwardAdc => ["VFWD "]
    case Autotune => ["T", "FT"]
    case FrequencyContext => ["F "]
    case ManualTune => []
  }

  const POLL: seq<Command> := [AntennaStatus, BypassStatus, Mode, TunePoll, FaultStatus, Vswr, ForwardAdc]

  predicate Answers(c: Command, line: string) {
    || line == Wire(c)
    || exists prefix <- ExpectedPrefixes(c) :: StartsWith(line, prefix) && EndsWith(line, ';')
  }

  const UNSOLICITED_PREFIXES: seq<string> := [
    "F", "VRFL", "ATTN", "AMPI", "BN", "VSWRB", "VSWR ", "VFWD ", "TP", "FLT", "AN", "BYP",
    "MD", "RV", "SN"
  ]

  predicate IsUnsolicited(line: string) {
    exists prefix <- UNSOLICITED_PREFIXES :: StartsWith(line, prefix) && EndsWith(line, ';')
  }

  predicate ReportOf(line: string, prefix: string) {
    StartsWith(line, prefix) && EndsWith(line, ';')
  }

  /** How the tuner's reports about most commands begin. */
  function ReportHead(c: Command): Option<string> {
    match c
    case NullWake => Some(";")
    case AntennaStatus => Some("AN")
    case AntennaSelect(_) => Some("AN")
    case BypassStatus => Some("BYP")
    case BypassOn => Some("BYP")
    case BypassOff => Some("BYP")
    case Mode => Some("MD")
    case TunePoll => Some("TP")
    case FaultStatus => Some("FLT")
    case Firmware => Some("RV")
    case SerialNumber => Some("SN")
    case _ => None
  }

  /** Which lines answer each command: its own wire, and lines that end in a semicolon and begin
      as the tuner's reports of it do. */
  lemma AnswersMean(c: Command, line: string)
    ensures ReportHead(c).Some? ==> (Answers(c, line) <==> ReportOf(line, ReportHead(c).value))
    ensures Answers(Autotune, line) <==> ReportOf(line, "T") || ReportOf(line, "FT")
    ensures Answers(Vswr, line) <==> line == "VSWR;" || ReportOf(line, "VSWR ")
    ensures Answers(ForwardAdc, line) <==> line == "VFWD;" || ReportOf(line, "VFWD ")
  {
    hide StartsWith, EndsWith, Answers, Wire, ExpectedPrefixes, ReportHead;
    if ReportHead(c).Some? {
      HeadIsPrefix(c);
      OnePrefix(c, line, ReportHead(c).value);
    }
    MeterPrefixes();
    OnePrefix(Vswr, line, "VSWR ");
    OnePrefix(ForwardAdc, line, "VFWD ");
    AutotuneAnswers(line);
  }

  lemma HeadIsPrefix(c: Command)
    requires ReportHead(c).Some?
    ensures ExpectedPrefixes(c) == [ReportHead(c).value] && ReportOf(Wire(c), ReportHead(c).value)
  {
  }

  lemma OnePrefix(c: Command, line: string, prefix: string)
    requires ExpectedPrefixes(c) == [prefix]
    ensures Answers(c, line) <==> line == Wire(c) || ReportOf(line, prefix)
  {
    hide StartsWith, EndsWith, Wire, ExpectedPrefixes;
  }

  lemma MeterPrefixes()
    ensures ExpectedPrefixes(Vswr) == ["VSWR "] && Wire(Vswr) == "VSWR;"
    ensures ExpectedPrefixes(ForwardAdc) == ["VFWD "] && Wire(ForwardAdc) == "VFWD;"
  {
  }

  lemma AutotuneAnswers(line: string)
    ensures Answers(Autotune, line) <==> ReportOf(line, "T") || ReportOf(line, "FT")
  {
    var prefixes := ExpectedPrefixes(Autotune);
    assert prefixes == ["T", "FT"] && prefixes[0] == "T" && prefixes[1] == "FT";
    assert ReportOf("T;", "T");
  }

  /** The lines set aside as band reports while waiting for the echo of a frequency. */
  lemma BandReportsAreNoted(line: string)
    ensures IsUnsolicited(line) && StartsWith(line, "BN") <==> ReportOf(line, "BN")
  {
    assert UNSOLICITED_PREFIXES[4] == "BN";
  }

  // ---------------------------------------------------------------- frequency context

  const MIN_HZ: nat := 1_800_000
  const MAX_HZ: nat := 54_000_000

  function KhzOf(hz: nat): nat {
    (hz + 500) / 1000
  }

  predicate InRange(hz: nat) {
    MIN_HZ <= hz <= MAX_HZ
  }

  function FrequencyWire(hz: Option<nat>): Option<string> {
    if hz.Some? && InRange(hz.value) then Some("F " + Decimal(KhzOf(hz.value)) + ";") else None
  }

  function TrimSemicolons(s: string): string {
    if EndsWith(s, ';') then TrimSemicolons(s[..|s| - 1]) else s
  }

  /** The frequency a line names, whether it is a request or the tuner's echo of one. */
  function RequestedKhz(line: string): Option<nat> {
    var trimmed := Trim(line);
    if StartsWith(trimmed, "F")
    then ParseUnsigned(Trim(TrimSemicolons(Trim(trimmed[1..]))), U64_MAX)
    else None
  }

  /** A frequency wire reads back as the frequency rounded to the nearest kHz. */
  lemma FrequencyWireReadsBack(hz: nat)
    requires InRange(hz)
    ensures FrequencyWire(Some(hz)).Some?
    ensures RequestedKhz(FrequencyWire(Some(hz)).value) == Some(KhzOf(hz))
    ensures -500 < 1000 * KhzOf(hz) - hz <= 500
  {
    var digits := Decimal(KhzOf(hz));
    var wire := FrequencyWire(Some(hz)).value;
    assert IsDigit(digits[0]) && IsDigit(digits[|digits| - 1]);
    assert wire[0] == 'F' && wire[|wire| - 1] == ';';
    TrimOfTrimmed(wire);
    var core := digits + ";";
    assert wire[1..] == " " + core + "";
    assert core[|core| - 1] == ';' && core[0] == digits[0];
    TrimPadded(" ", core, "");
    assert core[..|core| - 1] == digits;
    assert TrimSemicolons(core) == TrimSemicolons(digits) == digits;
    TrimOfTrimmed(digits);
    ParseDecimal(KhzOf(hz), U64_MAX);
  }

  /** A frequency has a wire exactly from 1.8 to 54 MHz. */
  lemma FrequenciesWithWires(hz: Option<nat>)
    ensures FrequencyWire(hz).Some? <==> hz.Some? && 1_800_000 <= hz.value <= 54_000_000
  {
  }

  /** Two frequencies share a wire exactly when they round to the same kHz. */
  lemma WiresShareKhz(a: nat, b: nat)
    requires InRange(a) && InRange(b)
    ensures FrequencyWire(Some(a)) == FrequencyWire(Some(b)) <==> KhzOf(a) == KhzOf(b)
  {
    FrequencyWireReadsBack(a);
    FrequencyWireReadsBack(b);
  }

  // ---------------------------------------------------------------- what a line says

  datatype TunerState = TunerState(
    firmware: Option<string>, serialNumber: Option<string>, antenna: Option<nat>,
    bypass: bool, operate: bool, tuning: bool, fault: Option<nat>, forwardAdc: nat,
    mode: Option<string>, tunePower: Option<string>, atuFrequencyKhz: Option<string>,
    bandNumber: Option<string>)

  datatype Reading =
    | NoReading
    | FirmwareIs(text: string) | SerialIs(text: string)
    | AntennaIs(antenna: nat)
    | BypassIs(on: bool)
    | ModeBypass | ModeOperate(auto: bool)
    | TuningIs(on: bool)
    | FaultIs(code: Option<nat>)
    | ForwardIs(adc: nat)
    | FrequencyIs(text: string) | BandIs(text: string)

  /** What one line reports; a line with an impossible value reports nothing. */
  function ReadingOf(response: string): Reading {
    var line := Trim(response);
    if Field(line, "RV").Some? then
      var raw := Field(line, "RV").value;
      if raw != "" then FirmwareIs(raw) else NoReading
    else if Field(line, "SN").Some? then
      var serial := Trim(Field(line, "SN").value);
      if serial != "" then SerialIs(serial) else NoReading
    else if Field(line, "AN").Some? then
      var n := ParseUnsigned(Field(line, "AN").value, U8_MAX);
      if n.Some? && n.value <= 3 then AntennaIs(n.value) else NoReading
    else if line == "BYPB;" then BypassIs(true)
    else if line == "BYPN;" then BypassIs(false)
    else if Field(line, "MD").Some? then
      var raw := Field(line, "MD").value;
      if raw == "B" then ModeBypass else if raw == "M" || raw == "A" then ModeOperate(raw == "A") else NoReading
    else if Field(line, "TP").Some? then
      var raw := Field(line, "TP").value;
      if raw == "0" then TuningIs(false) else if raw == "1" then TuningIs(true) else NoReading
    else if Field(line, "FLT").Some? then
      var code := ParseUnsigned(Field(line, "FLT").value, U16_MAX);
      if code == Some(0) then FaultIs(None) else if code.Some? then FaultIs(code) else NoReading
    else if Field(line, "VSWR ").Some? then NoReading
    else if Field(line, "VFWD ").Some? then
      var adc := ParseUnsigned(Field(line, "VFWD ").value, U16_MAX);
      if adc.Some? && adc.value <= 4095 then ForwardIs(adc.value) else NoReading
    else if Field(line, "F ").Some? then
      var frequency := Trim(Field(line, "F ").value);
      if ParseUnsigned(frequency, U32_MAX).Some? then FrequencyIs(frequency) else NoReading
    else if Field(line, "BN").Some? then
      var raw := Field(line, "BN").value;
      var band := ParseUnsigned(raw, U8_MAX);
      if band.Some? && band.value <= 10 then BandIs(raw) else NoReading
    else NoReading
  }

  function Apply(r: Reading, t: TunerState): TunerState {
    match r
    case NoReading => t
    case FirmwareIs(text) => t.(firmware := Some(text))
    case SerialIs(text) => t.(serialNumber := Some(text))
    case AntennaIs(n) => t.(antenna := Some(n))
    case BypassIs(on) => t.(bypass := on)
    case ModeBypass => t.(bypass := true, operate := false, mode := Some("bypass"))
    case ModeOperate(auto) => t.(operate := true, mode := Some(if auto then "auto" else "manual"))
    case TuningIs(on) => t.(tuning := on, tunePower := Some(if on then "1" else "0"))
    case FaultIs(code) => t.(fault := code)
    case ForwardIs(adc) => t.(forwardAdc := adc)
    case FrequencyIs(text) => t.(atuFrequencyKhz := Some(text))
    case BandIs(text) => t.(bandNumber := Some(text))
  }

  function ParseResponse(response: string, t: TunerState): TunerState {
    Apply(ReadingOf(response), t)
  }

  function Readings(lines: seq<string>): seq<Reading> {
    seq(|lines|, i requires 0 <= i < |lines| => ReadingOf(lines[i]))
  }

  /** The tuner after readings applied one after another. */
  function ApplyAll(rs: seq<Reading>, t: TunerState): TunerState {
    if rs == [] then t else Apply(rs[|rs| - 1], ApplyAll(rs[..|rs| - 1], t))
  }

  function ParseAll(lines: seq<string>, t: TunerState): TunerState {
    ApplyAll(Readings(lines), t)
  }

  /** Applies lines one after another. */
  method ParseLines(lines: seq<string>, t: TunerState) returns (r: TunerState)
    ensures r == ParseAll(lines, t)
  {
    hide ReadingOf, Apply;
    r := t;
    for i := 0 to |lines|
      invariant r == ParseAll(lines[..i], t)
    {
      assert Readings(lines[..i + 1])[..i] == Readings(lines[..i]);
      r := ParseResponse(lines[i], r);
    }
    assert lines[..|lines|] == lines;
  }

  /** The prefix behind each kind of reading. */
  lemma ReadingHasField(response: string)
    ensures var line, r := Trim(response), ReadingOf(response);
            && (r.FirmwareIs? ==> Field(line, "RV").Some?)
            && (r.SerialIs? ==> Field(line, "SN").Some?)
            && (r.AntennaIs? ==> Field(line, "AN").Some?)
            && (r.BypassIs? ==> line == "BYPB;" || line == "BYPN;")
            && (r.ModeBypass? || r.ModeOperate? ==> Field(line, "MD").Some?)
            && (r.TuningIs? ==> Field(line, "TP").Some?)
            && (r.FaultIs? ==> Field(line, "FLT").Some?)
            && (r.ForwardIs? ==> Field(line, "VFWD ").Some?)
  {
  }

  /** A line that is not about tuning leaves the tuning flag alone. */
  lemma OnlyTuningLinesTune(line: string, t: TunerState)
    requires Trimmed(line) && !(StartsWith(line, "TP") && EndsWith(line, ';'))
    ensures ParseResponse(line, t).tuning == t.tuning
  {
    TrimOfTrimmed(line);
    ReadingHasField(line);
    if ReadingOf(line).TuningIs? {
      FieldShape(line, "TP");
    }
  }

  lemma HeadOf(line: string, prefix: string)
    requires StartsWith(line, prefix) && |prefix| >= 2
    ensures line[0] == prefix[0] && line[1] == prefix[1]
  {
    assert line[..|prefix|][0] == line[0] && line[..|prefix|][1] == line[1];
  }

  lemma NotField(line: string, prefix: string)
    requires |prefix| >= 2 && |line| >= 2 && (line[0] != prefix[0] || line[1] != prefix[1])
    ensures Field(line, prefix).None?
  {
    if StartsWith(line, prefix) { HeadOf(line, prefix); }
  }

  /** A printed antenna is taken exactly when the tuner has it. */
  lemma AntennaReportReads(n: nat)
    requires n <= U8_MAX
    ensures ReadingOf("AN" + Decimal(n) + ";") == if n <= 3 then AntennaIs(n) else NoReading
  {
    hide Decimal, Trim;
    var line := "AN" + Decimal(n) + ";";
    ReportLine("AN", Decimal(n));
    ParseDecimal(n, U8_MAX);
    NotField(line, "RV");
    NotField(line, "SN");
  }

  /** A printed fault code is read as that fault, and 0 as none. */
  lemma FaultReportReads(code: nat)
    requires code <= U16_MAX
    ensures ReadingOf("FLT" + Decimal(code) + ";") == FaultIs(if code == 0 then None else Some(code))
  {
    hide Decimal, Trim;
    var line := "FLT" + Decimal(code) + ";";
    ReportLine("FLT", Decimal(code));
    ParseDecimal(code, U16_MAX);
    NotField(line, "RV");
    NotField(line, "SN");
    NotField(line, "AN");
    NotField(line, "MD");
    NotField(line, "TP");
  }

  /** A printed forward reading is taken exactly when a 12-bit converter can give it. */
  lemma ForwardReportReads(adc: nat)
    requires adc <= U16_MAX
    ensures ReadingOf("VFWD " + Decimal(adc) + ";") == if adc <= 4095 then ForwardIs(adc) else NoReading
  {
    hide Decimal, Trim;
    var line := "VFWD " + Decimal(adc) + ";";
    ReportLine("VFWD ", Decimal(adc));
    ParseDecimal(adc, U16_MAX);
    NotField(line, "RV");
    NotField(line, "SN");
    NotField(line, "AN");
    NotField(line, "MD");
    NotField(line, "TP");
    NotField(line, "FLT");
    NotField(line, "VSWR ");
  }

  /** The mode and tuning reports: the letter or digit decides, and any other body says
      nothing. */
  lemma ModeAndTuningReportsRead(body: string)
    ensures ReadingOf("MD" + body + ";") == if body == "B" then ModeBypass else if body == "M" then ModeOperate(false)
                                            else if body == "A" then ModeOperate(true) else NoReading
    ensures ReadingOf("TP" + body + ";") == if body == "0" then TuningIs(false) else if body == "1" then TuningIs(true)
                                            else NoReading
  {
    hide Trim;
    var mode, tuning := "MD" + body + ";", "TP" + body + ";";
    ReportLine("MD", body);
    ReportLine("TP", body);
    NotField(mode, "RV");
    NotField(mode, "SN");
    NotField(mode, "AN");
    NotField(tuning, "RV");
    NotField(tuning, "SN");
    NotField(tuning, "AN");
    NotField(tuning, "MD");
  }

  /** Version, serial number, frequency and band reports: the text is kept, where it is possible;
      the white space around a serial number or a frequency is not part of it. */
  lemma TextReportsRead(body: string)
    ensures ReadingOf("RV" + body + ";") == if body == "" then NoReading else FirmwareIs(body)
    ensures ReadingOf("SN" + body + ";") == if Trim(body) == "" then NoReading else SerialIs(Trim(body))
    ensures ReadingOf("F " + body + ";")
         == if ParseUnsigned(Trim(body), U32_MAX).Some? then FrequencyIs(Trim(body)) else NoReading
    ensures ReadingOf("BN" + body + ";") == if exists n | 0 <= n <= 10 :: ParseUnsigned(body, U8_MAX) == Some(n)
                                            then BandIs(body) else NoReading
  {
    hide ReadingOf;
    VersionReportReads(body);
    SerialReportReads(body);
    FrequencyReportReads(body);
    BandReportReads(body);
  }

  lemma VersionReportReads(body: string)
    ensures ReadingOf("RV" + body + ";") == if body == "" then NoReading else FirmwareIs(body)
  {
    hide Trim, ParseUnsigned;
    ReportLine("RV", body);
  }

  lemma SerialReportReads(body: string)
    ensures ReadingOf("SN" + body + ";") == if Trim(body) == "" then NoReading else SerialIs(Trim(body))
  {
    hide Trim, ParseUnsigned;
    ReportLine("SN", body);
    NotField("SN" + body + ";", "RV");
  }

  lemma FrequencyReportReads(body: string)
    ensures ReadingOf("F " + body + ";")
         == if ParseUnsigned(Trim(body), U32_MAX).Some? then FrequencyIs(Trim(body)) else NoReading
  {
    hide Trim, ParseUnsigned;
    var line := "F " + body + ";";
    ReportLine("F ", body);
    OtherHeads(line);
  }

  lemma BandReportReads(body: string)
    ensures ReadingOf("BN" + body + ";") == if exists n | 0 <= n <= 10 :: ParseUnsigned(body, U8_MAX) == Some(n)
                                            then BandIs(body) else NoReading
  {
    hide Trim, ParseUnsigned;
    var line := "BN" + body + ";";
    ReportLine("BN", body);
    OtherHeads(line);
    NotField(line, "F ");
  }

  /** A line that begins as a frequency or band report is of no other kind. */
  lemma OtherHeads(line: string)
    requires |line| >= 2 && (line[0], line[1]) in {('F', ' '), ('B', 'N')}
    ensures Field(line, "RV").None? && Field(line, "SN").None? && Field(line, "AN").None?
    ensures line != "BYPB;" && line != "BYPN;" && Field(line, "MD").None? && Field(line, "TP").None?
    ensures Field(line, "FLT").None? && Field(line, "VSWR ").None? && Field(line, "VFWD ").None?
  {
    NotField(line, "RV");
    NotField(line, "SN");
    NotField(line, "AN");
    NotField(line, "MD");
    NotField(line, "TP");
    NotField(line, "FLT");
    NotField(line, "VSWR ");
    NotField(line, "VFWD ");
  }

  /** A switch command reads as a report of the very state it asks for, and a command for an
      antenna the tuner does not have reads as nothing. */
  lemma SwitchWiresReadBack(n: nat)
    ensures ReadingOf(Wire(AntennaSelect(n))) == if 1 <= n <= 3 then AntennaIs(n) else NoReading
    ensures ReadingOf(Wire(BypassOn)) == BypassIs(true) && ReadingOf(Wire(BypassOff)) == BypassIs(false)
  {
    hide ReadingOf;
    if 1 <= n <= 3 {
      AntennaReportReads(n);
      assert Wire(AntennaSelect(n)) == "AN" + Decimal(n) + ";";
    } else {
      UnknownAntennaReads();
    }
    BypassWireReads("BYPB;");
    BypassWireReads("BYPN;");
  }

  lemma UnknownAntennaReads()
    ensures ReadingOf("AN?;") == NoReading
  {
    hide Trim;
    ReportLine("AN", "?");
    assert "AN" + "?" + ";" == "AN?;";
    NotField("AN?;", "RV");
    NotField("AN?;", "SN");
    StartsAt("?", "+", 0);
    assert !AllDigits("?") by { assert "?"[0] == '?'; }
  }

  lemma BypassWireReads(wire: string)
    requires wire == "BYPB;" || wire == "BYPN;"
    ensures ReadingOf(wire) == BypassIs(wire == "BYPB;")
  {
    TrimOfTrimmed(wire);
    NotField(wire, "RV");
    NotField(wire, "SN");
    NotField(wire, "AN");
  }

  // ---------------------------------------------------------------- poll order against arrival order

  /** What a reading says about bypass, if anything. */
  function BypassIn(r: Reading): Option<bool> {
    match r
    case BypassIs(on) => Some(on)
    case ModeBypass => Some(true)
    case _ => None
  }

  function LastBypass(rs: seq<Reading>): Option<bool> {
    if rs == [] then None
    else if BypassIn(rs[|rs| - 1]).Some? then BypassIn(rs[|rs| - 1])
    else LastBypass(rs[..|rs| - 1])
  }

  /** Which field group a reading writes; mode and bypass readings can both write bypass. */
  function Kind(r: Reading): nat {
    match r
    case NoReading => 0
    case FirmwareIs(_) => 1
    case SerialIs(_) => 2
    case AntennaIs(_) => 3
    case BypassIs(_) => 4
    case ModeBypass => 5
    case ModeOperate(_) => 5
    case TuningIs(_) => 6
    case FaultIs(_) => 7
    case ForwardIs(_) => 8
    case FrequencyIs(_) => 9
    case BandIs(_) => 10
  }

  /** The kind of reading that answers each polled command. */
  function AnswerKind(c: Command): nat {
    match c
    case Firmware => 1
    case SerialNumber => 2
    case AntennaStatus => 3
    case BypassStatus => 4
    case Mode => 5
    case TunePoll => 6
    case FaultStatus => 7
    case ForwardAdc => 8
    case _ => 0
  }

  /** The tuner after a poll applies an answer and then the older lines read before it. */
  function AnswerFirst(response: string, unsolicited: seq<string>, t: TunerState): TunerState {
    ParseAll(unsolicited, ParseResponse(response, t))
  }

  /** The tuner had the lines been applied as they arrived. */
  function ArrivalOrder(response: string, unsolicited: seq<string>, t: TunerState): TunerState {
    ParseResponse(response, ParseAll(unsolicited, t))
  }

  /** The answer and the last older line that mentions bypass disagree about it. */
  predicate OvertakesBypass(response: string, unsolicited: seq<string>) {
    var answer, older := BypassIn(ReadingOf(response)), LastBypass(Readings(unsolicited));
    answer.Some? && older.Some? && answer != older
  }

  /** The first two characters of every line with a reading of a given kind. */
  function KindHead(kind: nat): (char, char) {
    match kind
    case 1 => ('R', 'V') case 2 => ('S', 'N') case 3 => ('A', 'N') case 4 => ('B', 'Y')
    case 5 => ('M', 'D') case 6 => ('T', 'P') case 7 => ('F', 'L') case 8 => ('V', 'F')
    case 9 => ('F', ' ') case 10 => ('B', 'N') case _ => ('?', '?')
  }

  lemma FieldHead(line: string, prefix: string)
    requires Field(line, prefix).Some? && |prefix| >= 2
    ensures |line| >= 2 && line[0] == prefix[0] && line[1] == prefix[1]
  {
    FieldShape(line, prefix);
    HeadOf(line, prefix);
  }

  lemma KindHasHead(line: string)
    requires Trimmed(line) && Kind(ReadingOf(line)) != 0
    ensures |line| >= 2 && (line[0], line[1]) == KindHead(Kind(ReadingOf(line)))
  {
    hide Field;
    TrimOfTrimmed(line);
    ReadingHasField(line);
    match ReadingOf(line)
    case FirmwareIs(_) => FieldHead(line, "RV");
    case SerialIs(_) => FieldHead(line, "SN");
    case AntennaIs(_) => FieldHead(line, "AN");
    case BypassIs(_) =>
    case ModeBypass => FieldHead(line, "MD");
    case ModeOperate(_) => FieldHead(line, "MD");
    case TuningIs(_) => FieldHead(line, "TP");
    case FaultIs(_) => FieldHead(line, "FLT");
    case ForwardIs(_) => FieldHead(line, "VFWD ");
    case FrequencyIs(_) => FieldHead(line, "F ");
    case BandIs(_) => FieldHead(line, "BN");
  }

  /** An answer to a polled command reads as that command's kind, or as nothing. */
  lemma AnswerHasKind(c: Command, line: string)
    requires c in POLL && Trimmed(line) && Answers(c, line)
    ensures Kind(ReadingOf(line)) == 0 || Kind(ReadingOf(line)) == AnswerKind(c)
  {
    hide ReadingOf, KindHead;
    if Kind(ReadingOf(line)) != 0 {
      KindHasHead(line);
      var prefix := ExpectedPrefixes(c)[0];
      if line != Wire(c) {
        HeadOf(line, prefix);
      }
      assert line[0] == Wire(c)[0] && line[1] == Wire(c)[1];
      HeadsDiffer(Kind(ReadingOf(line)), c);
    }
  }

  lemma HeadsDiffer(kind: nat, c: Command)
    requires c in POLL && 1 <= kind <= 10 && KindHead(kind) == (Wire(c)[0], Wire(c)[1])
    ensures kind == AnswerKind(c)
  {
  }

  /** A line of the kind a polled command asks for answers it. */
  lemma KindAnswers(c: Command, line: string)
    requires c in POLL && Trimmed(line) && AnswerKind(c) != 0 && Kind(ReadingOf(line)) == AnswerKind(c)
    ensures Answers(c, line)
  {
    hide ReadingOf, Field;
    TrimOfTrimmed(line);
    ReadingHasField(line);
    var prefix := ExpectedPrefixes(c)[0];
    assert prefix in ExpectedPrefixes(c);
    if c == BypassStatus {
      assert StartsWith(line, "BYP") && EndsWith(line, ';');
    } else {
      FieldShape(line, prefix);
    }
  }

  /** A line that does not answer a polled command has another kind. */
  lemma OtherLineHasOtherKind(c: Command, line: string)
    requires c in POLL && Trimmed(line) && !Answers(c, line) && AnswerKind(c) != 0
    ensures Kind(ReadingOf(line)) != AnswerKind(c)
  {
    hide ReadingOf, Answers;
    if Kind(ReadingOf(line)) == AnswerKind(c) {
      KindAnswers(c, line);
    }
  }

  /** What a reading does, field by field. */
  lemma ApplyFields(r: Reading, t: TunerState)
    ensures Apply(r, t) == TunerState(
      if r.FirmwareIs? then Some(r.text) else t.firmware,
      if r.SerialIs? then Some(r.text) else t.serialNumber,
      if r.AntennaIs? then Some(r.antenna) else t.antenna,
      if BypassIn(r).Some? then BypassIn(r).value else t.bypass,
      if r.ModeBypass? then false else if r.ModeOperate? then true else t.operate,
      if r.TuningIs? then r.on else t.tuning,
      if r.FaultIs? then r.code else t.fault,
      if r.ForwardIs? then r.adc else t.forwardAdc,
      if r.ModeBypass? then Some("bypass")
      else if r.ModeOperate? then Some(if r.auto then "auto" else "manual") else t.mode,
      if r.TuningIs? then Some(if r.on then "1" else "0") else t.tunePower,
      if r.FrequencyIs? then Some(r.text) else t.atuFrequencyKhz,
      if r.BandIs? then Some(r.text) else t.bandNumber)
  {
  }

  /** Readings of different kinds commute, bypass apart. */
  lemma ReadingsCommute(x: Reading, r: Reading, t: TunerState, b: bool)
    requires Kind(x) != Kind(r) || Kind(x) == 0
    ensures Apply(x, Apply(r, t).(bypass := b))
         == Apply(r, Apply(x, t)).(bypass := if BypassIn(x).Some? then BypassIn(x).value else b)
  {
    hide Apply, BypassIn;
    ApplyFields(r, t);
    ApplyFields(x, t);
    ApplyFields(x, Apply(r, t).(bypass := b));
    ApplyFields(r, Apply(x, t));
  }

  lemma {:induction false} AnswerFirstDiffersInBypass(r: Reading, rs: seq<Reading>, t: TunerState)
    requires forall x <- rs :: Kind(x) != Kind(r) || Kind(x) == 0
    ensures ApplyAll(rs, Apply(r, t))
         == Apply(r, ApplyAll(rs, t)).(bypass :=
              if LastBypass(rs).Some? then LastBypass(rs).value else Apply(r, t).bypass)
  {
    if rs != [] {
      var n := |rs| - 1;
      AnswerFirstDiffersInBypass(r, rs[..n], t);
      var b := if LastBypass(rs[..n]).Some? then LastBypass(rs[..n]).value else Apply(r, t).bypass;
      ReadingsCommute(rs[n], r, ApplyAll(rs[..n], t), b);
    }
  }

  lemma {:induction false} BypassAfter(rs: seq<Reading>, t: TunerState)
    ensures ApplyAll(rs, t).bypass == if LastBypass(rs).Some? then LastBypass(rs).value else t.bypass
  {
    if rs != [] {
      BypassAfter(rs[..|rs| - 1], t);
    }
  }

  /** What answers a polled command and what came before it are of different kinds. */
  lemma LinesHaveOtherKinds(c: Command, response: string, unsolicited: seq<string>)
    requires c in POLL && Trimmed(response) && Answers(c, response)
    requires forall line <- unsolicited :: Trimmed(line) && !Answers(c, line)
    ensures forall x <- Readings(unsolicited) :: Kind(x) != Kind(ReadingOf(response)) || Kind(x) == 0
  {
    AnswerHasKind(c, response);
    forall x <- Readings(unsolicited)
      ensures Kind(x) != Kind(ReadingOf(response)) || Kind(x) == 0
    {
      var line :| line in unsolicited && x == ReadingOf(line);
      if AnswerKind(c) != 0 { OtherLineHasOtherKind(c, line); }
    }
  }

  /** In one exchange, an answer applied before the older lines gives the arrival-order state
      exactly when it does not overtake a line that says otherwise about bypass. */
  lemma PollOrderMatters(c: Command, response: string, unsolicited: seq<string>, t: TunerState)
    requires c in POLL && Trimmed(response) && Answers(c, response)
    requires forall line <- unsolicited :: Trimmed(line) && !Answers(c, line)
    ensures AnswerFirst(response, unsolicited, t) == ArrivalOrder(response, unsolicited, t)
            <==> !OvertakesBypass(response, unsolicited)
  {
    LinesHaveOtherKinds(c, response, unsolicited);
    OrderMatters(ReadingOf(response), Readings(unsolicited), t);
  }

  lemma OrderMatters(r: Reading, rs: seq<Reading>, t: TunerState)
    requires forall x <- rs :: Kind(x) != Kind(r) || Kind(x) == 0
    ensures ApplyAll(rs, Apply(r, t)) == Apply(r, ApplyAll(rs, t))
            <==> !(BypassIn(r).Some? && LastBypass(rs).Some? && BypassIn(r) != LastBypass(rs))
  {
    AnswerFirstDiffersInBypass(r, rs, t);
    BypassAfter(rs, t);
  }
}
