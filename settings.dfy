/**
 * The settings message that `SendButton_Click` would send to the sprayer
 * controller: one UPDATE_SETTINGS line with the fifteen tuning
 * values in a fixed key order, one SET_SWITCHES line with the three check
 * boxes as 1/0, and one SET_DEBUG line with the selected debug level.
 *
 * The message is text built by concatenation, so the model is a pure
 * encoder.  Its partner is a reference parser for the same format (the
 * controller's firmware is not part of this model), and the central lemma
 * is that parsing the generated message gives back exactly what the form
 * held, provided no value contains one of the three separators.
 */
module Settings {
  import opened Text

  /** The fifteen free-text boxes of the form, in the order they are sent. */
  datatype Parameters = Parameters(
    gpaTarget: string,
    sprayWidth: string,
    flowCalibration: string,
    psiCalibration: string,
    dutyCycleAdjustment: string,
    pressureTarget: string,
    numberNozzles: string,
    currentDutyCycle: string,
    hz: string,
    lowBallValve: string,
    ballHyd: string,
    wheelAngle: string,
    kp: string,
    ki: string,
    kd: string)

  /** The three check boxes: sprayer on/off, PWM versus conventional, stagger. */
  datatype Switches = Switches(mainOn: bool, pwmConventional: bool, stagger: bool)

  /**
   * Everything the message is made from.  `debugLevel` is the debug combo
   * box's selected index, which is -1 when nothing is selected.
   */
  datatype Form = Form(parameters: Parameters, switches: Switches, debugLevel: int)

  // ---------------------------------------------------------------------
  // The encoder
  // ---------------------------------------------------------------------

  /** One `key:value` segment. */
  function Pair(key: string, value: string): string {
    key + ":" + value
  }

  /** One `,key:value` piece of a line. */
  function Field(key: string, value: string): string {
    "," + Pair(key, value)
  }

  /** The `,key:value` pieces for matching lists of keys and values, in order. */
  function Fields(keys: seq<string>, values: seq<string>): string
    requires |keys| == |values|
    decreases |keys|
  {
    if |keys| == 0 then "" else Field(keys[0], values[0]) + Fields(keys[1..], values[1..])
  }

  /**
   * The keys that follow the merged GPATarget/SprayWidth segment of the
   * UPDATE_SETTINGS line, in the order they are sent.
   */
  function SettingsKeys(): seq<string> {
    [
     "FlowCalibration", "PSICalibration", "DutyCycleAdjustment", "PressureTarget",
     "numberNozzles", "currentDutyCycle", "Hz", "LowBallValve", "Ball_Hyd",
     "WheelAngle", "Kp", "Ki", "Kd"]
  }

  /** The values sent under `SettingsKeys()`, in the same order. */
  function Values(p: Parameters): (vs: seq<string>)
    ensures |vs| == |SettingsKeys()|
  {
    [p.flowCalibration, p.psiCalibration, p.dutyCycleAdjustment, p.pressureTarget,
     p.numberNozzles, p.currentDutyCycle, p.hz, p.lowBallValve, p.ballHyd,
     p.wheelAngle, p.kp, p.ki, p.kd]
  }

  /** A check box as the digit the controller expects. */
  function Flag(checked: bool): (r: string)
    ensures r == "1" <==> checked
    ensures r == "0" <==> !checked
  {
    if checked then "1" else "0"
  }

  /**
   * The UPDATE_SETTINGS line.  There is no comma between the GPATarget value
   * and the SprayWidth key, so those two travel in one comma segment; every
   * other value follows as `,key:value`.
   */
  function SettingsLine(p: Parameters): string {
    "UPDATE_SETTINGS:GPATarget:" + p.gpaTarget + "SprayWidth:" + p.sprayWidth
      + Fields(SettingsKeys(), Values(p))
  }

  /** The keys that follow the main switch on the SET_SWITCHES line. */
  function SwitchKeys(): seq<string> {
    ["pwm", "stagger"]
  }

  /** The SET_SWITCHES line: the main switch, then `,pwm:` and `,stagger:`. */
  function SwitchesLine(w: Switches): string {
    "SET_SWITCHES:main:" + Flag(w.mainOn)
      + Fields(SwitchKeys(), [Flag(w.pwmConventional), Flag(w.stagger)])
  }

  /** The SET_DEBUG line, with the selected index in decimal. */
  function DebugLine(level: int): string {
    "SET_DEBUG:debug:" + IntToString(level)
  }

  /** The whole message: the three lines joined by newlines, no trailing one. */
  function GenerateSettingsMessage(f: Form): string {
    SettingsLine(f.parameters) + "\n" + SwitchesLine(f.switches) + "\n" + DebugLine(f.debugLevel)
  }

  // ---------------------------------------------------------------------
  // A reference parser for the same format
  // ---------------------------------------------------------------------

  /** `s` without the given suffix, if it has it. */
  function StripSuffix(s: string, suffix: string): (r: Option<string>)
    ensures r.Some? <==> |suffix| <= |s| && s[|s| - |suffix|..] == suffix
    ensures r.Some? ==> s == r.value + suffix
  {
    if |suffix| <= |s| && s[|s| - |suffix|..] == suffix then
      assert s == s[..|s| - |suffix|] + s[|s| - |suffix|..];
      Some(s[..|s| - |suffix|])
    else
      None
  }

  /** The value of a `key:value` segment whose key is the expected one. */
  function FieldValue(segment: string, key: string): Option<string> {
    var kv := Split(segment, ':');
    if |kv| == 2 && kv[0] == key then Some(kv[1]) else None
  }

  /** The values of segments that carry the given keys, one segment per key. */
  function FieldValues(segments: seq<string>, keys: seq<string>): (r: Option<seq<string>>)
    ensures r.Some? ==> |r.value| == |keys|
    decreases |keys|
  {
    if |segments| != |keys| then None
    else if |keys| == 0 then Some([])
    else
      var v :- FieldValue(segments[0], keys[0]);
      var rest :- FieldValues(segments[1..], keys[1..]);
      Some([v] + rest)
  }

  /** "1" and "0" back to a check box. */
  function ParseFlag(t: string): (r: Option<bool>)
    ensures r.Some? <==> t == "1" || t == "0"
    ensures r.Some? ==> Flag(r.value) == t
  {
    if t == "1" then Some(true) else if t == "0" then Some(false) else None
  }

  /** The form's parameters from the merged head values and the keyed values. */
  function FromValues(gpaTarget: string, sprayWidth: string, vs: seq<string>): Parameters
    requires |vs| == |SettingsKeys()|
  {
    Parameters(gpaTarget, sprayWidth, vs[0], vs[1], vs[2], vs[3], vs[4], vs[5], vs[6],
               vs[7], vs[8], vs[9], vs[10], vs[11], vs[12])
  }

  /** The GPATarget and SprayWidth values from the merged first segment. */
  function ParseSettingsHead(segment: string): Option<(string, string)> {
    var parts := Split(segment, ':');
    if |parts| != 4 || parts[0] != "UPDATE_SETTINGS" || parts[1] != "GPATarget" then None else
    var gpaTarget :- StripSuffix(parts[2], "SprayWidth");
    Some((gpaTarget, parts[3]))
  }

  function ParseSettingsLine(line: string): Option<Parameters> {
    var segs := Split(line, ',');
    var head :- ParseSettingsHead(segs[0]);
    var vs :- FieldValues(segs[1..], SettingsKeys());
    Some(FromValues(head.0, head.1, vs))
  }

  function ParseSwitchesLine(line: string): Option<Switches> {
    var segs := Split(line, ',');
    var head := Split(segs[0], ':');
    if |head| != 3 || head[0] != "SET_SWITCHES" || head[1] != "main" then None else
    var mainOn :- ParseFlag(head[2]);
    var texts :- FieldValues(segs[1..], SwitchKeys());
    var pwmConventional :- ParseFlag(texts[0]);
    var stagger :- ParseFlag(texts[1]);
    Some(Switches(mainOn, pwmConventional, stagger))
  }

  function ParseDebugLine(line: string): Option<int> {
    var parts := Split(line, ':');
    if |parts| == 3 && parts[0] == "SET_DEBUG" && parts[1] == "debug" then ParseInt(parts[2]) else None
  }

  function ParseSettingsMessage(msg: string): Option<Form> {
    var lines := Split(msg, '\n');
    if |lines| != 3 then None else
    var p :- ParseSettingsLine(lines[0]);
    var w :- ParseSwitchesLine(lines[1]);
    var level :- ParseDebugLine(lines[2]);
    Some(Form(p, w, level))
  }

  // ---------------------------------------------------------------------
  // Properties
  // ---------------------------------------------------------------------

  /** The three characters the format uses to separate lines, fields and keys. */
  predicate IsSeparator(c: char) {
    c == ',' || c == ':' || c == '\n'
  }

  /** A value that the format can carry: it contains none of its separators. */
  predicate Clean(v: string) {
    forall i | 0 <= i < |v| :: !IsSeparator(v[i])
  }

  /** `v` does not contain `c`, stated position by position. */
  predicate Lacks(v: string, c: char) {
    forall i | 0 <= i < |v| :: v[i] != c
  }

  predicate AllClean(vs: seq<string>) {
    forall i | 0 <= i < |vs| :: Clean(vs[i])
  }

  /** No string of `vs` contains `c`. */
  predicate AllLack(vs: seq<string>, c: char) {
    forall i | 0 <= i < |vs| :: Lacks(vs[i], c)
  }

  /** Every text box of the form holds a value the format can carry. */
  predicate Sendable(p: Parameters) {
    Clean(p.gpaTarget) && Clean(p.sprayWidth) && AllClean(Values(p))
  }

  /** No text box of the form holds a newline. */
  predicate NoNewline(p: Parameters) {
    Lacks(p.gpaTarget, '\n') && Lacks(p.sprayWidth, '\n') && AllLack(Values(p), '\n')
  }

  /** No text box of the form holds a comma. */
  predicate CommaFree(p: Parameters) {
    Lacks(p.gpaTarget, ',') && Lacks(p.sprayWidth, ',') && AllLack(Values(p), ',')
  }

  /** No text box of the form holds a colon. */
  predicate ColonFree(p: Parameters) {
    Lacks(p.gpaTarget, ':') && Lacks(p.sprayWidth, ':') && AllLack(Values(p), ':')
  }

  /** The `key:value` segments for matching lists of keys and values. */
  function Pairs(keys: seq<string>, values: seq<string>): (r: seq<string>)
    requires |keys| == |values|
    ensures |r| == |keys|
    decreases |keys|
  {
    if |keys| == 0 then [] else [Pair(keys[0], values[0])] + Pairs(keys[1..], values[1..])
  }

  lemma {:induction false} SettingsKeysCleanFront()
    ensures forall i | 0 <= i < 4 :: Clean(SettingsKeys()[i])
  {
    assert Clean("FlowCalibration") && Clean("PSICalibration");
    assert Clean("DutyCycleAdjustment") && Clean("PressureTarget");
  }

  lemma {:induction false} SettingsKeysCleanMiddle()
    ensures forall i | 4 <= i < 7 :: Clean(SettingsKeys()[i])
  {
    assert Clean("numberNozzles") && Clean("currentDutyCycle") && Clean("Hz");
  }

  lemma {:induction false} SettingsKeysCleanBack()
    ensures forall i | 7 <= i < 13 :: Clean(SettingsKeys()[i])
  {
    assert Clean("LowBallValve") && Clean("Ball_Hyd");
    assert Clean("WheelAngle") && Clean("Kp") && Clean("Ki") && Clean("Kd");
  }

  /** No key of the UPDATE_SETTINGS line contains one of the separators. */
  lemma {:induction false} SettingsKeysClean()
    ensures AllClean(SettingsKeys())
  {
    SettingsKeysCleanFront();
    SettingsKeysCleanMiddle();
    SettingsKeysCleanBack();
  }

  /** Strings free of every separator are free of each one. */
  lemma {:induction false} CleanLacks(vs: seq<string>, c: char)
    requires AllClean(vs) && IsSeparator(c)
    ensures AllLack(vs, c)
  {
    forall i | 0 <= i < |vs| ensures Lacks(vs[i], c) {
      assert Clean(vs[i]);
    }
  }

  /** A form the format can carry has no newline, comma or colon in any box. */
  lemma {:induction false} SendableLacks(p: Parameters)
    requires Sendable(p)
    ensures NoNewline(p) && CommaFree(p) && ColonFree(p)
  {
    CleanLacks(Values(p), '\n');
    CleanLacks(Values(p), ',');
    CleanLacks(Values(p), ':');
  }

  /** Reassembling the parameters from their values gives the same form. */
  lemma {:induction false} FromValuesOf(p: Parameters)
    ensures FromValues(p.gpaTarget, p.sprayWidth, Values(p)) == p
  {
  }

  /** A text that follows a separator-free head with `,key:value` pieces. */
  lemma {:induction false} SplitFields(head: string, keys: seq<string>, values: seq<string>)
    requires |keys| == |values|
    requires ',' !in head && AllLack(keys, ',') && AllLack(values, ',')
    ensures Split(head + Fields(keys, values), ',') == [head] + Pairs(keys, values)
    decreases |keys|
  {
    if |keys| == 0 {
      assert head + Fields(keys, values) == head;
      SplitNoSep(head, ',');
    } else {
      var p0 := Pair(keys[0], values[0]);
      var rest := Fields(keys[1..], values[1..]);
      assert Lacks(keys[0], ',') && Lacks(values[0], ',');
      assert AllLack(keys[1..], ',') && AllLack(values[1..], ',') by {
        forall i | 0 <= i < |keys| - 1
          ensures Lacks(keys[1..][i], ',') && Lacks(values[1..][i], ',')
        {
          assert Lacks(keys[i + 1], ',') && Lacks(values[i + 1], ',');
        }
      }
      assert head + Fields(keys, values) == head + [','] + (p0 + rest);
      SplitCons(head, p0 + rest, ',');
      SplitFields(p0, keys[1..], values[1..]);
    }
  }

  /** A `key:value` segment gives back its value. */
  lemma {:induction false} FieldValueOf(key: string, value: string)
    requires ':' !in key && ':' !in value
    ensures FieldValue(Pair(key, value), key) == Some(value)
  {
    assert Pair(key, value) == key + [':'] + value;
    SplitSnoc(key, value, ':');
    SplitNoSep(key, ':');
  }

  /** The keyed segments give back their values, in order. */
  lemma {:induction false} FieldValuesOf(keys: seq<string>, values: seq<string>)
    requires |keys| == |values|
    requires AllLack(keys, ':') && AllLack(values, ':')
    ensures FieldValues(Pairs(keys, values), keys) == Some(values)
    decreases |keys|
  {
    if |keys| != 0 {
      var segs := Pairs(keys, values);
      assert Lacks(keys[0], ':') && Lacks(values[0], ':');
      FieldValueOf(keys[0], values[0]);
      assert AllLack(keys[1..], ':') && AllLack(values[1..], ':') by {
        forall i | 0 <= i < |keys| - 1
          ensures Lacks(keys[1..][i], ':') && Lacks(values[1..][i], ':')
        {
          assert Lacks(keys[i + 1], ':') && Lacks(values[i + 1], ':');
        }
      }
      assert segs[1..] == Pairs(keys[1..], values[1..]);
      FieldValuesOf(keys[1..], values[1..]);
      assert values == [values[0]] + values[1..];
    }
  }

  /** Facts about the fixed texts of the UPDATE_SETTINGS line. */
  lemma {:induction false} SettingsLiterals()
    ensures ',' !in "UPDATE_SETTINGS:GPATarget:" && '\n' !in "UPDATE_SETTINGS:GPATarget:"
    ensures ',' !in "SprayWidth:" && '\n' !in "SprayWidth:"
    ensures ':' !in "UPDATE_SETTINGS" && ':' !in "GPATarget" && ':' !in "SprayWidth"
    ensures "UPDATE_SETTINGS:GPATarget:" == "UPDATE_SETTINGS" + [':'] + "GPATarget" + [':']
    ensures "SprayWidth:" == "SprayWidth" + [':']
  {
    assert Lacks("UPDATE_SETTINGS:GPATarget:", ',') && Lacks("UPDATE_SETTINGS:GPATarget:", '\n');
    assert Lacks("SprayWidth:", ',') && Lacks("SprayWidth:", '\n');
    assert Lacks("UPDATE_SETTINGS", ':') && Lacks("GPATarget", ':') && Lacks("SprayWidth", ':');
  }

  /** Facts about the fixed texts of the SET_SWITCHES line. */
  lemma {:induction false} SwitchesLiterals()
    ensures ',' !in "SET_SWITCHES:main:" && '\n' !in "SET_SWITCHES:main:"
    ensures ':' !in "SET_SWITCHES" && ':' !in "main"
    ensures "SET_SWITCHES:main:" == "SET_SWITCHES" + [':'] + "main" + [':']
    ensures AllClean(SwitchKeys())
    ensures Clean("0") && Clean("1")
  {
    assert Lacks("SET_SWITCHES:main:", ',') && Lacks("SET_SWITCHES:main:", '\n');
    assert Lacks("SET_SWITCHES", ':') && Lacks("main", ':');
    assert Clean("pwm") && Clean("stagger");
  }

  /** Facts about the fixed texts of the SET_DEBUG line. */
  lemma {:induction false} DebugLiterals()
    ensures '\n' !in "SET_DEBUG:debug:"
    ensures ':' !in "SET_DEBUG" && ':' !in "debug"
    ensures "SET_DEBUG:debug:" == "SET_DEBUG" + [':'] + "debug" + [':']
  {
    assert Lacks("SET_DEBUG:debug:", '\n');
    assert Lacks("SET_DEBUG", ':') && Lacks("debug", ':');
  }

  /** Three separator-free pieces joined by the separator split back apart. */
  lemma {:induction false} SplitThreeParts(a: string, b: string, c: string, sep: char)
    requires sep !in a && sep !in b && sep !in c
    ensures Split(a + [sep] + b + [sep] + c, sep) == [a, b, c]
  {
    SplitNoSep(a, sep);
    SplitSnoc(a, b, sep);
    SplitSnoc(a + [sep] + b, c, sep);
  }

  /** Four separator-free pieces joined by the separator split back apart. */
  lemma {:induction false} SplitFourParts(a: string, b: string, c: string, d: string, sep: char)
    requires sep !in a && sep !in b && sep !in c && sep !in d
    ensures Split(a + [sep] + b + [sep] + c + [sep] + d, sep) == [a, b, c, d]
  {
    SplitThreeParts(a, b, c, sep);
    SplitSnoc(a + [sep] + b + [sep] + c, d, sep);
  }

  /** The merged first segment of the UPDATE_SETTINGS line. */
  function SettingsHead(p: Parameters): string {
    "UPDATE_SETTINGS:GPATarget:" + p.gpaTarget + "SprayWidth:" + p.sprayWidth
  }

  /**
   * The first comma segment of the UPDATE_SETTINGS line holds both the
   * GPATarget and the SprayWidth value, and splits on ':' into four parts,
   * the third of which is the GPATarget value run together with the key
   * SprayWidth.
   */
  lemma {:induction false} HeadParts(p: Parameters)
    requires ':' !in p.gpaTarget && ':' !in p.sprayWidth
    ensures Split(SettingsHead(p), ':')
         == ["UPDATE_SETTINGS", "GPATarget", p.gpaTarget + "SprayWidth", p.sprayWidth]
  {
    SettingsLiterals();
    assert SettingsHead(p)
        == "UPDATE_SETTINGS" + [':'] + "GPATarget" + [':'] + (p.gpaTarget + "SprayWidth") + [':'] + p.sprayWidth;
    SplitFourParts("UPDATE_SETTINGS", "GPATarget", p.gpaTarget + "SprayWidth", p.sprayWidth, ':');
  }

  /** Stripping a suffix that was appended gives back the original text. */
  lemma {:induction false} StripSuffixOf(x: string, suffix: string)
    ensures StripSuffix(x + suffix, suffix) == Some(x)
  {
    assert (x + suffix)[|x|..] == suffix;
    assert (x + suffix)[..|x|] == x;
  }

  /**
   * The UPDATE_SETTINGS line is fourteen comma segments: the merged
   * GPATarget/SprayWidth segment, then one `key:value` segment per key of
   * `SettingsKeys()`, in order, each with its value verbatim.
   */
  lemma {:induction false} SettingsSegments(p: Parameters)
    requires CommaFree(p)
    ensures Split(SettingsLine(p), ',') == [SettingsHead(p)] + Pairs(SettingsKeys(), Values(p))
    ensures |Split(SettingsLine(p), ',')| == 14
  {
    SettingsKeysClean();
    CleanLacks(SettingsKeys(), ',');
    SettingsHeadLacks(p, ',');
    SplitFields(SettingsHead(p), SettingsKeys(), Values(p));
  }

  /** Segment i of the pieces is key i, a colon and value i. */
  lemma {:induction false} PairsAt(keys: seq<string>, values: seq<string>, i: int)
    requires |keys| == |values| && 0 <= i < |keys|
    ensures Pairs(keys, values)[i] == keys[i] + ":" + values[i]
    decreases i
  {
    if i > 0 {
      PairsAt(keys[1..], values[1..], i - 1);
    }
  }

  /**
   * After the merged first segment, comma segment i + 1 of the UPDATE_SETTINGS
   * line is key i of `SettingsKeys()`, a colon and the matching text box value,
   * unaltered.
   */
  lemma {:induction false} SettingsSegmentAt(p: Parameters, i: int)
    requires CommaFree(p) && 0 <= i < 13
    ensures var segs := Split(SettingsLine(p), ',');
      |segs| == 14 && segs[i + 1] == SettingsKeys()[i] + ":" + Values(p)[i]
  {
    SettingsSegments(p);
    PieceAt(Split(SettingsLine(p), ','), SettingsHead(p), SettingsKeys(), Values(p), i);
  }

  lemma {:induction false} PieceAt(segs: seq<string>, head: string, keys: seq<string>, values: seq<string>, i: int)
    requires |keys| == |values| && 0 <= i < |keys|
    requires segs == [head] + Pairs(keys, values)
    ensures |segs| == |keys| + 1 && segs[i + 1] == keys[i] + ":" + values[i]
  {
    PairsAt(keys, values, i);
  }

  /** A comma inside the first value of a run of pieces cuts that value's segment in two. */
  lemma {:induction false} SplitFieldsComma(head: string, keys: seq<string>, values: seq<string>, a: string, b: string)
    requires |keys| == |values| >= 1 && values[0] == a + "," + b
    requires ',' !in head && ',' !in keys[0] && ',' !in a && ',' !in b
    requires AllLack(keys[1..], ',') && AllLack(values[1..], ',')
    ensures Split(head + Fields(keys, values), ',')
         == [head, keys[0] + ":" + a, b] + Pairs(keys[1..], values[1..])
  {
    var first := keys[0] + ":" + a;
    var rest := Fields(keys[1..], values[1..]);
    assert head + Fields(keys, values) == (head + [','] + first) + [','] + (b + rest);
    SplitConcat(head + [','] + first, b + rest, ',');
    SplitCons(head, first, ',');
    SplitNoSep(first, ',');
    SplitFields(b, keys[1..], values[1..]);
  }

  lemma {:induction false} FlowCalibrationPair(a: string)
    ensures SettingsKeys()[0] + ":" + a == "FlowCalibration:" + a
  {
    assert SettingsKeys()[0] + ":" == "FlowCalibration:";
  }

  /** The key lists after the first key hold no comma. */
  lemma {:induction false} LaterKeysCommaFree()
    ensures ',' !in SettingsKeys()[0] && AllLack(SettingsKeys()[1..], ',')
  {
    var keys := SettingsKeys();
    SettingsKeysClean();
    CleanLacks(keys, ',');
    assert Lacks(keys[0], ',');
    forall i | 0 <= i < |keys| - 1 ensures Lacks(keys[1..][i], ',') {
      assert Lacks(keys[i + 1], ',');
    }
  }

  /**
   * A comma inside a value cuts its segment in two.  With FlowCalibration
   * holding `a,b` (a decimal comma, say) the UPDATE_SETTINGS line has fifteen
   * comma segments: `FlowCalibration:a`, then the bare `b`, then the other
   * twelve pairs.
   */
  lemma {:induction false} CommaInValueSplitsSegment(p: Parameters, a: string, b: string)
    requires p.flowCalibration == a + "," + b
    requires ',' !in a && ',' !in b && Lacks(p.gpaTarget, ',') && Lacks(p.sprayWidth, ',')
    requires AllLack(Values(p)[1..], ',')
    ensures Split(SettingsLine(p), ',')
         == [SettingsHead(p), "FlowCalibration:" + a, b] + Pairs(SettingsKeys()[1..], Values(p)[1..])
  {
    LaterKeysCommaFree();
    SettingsHeadLacks(p, ',');
    SplitFieldsComma(SettingsHead(p), SettingsKeys(), Values(p), a, b);
    FlowCalibrationPair(a);
  }

  /** The merged first segment gives back the GPATarget and SprayWidth values. */
  lemma {:induction false} SettingsHeadRoundTrip(p: Parameters)
    requires Lacks(p.gpaTarget, ':') && Lacks(p.sprayWidth, ':')
    ensures ParseSettingsHead(SettingsHead(p)) == Some((p.gpaTarget, p.sprayWidth))
  {
    assert Lacks(p.gpaTarget, ':') && Lacks(p.sprayWidth, ':');
    HeadParts(p);
    StripSuffixOf(p.gpaTarget, "SprayWidth");
  }

  lemma {:induction false} FirstAndRest(segs: seq<string>, first: string, rest: seq<string>)
    requires segs == [first] + rest
    ensures |segs| >= 1 && segs[0] == first && segs[1..] == rest
  {
  }

  /** The keyed segments of the form give back the form's values. */
  lemma {:induction false} SettingsPairsValues(p: Parameters)
    requires ColonFree(p)
    ensures FieldValues(Pairs(SettingsKeys(), Values(p)), SettingsKeys()) == Some(Values(p))
  {
    SettingsKeysClean();
    CleanLacks(SettingsKeys(), ':');
    FieldValuesOf(SettingsKeys(), Values(p));
  }

  /** The first comma segment of the line gives back the two merged values. */
  lemma {:induction false} SettingsLineHead(p: Parameters)
    requires CommaFree(p) && ColonFree(p)
    ensures ParseSettingsHead(Split(SettingsLine(p), ',')[0]) == Some((p.gpaTarget, p.sprayWidth))
  {
    SettingsSegments(p);
    FirstAndRest(Split(SettingsLine(p), ','), SettingsHead(p), Pairs(SettingsKeys(), Values(p)));
    SettingsHeadRoundTrip(p);
  }

  /** The other thirteen comma segments give back their values in key order. */
  lemma {:induction false} SettingsLineValues(p: Parameters)
    requires CommaFree(p) && ColonFree(p)
    ensures FieldValues(Split(SettingsLine(p), ',')[1..], SettingsKeys()) == Some(Values(p))
  {
    SettingsSegments(p);
    FirstAndRest(Split(SettingsLine(p), ','), SettingsHead(p), Pairs(SettingsKeys(), Values(p)));
    SettingsPairsValues(p);
  }

  /**
   * The reference parser reads back every value of the UPDATE_SETTINGS line
   * when no value holds a comma or a colon; newlines inside a value do not
   * matter to one line.
   */
  lemma {:induction false} SettingsLineRoundTrip(p: Parameters)
    requires CommaFree(p) && ColonFree(p)
    ensures ParseSettingsLine(SettingsLine(p)) == Some(p)
  {
    SettingsLineHead(p);
    SettingsLineValues(p);
    FromValuesOf(p);
  }

  /** The check-box digits contain no separator. */
  lemma {:induction false} FlagsClean(w: Switches)
    ensures Clean(Flag(w.mainOn))
    ensures AllClean([Flag(w.pwmConventional), Flag(w.stagger)])
  {
    SwitchesLiterals();
  }

  /** The reference parser reads back the three check boxes. */
  lemma {:induction false} SwitchesLineRoundTrip(w: Switches)
    ensures ParseSwitchesLine(SwitchesLine(w)) == Some(w)
  {
    var flags := [Flag(w.pwmConventional), Flag(w.stagger)];
    var head := "SET_SWITCHES:main:" + Flag(w.mainOn);
    FlagsClean(w);
    SwitchesLiterals();
    CleanLacks(SwitchKeys(), ',');
    CleanLacks(flags, ',');
    CleanLacks(SwitchKeys(), ':');
    CleanLacks(flags, ':');
    var segs := Split(SwitchesLine(w), ',');
    assert segs == [head] + Pairs(SwitchKeys(), flags) by {
      SplitFields(head, SwitchKeys(), flags);
    }
    assert Split(segs[0], ':') == ["SET_SWITCHES", "main", Flag(w.mainOn)] by {
      assert head == "SET_SWITCHES" + [':'] + "main" + [':'] + Flag(w.mainOn);
      SplitThreeParts("SET_SWITCHES", "main", Flag(w.mainOn), ':');
    }
    assert FieldValues(segs[1..], SwitchKeys()) == Some(flags) by {
      assert segs[1..] == Pairs(SwitchKeys(), flags);
      FieldValuesOf(SwitchKeys(), flags);
    }
  }

  /** The reference parser reads back any debug level, including -1. */
  lemma {:induction false} DebugLineRoundTrip(level: int)
    ensures ParseDebugLine(DebugLine(level)) == Some(level)
  {
    DebugLiterals();
    assert DebugLine(level) == "SET_DEBUG" + [':'] + "debug" + [':'] + IntToString(level);
    IntToStringNoSep(level, ':');
    SplitThreeParts("SET_DEBUG", "debug", IntToString(level), ':');
    IntRoundTrip(level);
  }

  /** No piece of a line built from newline-free keys and values is a newline. */
  lemma {:induction false} FieldsNoNewline(keys: seq<string>, values: seq<string>)
    requires |keys| == |values|
    requires AllLack(keys, '\n') && AllLack(values, '\n')
    ensures '\n' !in Fields(keys, values)
    decreases |keys|
  {
    if |keys| != 0 {
      assert Lacks(keys[0], '\n') && Lacks(values[0], '\n');
      assert AllLack(keys[1..], '\n') && AllLack(values[1..], '\n') by {
        forall i | 0 <= i < |keys| - 1
          ensures Lacks(keys[1..][i], '\n') && Lacks(values[1..][i], '\n')
        {
          assert Lacks(keys[i + 1], '\n') && Lacks(values[i + 1], '\n');
        }
      }
      FieldsNoNewline(keys[1..], values[1..]);
    }
  }

  /** The merged first segment holds a comma or a newline only if one of its two values does. */
  lemma {:induction false} SettingsHeadLacks(p: Parameters, c: char)
    requires c == ',' || c == '\n'
    requires Lacks(p.gpaTarget, c) && Lacks(p.sprayWidth, c)
    ensures c !in SettingsHead(p)
  {
    SettingsLiterals();
  }

  lemma {:induction false} SettingsLineNoNewline(p: Parameters)
    requires NoNewline(p)
    ensures '\n' !in SettingsLine(p)
  {
    SettingsHeadLacks(p, '\n');
    SettingsKeysClean();
    CleanLacks(SettingsKeys(), '\n');
    FieldsNoNewline(SettingsKeys(), Values(p));
    assert SettingsLine(p) == SettingsHead(p) + Fields(SettingsKeys(), Values(p));
  }

  lemma {:induction false} SwitchesLineNoNewline(w: Switches)
    ensures '\n' !in SwitchesLine(w)
  {
    FlagsClean(w);
    SwitchesLiterals();
    CleanLacks(SwitchKeys(), '\n');
    CleanLacks([Flag(w.pwmConventional), Flag(w.stagger)], '\n');
    FieldsNoNewline(SwitchKeys(), [Flag(w.pwmConventional), Flag(w.stagger)]);
  }

  lemma {:induction false} DebugLineNoNewline(level: int)
    ensures '\n' !in DebugLine(level)
  {
    IntToStringNoSep(level, '\n');
    DebugLiterals();
  }

  /**
   * When no text box holds a newline, the message is exactly three lines:
   * settings, switches and debug level, in that order.
   */
  lemma {:induction false} MessageLines(f: Form)
    requires NoNewline(f.parameters)
    ensures Split(GenerateSettingsMessage(f), '\n')
         == [SettingsLine(f.parameters), SwitchesLine(f.switches), DebugLine(f.debugLevel)]
  {
    SettingsLineNoNewline(f.parameters);
    SwitchesLineNoNewline(f.switches);
    DebugLineNoNewline(f.debugLevel);
    SplitThreeParts(SettingsLine(f.parameters), SwitchesLine(f.switches), DebugLine(f.debugLevel), '\n');
  }

  lemma {:induction false} ParseThreeLines(msg: string, settings: string, switches: string, debug: string, f: Form)
    requires Split(msg, '\n') == [settings, switches, debug]
    requires ParseSettingsLine(settings) == Some(f.parameters)
    requires ParseSwitchesLine(switches) == Some(f.switches)
    requires ParseDebugLine(debug) == Some(f.debugLevel)
    ensures ParseSettingsMessage(msg) == Some(f)
  {
  }

  /**
   * The reference parser reads back the whole form: every text box
   * verbatim, every check box and the debug level.
   */
  lemma {:induction false} SettingsMessageRoundTrip(f: Form)
    requires Sendable(f.parameters)
    ensures ParseSettingsMessage(GenerateSettingsMessage(f)) == Some(f)
  {
    SendableLacks(f.parameters);
    MessageLines(f);
    SettingsLineRoundTrip(f.parameters);
    SwitchesLineRoundTrip(f.switches);
    DebugLineRoundTrip(f.debugLevel);
    ParseThreeLines(GenerateSettingsMessage(f), SettingsLine(f.parameters), SwitchesLine(f.switches),
                    DebugLine(f.debugLevel), f);
  }

  lemma {:induction false} FieldsTwo(k1: string, k2: string, v1: string, v2: string)
    ensures Fields([k1, k2], [v1, v2]) == "," + k1 + ":" + v1 + "," + k2 + ":" + v2
  {
    assert [k1, k2][1..] == [k2] && [v1, v2][1..] == [v2];
    assert Fields([k2], [v2]) == Field(k2, v2) + Fields([], []);
  }

  /** The SET_SWITCHES line spelled out: each switch is its own digit after its own key. */
  lemma {:induction false} SwitchesLineText(w: Switches)
    ensures SwitchesLine(w)
         == "SET_SWITCHES:main:" + Flag(w.mainOn) + ",pwm:" + Flag(w.pwmConventional)
            + ",stagger:" + Flag(w.stagger)
  {
    FieldsTwo("pwm", "stagger", Flag(w.pwmConventional), Flag(w.stagger));
    assert "," + "pwm" + ":" == ",pwm:";
    assert "," + "stagger" + ":" == ",stagger:";
  }

  /** The switches line with every check box cleared. */
  lemma {:induction false} ClearedSwitchesLine()
    ensures SwitchesLine(Switches(false, false, false)) == "SET_SWITCHES:main:0,pwm:0,stagger:0"
  {
    SwitchesLineText(Switches(false, false, false));
    assert "SET_SWITCHES:main:" + "0" + ",pwm:" + "0" + ",stagger:" + "0"
        == "SET_SWITCHES:main:0,pwm:0,stagger:0";
  }

  /** The debug line for level 0. */
  lemma {:induction false} LevelZeroLine()
    ensures DebugLine(0) == "SET_DEBUG:debug:0"
  {
  }

  /**
   * With every check box cleared and debug level 0 selected, the second and
   * third lines are the fixed texts the controller expects.
   */
  lemma {:induction false} ClearedSwitchesLevelZero(f: Form)
    requires NoNewline(f.parameters)
    requires f.switches == Switches(false, false, false) && f.debugLevel == 0
    ensures Split(GenerateSettingsMessage(f), '\n')
         == [SettingsLine(f.parameters), "SET_SWITCHES:main:0,pwm:0,stagger:0", "SET_DEBUG:debug:0"]
  {
    MessageLines(f);
    ClearedSwitchesLine();
    LevelZeroLine();
  }
}
