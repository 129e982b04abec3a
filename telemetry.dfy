/** The panel's telemetry path: a received frame `name:value,name:value,...`
    is cut into segments, each segment into a name and a value, and the four
    recognized names overwrite the matching read-only text box on the form. */
module Telemetry {
  import opened Text

  // ---------------------------------------------------------------------------
  // Decoding a frame

  /** The trimmed (name, value) pair of one segment, if the segment splits on
      ':' into exactly two parts; nothing otherwise. */
  function DecodeSegment(segment: string): seq<(string, string)> {
    var parts := Split(segment, ':');
    if |parts| == 2 then [(Trim(parts[0]), Trim(parts[1]))] else []
  }

  /** The pairs of a sequence of segments, in order. */
  function DecodeSegments(segments: seq<string>): seq<(string, string)> {
    if |segments| == 0 then []
    else DecodeSegment(segments[0]) + DecodeSegments(segments[1..])
  }

  /** All pairs a frame carries, in the order they appear. */
  function Decode(frame: string): seq<(string, string)> {
    DecodeSegments(Split(frame, ','))
  }

  /** A segment yields a pair exactly when it holds one colon, and the pair is
      the trimmed text before and after that colon. */
  lemma {:induction false} DecodeSegmentSpec(segment: string)
    ensures |DecodeSegment(segment)| == 1 <==> Count(segment, ':') == 1
    ensures DecodeSegment(segment) == [] <==> Count(segment, ':') != 1
    ensures Count(segment, ':') == 1 ==>
      exists before, after ::
        && segment == before + ":" + after
        && ':' !in before && ':' !in after
        && DecodeSegment(segment) == [(Trim(before), Trim(after))]
  {
    SplitTwo(segment, ':');
    if Count(segment, ':') == 1 {
      var parts := Split(segment, ':');
      SplitPartsNoSep(segment, ':');
      assert ':' !in parts[0] && ':' !in parts[1];
      assert segment == parts[0] + ":" + parts[1];
    }
  }

  /** Segments decode independently: a malformed segment drops out without
      affecting those before or after it. */
  lemma {:induction false} DecodeSegmentsConcat(a: seq<string>, b: seq<string>)
    ensures DecodeSegments(a + b) == DecodeSegments(a) + DecodeSegments(b)
  {
    if |a| == 0 {
      assert a + b == b;
    } else {
      assert (a + b)[1..] == a[1..] + b;
      DecodeSegmentsConcat(a[1..], b);
    }
  }

  lemma {:induction false} DecodeSegmentsSnoc(a: seq<string>, segment: string)
    ensures DecodeSegments(a + [segment]) == DecodeSegments(a) + DecodeSegment(segment)
  {
    DecodeSegmentsConcat(a, [segment]);
    assert DecodeSegments([segment]) == DecodeSegment(segment) + DecodeSegments([]);
  }

  /** The text of one pair on the wire. */
  function FieldText(p: (string, string)): string {
    p.0 + ":" + p.1
  }

  lemma {:induction false} FieldTextKeepsOut(p: (string, string), c: char)
    requires c != ':' && c !in p.0 && c !in p.1
    ensures c !in FieldText(p)
  {
    var t := FieldText(p);
    forall i | 0 <= i < |t| ensures t[i] != c {
      if i < |p.0| { assert t[i] == p.0[i]; }
      else if i > |p.0| { assert t[i] == p.1[i - |p.0| - 1]; }
    }
  }

  /** The frame a sender produces from a list of pairs. */
  function EncodeFrame(pairs: seq<(string, string)>): string {
    Join(FieldTexts(pairs), ',')
  }

  function FieldTexts(pairs: seq<(string, string)>): (r: seq<string>)
    ensures |r| == |pairs|
    ensures forall i :: 0 <= i < |pairs| ==> r[i] == FieldText(pairs[i])
  {
    if |pairs| == 0 then [] else [FieldText(pairs[0])] + FieldTexts(pairs[1..])
  }

  /** A pair is well formed when neither part holds a delimiter. */
  predicate WellFormedPair(p: (string, string)) {
    ':' !in p.0 && ':' !in p.1 && ',' !in p.0 && ',' !in p.1
  }

  function TrimPairs(pairs: seq<(string, string)>): (r: seq<(string, string)>)
    ensures |r| == |pairs|
    ensures forall i :: 0 <= i < |pairs| ==> r[i] == (Trim(pairs[i].0), Trim(pairs[i].1))
  {
    if |pairs| == 0 then [] else [(Trim(pairs[0].0), Trim(pairs[0].1))] + TrimPairs(pairs[1..])
  }

  lemma {:induction false} DecodeFieldTexts(pairs: seq<(string, string)>)
    requires forall i :: 0 <= i < |pairs| ==> WellFormedPair(pairs[i])
    ensures DecodeSegments(FieldTexts(pairs)) == TrimPairs(pairs)
  {
    if |pairs| > 0 {
      var p := pairs[0];
      assert WellFormedPair(p);
      SplitJoin([p.0, p.1], ':');
      assert Join([p.0, p.1], ':') == FieldText(p);
      assert DecodeSegment(FieldText(p)) == [(Trim(p.0), Trim(p.1))];
      DecodeFieldTexts(pairs[1..]);
      assert FieldTexts(pairs)[1..] == FieldTexts(pairs[1..]);
    }
  }

  /** Decoding a frame of well-formed pairs gives back every pair, trimmed
      and in order; an empty frame carries no pair. */
  lemma {:induction false} DecodeEncodeFrame(pairs: seq<(string, string)>)
    requires forall i :: 0 <= i < |pairs| ==> WellFormedPair(pairs[i])
    ensures Decode(EncodeFrame(pairs)) == TrimPairs(pairs)
  {
    if |pairs| == 0 {
      assert Split("", ',') == [""];
      assert Split("", ':') == [""];
    } else {
      var texts := FieldTexts(pairs);
      forall t | t in texts ensures ',' !in t {
        var i :| 0 <= i < |texts| && texts[i] == t;
        FieldTextKeepsOut(pairs[i], ',');
      }
      SplitJoin(texts, ',');
      DecodeFieldTexts(pairs);
    }
  }

  /** A pair with no whitespace around its name or its value. */
  predicate Trimmed(p: (string, string)) {
    Trim(p.0) == p.0 && Trim(p.1) == p.1
  }

  /** A comma-free segment yields only trimmed pairs free of both separators. */
  lemma {:induction false} DecodeSegmentClean(segment: string)
    requires ',' !in segment
    ensures forall i :: 0 <= i < |DecodeSegment(segment)| ==>
      WellFormedPair(DecodeSegment(segment)[i]) && Trimmed(DecodeSegment(segment)[i])
  {
    var parts := Split(segment, ':');
    if |parts| == 2 {
      SplitPartsNoSep(segment, ':');
      SplitPartsKeepOut(segment, ':', ',');
      assert ':' !in parts[0] && ':' !in parts[1] && ',' !in parts[0] && ',' !in parts[1];
      TrimKeepsOut(parts[0], ':');
      TrimKeepsOut(parts[0], ',');
      TrimKeepsOut(parts[1], ':');
      TrimKeepsOut(parts[1], ',');
      TrimIdempotent(parts[0]);
      TrimIdempotent(parts[1]);
    }
  }

  lemma {:induction false} DecodeSegmentsClean(segments: seq<string>)
    requires forall i :: 0 <= i < |segments| ==> ',' !in segments[i]
    ensures forall i :: 0 <= i < |DecodeSegments(segments)| ==>
      WellFormedPair(DecodeSegments(segments)[i]) && Trimmed(DecodeSegments(segments)[i])
  {
    if |segments| > 0 {
      DecodeSegmentClean(segments[0]);
      DecodeSegmentsClean(segments[1..]);
    }
  }

  /** Every pair any frame yields has a trimmed name and value, and neither
      holds a comma or a colon. */
  lemma {:induction false} DecodedPairsClean(frame: string)
    ensures forall i :: 0 <= i < |Decode(frame)| ==>
      WellFormedPair(Decode(frame)[i]) && Trimmed(Decode(frame)[i])
  {
    SplitPartsNoSep(frame, ',');
    DecodeSegmentsClean(Split(frame, ','));
  }

  /** Writing the decoded pairs back out as a frame and decoding that gives
      the same pairs: decoding loses nothing it keeps. */
  lemma {:induction false} DecodeReencode(frame: string)
    ensures Decode(EncodeFrame(Decode(frame))) == Decode(frame)
  {
    var pairs := Decode(frame);
    DecodedPairsClean(frame);
    DecodeEncodeFrame(pairs);
    assert forall i :: 0 <= i < |pairs| ==> TrimPairs(pairs)[i] == pairs[i];
  }

  // ---------------------------------------------------------------------------
  // What the display shows

  /** The four telemetry text boxes: txtpressure, txtonTime, txtactualGPAave
      and txtgpsSpeed. */
  datatype Readings = Readings(pressure: string, onTime: string, actualGPAave: string, gpsSpeed: string)

  /** The closed set of names the display knows. */
  predicate IsRecognized(name: string) {
    name == "pressure" || name == "onTime" || name == "actualGPAave" || name == "gpsSpeed"
  }

  /** The text box a recognized name is shown in. */
  function Field(r: Readings, name: string): string
    requires IsRecognized(name)
  {
    if name == "pressure" then r.pressure
    else if name == "onTime" then r.onTime
    else if name == "actualGPAave" then r.actualGPAave
    else r.gpsSpeed
  }

  /** The `switch (name)` dispatch of one decoded pair. A recognized name
      overwrites its own text box and no other; any other name changes
      nothing. */
  function Apply(r: Readings, name: string, value: string): (r': Readings)
    ensures forall k :: IsRecognized(k) ==> Field(r', k) == if k == name then value else Field(r, k)
    ensures !IsRecognized(name) ==> r' == r
  {
    match name
    case "pressure" => r.(pressure := value)
    case "onTime" => r.(onTime := value)
    case "actualGPAave" => r.(actualGPAave := value)
    case "gpsSpeed" => r.(gpsSpeed := value)
    case _ => r
  }

  /** The display after dispatching a sequence of pairs, first to last. */
  function ApplyAll(r: Readings, pairs: seq<(string, string)>): Readings
    decreases |pairs|
  {
    if |pairs| == 0 then r else ApplyAll(Apply(r, pairs[0].0, pairs[0].1), pairs[1..])
  }

  /** The value of the last pair named `name`, or `otherwise` if none is. */
  function LastValue(pairs: seq<(string, string)>, name: string, otherwise: string): string
    decreases |pairs|
  {
    if |pairs| == 0 then otherwise
    else if pairs[|pairs| - 1].0 == name then pairs[|pairs| - 1].1
    else LastValue(pairs[..|pairs| - 1], name, otherwise)
  }

  /** Dispatching two runs of pairs is dispatching the first, then the second;
      so successive frames compose. */
  lemma {:induction false} ApplyAllConcat(r: Readings, a: seq<(string, string)>, b: seq<(string, string)>)
    ensures ApplyAll(r, a + b) == ApplyAll(ApplyAll(r, a), b)
    decreases |a|
  {
    if |a| == 0 {
      assert a + b == b;
    } else {
      assert (a + b)[0] == a[0];
      assert (a + b)[1..] == a[1..] + b;
      ApplyAllConcat(Apply(r, a[0].0, a[0].1), a[1..], b);
    }
  }

  /** Last one wins: after a run of pairs, each text box holds the value of the
      last pair with its name, or what it held before if no pair names it. */
  lemma {:induction false} ApplyAllLastWins(r: Readings, pairs: seq<(string, string)>, name: string)
    requires IsRecognized(name)
    ensures Field(ApplyAll(r, pairs), name) == LastValue(pairs, name, Field(r, name))
    decreases |pairs|
  {
    if |pairs| > 0 {
      var init, last := pairs[..|pairs| - 1], pairs[|pairs| - 1];
      assert pairs == init + [last];
      ApplyAllConcat(r, init, [last]);
      ApplyAllLastWins(r, init, name);
      var mid := ApplyAll(r, init);
      assert ApplyAll(mid, [last]) == ApplyAll(Apply(mid, last.0, last.1), []);
    }
  }

  /** Pairs none of whose names is recognized leave the display as it was. */
  lemma {:induction false} ApplyAllUnrecognized(r: Readings, pairs: seq<(string, string)>)
    requires forall i :: 0 <= i < |pairs| ==> !IsRecognized(pairs[i].0)
    ensures ApplyAll(r, pairs) == r
    decreases |pairs|
  {
    if |pairs| > 0 {
      assert !IsRecognized(pairs[0].0);
      ApplyAllUnrecognized(r, pairs[1..]);
    }
  }

  // ---------------------------------------------------------------------------
  // The form's display state

  /** The four telemetry text boxes of the form, updated in place. */
  class Display {
    var pressure: string
    var onTime: string
    var actualGPAave: string
    var gpsSpeed: string

    function View(): Readings
      reads this
    {
      Readings(pressure, onTime, actualGPAave, gpsSpeed)
    }

    /** The text boxes start empty. */
    constructor ()
      ensures View() == Readings("", "", "", "")
    {
      pressure, onTime, actualGPAave, gpsSpeed := "", "", "", "";
    }

    /** The delegate run on the UI thread for one decoded pair. */
    method Show(name: string, value: string)
      modifies this
      ensures View() == Apply(old(View()), name, value)
    {
      match name {
        case "pressure" => pressure := value;
        case "onTime" => onTime := value;
        case "actualGPAave" => actualGPAave := value;
        case "gpsSpeed" => gpsSpeed := value;
        case _ =>
      }
    }

    /** `UpdateUI`: every segment of the frame that splits into a name and a
        value is dispatched in turn; the display ends as the decoded pairs,
        applied first to last, leave it, so each text box holds the last value
        the frame gives its name. */
    method UpdateUI(data: string)
      modifies this
      ensures View() == ApplyAll(old(View()), Decode(data))
      ensures forall k :: IsRecognized(k) ==>
        Field(View(), k) == LastValue(Decode(data), k, Field(old(View()), k))
    {
      var variables := Split(data, ',');
      var i := 0;
      while i < |variables|
        invariant 0 <= i <= |variables|
        invariant View() == ApplyAll(old(View()), DecodeSegments(variables[..i]))
      {
        var variable := variables[i];
        ghost var done := DecodeSegments(variables[..i]);
        assert variables[..i + 1] == variables[..i] + [variable];
        DecodeSegmentsSnoc(variables[..i], variable);
        var parts := Split(variable, ':');
        if |parts| != 2 {
          assert done + DecodeSegment(variable) == done;
          i := i + 1;
          continue;
        }
        var name := Trim(parts[0]);
        var value := Trim(parts[1]);
        ghost var before := View();
        Show(name, value);
        ApplyAllConcat(old(View()), done, [(name, value)]);
        assert ApplyAll(before, [(name, value)]) == Apply(before, name, value);
        i := i + 1;
      }
      assert variables[..i] == variables;
      forall k | IsRecognized(k)
        ensures Field(View(), k) == LastValue(Decode(data), k, Field(old(View()), k))
      {
        ApplyAllLastWins(old(View()), Decode(data), k);
      }
    }
  }

  // ---------------------------------------------------------------------------
  // Examples

  /** A segment `name:value` with no further colon decodes to its trimmed
      name and value. */
  lemma {:induction false} DecodePairSegment(name: string, value: string)
    requires ':' !in name && ':' !in value
    ensures DecodeSegment(name + ":" + value) == [(Trim(name), Trim(value))]
  {
    SplitJoin([name, value], ':');
    assert Join([name, value], ':') == name + ":" + value;
  }

  /** A frame decodes to the pairs of its comma-free segments, in order. */
  lemma {:induction false} DecodeJoined(segments: seq<string>)
    requires |segments| >= 1
    requires forall i :: 0 <= i < |segments| ==> ',' !in segments[i]
    ensures Decode(Join(segments, ',')) == DecodeSegments(segments)
  {
    SplitJoin(segments, ',');
  }

  lemma {:induction false} SampleTrims()
    ensures Trim("pressure") == "pressure" && Trim(" 55.2") == "55.2"
    ensures Trim(" onTime") == "onTime" && Trim("12") == "12"
    ensures Trim("42") == "42" && Trim("gpsSpeed") == "gpsSpeed" && Trim("5") == "5"
  {
    assert TrimStart("pressure") == "pressure" && TrimEnd("pressure") == "pressure";
    assert TrimStart(" 55.2") == "55.2";
    assert TrimEnd("55.2") == "55.2";
    assert TrimStart(" onTime") == "onTime";
    assert TrimEnd("onTime") == "onTime";
    assert TrimStart("12") == "12" && TrimEnd("12") == "12";
    assert TrimStart("42") == "42" && TrimEnd("42") == "42";
    assert TrimStart("gpsSpeed") == "gpsSpeed" && TrimEnd("gpsSpeed") == "gpsSpeed";
    assert TrimStart("5") == "5" && TrimEnd("5") == "5";
  }

  /** A segment without a colon between two pairs drops out, and the pairs
      on either side of it still arrive, in order. */
  lemma {:induction false} DecodeSkipsGarbage(n1: string, v1: string, junk: string, n2: string, v2: string)
    requires WellFormedPair((n1, v1)) && WellFormedPair((n2, v2))
    requires ':' !in junk && ',' !in junk
    ensures Decode(n1 + ":" + v1 + "," + junk + "," + n2 + ":" + v2)
         == [(Trim(n1), Trim(v1)), (Trim(n2), Trim(v2))]
  {
    var s0, s2 := n1 + ":" + v1, n2 + ":" + v2;
    FieldTextKeepsOut((n1, v1), ',');
    FieldTextKeepsOut((n2, v2), ',');
    assert Join([s0, junk, s2], ',') == s0 + "," + (junk + "," + s2) by {
      assert [s0, junk, s2][1..] == [junk, s2];
      assert Join([junk, s2], ',') == junk + "," + s2;
    }
    assert n1 + ":" + v1 + "," + junk + "," + n2 + ":" + v2 == s0 + "," + (junk + "," + s2);
    DecodeJoined([s0, junk, s2]);
    assert DecodeSegments([s0, junk, s2]) == DecodeSegment(s0) + DecodeSegment(junk) + DecodeSegment(s2) by {
      assert [s0, junk, s2] == [s0, junk] + [s2];
      DecodeSegmentsSnoc([s0, junk], s2);
      assert [s0, junk] == [s0] + [junk];
      DecodeSegmentsSnoc([s0], junk);
      assert [s0] == [] + [s0];
      DecodeSegmentsSnoc([], s0);
    }
    DecodePairSegment(n1, v1);
    SplitNoSep(junk, ':');
    DecodePairSegment(n2, v2);
  }

  lemma {:induction false} SpacedFrameText()
    ensures EncodeFrame([("pressure", " 55.2"), (" onTime", "12")]) == "pressure: 55.2, onTime:12"
  {
    var pairs := [("pressure", " 55.2"), (" onTime", "12")];
    assert FieldText(pairs[0]) == "pressure: 55.2";
    assert FieldText(pairs[1]) == " onTime:12";
    assert FieldTexts(pairs) == ["pressure: 55.2", " onTime:12"];
  }

  lemma {:induction false} SpacedFramePairs()
    ensures WellFormedPair(("pressure", " 55.2")) && WellFormedPair((" onTime", "12"))
  {
  }

  /** A frame with spaces around names and values shows the trimmed values. */
  lemma {:induction false} DecodeSpacedFrame()
    ensures Decode("pressure: 55.2, onTime:12") == [("pressure", "55.2"), ("onTime", "12")]
  {
    var pairs := [("pressure", " 55.2"), (" onTime", "12")];
    SpacedFrameText();
    SpacedFramePairs();
    DecodeEncodeFrame(pairs);
    SampleTrims();
  }

  lemma {:induction false} GarbledFrameText()
    ensures "pressure" + ":" + "42" + "," + "garbage" + "," + "gpsSpeed" + ":" + "5"
         == "pressure:42,garbage,gpsSpeed:5"
  {
  }

  lemma {:induction false} GarbledFramePieces()
    ensures WellFormedPair(("pressure", "42")) && WellFormedPair(("gpsSpeed", "5"))
    ensures ':' !in "garbage" && ',' !in "garbage"
  {
  }

  /** A segment without a colon drops out; its neighbours still arrive. */
  lemma {:induction false} DecodeGarbledFrame()
    ensures Decode("pressure:42,garbage,gpsSpeed:5") == [("pressure", "42"), ("gpsSpeed", "5")]
  {
    GarbledFramePieces();
    DecodeSkipsGarbage("pressure", "42", "garbage", "gpsSpeed", "5");
    GarbledFrameText();
    SampleTrims();
  }

  /** A comma-free frame whose colons cut it into three parts yields no pair. */
  lemma {:induction false} DecodeThreeParts(frame: string, parts: seq<string>)
    requires |parts| == 3 && frame == Join(parts, ':') && ',' !in frame
    requires forall i :: 0 <= i < 3 ==> ':' !in parts[i]
    ensures Decode(frame) == []
  {
    SplitNoSep(frame, ',');
    SplitJoin(parts, ':');
    assert DecodeSegments([frame]) == DecodeSegment(frame) + DecodeSegments([]);
  }

  lemma {:induction false} TwoColonsText()
    ensures "pressure:4:2" == Join(["pressure", "4", "2"], ':') && ',' !in "pressure:4:2"
    ensures ':' !in "pressure" && ':' !in "4" && ':' !in "2"
  {
  }

  /** A segment with two colons is dropped whole, not cut at its first colon. */
  lemma {:induction false} DecodeTwoColons()
    ensures Decode("pressure:4:2") == []
  {
    TwoColonsText();
    DecodeThreeParts("pressure:4:2", ["pressure", "4", "2"]);
  }
}
