# SprayerControl panel codec, in Dafny

SprayerControl is a Windows Forms panel for a nozzle sprayer controller (an
Arduino on the machine). It talks to the controller over UDP in a small text
format. This project models the text logic in
`Spray_Control/SprayerControl/Form1.cs` and proves properties of it.

- **Telemetry** (`telemetry.dfy`). `UpdateUI` models how the panel handles an
  incoming frame `name:value,name:value,...`:
  - it cuts the frame on `,` and each segment on `:`;
  - a segment is kept only when that second cut gives exactly two parts;
  - name and value are trimmed;
  - the four names `pressure`, `onTime`, `actualGPAave` and `gpsSpeed`
    overwrite their own text box.

  The four text boxes are a `Display` class. `UpdateUI` is a method with the
  source's loop, proved against the pure `Decode` function and the dispatch
  function `ApplyAll`.
- **Settings message** (`settings.dfy`). `GenerateSettingsMessage` is a pure
  encoder from a snapshot of the form to three newline-separated lines:
  `UPDATE_SETTINGS:...`, `SET_SWITCHES:...` and `SET_DEBUG:debug:<n>`.
  - The snapshot is 15 text values, 3 check boxes and the selected debug index.
  - The source puts no comma between the GPATarget value and the `SprayWidth`
    key, and the model keeps that as written.
  - The controller's firmware is not part of this model. Its partner here is a
    reference parser for the same format, `ParseSettingsMessage`. The encoder
    is proved to round-trip through it.
- **Debug levels** (`debug_levels.dfy`):
  - the description table of levels 0 to 10, with "Unknown" for every other
    number;
  - the combo box (a class) that `PopulateDebugLevelComboBox` fills with 11
    entries `"{i} - {description}"` before it selects index 0.
- **Text** (`text.dfy`) holds what the three share:
  - `String.Split(char)` as .NET defines it (empty parts are kept);
  - `Join`;
  - `Trim`;
  - decimal formatting and parsing of integers.

How the model reads the code where it matters:
- `Split(':')` keeps empty parts. So a segment with two or more colons gives
  three or more parts and is dropped whole. It is not cut at its first colon.
  `DecodeTwoColons` shows this.
- The text boxes of the display start empty. The combo box starts with no
  entries and selected index -1 (nothing selected).

## Model

| member | source | states |
|---|---|---|
| Text.Split | Spray_Control/SprayerControl/Form1.cs:70 | `String.Split(char)`: always at least one part; specified by `SplitJoin`, `JoinSplit`, `SplitTwo` and `SplitCount` |
| Text.Trim | Spray_Control/SprayerControl/Form1.cs:76-77 | `String.Trim()`; specified by `TrimIsSlice`, `TrimDropsWs`, `TrimEnds` and `TrimIdempotent` |
| Text.IntToString | Spray_Control/SprayerControl/Form1.cs:120 | the decimal text of the debug index; specified by `IntRoundTrip` |
| Text.SplitJoin | Spray_Control/SprayerControl/Form1.cs:70 | splitting a join of separator-free parts gives the parts back, empty ones included |
| Text.JoinSplit | Spray_Control/SprayerControl/Form1.cs:70 | joining the parts of a split gives the original string back |
| Text.SplitTwo | Spray_Control/SprayerControl/Form1.cs:73-74 | a split gives exactly two parts iff the separator occurs exactly once, and then the string is part 0, separator, part 1 |
| Text.TrimIdempotent | Spray_Control/SprayerControl/Form1.cs:76-77 | trimming twice is trimming once |
| Text.TrimDropsWs | Spray_Control/SprayerControl/Form1.cs:76-77 | everything trimmed off either end is whitespace |
| Text.TrimEnds | Spray_Control/SprayerControl/Form1.cs:76-77 | a trimmed value is empty or neither starts nor ends with whitespace |
| Text.IntRoundTrip | Spray_Control/SprayerControl/Form1.cs:120 | the decimal text of any integer, negative ones included, parses back to it |
| Telemetry.DecodeSegment | Spray_Control/SprayerControl/Form1.cs:73-77 | the pair one segment yields, if any; specified by `DecodeSegmentSpec` |
| Telemetry.DecodeSegments | Spray_Control/SprayerControl/Form1.cs:71-77 | the pairs of the segments in order; specified by `DecodeSegmentsConcat` |
| Telemetry.Decode | Spray_Control/SprayerControl/Form1.cs:70-77 | all pairs of a frame in order; specified by `DecodeEncodeFrame`, `DecodedPairsClean` and `DecodeReencode` |
| Telemetry.ApplyAll | Spray_Control/SprayerControl/Form1.cs:71-96 | the display after dispatching pairs first to last; specified by `ApplyAllLastWins`, `ApplyAllUnrecognized` and `ApplyAllConcat` |
| Telemetry.DecodeSegmentSpec | Spray_Control/SprayerControl/Form1.cs:73-77 | a segment yields a pair iff it holds exactly one colon; the pair is the trimmed text before and after it; with no colon or with two or more it yields nothing |
| Telemetry.DecodeSegmentsConcat | Spray_Control/SprayerControl/Form1.cs:71-74 | segments decode independently, so a dropped segment does not affect those before or after it |
| Telemetry.DecodeEncodeFrame | Spray_Control/SprayerControl/Form1.cs:70-77 | a frame built from pairs with no `,` or `:` decodes to those pairs, trimmed, in order |
| Telemetry.DecodedPairsClean | Spray_Control/SprayerControl/Form1.cs:70-77 | every pair any frame yields has a trimmed name and value, neither holding a comma or a colon |
| Telemetry.DecodeReencode | Spray_Control/SprayerControl/Form1.cs:70-77 | writing the decoded pairs back out as a frame and decoding that again gives the same pairs |
| Telemetry.Apply | Spray_Control/SprayerControl/Form1.cs:80-94 | a recognized name overwrites its own text box and no other; any other name changes nothing |
| Telemetry.ApplyAllUnrecognized | Spray_Control/SprayerControl/Form1.cs:79-95 | pairs whose names are all unrecognized leave all four text boxes as they were |
| Telemetry.ApplyAllConcat | Spray_Control/SprayerControl/Form1.cs:71-96 | dispatching two runs of pairs is dispatching the first and then the second, so successive frames compose |
| Telemetry.ApplyAllLastWins | Spray_Control/SprayerControl/Form1.cs:71-96 | each text box ends with the value of the last pair that names it, or its earlier value if none does |
| Telemetry.Display.Show | Spray_Control/SprayerControl/Form1.cs:79-95 | the delegate's new display state is `Apply` of the old one |
| Telemetry.Display.UpdateUI | Spray_Control/SprayerControl/Form1.cs:68-97 | the loop leaves the display as `ApplyAll` of the decoded pairs over the old display; each text box holds the last value the frame gives its name, or its old value |
| Telemetry.DecodeSkipsGarbage | Spray_Control/SprayerControl/Form1.cs:70-77 | a colon-free segment between two pairs drops out and both pairs still arrive, in order |
| Telemetry.DecodeSpacedFrame | Spray_Control/SprayerControl/Form1.cs:76-77 | `pressure: 55.2, onTime:12` decodes to the trimmed pairs `(pressure, 55.2)` and `(onTime, 12)` |
| Telemetry.DecodeGarbledFrame | Spray_Control/SprayerControl/Form1.cs:73-74 | `pressure:42,garbage,gpsSpeed:5` decodes to the pressure and gpsSpeed pairs only |
| Telemetry.DecodeTwoColons | Spray_Control/SprayerControl/Form1.cs:73-74 | `pressure:4:2` yields no pair at all, not `(pressure, 4:2)`; it rests on the general `DecodeThreeParts` |
| Settings.SettingsLine | Spray_Control/SprayerControl/Form1.cs:108-114 | the UPDATE_SETTINGS line; specified by `HeadParts`, `SettingsSegments`, `SettingsSegmentAt` and `SettingsLineRoundTrip` |
| Settings.SwitchesLine | Spray_Control/SprayerControl/Form1.cs:116-117 | the SET_SWITCHES line; specified by `SwitchesLineText` and `SwitchesLineRoundTrip` |
| Settings.DebugLine | Spray_Control/SprayerControl/Form1.cs:119-120 | the SET_DEBUG line; specified by `DebugLineRoundTrip` |
| Settings.GenerateSettingsMessage | Spray_Control/SprayerControl/Form1.cs:106-123 | the three lines joined by newlines; specified by `MessageLines` and `SettingsMessageRoundTrip` |
| Settings.Flag | Spray_Control/SprayerControl/Form1.cs:116-117 | a check box is sent as `1` exactly when checked and `0` exactly when not |
| Settings.ParseFlag | Spray_Control/SprayerControl/Form1.cs:116-117 | only `1` and `0` read back as a switch, and each reads back as the flag that produces it |
| Settings.StripSuffix | Spray_Control/SprayerControl/Form1.cs:108-109 | a suffix strips iff the text ends with it, and then the text is the remainder followed by the suffix |
| Settings.HeadParts | Spray_Control/SprayerControl/Form1.cs:108-109 | when the GPATarget and SprayWidth values hold no colon, the first comma segment splits on `:` into `UPDATE_SETTINGS`, `GPATarget`, the GPATarget value glued to `SprayWidth`, and the SprayWidth value |
| Settings.SettingsSegments | Spray_Control/SprayerControl/Form1.cs:108-114 | with no comma in any value, the UPDATE_SETTINGS line is 14 comma segments: the merged GPATarget/SprayWidth segment, then one `key:value` per key in the fixed order |
| Settings.SettingsSegmentAt | Spray_Control/SprayerControl/Form1.cs:109-114 | with no comma in any value, comma segment i + 1 of the UPDATE_SETTINGS line is key i of the fixed key list, a colon and the matching text box value, unaltered (colons and newlines included) |
| Settings.CommaInValueSplitsSegment | Spray_Control/SprayerControl/Form1.cs:109 | a FlowCalibration value `a,b` (a decimal comma) is sent unescaped and cuts its segment in two: the line has 15 segments, `FlowCalibration:a`, the bare `b`, then the other twelve pairs |
| Settings.SettingsLineRoundTrip | Spray_Control/SprayerControl/Form1.cs:108-114 | when no value holds a comma or a colon, the reference parser reads every one of the 15 text values back from the UPDATE_SETTINGS line; a newline inside a value does not disturb the line |
| Settings.SwitchesLineText | Spray_Control/SprayerControl/Form1.cs:116-117 | the SET_SWITCHES line is `SET_SWITCHES:main:<a>,pwm:<b>,stagger:<c>` with each switch's own digit |
| Settings.SwitchesLineRoundTrip | Spray_Control/SprayerControl/Form1.cs:116-117 | each of the three switches reads back independently from the SET_SWITCHES line |
| Settings.DebugLineRoundTrip | Spray_Control/SprayerControl/Form1.cs:119-120 | the debug index, any integer including -1, reads back from the SET_DEBUG line |
| Settings.SettingsLineNoNewline | Spray_Control/SprayerControl/Form1.cs:108-114 | the UPDATE_SETTINGS line holds no newline when no value holds one; commas and colons in values do not matter |
| Settings.SwitchesLineNoNewline | Spray_Control/SprayerControl/Form1.cs:116-117 | the SET_SWITCHES line never holds a newline |
| Settings.DebugLineNoNewline | Spray_Control/SprayerControl/Form1.cs:119-120 | the SET_DEBUG line never holds a newline |
| Settings.MessageLines | Spray_Control/SprayerControl/Form1.cs:122 | when no text box holds a newline (commas and colons allowed), the message is exactly three lines, in order: the UPDATE_SETTINGS, SET_SWITCHES and SET_DEBUG lines |
| Settings.SettingsMessageRoundTrip | Spray_Control/SprayerControl/Form1.cs:106-122 | when no value holds a comma, a colon or a newline, the reference parser reads the whole snapshot (15 values, 3 switches, debug index) back from the message |
| Settings.ClearedSwitchesLine | Spray_Control/SprayerControl/Form1.cs:116-117 | with all boxes cleared the switches line is `SET_SWITCHES:main:0,pwm:0,stagger:0` |
| Settings.LevelZeroLine | Spray_Control/SprayerControl/Form1.cs:119-120 | index 0 gives `SET_DEBUG:debug:0` |
| Settings.ClearedSwitchesLevelZero | Spray_Control/SprayerControl/Form1.cs:106-122 | with boxes cleared, index 0 and no newline in any text box, the message's lines are the settings line, `SET_SWITCHES:main:0,pwm:0,stagger:0` and `SET_DEBUG:debug:0` |
| DebugLevels.DebugLevelDescription | Spray_Control/SprayerControl/Form1.cs:35-52 | the description is "Unknown" exactly for the numbers outside 0 to 10 |
| DebugLevels.DebugLevelItem | Spray_Control/SprayerControl/Form1.cs:30 | one entry `"{level} - {description}"`; specified by `LevelPrefix`, `ItemLevelOf` and `DebugLevelItemsDistinct` |
| DebugLevels.DebugLevelItems | Spray_Control/SprayerControl/Form1.cs:28-31 | the entries for levels below n in order, n of them; specified by `DebugLevelItemsAt` |
| DebugLevels.DebugLevelComboBox.PopulateDebugLevelComboBox | Spray_Control/SprayerControl/Form1.cs:25-33 | the entries for levels 0 to 10 are appended after what the box held, in order, and index 0 is selected; a box that started empty then shows the level-0 entry |
| DebugLevels.DebugLevelItemsAt | Spray_Control/SprayerControl/Form1.cs:28-31 | entry k of the list is `"{k} - "` followed by the description of level k |
| DebugLevels.LevelPrefix | Spray_Control/SprayerControl/Form1.cs:30 | the number in front of `" - "` reads back as the level, whatever description follows |
| DebugLevels.ItemLevelOf | Spray_Control/SprayerControl/Form1.cs:30 | every entry's leading number reads back as its level |
| DebugLevels.DebugLevelItemsDistinct | Spray_Control/SprayerControl/Form1.cs:28-31 | different levels give different entries |
| DebugLevels.SelectedEntryMatchesSentLevel | Spray_Control/SprayerControl/Form1.cs:28-32 | after the start-up fill, entry k is level k's entry, and the index sent on the SET_DEBUG line equals the number that entry shows |
| DebugLevels.ElevenKnownLevels | Spray_Control/SprayerControl/Form1.cs:28-51 | the list has 11 entries; levels 0 to 10 all have a description and -1 and 11 are "Unknown" |

## Left out

- The UDP socket, the fixed controller endpoint 192.168.5.50:8888 and the
  sending of the datagram (Form1.cs:18-19, 99-104) are network I/O. The model
  stops at the message text.
- The perpetual `BeginReceive`/`EndReceive` re-arm loop (Form1.cs:55-66) is
  asynchronous callback plumbing. The model handles one frame at a time.
  `ApplyAllConcat` covers successive frames.
- The `Invoke` marshalling onto the UI thread (Form1.cs:79) is concurrency.
  Each queued delegate is modelled as running at once and in order.
- The UTF-8 conversion (Form1.cs:63, 102) is a library call. The model works
  on `string`s.
- Text.IntToString: writes `-` before a negative number, as the invariant
  culture does. `$"{debugLevel}"` uses the current culture's negative sign,
  and that matters only for the index -1 sent when nothing is selected.
- `String.Trim` strips every Unicode white-space character. The model's `IsWs`
  knows only space, tab, line feed, carriage return, vertical tab and form
  feed.
- `HelpButton_Click` (Form1.cs:130-136) opens a dialog. `Form1_Load`
  (Form1.cs:125-128) is empty. The generated designer layout holds no logic.
  `SendButton_Click` (Form1.cs:99-104) is not wired to a button there, and it
  is left out as I/O either way.
- The controller firmware that reads the settings message is not part of this
  model. The reference parser in `settings.dfy` stands in for it.
- Settings.SettingsMessageRoundTrip: proved only for text values free of `,`,
  `:` and newline. The source sends values unvalidated and unescaped. Each
  separator breaks the round trip in its own way:
  - a comma cuts a value's segment in two (`CommaInValueSplitsSegment`);
  - a colon adds a part to the value's `key:value` segment;
  - a newline adds a line to the message.
- Settings.SettingsSegments: stated for comma-free values only, because a comma
  in a value changes the segmentation (`CommaInValueSplitsSegment`).
- Settings.SettingsLineRoundTrip: proved only for text values free of `,` and
  `:`, the two characters the UPDATE_SETTINGS line is cut at. A newline does
  not matter to one line, and the lemma allows it.
