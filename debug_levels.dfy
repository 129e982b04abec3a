/**
 * The debug-level picker: a fixed table of eleven reporting levels of the
 * controller firmware, the combo box the panel fills from that table at
 * start-up, and the link between the selected entry and the level sent on
 * the SET_DEBUG line.
 */
module DebugLevels {
  import opened Text
  import Settings

  /** The highest level the table describes; the levels are 0 to MaxLevel. */
  const MaxLevel: int := 10

  /** What debug levels 0 to 10 of the firmware report, indexed by level. */
  const Descriptions: seq<string> := [
    "debug - Turns OFF all reporting",
    "dutycycleTurncomp - Individual nozzle reporting",
    "setPWMTiming - Sets timing of nozzle on cycle",
    "ControlNozzle - Controls nozzle (not used in a turn)",
    "Pressure - System pressure",
    "EvenOdd - Toggle firing of even/odd nozzles",
    "Flow - Flow rate control",
    "NozzleSpeed - Individual nozzle speed in a turn",
    "PrintDebug - Overall system reporting",
    "PrintAOG - Reports variables passed from AOG",
    "Calibrate_PSI_Flow - Calibration function"]

  /** What a debug level reports; any number outside the table is "Unknown". */
  function DebugLevelDescription(level: int): (r: string)
    ensures r == "Unknown" <==> !(0 <= level <= MaxLevel)
  {
    if 0 <= level < |Descriptions| then Descriptions[level] else "Unknown"
  }

  /** The text of the combo-box entry for one level: "{level} - {description}". */
  function DebugLevelItem(level: int): string {
    IntToString(level) + " - " + DebugLevelDescription(level)
  }

  /** The entries for levels 0 up to (but not including) n, in order. */
  function DebugLevelItems(n: nat): (items: seq<string>)
    ensures |items| == n
  {
    if n == 0 then [] else DebugLevelItems(n - 1) + [DebugLevelItem(n - 1)]
  }

  /** The level an entry stands for: the number in front of its first space. */
  function ItemLevel(item: string): Option<int> {
    ParseInt(Split(item, ' ')[0])
  }

  /**
   * The debug-level combo box: its list of entries and its selected index,
   * which is -1 while nothing is selected.
   */
  class DebugLevelComboBox {
    var items: seq<string>
    var selectedIndex: int

    /** A combo box as the designer creates it: no entries, nothing selected. */
    constructor ()
      ensures items == [] && selectedIndex == -1
    {
      items := [];
      selectedIndex := -1;
    }

    /** The entry currently shown, if the selected index names one. */
    function SelectedItem(): Option<string>
      reads this
    {
      if 0 <= selectedIndex < |items| then Some(items[selectedIndex]) else None
    }

    /**
     * Appends one entry per level 0 to 10, each "{level} - {description}",
     * and then selects index 0, which in a box that started empty shows the
     * entry for level 0.
     */
    method PopulateDebugLevelComboBox()
      modifies this
      ensures items == old(items) + DebugLevelItems(MaxLevel + 1)
      ensures selectedIndex == 0
      ensures old(items) == [] ==> SelectedItem() == Some(DebugLevelItem(0))
    {
      for i := 0 to MaxLevel + 1
        invariant items == old(items) + DebugLevelItems(i)
      {
        items := items + [DebugLevelItem(i)];
      }
      selectedIndex := 0;
      DebugLevelItemsAt(MaxLevel + 1, 0);
    }
  }

  // ---------------------------------------------------------------------
  // Properties
  // ---------------------------------------------------------------------

  /** Entry k of the list is the entry for level k. */
  lemma {:induction false} DebugLevelItemsAt(n: nat, k: int)
    requires 0 <= k < n
    ensures DebugLevelItems(n)[k] == DebugLevelItem(k)
  {
    if k < n - 1 {
      DebugLevelItemsAt(n - 1, k);
    }
  }

  /** Whatever follows it, a number and " - " in front read back as that number. */
  lemma {:induction false} LevelPrefix(level: int, description: string)
    ensures ItemLevel(IntToString(level) + " - " + description) == Some(level)
  {
    var digits := IntToString(level);
    var rest := "- " + description;
    assert digits + " - " + description == digits + [' '] + rest;
    IntToStringNoSep(level, ' ');
    SplitCons(digits, rest, ' ');
    IntRoundTrip(level);
  }

  /** Every entry starts with its level, and that prefix reads back as the level. */
  lemma {:induction false} ItemLevelOf(level: int)
    ensures ItemLevel(DebugLevelItem(level)) == Some(level)
  {
    LevelPrefix(level, DebugLevelDescription(level));
  }

  /** Different levels give different entries, so no two entries of the box coincide. */
  lemma {:induction false} DebugLevelItemsDistinct(i: int, j: int)
    requires i != j
    ensures DebugLevelItem(i) != DebugLevelItem(j)
  {
    ItemLevelOf(i);
    ItemLevelOf(j);
  }

  /**
   * After the start-up fill of an empty combo box, every selectable index k
   * shows the entry for level k, and the index itself is the level that the
   * SET_DEBUG line carries: the entry's own number reads back as the level
   * sent.
   */
  lemma {:induction false} SelectedEntryMatchesSentLevel(items: seq<string>, k: int)
    requires items == DebugLevelItems(MaxLevel + 1)
    requires 0 <= k < |items|
    ensures items[k] == DebugLevelItem(k)
    ensures ItemLevel(items[k]) == Some(k)
    ensures Settings.ParseDebugLine(Settings.DebugLine(k)) == ItemLevel(items[k])
  {
    DebugLevelItemsAt(MaxLevel + 1, k);
    ItemLevelOf(k);
    Settings.DebugLineRoundTrip(k);
  }

  /** The table knows exactly eleven levels, and each has its own entry. */
  lemma {:induction false} ElevenKnownLevels()
    ensures |DebugLevelItems(MaxLevel + 1)| == 11
    ensures forall k | 0 <= k < 11 :: DebugLevelDescription(k) != "Unknown"
    ensures DebugLevelDescription(-1) == "Unknown" && DebugLevelDescription(11) == "Unknown"
  {
  }
}
