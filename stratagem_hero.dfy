/**
 * The game object: the row counts of the two stratagem tables, the lookup
 * of one table entry by global index, the compatibility-mode question, the
 * parsing of a stratagem's code and one round of code entry.
 *
 * The two CSV files are given as their lines; the keyboard as the sequence
 * of values successive read_key calls return; the random stratagem as a
 * parameter of Run; console output as the progress lines a round draws.
 */
module Hero {
  import opened Wrappers
  import opened Text
  import opened StratagemCode
  import opened CodeEntry
  import opened KeyReader

  /**
   * The exceptions the modelled code can raise: a missing dictionary key, a
   * list index out of range, and reading `compatibility_mode` before it is set.
   */
  datatype PyError = KeyError | IndexError | AttributeError

  /** What the lookup returns, as a value, when the index or the line is out of range. */
  const OutOfRangeText: string := "Index out of range"

  /** Column positions in the stratagem file. */
  const StratagemColumns: map<string, nat> := map[
    "Department" := 0, "Icon" := 1, "Stratagem" := 2, "Stratagem Codes" := 3,
    "Cooldown" := 4, "Cost" := 5, "Unlock Level" := 6, "Description" := 7]

  /** Column positions in the mission-stratagem file. */
  const MissionColumns: map<string, nat> := map[
    "Type" := 0, "Icon" := 1, "Stratagem" := 2, "Stratagem Codes" := 3, "Description" := 4]

  /** Python dictionaries keep their keys in insertion order: a dictionary is modelled as its entries, keys distinct. */
  predicate DistinctKeys(entries: seq<(int, int)>)
  {
    forall i, j :: 0 <= i < j < |entries| ==> entries[i].0 != entries[j].0
  }

  /** `d[key]`, or None where Python raises KeyError. */
  function Lookup(entries: seq<(int, int)>, key: int): (r: Option<int>)
    ensures r.None? <==> forall i :: 0 <= i < |entries| ==> entries[i].0 != key
    ensures r.Some? ==> exists i :: 0 <= i < |entries| && entries[i] == (key, r.value)
  {
    if entries == [] then None
    else if entries[0].0 == key then Some(entries[0].1)
    else
      var r := Lookup(entries[1..], key);
      assert r.Some? ==> exists i :: 0 <= i < |entries[1..]| && entries[1..][i] == (key, r.value);
      assert forall i :: 0 < i < |entries| ==> entries[i] == entries[1..][i - 1];
      r
  }

  /** The sum of `d.values()`, in insertion order. */
  function SumValues(entries: seq<(int, int)>): (total: int)
    ensures (forall i :: 0 <= i < |entries| ==> entries[i].1 >= 0) ==> total >= 0
  {
    if entries == [] then 0 else entries[0].1 + SumValues(entries[1..])
  }

  /** Adding the counts one entry at a time, as the initialising loop does. */
  lemma {:induction false} SumValuesPrefix(entries: seq<(int, int)>, i: nat)
    requires i < |entries|
    ensures SumValues(entries[..i + 1]) == SumValues(entries[..i]) + entries[i].1
    decreases i
  {
    if i > 0 {
      assert entries[..i + 1][1..] == entries[1..][..i];
      assert entries[..i][1..] == entries[1..][..i - 1];
      SumValuesPrefix(entries[1..], i - 1);
    }
  }

  /** With no negative counts, the total is at least any one count. */
  lemma {:induction false} CountAtMostTotal(entries: seq<(int, int)>, key: int)
    requires forall i :: 0 <= i < |entries| ==> entries[i].1 >= 0
    requires Lookup(entries, key).Some?
    ensures Lookup(entries, key).value <= SumValues(entries)
    decreases |entries|
  {
    if entries[0].0 != key {
      CountAtMostTotal(entries[1..], key);
    }
  }

  /** How an answer to a yes/no question is read, after lower-casing. */
  datatype Answer = Yes | No | Invalid

  /** The answer is yes exactly for y/yes and no exactly for n/no, in any mix of letter case. */
  function ParseAnswer(answer: string): (r: Answer)
    ensures r == Yes <==> SpelledYes(answer)
    ensures r == No <==> SpelledNo(answer)
  {
    var lowered := LowerAscii(answer);
    if lowered == "yes" || lowered == "y" then Yes
    else if lowered == "no" || lowered == "n" then No
    else Invalid
  }

  predicate SpelledYes(s: string)
  {
    || (|s| == 1 && s[0] in "yY")
    || (|s| == 3 && s[0] in "yY" && s[1] in "eE" && s[2] in "sS")
  }

  predicate SpelledNo(s: string)
  {
    || (|s| == 1 && s[0] in "nN")
    || (|s| == 2 && s[0] in "nN" && s[1] in "oO")
  }

  /** Where a global index leads: which line of which file, or why none. */
  datatype Route =
    | OutOfRange          // the lookup returns "Index out of range"
    | MissingCount        // all_rows has no key 0: KeyError
    | BadNegativeIndex    // a negative index beyond the start of the file: IndexError
    | StratagemLine(line: nat)
    | MissionLine(line: nat)

  /** `row.split(",")[column]`. */
  function Field(row: string, column: nat): (r: Result<string, PyError>)
    ensures r.Success? <==> column < |Split(row, ',')|
    ensures r.Success? ==> r.value == Split(row, ',')[column]
    ensures r.Failure? ==> r.error == IndexError
  {
    var cells := Split(row, ',');
    if column < |cells| then Success(cells[column]) else Failure(IndexError)
  }

  /** The cells of a line: `line.strip().split(",")`. */
  function Cells(line: string): seq<string>
  {
    Split(Strip(line), ',')
  }

  /** The column name looked up in the mission file: "Department" stands for "Type". */
  function MissionKey(column: string): string
  {
    if column == "Department" then "Type" else column
  }

  /**
   * `r` is what reading column `name` of a row with these cells gives:
   * KeyError for an unknown name, IndexError for a row too short, else that cell.
   */
  predicate ReadsColumn(r: Result<string, PyError>, cells: seq<string>, columns: map<string, nat>, name: string)
  {
    if name !in columns then r == Failure(KeyError)
    else if columns[name] < |cells| then r == Success(cells[columns[name]])
    else r == Failure(IndexError)
  }

  /** One finished (or abandoned) round: the title shown, the cursor reached, the keys read and each progress line drawn. */
  datatype Round = Round(title: string, cursor: nat, keysRead: nat, frames: seq<string>)

  class StratagemHero {
    /** Data rows per table, as dictionary entries: key 0 is the stratagem file, the other keys the mission file. */
    const allRows: seq<(int, int)>
    const stratagemLines: seq<string>
    const missionLines: seq<string>
    const totalRows: int
    /** None until the player has been asked: the attribute does not exist before then. */
    var compatibilityMode: Option<bool>

    /** What the constructor establishes: the total is the sum of the counts of a genuine dictionary. */
    predicate Valid()
    {
      DistinctKeys(allRows) && totalRows == SumValues(allRows)
    }

    constructor (allRows: seq<(int, int)>, stratagemLines: seq<string>, missionLines: seq<string>)
      requires DistinctKeys(allRows)
      ensures this.allRows == allRows
      ensures this.stratagemLines == stratagemLines && this.missionLines == missionLines
      ensures Valid()
      ensures compatibilityMode == None
    {
      this.allRows := allRows;
      this.stratagemLines := stratagemLines;
      this.missionLines := missionLines;
      var total := 0;
      for i := 0 to |allRows|
        invariant total == SumValues(allRows[..i])
      {
        SumValuesPrefix(allRows, i);
        total := total + allRows[i].1;
      }
      assert allRows[..|allRows|] == allRows;
      totalRows := total;
      compatibilityMode := None;
    }

    /** Which line a global index reads, following the branches of the lookup. */
    function Route(index: int): (r: Route)
      ensures r.StratagemLine? ==>
        && index <= totalRows && Lookup(allRows, 0).Some? && index <= Lookup(allRows, 0).value
        && r.line < |stratagemLines|
        && (if index >= 0 then r.line == index else r.line == |stratagemLines| + index)
      ensures r.MissionLine? ==>
        && index <= totalRows && Lookup(allRows, 0).Some? && index > Lookup(allRows, 0).value
        && 1 <= r.line < |missionLines| && index == Lookup(allRows, 0).value + r.line
      ensures index > totalRows ==> r == OutOfRange
      ensures r == MissingCount <==> index <= totalRows && Lookup(allRows, 0).None?
      ensures index <= totalRows && Lookup(allRows, 0).Some? && index <= Lookup(allRows, 0).value && index < 0 ==>
        r == (if index >= -|stratagemLines| then StratagemLine(|stratagemLines| + index) else BadNegativeIndex)
    {
      if index > totalRows then OutOfRange
      else if Lookup(allRows, 0).None? then MissingCount
      else if index <= Lookup(allRows, 0).value then
        if index < |stratagemLines| then
          if index >= 0 then StratagemLine(index)
          else if index >= -|stratagemLines| then StratagemLine(|stratagemLines| + index)
          else BadNegativeIndex
        else OutOfRange
      else if index - Lookup(allRows, 0).value < |missionLines| then MissionLine(index - Lookup(allRows, 0).value)
      else OutOfRange
    }

    /** The value in column `column` of the row with global index `index`. */
    function TableEntry(index: int, column: string): (r: Result<string, PyError>)
      ensures Route(index).OutOfRange? ==> r == Success(OutOfRangeText)
      ensures Route(index).MissingCount? ==> r == Failure(KeyError)
      ensures Route(index).BadNegativeIndex? ==> r == Failure(IndexError)
      ensures Route(index).StratagemLine? ==>
        ReadsColumn(r, Cells(stratagemLines[Route(index).line]), StratagemColumns, column)
      ensures Route(index).MissionLine? ==>
        ReadsColumn(r, Cells(missionLines[Route(index).line]), MissionColumns, MissionKey(column))
    {
      match Route(index)
      case OutOfRange => Success(OutOfRangeText)
      case MissingCount => Failure(KeyError)
      case BadNegativeIndex => Failure(IndexError)
      case StratagemLine(line) =>
        if column in StratagemColumns then Field(Strip(stratagemLines[line]), StratagemColumns[column])
        else Failure(KeyError)
      case MissionLine(line) =>
        var key := MissionKey(column);
        if key in MissionColumns then Field(Strip(missionLines[line]), MissionColumns[key])
        else Failure(KeyError)
    }

    /** An index past the total row count is out of range, whatever the column. */
    lemma AboveTotalIsOutOfRange(index: int, column: string)
      requires index > totalRows
      ensures TableEntry(index, column) == Success(OutOfRangeText)
    {
    }

    /** With no negative counts, every index up to the stratagem count reads that line of the stratagem file. */
    lemma StratagemIndexReadsItsLine(index: int)
      requires Valid()
      requires forall i :: 0 <= i < |allRows| ==> allRows[i].1 >= 0
      requires Lookup(allRows, 0).Some? && 0 <= index <= Lookup(allRows, 0).value
      requires index < |stratagemLines|
      ensures Route(index) == StratagemLine(index)
    {
      CountAtMostTotal(allRows, 0);
    }

    /** An index past the stratagem count, within the total, reads the mission line at the offset. */
    lemma MissionIndexReadsOffsetLine(index: int)
      requires Lookup(allRows, 0).Some? && Lookup(allRows, 0).value < index <= totalRows
      requires index - Lookup(allRows, 0).value < |missionLines|
      ensures Route(index) == MissionLine(index - Lookup(allRows, 0).value)
    {
    }

    /** A line number past the end of its file also gives "Index out of range". */
    lemma PastEndOfFileIsOutOfRange(index: int, column: string)
      requires index <= totalRows && Lookup(allRows, 0).Some?
      requires (index <= Lookup(allRows, 0).value && index >= |stratagemLines|)
            || (index > Lookup(allRows, 0).value && index - Lookup(allRows, 0).value >= |missionLines|)
      ensures TableEntry(index, column) == Success(OutOfRangeText)
    {
    }

    /** Mission rows are numbered after the stratagem rows, so the mission file's header line is never read. */
    lemma MissionHeaderNeverRead(index: int, column: string)
      requires Route(index).MissionLine?
      ensures Route(index).line >= 1
      ensures TableEntry(index, column).Success? ==>
        TableEntry(index, column).value in Cells(missionLines[Route(index).line])
    {
    }

    /** Index 0 reads the first line of the stratagem file, which holds its column titles. */
    lemma IndexZeroReadsFirstLine()
      requires Lookup(allRows, 0).Some? && Lookup(allRows, 0).value >= 0 && totalRows >= 0 && |stratagemLines| > 0
      ensures Route(0) == StratagemLine(0)
    {
    }

    /** In the mission file, "Department" names the "Type" column. */
    lemma DepartmentMeansType(index: int)
      requires Route(index).MissionLine?
      ensures TableEntry(index, "Department") == TableEntry(index, "Type")
      ensures TableEntry(index, "Department") == Success(Cells(missionLines[Route(index).line])[0])
    {
      assert MissionColumns["Type"] == 0;
    }

    /**
     * What parse_stratagem_code returns for an index: the arrow string and the
     * expected directions. The mode is read only when a part names a direction,
     * so an unset mode raises AttributeError only then.
     */
    function ParsedCode(index: int): (r: Result<(string, seq<Direction>), PyError>)
      reads this
      ensures r.Success? ==> |r.value.0| == |r.value.1|
      ensures r == Failure(AttributeError) <==>
        TableEntry(index, "Stratagem Codes").Success?
        && Directions(TableEntry(index, "Stratagem Codes").value) != [] && compatibilityMode.None?
    {
      match TableEntry(index, "Stratagem Codes")
      case Failure(e) => Failure(e)
      case Success(code) =>
        var ds := Directions(code);
        if ds != [] && compatibilityMode.None? then Failure(AttributeError)
        else Success((ArrowString(ds, compatibilityMode == Some(true)), ds))
    }

    /** Asks whether the arrows display; in compatibility mode, whether the ASCII arrows do. `proceed` is false where the game exits. */
    method ChooseCompatibilityMode(answer: string, confirmation: string) returns (proceed: bool)
      modifies this
      ensures compatibilityMode == Some(ParseAnswer(answer) != Yes)
      ensures proceed <==> compatibilityMode == Some(false) || ParseAnswer(confirmation) == Yes
    {
      match ParseAnswer(answer) {
        case Yes => compatibilityMode := Some(false);
        case No => compatibilityMode := Some(true);
        case Invalid => compatibilityMode := Some(true);
      }
      proceed := true;
      if compatibilityMode == Some(true) {
        match ParseAnswer(confirmation) {
          case Yes =>
          case No => proceed := false;
          case Invalid => proceed := false;
        }
      }
    }

    /** Looks up the code text of a stratagem and decodes it in the current display mode. */
    method ParseStratagemCode(index: int) returns (r: Result<(string, seq<Direction>), PyError>)
      ensures r == ParsedCode(index)
    {
      var code := TableEntry(index, "Stratagem Codes");
      if code.Failure? {
        return Failure(code.error);
      }
      var arrow, normal := DecodeCode(code.value, compatibilityMode == Some(true));
      if normal != [] && compatibilityMode.None? {
        return Failure(AttributeError);
      }
      r := Success((arrow, normal));
    }

    /**
     * One round: parse the code, show the title and the progress line, then
     * read keys until the whole code is entered or no keys are left.
     */
    method Run(stratagem: int, keys: seq<Option<string>>) returns (r: Result<Round, PyError>)
      ensures ParsedCode(stratagem).Failure? ==> r == Failure(ParsedCode(stratagem).error)
      ensures ParsedCode(stratagem).Success? && TableEntry(stratagem, "Stratagem").Failure? ==>
        r == Failure(TableEntry(stratagem, "Stratagem").error)
      ensures r.Success? <==> ParsedCode(stratagem).Success? && TableEntry(stratagem, "Stratagem").Success?
      ensures r.Success? ==>
        var arrow, expected := ParsedCode(stratagem).value.0, ParsedCode(stratagem).value.1;
        && r.value.title == TableEntry(stratagem, "Stratagem").value
        && r.value.keysRead <= |keys|
        && r.value.cursor == Progress(expected, keys[..r.value.keysRead])
        && (r.value.cursor == |expected| || r.value.keysRead == |keys|)
        && Unfinished(expected, keys, r.value.keysRead)
        && |r.value.frames| == r.value.cursor + 1
        && Drawn(arrow, r.value.frames)
    {
      var parsed := ParseStratagemCode(stratagem);
      if parsed.Failure? {
        return Failure(parsed.error);
      }
      var title := TableEntry(stratagem, "Stratagem");
      if title.Failure? {
        return Failure(title.error);
      }
      var arrow, normal := parsed.value.0, parsed.value.1;
      var cursor, used, frames := EnterCode(arrow, normal, keys);
      r := Success(Round(title.value, cursor, used, frames));
    }
  }

  /** Pressing the arrow keys of a code on Windows enters the whole code. */
  lemma ArrowKeysEnterCode(expected: seq<Direction>)
    ensures Progress(expected, ReadAllWindows(ArrowKeystrokes(expected))) == |expected|
  {
    var keys := ReadAllWindows(ArrowKeystrokes(expected));
    ArrowKeystrokesRead(expected);
    NamingKeysComplete(expected, keys, |expected|);
    assert keys[..|expected|] == keys;
  }

  /** The WASD letters of a code, as typed. */
  function WasdText(ds: seq<Direction>): (text: string)
    ensures |text| == |ds|
  {
    if ds == [] then "" else Letter(ds[0]) + WasdText(ds[1..])
  }

  /** Typing the WASD letters of a code on Linux enters the whole code. */
  lemma {:induction false} WasdEntersCode(expected: seq<Direction>)
    ensures Progress(expected, ReadAllLinux(WasdText(expected))) == |expected|
  {
    var text := WasdText(expected);
    var keys := ReadAllLinux(text);
    LinuxReadsCharacters(text);
    forall k | 0 <= k < |keys|
      ensures keys[k].Some? && Names(keys[k].value, expected[k])
    {
      WasdTextAt(expected, k);
    }
    NamingKeysComplete(expected, keys, |expected|);
    assert keys[..|expected|] == keys;
  }

  lemma {:induction false} WasdTextAt(ds: seq<Direction>, k: nat)
    requires k < |ds|
    ensures [WasdText(ds)[k]] == Letter(ds[k])
    decreases |ds|
  {
    if k > 0 {
      WasdTextAt(ds[1..], k - 1);
    }
  }

  /** A one-character key, the only kind Linux delivers, is accepted only as the expected direction's WASD letter. */
  lemma OneCharacterKeyAccepted(key: string, expected: Direction)
    requires |key| == 1
    ensures KeyAccepted(key, expected) <==> key == Letter(expected)
  {
  }
}
