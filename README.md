# Stratagem Hero: code entry and key decoding

A Dafny model of the terminal game "Stratagem Hero". The game shows the name
and the arrow code of a randomly chosen stratagem. The player then enters the
code with the arrow keys or with W, A, S, D. The model covers:

- the `stratagemHero` game object in `main.py`:
  - the sum of the row counts, computed when the object is created;
  - the lookup of one table entry by global index, over the stratagem file and
    the mission-stratagem file;
  - the yes/no answer deciding compatibility mode;
  - the parsing of a code text such as `"Up | Down | Left"` into arrows and
    direction tokens;
  - the key loop of one round, with the progress line it draws;
- the byte and character decoding of `NonBlockingKeyReader.read_key` in
  `key_reader.py`.

Modules, one per concern:

- `Wrappers`: `Option` and `Result`.
- `Text`: the Python string operations the game uses.
  - `str.split` with a one-character separator;
  - the `in` substring test;
  - `str.strip()`;
  - `" ".join(list(s))`;
  - `str.lower()` on ASCII letters.
- `StratagemCode`: directions, the part classifier, the arrow string, and the
  parsing loop `DecodeCode`.
- `CodeEntry`:
  - the cursor over the expected directions and one key step (`Advance`, and
    the branch chain `Step`);
  - the cursor after a sequence of keys (`Progress`);
  - the progress line (`DisplayAt`, `ProgressLine`);
  - the key loop of a round (`EnterCode`).
- `KeyReader`: the Windows decoding of an extended-key prefix and its second
  byte, the special-key marker, plain-byte decoding, and the Linux
  one-character read.
- `Hero`: the class `StratagemHero`, with the table lookup,
  `ChooseCompatibilityMode`, `ParseStratagemCode` and `Run`.

How the environment is represented:

- **CSV files.** Each file is a `seq<string>` of its lines, as `readlines()`
  returns them.
- **`all_rows`.** This dictionary is the sequence of its entries, in insertion
  order, with distinct keys. A missing key is a `KeyError` value.
- **Keyboard.** The keyboard is the sequence of values that successive
  `read_key` calls return: `None`, or a string.
- **Random stratagem.** The stratagem drawn by `random.randint` is a parameter
  of `Run`.
- **Exceptions.** `KeyError`, `IndexError` and `AttributeError` are the
  `PyError` values carried by the `Failure` case of a `Result`.
- **Compatibility mode.** `__init__` never sets `compatibility_mode`; only
  `get_compatibility_mode` does. The field is therefore an `Option<bool>`
  that is `None` until the player has been asked. Reading it while unset raises
  `AttributeError`. `parse_stratagem_code` reads it only when a part names a
  direction, so only that case fails.
- **Console output.** What is printed is given by the title and the progress
  lines a round returns.

The model follows the code as written, including where that may surprise:

- **Index 0 reads the column titles.** The lookup routes index 0 to line 0 of
  the stratagem file, which holds its column titles
  (`IndexZeroReadsFirstLine`).
- **Mission headers are never read.** A mission index always reads mission
  line 1 or later, so the mission file's header line is never returned
  (`MissionHeaderNeverRead`).
- **Negative indexes.** A negative index at or below the stratagem count reads
  from the end of the stratagem file, as Python's list indexing does.
- **Which text is searched.** Each code part is searched as it is, not stripped.
  The `match part.strip()` subject in `main.py:109` is never used by its
  guards.

## Model

| member | source | states |
|---|---|---|
| Text.Split | main.py:108 | `s.split(c)` is never empty, joining the pieces with `c` gives `s` back, and no piece contains `c` |
| Text.SplitJoin | main.py:108 | splitting undoes joining when no piece contains the separator |
| Text.ContainsOccurs | main.py:110-119 | a piece found by the recursive `t in s` test occurs at a position it returns |
| Text.OccursContains | main.py:110-119 | a piece occurring at some position is found by the recursive `t in s` test |
| Text.ContainsIffOccurs | main.py:110-119 | the recursive `t in s` test holds exactly when `t` occurs at some position of `s` |
| Text.Strip | main.py:49 | `strip()` returns the piece of the line left after removing whitespace from both ends: everything before and after it is whitespace, and the piece neither starts nor ends with whitespace |
| Text.StripShape | main.py:49 | trimming the front and then the back leaves a contiguous piece of the line with only whitespace around it |
| Text.SpaceJoin | main.py:134-135 | `" ".join(list(s))` is empty for an empty string and otherwise has length `2·|s| − 1` |
| Text.SpaceJoinShape | main.py:134-135 | in `" ".join(list(s))` the characters of `s` sit at even positions and spaces at odd ones; the length is `2·|s| − 1` |
| Text.SpaceJoinAppend | main.py:132-137 | space-joining a concatenation of two non-empty strings puts exactly one space at the seam |
| Text.SpaceJoinSplitAt | main.py:132-137 | cutting strictly inside a string, the space-join of the whole is the two halves' space-joins with one space between them |
| Text.SpaceJoinEnds | main.py:132-137 | cutting at either end, one half is empty and the space-join of the whole is the other half's |
| Text.SpaceJoinCut | main.py:132-137 | cutting the arrow string anywhere and space-joining both halves, with a space between them when both are non-empty, gives the space-join of the whole |
| Text.LowerAscii | main.py:78 | lower-casing keeps the length, moves each ASCII capital 32 code points up, to its small letter, leaves every other character as it is, and leaves no ASCII capital in the result |
| StratagemCode.DirectionsOf | main.py:108-121 | every part contributes at most one direction |
| StratagemCode.ClassifyPart | main.py:110-121 | a part yields a direction only when it contains that direction's word, and yields nothing exactly when it contains none of the four words |
| StratagemCode.ArrowSymbol | main.py:111-120 | in compatibility mode every arrow is an ASCII character, and otherwise every arrow lies outside ASCII |
| StratagemCode.DirectionsOfAppend | main.py:108-121 | loop-step equation used by the proof of `DecodeCode`: one more part appends exactly that part's direction, if it has one |
| StratagemCode.ArrowString | main.py:110-121 | one arrow symbol per direction |
| StratagemCode.ArrowStringAppend | main.py:111-120 | loop-step equation used by the proof of `DecodeCode`: one more direction appends its symbol in the current mode |
| StratagemCode.DecodeCode | main.py:104-122 | the parsing loop returns the directions of the code text, and the arrow string drawn for them in the given mode |
| StratagemCode.ArrowAt | main.py:110-121 | the i-th arrow is the symbol of the i-th direction |
| StratagemCode.ArrowDirection | main.py:110-121 | a symbol read back as a direction is that direction's symbol in the same mode |
| StratagemCode.SymbolReadsBack | main.py:110-121 | each direction's arrow symbol reads back as that direction, in both modes |
| StratagemCode.ArrowStringReadsBack | main.py:110-121 | the arrow string determines the directions: reading it back gives exactly the list drawn |
| StratagemCode.ParsedCodeAligned | main.py:104-122 | both results of parsing have the same length, and the arrows match the directions one by one |
| StratagemCode.ClassifyPartFirstHit | main.py:108-121 | a part yields Up, Down, Left or Right by the first of those words it contains, in that order, and nothing when it contains none |
| StratagemCode.NotContainsWithoutFirstLetter | main.py:110-119 | text that avoids the first letter of a word cannot contain the word |
| StratagemCode.WordInPart | main.py:110-119 | a part contains the word it is built around |
| StratagemCode.WordPartClassifies | main.py:109-121 | a part made of one direction word, padded without the letters U, D and L, decodes to that direction |
| StratagemCode.DirectionsOfDecodedParts | main.py:108-121 | parts that each decode to one direction give those directions, in order |
| StratagemCode.ParseCodeText | main.py:108-121 | code text written as parts separated by vertical bars, each naming one direction, parses to exactly those directions |
| CodeEntry.KeyAccepted | main.py:147-170 | a key is accepted for a direction exactly when it names that direction, as its arrow token or its lower-case WASD letter |
| CodeEntry.Advance | main.py:144-173 | one key moves the cursor by 0 or 1, and by 1 exactly when the key is the expected direction's arrow name or WASD letter |
| CodeEntry.Step | main.py:144-173 | the eight-branch chain on one key read computes the same cursor as `Advance` |
| CodeEntry.Progress | main.py:140-173 | the cursor after any sequence of keys never exceeds the code length |
| CodeEntry.ProgressAppend | main.py:140-173 | loop-step equation used by the proof of `EnterCode`: while the code is unfinished, one more key moves the cursor as one step does |
| CodeEntry.ProgressMonotone | main.py:140-173 | the cursor never moves back: a longer sequence of keys never lowers it |
| CodeEntry.ProgressStep | main.py:144-173 | each key moves the cursor by at most one position |
| CodeEntry.CompleteStaysComplete | main.py:140 | once the whole code is entered, further keys leave the cursor at the end |
| CodeEntry.NamingKeysComplete | main.py:147-170 | pressing, in order, a key naming each expected direction enters the whole code |
| CodeEntry.UnfinishedAppend | main.py:140 | a key read while the code is unfinished extends the stretch of reads made before completion |
| CodeEntry.DrawnAppend | main.py:175-187 | drawing the line for one more entered arrow extends the list of progress lines in order |
| CodeEntry.EnterCode | main.py:139-187 | the key loop stops when the code is complete or the keys run out; the cursor is the progress over the keys read, and was below the code length before each of them; one progress line is drawn at the start and one after each accepted key |
| CodeEntry.DisplayAt | main.py:132-136 | the prefix and rest are the space-joins of the arrows before and after the cursor, and the separator is a space exactly when both are non-empty |
| CodeEntry.ProgressLine | main.py:132-137 | markup aside, the progress line is the whole code with single spaces between the arrows, and the yellow part is exactly the space-joined entered arrows |
| CodeEntry.DisplayShowsWholeCode | main.py:132-137 | markup aside, the progress line is always the whole code with single spaces between the arrows |
| KeyReader.ArrowKeyName | key_reader.py:64-70 | the arrow map only ever gives one of the tokens UP, DOWN, LEFT and RIGHT, never a one-character key |
| KeyReader.ArrowKeyNameExactly | key_reader.py:64-72 | the arrow map names exactly the four scan codes H, P, K, M, each with its direction's token |
| KeyReader.Hex | key_reader.py:73 | `bytes.hex()` of one byte is two characters |
| KeyReader.HexReadsBack | key_reader.py:73 | the two hexadecimal digits read back as the byte |
| KeyReader.SpecialMarker | key_reader.py:73 | a special-key marker is 17 characters: `<SPECIAL:0x`, the two hexadecimal digits of the second byte, a colon, the two digits of the prefix byte and `>` |
| KeyReader.SpecialMarkerReadsBack | key_reader.py:73 | a special-key marker is 17 characters and reads back as (second byte, prefix), in that order |
| KeyReader.DecodeByte | key_reader.py:75-76 | decoding one byte with errors ignored gives its character when it is ASCII and the empty string otherwise |
| KeyReader.ReadKeyWindows | key_reader.py:57-79 | no key is returned exactly when nothing is waiting; an extended key consumes two bytes and any other key one |
| KeyReader.WindowsArrowKey | key_reader.py:60-72 | an arrow key, sent with either prefix, reads as its direction's token |
| KeyReader.WindowsSpecialKey | key_reader.py:60-73 | any other extended key reads as a marker that keeps both of its bytes |
| KeyReader.WindowsPlainByte | key_reader.py:75-76 | a plain byte reads as itself when ASCII and as the empty string otherwise |
| KeyReader.ReadKeyLinux | key_reader.py:48-54 | no key exactly when nothing is waiting; otherwise one character, the next one waiting |
| KeyReader.ReadAllLinux | key_reader.py:48-54 | reading until nothing waits gives one key per character |
| KeyReader.ArrowKeystrokes | key_reader.py:60-72 | the bytes of pressed arrow keys never leave a prefix without its second byte |
| KeyReader.ArrowKeystrokesRead | key_reader.py:57-79 | pressing arrow keys on Windows reads back as one token per key, in order |
| KeyReader.LinuxReadsCharacters | key_reader.py:51-54 | each character on Linux is read as a key of its own |
| Hero.Lookup | main.py:45-57 | a dictionary lookup fails exactly when no entry has the key, and otherwise returns the count stored with it |
| Hero.SumValuesPrefix | main.py:37-39 | adding the counts one entry at a time builds up the sum |
| Hero.SumValues | main.py:37-39 | with no negative counts the total is not negative |
| Hero.CountAtMostTotal | main.py:37-39 | with no negative counts, the total is at least any single count |
| Hero.ParseAnswer | main.py:78-87 | an answer is yes exactly for y or yes and no exactly for n or no, in any mix of letter case |
| Hero.Field | main.py:51 | `row.split(",")[column]` succeeds exactly when the row has that many cells and then gives the cell at that column; otherwise it raises IndexError |
| Hero.StratagemHero.constructor | main.py:17-39 | the object keeps its inputs, the total is the sum of the counts of all tables, and compatibility mode is not yet set |
| Hero.StratagemHero.Route | main.py:43-61 | an index above the total is out of range; a stratagem line is the index itself or, when negative, counted from the end; a negative index within the stratagem count reads from the end when it is at least minus the file's length and raises IndexError below that; a mission line is the index minus the stratagem count, and at least 1; the stratagem count is missing (KeyError) exactly when the index is within the total and key 0 is absent |
| Hero.StratagemHero.TableEntry | main.py:43-61 | an out-of-range route gives "Index out of range", a missing stratagem count KeyError and a negative index beyond the file IndexError; a stratagem or mission line is stripped and split on commas, an unknown column name raises KeyError, a row too short for the column raises IndexError, and otherwise the value is the cell at the column's position, with "Department" read as "Type" in the mission file |
| Hero.StratagemHero.AboveTotalIsOutOfRange | main.py:44-61 | an index above the total gives "Index out of range", whatever the column |
| Hero.StratagemHero.StratagemIndexReadsItsLine | main.py:45-51 | with no negative counts, every index from 0 to the stratagem count reads that line of the stratagem file |
| Hero.StratagemHero.MissionIndexReadsOffsetLine | main.py:53-59 | an index past the stratagem count, within the total, reads the mission line at the offset |
| Hero.StratagemHero.PastEndOfFileIsOutOfRange | main.py:47-61 | a line number past the end of its file gives "Index out of range" |
| Hero.StratagemHero.MissionHeaderNeverRead | main.py:53-59 | a mission index reads line 1 or later, so the mission header is never returned |
| Hero.StratagemHero.IndexZeroReadsFirstLine | main.py:45-51 | index 0 reads line 0 of the stratagem file |
| Hero.StratagemHero.DepartmentMeansType | main.py:53-59 | in the mission file the column "Department" reads the same as the column "Type", the first cell of the stripped row |
| Hero.StratagemHero.ParsedCode | main.py:104-122 | the parsed code's arrow string and direction list have the same length; parsing raises AttributeError exactly when the code text is found, names at least one direction, and compatibility mode was never set |
| Hero.StratagemHero.ChooseCompatibilityMode | main.py:76-101 | compatibility mode becomes set, and off exactly when the first answer is yes; the game goes on exactly when the mode is off or the second answer is yes |
| Hero.StratagemHero.ParseStratagemCode | main.py:104-122 | the parsing loop gives `ParsedCode`: the lookup's failures propagate, an unset mode met by a direction raises AttributeError, and otherwise the result is the directions of the code text and its arrows in the current mode |
| Hero.StratagemHero.Run | main.py:125-187 | a round fails with the lookup's error, or shows the stratagem's name and reads keys until the code is complete or the keys run out; each progress line matches the cursor at that point |
| Hero.ArrowKeysEnterCode | main.py:147-158 | pressing a code's arrow keys on Windows enters the whole code |
| Hero.WasdText | main.py:159-170 | one typed letter per direction |
| Hero.WasdEntersCode | main.py:159-170 | typing a code's WASD letters on Linux enters the whole code |
| Hero.WasdTextAt | main.py:159-170 | the k-th typed letter is the WASD letter of the k-th direction |
| Hero.OneCharacterKeyAccepted | main.py:159-170 | a one-character key is accepted only as the expected direction's WASD letter |

## Left out

- Console output: `console.print`, `print`, and `os.system` for clearing the screen and pausing.
- `input()`: both answers are parameters of `ChooseCompatibilityMode`.
- `exit(0)`: it is the `proceed == false` result.
- The draw of `random.randint`: the stratagem index is a parameter of `Run`. The `ValueError` raised when `total_rows` is 0 is not modelled.
- Opening and reading the two CSV files: their lines are fields of the object.
- The path computations in `__init__`.
- The startup message.
- `validate_stratagem_codes` (`main.py:64-74`): it only prints.
- The program entry point (`main.py:190-209`): it needs the network collector and subtracts one from each count. The network collector is not part of this model. The counts given to the constructor are taken as already adjusted.
- Hero.StratagemHero.Run: models a finite key sequence. The game blocks until the code is complete, and the model stops early when the keys run out.
- Hero.StratagemHero.Run: the title printed again after each accepted key (`main.py:177`) is the same lookup as the first title, so it is not repeated in the frames.
- Hero.StratagemHero.Run: the message about a key that does not match (`main.py:172`) is not modelled.
- KeyReader.ReadKeyWindows: a prefix byte at the very end of the buffer is excluded by its precondition. `getch()` waits for the second byte, so the model takes the buffer to hold it.
- The `repr(key)` fallback (`key_reader.py:77-78`) is not modelled. With `errors='ignore'`, decoding a single byte cannot raise.
- The `except` branch returning None after any error (`key_reader.py:80-82`) is not modelled. The terminal calls that could raise are outside the model.
- Terminal setup and cleanup, `select`, `kbhit` and `getch`: these are terminal I/O. The platform check is replaced by two decoders, one per platform.
- The `demo` loop in `key_reader.py`: it is a console demonstration.
- Text.LowerAscii: lower-cases ASCII capitals only. Python lower-cases other letters too, but none of them becomes one of `y`, `e`, `s`, `n`, `o`, so the answers read the same.
- `collector.py`, `pygame_test.py` and `tools/`: network fetching, HTML table extraction, image rendering and file conversion. None of them is part of this model.
