/**
 * Entering a stratagem code: the cursor over the expected directions, how a
 * pressed key moves it, and the progress line drawn after each correct key.
 */
module CodeEntry {
  import opened Wrappers
  import opened Text
  import opened StratagemCode

  /** The WASD letter that also enters a direction. */
  function Letter(d: Direction): string
  {
    match d
    case Up => "w"
    case Down => "s"
    case Left => "a"
    case Right => "d"
  }

  /** A key names a direction when it is the arrow key's token or the direction's WASD letter. */
  predicate Names(key: string, d: Direction)
  {
    key == Token(d) || key == Letter(d)
  }

  /** The branch chain of the game loop that decides whether a pressed key is the expected one. */
  predicate KeyAccepted(key: string, expected: Direction)
    ensures KeyAccepted(key, expected) <==> Names(key, expected)
  {
    if key == "DOWN" && expected == Down then true
    else if key == "UP" && expected == Up then true
    else if key == "RIGHT" && expected == Right then true
    else if key == "LEFT" && expected == Left then true
    else if key == "w" && expected == Up then true
    else if key == "a" && expected == Left then true
    else if key == "s" && expected == Down then true
    else if key == "d" && expected == Right then true
    else false
  }

  /**
   * One read of the keyboard while the code is unfinished. No key (None) and
   * the empty string are falsy and skipped; any other key either matches the
   * expected direction at the cursor or is reported and ignored.
   */
  function Advance(expected: seq<Direction>, cursor: nat, key: Option<string>): (next: nat)
    requires cursor < |expected|
    ensures next == cursor || next == cursor + 1
    ensures next == cursor + 1 <==> key.Some? && Names(key.value, expected[cursor])
  {
    if key.Some? && key.value != "" && KeyAccepted(key.value, expected[cursor]) then cursor + 1
    else cursor
  }

  /** The cursor after a sequence of keyboard reads; reads after the code is complete change nothing. */
  function Progress(expected: seq<Direction>, keys: seq<Option<string>>): (cursor: nat)
    ensures cursor <= |expected|
  {
    if keys == [] then 0
    else
      var before := Progress(expected, keys[..|keys| - 1]);
      if before < |expected| then Advance(expected, before, keys[|keys| - 1]) else before
  }

  /** One more key read while the code is unfinished advances the cursor as a single step does. */
  lemma ProgressAppend(expected: seq<Direction>, keys: seq<Option<string>>, n: nat)
    requires n < |keys|
    requires Progress(expected, keys[..n]) < |expected|
    ensures Progress(expected, keys[..n + 1]) == Advance(expected, Progress(expected, keys[..n]), keys[n])
  {
    assert keys[..n + 1][..n] == keys[..n];
  }

  /** The cursor never moves back: more keys never lower it. */
  lemma {:induction false} ProgressMonotone(expected: seq<Direction>, keys: seq<Option<string>>, j: nat)
    requires j <= |keys|
    ensures Progress(expected, keys[..j]) <= Progress(expected, keys)
    decreases |keys|
  {
    if j < |keys| {
      var init := keys[..|keys| - 1];
      assert init[..j] == keys[..j];
      ProgressMonotone(expected, init, j);
    } else {
      assert keys[..j] == keys;
    }
  }

  /** Each key moves the cursor by at most one position. */
  lemma ProgressStep(expected: seq<Direction>, keys: seq<Option<string>>, key: Option<string>)
    ensures Progress(expected, keys + [key]) == Progress(expected, keys)
         || Progress(expected, keys + [key]) == Progress(expected, keys) + 1
  {
    assert (keys + [key])[..|keys|] == keys;
  }

  /** The branch chain run on one key read: the new cursor. */
  method Step(expected: seq<Direction>, cursor: nat, input: Option<string>) returns (next: nat)
    requires cursor < |expected|
    ensures next == Advance(expected, cursor, input)
  {
    next := cursor;
    if input.Some? && input.value != "" {
      var key := input.value;
      if key == "DOWN" && expected[cursor] == Down {
        next := cursor + 1;
      } else if key == "UP" && expected[cursor] == Up {
        next := cursor + 1;
      } else if key == "RIGHT" && expected[cursor] == Right {
        next := cursor + 1;
      } else if key == "LEFT" && expected[cursor] == Left {
        next := cursor + 1;
      } else if key == "w" && expected[cursor] == Up {
        next := cursor + 1;
      } else if key == "a" && expected[cursor] == Left {
        next := cursor + 1;
      } else if key == "s" && expected[cursor] == Down {
        next := cursor + 1;
      } else if key == "d" && expected[cursor] == Right {
        next := cursor + 1;
      }
    }
  }

  /** The code was still unfinished before each of the first `used` keys was read. */
  predicate Unfinished(expected: seq<Direction>, keys: seq<Option<string>>, used: nat)
  {
    forall j :: 0 <= j < used && j <= |keys| ==> Progress(expected, keys[..j]) < |expected|
  }

  lemma UnfinishedAppend(expected: seq<Direction>, keys: seq<Option<string>>, used: nat)
    requires used < |keys| && Unfinished(expected, keys, used)
    requires Progress(expected, keys[..used]) < |expected|
    ensures Unfinished(expected, keys, used + 1)
  {
  }

  /** `frames` are the progress lines for 0, 1, 2, ... entered arrows, in order. */
  predicate Drawn(arrow: string, frames: seq<string>)
  {
    |frames| <= |arrow| + 1 && forall i :: 0 <= i < |frames| ==> frames[i] == ProgressLine(arrow, i)
  }

  lemma DrawnAppend(arrow: string, frames: seq<string>)
    requires Drawn(arrow, frames) && |frames| <= |arrow|
    ensures Drawn(arrow, frames + [ProgressLine(arrow, |frames|)])
  {
    var longer := frames + [ProgressLine(arrow, |frames|)];
    forall i | 0 <= i < |longer|
      ensures longer[i] == ProgressLine(arrow, i)
    {
      if i < |frames| {
        assert longer[i] == frames[i];
      }
    }
  }

  /**
   * The key loop of a round: read keys until the code is complete or none are
   * left, drawing the progress line again after every accepted key.
   */
  method EnterCode(arrow: string, expected: seq<Direction>, keys: seq<Option<string>>)
    returns (cursor: nat, used: nat, frames: seq<string>)
    requires |arrow| == |expected|
    ensures used <= |keys|
    ensures cursor == Progress(expected, keys[..used])
    ensures cursor == |expected| || used == |keys|
    ensures Unfinished(expected, keys, used)
    ensures |frames| == cursor + 1 && Drawn(arrow, frames)
  {
    cursor, used := 0, 0;
    frames := [ProgressLine(arrow, cursor)];
    while cursor <= |arrow| - 1 && used < |keys|
      invariant used <= |keys|
      invariant cursor == Progress(expected, keys[..used])
      invariant Unfinished(expected, keys, used)
      invariant |frames| == cursor + 1 && Drawn(arrow, frames)
    {
      var input := keys[used];
      ProgressAppend(expected, keys, used);
      UnfinishedAppend(expected, keys, used);
      var previous := cursor;
      cursor := Step(expected, cursor, input);
      var update := cursor != previous;
      used := used + 1;
      if update {
        DrawnAppend(arrow, frames);
        frames := frames + [ProgressLine(arrow, cursor)];
      }
    }
  }

  /** Once the whole code is entered, further keys leave the cursor at the end. */
  lemma {:induction false} CompleteStaysComplete(expected: seq<Direction>, keys: seq<Option<string>>, j: nat)
    requires j <= |keys|
    requires Progress(expected, keys[..j]) == |expected|
    ensures Progress(expected, keys) == |expected|
  {
    ProgressMonotone(expected, keys, j);
  }

  /** Pressing, in order, a key naming each expected direction enters the whole code. */
  lemma {:induction false} NamingKeysComplete(expected: seq<Direction>, keys: seq<Option<string>>, i: nat)
    requires i <= |keys| == |expected|
    requires forall k :: 0 <= k < |keys| ==> keys[k].Some? && Names(keys[k].value, expected[k])
    ensures Progress(expected, keys[..i]) == i
    decreases i
  {
    if i > 0 {
      NamingKeysComplete(expected, keys, i - 1);
      assert keys[..i][..i - 1] == keys[..i - 1];
    }
  }

  /** The parts of the progress line: the entered arrows, the separator and the remaining arrows. */
  datatype Display = Display(spacedPrefix: string, sep: string, spacedRest: string)

  /** The progress line's parts once `entered` arrows of `arrow` are done. */
  function DisplayAt(arrow: string, entered: nat): (d: Display)
    requires entered <= |arrow|
    ensures d.spacedPrefix == SpaceJoin(arrow[..entered])
    ensures d.spacedRest == SpaceJoin(arrow[entered..])
    ensures d.sep == (if 0 < entered < |arrow| then " " else "")
  {
    var prefix := arrow[..entered];
    var rest := arrow[entered..];
    var spacedPrefix := if prefix != "" then SpaceJoin(prefix) else "";
    var spacedRest := if rest != "" then SpaceJoin(rest) else "";
    var sep := if spacedPrefix != "" && spacedRest != "" then " " else "";
    Display(spacedPrefix, sep, spacedRest)
  }

  /** The printed progress line, with the entered part in yellow. */
  function ProgressLine(arrow: string, entered: nat): (line: string)
    requires entered <= |arrow|
    ensures |line| == |"[yellow][/yellow]"| + |SpaceJoin(arrow)|
    ensures line[..8] == "[yellow]"
    ensures var whole := SpaceJoin(arrow); var p := |SpaceJoin(arrow[..entered])|;
      line == "[yellow]" + whole[..p] + "[/yellow]" + whole[p..]
  {
    DisplayShowsWholeCode(arrow, entered);
    var d := DisplayAt(arrow, entered);
    "[yellow]" + d.spacedPrefix + "[/yellow]" + d.sep + d.spacedRest
  }

  /** Markup aside, the progress line is always the whole code with single spaces between arrows. */
  lemma DisplayShowsWholeCode(arrow: string, entered: nat)
    requires entered <= |arrow|
    ensures var d := DisplayAt(arrow, entered);
      d.spacedPrefix + d.sep + d.spacedRest == SpaceJoin(arrow)
  {
    SpaceJoinCut(arrow, entered);
  }
}
