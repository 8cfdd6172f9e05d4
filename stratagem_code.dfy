/**
 * Decoding of a stratagem's code text, as stored in the "Stratagem Codes"
 * column (for example "Up | Down | Left"), into the direction tokens the
 * player has to enter and the arrow string shown on screen.
 */
module StratagemCode {
  import opened Wrappers
  import opened Text

  datatype Direction = Up | Down | Left | Right

  /** The word searched for in each `|`-separated part of the code text. */
  function Word(d: Direction): string
  {
    match d
    case Up => "Up"
    case Down => "Down"
    case Left => "Left"
    case Right => "Right"
  }

  /** The token stored in the list of expected inputs. */
  function Token(d: Direction): string
  {
    match d
    case Up => "UP"
    case Down => "DOWN"
    case Left => "LEFT"
    case Right => "RIGHT"
  }

  /** The arrow drawn for a direction: ASCII in compatibility mode, a Unicode arrow otherwise. */
  function ArrowSymbol(d: Direction, compatibilityMode: bool): (c: char)
    ensures compatibilityMode <==> (c as int) < 128
  {
    match d
    case Up => if compatibilityMode then '^' else '\U{1F845}'
    case Down => if compatibilityMode then 'v' else '\U{1F847}'
    case Left => if compatibilityMode then '<' else '\U{1F844}'
    case Right => if compatibilityMode then '>' else '\U{1F846}'
  }

  /** One part of the code text: the first of Up, Down, Left, Right it contains, if any. */
  function ClassifyPart(part: string): (r: Option<Direction>)
    ensures r.Some? ==> Contains(part, Word(r.value))
    ensures r.None? <==> forall d :: !Contains(part, Word(d))
  {
    if Contains(part, "Up") then Some(Up)
    else if Contains(part, "Down") then Some(Down)
    else if Contains(part, "Left") then Some(Left)
    else if Contains(part, "Right") then Some(Right)
    else None
  }

  /** The directions contributed by a list of parts, in order; a part matching nothing adds none. */
  function DirectionsOf(parts: seq<string>): (ds: seq<Direction>)
    ensures |ds| <= |parts|
  {
    if parts == [] then []
    else
      var last := match ClassifyPart(parts[|parts| - 1]) case Some(d) => [d] case None => [];
      DirectionsOf(parts[..|parts| - 1]) + last
  }

  /** Taking one more part adds that part's direction, if it has one. */
  lemma DirectionsOfAppend(parts: seq<string>, i: nat)
    requires i < |parts|
    ensures DirectionsOf(parts[..i + 1]) ==
      DirectionsOf(parts[..i]) + match ClassifyPart(parts[i]) case Some(d) => [d] case None => []
  {
    assert parts[..i + 1][..i] == parts[..i];
  }

  /** The expected directions of a whole code text. */
  function Directions(code: string): seq<Direction>
  {
    DirectionsOf(Split(code, '|'))
  }

  /** The arrow string drawn for a list of directions. */
  function ArrowString(ds: seq<Direction>, compatibilityMode: bool): (arrow: string)
    ensures |arrow| == |ds|
  {
    if ds == [] then ""
    else ArrowString(ds[..|ds| - 1], compatibilityMode) + [ArrowSymbol(ds[|ds| - 1], compatibilityMode)]
  }

  lemma ArrowStringAppend(ds: seq<Direction>, d: Direction, compatibilityMode: bool)
    ensures ArrowString(ds + [d], compatibilityMode) == ArrowString(ds, compatibilityMode) + [ArrowSymbol(d, compatibilityMode)]
  {
    assert (ds + [d])[..|ds|] == ds;
  }

  /** Builds the arrow string and the list of expected directions, part by part. */
  method DecodeCode(code: string, compatibilityMode: bool) returns (arrow: string, normal: seq<Direction>)
    ensures normal == Directions(code)
    ensures arrow == ArrowString(normal, compatibilityMode)
  {
    arrow := "";
    normal := [];
    var parts := Split(code, '|');
    for i := 0 to |parts|
      invariant normal == DirectionsOf(parts[..i])
      invariant arrow == ArrowString(normal, compatibilityMode)
    {
      var part := parts[i];
      DirectionsOfAppend(parts, i);
      if Contains(part, "Up") {
        ArrowStringAppend(normal, Up, compatibilityMode);
        arrow := arrow + [if !compatibilityMode then '\U{1F845}' else '^'];
        normal := normal + [Up];
      } else if Contains(part, "Down") {
        ArrowStringAppend(normal, Down, compatibilityMode);
        arrow := arrow + [if !compatibilityMode then '\U{1F847}' else 'v'];
        normal := normal + [Down];
      } else if Contains(part, "Left") {
        ArrowStringAppend(normal, Left, compatibilityMode);
        arrow := arrow + [if !compatibilityMode then '\U{1F844}' else '<'];
        normal := normal + [Left];
      } else if Contains(part, "Right") {
        ArrowStringAppend(normal, Right, compatibilityMode);
        arrow := arrow + [if !compatibilityMode then '\U{1F846}' else '>'];
        normal := normal + [Right];
      }
    }
    assert parts[..|parts|] == parts;
  }

  /** The i-th arrow is the symbol of the i-th direction. */
  lemma {:induction false} ArrowAt(ds: seq<Direction>, compatibilityMode: bool, i: nat)
    requires i < |ds|
    ensures ArrowString(ds, compatibilityMode)[i] == ArrowSymbol(ds[i], compatibilityMode)
    decreases |ds|
  {
    if i < |ds| - 1 {
      ArrowAt(ds[..|ds| - 1], compatibilityMode, i);
    }
  }

  /** Reading an arrow back: the direction a drawn symbol stands for in the given mode. */
  function ArrowDirection(ch: char, compatibilityMode: bool): (d: Option<Direction>)
    ensures d.Some? ==> ArrowSymbol(d.value, compatibilityMode) == ch
  {
    if ch == ArrowSymbol(Up, compatibilityMode) then Some(Up)
    else if ch == ArrowSymbol(Down, compatibilityMode) then Some(Down)
    else if ch == ArrowSymbol(Left, compatibilityMode) then Some(Left)
    else if ch == ArrowSymbol(Right, compatibilityMode) then Some(Right)
    else None
  }

  /** Reading a whole arrow string back into directions; None if a symbol is not an arrow. */
  function ArrowsToDirections(arrow: string, compatibilityMode: bool): Option<seq<Direction>>
  {
    if arrow == [] then Some([])
    else
      match ArrowsToDirections(arrow[..|arrow| - 1], compatibilityMode)
      case None => None
      case Some(ds) =>
        match ArrowDirection(arrow[|arrow| - 1], compatibilityMode)
        case None => None
        case Some(d) => Some(ds + [d])
  }

  /** Each symbol reads back as its own direction: the four symbols of a mode are distinct. */
  lemma SymbolReadsBack(d: Direction, compatibilityMode: bool)
    ensures ArrowDirection(ArrowSymbol(d, compatibilityMode), compatibilityMode) == Some(d)
  {
  }

  /** The arrow string determines the directions: reading it back gives exactly the list drawn. */
  lemma {:induction false} ArrowStringReadsBack(ds: seq<Direction>, compatibilityMode: bool)
    ensures ArrowsToDirections(ArrowString(ds, compatibilityMode), compatibilityMode) == Some(ds)
    decreases |ds|
  {
    if ds != [] {
      var arrow := ArrowString(ds, compatibilityMode);
      assert arrow[..|arrow| - 1] == ArrowString(ds[..|ds| - 1], compatibilityMode);
      ArrowStringReadsBack(ds[..|ds| - 1], compatibilityMode);
      SymbolReadsBack(ds[|ds| - 1], compatibilityMode);
      assert ds[..|ds| - 1] + [ds[|ds| - 1]] == ds;
    }
  }

  /** Both results of parsing have the same length, and the arrows match the directions one by one. */
  lemma ParsedCodeAligned(code: string, compatibilityMode: bool)
    ensures |ArrowString(Directions(code), compatibilityMode)| == |Directions(code)|
    ensures forall i :: 0 <= i < |Directions(code)| ==>
      ArrowString(Directions(code), compatibilityMode)[i] == ArrowSymbol(Directions(code)[i], compatibilityMode)
  {
    var ds := Directions(code);
    forall i | 0 <= i < |ds|
      ensures ArrowString(ds, compatibilityMode)[i] == ArrowSymbol(ds[i], compatibilityMode)
    {
      ArrowAt(ds, compatibilityMode, i);
    }
  }

  /** The first-hit order of the part test, stated with "occurs at a position" instead of the recursive test. */
  lemma ClassifyPartFirstHit(part: string)
    ensures ClassifyPart(part) == Some(Up) <==> exists i :: OccursAt(part, "Up", i)
    ensures ClassifyPart(part) == Some(Down) <==>
      (!exists i :: OccursAt(part, "Up", i)) && exists i :: OccursAt(part, "Down", i)
    ensures ClassifyPart(part) == Some(Left) <==>
      (!exists i :: OccursAt(part, "Up", i)) && (!exists i :: OccursAt(part, "Down", i))
      && exists i :: OccursAt(part, "Left", i)
    ensures ClassifyPart(part) == Some(Right) <==>
      (!exists i :: OccursAt(part, "Up", i)) && (!exists i :: OccursAt(part, "Down", i))
      && (!exists i :: OccursAt(part, "Left", i)) && exists i :: OccursAt(part, "Right", i)
    ensures ClassifyPart(part) == None <==>
      (!exists i :: OccursAt(part, "Up", i)) && (!exists i :: OccursAt(part, "Down", i))
      && (!exists i :: OccursAt(part, "Left", i)) && (!exists i :: OccursAt(part, "Right", i))
  {
    ContainsIffOccurs(part, "Up");
    ContainsIffOccurs(part, "Down");
    ContainsIffOccurs(part, "Left");
    ContainsIffOccurs(part, "Right");
  }

  /** A text whose characters avoid the first letter of `t` cannot contain `t`. */
  lemma {:induction false} NotContainsWithoutFirstLetter(s: string, t: string)
    requires t != [] && t[0] !in s
    ensures !Contains(s, t)
    decreases |s|
  {
    if |s| > 0 {
      NotContainsWithoutFirstLetter(s[1..], t);
    }
  }

  /** A letter missing from the padding and from the word is missing from the whole part. */
  lemma LetterNotInPart(pre: string, w: string, post: string, ch: char)
    requires ch !in pre && ch !in w && ch !in post
    ensures ch !in pre + w + post
  {
    assert pre + w + post == pre + (w + post);
  }

  /** A part contains the word it was built around. */
  lemma WordInPart(pre: string, w: string, post: string)
    ensures Contains(pre + w + post, w)
  {
    var part := pre + w + post;
    assert part[|pre|..|pre| + |w|] == w;
    OccursContains(part, w, |pre|);
  }

  /** A part made of a direction word with letter-free padding decodes to that direction. */
  lemma WordPartClassifies(pre: string, d: Direction, post: string)
    requires 'U' !in pre && 'D' !in pre && 'L' !in pre
    requires 'U' !in post && 'D' !in post && 'L' !in post
    ensures ClassifyPart(pre + Word(d) + post) == Some(d)
  {
    var part := pre + Word(d) + post;
    WordInPart(pre, Word(d), post);
    if d != Up {
      LetterNotInPart(pre, Word(d), post, 'U');
      NotContainsWithoutFirstLetter(part, "Up");
    }
    if d == Left || d == Right {
      LetterNotInPart(pre, Word(d), post, 'D');
      NotContainsWithoutFirstLetter(part, "Down");
    }
    if d == Right {
      LetterNotInPart(pre, Word(d), post, 'L');
      NotContainsWithoutFirstLetter(part, "Left");
    }
  }

  /** Parts that each decode to one direction give those directions, in order. */
  lemma {:induction false} DirectionsOfDecodedParts(parts: seq<string>, ds: seq<Direction>)
    requires |parts| == |ds|
    requires forall i :: 0 <= i < |parts| ==> ClassifyPart(parts[i]) == Some(ds[i])
    ensures DirectionsOf(parts) == ds
    decreases |parts|
  {
    if parts != [] {
      DirectionsOfDecodedParts(parts[..|parts| - 1], ds[..|ds| - 1]);
      assert ds[..|ds| - 1] + [ds[|ds| - 1]] == ds;
    }
  }

  /** Code text written as `|`-separated parts, each naming one direction, parses to those directions. */
  lemma ParseCodeText(parts: seq<string>, ds: seq<Direction>)
    requires |parts| == |ds| >= 1
    requires forall i :: 0 <= i < |parts| ==> '|' !in parts[i]
    requires forall i :: 0 <= i < |parts| ==> ClassifyPart(parts[i]) == Some(ds[i])
    ensures Directions(Join(parts, '|')) == ds
  {
    SplitJoin(parts, '|');
    DirectionsOfDecodedParts(parts, ds);
  }
}
