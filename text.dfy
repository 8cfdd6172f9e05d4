/**
 * The few Python string operations the game relies on: `str.split` with a
 * one-character separator, the `in` substring test, `str.strip()`,
 * `" ".join(list(s))` and `str.lower()` (on ASCII letters).
 */
module Text {

  /** `s.split(c)`: the pieces between occurrences of `c`; never an empty list. */
  function Split(s: string, c: char): (parts: seq<string>)
    ensures |parts| >= 1
    ensures Join(parts, c) == s
    ensures forall i :: 0 <= i < |parts| ==> c !in parts[i]
    decreases |s|
  {
    if |s| == 0 then [""]
    else
      var rest := Split(s[1..], c);
      if s[0] == c then [""] + rest
      else [[s[0]] + rest[0]] + rest[1..]
  }

  /** `c.join(parts)` for a one-character separator. */
  function Join(parts: seq<string>, c: char): string
  {
    if |parts| == 0 then ""
    else if |parts| == 1 then parts[0]
    else parts[0] + [c] + Join(parts[1..], c)
  }

  /** Splitting text that does not contain the separator, followed by more text. */
  lemma {:induction false} SplitNoSeparatorPrefix(p: string, c: char, t: string)
    requires c !in p
    ensures Split(p + t, c) == [p + Split(t, c)[0]] + Split(t, c)[1..]
    decreases |p|
  {
    if |p| > 0 {
      assert (p + t)[1..] == p[1..] + t;
      SplitNoSeparatorPrefix(p[1..], c, t);
      assert [p[0]] + (p[1..] + Split(t, c)[0]) == p + Split(t, c)[0];
    } else {
      var parts := Split(t, c);
      assert p + t == t && p + parts[0] == parts[0];
      assert [parts[0]] + parts[1..] == parts;
    }
  }

  /** Splitting undoes joining, as long as no piece contains the separator. */
  lemma {:induction false} SplitJoin(parts: seq<string>, c: char)
    requires |parts| >= 1
    requires forall i :: 0 <= i < |parts| ==> c !in parts[i]
    ensures Split(Join(parts, c), c) == parts
    decreases |parts|
  {
    if |parts| == 1 {
      SplitNoSeparatorPrefix(parts[0], c, "");
      assert parts[0] + "" == parts[0];
    } else {
      var tail := Join(parts[1..], c);
      SplitJoin(parts[1..], c);
      assert Split([c] + tail, c) == [""] + Split(tail, c);
      assert parts[0] + [c] + tail == parts[0] + ([c] + tail);
      SplitNoSeparatorPrefix(parts[0], c, [c] + tail);
      assert parts[0] + "" == parts[0];
      assert [parts[0]] + parts[1..] == parts;
    }
  }

  /** `t in s` for strings: `t` occurs somewhere in `s` as a contiguous piece. */
  predicate Contains(s: string, t: string)
    decreases |s|
  {
    t <= s || (|s| > 0 && Contains(s[1..], t))
  }

  /** `t` is the piece of `s` that starts at position `i`. */
  predicate OccursAt(s: string, t: string, i: int)
  {
    0 <= i <= |s| - |t| && t == s[i..i + |t|]
  }

  /** A piece found by the recursive test occurs at some position. */
  lemma {:induction false} ContainsOccurs(s: string, t: string) returns (i: nat)
    requires Contains(s, t)
    ensures OccursAt(s, t, i)
    decreases |s|
  {
    if t <= s {
      i := 0;
    } else {
      var j := ContainsOccurs(s[1..], t);
      assert s[1..][j..j + |t|] == s[j + 1..j + 1 + |t|];
      i := j + 1;
    }
  }

  /** A piece occurring at a position is found by the recursive test. */
  lemma {:induction false} OccursContains(s: string, t: string, i: nat)
    requires OccursAt(s, t, i)
    ensures Contains(s, t)
    decreases i
  {
    if i > 0 {
      assert s[1..][i - 1..i - 1 + |t|] == s[i..i + |t|];
      OccursContains(s[1..], t, i - 1);
    } else {
      assert t <= s;
    }
  }

  /** The recursive substring test agrees with "occurs at some position". */
  lemma ContainsIffOccurs(s: string, t: string)
    ensures Contains(s, t) <==> exists i :: OccursAt(s, t, i)
  {
    if Contains(s, t) {
      var i := ContainsOccurs(s, t);
    }
    if i :| OccursAt(s, t, i) {
      OccursContains(s, t, i);
    }
  }

  /** The characters Python's `str.isspace()` accepts. */
  predicate IsSpace(ch: char)
  {
    || ch == ' ' || ch == '\t' || ch == '\n' || ch == '\r'
    || ch == '\U{B}' || ch == '\U{C}'
    || ('\U{1C}' <= ch <= '\U{1F}')
    || ch == '\U{85}' || ch == '\U{A0}' || ch == '\U{1680}'
    || ('\U{2000}' <= ch <= '\U{200A}')
    || ch == '\U{2028}' || ch == '\U{2029}' || ch == '\U{202F}' || ch == '\U{205F}' || ch == '\U{3000}'
  }

  function TrimStart(s: string): (r: string)
    ensures |r| <= |s| && r == s[|s| - |r|..]
    ensures r == [] || !IsSpace(r[0])
    ensures forall i :: 0 <= i < |s| - |r| ==> IsSpace(s[i])
    decreases |s|
  {
    if |s| > 0 && IsSpace(s[0]) then TrimStart(s[1..]) else s
  }

  function TrimEnd(s: string): (r: string)
    ensures |r| <= |s| && r == s[..|r|]
    ensures r == [] || !IsSpace(r[|r| - 1])
    ensures forall i :: |r| <= i < |s| ==> IsSpace(s[i])
    decreases |s|
  {
    if |s| > 0 && IsSpace(s[|s| - 1]) then TrimEnd(s[..|s| - 1]) else s
  }

  /** `r` sits at position `k` of `s`, with only whitespace before and after it. */
  predicate TrimmedAt(s: string, r: string, k: int)
  {
    && OccursAt(s, r, k)
    && (forall i :: 0 <= i < k ==> IsSpace(s[i]))
    && (forall i :: k + |r| <= i < |s| ==> IsSpace(s[i]))
  }

  /** `s.strip()`: the middle of `s` once leading and trailing whitespace is removed. */
  function Strip(s: string): (r: string)
    ensures exists k :: TrimmedAt(s, r, k)
    ensures r == [] || (!IsSpace(r[0]) && !IsSpace(r[|r| - 1]))
  {
    StripShape(s);
    TrimEnd(TrimStart(s))
  }

  /** Trimming both ends removes only whitespace, around a contiguous middle. */
  lemma StripShape(s: string)
    ensures exists k :: TrimmedAt(s, TrimEnd(TrimStart(s)), k)
  {
    var front := TrimStart(s);
    var r := TrimEnd(front);
    var k := |s| - |front|;
    assert s[k..] == front;
    assert OccursAt(s, r, k);
    assert forall i :: 0 <= i < k ==> IsSpace(s[i]);
    forall i | k + |r| <= i < |s|
      ensures IsSpace(s[i])
    {
      assert s[i] == front[i - k];
    }
    assert TrimmedAt(s, r, k);
  }

  /** `" ".join(list(s))`: the characters of `s` with one space between neighbours. */
  function SpaceJoin(s: string): (r: string)
    ensures |r| == if s == [] then 0 else 2 * |s| - 1
    decreases |s|
  {
    if |s| <= 1 then s else [s[0], ' '] + SpaceJoin(s[1..])
  }

  /** The characters of `s` sit at the even positions of its space-join, spaces at the odd ones. */
  lemma {:induction false} SpaceJoinShape(s: string, i: nat)
    requires i < |SpaceJoin(s)|
    ensures SpaceJoin(s)[i] == if i % 2 == 0 then s[i / 2] else ' '
    decreases |s|
  {
    if |s| > 1 && i >= 2 {
      SpaceJoinShape(s[1..], i - 2);
    }
  }

  /** Space-joining a concatenation puts exactly one space where the halves meet. */
  lemma {:induction false} SpaceJoinAppend(a: string, b: string, ab: string)
    requires a != [] && b != [] && ab == a + b
    ensures SpaceJoin(ab) == SpaceJoin(a) + " " + SpaceJoin(b)
    decreases |a|
  {
    if |a| == 1 {
      assert ab[1..] == b;
    } else {
      assert ab[1..] == a[1..] + b;
      SpaceJoinAppend(a[1..], b, ab[1..]);
    }
  }

  /** Cutting `s` at any point: the two space-joins, with one space between them when both are non-empty. */
  lemma SpaceJoinCut(s: string, k: nat)
    requires k <= |s|
    ensures SpaceJoin(s) == SpaceJoin(s[..k]) + (if 0 < k < |s| then " " else "") + SpaceJoin(s[k..])
  {
    if 0 < k < |s| {
      SpaceJoinSplitAt(s, k);
    } else {
      SpaceJoinEnds(s, k);
    }
  }

  /** Cutting strictly inside `s`. */
  lemma SpaceJoinSplitAt(s: string, k: nat)
    requires 0 < k < |s|
    ensures SpaceJoin(s) == SpaceJoin(s[..k]) + " " + SpaceJoin(s[k..])
  {
    var a, b := s[..k], s[k..];
    assert a + b == s;
    SpaceJoinAppend(a, b, s);
  }

  /** Cutting at either end leaves the whole on one side and nothing on the other. */
  lemma SpaceJoinEnds(s: string, k: nat)
    requires k == 0 || k == |s|
    ensures SpaceJoin(s) == SpaceJoin(s[..k]) + SpaceJoin(s[k..])
  {
    var a, b := s[..k], s[k..];
    if k == 0 {
      assert a == [] && b == s;
    } else {
      assert a == s && b == [];
    }
  }

  function LowerChar(ch: char): char
  {
    if 'A' <= ch <= 'Z' then (ch as int + 32) as char else ch
  }

  /** `s.lower()` restricted to ASCII letters: every other character is kept. */
  function LowerAscii(s: string): (r: string)
    ensures |r| == |s|
    ensures forall i :: 0 <= i < |s| && 'A' <= s[i] <= 'Z' ==> r[i] as int == s[i] as int + 32
    ensures forall i :: 0 <= i < |s| && !('A' <= s[i] <= 'Z') ==> r[i] == s[i]
    ensures forall i :: 0 <= i < |r| ==> !('A' <= r[i] <= 'Z')
  {
    seq(|s|, i requires 0 <= i < |s| => LowerChar(s[i]))
  }
}
