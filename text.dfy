/** The string operations the handlers rely on: `String.prototype.split` on a
    one-character separator, and the case-insensitive `contains` filter of a
    song search. */
module Text {

  /** Inverse of `Split`: the fields glued back together with the separator. */
  function Join(fields: seq<string>, sep: char): string
    requires |fields| >= 1
  {
    if |fields| == 1 then fields[0] else fields[0] + [sep] + Join(fields[1..], sep)
  }

  /** `s.split(sep)` in JavaScript: the maximal separator-free pieces between
      separators; an empty string gives one empty field. */
  function Split(s: string, sep: char): (fields: seq<string>)
    ensures |fields| >= 1
    ensures Join(fields, sep) == s
    ensures forall i | 0 <= i < |fields| :: sep !in fields[i]
  {
    if s == [] then [[]]
    else
      var rest := Split(s[1..], sep);
      if s[0] == sep then
        assert [sep] + s[1..] == s;
        [[]] + rest
      else
        var fields := [[s[0]] + rest[0]] + rest[1..];
        assert fields[1..] == rest[1..];
        assert |rest| > 1 ==> Join(rest, sep) == rest[0] + [sep] + Join(rest[1..], sep);
        assert [s[0]] + s[1..] == s;
        fields
  }

  /** A string without the separator is a single field. */
  lemma {:induction false} SplitWithoutSeparator(s: string, sep: char)
    requires sep !in s
    ensures Split(s, sep) == [s]
  {
    if s != [] {
      SplitWithoutSeparator(s[1..], sep);
      assert [s[0]] + s[1..] == s;
    }
  }

  /** A separator-free prefix is exactly the first field. */
  lemma {:induction false} SplitAfterFirst(head: string, tail: string, sep: char)
    requires sep !in head
    ensures Split(head + [sep] + tail, sep) == [head] + Split(tail, sep)
  {
    var s := head + [sep] + tail;
    if head == [] {
      assert s[0] == sep && s[1..] == tail;
    } else {
      assert s[0] == head[0] && s[1..] == head[1..] + [sep] + tail;
      SplitAfterFirst(head[1..], tail, sep);
      assert [head[0]] + head[1..] == head;
    }
  }

  /** The lower-case form of an ASCII capital letter; every other character is itself. */
  function LowerChar(c: char): char {
    if 'A' <= c <= 'Z' then (c as int + 32) as char else c
  }

  function Lower(s: string): string {
    seq(|s|, i requires 0 <= i < |s| => LowerChar(s[i]))
  }

  /** `needle` occurs in `hay` starting at position `i`. */
  predicate OccursAt(needle: string, hay: string, i: int) {
    0 <= i <= |hay| - |needle| && hay[i..i + |needle|] == needle
  }

  /** `hay` contains `needle` as a contiguous piece, searched from the left. */
  predicate IsInfix(needle: string, hay: string)
    decreases |hay|
  {
    needle <= hay || (hay != [] && IsInfix(needle, hay[1..]))
  }

  /** Dropping the first character of `hay` shifts every occurrence one to the left. */
  lemma OccursAtShift(needle: string, hay: string, i: int)
    requires hay != [] && 0 <= i
    ensures OccursAt(needle, hay[1..], i) <==> OccursAt(needle, hay, i + 1)
  {
    if i <= |hay| - 1 - |needle| {
      assert hay[1..][i..i + |needle|] == hay[i + 1..i + 1 + |needle|];
    }
  }

  /** The left-to-right search finds exactly the needles that occur somewhere. */
  lemma {:induction false} IsInfixIffOccurs(needle: string, hay: string)
    ensures IsInfix(needle, hay) <==> exists i :: OccursAt(needle, hay, i)
    decreases |hay|
  {
    if needle <= hay {
      assert OccursAt(needle, hay, 0);
    } else if hay == [] {
      assert forall i :: !OccursAt(needle, hay, i);
    } else {
      IsInfixIffOccurs(needle, hay[1..]);
      assert !OccursAt(needle, hay, 0);
      if i :| OccursAt(needle, hay, i) {
        OccursAtShift(needle, hay, i - 1);
        assert OccursAt(needle, hay[1..], i - 1);
      }
      if j :| OccursAt(needle, hay[1..], j) {
        OccursAtShift(needle, hay, j);
      }
    }
  }

  /** Case-insensitive `contains`: `needle` occurs in `hay` once both are lower-cased. */
  predicate ContainsIgnoringCase(hay: string, needle: string) {
    IsInfix(Lower(needle), Lower(hay))
  }
}
