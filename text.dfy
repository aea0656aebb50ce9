/** String helpers with the meaning the crawler relies on: Python's substring
    test `sub in s`, `s.split(sep)` for a one-character separator and
    `sep.join(parts)`. */
module Text {

  /** Python's `sub in s`: `sub` occurs as a contiguous piece of `s`. */
  predicate Occurs(sub: string, s: string)
  {
    exists i :: 0 <= i <= |s| - |sub| && IsAt(sub, s, i)
  }

  /** `sub` sits in `s` starting at position `i`. */
  predicate IsAt(sub: string, s: string, i: int)
    requires 0 <= i <= |s| - |sub|
  {
    s[i..i + |sub|] == sub
  }

  lemma OccursAtFront(sub: string, t: string)
    ensures Occurs(sub, sub + t)
  {
    assert IsAt(sub, sub + t, 0);
  }

  /** Every occurrence of a string also contains an occurrence of each of
      its prefixes: `"http:" in s` implies `"http" in s`. */
  lemma {:induction false} OccursPrefix(pre: string, rest: string, s: string)
    requires Occurs(pre + rest, s)
    ensures Occurs(pre, s)
  {
    var i :| 0 <= i <= |s| - |pre + rest| && IsAt(pre + rest, s, i);
    assert s[i..i + |pre|] == (pre + rest)[..|pre|] == pre;
    assert IsAt(pre, s, i);
  }

  /** A string that never holds the first character of `sub` cannot contain `sub`. */
  lemma {:induction false} NoOccurrenceWithoutFirstChar(sub: string, s: string)
    requires |sub| > 0 && sub[0] !in s
    ensures !Occurs(sub, s)
  {
    forall i | 0 <= i <= |s| - |sub|
      ensures !IsAt(sub, s, i)
    {
      assert s[i..i + |sub|][0] == s[i];
    }
  }

  /** Python's `s.split(sep)` for a single-character separator: the pieces
      between separators, always at least one (`"".split(sep) == [""]`). */
  function Split(s: string, sep: char): (parts: seq<string>)
    ensures |parts| >= 1
    ensures forall k :: 0 <= k < |parts| ==> sep !in parts[k]
    decreases |s|
  {
    if s == [] then [""]
    else
      var rest := Split(s[1..], sep);
      if s[0] == sep then [""] + rest
      else [[s[0]] + rest[0]] + rest[1..]
  }

  /** Python's `sep.join(parts)`. */
  function Join(parts: seq<string>, sep: char): string
    decreases |parts|
  {
    if |parts| == 0 then ""
    else if |parts| == 1 then parts[0]
    else parts[0] + [sep] + Join(parts[1..], sep)
  }

  /** Joining the pieces of a split with the same separator gives the string back. */
  lemma {:induction false} JoinSplit(s: string, sep: char)
    ensures Join(Split(s, sep), sep) == s
    decreases |s|
  {
    if s != [] {
      var rest := Split(s[1..], sep);
      JoinSplit(s[1..], sep);
      if s[0] == sep {
        assert Split(s, sep) == [""] + rest;
        assert ([""] + rest)[1..] == rest;
        assert Join([""] + rest, sep) == "" + [sep] + Join(rest, sep);
        assert s == [s[0]] + s[1..];
      } else {
        var first := [s[0]] + rest[0];
        assert Split(s, sep) == [first] + rest[1..];
        if |rest| == 1 {
          assert Join([first] + rest[1..], sep) == first;
          assert Join(rest, sep) == rest[0];
        } else {
          assert ([first] + rest[1..])[1..] == rest[1..];
          assert Join([first] + rest[1..], sep) == first + [sep] + Join(rest[1..], sep);
          assert Join(rest, sep) == rest[0] + [sep] + Join(rest[1..], sep);
        }
        assert s == [s[0]] + s[1..];
      }
    }
  }

  /** Splitting a separator-free piece, a separator and a tail splits off that piece. */
  lemma {:induction false} SplitPieceThenSeparator(piece: string, sep: char, tail: string)
    requires sep !in piece
    ensures Split(piece + [sep] + tail, sep) == [piece] + Split(tail, sep)
    decreases |piece|
  {
    var s := piece + [sep] + tail;
    if piece == [] {
      assert s == [sep] + tail;
      assert s[1..] == tail;
    } else {
      SplitPieceThenSeparator(piece[1..], sep, tail);
      assert s[1..] == piece[1..] + [sep] + tail;
      assert s[0] == piece[0];
      assert piece == [piece[0]] + piece[1..];
    }
  }

  /** A separator-free string splits into itself alone. */
  lemma {:induction false} SplitWithoutSeparator(s: string, sep: char)
    requires sep !in s
    ensures Split(s, sep) == [s]
    decreases |s|
  {
    if s != [] {
      SplitWithoutSeparator(s[1..], sep);
      assert s == [s[0]] + s[1..];
    }
  }

  /** Splitting a join of separator-free pieces gives the pieces back. */
  lemma {:induction false} SplitJoin(parts: seq<string>, sep: char)
    requires |parts| >= 1
    requires forall k :: 0 <= k < |parts| ==> sep !in parts[k]
    ensures Split(Join(parts, sep), sep) == parts
    decreases |parts|
  {
    if |parts| == 1 {
      SplitWithoutSeparator(parts[0], sep);
    } else {
      SplitJoin(parts[1..], sep);
      SplitPieceThenSeparator(parts[0], sep, Join(parts[1..], sep));
      assert parts == [parts[0]] + parts[1..];
    }
  }

  /** Python's `s.split(sep)[-1]`: the text after the last separator, or
      all of `s` when it holds none. */
  function LastPiece(s: string, sep: char): (r: string)
    ensures sep !in r
    ensures |r| <= |s| && s[|s| - |r|..] == r
    ensures |r| < |s| ==> s[|s| - |r| - 1] == sep
    decreases |s|
  {
    if s == [] then ""
    else if s[|s| - 1] == sep then ""
    else
      var init := s[..|s| - 1];
      var p := LastPiece(init, sep);
      assert s == init + [s[|s| - 1]];
      assert s[|s| - |p| - 1..] == init[|init| - |p|..] + [s[|s| - 1]];
      p + [s[|s| - 1]]
  }

  /** `LastPiece` is the last piece that `Split` produces. */
  lemma {:induction false} LastPieceIsLastOfSplit(s: string, sep: char)
    ensures LastPiece(s, sep) == Split(s, sep)[|Split(s, sep)| - 1]
  {
    var r := LastPiece(s, sep);
    if |r| == |s| {
      assert s == r;
      SplitWithoutSeparator(s, sep);
    } else {
      var head := s[..|s| - |r| - 1];
      assert s == head + [sep] + r;
      JoinSplit(head, sep);
      SplitWithoutSeparator(r, sep);
      SplitJoin(Split(head, sep) + [r], sep);
      JoinAppend(Split(head, sep), r, sep);
    }
  }

  /** Joining with one more piece appends a separator and that piece. */
  lemma {:induction false} JoinAppend(parts: seq<string>, last: string, sep: char)
    requires |parts| >= 1
    ensures Join(parts + [last], sep) == Join(parts, sep) + [sep] + last
    decreases |parts|
  {
    if |parts| == 1 {
      assert (parts + [last])[1..] == [last];
    } else {
      JoinAppend(parts[1..], last, sep);
      assert (parts + [last])[1..] == parts[1..] + [last];
    }
  }
}
