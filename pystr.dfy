/** The few Python `str` operations the dashboard relies on: `split(sep)`,
    `startswith(prefix)`, `lower()` (ASCII letters only) and the join that
    `split` inverts. */
module PyStr {

  /** `s.startswith(prefix)`. */
  predicate StartsWith(s: string, prefix: string) {
    |prefix| <= |s| && s[..|prefix|] == prefix
  }

  /** `s.split(sep)` for a one-character separator: the pieces between the
      separators, keeping empty pieces, so there is always at least one. */
  function Split(s: string, sep: char): (parts: seq<string>)
    ensures |parts| >= 1
    decreases |s|
  {
    if |s| == 0 then [""]
    else if s[0] == sep then [""] + Split(s[1..], sep)
    else
      var rest := Split(s[1..], sep);
      [[s[0]] + rest[0]] + rest[1..]
  }

  /** `sep.join(parts)`. */
  function Join(parts: seq<string>, sep: char): string
    requires |parts| >= 1
    decreases |parts|
  {
    if |parts| == 1 then parts[0] else parts[0] + [sep] + Join(parts[1..], sep)
  }

  /** The last piece of `s.split(sep)`, Python's `s.split(sep)[-1]`: the
      separator-free suffix of `s`; `LastPieceStartsAfterSep` adds that it
      starts right after the last separator. */
  function LastPiece(s: string, sep: char): (r: string)
    ensures sep !in r
    ensures |r| <= |s| && r == s[|s| - |r|..]
  {
    SplitPiecesFree(s, sep, |Split(s, sep)| - 1);
    SplitLastIsSuffix(s, sep);
    Split(s, sep)[|Split(s, sep)| - 1]
  }

  /** The last piece is all of `s` or starts right after a separator. */
  lemma LastPieceStartsAfterSep(s: string, sep: char)
    ensures var r := LastPiece(s, sep); |r| == |s| || s[|s| - |r| - 1] == sep
  {
    SplitLastAfterSep(s, sep);
  }

  /** The text after the last separator is the last piece. */
  lemma LastPieceAfterSep(a: string, sep: char, b: string)
    requires sep !in b
    ensures LastPiece(a + [sep] + b, sep) == b
  {
    var s := a + [sep] + b;
    var r := LastPiece(s, sep);
    LastPieceStartsAfterSep(s, sep);
    // r is separator-free, and s holds a separator at |a|
    assert forall i :: |s| - |r| <= i < |s| ==> s[i] == r[i - (|s| - |r|)];
    assert s[|a|] == sep;
    assert |r| <= |b|;
    // b is separator-free, and r starts right after a separator or at 0
    assert forall i :: |a| < i < |s| ==> s[i] == b[i - |a| - 1];
    assert |r| == |b|;
    assert s[|s| - |b|..] == b;
  }

  /** No piece of a split contains the separator. */
  lemma {:induction false} SplitPiecesFree(s: string, sep: char, k: nat)
    requires k < |Split(s, sep)|
    ensures sep !in Split(s, sep)[k]
    decreases |s|
  {
    if |s| == 0 {
    } else if s[0] == sep {
      if k > 0 { SplitPiecesFree(s[1..], sep, k - 1); }
    } else {
      var rest := Split(s[1..], sep);
      if k == 0 {
        SplitPiecesFree(s[1..], sep, 0);
        assert Split(s, sep)[0] == [s[0]] + rest[0];
      } else {
        SplitPiecesFree(s[1..], sep, k);
      }
    }
  }

  /** The last piece of a split is a suffix of the string. */
  lemma {:induction false} SplitLastIsSuffix(s: string, sep: char)
    ensures var last := Split(s, sep)[|Split(s, sep)| - 1];
            |last| <= |s| && last == s[|s| - |last|..]
    decreases |s|
  {
    if |s| > 0 {
      SplitLastIsSuffix(s[1..], sep);
      assert s[1..][|s[1..]|..] == s[|s|..];
      var rest := Split(s[1..], sep);
      if s[0] != sep && |rest| == 1 {
        JoinSplit(s[1..], sep);
        assert [s[0]] + s[1..] == s;
      }
    }
  }

  /** A split into one piece leaves the string whole; in a longer split the
      last piece starts right after a separator. */
  lemma {:induction false} SplitLastAfterSep(s: string, sep: char)
    ensures var parts := Split(s, sep);
            var last := parts[|parts| - 1];
            (|parts| == 1 ==> last == s) &&
            (|parts| > 1 ==> |last| < |s| && s[|s| - |last| - 1] == sep)
    decreases |s|
  {
    if |s| > 0 {
      SplitLastAfterSep(s[1..], sep);
      var parts, rest := Split(s, sep), Split(s[1..], sep);
      var last := rest[|rest| - 1];
      if s[0] == sep {
        assert parts == [""] + rest && parts[|parts| - 1] == last;
        if |rest| > 1 {
          assert s[1..][|s| - 1 - |last| - 1] == sep;
        }
      } else if |rest| == 1 {
        assert parts == [[s[0]] + rest[0]];
        assert [s[0]] + s[1..] == s;
      } else {
        assert parts[|parts| - 1] == last;
        assert s[1..][|s| - 1 - |last| - 1] == sep;
      }
    }
  }

  /** A string without the separator splits into itself alone. */
  lemma {:induction false} SplitWithoutSep(s: string, sep: char)
    requires sep !in s
    ensures Split(s, sep) == [s]
    decreases |s|
  {
    if |s| > 0 {
      SplitWithoutSep(s[1..], sep);
      assert [s[0]] + s[1..] == s;
    }
  }

  /** Splitting at a first separator: the part before it is the first piece. */
  lemma {:induction false} SplitAtSep(a: string, sep: char, b: string)
    requires sep !in a
    ensures Split(a + [sep] + b, sep) == [a] + Split(b, sep)
    decreases |a|
  {
    var s := a + [sep] + b;
    if |a| == 0 {
      assert s == [sep] + b;
      assert s[1..] == b;
    } else {
      assert s[1..] == a[1..] + [sep] + b;
      SplitAtSep(a[1..], sep, b);
      assert [a[0]] + a[1..] == a;
    }
  }

  /** Joining the pieces of a split gives back the string. */
  lemma {:induction false} JoinSplit(s: string, sep: char)
    ensures Join(Split(s, sep), sep) == s
    decreases |s|
  {
    if |s| > 0 {
      JoinSplit(s[1..], sep);
      var rest := Split(s[1..], sep);
      if s[0] == sep {
        assert Split(s, sep)[1..] == rest;
        assert [s[0]] + s[1..] == s;
      } else {
        var parts := Split(s, sep);
        assert parts[1..] == rest[1..];
        assert [s[0]] + s[1..] == s;
      }
    }
  }

  /** Splitting a join of separator-free pieces gives back the pieces. */
  lemma {:induction false} SplitJoin(parts: seq<string>, sep: char)
    requires |parts| >= 1
    requires forall k :: 0 <= k < |parts| ==> sep !in parts[k]
    ensures Split(Join(parts, sep), sep) == parts
    decreases |parts|
  {
    if |parts| == 1 {
      SplitWithoutSep(parts[0], sep);
    } else {
      SplitJoin(parts[1..], sep);
      SplitAtSep(parts[0], sep, Join(parts[1..], sep));
      assert [parts[0]] + parts[1..] == parts;
    }
  }

  /** The lower-case form of an ASCII letter; other characters are unchanged. */
  function LowerChar(c: char): (d: char)
    ensures 'A' <= c <= 'Z' ==> d as int == c as int + 32
    ensures !('A' <= c <= 'Z') ==> d == c
  {
    if 'A' <= c <= 'Z' then (c as int + 32) as char else c
  }

  /** `s.lower()` restricted to ASCII letters. */
  function Lower(s: string): (r: string)
    ensures |r| == |s|
    ensures forall i :: 0 <= i < |s| ==> r[i] == LowerChar(s[i])
  {
    seq(|s|, i requires 0 <= i < |s| => LowerChar(s[i]))
  }
}
