/**
 * String helpers shared by the request encoder and the clone walk: joining
 * with a separator (Java's Collectors.joining and StringJoiner), splitting at
 * a character, substring containment (String.contains) and decimal rendering
 * of integers (string concatenation and String.format("%s") of an int).
 */
module Text {

  /** Option for lookups and for operations that may fail. */
  datatype Option<T> = None | Some(value: T)

  /** `pieces` with `sep` between each two consecutive pieces. */
  function Join(pieces: seq<string>, sep: string): string
  {
    if |pieces| == 0 then ""
    else if |pieces| == 1 then pieces[0]
    else pieces[0] + sep + Join(pieces[1..], sep)
  }

  /** Adding a piece at the end, as StringJoiner.add does. */
  lemma {:induction false} JoinSnoc(pieces: seq<string>, x: string, sep: string)
    ensures Join(pieces + [x], sep) == if pieces == [] then x else Join(pieces, sep) + sep + x
  {
    if |pieces| >= 2 {
      assert (pieces + [x])[1..] == pieces[1..] + [x];
      JoinSnoc(pieces[1..], x, sep);
    } else if |pieces| == 1 {
      assert (pieces + [x])[1..] == [x];
    }
  }

  /** Joining a non-empty list of non-empty pieces never gives the empty string. */
  lemma {:induction false} JoinNonEmpty(pieces: seq<string>, sep: string)
    requires |pieces| > 0 && pieces[0] != ""
    ensures Join(pieces, sep) != ""
    ensures Join(pieces, sep)[0] == pieces[0][0]
  {
  }

  /** Number of occurrences of `c` in `s`. */
  function Count(s: string, c: char): nat
  {
    if s == [] then 0 else (if s[0] == c then 1 else 0) + Count(s[1..], c)
  }

  lemma {:induction false} CountAppend(a: string, b: string, c: char)
    ensures Count(a + b, c) == Count(a, c) + Count(b, c)
  {
    if a != [] {
      assert (a + b)[0] == a[0];
      assert (a + b)[1..] == a[1..] + b;
      CountAppend(a[1..], b, c);
    } else {
      assert a + b == b;
    }
  }

  lemma {:induction false} CountAbsent(s: string, c: char)
    requires c !in s
    ensures Count(s, c) == 0
  {
    if s != [] {
      assert c !in s[1..];
      CountAbsent(s[1..], c);
    }
  }

  /**
   * Joining pieces that do not contain the one-character separator puts
   * exactly one separator between each two of them: n pieces, n - 1
   * separators.
   */
  lemma {:induction false} JoinSeparatorCount(pieces: seq<string>, c: char)
    requires |pieces| > 0
    requires forall i :: 0 <= i < |pieces| ==> c !in pieces[i]
    ensures Count(Join(pieces, [c]), c) == |pieces| - 1
  {
    CountAbsent(pieces[0], c);
    if |pieces| > 1 {
      JoinSeparatorCount(pieces[1..], c);
      CountAppend(pieces[0] + [c], Join(pieces[1..], [c]), c);
      CountAppend(pieces[0], [c], c);
      assert Count([c], c) == 1 by { assert [c][1..] == []; }
    }
  }

  /** Index of the first `c` in `s`. */
  function IndexOf(s: string, c: char): (i: nat)
    requires c in s
    ensures i < |s| && s[i] == c && c !in s[..i]
  {
    if s[0] == c then 0 else 1 + IndexOf(s[1..], c)
  }

  /** In x + [c] + rest, with no `c` in x, the first `c` is the one after x. */
  lemma {:induction false} IndexOfAfter(x: string, c: char, rest: string)
    requires c !in x
    ensures IndexOf(x + [c] + rest, c) == |x|
  {
    var s := x + [c] + rest;
    if x != [] {
      assert s[0] == x[0];
      assert s[1..] == x[1..] + [c] + rest;
      IndexOfAfter(x[1..], c, rest);
    } else {
      assert s[0] == c;
    }
  }

  /** `s` cut at every `c`; the pieces contain no `c`. */
  function Split(s: string, c: char): (r: seq<string>)
    ensures |r| >= 1
    ensures forall k :: 0 <= k < |r| ==> c !in r[k]
    decreases |s|
  {
    if c !in s then [s]
    else
      var i := IndexOf(s, c);
      [s[..i]] + Split(s[i + 1..], c)
  }

  /**
   * Splitting undoes joining with a separator that no piece contains: the
   * pieces come back, in order, and as many as there were.
   */
  lemma {:induction false} SplitJoin(pieces: seq<string>, c: char)
    requires |pieces| > 0
    requires forall k :: 0 <= k < |pieces| ==> c !in pieces[k]
    ensures Split(Join(pieces, [c]), c) == pieces
  {
    if |pieces| > 1 {
      var x, rest := pieces[0], Join(pieces[1..], [c]);
      var s := x + [c] + rest;
      assert s[|x|] == c;
      IndexOfAfter(x, c, rest);
      var i := IndexOf(s, c);
      assert s[..i] == x;
      assert s[i + 1..] == rest;
      SplitJoin(pieces[1..], c);
    }
  }

  /** `t` is a prefix of `s`. */
  predicate StartsWith(s: string, t: string)
  {
    |t| <= |s| && s[..|t|] == t
  }

  /** String.contains: `t` occurs in `s` at some position (case-sensitive). */
  predicate Contains(s: string, t: string)
    decreases |s|
  {
    StartsWith(s, t) || (|s| > 0 && Contains(s[1..], t))
  }

  /** `t` occurs in `s` starting at position `i`. */
  predicate OccursAt(s: string, t: string, i: nat)
  {
    i + |t| <= |s| && s[i..i + |t|] == t
  }

  /** Contains agrees with "there is a position where `t` occurs". */
  lemma {:induction false} ContainsAt(s: string, t: string)
    ensures Contains(s, t) <==> exists i: nat :: OccursAt(s, t, i)
    decreases |s|
  {
    if StartsWith(s, t) {
      assert OccursAt(s, t, 0);
    }
    if |s| > 0 {
      ContainsAt(s[1..], t);
      if Contains(s[1..], t) {
        var i: nat :| OccursAt(s[1..], t, i);
        assert s[i + 1..i + 1 + |t|] == s[1..][i..i + |t|];
        assert OccursAt(s, t, i + 1);
      }
      if exists i: nat :: OccursAt(s, t, i) {
        var i: nat :| OccursAt(s, t, i);
        if i > 0 {
          assert s[1..][i - 1..i - 1 + |t|] == s[i..i + |t|];
          assert OccursAt(s[1..], t, i - 1);
        }
      }
    } else if exists i: nat :: OccursAt(s, t, i) {
      var i: nat :| OccursAt(s, t, i);
      assert s[..|t|] == s[i..i + |t|];
    }
  }

  /** Every character of a string that `s` contains occurs in `s`. */
  lemma {:induction false} ContainsChars(s: string, t: string, k: nat)
    requires Contains(s, t) && k < |t|
    ensures t[k] in s
    decreases |s|
  {
    if StartsWith(s, t) {
      assert s[k] == t[k];
    } else {
      ContainsChars(s[1..], t, k);
      assert t[k] in s[1..];
    }
  }

  /** Whatever precedes or follows `t`, the result contains `t`. */
  lemma {:induction false} ContainsInfix(a: string, t: string, b: string)
    ensures Contains(a + t + b, t)
    decreases |a|
  {
    if a == [] {
      assert (a + t + b)[..|t|] == t;
    } else {
      assert (a + t + b)[1..] == a[1..] + t + b;
      ContainsInfix(a[1..], t, b);
    }
  }

  function DigitChar(d: nat): char
    requires d < 10
  {
    "0123456789"[d]
  }

  /** Decimal rendering of a natural number, without leading zeros. */
  function NatToString(n: nat): (r: string)
    ensures |r| >= 1
    ensures forall k :: 0 <= k < |r| ==> '0' <= r[k] <= '9'
  {
    if n < 10 then [DigitChar(n)] else NatToString(n / 10) + [DigitChar(n % 10)]
  }

  /** Decimal rendering of an integer, with a leading '-' when negative. */
  function IntToString(i: int): string
  {
    if i < 0 then "-" + NatToString(-i) else NatToString(i)
  }
}
