/**
 * The parts of Go's `strings` package that the core uses, on strings as sequences of
 * characters. Every separator the core splits on is a single character, so the
 * separator is a `char` here.
 */
module GoStrings {

  import opened Common

  /** Position of the first `c` in `s`. */
  function IndexOf(s: string, c: char): (i: nat)
    requires c in s
    ensures i < |s| && s[i] == c && c !in s[..i]
  {
    if s[0] == c then 0
    else
      var j := IndexOf(s[1..], c);
      assert s[..j + 1] == [s[0]] + s[1..][..j];
      1 + j
  }

  /** Number of occurrences of `c` in `s` (Go's `strings.Count` with a one-character separator). */
  function Count(s: string, c: char): nat
  {
    if s == [] then 0 else (if s[0] == c then 1 else 0) + Count(s[1..], c)
  }

  /** `strings.Split(s, sep)`: the pieces between the separators, at least one piece. */
  function Split(s: string, sep: char): (parts: seq<string>)
    ensures |parts| >= 1
    decreases |s|
  {
    if sep !in s then [s]
    else
      var i := IndexOf(s, sep);
      [s[..i]] + Split(s[i + 1..], sep)
  }

  /** `strings.SplitN(s, sep, n)` for `n >= 1`: at most `n` pieces, the last one the unsplit rest. */
  function SplitN(s: string, sep: char, n: nat): (parts: seq<string>)
    requires n >= 1
    ensures 1 <= |parts| <= n
    decreases n
  {
    if n == 1 || sep !in s then [s]
    else
      var i := IndexOf(s, sep);
      [s[..i]] + SplitN(s[i + 1..], sep, n - 1)
  }

  /** `strings.Join(parts, sep)`. */
  function Join(parts: seq<string>, sep: char): string
  {
    if |parts| == 0 then ""
    else if |parts| == 1 then parts[0]
    else parts[0] + [sep] + Join(parts[1..], sep)
  }

  /** `strings.HasSuffix(s, t)`. */
  predicate HasSuffix(s: string, t: string)
  {
    |t| <= |s| && s[|s| - |t|..] == t
  }

  /** The ASCII part of `unicode.ToLower`. */
  function LowerChar(c: char): char
  {
    if 'A' <= c <= 'Z' then (c as int + 32) as char else c
  }

  /** `strings.ToLower`, for ASCII letters. */
  function ToLower(s: string): (r: string)
    ensures |r| == |s|
    ensures forall k :: 0 <= k < |r| ==> !('A' <= r[k] <= 'Z')
  {
    seq(|s|, k requires 0 <= k < |s| => LowerChar(s[k]))
  }

  // ---------------------------------------------------------------------------
  // Go's `len` of a string counts the bytes of its UTF-8 encoding, not its characters.

  /** Number of bytes UTF-8 uses for the scalar value `c`. */
  function Utf8Width(c: char): (w: nat)
    ensures 1 <= w <= 4
    ensures w == 1 <==> (c as int) < 0x80
  {
    if (c as int) < 0x80 then 1
    else if (c as int) < 0x800 then 2
    else if (c as int) < 0x10000 then 3
    else 4
  }

  /** `len(s)` of a Go string holding the UTF-8 encoding of `s`. */
  function Utf8Length(s: string): nat
  {
    if s == [] then 0 else Utf8Width(s[0]) + Utf8Length(s[1..])
  }

  lemma {:induction false} Utf8LengthAppend(a: string, b: string)
    ensures Utf8Length(a + b) == Utf8Length(a) + Utf8Length(b)
    decreases |a|
  {
    if a == [] {
      assert a + b == b;
    } else {
      assert (a + b)[0] == a[0] && (a + b)[1..] == a[1..] + b;
      Utf8LengthAppend(a[1..], b);
    }
  }

  /** Every character takes between one and four bytes. */
  lemma {:induction false} Utf8LengthBounds(s: string)
    ensures |s| <= Utf8Length(s) <= 4 * |s|
    decreases |s|
  {
    if s != [] {
      Utf8LengthBounds(s[1..]);
    }
  }

  /** On ASCII text the byte length and the character count agree, and only there. */
  lemma {:induction false} Utf8LengthAscii(s: string)
    ensures Utf8Length(s) == |s| <==> forall k :: 0 <= k < |s| ==> (s[k] as int) < 0x80
    decreases |s|
  {
    if s != [] {
      Utf8LengthAscii(s[1..]);
      Utf8LengthBounds(s[1..]);
      assert forall k :: 1 <= k < |s| ==> s[k] == s[1..][k - 1];
    }
  }

  /** `n` copies of one character take `n` times its width. */
  lemma {:induction false} Utf8LengthRepeat(c: char, n: nat)
    ensures Utf8Length(seq(n, _ => c)) == n * Utf8Width(c)
  {
    if n > 0 {
      assert seq(n, _ => c)[1..] == seq(n - 1, _ => c);
      Utf8LengthRepeat(c, n - 1);
    }
  }

  // ---------------------------------------------------------------------------
  // Splitting a string that is known to start with a piece and a separator.

  lemma IndexOfAfter(a: string, sep: char, t: string)
    requires sep !in a
    ensures sep in a + [sep] + t && IndexOf(a + [sep] + t, sep) == |a|
  {
    var s := a + [sep] + t;
    assert s[|a|] == sep;
    assert forall k :: 0 <= k < |a| ==> s[k] == a[k];
  }

  lemma SplitCons(a: string, sep: char, t: string)
    requires sep !in a
    ensures Split(a + [sep] + t, sep) == [a] + Split(t, sep)
  {
    var s := a + [sep] + t;
    IndexOfAfter(a, sep, t);
    assert s[..|a|] == a && s[|a| + 1..] == t;
  }

  lemma SplitNCons(a: string, sep: char, t: string, n: nat)
    requires sep !in a && n >= 2
    ensures SplitN(a + [sep] + t, sep, n) == [a] + SplitN(t, sep, n - 1)
  {
    var s := a + [sep] + t;
    IndexOfAfter(a, sep, t);
    assert s[..|a|] == a && s[|a| + 1..] == t;
  }

  /** Splitting in two at the first separator gives the piece before it and the whole rest. */
  lemma SplitNTwo(a: string, sep: char, t: string)
    requires sep !in a
    ensures SplitN(a + [sep] + t, sep, 2) == [a, t]
  {
    SplitNCons(a, sep, t, 2);
    assert SplitN(t, sep, 1) == [t];
  }

  lemma {:induction false} CountAppend(a: string, b: string, c: char)
    ensures Count(a + b, c) == Count(a, c) + Count(b, c)
  {
    if a == [] {
      assert a + b == b;
    } else {
      assert (a + b)[0] == a[0];
      assert (a + b)[1..] == a[1..] + b;
      CountAppend(a[1..], b, c);
    }
  }

  lemma CountZero(s: string, c: char)
    ensures Count(s, c) == 0 <==> c !in s
  {
    if s != [] {
      assert s == [s[0]] + s[1..];
    }
  }

  // ---------------------------------------------------------------------------
  // Split and Join are inverse to each other.

  /** Splitting gives one more piece than there are separators. */
  lemma {:induction false} SplitCount(s: string, sep: char)
    ensures |Split(s, sep)| == Count(s, sep) + 1
    decreases |s|
  {
    if sep !in s {
      CountZero(s, sep);
    } else {
      var i := IndexOf(s, sep);
      var a, t := s[..i], s[i + 1..];
      assert s == a + ([sep] + t);
      assert Split(s, sep) == [a] + Split(t, sep);
      SplitCount(t, sep);
      CountAppend(a, [sep] + t, sep);
      CountAppend([sep], t, sep);
      CountZero(a, sep);
    }
  }

  /** No piece of a split holds the separator. */
  lemma {:induction false} SplitPieces(s: string, sep: char)
    ensures forall k :: 0 <= k < |Split(s, sep)| ==> sep !in Split(s, sep)[k]
    decreases |s|
  {
    if sep in s {
      var i := IndexOf(s, sep);
      SplitPieces(s[i + 1..], sep);
      var parts := Split(s, sep);
      assert parts[1..] == Split(s[i + 1..], sep);
      forall k | 0 <= k < |parts| ensures sep !in parts[k] {
        if k > 0 { assert parts[k] == Split(s[i + 1..], sep)[k - 1]; }
      }
    }
  }

  /** The pieces of a split join back to the input. */
  lemma {:induction false} SplitJoin(s: string, sep: char)
    ensures Join(Split(s, sep), sep) == s
    decreases |s|
  {
    if sep in s {
      var i := IndexOf(s, sep);
      var a, t := s[..i], s[i + 1..];
      assert s == a + [sep] + t;
      SplitJoin(t, sep);
      var parts := Split(s, sep);
      assert parts[1..] == Split(t, sep);
      assert |parts| >= 2;
    }
  }

  /** Joining separator-free pieces and splitting again gives the pieces back. */
  lemma {:induction false} JoinSplit(parts: seq<string>, sep: char)
    requires |parts| >= 1
    requires forall k :: 0 <= k < |parts| ==> sep !in parts[k]
    ensures Split(Join(parts, sep), sep) == parts
  {
    if |parts| > 1 {
      var rest := parts[1..];
      assert forall k :: 0 <= k < |rest| ==> rest[k] == parts[k + 1];
      JoinSplit(rest, sep);
      var tail := Join(rest, sep);
      assert Join(parts, sep) == parts[0] + [sep] + tail;
      SplitCons(parts[0], sep, tail);
      assert parts == [parts[0]] + rest;
    } else {
      assert Join(parts, sep) == parts[0] && sep !in parts[0];
    }
  }

  lemma {:induction false} JoinSnoc(parts: seq<string>, sep: char, t: string)
    requires |parts| >= 1
    ensures Join(parts + [t], sep) == Join(parts, sep) + [sep] + t
  {
    if |parts| > 1 {
      assert (parts + [t])[1..] == parts[1..] + [t];
      JoinSnoc(parts[1..], sep, t);
    }
  }

  /** The last piece of a split is the text after the last separator. */
  lemma SplitSnoc(a: string, sep: char, t: string)
    requires sep !in t
    ensures Split(a + [sep] + t, sep) == Split(a, sep) + [t]
  {
    SplitJoin(a, sep);
    SplitPieces(a, sep);
    var parts := Split(a, sep) + [t];
    JoinSnoc(Split(a, sep), sep, t);
    JoinSplit(parts, sep);
  }

  /** A separator after a separator-free piece counts once. */
  lemma CountCons(a: string, sep: char, t: string)
    requires sep !in a
    ensures Count(a + [sep] + t, sep) == 1 + Count(t, sep)
  {
    assert a + [sep] + t == a + ([sep] + t);
    CountAppend(a, [sep] + t, sep);
    CountAppend([sep], t, sep);
    CountZero(a, sep);
    assert Count([sep], sep) == 1;
  }

  /** The first cut of SplitN takes one separator and one piece off. */
  lemma SplitNStep(s: string, sep: char, n: nat)
    requires sep in s && n > 1
    ensures var t := s[IndexOf(s, sep) + 1..];
      |SplitN(s, sep, n)| == 1 + |SplitN(t, sep, n - 1)| && Count(s, sep) == 1 + Count(t, sep)
  {
    var i := IndexOf(s, sep);
    var a, t := s[..i], s[i + 1..];
    assert s == a + [sep] + t;
    SplitNCons(a, sep, t, n);
    CountCons(a, sep, t);
  }

  /** SplitN makes at most `n` pieces, and as many as Split when there are fewer separators. */
  lemma {:induction false} SplitNCount(s: string, sep: char, n: nat)
    requires n >= 1
    ensures |SplitN(s, sep, n)| == Min(n, Count(s, sep) + 1)
    decreases n
  {
    if sep in s && n > 1 {
      var t := s[IndexOf(s, sep) + 1..];
      SplitNStep(s, sep, n);
      SplitNCount(t, sep, n - 1);
      assert Min(n, Count(s, sep) + 1) == 1 + Min(n - 1, Count(t, sep) + 1);
    } else {
      assert SplitN(s, sep, n) == [s];
      CountZero(s, sep);
    }
  }

  /** The pieces of SplitN join back to the input. */
  lemma {:induction false} SplitNJoin(s: string, sep: char, n: nat)
    requires n >= 1
    ensures Join(SplitN(s, sep, n), sep) == s
    decreases n
  {
    if sep in s && n > 1 {
      var i := IndexOf(s, sep);
      var a, t := s[..i], s[i + 1..];
      assert s == a + [sep] + t;
      SplitNJoin(t, sep, n - 1);
      var parts := SplitN(s, sep, n);
      assert parts[1..] == SplitN(t, sep, n - 1);
    }
  }

  /** Every piece of SplitN but the last is free of the separator, and every piece holds only characters of the input. */
  lemma {:induction false} SplitNPieces(s: string, sep: char, n: nat)
    requires n >= 1
    ensures forall k :: 0 <= k < |SplitN(s, sep, n)| - 1 ==> sep !in SplitN(s, sep, n)[k]
    ensures forall k :: 0 <= k < |SplitN(s, sep, n)| ==> forall c :: c in SplitN(s, sep, n)[k] ==> c in s
    decreases n
  {
    if sep in s && n > 1 {
      var i := IndexOf(s, sep);
      var t := s[i + 1..];
      SplitNPieces(t, sep, n - 1);
      var parts := SplitN(s, sep, n);
      assert parts[1..] == SplitN(t, sep, n - 1);
      forall k | 0 <= k < |parts|
        ensures (k < |parts| - 1 ==> sep !in parts[k]) && forall c :: c in parts[k] ==> c in s
      {
        if k > 0 {
          assert parts[k] == SplitN(t, sep, n - 1)[k - 1];
          forall c | c in parts[k] ensures c in s {
            var j :| 0 <= j < |t| && t[j] == c;
            assert s[i + 1 + j] == c;
          }
        } else {
          forall c | c in parts[k] ensures c in s {
            var j :| 0 <= j < i && s[..i][j] == c;
            assert s[j] == c;
          }
        }
      }
    }
  }
}
