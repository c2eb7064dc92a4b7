/**
 * The three string operations the modal reads its marker text with:
 * `String.prototype.trim`, `toLowerCase` (restricted to ASCII letters) and
 * `split(",")`.
 */
module Text {

  /**
   * The characters `trim` strips: ECMAScript WhiteSpace (tab, vertical tab,
   * form feed, space, no-break space, byte order mark and the Zs category) and
   * LineTerminator (LF, CR, line and paragraph separators).
   */
  predicate IsSpace(c: char) {
    || c == '\t' || c == '\n' || c == '\U{B}' || c == '\U{C}' || c == '\r' || c == ' '
    || c == '\U{A0}' || c == '\U{1680}' || ('\U{2000}' <= c <= '\U{200A}')
    || c == '\U{2028}' || c == '\U{2029}' || c == '\U{202F}' || c == '\U{205F}'
    || c == '\U{3000}' || c == '\U{FEFF}'
  }

  /** Number of whitespace characters at the start of `s`. */
  function LeadingSpaces(s: string): (n: nat)
    ensures n <= |s|
    ensures forall k :: 0 <= k < n ==> IsSpace(s[k])
    ensures n < |s| ==> !IsSpace(s[n])
  {
    if s == [] || !IsSpace(s[0]) then 0 else 1 + LeadingSpaces(s[1..])
  }

  /** Number of whitespace characters at the end of `s`. */
  function TrailingSpaces(s: string): (n: nat)
    ensures n <= |s|
    ensures forall k :: |s| - n <= k < |s| ==> IsSpace(s[k])
    ensures n < |s| ==> !IsSpace(s[|s| - 1 - n])
  {
    if s == [] || !IsSpace(s[|s| - 1]) then 0 else 1 + TrailingSpaces(s[..|s| - 1])
  }

  /** `r` is the slice of `s` at offset `a`, and everything of `s` around it is whitespace. */
  ghost predicate TrimmedAt(s: string, a: int, r: string) {
    && 0 <= a <= |s| - |r|
    && r == s[a..a + |r|]
    && (forall k :: 0 <= k < a ==> IsSpace(s[k]))
    && (forall k :: a + |r| <= k < |s| ==> IsSpace(s[k]))
  }

  /** `s.trim()`: `s` without its leading and trailing whitespace. */
  function Trim(s: string): (r: string)
    ensures r == [] || (!IsSpace(r[0]) && !IsSpace(r[|r| - 1]))
    ensures r == [] <==> forall k :: 0 <= k < |s| ==> IsSpace(s[k])
    ensures |r| <= |s|
  {
    var a := LeadingSpaces(s);
    var t := s[a..];
    var b := TrailingSpaces(t);
    assert forall k :: 0 <= k < |s| && k >= a ==> t[k - a] == s[k];
    t[..|t| - b]
  }

  /**
   * What trimming keeps: `Trim(s)` is one contiguous slice of `s`, and
   * everything of `s` before and after that slice is whitespace.
   */
  lemma TrimContent(s: string)
    ensures exists a :: TrimmedAt(s, a, Trim(s))
  {
    var a := LeadingSpaces(s);
    var t := s[a..];
    var e := |s| - TrailingSpaces(t);
    forall k | e <= k < |s| ensures IsSpace(s[k]) {
      assert s[k] == t[k - a];
    }
    assert Trim(s) == s[a..e];
    assert TrimmedAt(s, a, Trim(s));
  }

  /** Trimming is determined by its content: a slice with only whitespace around it and none at its ends is the trim. */
  lemma TrimUnique(s: string, a: int, r: string)
    requires TrimmedAt(s, a, r)
    requires r == [] || (!IsSpace(r[0]) && !IsSpace(r[|r| - 1]))
    ensures Trim(s) == r
  {
    var t := Trim(s);
    TrimContent(s);
    var b :| TrimmedAt(s, b, t);
    if r == [] {
      assert forall k :: 0 <= k < |s| ==> IsSpace(s[k]);
    } else {
      assert s[a] == r[0] && s[a + |r| - 1] == r[|r| - 1];
      assert t != [];
      assert s[b] == t[0] && s[b + |t| - 1] == t[|t| - 1];
      assert a == b;
      assert a + |r| == b + |t|;
    }
  }

  /** Dropping some of the outer whitespace of `s` does not change its trim. */
  lemma TrimInner(s: string, i: int, j: int)
    requires 0 <= i <= j <= |s|
    requires forall k :: 0 <= k < i ==> IsSpace(s[k])
    requires forall k :: j <= k < |s| ==> IsSpace(s[k])
    ensures Trim(s[i..j]) == Trim(s)
  {
    var r := Trim(s);
    TrimContent(s);
    var a :| TrimmedAt(s, a, r);
    if r == [] {
      assert forall k :: 0 <= k < |s[i..j]| ==> IsSpace(s[i..j][k]) by {
        forall k | 0 <= k < |s[i..j]| ensures IsSpace(s[i..j][k]) {
          assert s[i..j][k] == s[i + k];
        }
      }
    } else {
      assert i <= a && a + |r| <= j by {
        assert s[a] == r[0] && s[a + |r| - 1] == r[|r| - 1];
      }
      SliceTrimmedAt(s, i, j, a, r);
      TrimUnique(s[i..j], a - i, r);
    }
  }

  /** A trimmed slice keeps its place in any slice of `s` that contains it. */
  lemma SliceTrimmedAt(s: string, i: int, j: int, a: int, r: string)
    requires TrimmedAt(s, a, r) && 0 <= i <= a && a + |r| <= j <= |s|
    ensures TrimmedAt(s[i..j], a - i, r)
  {
    var u := s[i..j];
    forall k | 0 <= k < |u| ensures u[k] == s[i + k] {
    }
    assert r == u[a - i..a - i + |r|];
  }

  /**
   * Trimming text with a non-space character `c` inside it strips only the
   * whitespace before the first part and after the last.
   */
  lemma TrimAround(a: string, c: char, b: string)
    requires !IsSpace(c)
    ensures Trim(a + [c] + b) == a[LeadingSpaces(a)..] + [c] + b[..|b| - TrailingSpaces(b)]
  {
    var i, j := LeadingSpaces(a), |b| - TrailingSpaces(b);
    var r := a[i..] + [c] + b[..j];
    assert !IsSpace(r[0]) by {
      assert r[0] == if i < |a| then a[i] else c;
    }
    assert !IsSpace(r[|r| - 1]) by {
      assert r[|r| - 1] == if 0 < j then b[j - 1] else c;
    }
    AroundTrimmedAt(a, c, b, i, j);
    TrimUnique(a + [c] + b, i, r);
  }

  /** In `a + [c] + b`, a part with only whitespace of `a` before it and only whitespace of `b` after it is trimmed. */
  lemma AroundTrimmedAt(a: string, c: char, b: string, i: int, j: int)
    requires 0 <= i <= |a| && 0 <= j <= |b|
    requires forall k :: 0 <= k < i ==> IsSpace(a[k])
    requires forall k :: j <= k < |b| ==> IsSpace(b[k])
    ensures TrimmedAt(a + [c] + b, i, a[i..] + [c] + b[..j])
  {
    var text := a + [c] + b;
    var r := a[i..] + [c] + b[..j];
    assert r == text[i..i + |r|] by {
      assert text == a + ([c] + b);
      SliceConcat(a, [c] + b, i, 1 + j);
      assert ([c] + b)[..1 + j] == [c] + b[..j];
    }
    forall k | 0 <= k < i ensures IsSpace(text[k]) {
      assert text[k] == a[k];
    }
    forall k | i + |r| <= k < |text| ensures IsSpace(text[k]) {
      assert text[k] == b[k - |a| - 1];
    }
  }

  /** A slice across the seam of a concatenation is a suffix of the left part and a prefix of the right. */
  lemma SliceConcat(x: string, y: string, i: int, n: int)
    requires 0 <= i <= |x| && 0 <= n <= |y|
    ensures (x + y)[i..|x| + n] == x[i..] + y[..n]
  {
  }

  /** Concatenation is associative. */
  lemma ConcatAssoc(x: string, y: string, z: string)
    ensures x + (y + z) == x + y + z
  {
  }

  /** Appending nothing changes nothing. */
  lemma ConcatEmpty(x: string)
    ensures x + [] == x
  {
  }

  /** Trimming only removes characters: a character absent from `s` is absent from its trim. */
  lemma TrimWithout(s: string, c: char)
    requires c !in s
    ensures c !in Trim(s)
  {
    var r := Trim(s);
    TrimContent(s);
    var a :| TrimmedAt(s, a, r);
    assert forall k :: 0 <= k < |r| ==> r[k] == s[a + k];
  }

  /** A string that neither starts nor ends with whitespace is its own trim. */
  lemma TrimKeeps(s: string)
    requires s == [] || (!IsSpace(s[0]) && !IsSpace(s[|s| - 1]))
    ensures Trim(s) == s
  {
  }

  /** Trimming twice is trimming once. */
  lemma TrimIdempotent(s: string)
    ensures Trim(Trim(s)) == Trim(s)
  {
    TrimKeeps(Trim(s));
  }

  /** `toLowerCase` on one character, for the ASCII letters. */
  function LowerChar(c: char): (r: char)
    ensures 'A' <= c <= 'Z' ==> 'a' <= r <= 'z' && r as int - c as int == 32
    ensures !('A' <= c <= 'Z') ==> r == c
  {
    if 'A' <= c <= 'Z' then (c as int + 32) as char else c
  }

  /** `s.toLowerCase()` with ASCII case mapping. */
  function ToLower(s: string): (r: string)
    ensures |r| == |s|
    ensures forall i :: 0 <= i < |s| ==> r[i] == LowerChar(s[i])
  {
    if s == [] then [] else [LowerChar(s[0])] + ToLower(s[1..])
  }

  /** `c` is the lower-case ASCII letter `lower` or its upper-case form. */
  predicate EitherCase(c: char, lower: char) {
    c == lower || c as int == lower as int - 32
  }

  /** Lower-casing a character gives a lower-case ASCII letter exactly for that letter in either case. */
  lemma LowerCharIs(c: char, lower: char)
    requires 'a' <= lower <= 'z'
    ensures LowerChar(c) == lower <==> EitherCase(c, lower)
  {
  }

  /** Lower-casing gives "false" exactly for the spellings of "false" in any mix of cases. */
  lemma LowerIsFalse(u: string)
    ensures ToLower(u) == "false" <==>
      |u| == 5 && forall i :: 0 <= i < 5 ==> EitherCase(u[i], "false"[i])
  {
    var w := "false";
    var l := ToLower(u);
    if |u| == 5 {
      forall i | 0 <= i < 5 ensures l[i] == w[i] <==> EitherCase(u[i], w[i]) {
        LowerCharIs(u[i], w[i]);
      }
      assert l == w <==> forall i :: 0 <= i < 5 ==> l[i] == w[i];
    }
  }

  /** `s.split(sep)` for a one-character separator: always at least one part. */
  function Split(s: string, sep: char): (parts: seq<string>)
    ensures |parts| >= 1
    ensures forall i :: 0 <= i < |parts| ==> sep !in parts[i]
  {
    if s == [] then [""]
    else
      var rest := Split(s[1..], sep);
      if s[0] == sep then [""] + rest else [[s[0]] + rest[0]] + rest[1..]
  }

  /** The parts joined with the separator between them; the inverse of `Split`. */
  function Join(parts: seq<string>, sep: char): string
    requires |parts| >= 1
  {
    if |parts| == 1 then parts[0] else parts[0] + [sep] + Join(parts[1..], sep)
  }

  /** Splitting loses nothing: joining the parts back gives the original text. */
  lemma {:induction false} SplitJoin(s: string, sep: char)
    ensures Join(Split(s, sep), sep) == s
  {
    if s != [] {
      var rest := Split(s[1..], sep);
      SplitJoin(s[1..], sep);
      if s[0] != sep {
        if |rest| == 1 {
          assert Split(s, sep) == [[s[0]] + rest[0]];
        } else {
          assert Split(s, sep)[1..] == rest[1..];
          assert [s[0]] + Join(rest, sep) == s;
        }
      } else {
        assert Split(s, sep)[1..] == rest;
      }
    }
  }

  /** Splitting a separator-free prefix off: the prefix extends the first part. */
  lemma {:induction false} SplitSeparatorFree(p: string, tail: string, sep: char)
    requires sep !in p
    ensures var t := Split(tail, sep);
      Split(p + tail, sep) == [p + t[0]] + t[1..]
  {
    if p != [] {
      assert (p + tail)[1..] == p[1..] + tail;
      SplitSeparatorFree(p[1..], tail, sep);
      assert [p[0]] + (p[1..] + Split(tail, sep)[0]) == p + Split(tail, sep)[0];
    } else {
      var t := Split(tail, sep);
      assert p + tail == tail;
      assert p + t[0] == t[0];
      assert [t[0]] + t[1..] == t;
    }
  }

  /**
   * The first two fields of a text are read off whatever follows them: the
   * text "A,B" followed by nothing or by further ",…" fields splits into A,
   * then B, then the rest.
   */
  lemma SplitFirstTwo(a: string, b: string, rest: string, sep: char)
    requires sep !in a && sep !in b
    requires rest == [] || rest[0] == sep
    ensures var parts := Split(a + [sep] + b + rest, sep);
      |parts| >= 2 && parts[0] == a && parts[1] == b
  {
    assert Split(rest, sep)[0] == "" by {
      if rest != [] {
        assert Split(rest, sep) == [""] + Split(rest[1..], sep);
      }
    }
    SplitSeparatorFree(b, rest, sep);
    assert b + Split(rest, sep)[0] == b;
    var tail := [sep] + (b + rest);
    assert Split(tail, sep) == [""] + Split(b + rest, sep) by {
      assert tail[1..] == b + rest;
    }
    SplitSeparatorFree(a, tail, sep);
    assert a + "" == a;
    assert a + [sep] + b + rest == a + tail;
  }

  /** Joining separator-free parts and splitting again gives the parts back. */
  lemma {:induction false} JoinSplit(parts: seq<string>, sep: char)
    requires |parts| >= 1
    requires forall i :: 0 <= i < |parts| ==> sep !in parts[i]
    ensures Split(Join(parts, sep), sep) == parts
  {
    if |parts| == 1 {
      SplitSeparatorFree(parts[0], [], sep);
      assert parts[0] + [] == parts[0];
    } else {
      var rest := Join(parts[1..], sep);
      JoinSplit(parts[1..], sep);
      SplitSeparatorFree(parts[0], [sep] + rest, sep);
      assert parts[0] + [sep] + rest == parts[0] + ([sep] + rest);
      assert ([sep] + rest)[1..] == rest;
      assert parts[0] + [] == parts[0];
    }
  }
}
