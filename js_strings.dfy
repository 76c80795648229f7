/** The few `String` and `Number` built-ins the wallet-auth code relies on:
    `includes`, `split` on one character, `trim`, `padStart` and
    `Number.prototype.toString(radix)` for non-negative integers, each with
    the inverse or the characterisation the rest of the model uses. */
module JsStrings {

  // ---------------------------------------------------------------------
  // String.prototype.includes

  /** `s.includes(sub)`: `sub` occurs in `s` at some position. */
  predicate Includes(s: string, sub: string)
  {
    exists i | 0 <= i <= |s| - |sub| :: OccursAt(s, sub, i)
  }

  predicate OccursAt(s: string, sub: string, i: nat)
  {
    i + |sub| <= |s| && s[i..i + |sub|] == sub
  }

  lemma IncludesWitness(a: string, sub: string, b: string)
    ensures Includes(a + sub + b, sub)
  {
    var s := a + sub + b;
    assert OccursAt(s, sub, |a|);
  }

  // ---------------------------------------------------------------------
  // String.prototype.split with a one-character separator, and its inverse

  /** `s.split(sep)`: the maximal separator-free pieces, in order; the
      empty string splits into one empty piece. Defined one character at a
      time: a separator opens a new piece, any other character extends the
      first piece of the rest. */
  function Split(s: string, sep: char): (parts: seq<string>)
    ensures |parts| >= 1
  {
    if s == [] then [""]
    else
      var rest := Split(s[1..], sep);
      if s[0] == sep then [""] + rest else [[s[0]] + rest[0]] + rest[1..]
  }

  /** No piece of a split holds the separator. */
  lemma {:induction false} SplitPiecesLackSeparator(s: string, sep: char)
    ensures forall k :: 0 <= k < |Split(s, sep)| ==> sep !in Split(s, sep)[k]
  {
    if s != [] {
      SplitPiecesLackSeparator(s[1..], sep);
      var rest := Split(s[1..], sep);
      var parts := Split(s, sep);
      forall k | 0 <= k < |parts| ensures sep !in parts[k] {
        if s[0] == sep {
          if k > 0 {
            assert parts[k] == rest[k - 1];
          }
        } else if k == 0 {
          assert parts[0] == [s[0]] + rest[0];
          forall j | 0 <= j < |parts[0]| ensures parts[0][j] != sep {
            if j > 0 {
              assert parts[0][j] == rest[0][j - 1];
            }
          }
        } else {
          assert parts[k] == rest[k];
        }
      }
    }
  }

  /** `parts.join(sep)`. */
  function Join(parts: seq<string>, sep: char): string
    requires |parts| >= 1
  {
    if |parts| == 1 then parts[0] else parts[0] + [sep] + Join(parts[1..], sep)
  }

  /** A character put in front of the first piece is put in front of the
      join. */
  lemma JoinConsFirst(c: char, parts: seq<string>, sep: char)
    requires |parts| >= 1
    ensures Join([[c] + parts[0]] + parts[1..], sep) == [c] + Join(parts, sep)
  {
    var q := [[c] + parts[0]] + parts[1..];
    assert q[1..] == parts[1..];
  }

  /** Joining the pieces of a split gives the original text back. */
  lemma {:induction false} JoinSplit(s: string, sep: char)
    ensures Join(Split(s, sep), sep) == s
  {
    if s != [] {
      JoinSplit(s[1..], sep);
      var rest := Split(s[1..], sep);
      if s[0] == sep {
        assert ([""] + rest)[1..] == rest;
      } else {
        JoinConsFirst(s[0], rest, sep);
      }
      assert s == [s[0]] + s[1..];
    }
  }

  /** A split cuts at the first separator. */
  lemma {:induction false} SplitAfterFirst(head: string, sep: char, tail: string)
    requires sep !in head
    ensures Split(head + [sep] + tail, sep) == [head] + Split(tail, sep)
  {
    var s := head + [sep] + tail;
    if head == [] {
      assert s[1..] == tail;
    } else {
      assert s[0] == head[0] && s[1..] == head[1..] + [sep] + tail;
      SplitAfterFirst(head[1..], sep, tail);
      assert [head[0]] + head[1..] == head;
    }
  }

  /** Splitting a join of separator-free pieces gives the pieces back. */
  lemma {:induction false} SplitJoin(parts: seq<string>, sep: char)
    requires |parts| >= 1
    requires forall k :: 0 <= k < |parts| ==> sep !in parts[k]
    ensures Split(Join(parts, sep), sep) == parts
    decreases |parts|
  {
    var head := parts[0];
    if |parts| == 1 {
      SplitOfSeparatorFree(head, sep);
    } else {
      var rest := Join(parts[1..], sep);
      assert Join(parts, sep) == head + [sep] + rest;
      assert Split(head + [sep] + rest, sep) == [head] + Split(rest, sep) by {
        SplitAfterFirst(head, sep, rest);
      }
      assert Split(rest, sep) == parts[1..] by {
        SplitJoin(parts[1..], sep);
      }
      assert parts == [head] + parts[1..];
    }
  }

  /** Text without the separator splits into itself alone. */
  lemma {:induction false} SplitOfSeparatorFree(s: string, sep: char)
    requires sep !in s
    ensures Split(s, sep) == [s]
  {
    if s != [] {
      SplitOfSeparatorFree(s[1..], sep);
      assert [s[0]] + s[1..] == s;
    }
  }

  /** Appending a piece to a join adds one separator and the piece. */
  lemma {:induction false} JoinSnoc(parts: seq<string>, last: string, sep: char)
    requires |parts| >= 1
    ensures Join(parts + [last], sep) == Join(parts, sep) + [sep] + last
    decreases |parts|
  {
    if |parts| == 1 {
      assert (parts + [last])[1..] == [last];
    } else {
      assert (parts + [last])[1..] == parts[1..] + [last];
      JoinSnoc(parts[1..], last, sep);
    }
  }

  /** Splitting separator-free pieces followed by a separator and any text
      gives those pieces, then the pieces of the text. */
  lemma {:induction false} SplitJoinThen(parts: seq<string>, sep: char, rest: string)
    requires |parts| >= 1
    requires forall k :: 0 <= k < |parts| ==> sep !in parts[k]
    ensures Split(Join(parts, sep) + [sep] + rest, sep) == parts + Split(rest, sep)
    decreases |parts|
  {
    var head := parts[0];
    if |parts| == 1 {
      SplitAfterFirst(head, sep, rest);
    } else {
      var joined := Join(parts[1..], sep);
      var tail := joined + [sep] + rest;
      assert Join(parts, sep) + [sep] + rest == head + [sep] + tail by {
        assert Join(parts, sep) == head + [sep] + joined;
      }
      assert Split(head + [sep] + tail, sep) == [head] + Split(tail, sep) by {
        SplitAfterFirst(head, sep, tail);
      }
      assert Split(tail, sep) == parts[1..] + Split(rest, sep) by {
        SplitJoinThen(parts[1..], sep, rest);
      }
      assert parts == [head] + parts[1..];
    }
  }

  /** Splitting a join of separator-free pieces gives back as many pieces,
      and the k-th of them is the k-th joined piece. */
  lemma {:induction false} SplitJoinAt(parts: seq<string>, sep: char, k: nat)
    requires |parts| >= 1 && k < |parts|
    requires forall j :: 0 <= j < |parts| ==> sep !in parts[j]
    ensures |Split(Join(parts, sep), sep)| == |parts|
    ensures Split(Join(parts, sep), sep)[k] == parts[k]
  {
    SplitJoin(parts, sep);
  }

  // ---------------------------------------------------------------------
  // String.prototype.trim

  /** ECMAScript WhiteSpace and LineTerminator code points. */
  predicate IsWhitespace(c: char)
  {
    || c == ' ' || c == '\t' || c == '\n' || c == '\r'
    || c == '\U{B}' || c == '\U{C}' || c == '\U{A0}' || c == '\U{FEFF}'
    || c == '\U{1680}' || ('\U{2000}' <= c <= '\U{200A}')
    || c == '\U{2028}' || c == '\U{2029}' || c == '\U{202F}'
    || c == '\U{205F}' || c == '\U{3000}'
  }

  predicate AllWhitespace(s: string)
  {
    forall i :: 0 <= i < |s| ==> IsWhitespace(s[i])
  }

  /** No white space at either end. */
  predicate Trimmed(s: string)
  {
    s == [] || (!IsWhitespace(s[0]) && !IsWhitespace(s[|s| - 1]))
  }

  function TrimStart(s: string): (r: string)
    ensures |r| <= |s| && r == s[|s| - |r|..]
    ensures AllWhitespace(s[..|s| - |r|])
    ensures r == [] || !IsWhitespace(r[0])
  {
    if s != [] && IsWhitespace(s[0]) then TrimStart(s[1..]) else s
  }

  function TrimEnd(s: string): (r: string)
    ensures |r| <= |s| && r == s[..|r|]
    ensures AllWhitespace(s[|r|..])
    ensures r == [] || !IsWhitespace(r[|r| - 1])
  {
    if s != [] && IsWhitespace(s[|s| - 1]) then TrimEnd(s[..|s| - 1]) else s
  }

  /** `s.trim()`: the longest middle slice of `s` with no white space at
      either end, everything cut off on both sides being white space. */
  function Trim(s: string): (r: string)
    ensures Trimmed(r)
    ensures |r| <= |s|
  {
    var t := TrimStart(s);
    var r := TrimEnd(t);
    assert r != [] ==> r[0] == t[0];
    r
  }

  /** What `trim` cuts off at either end is white space, and what it keeps
      is one contiguous slice of the input. */
  lemma TrimCutsWhitespace(s: string)
    ensures var r := Trim(s);
      exists k :: 0 <= k <= |s| - |r| && s[k..k + |r|] == r
                  && AllWhitespace(s[..k]) && AllWhitespace(s[k + |r|..])
  {
    var t := TrimStart(s);
    var r := TrimEnd(t);
    assert Trim(s) == r;
    var k := |s| - |t|;
    assert t == s[k..] && AllWhitespace(s[..k]);
    assert r == t[..|r|] && AllWhitespace(t[|r|..]);
    SliceOfSlice(s, k, |r|);
    assert 0 <= k <= |s| - |r| && s[k..k + |r|] == r
           && AllWhitespace(s[..k]) && AllWhitespace(s[k + |r|..]);
  }

  lemma SliceOfSlice(s: string, k: nat, n: nat)
    requires k + n <= |s|
    ensures s[k..][..n] == s[k..k + n] && s[k..][n..] == s[k + n..]
  {
  }

  /** `trim` only removes characters: a character absent from the input
      is absent from the result. */
  lemma TrimKeepsAbsence(s: string, c: char)
    requires c !in s
    ensures c !in Trim(s)
  {
    var t := TrimStart(s);
    var r := TrimEnd(t);
    var off := |s| - |t|;
    forall i | 0 <= i < |r| ensures r[i] != c {
      assert r[i] == t[i] && t[i] == s[off + i];
    }
  }

  /** Trimming text that has no white space at its ends changes nothing. */
  lemma TrimOfTrimmed(s: string)
    requires Trimmed(s)
    ensures Trim(s) == s
  {
    assert TrimStart(s) == s;
  }

  // ---------------------------------------------------------------------
  // Number.prototype.toString(radix) and String.prototype.padStart

  /** Lower-case digit for a value below 16, as `toString` writes it. */
  function DigitChar(d: nat): (c: char)
    requires d < 16
    ensures IsLowerHexDigit(c)
  {
    if d < 10 then ('0' as int + d) as char else ('a' as int + d - 10) as char
  }

  predicate IsLowerHexDigit(c: char)
  {
    '0' <= c <= '9' || 'a' <= c <= 'f'
  }

  /** Value of a lower-case digit; the inverse of `DigitChar`. */
  function DigitValue(c: char): (d: nat)
    requires IsLowerHexDigit(c)
    ensures d < 16 && DigitChar(d) == c
  {
    if '0' <= c <= '9' then c as int - '0' as int else c as int - 'a' as int + 10
  }

  lemma DigitValueOfChar(d: nat)
    requires d < 16
    ensures DigitValue(DigitChar(d)) == d
  {
  }

  lemma DivModRadix(n: nat, radix: nat)
    requires 2 <= radix <= n
    ensures n / radix < n && n % radix < radix && (n / radix) * radix + n % radix == n
  {
  }

  /** `n.toString(radix)` for a non-negative integer: most significant
      digit first, no leading zeros, "0" for zero. */
  function ToRadixString(n: nat, radix: nat): (r: string)
    requires 2 <= radix <= 16
    ensures |r| >= 1 && (|r| > 1 ==> r[0] != '0')
    ensures forall i :: 0 <= i < |r| ==> IsLowerHexDigit(r[i]) && DigitValue(r[i]) < radix
  {
    if n < radix then
      DigitValueOfChar(n);
      [DigitChar(n)]
    else
      DivModRadix(n, radix);
      DigitValueOfChar(n % radix);
      ToRadixString(n / radix, radix) + [DigitChar(n % radix)]
  }

  /** Value of a hex digit, zero for any other character. */
  function NibbleValue(c: char): (d: nat)
    ensures d < 16
    ensures IsLowerHexDigit(c) ==> DigitChar(d) == c
  {
    if IsLowerHexDigit(c) then DigitValue(c) else 0
  }

  /** Reads a digit string back (most significant digit first). */
  function ParseRadix(s: string, radix: nat): nat
  {
    if s == [] then 0
    else ParseRadix(s[..|s| - 1], radix) * radix + NibbleValue(s[|s| - 1])
  }

  /** `toString(radix)` loses nothing: parsing its digits gives `n` back. */
  lemma {:induction false} ParseToRadixString(n: nat, radix: nat)
    requires 2 <= radix <= 16
    ensures ParseRadix(ToRadixString(n, radix), radix) == n
    decreases n
  {
    var s := ToRadixString(n, radix);
    if n < radix {
      DigitValueOfChar(n);
    } else {
      DivModRadix(n, radix);
      DigitValueOfChar(n % radix);
      ParseToRadixString(n / radix, radix);
      assert s[..|s| - 1] == ToRadixString(n / radix, radix);
    }
  }

  lemma ToRadixStringInjective(m: nat, n: nat, radix: nat)
    requires 2 <= radix <= 16
    requires ToRadixString(m, radix) == ToRadixString(n, radix)
    ensures m == n
  {
    ParseToRadixString(m, radix);
    ParseToRadixString(n, radix);
  }

  /** `s.padStart(len, fill)` with a one-character fill. */
  function PadStart(s: string, len: nat, fill: char): (r: string)
    ensures |s| >= len ==> r == s
    ensures |s| < len ==> |r| == len
  {
    if |s| >= len then s else seq(len - |s|, _ => fill) + s
  }

  /** `padStart` only adds fill characters in front: the input is a suffix
      of the result. */
  lemma PadStartKeepsSuffix(s: string, len: nat, fill: char)
    ensures var r := PadStart(s, len, fill);
      && |r| >= |s| && r[|r| - |s|..] == s
      && forall i :: 0 <= i < |r| - |s| ==> r[i] == fill
  {
    var r := PadStart(s, len, fill);
    if |s| < len {
      assert r[|r| - |s|..] == s;
    }
  }
}
