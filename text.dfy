/** The string operations the client screens and the account services rely
    on, over Dafny strings (sequences of characters): ASCII lower-casing,
    substring search (`includes` / Python `in`), `split` and `join` on a
    separator, JavaScript `trim`, and decimal rendering and parsing of
    natural numbers (`toString` / `Number`). */
module Text {

  // ---------------------------------------------------------------- case

  /** `toLowerCase` / `lower` restricted to ASCII letters. */
  function LowerChar(c: char): char
  {
    if 'A' <= c <= 'Z' then (c as int + 32) as char else c
  }

  function Lower(s: string): (r: string)
    ensures |r| == |s|
    ensures forall i :: 0 <= i < |s| ==> r[i] == LowerChar(s[i])
  {
    seq(|s|, i requires 0 <= i < |s| => LowerChar(s[i]))
  }

  /** Lower-casing works character by character, so it distributes over
      concatenation. */
  lemma LowerConcat(a: string, s: string, b: string)
    ensures Lower(a + s + b) == Lower(a) + Lower(s) + Lower(b)
  {
    assert forall i :: 0 <= i < |a + s + b| ==> Lower(a + s + b)[i] == (Lower(a) + Lower(s) + Lower(b))[i] by {
      forall i | 0 <= i < |a + s + b|
        ensures Lower(a + s + b)[i] == (Lower(a) + Lower(s) + Lower(b))[i]
      {
        if i < |a| {
        } else if i < |a| + |s| {
          assert (a + s + b)[i] == s[i - |a|];
        } else {
          assert (a + s + b)[i] == b[i - |a| - |s|];
        }
      }
    }
  }

  /** Lower-casing twice is lower-casing once. */
  lemma LowerIdempotent(s: string)
    ensures Lower(Lower(s)) == Lower(s)
  {
  }

  // ---------------------------------------------------------------- search

  /** `needle` occurs in `hay` starting at index `i`. */
  predicate OccursAt(hay: string, needle: string, i: int)
  {
    0 <= i && i + |needle| <= |hay| && hay[i..i + |needle|] == needle
  }

  /** `hay.includes(needle)` in JavaScript, `needle in hay` in Python. */
  function Includes(hay: string, needle: string): (b: bool)
    ensures b <==> exists i :: OccursAt(hay, needle, i)
    decreases |hay|
  {
    if needle <= hay then
      assert OccursAt(hay, needle, 0);
      true
    else if hay == [] then
      false
    else
      var b := Includes(hay[1..], needle);
      assert b ==> exists i :: OccursAt(hay, needle, i) by {
        if b {
          var i :| OccursAt(hay[1..], needle, i);
          assert hay[1..][i..i + |needle|] == hay[i + 1..i + 1 + |needle|];
          assert OccursAt(hay, needle, i + 1);
        }
      }
      assert (exists i :: OccursAt(hay, needle, i)) ==> b by {
        if exists i :: OccursAt(hay, needle, i) {
          var i :| OccursAt(hay, needle, i);
          assert i != 0;
          assert hay[1..][i - 1..i - 1 + |needle|] == hay[i..i + |needle|];
          assert OccursAt(hay[1..], needle, i - 1);
        }
      }
      b
  }

  /** The empty string occurs in every string. */
  lemma IncludesEmpty(hay: string)
    ensures Includes(hay, "")
  {
  }

  /** A word that occurs in a string occurs in the string extended at both
      ends. */
  lemma IncludesExtend(a: string, hay: string, b: string, needle: string)
    requires Includes(hay, needle)
    ensures Includes(a + hay + b, needle)
  {
    var i :| OccursAt(hay, needle, i);
    assert (a + hay + b)[|a| + i..|a| + i + |needle|] == hay[i..i + |needle|];
    assert OccursAt(a + hay + b, needle, |a| + i);
  }

  // ---------------------------------------------------------------- join and split

  /** `sep.join(parts)` / `parts.join(sep)`. */
  function Join(parts: seq<string>, sep: string): string
  {
    if |parts| == 0 then ""
    else if |parts| == 1 then parts[0]
    else parts[0] + sep + Join(parts[1..], sep)
  }

  /** `s.split(c)` for a one-character separator: the pieces between the
      occurrences of `c`, never an empty list. */
  function Split(s: string, c: char): (r: seq<string>)
    ensures |r| >= 1
    ensures forall k :: 0 <= k < |r| ==> c !in r[k]
    decreases |s|
  {
    if s == [] then [""]
    else if s[0] == c then [""] + Split(s[1..], c)
    else
      var rest := Split(s[1..], c);
      [[s[0]] + rest[0]] + rest[1..]
  }

  /** Joining the pieces of a split with the separator gives back the
      original string. */
  lemma {:induction false} JoinSplit(s: string, c: char)
    ensures Join(Split(s, c), [c]) == s
  {
    if s == [] {
    } else if s[0] == c {
      var rest := Split(s[1..], c);
      JoinSplit(s[1..], c);
      assert ([""] + rest)[1..] == rest;
      assert s == [c] + s[1..];
    } else {
      var rest := Split(s[1..], c);
      JoinSplit(s[1..], c);
      var r := [[s[0]] + rest[0]] + rest[1..];
      assert r[1..] == rest[1..];
      if |rest| == 1 {
        assert s == [s[0]] + rest[0];
      } else {
        assert Join(rest, [c]) == rest[0] + [c] + Join(rest[1..], [c]);
        assert s == [s[0]] + s[1..];
      }
    }
  }

  /** A string without the separator is a single piece. */
  lemma {:induction false} SplitWithoutSeparator(a: string, c: char)
    requires c !in a
    ensures Split(a, c) == [a]
  {
    if a != [] {
      SplitWithoutSeparator(a[1..], c);
      assert a == [a[0]] + a[1..];
    }
  }

  /** The first separator ends the first piece. */
  lemma {:induction false} SplitAtFirstSeparator(a: string, c: char, b: string)
    requires c !in a
    ensures Split(a + [c] + b, c) == [a] + Split(b, c)
  {
    if a == [] {
      assert a + [c] + b == [c] + b;
      assert ([c] + b)[1..] == b;
    } else {
      assert (a + [c] + b)[1..] == a[1..] + [c] + b;
      SplitAtFirstSeparator(a[1..], c, b);
      assert a == [a[0]] + a[1..];
    }
  }

  /** The first piece of a split is a prefix of the string. */
  lemma {:induction false} SplitFirstIsPrefix(s: string, c: char)
    ensures |Split(s, c)[0]| <= |s|
    ensures s[..|Split(s, c)[0]|] == Split(s, c)[0]
  {
    if s != [] && s[0] != c {
      SplitFirstIsPrefix(s[1..], c);
    }
  }

  /** Splitting a join of separator-free pieces gives back the pieces. */
  lemma {:induction false} SplitJoin(parts: seq<string>, c: char)
    requires |parts| >= 1
    requires forall k :: 0 <= k < |parts| ==> c !in parts[k]
    ensures Split(Join(parts, [c]), c) == parts
  {
    if |parts| == 1 {
      SplitWithoutSeparator(parts[0], c);
    } else {
      SplitJoin(parts[1..], c);
      SplitAtFirstSeparator(parts[0], c, Join(parts[1..], [c]));
      assert parts == [parts[0]] + parts[1..];
    }
  }

  // ---------------------------------------------------------------- trim

  /** The characters JavaScript's `trim` removes: WhiteSpace (tab, vertical
      tab, form feed, the byte order mark and every space separator) and
      LineTerminator (line feed, carriage return, line and paragraph
      separators). */
  predicate IsJsWhitespace(c: char)
  {
    c == '\t' || c == '\n' || c == '\U{B}' || c == '\U{C}' || c == '\r' ||
    c == ' ' || c == '\U{A0}' || c == '\U{1680}' || '\U{2000}' <= c <= '\U{200A}' ||
    c == '\U{2028}' || c == '\U{2029}' || c == '\U{202F}' || c == '\U{205F}' ||
    c == '\U{3000}' || c == '\U{FEFF}'
  }

  /** `s` without its leading whitespace. */
  function TrimStart(s: string): (r: string)
    ensures |r| <= |s| && r == s[|s| - |r|..]
    ensures forall k :: 0 <= k < |s| - |r| ==> IsJsWhitespace(s[k])
    ensures r != [] ==> !IsJsWhitespace(r[0])
  {
    if s != [] && IsJsWhitespace(s[0]) then TrimStart(s[1..]) else s
  }

  /** `s` without its trailing whitespace. */
  function TrimEnd(s: string): (r: string)
    ensures |r| <= |s| && r == s[..|r|]
    ensures forall k :: |r| <= k < |s| ==> IsJsWhitespace(s[k])
    ensures r != [] ==> !IsJsWhitespace(r[|r| - 1])
  {
    if s != [] && IsJsWhitespace(s[|s| - 1]) then TrimEnd(s[..|s| - 1]) else s
  }

  /** `r` is the part of `s` that starts at index `i`. */
  predicate SliceAt(s: string, r: string, i: int)
  {
    0 <= i <= |s| - |r| && r == s[i..i + |r|]
  }

  /** `s.trim()`: the middle of `s` between leading and trailing whitespace. */
  function Trim(s: string): (r: string)
    ensures exists i :: SliceAt(s, r, i)
    ensures exists i :: SliceAt(s, r, i) &&
              (forall k :: 0 <= k < i ==> IsJsWhitespace(s[k])) &&
              (forall k :: i + |r| <= k < |s| ==> IsJsWhitespace(s[k]))
    ensures r != [] ==> !IsJsWhitespace(r[0]) && !IsJsWhitespace(r[|r| - 1])
  {
    var t := TrimStart(s);
    var r := TrimEnd(t);
    assert SliceAt(s, r, |s| - |t|);
    r
  }

  // ---------------------------------------------------------------- decimals

  predicate IsDigit(c: char)
  {
    '0' <= c <= '9'
  }

  function DigitChar(d: nat): (c: char)
    requires d < 10
    ensures IsDigit(c)
  {
    ('0' as int + d) as char
  }

  function DigitValue(c: char): nat
  {
    if IsDigit(c) then c as int - '0' as int else 0
  }

  /** `n.toString()` for a natural number: its decimal digits, without
      leading zeros. */
  function NatToString(n: nat): (s: string)
    ensures |s| >= 1
    ensures forall i :: 0 <= i < |s| ==> IsDigit(s[i])
    ensures |s| > 1 ==> s[0] != '0'
  {
    if n < 10 then [DigitChar(n)] else NatToString(n / 10) + [DigitChar(n % 10)]
  }

  /** `Number(s)` for a string of decimal digits (the empty string is 0). */
  function DecimalValue(s: string): nat
  {
    if s == [] then 0 else DecimalValue(s[..|s| - 1]) * 10 + DigitValue(s[|s| - 1])
  }

  /** Parsing a rendered number gives the number back, so the rendering is
      injective. */
  lemma {:induction false} DecimalRoundTrip(n: nat)
    ensures DecimalValue(NatToString(n)) == n
  {
    if n >= 10 {
      DecimalRoundTrip(n / 10);
      var s := NatToString(n);
      assert s[..|s| - 1] == NatToString(n / 10);
    }
  }
}
