/** The string primitives the request handlers rely on, with the meaning
    JavaScript gives them: `String.prototype.trim`, `split` on a single
    character, the decimal form of an integer, and the case-insensitive
    substring test that stands in for the `$regex` name filter. */
module Text {

  /** The characters `trim` removes: ECMAScript WhiteSpace and LineTerminator. */
  predicate IsSpace(c: char)
  {
    c in {'\t', '\n', '\U{000B}', '\U{000C}', '\r', ' ', '\U{00A0}', '\U{1680}',
          '\U{2000}', '\U{2001}', '\U{2002}', '\U{2003}', '\U{2004}', '\U{2005}',
          '\U{2006}', '\U{2007}', '\U{2008}', '\U{2009}', '\U{200A}',
          '\U{2028}', '\U{2029}', '\U{202F}', '\U{205F}', '\U{3000}', '\U{FEFF}'}
  }

  predicate AllSpace(s: string)
  {
    forall i :: 0 <= i < |s| ==> IsSpace(s[i])
  }

  /** `s` without its leading white space: a suffix of `s`, everything
      dropped is white space and what remains does not start with any. */
  function TrimStart(s: string): (r: string)
    ensures |r| <= |s| && r == s[|s| - |r|..]
    ensures AllSpace(s[..|s| - |r|])
    ensures r == [] || !IsSpace(r[0])
    decreases |s|
  {
    if s != [] && IsSpace(s[0]) then
      var r := TrimStart(s[1..]);
      assert s[..|s| - |r|] == [s[0]] + s[1..][..|s| - 1 - |r|];
      r
    else s
  }

  /** `s` without its trailing white space: a prefix of `s`, everything
      dropped is white space and what remains does not end with any. */
  function TrimEnd(s: string): (r: string)
    ensures |r| <= |s| && r == s[..|r|]
    ensures AllSpace(s[|r|..])
    ensures r == [] || !IsSpace(r[|r| - 1])
    decreases |s|
  {
    if s != [] && IsSpace(s[|s| - 1]) then
      var r := TrimEnd(s[..|s| - 1]);
      assert s[|r|..] == s[..|s| - 1][|r|..] + [s[|s| - 1]];
      r
    else s
  }

  /** `r` occurs in `s` starting at index `i`. */
  predicate OccursAt(r: string, s: string, i: int)
  {
    0 <= i <= |s| - |r| && s[i..i + |r|] == r
  }

  /** `r` is the slice of `s` from `i`, and everything before and after
      that slice is white space. */
  predicate StrippedAt(r: string, s: string, i: int)
  {
    OccursAt(r, s, i) && AllSpace(s[..i]) && AllSpace(s[i + |r|..])
  }

  /** JavaScript's `s.trim()`. */
  function Trim(s: string): (r: string)
    ensures r == [] || (!IsSpace(r[0]) && !IsSpace(r[|r| - 1]))
    ensures r == [] <==> AllSpace(s)
    // A slice of `s`, and what was dropped on either side is white space.
    ensures exists i :: StrippedAt(r, s, i)
  {
    var front := TrimStart(s);
    var r := TrimEnd(front);
    TrimBothEnds(s, front, r);
    r
  }

  /** Dropping leading white space to get `front`, then trailing white
      space to get `r`, strips `s` on both sides. */
  lemma TrimBothEnds(s: string, front: string, r: string)
    requires |front| <= |s| && front == s[|s| - |front|..] && AllSpace(s[..|s| - |front|])
    requires front == [] || !IsSpace(front[0])
    requires |r| <= |front| && r == front[..|r|] && AllSpace(front[|r|..])
    requires r == [] || !IsSpace(r[|r| - 1])
    ensures r == [] || (!IsSpace(r[0]) && !IsSpace(r[|r| - 1]))
    ensures r == [] <==> AllSpace(s)
    ensures StrippedAt(r, s, |s| - |front|)
  {
    var k := |s| - |front|;
    assert front == s[k..];
    assert s[k..k + |r|] == s[k..][..|r|];
    assert s[k + |r|..] == front[|r|..];
    if r == [] {
      // All of `front` is trailing white space, yet it cannot start with
      // any, so it is empty and everything dropped in front is `s`.
      assert front[|r|..] == front;
      assert front == [];
      assert s[..k] == s;
    } else {
      assert s[k] == front[0] == r[0];
    }
  }

  /** A string with no white space at either end is its own trim. */
  lemma TrimUnspaced(s: string)
    requires s == [] || (!IsSpace(s[0]) && !IsSpace(s[|s| - 1]))
    ensures Trim(s) == s
  {
  }

  /** Trimming twice is trimming once. */
  lemma TrimIdempotent(s: string)
    ensures Trim(Trim(s)) == Trim(s)
  {
    TrimUnspaced(Trim(s));
  }

  /** JavaScript's `s.split(sep)` for a one-character separator: the pieces
      between separators, always at least one. */
  function Split(s: string, sep: char): (r: seq<string>)
    ensures |r| >= 1
    ensures forall i :: 0 <= i < |r| ==> sep !in r[i]
    decreases |s|
  {
    if s == [] then [""]
    else
      var rest := Split(s[1..], sep);
      if s[0] == sep then [""] + rest else [[s[0]] + rest[0]] + rest[1..]
  }

  /** The pieces put back together with the separator between them. */
  function Join(parts: seq<string>, sep: char): string
    decreases |parts|
  {
    if parts == [] then ""
    else if |parts| == 1 then parts[0]
    else parts[0] + [sep] + Join(parts[1..], sep)
  }

  /** Splitting loses nothing: joining the pieces gives the input back. */
  lemma {:induction false} JoinSplit(s: string, sep: char)
    ensures Join(Split(s, sep), sep) == s
    decreases |s|
  {
    if s != [] {
      var rest := Split(s[1..], sep);
      JoinSplit(s[1..], sep);
      if s[0] != sep {
        assert Split(s, sep) == [[s[0]] + rest[0]] + rest[1..];
        JoinCons(s[0], rest, sep);
      } else {
        assert Split(s, sep) == [""] + rest;
        assert ([""] + rest)[1..] == rest;
      }
      assert s == [s[0]] + s[1..];
    }
  }

  /** Putting a character in front of the first piece puts it in front of
      the join. */
  lemma JoinCons(c: char, parts: seq<string>, sep: char)
    requires |parts| >= 1
    ensures Join([[c] + parts[0]] + parts[1..], sep) == [c] + Join(parts, sep)
  {
    var longer := [[c] + parts[0]] + parts[1..];
    assert longer[0] == [c] + parts[0] && longer[1..] == parts[1..];
  }

  /** Splitting a join of separator-free pieces gives the pieces back. */
  lemma {:induction false} SplitJoin(parts: seq<string>, sep: char)
    requires |parts| >= 1
    requires forall i :: 0 <= i < |parts| ==> sep !in parts[i]
    ensures Split(Join(parts, sep), sep) == parts
    decreases |parts|, |parts[0]|
  {
    var p := parts[0];
    if p == [] {
      if |parts| > 1 {
        SplitJoin(parts[1..], sep);
        assert Join(parts, sep) == [sep] + Join(parts[1..], sep);
        assert Join(parts, sep)[1..] == Join(parts[1..], sep);
      }
    } else {
      var shorter := [p[1..]] + parts[1..];
      assert sep !in p[1..] by { assert forall c :: c in p[1..] ==> c in p; }
      SplitJoin(shorter, sep);
      assert shorter[1..] == parts[1..];
      var j := Join(parts, sep);
      assert j == [p[0]] + Join(shorter, sep) by {
        if |parts| > 1 {
          assert Join(shorter, sep) == p[1..] + [sep] + Join(parts[1..], sep);
          assert p == [p[0]] + p[1..];
        } else {
          assert p == [p[0]] + p[1..];
        }
      }
      assert j[1..] == Join(shorter, sep);
      assert p[0] == j[0] && p[0] != sep;
      assert [p[0]] + p[1..] == p;
      assert [p] + parts[1..] == parts;
    }
  }

  /** ASCII upper case to lower case; every other character unchanged. */
  function LowerChar(c: char): char
  {
    if 'A' <= c <= 'Z' then (c as int - 'A' as int + 'a' as int) as char else c
  }

  function Lower(s: string): (r: string)
    ensures |r| == |s|
    ensures forall i :: 0 <= i < |s| ==> r[i] == LowerChar(s[i])
  {
    seq(|s|, i requires 0 <= i < |s| => LowerChar(s[i]))
  }

  /** Lowering twice is lowering once. */
  lemma LowerIdempotent(s: string)
    ensures Lower(Lower(s)) == Lower(s)
  {
    assert forall i :: 0 <= i < |s| ==> LowerChar(LowerChar(s[i])) == LowerChar(s[i]);
  }

  /** `q` occurs somewhere inside `t`. */
  predicate IsSubstring(q: string, t: string)
  {
    exists i | 0 <= i <= |t| - |q| :: OccursAt(q, t, i)
  }

  /** Every character of `q` equals, up to ASCII case, the character of
      `name` at the same offset from `i`. */
  predicate FoldedAt(q: string, name: string, i: int)
  {
    0 <= i <= |name| - |q| && forall k :: 0 <= k < |q| ==> LowerChar(q[k]) == LowerChar(name[i + k])
  }

  /** The name filter `{ $regex: q, $options: 'i' }`, taken as a
      case-insensitive substring test. */
  function NameMatches(q: string, name: string): (b: bool)
    ensures b <==> exists i :: FoldedAt(q, name, i)
  {
    OccursFolded(q, name);
    IsSubstring(Lower(q), Lower(name))
  }

  /** Occurring in the lowered name is matching character by character up
      to case. */
  lemma OccursFolded(q: string, name: string)
    ensures forall i :: OccursAt(Lower(q), Lower(name), i) <==> FoldedAt(q, name, i)
  {
    forall i | 0 <= i <= |name| - |q|
      ensures OccursAt(Lower(q), Lower(name), i) <==> FoldedAt(q, name, i)
    {
      var w := Lower(name)[i..i + |q|];
      assert forall k :: 0 <= k < |q| ==> w[k] == LowerChar(name[i + k]);
      if FoldedAt(q, name, i) {
        assert w == Lower(q);
      }
      if OccursAt(Lower(q), Lower(name), i) {
        assert forall k :: 0 <= k < |q| ==> w[k] == Lower(q)[k];
      }
    }
  }

  /** The name filter ignores case on both sides, and every name matches
      itself. */
  lemma NameMatchIgnoresCase(q: string, name: string)
    ensures NameMatches(q, name) <==> NameMatches(Lower(q), Lower(name))
    ensures NameMatches(name, name)
  {
    LowerIdempotent(q);
    LowerIdempotent(name);
    assert OccursAt(Lower(name), Lower(name), 0);
  }

  function DigitChar(d: nat): (c: char)
    requires d < 10
    ensures '0' <= c <= '9'
  {
    ('0' as int + d) as char
  }

  /** The value of a decimal digit character. */
  function DigitOf(c: char): nat
  {
    if '0' <= c <= '9' then c as int - '0' as int else 0
  }

  /** The number a string of decimal digits denotes, most significant first. */
  function DigitsValue(r: string): nat
    decreases |r|
  {
    if r == [] then 0 else DigitsValue(r[..|r| - 1]) * 10 + DigitOf(r[|r| - 1])
  }

  /** The decimal digits of `n`, most significant first, no leading zero. */
  function Digits(n: nat): (r: string)
    ensures r != []
    ensures forall i :: 0 <= i < |r| ==> '0' <= r[i] <= '9'
    ensures |r| > 1 || n > 0 ==> r[0] != '0'
    ensures DigitsValue(r) == n
    decreases n
  {
    if n < 10 then
      assert DigitsValue([DigitChar(n)]) == DigitsValue([]) * 10 + n;
      [DigitChar(n)]
    else
      var r := Digits(n / 10) + [DigitChar(n % 10)];
      assert r[..|r| - 1] == Digits(n / 10);
      r
  }

  /** `String(n)` for an integer `n`: an optional minus sign, then the
      digits that denote `|n|`. */
  function Decimal(n: int): (r: string)
    ensures r != [] && !IsSpace(r[0]) && !IsSpace(r[|r| - 1])
    ensures n >= 0 ==> DigitsValue(r) == n && forall i :: 0 <= i < |r| ==> '0' <= r[i] <= '9'
    ensures n < 0 ==> |r| > 1 && r[0] == '-' && DigitsValue(r[1..]) == -n
    ensures n < 0 ==> forall i :: 1 <= i < |r| ==> '0' <= r[i] <= '9'
    // Canonical: no leading zero, and zero is the single digit `0`.
    ensures n >= 0 && |r| > 1 ==> r[0] != '0'
    ensures n < 0 ==> r[1] != '0'
  {
    if n < 0 then
      var d := Digits(-n);
      DigitNotSpace(d[|d| - 1]);
      var r := "-" + d;
      assert r[1..] == d && r[|r| - 1] == d[|d| - 1];
      r
    else
      var d := Digits(n);
      DigitNotSpace(d[0]);
      DigitNotSpace(d[|d| - 1]);
      d
  }

  lemma DigitNotSpace(c: char)
    requires '0' <= c <= '9'
    ensures !IsSpace(c)
  {
  }
}
