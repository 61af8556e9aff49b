// The JavaScript string operations the core relies on: the `\s` class and
// String.prototype.trim, the global replace of `\s+` runs, ASCII case
// folding for a case-insensitive prefix match, substring search for an
// unanchored regular expression, UTF-16 length, and Number-to-string for
// the millisecond timestamps used in stored file names.
module JsText {
  import opened Common

  /** ECMAScript WhiteSpace and LineTerminator code points: the `\s` class
      of a regular expression, and exactly what String.prototype.trim strips. */
  predicate IsSpace(c: char) {
    var n := c as int;
    n == 0x09 || n == 0x0A || n == 0x0B || n == 0x0C || n == 0x0D || n == 0x20
    || n == 0xA0 || n == 0x1680 || (0x2000 <= n <= 0x200A)
    || n == 0x2028 || n == 0x2029 || n == 0x202F || n == 0x205F
    || n == 0x3000 || n == 0xFEFF
  }

  predicate NoSpaces(s: string) {
    forall i :: 0 <= i < |s| ==> !IsSpace(s[i])
  }

  /** `s` with its leading whitespace removed. */
  function TrimStart(s: string): (r: string)
    ensures |r| <= |s|
    ensures s != [] && IsSpace(s[0]) ==> |r| < |s|
    ensures r != [] ==> !IsSpace(r[0])
  {
    if s != [] && IsSpace(s[0]) then TrimStart(s[1..]) else s
  }

  /** What TrimStart keeps is a suffix of `s`, and all it cuts is whitespace. */
  lemma {:induction false} TrimStartShape(s: string)
    ensures var r := TrimStart(s);
      && r == s[|s| - |r|..]
      && forall i :: 0 <= i < |s| - |r| ==> IsSpace(s[i])
  {
    if s != [] && IsSpace(s[0]) {
      TrimStartShape(s[1..]);
    }
  }

  /** `s` with its trailing whitespace removed. */
  function TrimEnd(s: string): (r: string)
    ensures |r| <= |s|
    ensures r != [] ==> r[0] == s[0] && !IsSpace(r[|r| - 1])
  {
    if s != [] && IsSpace(s[|s| - 1]) then TrimEnd(s[..|s| - 1]) else s
  }

  /** What TrimEnd keeps is a prefix of `s`, and all it cuts is whitespace. */
  lemma {:induction false} TrimEndShape(s: string)
    ensures var r := TrimEnd(s);
      && r == s[..|r|]
      && forall i :: |r| <= i < |s| ==> IsSpace(s[i])
  {
    if s != [] && IsSpace(s[|s| - 1]) {
      TrimEndShape(s[..|s| - 1]);
    }
  }

  /** String.prototype.trim: no whitespace left at either end. */
  function Trim(s: string): (r: string)
    ensures |r| <= |s|
    ensures r != [] ==> !IsSpace(r[0]) && !IsSpace(r[|r| - 1])
  {
    TrimEnd(TrimStart(s))
  }

  /** Trim keeps a middle slice of `s` and cuts off only whitespace. */
  lemma TrimShape(s: string)
    ensures var a := |s| - |TrimStart(s)|; var r := Trim(s);
      && a + |r| <= |s|
      && r == s[a..a + |r|]
      && (forall i :: 0 <= i < a ==> IsSpace(s[i]))
      && (forall i :: a + |r| <= i < |s| ==> IsSpace(s[i]))
  {
    var t := TrimStart(s);
    TrimStartShape(s);
    TrimEndShape(t);
    var a := |s| - |t|;
    forall i | a + |Trim(s)| <= i < |s| ensures IsSpace(s[i]) {
      assert s[i] == t[i - a];
    }
  }

  /** Trimming twice trims nothing more. */
  lemma TrimIdempotent(s: string)
    ensures Trim(Trim(s)) == Trim(s)
  {
    var t := Trim(s);
    if t != [] {
      assert TrimStart(t) == t;
      assert TrimEnd(t) == t;
    }
  }

  /** A string with no whitespace at either end is its own trim. */
  lemma TrimOfTrimmed(s: string)
    requires s != [] ==> !IsSpace(s[0]) && !IsSpace(s[|s| - 1])
    ensures Trim(s) == s
  {
  }

  /** `s.replace(/\s+/g, '_')`: every maximal run of whitespace becomes one '_'. */
  function SquashSpaces(s: string): (r: string)
    ensures NoSpaces(r)
    ensures |r| <= |s|
    decreases |s|
  {
    if s == [] then []
    else if IsSpace(s[0]) then
      var rest := TrimStart(s);
      assert |rest| < |s|;
      "_" + SquashSpaces(rest)
    else [s[0]] + SquashSpaces(s[1..])
  }

  /** A string without whitespace is left as it is. */
  lemma {:induction false} SquashSpacesIdentity(s: string)
    requires NoSpaces(s)
    ensures SquashSpaces(s) == s
  {
    if s != [] {
      SquashSpacesIdentity(s[1..]);
      assert [s[0]] + s[1..] == s;
    }
  }

  lemma {:induction false} TrimStartOfRun(w: string, t: string)
    requires forall i :: 0 <= i < |w| ==> IsSpace(w[i])
    requires t != [] ==> !IsSpace(t[0])
    ensures TrimStart(w + t) == t
  {
    if w != [] {
      assert (w + t)[1..] == w[1..] + t;
      TrimStartOfRun(w[1..], t);
    }
  }

  lemma {:induction false} TrimEndOfRun(t: string, w: string)
    requires forall i :: 0 <= i < |w| ==> IsSpace(w[i])
    requires t != [] ==> !IsSpace(t[|t| - 1])
    ensures TrimEnd(t + w) == t
  {
    if w != [] {
      assert (t + w)[..|t + w| - 1] == t + w[..|w| - 1];
      TrimEndOfRun(t, w[..|w| - 1]);
    } else {
      assert t + w == t;
    }
  }

  /** A whole run of whitespace, however long, turns into exactly one '_'. */
  lemma SquashSpacesRun(w: string, t: string)
    requires w != [] && forall i :: 0 <= i < |w| ==> IsSpace(w[i])
    requires t != [] ==> !IsSpace(t[0])
    ensures SquashSpaces(w + t) == "_" + SquashSpaces(t)
  {
    TrimStartOfRun(w, t);
  }

  /** The characters that are neither whitespace nor '_'. */
  function Solid(s: string): string {
    Filter(s, (c: char) => !IsSpace(c) && c != '_')
  }

  lemma {:induction false} SolidOfTrimStart(s: string)
    ensures Solid(TrimStart(s)) == Solid(s)
  {
    if s != [] && IsSpace(s[0]) {
      SolidOfTrimStart(s[1..]);
    }
  }

  /** Squashing keeps every character that is neither whitespace nor '_',
      in the same order: only the whitespace runs are rewritten. */
  lemma {:induction false} SquashSpacesKeepsSolid(s: string)
    ensures Solid(SquashSpaces(s)) == Solid(s)
    decreases |s|
  {
    if s != [] {
      if IsSpace(s[0]) {
        var rest := TrimStart(s);
        SquashSpacesKeepsSolid(rest);
        SolidOfTrimStart(s);
        assert ("_" + SquashSpaces(rest))[1..] == SquashSpaces(rest);
      } else {
        SquashSpacesKeepsSolid(s[1..]);
        assert ([s[0]] + SquashSpaces(s[1..]))[1..] == SquashSpaces(s[1..]);
      }
    }
  }

  /** The ASCII letters fold to lower case; everything else is unchanged. */
  function LowerAscii(c: char): char {
    if 'A' <= c <= 'Z' then (c as int + 32) as char else c
  }

  function Lower(s: string): (r: string)
    ensures |r| == |s|
  {
    seq(|s|, i requires 0 <= i < |s| => LowerAscii(s[i]))
  }

  /** The regular expression `new RegExp('^' + q, 'i')` on a query free of
      metacharacters: `s` begins with `q`, letters compared without case. */
  predicate StartsWithIgnoreCase(s: string, q: string) {
    |q| <= |s| && Lower(s[..|q|]) == Lower(q)
  }

  lemma StartsWithIgnoreCaseEmpty(s: string)
    ensures StartsWithIgnoreCase(s, "")
  {
  }

  /** Changing the case of the query's letters does not change the match. */
  lemma StartsWithIgnoreCaseFolds(s: string, q: string)
    ensures StartsWithIgnoreCase(s, q) <==> StartsWithIgnoreCase(s, Lower(q))
  {
    var lq := Lower(q);
    assert Lower(lq) == Lower(q) by {
      forall i | 0 <= i < |q| ensures Lower(lq)[i] == Lower(q)[i] {
      }
    }
  }

  predicate IsPrefix(p: string, s: string) {
    |p| <= |s| && s[..|p|] == p
  }

  /** An unanchored regular expression test for the literal `sub`:
      `sub` occurs somewhere in `s`. */
  predicate Contains(s: string, sub: string) {
    IsPrefix(sub, s) || (s != [] && Contains(s[1..], sub))
  }

  predicate OccursAt(s: string, sub: string, i: int) {
    0 <= i && i + |sub| <= |s| && s[i..i + |sub|] == sub
  }

  /** The recursive search agrees with "there is a position where `sub` occurs". */
  lemma {:induction false} ContainsIffOccurs(s: string, sub: string)
    ensures Contains(s, sub) <==> exists i :: OccursAt(s, sub, i)
  {
    if IsPrefix(sub, s) {
      assert OccursAt(s, sub, 0);
    } else if s != [] {
      ContainsIffOccurs(s[1..], sub);
      if Contains(s[1..], sub) {
        var i :| OccursAt(s[1..], sub, i);
        assert s[1..][i..i + |sub|] == s[i + 1..i + 1 + |sub|];
        assert OccursAt(s, sub, i + 1);
      } else {
        forall i | OccursAt(s, sub, i) && i > 0 ensures OccursAt(s[1..], sub, i - 1) {
          assert s[1..][i - 1..i - 1 + |sub|] == s[i..i + |sub|];
        }
      }
    }
  }

  /** A string occurs inside any string that has it as a part. */
  lemma ContainsPart(a: string, sub: string, b: string)
    ensures Contains(a + sub + b, sub)
  {
    var s := a + sub + b;
    assert s[|a|..|a| + |sub|] == sub;
    assert OccursAt(s, sub, |a|);
    ContainsIffOccurs(s, sub);
  }

  /** Length as JavaScript's `.length` counts it: UTF-16 code units, two for
      a code point above U+FFFF. */
  function Utf16Length(s: string): (n: nat)
    ensures |s| <= n <= 2 * |s|
  {
    if s == [] then 0
    else (if s[0] as int > 0xFFFF then 2 else 1) + Utf16Length(s[1..])
  }

  predicate IsDigit(c: char) {
    '0' <= c <= '9'
  }

  function DigitChar(d: nat): (c: char)
    requires d < 10
    ensures IsDigit(c)
  {
    (('0' as int) + d) as char
  }

  function DigitValue(c: char): nat
    requires IsDigit(c)
  {
    (c as int) - ('0' as int)
  }

  /** Number-to-string of a non-negative integer: its decimal digits with
      no leading zero. */
  function Decimal(n: nat): (r: string)
    ensures r != [] && forall i :: 0 <= i < |r| ==> IsDigit(r[i])
    ensures |r| > 1 ==> r[0] != '0'
  {
    if n < 10 then [DigitChar(n)] else Decimal(n / 10) + [DigitChar(n % 10)]
  }

  function ParseDecimal(s: string): nat
    requires forall i :: 0 <= i < |s| ==> IsDigit(s[i])
  {
    if s == [] then 0 else ParseDecimal(s[..|s| - 1]) * 10 + DigitValue(s[|s| - 1])
  }

  /** Reading back the digits of a number gives the number. */
  lemma {:induction false} DecimalRoundTrip(n: nat)
    ensures ParseDecimal(Decimal(n)) == n
  {
    if n >= 10 {
      DecimalRoundTrip(n / 10);
      var r := Decimal(n);
      assert r[..|r| - 1] == Decimal(n / 10);
    }
  }
}
