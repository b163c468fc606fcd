/**
 * The string primitives the scripts (Python) and the page (JavaScript) rely on:
 * `str.replace`, `str.split`, `str.strip`, `int()`, `String.prototype.trim`,
 * `Number.parseInt`, `Number.prototype.toString` and `padStart`, written out
 * over `seq<char>`. Numbers are integers; JavaScript's NaN is `JsNum.NaN`.
 */
module Text {
  import opened Wrappers

  // ---------------------------------------------------------------- substrings

  predicate StartsWith(s: string, p: string) {
    |p| <= |s| && s[..|p|] == p
  }

  /** `p in s` */
  predicate Contains(s: string, p: string)
    decreases |s|
  {
    StartsWith(s, p) || (|s| > 0 && Contains(s[1..], p))
  }

  /** Python `s.replace(pat, rep)`: every occurrence, left to right, never overlapping. */
  function Replace(s: string, pat: string, rep: string): string
    requires |pat| > 0
    decreases |s|
  {
    if |s| < |pat| then s
    else if s[..|pat|] == pat then rep + Replace(s[|pat|..], pat, rep)
    else [s[0]] + Replace(s[1..], pat, rep)
  }

  /** Replacing a pattern that does not occur changes nothing. */
  lemma {:induction false} ReplaceAbsent(s: string, pat: string, rep: string)
    requires |pat| > 0 && !Contains(s, pat)
    ensures Replace(s, pat, rep) == s
    decreases |s|
  {
    if |s| >= |pat| {
      assert s[..|pat|] != pat;
      ReplaceAbsent(s[1..], pat, rep);
      assert [s[0]] + s[1..] == s;
    }
  }

  /** JavaScript `s.replace(pat, rep)` with a string pattern: the first occurrence only. */
  function ReplaceFirst(s: string, pat: string, rep: string): string
    requires |pat| > 0
    decreases |s|
  {
    if |s| < |pat| then s
    else if s[..|pat|] == pat then rep + s[|pat|..]
    else [s[0]] + ReplaceFirst(s[1..], pat, rep)
  }

  lemma {:induction false} ReplaceFirstAbsent(s: string, pat: string, rep: string)
    requires |pat| > 0 && !Contains(s, pat)
    ensures ReplaceFirst(s, pat, rep) == s
    decreases |s|
  {
    if |s| >= |pat| {
      assert s[..|pat|] != pat;
      ReplaceFirstAbsent(s[1..], pat, rep);
      assert [s[0]] + s[1..] == s;
    }
  }

  /** `s.replace(p0, r0).replace(p1, r1)...`: the replacements one after the other, in order. */
  function ReplaceChain(s: string, pairs: seq<(string, string)>): string
    requires forall i :: 0 <= i < |pairs| ==> |pairs[i].0| > 0
    decreases |pairs|
  {
    if |pairs| == 0 then s else ReplaceChain(Replace(s, pairs[0].0, pairs[0].1), pairs[1..])
  }

  /** A chain of replacements none of whose patterns occurs changes nothing. */
  lemma {:induction false} ReplaceChainAbsent(s: string, pairs: seq<(string, string)>)
    requires forall i :: 0 <= i < |pairs| ==> |pairs[i].0| > 0 && !Contains(s, pairs[i].0)
    ensures ReplaceChain(s, pairs) == s
    decreases |pairs|
  {
    if |pairs| > 0 {
      ReplaceAbsent(s, pairs[0].0, pairs[0].1);
      ReplaceChainAbsent(s, pairs[1..]);
    }
  }

  /** Replacing a pattern by a text no longer than it never lengthens the string. */
  lemma {:induction false} ReplaceShorter(s: string, pat: string, rep: string)
    requires |pat| > 0 && |rep| <= |pat|
    ensures |Replace(s, pat, rep)| <= |s|
    decreases |s|
  {
    if |s| < |pat| {
    } else if s[..|pat|] == pat {
      ReplaceShorter(s[|pat|..], pat, rep);
    } else {
      ReplaceShorter(s[1..], pat, rep);
    }
  }

  /** A chain whose every replacement is no longer than its pattern never lengthens the string. */
  lemma {:induction false} ReplaceChainShorter(s: string, pairs: seq<(string, string)>)
    requires forall i :: 0 <= i < |pairs| ==> |pairs[i].0| > 0 && |pairs[i].1| <= |pairs[i].0|
    ensures |ReplaceChain(s, pairs)| <= |s|
    decreases |pairs|
  {
    if |pairs| > 0 {
      ReplaceShorter(s, pairs[0].0, pairs[0].1);
      ReplaceChainShorter(Replace(s, pairs[0].0, pairs[0].1), pairs[1..]);
    }
  }

  /** A text holds every character of every pattern it contains. */
  lemma {:induction false} ContainsChars(s: string, p: string, c: char)
    ensures Contains(s, p) && c in p ==> c in s
    decreases |s|
  {
    if Contains(s, p) && c in p {
      if StartsWith(s, p) {
        var i :| 0 <= i < |p| && p[i] == c;
        assert s[i] == c;
      } else {
        ContainsChars(s[1..], p, c);
        assert c in s[1..];
      }
    }
  }

  /** A pattern with a character the text lacks does not occur in it. */
  lemma Lacks(s: string, p: string, c: char)
    requires c in p && c !in s
    ensures !Contains(s, p)
  {
    ContainsChars(s, p, c);
  }

  lemma {:induction false} ContainsChar(s: string, c: char)
    ensures Contains(s, [c]) <==> c in s
    decreases |s|
  {
    if |s| > 0 {
      ContainsChar(s[1..], c);
      assert s == [s[0]] + s[1..];
    }
  }

  // ---------------------------------------------------------------- split and join

  /** Python `s.split(sep)` and JavaScript `s.split(sep)` for a one-character separator. */
  function Split(s: string, sep: char): (parts: seq<string>)
    ensures |parts| >= 1
    ensures forall i :: 0 <= i < |parts| ==> sep !in parts[i]
    decreases |s|
  {
    if |s| == 0 then [""]
    else
      var rest := Split(s[1..], sep);
      if s[0] == sep then [""] + rest
      else [[s[0]] + rest[0]] + rest[1..]
  }

  function Occurrences(s: string, c: char): nat
    decreases |s|
  {
    if |s| == 0 then 0 else (if s[0] == c then 1 else 0) + Occurrences(s[1..], c)
  }

  /** JavaScript `parts.join(sep)`. */
  function Join(parts: seq<string>, sep: char): string
    decreases |parts|
  {
    if |parts| == 0 then ""
    else if |parts| == 1 then parts[0]
    else parts[0] + [sep] + Join(parts[1..], sep)
  }

  /** There is one more piece than there are separators. */
  lemma {:induction false} SplitCount(s: string, sep: char)
    ensures |Split(s, sep)| == Occurrences(s, sep) + 1
    decreases |s|
  {
    if |s| > 0 {
      SplitCount(s[1..], sep);
    }
  }

  /** Joining the pieces with the separator gives back the text. */
  lemma {:induction false} SplitJoin(s: string, sep: char)
    ensures Join(Split(s, sep), sep) == s
    decreases |s|
  {
    if |s| > 0 {
      var rest := Split(s[1..], sep);
      SplitJoin(s[1..], sep);
      if s[0] == sep {
        assert Split(s, sep) == [""] + rest;
        assert ([""] + rest)[1..] == rest;
        assert s == [sep] + s[1..];
      } else {
        var parts := [[s[0]] + rest[0]] + rest[1..];
        assert Split(s, sep) == parts;
        if |rest| == 1 {
          assert Join(parts, sep) == [s[0]] + rest[0];
        } else {
          assert parts[1..] == rest[1..];
          assert Join(rest, sep) == rest[0] + [sep] + Join(rest[1..], sep);
        }
        assert s == [s[0]] + s[1..];
      }
    }
  }

  /** Splitting a joined list whose pieces hold no separator gives back the pieces. */
  lemma {:induction false} JoinSplit(parts: seq<string>, sep: char)
    requires |parts| >= 1
    requires forall i :: 0 <= i < |parts| ==> sep !in parts[i]
    ensures Split(Join(parts, sep), sep) == parts
    decreases |parts|, |parts[0]|
  {
    var p := parts[0];
    if |p| > 0 {
      // Peel the first character off the first piece.
      var shorter := [p[1..]] + parts[1..];
      assert sep !in p[1..] by {
        assert forall c :: c in p[1..] ==> c in p;
      }
      assert forall i :: 0 <= i < |shorter| ==> sep !in shorter[i] by {
        forall i | 0 <= i < |shorter| ensures sep !in shorter[i] {
          if i > 0 {
            assert shorter[i] == parts[i];
          }
        }
      }
      JoinSplit(shorter, sep);
      var j := Join(parts, sep);
      assert shorter[1..] == parts[1..];
      if |parts| == 1 {
        assert j == p;
        assert Join(shorter, sep) == p[1..];
      } else {
        assert j == p + [sep] + Join(parts[1..], sep);
        assert Join(shorter, sep) == p[1..] + [sep] + Join(parts[1..], sep);
      }
      assert j[0] == p[0] && j[1..] == Join(shorter, sep);
      assert p[0] != sep by {
        assert p[0] in p;
      }
      assert [[p[0]] + p[1..]] + parts[1..] == parts by {
        assert [p[0]] + p[1..] == p;
      }
    } else if |parts| > 1 {
      var rest := parts[1..];
      assert forall i :: 0 <= i < |rest| ==> sep !in rest[i] by {
        forall i | 0 <= i < |rest| ensures sep !in rest[i] {
          assert rest[i] == parts[i + 1];
        }
      }
      JoinSplit(rest, sep);
      var j := Join(parts, sep);
      assert j == [sep] + Join(rest, sep);
      assert j[1..] == Join(rest, sep);
      assert [""] + rest == parts;
    }
  }

  /** Two pieces joined by a separator neither holds can be told apart again. */
  lemma SplitPair(a: string, b: string, sep: char)
    requires sep !in a && sep !in b
    ensures Split(a + [sep] + b, sep) == [a, b]
  {
    JoinSplit([a, b], sep);
    assert Join([a, b], sep) == a + [sep] + Join([b], sep);
  }

  /** ... and so such a join is injective. */
  lemma JoinPairInjective(a1: string, b1: string, a2: string, b2: string, sep: char)
    requires sep !in a1 && sep !in b1 && sep !in a2 && sep !in b2
    requires a1 + [sep] + b1 == a2 + [sep] + b2
    ensures a1 == a2 && b1 == b2
  {
    SplitPair(a1, b1, sep);
    SplitPair(a2, b2, sep);
  }

  // ---------------------------------------------------------------- whitespace

  /** Characters Python's `str.strip()` removes (`str.isspace`). */
  predicate IsPySpace(c: char) {
    c == ' ' || ('\t' <= c <= '\r') || ('\U{1C}' <= c <= '\U{1F}') || c == '\U{85}' || c == '\U{A0}'
    || c == '\U{1680}' || ('\U{2000}' <= c <= '\U{200A}') || c == '\U{2028}' || c == '\U{2029}'
    || c == '\U{202F}' || c == '\U{205F}' || c == '\U{3000}'
  }

  /** Characters JavaScript's `trim()` removes (white space and line terminators). */
  predicate IsJsSpace(c: char) {
    c == ' ' || ('\t' <= c <= '\r') || c == '\U{A0}' || c == '\U{1680}'
    || ('\U{2000}' <= c <= '\U{200A}') || c == '\U{2028}' || c == '\U{2029}'
    || c == '\U{202F}' || c == '\U{205F}' || c == '\U{3000}' || c == '\U{FEFF}'
  }

  function DropLeading(s: string, space: char -> bool): (r: string)
    ensures |r| <= |s| && r == s[|s| - |r|..]
    ensures |r| > 0 ==> !space(r[0])
    decreases |s|
  {
    if |s| > 0 && space(s[0]) then DropLeading(s[1..], space) else s
  }

  function DropTrailing(s: string, space: char -> bool): (r: string)
    ensures |r| <= |s| && r == s[..|r|]
    ensures |r| > 0 ==> !space(r[|r| - 1])
    decreases |s|
  {
    if |s| > 0 && space(s[|s| - 1]) then DropTrailing(s[..|s| - 1], space) else s
  }

  /** Python `s.strip()`. */
  function Strip(s: string): (r: string)
    ensures |r| <= |s|
    ensures |r| > 0 ==> !IsPySpace(r[0]) && !IsPySpace(r[|r| - 1])
  {
    var t := DropLeading(s, IsPySpace);
    var r := DropTrailing(t, IsPySpace);
    assert |r| > 0 ==> r[0] == t[0];
    r
  }

  /** JavaScript `s.trim()`. */
  function Trim(s: string): (r: string)
    ensures |r| <= |s|
    ensures |r| > 0 ==> !IsJsSpace(r[0]) && !IsJsSpace(r[|r| - 1])
  {
    var t := DropLeading(s, IsJsSpace);
    var r := DropTrailing(t, IsJsSpace);
    assert |r| > 0 ==> r[0] == t[0];
    r
  }

  /** Text with no surrounding space is left as it is by both. */
  lemma StripTrimmed(s: string)
    requires |s| > 0 ==> !IsPySpace(s[0]) && !IsPySpace(s[|s| - 1])
    ensures Strip(s) == s
  {
  }

  lemma TrimTrimmed(s: string)
    requires |s| > 0 ==> !IsJsSpace(s[0]) && !IsJsSpace(s[|s| - 1])
    ensures Trim(s) == s
  {
  }

  // ---------------------------------------------------------------- case

  function LowerChar(c: char): char {
    if 'A' <= c <= 'Z' then (c as int - 'A' as int + 'a' as int) as char else c
  }

  /** Python `s.lower()` on ASCII text. */
  function Lower(s: string): (r: string)
    ensures |r| == |s|
    ensures forall i :: 0 <= i < |s| ==> r[i] == LowerChar(s[i])
  {
    if |s| == 0 then "" else [LowerChar(s[0])] + Lower(s[1..])
  }

  /** JavaScript `s.padStart(width, fill)`. */
  function PadStart(s: string, width: nat, fill: char): (r: string)
    ensures |r| == if |s| >= width then |s| else width
    ensures r[|r| - |s|..] == s
    ensures forall i :: 0 <= i < |r| - |s| ==> r[i] == fill
    decreases width - |s|
  {
    if |s| >= width then s else PadStart([fill] + s, width, fill)
  }

  // ---------------------------------------------------------------- digits

  /** The lower-case digit for a value below 36. */
  function DigitChar(d: nat): (c: char)
    requires d < 36
    ensures DigitValue(c) == d && ('0' <= c <= '9' || 'a' <= c <= 'z')
  {
    if d < 10 then ('0' as int + d) as char else ('a' as int + d - 10) as char
  }

  /** The value of a digit in any radix up to 36; 36 for a character that is no digit. */
  function DigitValue(c: char): nat {
    if '0' <= c <= '9' then c as int - '0' as int
    else if 'a' <= c <= 'z' then c as int - 'a' as int + 10
    else if 'A' <= c <= 'Z' then c as int - 'A' as int + 10
    else 36
  }

  predicate IsDigit(c: char, radix: nat) {
    DigitValue(c) < radix
  }

  /** How many characters at the front of `s` are digits of `radix`. */
  function DigitRun(s: string, radix: nat): (k: nat)
    ensures k <= |s|
    ensures forall i :: 0 <= i < k ==> IsDigit(s[i], radix)
    ensures k < |s| ==> !IsDigit(s[k], radix)
    decreases |s|
  {
    if |s| > 0 && IsDigit(s[0], radix) then 1 + DigitRun(s[1..], radix) else 0
  }

  /** The value of a string of digits, most significant first. */
  function DigitsValue(s: string, radix: nat): nat
    decreases |s|
  {
    if |s| == 0 then 0
    else DigitsValue(s[..|s| - 1], radix) * radix + (if DigitValue(s[|s| - 1]) < 36 then DigitValue(s[|s| - 1]) else 0)
  }

  /** Lower-case digits of a natural number in radix 2..36, most significant first. */
  function ShowNat(n: nat, radix: nat): (s: string)
    requires 2 <= radix <= 36
    ensures |s| >= 1
    decreases n
  {
    if n < radix then [DigitChar(n)] else ShowNat(n / radix, radix) + [DigitChar(n % radix)]
  }

  /** Every character written is a digit of the radix: a number or a lower-case letter. */
  lemma {:induction false} ShowNatDigits(n: nat, radix: nat)
    requires 2 <= radix <= 36
    ensures forall i :: 0 <= i < |ShowNat(n, radix)| ==>
      IsDigit(ShowNat(n, radix)[i], radix) && ('0' <= ShowNat(n, radix)[i] <= '9' || 'a' <= ShowNat(n, radix)[i] <= 'z')
    decreases n
  {
    var s := ShowNat(n, radix);
    if n < radix {
      assert s == [DigitChar(n)];
    } else {
      DivMod(n, radix);
      var p, c := ShowNat(n / radix, radix), DigitChar(n % radix);
      ShowNatDigits(n / radix, radix);
      assert s == p + [c];
      forall i | 0 <= i < |s|
        ensures IsDigit(s[i], radix) && ('0' <= s[i] <= '9' || 'a' <= s[i] <= 'z')
      {
        if i < |p| {
          assert s[i] == p[i];
        } else {
          assert s[i] == c;
        }
      }
    }
  }

  lemma DivMod(n: nat, d: nat)
    requires d > 0
    ensures (n / d) * d + n % d == n
    ensures 0 <= n % d < d
    ensures d >= 2 && n > 0 ==> n / d < n
  {
  }

  /** Appending one digit multiplies by the radix and adds the digit. */
  lemma DigitsValueSnoc(p: string, c: char, radix: nat)
    requires DigitValue(c) < 36
    ensures DigitsValue(p + [c], radix) == DigitsValue(p, radix) * radix + DigitValue(c)
  {
    assert (p + [c])[..|p + [c]| - 1] == p;
  }

  /** Reading back the digits `ShowNat` writes gives the number. */
  lemma {:induction false} ShowNatValue(n: nat, radix: nat)
    requires 2 <= radix <= 36
    ensures DigitsValue(ShowNat(n, radix), radix) == n
    decreases n
  {
    if n >= radix {
      var q, r := n / radix, n % radix;
      DivMod(n, radix);
      ShowNatValue(q, radix);
      DigitsValueSnoc(ShowNat(q, radix), DigitChar(r), radix);
      DivMod(n, radix);
    } else {
      var s := ShowNat(n, radix);
      assert s[..0] == [];
    }
  }

  /** A byte of 16 or more is written with exactly two hexadecimal digits. */
  lemma ShowHexTwoDigits(n: nat)
    requires 16 <= n < 256
    ensures ShowNat(n, 16) == [DigitChar(n / 16), DigitChar(n % 16)]
  {
  }

  lemma DigitRunAll(s: string, radix: nat)
    requires forall i :: 0 <= i < |s| ==> IsDigit(s[i], radix)
    ensures DigitRun(s, radix) == |s|
    decreases |s|
  {
    if |s| > 0 {
      DigitRunAll(s[1..], radix);
    }
  }

  /** JavaScript `n.toString()` and Python `str(n)` for an integer. */
  function ShowInt(n: int): (s: string)
    ensures |s| >= 1
  {
    if n < 0 then "-" + ShowNat(-n, 10) else ShowNat(n, 10)
  }

  /** `str(n)` holds decimal digits and at most a leading minus sign: no comma, no point, no space. */
  lemma ShowIntChars(n: int)
    ensures forall i :: 0 <= i < |ShowInt(n)| ==> ShowInt(n)[i] == '-' || '0' <= ShowInt(n)[i] <= '9'
  {
    var m: nat := if n < 0 then -n else n;
    ShowNatDecimal(m);
  }

  /** A JavaScript number that holds an integer, or NaN. */
  datatype JsNum = Num(v: int) | NaN {
    /** `x.toString()` */
    function Show(): string {
      match this
      case Num(v) => ShowInt(v)
      case NaN => "NaN"
    }

    /** `x.toString(16)` */
    function ShowHex(): string {
      match this
      case Num(v) => if v < 0 then "-" + ShowNat(-v, 16) else ShowNat(v, 16)
      case NaN => "NaN"
    }

    /** `x + y` */
    function Plus(y: int): JsNum {
      match this
      case Num(v) => Num(v + y)
      case NaN => NaN
    }

    /** `x + y` of two numbers: NaN when either is. */
    function Add(y: JsNum): JsNum {
      if y.Num? then Plus(y.v) else NaN
    }

    /** `x * k` */
    function Times(k: int): JsNum {
      match this
      case Num(v) => Num(v * k)
      case NaN => NaN
    }

    /** `x < y`: false whenever either is NaN. */
    predicate Below(y: JsNum) {
      Num? && y.Num? && v < y.v
    }
  }

  /**
   * `Number.parseInt(s, radix)`: leading white space, an optional sign, for radix 16 or an
   * unspecified radix (0 here) an optional "0x", then the longest run of digits; NaN when
   * there is none.
   */
  function JsParseInt(s: string, radix: nat): JsNum
    requires radix == 0 || radix == 10 || radix == 16
  {
    var t := DropLeading(s, IsJsSpace);
    var negative := |t| > 0 && t[0] == '-';
    var u := if |t| > 0 && (t[0] == '-' || t[0] == '+') then t[1..] else t;
    match JsParseUnsigned(u, radix)
    case None => NaN
    case Some(m) => if negative then Num(0 - m) else Num(m)
  }

  /** What `Number.parseInt` reads after the sign: the radix prefix and the digit run. */
  function JsParseUnsigned(u: string, radix: nat): Option<nat>
    requires radix == 0 || radix == 10 || radix == 16
  {
    var hexPrefix := (radix == 0 || radix == 16) && |u| >= 2 && u[0] == '0' && (u[1] == 'x' || u[1] == 'X');
    var base := if hexPrefix then 16 else if radix == 0 then 10 else radix;
    var v := if hexPrefix then u[2..] else u;
    var k := DigitRun(v, base);
    if k == 0 then None else Some(DigitsValue(v[..k], base))
  }

  /** A non-empty run of the digits 0-9. */
  predicate Decimal(d: string) {
    |d| >= 1 && forall i :: 0 <= i < |d| ==> '0' <= d[i] <= '9'
  }

  lemma ShowNatDecimal(m: nat)
    ensures Decimal(ShowNat(m, 10)) && DigitsValue(ShowNat(m, 10), 10) == m
  {
    ShowNatDigits(m, 10);
    ShowNatValue(m, 10);
  }

  /** `Number.parseInt` reads a decimal run in full. */
  lemma JsParseUnsignedDecimal(d: string, radix: nat)
    requires Decimal(d) && (radix == 0 || radix == 10)
    ensures JsParseUnsigned(d, radix) == Some(DigitsValue(d, 10))
  {
    assert !(|d| >= 2 && (d[1] == 'x' || d[1] == 'X'));
    DigitRunAll(d, 10);
    assert d[..|d|] == d;
  }

  /** `Number.parseInt` of decimal digits. */
  lemma JsParseDecimal(d: string, radix: nat)
    requires Decimal(d) && (radix == 0 || radix == 10)
    ensures JsParseInt(d, radix) == Num(DigitsValue(d, 10))
  {
    JsParseUnsignedDecimal(d, radix);
    assert '0' <= d[0] <= '9';
    JsParsePlain(d, radix);
  }

  /** With no leading space and no sign, `Number.parseInt` is the unsigned reading. */
  lemma JsParsePlain(u: string, radix: nat)
    requires radix == 0 || radix == 10 || radix == 16
    requires |u| > 0 && '0' <= u[0] <= '9'
    ensures JsParseInt(u, radix) == match JsParseUnsigned(u, radix) case None => NaN case Some(m) => Num(m)
  {
    assert !IsJsSpace(u[0]);
    assert DropLeading(u, IsJsSpace) == u;
  }

  /** A leading minus sign negates what follows it. */
  lemma JsParseNegative(u: string, radix: nat)
    requires radix == 0 || radix == 10 || radix == 16
    ensures JsParseInt("-" + u, radix) == match JsParseUnsigned(u, radix) case None => NaN case Some(m) => Num(0 - m)
  {
    var s := "-" + u;
    assert DropLeading(s, IsJsSpace) == s;
    assert s[1..] == u;
  }

  /** `Number.parseInt` reads back what `toString` writes. */
  lemma JsParseShowInt(n: int)
    ensures JsParseInt(ShowInt(n), 0) == Num(n)
    ensures JsParseInt(ShowInt(n), 10) == Num(n)
  {
    var m: nat := if n < 0 then -n else n;
    ShowNatDecimal(m);
    if n < 0 {
      JsParseUnsignedDecimal(ShowNat(m, 10), 0);
      JsParseUnsignedDecimal(ShowNat(m, 10), 10);
      JsParseNegative(ShowNat(m, 10), 0);
      JsParseNegative(ShowNat(m, 10), 10);
    } else {
      JsParseDecimal(ShowNat(m, 10), 0);
      JsParseDecimal(ShowNat(m, 10), 10);
    }
  }

  /** Only zero is written "0". */
  lemma ShowIntZero(n: int)
    ensures ShowInt(n) == "0" <==> n == 0
  {
    JsParseShowInt(n);
    JsParseShowInt(0);
  }

  /** A leading plus sign is read over. */
  lemma JsParsePlus(u: string, radix: nat)
    requires radix == 0 || radix == 10 || radix == 16
    ensures JsParseInt("+" + u, radix) == match JsParseUnsigned(u, radix) case None => NaN case Some(m) => Num(m)
  {
    var s := "+" + u;
    assert DropLeading(s, IsJsSpace) == s;
    assert s[1..] == u;
  }

  /**
   * `Number(s)` (and so `s * k`) on text holding an integer: surrounding white space is
   * trimmed, blank text is 0, then an optional sign and decimal digits and nothing else;
   * anything else is NaN.
   */
  function JsNumber(s: string): JsNum {
    var t := Trim(s);
    if t == "" then Num(0)
    else
      var negative := t[0] == '-';
      var u := if t[0] == '-' || t[0] == '+' then t[1..] else t;
      if |u| > 0 && DigitRun(u, 10) == |u| then
        (if negative then Num(0 - DigitsValue(u, 10)) else Num(DigitsValue(u, 10)))
      else NaN
  }

  /** `Number` reads back what `toString` writes. */
  lemma JsNumberShowInt(n: int)
    ensures JsNumber(ShowInt(n)) == Num(n)
  {
    var m: nat := if n < 0 then -n else n;
    var d := ShowNat(m, 10);
    ShowNatDecimal(m);
    if n < 0 {
      JsNumberSigned(d);
    } else {
      JsNumberDecimal(d);
    }
  }

  lemma JsNumberDecimal(d: string)
    requires Decimal(d)
    ensures JsNumber(d) == Num(DigitsValue(d, 10))
  {
    assert !IsJsSpace(d[0]) && !IsJsSpace(d[|d| - 1]);
    TrimTrimmed(d);
    DigitRunAll(d, 10);
  }

  lemma JsNumberSigned(d: string)
    requires Decimal(d)
    ensures JsNumber("-" + d) == Num(0 - DigitsValue(d, 10))
  {
    var s := "-" + d;
    assert !IsJsSpace(s[0]) && !IsJsSpace(s[|s| - 1]);
    TrimTrimmed(s);
    assert s[1..] == d;
    DigitRunAll(d, 10);
  }

  // ---------------------------------------------------------------- more on split and join

  /** Joining one more piece adds a separator and the piece. */
  lemma {:induction false} JoinSnoc(parts: seq<string>, x: string, sep: char)
    requires |parts| >= 1
    ensures Join(parts + [x], sep) == Join(parts, sep) + [sep] + x
    decreases |parts|
  {
    if |parts| == 1 {
      assert parts + [x] == [parts[0], x];
    } else {
      JoinSnoc(parts[1..], x, sep);
      assert (parts + [x])[1..] == parts[1..] + [x];
    }
  }

  /** Splitting at a separator splits the two sides independently. */
  lemma {:induction false} SplitAppend(a: string, b: string, sep: char)
    ensures Split(a + [sep] + b, sep) == Split(a, sep) + Split(b, sep)
    decreases |a|
  {
    var s := a + [sep] + b;
    if |a| == 0 {
      assert s == [sep] + b;
      assert s[1..] == b;
    } else {
      var rest, sb := Split(a[1..], sep), Split(b, sep);
      assert s[1..] == a[1..] + [sep] + b;
      assert Split(s[1..], sep) == rest + sb by {
        SplitAppend(a[1..], b, sep);
      }
      if a[0] == sep {
        assert [""] + (rest + sb) == [""] + rest + sb;
      } else {
        MergeHead([a[0]], rest, sb);
      }
    }
  }

  /** Gluing a prefix onto the first part commutes with appending more parts. */
  lemma MergeHead(c: string, r: seq<string>, t: seq<string>)
    requires |r| >= 1
    ensures [c + (r + t)[0]] + (r + t)[1..] == [c + r[0]] + r[1..] + t
  {
    assert (r + t)[0] == r[0];
    assert (r + t)[1..] == r[1..] + t;
  }

  /**
   * Python `int(s)`: surrounding white space, an optional sign and at least one decimal
   * digit, nothing else; anything else raises ValueError.
   */
  function PyInt(s: string): (r: Result<int>)
    ensures r.Err? ==> r.fault == BadValue("int")
  {
    var t := Strip(s);
    var negative := |t| > 0 && t[0] == '-';
    var u := if |t| > 0 && (t[0] == '-' || t[0] == '+') then t[1..] else t;
    match PyUnsigned(u)
    case None => Err(BadValue("int"))
    case Some(m) => Ok(if negative then 0 - m else m)
  }

  /** What `int()` accepts after the sign: decimal digits and nothing else. */
  function PyUnsigned(u: string): Option<nat> {
    if |u| > 0 && DigitRun(u, 10) == |u| then Some(DigitsValue(u, 10)) else None
  }

  /** A decimal run is read in full. */
  lemma PyUnsignedDecimal(d: string)
    requires Decimal(d)
    ensures PyUnsigned(d) == Some(DigitsValue(d, 10))
  {
    DigitRunAll(d, 10);
  }

  /** `int()` of decimal digits. */
  lemma PyIntDecimal(d: string)
    requires Decimal(d)
    ensures PyInt(d) == Ok(DigitsValue(d, 10))
  {
    assert !IsPySpace(d[0]) && !IsPySpace(d[|d| - 1]) && d[0] != '-' && d[0] != '+';
    StripTrimmed(d);
    PyUnsignedDecimal(d);
  }

  /** A leading minus sign negates what follows it. */
  lemma PyIntNegative(u: string)
    requires |u| > 0 ==> !IsPySpace(u[|u| - 1])
    ensures PyInt("-" + u) == match PyUnsigned(u) case None => Err(BadValue("int")) case Some(m) => Ok(0 - m)
  {
    var s := "-" + u;
    assert s[1..] == u;
    assert !IsPySpace(s[0]) && !IsPySpace(s[|s| - 1]);
    StripTrimmed(s);
  }

  /** `int()` accepts what `str()` writes, e.g. "128". */
  lemma PyIntShowInt(n: int)
    ensures PyInt(ShowInt(n)) == Ok(n)
  {
    var m: nat := if n < 0 then -n else n;
    ShowNatDecimal(m);
    if n < 0 {
      var d := ShowNat(m, 10);
      PyUnsignedDecimal(d);
      PyIntNegative(d);
    } else {
      PyIntDecimal(ShowNat(m, 10));
    }
  }
}
