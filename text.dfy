/** The pieces of the JavaScript string and number runtime that the calculator
    relies on: white space, `trim`, `split` on one character, the
    apostrophe-and-space stripping of amount fields, and the decimal subset of
    `parseFloat`, `Number()` and `parseInt`. */
module JsText {
  import opened Wrappers

  /** White space and line terminators as JavaScript defines them: the set
      matched by the regular-expression class `\s` and removed by `trim`. */
  predicate IsSpace(c: char) {
    c == '\t' || c == '\n' || c == '\U{000B}' || c == '\U{000C}' || c == '\r' || c == ' '
    || c == '\U{00A0}' || c == '\U{1680}' || ('\U{2000}' <= c <= '\U{200A}')
    || c == '\U{2028}' || c == '\U{2029}' || c == '\U{202F}' || c == '\U{205F}'
    || c == '\U{3000}' || c == '\U{FEFF}'
  }

  /** `String.prototype.trimStart`: the text without its leading white space. */
  function TrimStart(s: string): string {
    if s != [] && IsSpace(s[0]) then TrimStart(s[1..]) else s
  }

  /** `String.prototype.trimEnd`: the text without its trailing white space. */
  function TrimEnd(s: string): string {
    if s != [] && IsSpace(s[|s| - 1]) then TrimEnd(s[..|s| - 1]) else s
  }

  /** `String.prototype.trim`. */
  function Trim(s: string): string {
    TrimEnd(TrimStart(s))
  }

  /** `trimStart` removes exactly the maximal run of leading spaces. */
  lemma {:induction false} TrimStartSpec(s: string)
    ensures var r := TrimStart(s);
      |r| <= |s| && r == s[|s| - |r|..]
      && (r == [] || !IsSpace(r[0]))
      && (forall i :: 0 <= i < |s| - |r| ==> IsSpace(s[i]))
  {
    if s != [] && IsSpace(s[0]) {
      var t := s[1..];
      TrimStartSpec(t);
      var r := TrimStart(t);
      assert t[|t| - |r|..] == s[|s| - |r|..];
      forall i | 0 <= i < |s| - |r|
        ensures IsSpace(s[i])
      {
        if i > 0 {
          assert s[i] == t[i - 1];
        }
      }
    }
  }

  /** `trimEnd` removes exactly the maximal run of trailing spaces. */
  lemma {:induction false} TrimEndSpec(s: string)
    ensures var r := TrimEnd(s);
      |r| <= |s| && r == s[..|r|]
      && (r == [] || !IsSpace(r[|r| - 1]))
      && (forall i :: |r| <= i < |s| ==> IsSpace(s[i]))
  {
    if s != [] && IsSpace(s[|s| - 1]) {
      var t := s[..|s| - 1];
      TrimEndSpec(t);
      var r := TrimEnd(t);
      assert t[..|r|] == s[..|r|];
      forall i | |r| <= i < |s|
        ensures IsSpace(s[i])
      {
        if i < |s| - 1 {
          assert s[i] == t[i];
        }
      }
    }
  }

  /** `trim` keeps a slice of the text, starting where the leading white
      space ends, with only white space around it; the slice neither starts nor
      ends with a space, and is empty only when the text was all white space. */
  lemma TrimSpec(s: string)
    ensures var r := Trim(s); var a := |s| - |TrimStart(s)|;
      0 <= a && a + |r| <= |s| && r == s[a..a + |r|]
      && (forall i :: 0 <= i < |s| && (i < a || a + |r| <= i) ==> IsSpace(s[i]))
      && (r != [] ==> !IsSpace(r[0]) && !IsSpace(r[|r| - 1]))
      && (r == [] <==> forall i :: 0 <= i < |s| ==> IsSpace(s[i]))
  {
    var t := TrimStart(s);
    var r := TrimEnd(t);
    var a := |s| - |t|;
    TrimStartSpec(s);
    TrimEndSpec(t);
    TrimSlice(s, t, r, a);
    if r != [] {
      assert r[0] == t[0];
    } else {
      assert t == [];
    }
  }

  lemma TrimSlice(s: string, t: string, r: string, a: int)
    requires 0 <= a <= |s| && t == s[a..] && |r| <= |t| && r == t[..|r|]
    requires forall i :: 0 <= i < a ==> IsSpace(s[i])
    requires forall i :: |r| <= i < |t| ==> IsSpace(t[i])
    ensures a + |r| <= |s| && r == s[a..a + |r|]
    ensures forall i :: 0 <= i < |s| && (i < a || a + |r| <= i) ==> IsSpace(s[i])
  {
    forall i | 0 <= i < |s| && a + |r| <= i
      ensures IsSpace(s[i])
    {
      assert s[i] == t[i - a];
    }
  }

  /** Trimming leaves a string that neither starts nor ends with a space unchanged. */
  lemma TrimKeepsInner(s: string)
    requires s == [] || (!IsSpace(s[0]) && !IsSpace(s[|s| - 1]))
    ensures Trim(s) == s
  {
    assert TrimStart(s) == s;
  }

  /** Trimming twice is trimming once. */
  lemma TrimIdempotent(s: string)
    ensures Trim(Trim(s)) == Trim(s)
  {
    TrimSpec(s);
    TrimKeepsInner(Trim(s));
  }

  /** A thousands separator or white space, the characters `/['\s]/g` removes. */
  predicate IsSeparator(c: char) {
    c == '\'' || IsSpace(c)
  }

  /** `s.replace(/['\s]/g, '')`: every apostrophe and white-space character
      removed, the other characters kept in order. */
  function StripSeparators(s: string): (r: string)
    ensures |r| <= |s|
    ensures forall i :: 0 <= i < |r| ==> !IsSeparator(r[i])
    ensures (forall i :: 0 <= i < |s| ==> !IsSeparator(s[i])) ==> r == s
  {
    if s == [] then []
    else (if IsSeparator(s[0]) then [] else [s[0]]) + StripSeparators(s[1..])
  }

  /** Stripping works piecewise, so a separator may sit anywhere in an amount. */
  lemma {:induction false} StripConcat(a: string, b: string)
    ensures StripSeparators(a + b) == StripSeparators(a) + StripSeparators(b)
  {
    if a != [] {
      assert (a + b)[1..] == a[1..] + b;
      StripConcat(a[1..], b);
    } else {
      assert a + b == b;
    }
  }

  /** Inserting one separator character into a text does not change what is parsed. */
  lemma StripIgnoresSeparator(a: string, c: char, b: string)
    requires IsSeparator(c)
    ensures StripSeparators(a + [c] + b) == StripSeparators(a + b)
  {
    StripConcat(a + [c], b);
    StripConcat(a, [c]);
    StripConcat(a, b);
  }

  /** `s.split(d)` for a one-character separator: the pieces between the
      occurrences of `d`; there is always at least one piece. */
  function Split(s: string, d: char): (r: seq<string>)
    ensures |r| >= 1
  {
    if s == [] then [[]]
    else if s[0] == d then [[]] + Split(s[1..], d)
    else
      var rest := Split(s[1..], d);
      [[s[0]] + rest[0]] + rest[1..]
  }

  /** No piece of a split contains the separator. */
  lemma {:induction false} SplitPiecesFree(s: string, d: char)
    ensures forall k :: 0 <= k < |Split(s, d)| ==> d !in Split(s, d)[k]
  {
    if s != [] {
      SplitPiecesFree(s[1..], d);
    }
  }

  /** `parts.join(d)`, the inverse of `Split`. */
  function Join(parts: seq<string>, d: char): string
    requires |parts| >= 1
  {
    if |parts| == 1 then parts[0] else parts[0] + [d] + Join(parts[1..], d)
  }

  /** Joining the pieces of a split gives back the text. */
  lemma {:induction false} JoinSplit(s: string, d: char)
    ensures Join(Split(s, d), d) == s
  {
    if s != [] {
      JoinSplit(s[1..], d);
      var rest := Split(s[1..], d);
      if s[0] != d && |rest| > 1 {
        assert [s[0]] + rest[0] + [d] + Join(rest[1..], d) == [s[0]] + Join(rest, d);
      }
    }
  }

  /** Splitting a join of separator-free pieces gives back the pieces. */
  lemma {:induction false} SplitJoin(parts: seq<string>, d: char)
    requires |parts| >= 1
    requires forall k :: 0 <= k < |parts| ==> d !in parts[k]
    ensures Split(Join(parts, d), d) == parts
  {
    if |parts| == 1 {
      SplitPiece(parts[0], d);
    } else {
      SplitJoin(parts[1..], d);
      SplitPrefix(parts[0], Join(parts[1..], d), d);
    }
  }

  /** A text without the separator is a single piece. */
  lemma {:induction false} SplitPiece(p: string, d: char)
    requires d !in p
    ensures Split(p, d) == [p]
  {
    if p != [] {
      SplitPiece(p[1..], d);
      assert [p[0]] + p[1..] == p;
    }
  }

  /** A separator-free prefix followed by the separator opens a new piece. */
  lemma {:induction false} SplitPrefix(p: string, t: string, d: char)
    requires d !in p
    ensures Split(p + [d] + t, d) == [p] + Split(t, d)
  {
    if p == [] {
      assert p + [d] + t == [d] + t;
      assert ([d] + t)[1..] == t;
    } else {
      assert (p + [d] + t)[1..] == p[1..] + [d] + t;
      SplitPrefix(p[1..], t, d);
      assert [p[0]] + p[1..] == p;
    }
  }

  predicate IsDigit(c: char) {
    '0' <= c <= '9'
  }

  predicate AllDigits(s: string) {
    forall i :: 0 <= i < |s| ==> IsDigit(s[i])
  }

  function DigitValue(c: char): (v: nat)
    requires IsDigit(c)
    ensures v <= 9
  {
    (c as int) - ('0' as int)
  }

  /** The length of the run of decimal digits that starts the text. */
  function LeadingDigits(s: string): (n: nat)
    ensures n <= |s| && AllDigits(s[..n])
    ensures n < |s| ==> !IsDigit(s[n])
  {
    if s != [] && IsDigit(s[0]) then 1 + LeadingDigits(s[1..]) else 0
  }

  /** The value of a string of decimal digits, most significant first. */
  function IntValue(ds: string): nat
    requires AllDigits(ds)
  {
    if ds == [] then 0 else IntValue(ds[..|ds| - 1]) * 10 + DigitValue(ds[|ds| - 1])
  }

  /** The value of the digits after a decimal point: always in [0, 1). */
  function FracValue(ds: string): (v: real)
    requires AllDigits(ds)
    ensures 0.0 <= v < 1.0
  {
    if ds == [] then 0.0 else (DigitValue(ds[0]) as real + FracValue(ds[1..])) / 10.0
  }

  /** A decimal numeral `[+-]? digits* ('.' digits*)?` with at least one digit,
      as it was read from the front of a text; `length` is how many characters it took. */
  datatype Numeral = Numeral(negative: bool, intDigits: string, fracDigits: string, length: nat)
  {
    ghost predicate Valid() {
      AllDigits(intDigits) && AllDigits(fracDigits)
    }

    function Value(): real
      requires Valid()
    {
      var magnitude := IntValue(intDigits) as real + FracValue(fracDigits);
      if negative then -magnitude else magnitude
    }
  }

  /** The length of the optional sign that starts the text. */
  function SignLength(s: string): (n: nat)
    ensures n <= 1 && n <= |s|
  {
    if s != [] && (s[0] == '+' || s[0] == '-') then 1 else 0
  }

  /** The longest prefix of `s` that is a decimal numeral, if any. */
  function ScanNumeral(s: string): (r: Option<Numeral>)
    ensures r.Some? ==> r.value.Valid() && 0 < r.value.length <= |s|
    ensures r.Some? ==> |r.value.intDigits| + |r.value.fracDigits| > 0
  {
    var signLen := SignLength(s);
    var rest := s[signLen..];
    var n := LeadingDigits(rest);
    var afterInt := rest[n..];
    var hasPoint := afterInt != [] && afterInt[0] == '.';
    var m := if hasPoint then LeadingDigits(afterInt[1..]) else 0;
    if n + m == 0 then None
    else
      Some(Numeral(signLen == 1 && s[0] == '-', rest[..n],
                   if hasPoint then afterInt[1..][..m] else [],
                   signLen + n + (if hasPoint then 1 + m else 0)))
  }

  /** `ScanNumeral` finds nothing exactly when neither a digit nor a point
      and a digit follow the optional sign. */
  lemma ScanNumeralNone(s: string)
    ensures var k := SignLength(s);
      ScanNumeral(s).None? <==>
        !(k < |s| && IsDigit(s[k])) && !(k + 1 < |s| && s[k] == '.' && IsDigit(s[k + 1]))
  {
    var k := SignLength(s);
    var rest := s[k..];
    var n := LeadingDigits(rest);
    if k < |s| && IsDigit(s[k]) {
      assert rest[0] == s[k];
    } else if n == 0 && k + 1 < |s| && s[k] == '.' && IsDigit(s[k + 1]) {
      var afterInt := rest[n..];
      assert afterInt[1..][0] == s[k + 1];
    }
  }

  /** What `ScanNumeral` reads: the optional sign, then the whole run of
      integer digits, then, when a point follows, the point and the whole run
      of digits after it; the character after the numeral is not a digit. */
  lemma ScanNumeralSome(s: string)
    requires ScanNumeral(s).Some?
    ensures var num := ScanNumeral(s).value;
      var k := SignLength(s);
      var e := k + |num.intDigits|;
      (num.negative <==> k == 1 && s[0] == '-')
      && e <= |s| && s[k..e] == num.intDigits
      && (e < |s| ==> !IsDigit(s[e]))
      && (if e < |s| && s[e] == '.' then
            num.length == e + 1 + |num.fracDigits| && s[e + 1..num.length] == num.fracDigits
          else
            num.length == e && num.fracDigits == [])
      && (num.length < |s| ==> !IsDigit(s[num.length]))
  {
    var k := SignLength(s);
    var rest := s[k..];
    var n := LeadingDigits(rest);
    var afterInt := rest[n..];
    var num := ScanNumeral(s).value;
    var e := k + n;
    assert |num.intDigits| == n;
    assert s[k..e] == rest[..n];
    assert afterInt == s[e..];
    if e < |s| && s[e] == '.' {
      var m := LeadingDigits(afterInt[1..]);
      assert afterInt[1..] == s[e + 1..];
      assert num.length == e + 1 + m;
      assert num.fracDigits == s[e + 1..][..m];
    }
  }

  /** `parseFloat` restricted to decimal numerals: leading white space is
      skipped, the longest numeral prefix is read and the rest ignored; `None`
      stands for `NaN`. */
  function ParseFloat(s: string): Option<real>
  {
    match ScanNumeral(TrimStart(s))
    case Some(num) => Some(num.Value())
    case None => None
  }

  /** `Number(s)` restricted to decimal numerals: surrounding white space is
      ignored, a blank text is 0, and anything that is not entirely a numeral is
      `NaN` (`None`). */
  function NumberOf(s: string): Option<real>
  {
    var t := Trim(s);
    if t == [] then Some(0.0)
    else match ScanNumeral(t)
      case Some(num) => if num.length == |t| then Some(num.Value()) else None
      case None => None
  }

  /** `parseInt(s, 10)`: leading white space skipped, an optional sign, then at
      least one digit; the rest is ignored. */
  function ParseInt(s: string): Option<int>
  {
    var t := TrimStart(s);
    var signLen := SignLength(t);
    var n := LeadingDigits(t[signLen..]);
    if n == 0 then None
    else
      var magnitude: int := IntValue(t[signLen..][..n]);
      Some(if signLen == 1 && t[0] == '-' then -magnitude else magnitude)
  }

  /** The decimal digits of a natural number, most significant first. */
  function NatDigits(k: nat): (ds: string)
    ensures ds != [] && AllDigits(ds)
  {
    if k < 10 then ['0' + k as char] else NatDigits(k / 10) + ['0' + (k % 10) as char]
  }

  lemma {:induction false} NatDigitsValue(k: nat)
    ensures IntValue(NatDigits(k)) == k
  {
    if k >= 10 {
      NatDigitsValue(k / 10);
      assert NatDigits(k)[..|NatDigits(k)| - 1] == NatDigits(k / 10);
    }
  }

  lemma {:induction false} LeadingDigitsAll(s: string)
    requires AllDigits(s)
    ensures LeadingDigits(s) == |s|
  {
    if s != [] {
      LeadingDigitsAll(s[1..]);
    }
  }

  /** A digit string followed by text that cannot continue a numeral is read
      as exactly that digit string. */
  lemma ScanDigits(ds: string, t: string)
    requires ds != [] && AllDigits(ds)
    requires t == [] || (!IsDigit(t[0]) && t[0] != '.')
    ensures ScanNumeral(ds + t) == Some(Numeral(false, ds, [], |ds|))
  {
    var s := ds + t;
    LeadingDigitsAppend(ds, t);
    assert s[0..] == s;
    assert s[..|ds|] == ds;
    assert s[|ds|..] == t;
  }

  /** A plain digit string is read by `parseFloat` as its decimal value. */
  lemma DigitsParseFloat(ds: string)
    requires ds != [] && AllDigits(ds)
    ensures ParseFloat(ds) == Some(IntValue(ds) as real)
  {
    var num := DigitsNumeral(ds);
    assert TrimStart(ds) == ds;
  }

  /** A plain digit string is read by `Number()` as its decimal value. */
  lemma DigitsNumber(ds: string)
    requires ds != [] && AllDigits(ds)
    ensures NumberOf(ds) == Some(IntValue(ds) as real)
  {
    var num := DigitsNumeral(ds);
    TrimKeepsInner(ds);
  }

  /** A plain digit string is read whole as an integer numeral. */
  lemma DigitsNumeral(ds: string) returns (num: Numeral)
    requires ds != [] && AllDigits(ds)
    ensures ScanNumeral(ds) == Some(num) && num.length == |ds|
    ensures num.Valid() && num.Value() == IntValue(ds) as real
  {
    num := Numeral(false, ds, [], |ds|);
    ScanDigits(ds, []);
    assert ds + [] == ds;
  }

  lemma DigitsParseInt(ds: string)
    requires ds != [] && AllDigits(ds)
    ensures ParseInt(ds) == Some(IntValue(ds))
  {
    LeadingDigitsAll(ds);
    assert ds[0..] == ds && ds[..|ds|] == ds;
  }

  /** A written natural number parses back to itself, with `parseFloat`,
      `Number()` and `parseInt` alike. */
  lemma NatDigitsParse(k: nat)
    ensures ParseFloat(NatDigits(k)) == Some(k as real)
    ensures NumberOf(NatDigits(k)) == Some(k as real)
    ensures ParseInt(NatDigits(k)) == Some(k)
  {
    NatDigitsValue(k);
    DigitsParseFloat(NatDigits(k));
    DigitsNumber(NatDigits(k));
    DigitsParseInt(NatDigits(k));
  }

  /** Text that cannot continue a decimal numeral: it starts with neither a
      digit, a point nor an exponent letter, and is not all white space. */
  predicate IsTrailingText(t: string) {
    t != [] && !IsDigit(t[0]) && t[0] != '.' && t[0] != 'e' && t[0] != 'E' && Trim(t) != []
  }

  /** A letter that turns a lone leading `0` into a hexadecimal, binary or
      octal literal for `Number()` (`0x1F`, `0b1`, `0o7`). */
  predicate IsRadixLetter(c: char) {
    c == 'x' || c == 'X' || c == 'b' || c == 'B' || c == 'o' || c == 'O'
  }

  /** `parseFloat` reads the numeral and ignores the text after it. */
  lemma ParseFloatIgnoresTail(ds: string, t: string)
    requires ds != [] && AllDigits(ds)
    requires IsTrailingText(t)
    ensures ParseFloat(ds + t) == Some(IntValue(ds) as real)
  {
    var s := ds + t;
    ScanDigits(ds, t);
    assert TrimStart(s) == s;
    var num := Numeral(false, ds, [], |ds|);
    assert ScanNumeral(TrimStart(s)) == Some(num);
    assert num.Value() == IntValue(ds) as real;
  }

  /** Trailing white space is removed from the end of a text only. */
  lemma {:induction false} TrimEndAppend(a: string, b: string)
    requires TrimEnd(b) != []
    ensures TrimEnd(a + b) == a + TrimEnd(b)
  {
    var s := a + b;
    if IsSpace(b[|b| - 1]) {
      assert s[..|s| - 1] == a + b[..|b| - 1];
      TrimEndAppend(a, b[..|b| - 1]);
    }
  }

  /** `Number()` rejects a numeral followed by other text, except where a
      lone `0` starts a radix literal. */
  lemma NumberRejectsTail(ds: string, t: string)
    requires ds != [] && AllDigits(ds)
    requires IsTrailingText(t) && (ds == "0" ==> !IsRadixLetter(t[0]))
    ensures NumberOf(ds + t) == None
  {
    var s := ds + t;
    assert TrimStart(s) == s;
    TrimSpec(t);
    TrimEndSpec(t);
    TrimEndAppend(ds, t);
    var u := TrimEnd(t);
    assert u[0] == t[0];
    ScanDigits(ds, u);
    assert Trim(s) == ds + u;
  }

  /** So the two readers differ on a written number followed by other text,
      such as `"12x"` or `"12 CHF"`: `parseFloat` gives the number, `Number()`
      gives `NaN`. */
  lemma TrailingTextDiffers(k: nat, t: string)
    requires IsTrailingText(t) && (k == 0 ==> !IsRadixLetter(t[0]))
    ensures ParseFloat(NatDigits(k) + t) == Some(k as real)
    ensures NumberOf(NatDigits(k) + t) == None
  {
    NatDigitsValue(k);
    ParseFloatIgnoresTail(NatDigits(k), t);
    NumberRejectsTail(NatDigits(k), t);
  }

  lemma {:induction false} LeadingDigitsAppend(ds: string, t: string)
    requires AllDigits(ds)
    requires t == [] || !IsDigit(t[0])
    ensures LeadingDigits(ds + t) == |ds|
  {
    if ds != [] {
      assert (ds + t)[1..] == ds[1..] + t;
      LeadingDigitsAppend(ds[1..], t);
    } else {
      assert ds + t == t;
    }
  }
}
