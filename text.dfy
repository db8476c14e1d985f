/** The JavaScript string operations the settings screen relies on:
    `String.prototype.trim`, `split(',')`, `join(', ')`, `Number.prototype.toString`
    for integers and the global `parseInt` with no radix argument. */
module Text {
  import opened Types
  import opened Lists

  /** The WhiteSpace and LineTerminator code points of ECMA-262: the characters
      `trim` removes and `parseInt` skips. */
  predicate IsJsWhitespace(c: char) {
    || c == '\t' || c == '\U{000B}' || c == '\U{000C}' || c == ' '
    || c == '\U{00A0}' || c == '\U{FEFF}' || c == '\U{1680}'
    || ('\U{2000}' <= c <= '\U{200A}')
    || c == '\U{202F}' || c == '\U{205F}' || c == '\U{3000}'
    || c == '\n' || c == '\r' || c == '\U{2028}' || c == '\U{2029}'
  }

  /** Neither end of `s` is whitespace. */
  predicate Trimmed(s: string) {
    s == [] || (!IsJsWhitespace(s[0]) && !IsJsWhitespace(s[|s| - 1]))
  }

  /** Removes leading whitespace: what remains is a suffix that starts with
      a character other than whitespace. */
  function TrimStart(s: string): (r: string)
    ensures |r| <= |s| && r == s[|s| - |r|..]
    ensures r == [] || !IsJsWhitespace(r[0])
  {
    if s != [] && IsJsWhitespace(s[0]) then TrimStart(s[1..]) else s
  }

  /** What `TrimStart` drops is all whitespace. */
  lemma {:induction false} TrimStartDrops(s: string, i: nat)
    requires i < |s| - |TrimStart(s)|
    ensures IsJsWhitespace(s[i])
  {
    if i > 0 {
      TrimStartDrops(s[1..], i - 1);
    }
  }

  /** Removes trailing whitespace: what remains is a prefix that ends with
      a character other than whitespace. */
  function TrimEnd(s: string): (r: string)
    ensures |r| <= |s| && r == s[..|r|]
    ensures r == [] || !IsJsWhitespace(r[|r| - 1])
  {
    if s != [] && IsJsWhitespace(s[|s| - 1]) then TrimEnd(s[..|s| - 1]) else s
  }

  /** What `TrimEnd` drops is all whitespace. */
  lemma {:induction false} TrimEndDrops(s: string, i: nat)
    requires |TrimEnd(s)| <= i < |s|
    ensures IsJsWhitespace(s[i])
  {
    if i < |s| - 1 {
      TrimEndDrops(s[..|s| - 1], i);
    }
  }

  /** `String.prototype.trim`: the whitespace at both ends is cut (`TrimSlice`
      shows that nothing else is). The result is trimmed, and an already
      trimmed string is left alone. */
  function Trim(s: string): (r: string)
    ensures Trimmed(r) && |r| <= |s|
    ensures Trimmed(s) ==> r == s
  {
    var t := TrimStart(s);
    var r := TrimEnd(t);
    assert r != [] ==> r[0] == t[0];
    assert Trimmed(s) && s != [] ==> t == s && s[|s| - 1] == t[|t| - 1];
    r
  }

  predicate AllWhitespace(w: string) {
    forall i :: 0 <= i < |w| ==> IsJsWhitespace(w[i])
  }

  /** `r` is `s` with only whitespace cut from its two ends. */
  ghost predicate WhitespaceCut(s: string, r: string) {
    exists a: nat, b: nat :: a <= b <= |s| && AllWhitespace(s[..a]) && AllWhitespace(s[b..]) && r == s[a..b]
  }

  lemma TrimStartCut(s: string)
    ensures AllWhitespace(s[..|s| - |TrimStart(s)|])
  {
    var w := s[..|s| - |TrimStart(s)|];
    forall i | 0 <= i < |w| ensures IsJsWhitespace(w[i]) {
      TrimStartDrops(s, i);
    }
  }

  lemma TrimEndCut(t: string)
    ensures AllWhitespace(t[|TrimEnd(t)|..])
  {
    var w := t[|TrimEnd(t)|..];
    forall i | 0 <= i < |w| ensures IsJsWhitespace(w[i]) {
      TrimEndDrops(t, |TrimEnd(t)| + i);
    }
  }

  /** `trim` returns the slice of `s` between two runs of whitespace, one at
      each end. */
  lemma TrimSlice(s: string)
    ensures WhitespaceCut(s, Trim(s))
  {
    var t := TrimStart(s);
    var r := TrimEnd(t);
    var a := |s| - |t|;
    var b := a + |r|;
    assert r == s[a..b] by {
      assert t == s[a..];
      assert r == t[..|r|];
    }
    TrimStartCut(s);
    TrimEndCut(t);
    assert s[b..] == t[|r|..];
    assert a <= b <= |s| && AllWhitespace(s[..a]) && AllWhitespace(s[b..]) && r == s[a..b];
  }

  /** `trim` returns a slice of its argument, so it adds no character. */
  lemma TrimSubset(s: string)
    ensures forall c :: c in Trim(s) ==> c in s
  {
    var t := TrimStart(s);
    var r := TrimEnd(t);
    var k := |s| - |t|;
    forall c | c in r ensures c in s {
      var j :| 0 <= j < |r| && r[j] == c;
      assert t[j] == c;
      assert s[k + j] == c;
    }
  }

  /** `trim` cuts only whitespace: every other character of `s` survives. */
  lemma TrimKeepsVisible(s: string, i: nat)
    requires i < |s| && !IsJsWhitespace(s[i])
    ensures s[i] in Trim(s)
  {
    var t := TrimStart(s);
    var r := TrimEnd(t);
    var k := |s| - |t|;
    if i < k {
      TrimStartDrops(s, i);
    }
    assert t[i - k] == s[i];
    if i - k >= |r| {
      TrimEndDrops(t, i - k);
    }
    assert r[i - k] == s[i];
  }

  /** A space in front of a string does not change what `trim` returns. */
  lemma TrimLeadingSpace(s: string)
    ensures Trim(" " + s) == Trim(s)
  {
    assert (" " + s)[1..] == s;
  }

  /** `Array.prototype.join(sep)`: the parts with `sep` between neighbours;
      the text starts with the first part. */
  function Join(parts: seq<string>, sep: string): (r: string)
    ensures parts == [] ==> r == []
    ensures |parts| == 1 ==> r == parts[0]
    ensures parts != [] ==> |parts[0]| <= |r| && r[..|parts[0]|] == parts[0]
  {
    if |parts| == 0 then []
    else if |parts| == 1 then parts[0]
    else parts[0] + sep + Join(parts[1..], sep)
  }

  /** `split(',')`: the pieces between commas, at least one, none holding a comma. */
  function SplitCommas(s: string): (parts: seq<string>)
    ensures |parts| >= 1
    ensures forall i :: 0 <= i < |parts| ==> ',' !in parts[i]
  {
    if s == [] then [[]]
    else
      var rest := SplitCommas(s[1..]);
      if s[0] == ',' then [[]] + rest
      else [[s[0]] + rest[0]] + rest[1..]
  }

  /** Joining the pieces of a split with "," gives back the text. */
  lemma {:induction false} SplitJoinRoundTrip(s: string)
    ensures Join(SplitCommas(s), ",") == s
  {
    if s != [] {
      var rest := SplitCommas(s[1..]);
      SplitJoinRoundTrip(s[1..]);
      if s[0] == ',' {
        assert ([[]] + rest)[1..] == rest;
      } else if |rest| > 1 {
        var parts := [[s[0]] + rest[0]] + rest[1..];
        assert parts[1..] == rest[1..];
        assert Join(rest, ",") == rest[0] + "," + Join(rest[1..], ",");
      }
    }
  }

  /** A comma-free text splits into itself. */
  lemma {:induction false} SplitNoComma(a: string)
    requires ',' !in a
    ensures SplitCommas(a) == [a]
  {
    if a != [] {
      assert ',' !in a[1..];
      SplitNoComma(a[1..]);
      assert [a[0]] + a[1..] == a;
    }
  }

  /** Splitting at the first comma. */
  lemma {:induction false} SplitAtComma(a: string, b: string)
    requires ',' !in a
    ensures SplitCommas(a + "," + b) == [a] + SplitCommas(b)
  {
    if a == [] {
      assert (a + "," + b)[1..] == b;
    } else {
      assert (a + "," + b)[1..] == a[1..] + "," + b;
      assert ',' !in a[1..];
      SplitAtComma(a[1..], b);
      assert [a[0]] + a[1..] == a;
    }
  }

  /** `map(k => k.trim())`. */
  function TrimAll(parts: seq<string>): seq<string> {
    MapSeq(Trim, parts)
  }

  predicate IsNonEmpty(k: string) {
    k != []
  }

  /** `filter(k => k.length > 0)`. */
  function DropEmpty(parts: seq<string>): seq<string> {
    Filter(parts, IsNonEmpty)
  }

  /** A keyword the settings screen can store: non-empty, trimmed, comma-free. */
  predicate WellFormedKeyword(k: string) {
    k != [] && Trimmed(k) && ',' !in k
  }

  predicate WellFormedKeywords(ks: seq<string>) {
    forall i :: 0 <= i < |ks| ==> WellFormedKeyword(ks[i])
  }

  /** Trimming comma-free pieces and dropping the empty ones leaves well-formed keywords. */
  lemma TrimmedPiecesWellFormed(parts: seq<string>)
    requires forall i :: 0 <= i < |parts| ==> ',' !in parts[i]
    ensures WellFormedKeywords(DropEmpty(TrimAll(parts)))
  {
    var ts := TrimAll(parts);
    var ks := DropEmpty(ts);
    forall i | 0 <= i < |ks| ensures WellFormedKeyword(ks[i]) {
      assert ks[i] in ks;
      var j :| 0 <= j < |ts| && ts[j] == ks[i];
      TrimSubset(parts[j]);
    }
  }

  /** The block-keyword text box: split on commas, trim each piece, drop empties.
      Every keyword it yields is well formed. */
  function ParseKeywords(text: string): (keywords: seq<string>)
    ensures WellFormedKeywords(keywords)
  {
    TrimmedPiecesWellFormed(SplitCommas(text));
    DropEmpty(TrimAll(SplitCommas(text)))
  }

  lemma TrimAllAppend(a: seq<string>, b: seq<string>)
    ensures TrimAll(a + b) == TrimAll(a) + TrimAll(b)
  {
    MapSeqAppend(Trim, a, b);
  }

  /** The keywords of two comma-separated texts concatenate. */
  lemma ParseAtComma(a: string, b: string)
    requires ',' !in a
    ensures ParseKeywords(a + "," + b) == ParseKeywords(a) + ParseKeywords(b)
  {
    SplitAtComma(a, b);
    SplitNoComma(a);
    TrimAllAppend([a], SplitCommas(b));
    FilterAppend(TrimAll([a]), TrimAll(SplitCommas(b)), IsNonEmpty);
  }

  /** A space in front of the text joins the first piece of its split. */
  lemma SplitLeadingSpace(x: string)
    ensures SplitCommas(" " + x) == [" " + SplitCommas(x)[0]] + SplitCommas(x)[1..]
  {
    assert (" " + x)[1..] == x;
  }

  /** A space in front of the first piece does not change the trimmed pieces. */
  lemma TrimAllLeadingSpace(pieces: seq<string>)
    requires |pieces| >= 1
    ensures TrimAll([" " + pieces[0]] + pieces[1..]) == TrimAll(pieces)
  {
    TrimLeadingSpace(pieces[0]);
    MapSeqHead(Trim, [" " + pieces[0]] + pieces[1..], pieces);
  }

  /** A space in front of the text does not change the keywords. */
  lemma ParseLeadingSpace(x: string)
    ensures ParseKeywords(" " + x) == ParseKeywords(x)
  {
    SplitLeadingSpace(x);
    TrimAllLeadingSpace(SplitCommas(x));
  }

  /** A single well-formed keyword parses to itself. */
  lemma ParseSingle(k: string)
    requires WellFormedKeyword(k)
    ensures ParseKeywords(k) == [k]
  {
    SplitNoComma(k);
    var ts := TrimAll([k]);
    assert ts[0] == Trim(k) == k;
    assert ts == [k];
  }

  /** The first keyword of a ", "-joined text, and the rest. */
  lemma ParseFirstKeyword(text: string, k: string, tail: string)
    requires WellFormedKeyword(k) && text == k + ", " + tail
    ensures ParseKeywords(text) == [k] + ParseKeywords(tail)
  {
    assert text == k + "," + (" " + tail);
    ParseAtComma(k, " " + tail);
    ParseSingle(k);
    ParseLeadingSpace(tail);
  }

  /** Showing the stored keywords joined by ", " and parsing that text back
      gives the same list, provided each keyword is well formed. */
  lemma KeywordsRoundTrip(keywords: seq<string>)
    requires WellFormedKeywords(keywords)
    ensures ParseKeywords(Join(keywords, ", ")) == keywords
  {
    RoundTripFrom(keywords, 0);
  }

  /** The round trip for the keywords from index `from` on, by induction on what is left. */
  lemma {:induction false} RoundTripFrom(keywords: seq<string>, from: nat)
    requires from <= |keywords|
    requires WellFormedKeywords(keywords)
    ensures ParseKeywords(Join(keywords[from..], ", ")) == keywords[from..]
    decreases |keywords| - from
  {
    var ks := keywords[from..];
    if |ks| == 0 {
      var ts := TrimAll(SplitCommas([]));
      assert ts[0] == Trim([]) == [];
    } else if |ks| == 1 {
      ParseSingle(ks[0]);
      assert [ks[0]] == ks;
    } else if |ks| > 1 {
      assert ks[1..] == keywords[from + 1..];
      ParseFirstKeyword(Join(ks, ", "), ks[0], Join(ks[1..], ", "));
      RoundTripFrom(keywords, from + 1);
      assert [ks[0]] + ks[1..] == ks;
    }
  }

  // ---- numbers ----

  predicate IsDecimalDigit(c: char) {
    '0' <= c <= '9'
  }

  /** The value of a letter or digit as a digit in radix up to 36, as `parseInt`
      reads it; -1 for every other character. */
  function DigitValue(c: char): (v: int)
    ensures -1 <= v < 36
    ensures IsDecimalDigit(c) <==> 0 <= v < 10
  {
    if '0' <= c <= '9' then c as int - '0' as int
    else if 'a' <= c <= 'z' then c as int - 'a' as int + 10
    else if 'A' <= c <= 'Z' then c as int - 'A' as int + 10
    else -1
  }

  predicate IsRadixDigit(c: char, radix: nat) {
    0 <= DigitValue(c) < radix
  }

  /** The longest prefix of `s` made of digits of the radix. */
  function DigitPrefix(s: string, radix: nat): (z: string)
    ensures |z| <= |s| && z == s[..|z|]
    ensures forall i :: 0 <= i < |z| ==> IsRadixDigit(z[i], radix)
    ensures |z| < |s| ==> !IsRadixDigit(s[|z|], radix)
  {
    if s != [] && IsRadixDigit(s[0], radix) then [s[0]] + DigitPrefix(s[1..], radix) else []
  }

  /** The number a string of radix digits denotes, most significant first
      (only ever applied to digit strings). */
  function DigitsValue(z: string, radix: nat): nat {
    if z == [] then 0
    else
      var d := DigitValue(z[|z| - 1]);
      DigitsValue(z[..|z| - 1], radix) * radix + (if d < 0 then 0 else d)
  }

  /** The unsigned part of `parseInt`: hexadecimal after a "0x"/"0X" prefix,
      decimal otherwise, and the longest run of digits; `None` when there is none. */
  function ParseMagnitude(u: string): (m: Option<nat>)
    ensures m.Some? ==> u != [] && IsDecimalDigit(u[0])
    ensures u != [] && IsDecimalDigit(u[0]) && !(|u| >= 2 && u[0] == '0' && (u[1] == 'x' || u[1] == 'X')) ==> m.Some?
  {
    var hex := |u| >= 2 && u[0] == '0' && (u[1] == 'x' || u[1] == 'X');
    var radix := if hex then 16 else 10;
    var z := DigitPrefix(if hex then u[2..] else u, radix);
    if z == [] then None else Some(DigitsValue(z, radix))
  }

  /** Gives a read magnitude its sign. */
  function ApplySign(negative: bool, m: Option<nat>): Option<int> {
    match m
    case None => None
    case Some(v) => Some(if negative then -(v as int) else v)
  }

  /** An optional sign, then the magnitude: a number only when the text starts
      with a digit or a sign, and a non-negative one whenever it starts with a
      digit and no hexadecimal prefix. */
  function ParseSigned(t: string): (r: Option<int>)
    ensures r.Some? ==> t != [] && (IsDecimalDigit(t[0]) || t[0] == '-' || t[0] == '+')
    ensures t != [] && IsDecimalDigit(t[0]) && !(|t| >= 2 && t[0] == '0' && (t[1] == 'x' || t[1] == 'X'))
      ==> r.Some? && r.value >= 0
  {
    if t != [] && t[0] == '-' then ApplySign(true, ParseMagnitude(t[1..]))
    else if t != [] && t[0] == '+' then ApplySign(false, ParseMagnitude(t[1..]))
    else ApplySign(false, ParseMagnitude(t))
  }

  /** The global `parseInt(s)` with no radix argument: skip leading whitespace,
      take an optional sign, then read the magnitude; `None` stands for NaN. */
  function ParseInt(s: string): (r: Option<int>)
    ensures var t := TrimStart(s);
      r.Some? ==> t != [] && (IsDecimalDigit(t[0]) || t[0] == '-' || t[0] == '+')
    ensures var t := TrimStart(s);
      t != [] && IsDecimalDigit(t[0]) && !(|t| >= 2 && t[0] == '0' && (t[1] == 'x' || t[1] == 'X'))
      ==> r.Some? && r.value >= 0
  {
    var t := TrimStart(s);
    ParseSigned(t)
  }

  function DigitChar(d: nat): (c: char)
    requires d < 10
    ensures IsDecimalDigit(c) && DigitValue(c) == d
  {
    ('0' as int + d) as char
  }

  /** The decimal digits of a natural number, without leading zeros. */
  function Digits(n: nat): (ds: string)
    ensures |ds| >= 1
    ensures forall i :: 0 <= i < |ds| ==> IsDecimalDigit(ds[i])
    ensures ds[0] == '0' ==> n == 0
  {
    if n < 10 then [DigitChar(n)] else Digits(n / 10) + [DigitChar(n % 10)]
  }

  /** `n.toString()` for an integer number: a minus sign exactly for a
      negative number, then at least one decimal digit and nothing else. */
  function DecimalString(n: int): (r: string)
    ensures |r| >= 1 && (r[0] == '-' <==> n < 0)
    ensures n < 0 ==> |r| >= 2
    ensures forall i :: (if n < 0 then 1 else 0) <= i < |r| ==> IsDecimalDigit(r[i])
  {
    if n < 0 then "-" + Digits(-n) else Digits(n)
  }

  lemma {:induction false} DigitsValueOfDigits(n: nat)
    ensures DigitsValue(Digits(n), 10) == n
  {
    if n >= 10 {
      var ds := Digits(n);
      assert ds[..|ds| - 1] == Digits(n / 10);
      DigitsValueOfDigits(n / 10);
    }
  }

  lemma {:induction false} DigitPrefixOfDigits(ds: string, tail: string)
    requires forall i :: 0 <= i < |ds| ==> IsDecimalDigit(ds[i])
    requires tail == [] || !IsDecimalDigit(tail[0])
    ensures DigitPrefix(ds + tail, 10) == ds
  {
    if ds != [] {
      assert (ds + tail)[1..] == ds[1..] + tail;
      DigitPrefixOfDigits(ds[1..], tail);
      assert [ds[0]] + ds[1..] == ds;
    }
  }

  /** `tail` does not continue the number `n` written in decimal: it is empty
      or starts with a non-digit, and after a lone "0" it does not start the
      `0x` prefix that switches `parseInt` to base 16. */
  predicate StopsNumber(n: int, tail: string) {
    tail == [] || (!IsDecimalDigit(tail[0]) && (n != 0 || (tail[0] != 'x' && tail[0] != 'X')))
  }

  /** The magnitude of the digits of a natural number followed by anything that
      does not continue them is that number. */
  lemma MagnitudeOfDigits(m: nat, tail: string)
    requires StopsNumber(m, tail)
    ensures ParseMagnitude(Digits(m) + tail) == Some(m)
  {
    var ds := Digits(m);
    var u := ds + tail;
    DigitsValueOfDigits(m);
    DigitPrefixOfDigits(ds, tail);
    assert u[0] == ds[0];
    assert |u| >= 2 && u[0] == '0' ==> u[1] == tail[0];
  }

  /** Nothing is skipped in front of a character that is not whitespace. */
  lemma TrimStartNone(s: string)
    requires s != [] && !IsJsWhitespace(s[0])
    ensures TrimStart(s) == s
  {
  }

  /** Text that starts with a digit is read as an unsigned magnitude. */
  lemma ParseUnsigned(u: string)
    requires u != [] && IsDecimalDigit(u[0])
    ensures ParseInt(u) == ApplySign(false, ParseMagnitude(u))
  {
    TrimStartNone(u);
  }

  /** Text that starts with a minus sign is read as a negated magnitude. */
  lemma ParseMinus(v: string)
    requires v != [] && v[0] == '-'
    ensures ParseInt(v) == ApplySign(true, ParseMagnitude(v[1..]))
  {
    TrimStartNone(v);
  }

  /** `parseInt` reads the digits of a natural number followed by anything
      that does not continue them. */
  lemma ParseDigits(u: string, m: nat, tail: string)
    requires StopsNumber(m, tail)
    requires u == Digits(m) + tail
    ensures ParseInt(u) == Some(m)
  {
    MagnitudeOfDigits(m, tail);
    assert u[0] == Digits(m)[0];
    ParseUnsigned(u);
  }

  /** The same after a minus sign, which negates the value. */
  lemma ParseMinusDigits(v: string, m: nat, tail: string)
    requires StopsNumber(m, tail)
    requires v == "-" + (Digits(m) + tail)
    ensures ParseInt(v) == Some(-(m as int))
  {
    MagnitudeOfDigits(m, tail);
    assert v[1..] == Digits(m) + tail;
    ParseMinus(v);
  }

  /** `parseInt` reads back what `toString` wrote, and it ignores whatever
      follows the number unless that continues it ("12abc" reads as 12). */
  lemma ParseDecimalString(n: int, tail: string)
    requires StopsNumber(n, tail)
    ensures ParseInt(DecimalString(n) + tail) == Some(n)
  {
    if n < 0 {
      ParseMinusDigits(DecimalString(n) + tail, -n, tail);
    } else {
      ParseDigits(DecimalString(n) + tail, n, tail);
    }
  }
}
