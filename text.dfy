/** Text operations the core relies on: Python's `str()` of a non-negative
    integer, `'\n'.join`, the case folding behind an `istartswith` lookup
    and the code-point order used to sort names. */
module Text {
  import opened Wrappers

  predicate IsDigit(c: char) { '0' <= c <= '9' }

  function DigitChar(d: nat): (c: char)
    requires d < 10
    ensures IsDigit(c) && c as int - '0' as int == d
  {
    ('0' as int + d) as char
  }

  /** The decimal notation of `n`, as `str(n)` or an f-string writes it. */
  function DecimalString(n: nat): (s: string)
    ensures 1 <= |s|
    ensures forall i :: 0 <= i < |s| ==> IsDigit(s[i])
    ensures 1 < |s| ==> s[0] != '0'
    ensures n == 0 <==> s == "0"
  {
    if n < 10 then [DigitChar(n)] else DecimalString(n / 10) + [DigitChar(n % 10)]
  }

  /** The number a string of decimal digits denotes. */
  function DigitsValue(s: string): nat
    requires forall i :: 0 <= i < |s| ==> IsDigit(s[i])
  {
    if s == [] then 0
    else
      assert IsDigit(s[|s| - 1]);
      DigitsValue(s[..|s| - 1]) * 10 + (s[|s| - 1] as int - '0' as int) as nat
  }

  /** Reading a rendered number back gives the number. */
  lemma {:induction false} DecimalRoundTrip(n: nat)
    ensures DigitsValue(DecimalString(n)) == n
  {
    var s := DecimalString(n);
    if n >= 10 {
      DecimalRoundTrip(n / 10);
      assert s[..|s| - 1] == DecimalString(n / 10);
    }
  }

  /** Two numbers render the same only when they are equal. */
  lemma DecimalInjective(m: nat, n: nat)
    requires DecimalString(m) == DecimalString(n)
    ensures m == n
  {
    DecimalRoundTrip(m);
    DecimalRoundTrip(n);
  }

  /** `sep.join(parts)`. */
  function Join(sep: string, parts: seq<string>): (r: string)
    ensures parts == [] ==> r == ""
    ensures |parts| == 1 ==> r == parts[0]
  {
    if parts == [] then ""
    else if |parts| == 1 then parts[0]
    else parts[0] + sep + Join(sep, parts[1..])
  }

  /** Case folding of one character: ASCII letters and the basic Cyrillic
      alphabet (with Ё) fold to lower case, everything else is unchanged. */
  function FoldChar(c: char): char
  {
    if 'A' <= c <= 'Z' then (c as int + 32) as char
    else if 'А' <= c <= 'Я' then (c as int + 32) as char
    else if c == 'Ё' then 'ё'
    else c
  }

  lemma FoldCharIdempotent(c: char)
    ensures FoldChar(FoldChar(c)) == FoldChar(c)
  {
  }

  function Fold(s: string): (r: string)
    ensures |r| == |s|
    ensures forall i :: 0 <= i < |s| ==> r[i] == FoldChar(s[i])
  {
    seq(|s|, i requires 0 <= i < |s| => FoldChar(s[i]))
  }

  /** Case-insensitive "starts with" (a Django `istartswith` lookup). */
  predicate IStartsWith(s: string, prefix: string)
  {
    |prefix| <= |s| && Fold(s[..|prefix|]) == Fold(prefix)
  }

  /** The lookup ignores the case of the prefix and of the subject. */
  lemma IStartsWithIgnoresCase(s: string, prefix: string)
    ensures IStartsWith(s, prefix) <==> IStartsWith(Fold(s), Fold(prefix))
  {
    if |prefix| <= |s| {
      assert Fold(s)[..|prefix|] == Fold(s[..|prefix|]);
      assert Fold(Fold(s)[..|prefix|]) == Fold(s[..|prefix|]);
      forall c { FoldCharIdempotent(c); }
      assert Fold(Fold(prefix)) == Fold(prefix);
    }
  }

  /** Python's `str.isspace()`: the ASCII tab, line-feed, vertical-tab,
      form-feed and carriage-return controls, the four separator controls,
      the space, NEL, the no-break spaces, the Unicode space separators and
      the line and paragraph separators. */
  predicate IsSpace(c: char)
  {
    || '\t' <= c <= '\r' || '\U{1C}' <= c <= '\U{1F}' || c == ' ' || c == '\U{85}' || c == '\U{A0}'
    || c == '\U{1680}' || '\U{2000}' <= c <= '\U{200A}' || c == '\U{2028}' || c == '\U{2029}'
    || c == '\U{202F}' || c == '\U{205F}' || c == '\U{3000}'
  }

  /** `s.lstrip()`: `s` without its leading whitespace. */
  function StripStart(s: string): (r: string)
    ensures |r| <= |s| && r == s[|s| - |r|..]
    ensures forall i :: 0 <= i < |s| - |r| ==> IsSpace(s[i])
    ensures r == [] || !IsSpace(r[0])
  {
    if s == [] || !IsSpace(s[0]) then s else StripStart(s[1..])
  }

  /** `s.rstrip()`: `s` without its trailing whitespace. */
  function StripEnd(s: string): (r: string)
    ensures |r| <= |s| && r == s[..|r|]
    ensures forall i :: |r| <= i < |s| ==> IsSpace(s[i])
    ensures r == [] || !IsSpace(r[|r| - 1])
  {
    if s == [] || !IsSpace(s[|s| - 1]) then s else StripEnd(s[..|s| - 1])
  }

  /** `s.strip()`: the run of `s` that follows its leading whitespace and
      precedes its trailing whitespace; it neither starts nor ends with
      whitespace. */
  function Strip(s: string): (r: string)
    ensures var lead := |s| - |StripStart(s)|;
      && lead + |r| <= |s| && r == s[lead..lead + |r|]
      && forall i :: lead + |r| <= i < |s| ==> IsSpace(s[i])
    ensures r == [] || (!IsSpace(r[0]) && !IsSpace(r[|r| - 1]))
  {
    StripEnd(StripStart(s))
  }

  /** A value strips to nothing exactly when it is all whitespace. */
  lemma StripEmpty(s: string)
    ensures Strip(s) == [] <==> forall i :: 0 <= i < |s| ==> IsSpace(s[i])
  {
    var t := StripStart(s);
    var lead := |s| - |t|;
    if Strip(s) == [] {
      assert |t| == 0;
    } else if t != [] {
      assert s[lead] == t[0];
    }
  }

  /** Stripping a stripped string changes nothing. */
  lemma StripIdempotent(s: string)
    ensures Strip(Strip(s)) == Strip(s)
  {
    var r := Strip(s);
    if r != [] {
      assert StripStart(r) == r;
      assert StripEnd(r) == r;
    }
  }

  lemma {:induction false} StripSnoc(x: string, c: char)
    requires IsSpace(c)
    ensures Strip(x + [c]) == Strip(x)
  {
    if x == [] {
      assert StripStart([c]) == StripStart([]);
    } else if !IsSpace(x[0]) {
      assert StripStart(x + [c]) == x + [c];
      assert StripEnd(x + [c]) == StripEnd(x) by {
        assert (x + [c])[..|x + [c]| - 1] == x;
      }
    } else {
      assert StripStart(x + [c]) == StripStart(x[1..] + [c]) by {
        assert (x + [c])[1..] == x[1..] + [c];
      }
      StripSnoc(x[1..], c);
    }
  }

  lemma {:induction false} StripLeading(pad: string, s: string)
    requires forall i :: 0 <= i < |pad| ==> IsSpace(pad[i])
    ensures Strip(pad + s) == Strip(s)
  {
    if pad != [] {
      assert StripStart(pad + s) == StripStart(pad[1..] + s) by {
        assert (pad + s)[1..] == pad[1..] + s;
      }
      StripLeading(pad[1..], s);
    } else {
      assert pad + s == s;
    }
  }

  lemma {:induction false} StripTrailing(s: string, tail: string)
    requires forall i :: 0 <= i < |tail| ==> IsSpace(tail[i])
    ensures Strip(s + tail) == Strip(s)
  {
    if tail != [] {
      var n := |tail| - 1;
      assert s + tail == (s + tail[..n]) + [tail[n]];
      StripSnoc(s + tail[..n], tail[n]);
      StripTrailing(s, tail[..n]);
    } else {
      assert s + tail == s;
    }
  }

  /** Whitespace added around a string is stripped again. */
  lemma StripPadding(pad: string, s: string, tail: string)
    requires forall i :: 0 <= i < |pad| ==> IsSpace(pad[i])
    requires forall i :: 0 <= i < |tail| ==> IsSpace(tail[i])
    ensures Strip(pad + s + tail) == Strip(s)
  {
    assert pad + s + tail == pad + (s + tail);
    StripLeading(pad, s + tail);
    StripTrailing(s, tail);
  }

  /** Code-point lexicographic order on strings. */
  predicate LexLe(a: string, b: string)
  {
    a == [] || (b != [] && (a[0] < b[0] || (a[0] == b[0] && LexLe(a[1..], b[1..]))))
  }

  lemma {:induction false} LexLeTotal(a: string, b: string)
    ensures LexLe(a, b) || LexLe(b, a)
  {
    if a != [] && b != [] && a[0] == b[0] {
      LexLeTotal(a[1..], b[1..]);
    }
  }

  lemma {:induction false} LexLeTransitive(a: string, b: string, c: string)
    requires LexLe(a, b) && LexLe(b, c)
    ensures LexLe(a, c)
  {
    if a != [] && b != [] && c != [] && a[0] == b[0] == c[0] {
      LexLeTransitive(a[1..], b[1..], c[1..]);
    }
  }

  predicate AllDigits(s: string)
  {
    forall i :: 0 <= i < |s| ==> IsDigit(s[i])
  }

  /** `int(s)` on an optionally signed run of decimal digits; anything else
      raises, which is None here. */
  function ParseInt(s: string): (r: Option<int>)
  {
    if |s| > 0 && (s[0] == '-' || s[0] == '+') then
      if |s| > 1 && AllDigits(s[1..]) then
        Some(if s[0] == '-' then -(DigitsValue(s[1..]) as int) else DigitsValue(s[1..]))
      else None
    else if |s| > 0 && AllDigits(s) then Some(DigitsValue(s))
    else None
  }

  /** Reading back a rendered number, with or without a minus sign. */
  lemma ParseIntRoundTrip(n: nat)
    ensures ParseInt(DecimalString(n)) == Some(n)
    ensures ParseInt("-" + DecimalString(n)) == Some(-(n as int))
  {
    DecimalRoundTrip(n);
    assert ("-" + DecimalString(n))[1..] == DecimalString(n);
  }

  /** `str(n)` of any integer. */
  function IntString(n: int): string
  {
    if n < 0 then "-" + DecimalString(-n) else DecimalString(n)
  }

  /** Reading a rendered integer back gives the integer. */
  lemma IntStringRoundTrip(n: int)
    ensures ParseInt(IntString(n)) == Some(n)
  {
    if n < 0 {
      ParseIntRoundTrip(-n);
    } else {
      ParseIntRoundTrip(n);
    }
  }

  /** `s.split(sep)` for a one-character separator. */
  function Split(s: string, sep: char): (parts: seq<string>)
    ensures |parts| >= 1
  {
    if s == [] then [""]
    else if s[0] == sep then [""] + Split(s[1..], sep)
    else
      var rest := Split(s[1..], sep);
      [[s[0]] + rest[0]] + rest[1..]
  }

  lemma {:induction false} SplitNoSep(s: string, sep: char, tail: string)
    requires sep !in s
    ensures Split(s + [sep] + tail, sep) == [s] + Split(tail, sep)
    ensures Split(s, sep) == [s]
  {
    if s != [] {
      assert (s + [sep] + tail)[1..] == s[1..] + [sep] + tail;
      SplitNoSep(s[1..], sep, tail);
      assert [s[0]] + s[1..] == s;
    } else {
      assert s + [sep] + tail == [sep] + tail;
    }
  }

  /** Splitting a join on its separator gives the parts back, when no part
      contains the separator. */
  lemma {:induction false} SplitJoin(parts: seq<string>, sep: char)
    requires |parts| >= 1
    requires forall p :: p in parts ==> sep !in p
    ensures Split(Join([sep], parts), sep) == parts
  {
    if |parts| == 1 {
      SplitNoSep(parts[0], sep, "");
    } else {
      SplitJoin(parts[1..], sep);
      SplitNoSep(parts[0], sep, Join([sep], parts[1..]));
      assert parts == [parts[0]] + parts[1..];
    }
  }
}
