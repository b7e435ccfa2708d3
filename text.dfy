/** The Go standard-library string routines the runner relies on:
    strings.Split and strings.Join with a one-rune separator,
    strings.TrimSpace, strings.Fields, strings.ToUpper, strconv.Atoi and the
    %d verb of fmt. A Go string is modelled as its sequence of runes. */
module Text {
  import opened Wrappers

  // ---------------------------------------------------------------------
  // Runes

  /** unicode.IsSpace: the Latin-1 spaces and the other code points of the
      Unicode White_Space property. */
  predicate IsSpace(c: char)
  {
    || c == ' ' || c == '\t' || c == '\n' || c == '\U{0B}' || c == '\U{0C}' || c == '\r'
    || c == '\U{85}' || c == '\U{A0}' || c == '\U{1680}'
    || ('\U{2000}' <= c <= '\U{200A}')
    || c == '\U{2028}' || c == '\U{2029}' || c == '\U{202F}' || c == '\U{205F}' || c == '\U{3000}'
  }

  predicate AllSpace(s: string)
  {
    forall i :: 0 <= i < |s| ==> IsSpace(s[i])
  }

  /** A non-empty run of non-space runes: what strings.Fields yields. */
  predicate IsWord(w: string)
  {
    w != [] && forall i :: 0 <= i < |w| ==> !IsSpace(w[i])
  }

  /** unicode.ToUpper as far as it can matter here: the ASCII letters, and the
      two non-ASCII runes whose upper case is an ASCII letter (dotless i and
      long s). */
  function UpperRune(c: char): char
  {
    if 'a' <= c <= 'z' then (c as int - 32) as char
    else if c == '\U{131}' then 'I'
    else if c == '\U{17F}' then 'S'
    else c
  }

  /** strings.ToUpper: every rune mapped through UpperRune, so the result is
      as long as the input. */
  function ToUpper(s: string): (u: string)
    ensures |u| == |s|
  {
    seq(|s|, i requires 0 <= i < |s| => UpperRune(s[i]))
  }

  /** The upper-cased text holds no lower-case ASCII letter, and every rune
      that is not a letter (spaces, digits, '/', '=') stays where it was. */
  lemma ToUpperRunes(s: string)
    ensures forall i :: 0 <= i < |s| ==> !('a' <= ToUpper(s)[i] <= 'z')
    ensures forall i :: 0 <= i < |s| && !('a' <= s[i] <= 'z') && s[i] != '\U{131}' && s[i] != '\U{17F}'
                        ==> ToUpper(s)[i] == s[i]
  {
  }

  lemma ToUpperConcat(a: string, b: string)
    ensures ToUpper(a + b) == ToUpper(a) + ToUpper(b)
  {
    assert forall i :: 0 <= i < |a + b| ==> ToUpper(a + b)[i] == (ToUpper(a) + ToUpper(b))[i];
  }

  /** Upper-casing twice is upper-casing once. */
  lemma ToUpperIdempotent(s: string)
    ensures ToUpper(ToUpper(s)) == ToUpper(s)
  {
    ToUpperFixed(ToUpper(s));
  }

  /** Text already in upper case (spaces, digits, capitals) is left alone. */
  lemma ToUpperFixed(s: string)
    requires forall i :: 0 <= i < |s| ==> UpperRune(s[i]) == s[i]
    ensures ToUpper(s) == s
  {
  }

  // ---------------------------------------------------------------------
  // strings.Split and strings.Join with a one-rune separator

  /** strings.Split(s, sep): the pieces between separators, in order; an empty
      string splits into one empty piece, and a separator at either end gives
      an empty piece there. */
  function Split(s: string, sep: char): (parts: seq<string>)
    ensures |parts| >= 1
  {
    if s == [] then [""]
    else
      var rest := Split(s[1..], sep);
      if s[0] == sep then [""] + rest
      else [[s[0]] + rest[0]] + rest[1..]
  }

  /** No piece of a split holds the separator. */
  lemma {:induction false} SplitPiecesFree(s: string, sep: char)
    ensures forall i :: 0 <= i < |Split(s, sep)| ==> sep !in Split(s, sep)[i]
  {
    if s != [] {
      var rest := Split(s[1..], sep);
      var parts := Split(s, sep);
      SplitPiecesFree(s[1..], sep);
      if s[0] == sep {
        assert forall i :: 1 <= i < |parts| ==> parts[i] == rest[i - 1];
      } else {
        assert forall i :: 1 <= i < |parts| ==> parts[i] == rest[i];
        assert sep !in [s[0]] + rest[0];
      }
    }
  }

  /** A text splits into two or more pieces exactly when it holds the separator. */
  lemma {:induction false} SplitCount(s: string, sep: char)
    ensures sep in s <==> |Split(s, sep)| >= 2
  {
    if s != [] {
      SplitCount(s[1..], sep);
      assert sep in s <==> s[0] == sep || sep in s[1..] by {
        assert s == [s[0]] + s[1..];
      }
    }
  }

  /** The first piece is the text up to the first separator, so a prefix of it. */
  lemma {:induction false} SplitFirstPrefix(s: string, sep: char)
    ensures Split(s, sep)[0] <= s
  {
    if s != [] && s[0] != sep {
      SplitFirstPrefix(s[1..], sep);
      assert s == [s[0]] + s[1..];
    }
  }

  /** strings.Join(parts, string(sep)). */
  function Join(parts: seq<string>, sep: char): string
  {
    if parts == [] then ""
    else if |parts| == 1 then parts[0]
    else parts[0] + [sep] + Join(parts[1..], sep)
  }

  /** Joining the pieces of a split with the same separator gives back the text. */
  lemma {:induction false} JoinSplit(s: string, sep: char)
    ensures Join(Split(s, sep), sep) == s
  {
    if s != [] {
      var rest := Split(s[1..], sep);
      JoinSplit(s[1..], sep);
      if s[0] == sep {
        JoinFront("", rest, sep);
      } else {
        JoinWidenFirst([s[0]], rest, sep);
      }
      assert s == [s[0]] + s[1..];
    }
  }

  /** Joining a piece in front of a non-empty list adds it and one separator. */
  lemma JoinFront(p: string, parts: seq<string>, sep: char)
    requires parts != []
    ensures Join([p] + parts, sep) == p + [sep] + Join(parts, sep)
  {
    assert ([p] + parts)[1..] == parts;
  }

  /** Text put before the first piece comes first in the join. */
  lemma JoinWidenFirst(c: string, parts: seq<string>, sep: char)
    requires parts != []
    ensures Join([c + parts[0]] + parts[1..], sep) == c + Join(parts, sep)
  {
    if |parts| > 1 {
      JoinFront(c + parts[0], parts[1..], sep);
      JoinFront(parts[0], parts[1..], sep);
      assert parts == [parts[0]] + parts[1..];
    } else {
      assert [c + parts[0]] + parts[1..] == [c + parts[0]];
    }
  }

  lemma {:induction false} SplitNoSeparator(a: string, sep: char)
    requires sep !in a
    ensures Split(a, sep) == [a]
  {
    if a != [] {
      SplitNoSeparator(a[1..], sep);
      assert a == [a[0]] + a[1..];
    }
  }

  /** The first piece ends at the first separator. */
  lemma {:induction false} SplitAtSeparator(a: string, b: string, sep: char)
    requires sep !in a
    ensures Split(a + [sep] + b, sep) == [a] + Split(b, sep)
  {
    if a == [] {
      assert (a + [sep] + b)[1..] == b;
    } else {
      SplitAtSeparator(a[1..], b, sep);
      assert (a + [sep] + b)[1..] == a[1..] + [sep] + b;
      assert a == [a[0]] + a[1..];
    }
  }

  /** Splitting a join of separator-free pieces gives back the pieces. */
  lemma {:induction false} SplitJoin(parts: seq<string>, sep: char)
    requires |parts| >= 1
    requires forall i :: 0 <= i < |parts| ==> sep !in parts[i]
    ensures Split(Join(parts, sep), sep) == parts
  {
    if |parts| == 1 {
      SplitNoSeparator(parts[0], sep);
    } else {
      SplitJoin(parts[1..], sep);
      SplitAtSeparator(parts[0], Join(parts[1..], sep), sep);
    }
  }

  lemma JoinCons(ws: seq<string>, sep: char)
    requires |ws| > 1
    ensures Join(ws, sep) == ws[0] + ([sep] + Join(ws[1..], sep))
  {
  }

  // ---------------------------------------------------------------------
  // strings.TrimSpace

  /** Drops the leading spaces: the longest suffix that does not start with one. */
  function TrimLeftSpace(s: string): (r: string)
    ensures |r| <= |s| && r == s[|s| - |r|..]
    ensures r == [] || !IsSpace(r[0])
  {
    if s == [] || !IsSpace(s[0]) then s else TrimLeftSpace(s[1..])
  }

  /** Drops the trailing spaces: the longest prefix that does not end with one. */
  function TrimRightSpace(s: string): (r: string)
    ensures |r| <= |s| && r == s[..|r|]
    ensures r == [] || !IsSpace(r[|r| - 1])
  {
    if s == [] || !IsSpace(s[|s| - 1]) then s else TrimRightSpace(s[..|s| - 1])
  }

  /** strings.TrimSpace. */
  function TrimSpace(s: string): (r: string)
    ensures r == [] || (!IsSpace(r[0]) && !IsSpace(r[|r| - 1]))
  {
    TrimRightSpace(TrimLeftSpace(s))
  }

  lemma {:induction false} TrimLeftPadded(w: string, s: string)
    requires AllSpace(w)
    ensures TrimLeftSpace(w + s) == TrimLeftSpace(s)
  {
    if w == [] {
      assert w + s == s;
    } else {
      var ws := w + s;
      assert ws[1..] == w[1..] + s;
      assert IsSpace(ws[0]);
      TrimLeftPadded(w[1..], s);
    }
  }

  lemma {:induction false} TrimRightPadded(s: string, w: string)
    requires AllSpace(w)
    ensures TrimRightSpace(s + w) == TrimRightSpace(s)
  {
    if w == [] {
      assert s + w == s;
    } else {
      var w' := w[..|w| - 1];
      assert IsSpace((s + w)[|s + w| - 1]);
      TrimRightPadded(s, w');
      assert (s + w)[..|s + w| - 1] == s + w';
    }
  }

  lemma {:induction false} TrimLeftAppend(s: string, w: string)
    requires TrimLeftSpace(s) != []
    ensures TrimLeftSpace(s + w) == TrimLeftSpace(s) + w
  {
    assert s != [];
    if IsSpace(s[0]) {
      assert (s + w)[1..] == s[1..] + w;
      TrimLeftAppend(s[1..], w);
    } else {
      assert (s + w)[0] == s[0];
    }
  }

  /** TrimLeftSpace removes everything exactly when everything is space. */
  lemma {:induction false} TrimLeftAllSpace(w: string)
    ensures TrimLeftSpace(w) == [] <==> AllSpace(w)
  {
    if w != [] && IsSpace(w[0]) {
      assert AllSpace(w) <==> AllSpace(w[1..]) by {
        assert forall i :: 1 <= i < |w| ==> w[i] == w[1..][i - 1];
      }
      TrimLeftAllSpace(w[1..]);
    }
  }

  /** Spaces around a text do not change what TrimSpace makes of it. */
  lemma TrimSpacePadded(w1: string, s: string, w2: string)
    requires AllSpace(w1) && AllSpace(w2)
    ensures TrimSpace(w1 + s + w2) == TrimSpace(s)
  {
    var sw := s + w2;
    assert TrimLeftSpace(w1 + s + w2) == TrimLeftSpace(sw) by {
      assert w1 + s + w2 == w1 + sw;
      TrimLeftPadded(w1, sw);
    }
    TrimLeftThenRightPadded(s, w2);
  }

  /** Trailing spaces do not change what TrimSpace makes of a text. */
  lemma TrimLeftThenRightPadded(s: string, w: string)
    requires AllSpace(w)
    ensures TrimRightSpace(TrimLeftSpace(s + w)) == TrimRightSpace(TrimLeftSpace(s))
  {
    if TrimLeftSpace(s) == [] {
      AllSpaceAppend(s, w);
    } else {
      TrimLeftAppend(s, w);
      TrimRightPadded(TrimLeftSpace(s), w);
    }
  }

  /** A text that trims to nothing stays so with trailing spaces. */
  lemma AllSpaceAppend(s: string, w: string)
    requires AllSpace(w) && TrimLeftSpace(s) == []
    ensures TrimLeftSpace(s + w) == []
  {
    TrimLeftAllSpace(s);
    assert forall i :: 0 <= i < |s + w| ==> (s + w)[i] == (if i < |s| then s[i] else w[i - |s|]);
    TrimLeftAllSpace(s + w);
  }

  /** A text with no space at either end is its own TrimSpace. */
  lemma TrimSpaceUnpadded(s: string)
    requires s != [] && !IsSpace(s[0]) && !IsSpace(s[|s| - 1])
    ensures TrimSpace(s) == s
  {
  }

  // ---------------------------------------------------------------------
  // strings.Fields

  /** The longest prefix without a space. */
  function TakeWord(s: string): (w: string)
    ensures w <= s
    ensures s != [] && !IsSpace(s[0]) ==> w != []
  {
    if s == [] || IsSpace(s[0]) then "" else [s[0]] + TakeWord(s[1..])
  }

  /** strings.Fields: the maximal runs of non-space runes, in order. There
      are none exactly when nothing is left once the leading spaces are gone. */
  function Fields(s: string): (fs: seq<string>)
    ensures fs == [] <==> TrimLeftSpace(s) == []
    decreases |s|
  {
    var t := TrimLeftSpace(s);
    if t == [] then []
    else
      var w := TakeWord(t);
      [w] + Fields(t[|w|..])
  }

  /** A text has no fields exactly when it is all space. */
  lemma FieldsNoneIff(s: string)
    ensures Fields(s) == [] <==> AllSpace(s)
  {
    TrimLeftAllSpace(s);
  }

  /** TakeWord stops at the first space. */
  lemma {:induction false} TakeWordIsWord(s: string)
    ensures forall i :: 0 <= i < |TakeWord(s)| ==> !IsSpace(TakeWord(s)[i])
    ensures |TakeWord(s)| == |s| || IsSpace(s[|TakeWord(s)|])
  {
    if s != [] && !IsSpace(s[0]) {
      TakeWordIsWord(s[1..]);
      assert TakeWord(s) == [s[0]] + TakeWord(s[1..]);
    }
  }

  /** Every field is a word. */
  lemma {:induction false} FieldsAreWords(s: string)
    ensures forall i :: 0 <= i < |Fields(s)| ==> IsWord(Fields(s)[i])
    decreases |s|
  {
    var t := TrimLeftSpace(s);
    if t != [] {
      var w := TakeWord(t);
      var rest := Fields(t[|w|..]);
      var fs := Fields(s);
      assert fs == [w] + rest;
      assert IsWord(w) by {
        TakeWordIsWord(t);
      }
      FieldsAreWords(t[|w|..]);
      forall i | 0 <= i < |fs|
        ensures IsWord(fs[i])
      {
        if i > 0 {
          assert fs[i] == rest[i - 1];
        }
      }
    }
  }

  lemma {:induction false} TakeWordStops(w: string, r: string)
    requires forall i :: 0 <= i < |w| ==> !IsSpace(w[i])
    requires r == [] || IsSpace(r[0])
    ensures TakeWord(w + r) == w
  {
    if w != [] {
      TakeWordStops(w[1..], r);
      assert (w + r)[1..] == w[1..] + r;
      assert w == [w[0]] + w[1..];
    }
  }

  /** Leading spaces do not change the fields. */
  lemma FieldsAfterSpace(c: char, rest: string)
    requires IsSpace(c)
    ensures Fields([c] + rest) == Fields(rest)
  {
    assert ([c] + rest)[1..] == rest;
    assert TrimLeftSpace([c] + rest) == TrimLeftSpace(rest);
  }

  /** A space-free prefix of a text lies within its first word. */
  lemma {:induction false} TakeWordPrefix(w: string, s: string)
    requires w <= s
    requires forall i :: 0 <= i < |w| ==> !IsSpace(w[i])
    ensures w <= TakeWord(s)
  {
    if w != [] {
      TakeWordPrefix(w[1..], s[1..]);
    }
  }

  /** A word followed by a space-led remainder is the first field. */
  lemma FieldsAfterWord(w: string, rest: string)
    requires IsWord(w)
    requires rest == [] || IsSpace(rest[0])
    ensures Fields(w + rest) == [w] + Fields(rest)
  {
    var s := w + rest;
    assert TrimLeftSpace(s) == s;
    TakeWordStops(w, rest);
    assert s[|w|..] == rest;
  }

  /** Words joined by single spaces split back into the same words. */
  lemma {:induction false} FieldsOfJoin(ws: seq<string>)
    requires forall i :: 0 <= i < |ws| ==> IsWord(ws[i])
    ensures Fields(Join(ws, ' ')) == ws
  {
    if |ws| == 1 {
      FieldsAfterWord(ws[0], "");
      assert ws[0] + "" == ws[0];
    } else if |ws| > 1 {
      var w, tail := ws[0], ws[1..];
      var rest := Join(tail, ' ');
      var spaced: string := [' '] + rest;
      JoinCons(ws, ' ');
      assert forall i :: 0 <= i < |tail| ==> tail[i] == ws[i + 1];
      calc {
        Fields(Join(ws, ' '));
        Fields(w + spaced);
        { FieldsAfterWord(w, spaced); }
        [w] + Fields(spaced);
        { FieldsAfterSpace(' ', rest); }
        [w] + Fields(rest);
        { FieldsOfJoin(tail); }
        [w] + tail;
        ws;
      }
    }
  }

  // ---------------------------------------------------------------------
  // Decimal integers: strconv.Atoi and fmt's %d

  const MinInt64: int := -0x8000_0000_0000_0000
  const MaxInt64: int := 0x7FFF_FFFF_FFFF_FFFF

  predicate IsDigit(c: char)
  {
    '0' <= c <= '9'
  }

  predicate AllDigits(s: string)
  {
    forall i :: 0 <= i < |s| ==> IsDigit(s[i])
  }

  /** The value of a string of decimal digits, most significant first. */
  function DigitsValue(ds: string): nat
    requires AllDigits(ds)
  {
    if ds == [] then 0
    else DigitsValue(ds[..|ds| - 1]) * 10 + (ds[|ds| - 1] as int - '0' as int)
  }

  /** Text of a decimal integer: an optional sign, then one or more digits. */
  predicate IsIntText(s: string)
  {
    if s != [] && (s[0] == '+' || s[0] == '-') then |s| >= 2 && AllDigits(s[1..])
    else s != [] && AllDigits(s)
  }

  /** The value such text denotes: its digits, negated after a '-'. */
  function IntValue(s: string): int
    requires IsIntText(s)
  {
    var magnitude: int := if s[0] == '+' || s[0] == '-' then DigitsValue(s[1..]) else DigitsValue(s);
    if s[0] == '-' then -magnitude else magnitude
  }

  /** Leading zeros do not change the value of a digit string. */
  lemma {:induction false} LeadingZero(ds: string)
    requires AllDigits(ds)
    ensures AllDigits("0" + ds) && DigitsValue("0" + ds) == DigitsValue(ds)
  {
    if ds != [] {
      LeadingZero(ds[..|ds| - 1]);
      assert ("0" + ds)[..|ds|] == "0" + ds[..|ds| - 1];
    }
  }

  /** strconv.Atoi with Go's 64-bit int: an optional '+' or '-', then one or
      more ASCII digits (leading zeros allowed), whose value fits in int64;
      anything else is an error. */
  function Atoi(s: string): (r: Option<int>)
    ensures r.Some? ==> s != [] && (IsDigit(s[0]) || s[0] == '+' || s[0] == '-') && AllDigits(s[1..])
    ensures r.Some? ==> MinInt64 <= r.value <= MaxInt64
    ensures r.Some? <==> IsIntText(s) && MinInt64 <= IntValue(s) <= MaxInt64
    ensures r.Some? ==> r.value == IntValue(s)
  {
    if s == [] then None
    else
      var digits := if s[0] == '+' || s[0] == '-' then s[1..] else s;
      if digits == [] || !AllDigits(digits) then None
      else
        var magnitude: int := DigitsValue(digits);
        var v := if s[0] == '-' then -magnitude else magnitude;
        if MinInt64 <= v <= MaxInt64 then Some(v) else None
  }

  function DigitChar(d: nat): (c: char)
    requires d < 10
    ensures IsDigit(c)
  {
    ('0' as int + d) as char
  }

  /** The decimal digits of n, without leading zeros; they read back as n. */
  function NatToDecimal(n: nat): (s: string)
    ensures s != [] && AllDigits(s)
    ensures DigitsValue(s) == n
    ensures s == "0" || s[0] != '0'
  {
    if n < 10 then [DigitChar(n)]
    else
      var s := NatToDecimal(n / 10) + [DigitChar(n % 10)];
      assert s[..|s| - 1] == NatToDecimal(n / 10);
      s
  }

  /** fmt's %d for an int. */
  function Decimal(n: int): (s: string)
    ensures '\n' !in s && '/' !in s && ' ' !in s
  {
    if n < 0 then "-" + NatToDecimal(-n) else NatToDecimal(n)
  }

  /** What %d prints, Atoi reads back, for every int64 value. */
  lemma AtoiDecimal(n: int)
    requires MinInt64 <= n <= MaxInt64
    ensures Atoi(Decimal(n)) == Some(n)
  {
    var d := NatToDecimal(if n < 0 then -n else n);
    if n < 0 {
      assert ("-" + d)[1..] == d;
    } else {
      assert IsDigit(d[0]);
    }
  }
}
