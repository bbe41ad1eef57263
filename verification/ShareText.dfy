/** The printed form of a key share, "fvs1-<x>-<y in hex>", and the parser that accepts it back. */
module ShareText {
  import opened Collections

  const SHARE_PREFIX := "fvs1"

  /** What `int` skips around a number. */
  predicate IsSpace(c: char) { c in {' ', '\t', '\n', '\r', 11 as char, 12 as char} }

  /** What `strip` takes off a text. */
  predicate IsWhite(c: char) { IsSpace(c) || 28 as char <= c <= 31 as char }

  function LeftTrim(s: string, blank: char -> bool): string {
    if s != "" && blank(s[0]) then LeftTrim(s[1..], blank) else s
  }

  function RightTrim(s: string, blank: char -> bool): string {
    if s != "" && blank(s[|s| - 1]) then RightTrim(s[..|s| - 1], blank) else s
  }

  function Trim(s: string, blank: char -> bool): string { RightTrim(LeftTrim(s, blank), blank) }

  function Strip(s: string): string { Trim(s, IsWhite) }

  function Split(s: string, sep: char): (parts: seq<string>)
    ensures parts != []
  {
    if s == "" then [""]
    else if s[0] == sep then [""] + Split(s[1..], sep)
    else
      var rest := Split(s[1..], sep);
      [[s[0]] + rest[0]] + rest[1..]
  }

  function DigitChar(d: nat): char
    requires d < 16
  {
    "0123456789abcdef"[d]
  }

  function DigitValue(c: char): Option<nat> {
    if '0' <= c <= '9' then Some(c as int - '0' as int)
    else if 'a' <= c <= 'f' then Some(c as int - 'a' as int + 10)
    else if 'A' <= c <= 'F' then Some(c as int - 'A' as int + 10)
    else None
  }

  /** `n` in base `base`, lower-case, without leading zeros. */
  function Digits(n: nat, base: nat): (s: string)
    requires 2 <= base <= 16
    ensures s != ""
  {
    (if n < base then "" else Digits(n / base, base)) + [DigitChar(n % base)]
  }

  /** Digits with single underscores allowed between them; `open` says that a digit was just read. */
  function ReadDigits(s: string, base: nat, acc: nat, open: bool): Option<nat> {
    if s == "" then (if open then Some(acc) else None)
    else if s[0] == '_' then (if open then ReadDigits(s[1..], base, acc, false) else None)
    else
      match DigitValue(s[0])
      case None => None
      case Some(d) => if d < base then ReadDigits(s[1..], base, acc * base + d, true) else None
  }

  /** What `int(s, base)` makes of ASCII text in base 10 or 16. */
  function ReadInt(s: string, base: nat): Option<int> {
    var t := Trim(s, IsSpace);
    var negative := t != "" && t[0] == '-';
    var u := if t != "" && t[0] in {'+', '-'} then t[1..] else t;
    var prefixed := base == 16 && |u| >= 2 && u[0] == '0' && u[1] in {'x', 'X'};
    var v := if prefixed then (if |u| > 2 && u[2] == '_' then u[3..] else u[2..]) else u;
    match ReadDigits(v, base, 0, false)
    case None => None
    case Some(n) => var value: int := if negative then -(n as int) else n; Some(value)
  }

  function PrintShare(x: nat, y: nat): string {
    SHARE_PREFIX + "-" + Digits(x, 10) + "-" + Digits(y, 16)
  }

  /** The coordinates of a share, or nothing when it is malformed. */
  function ParseShare(share: string): Option<(int, int)> {
    var parts := Split(Strip(share), '-');
    if |parts| != 3 || parts[0] != SHARE_PREFIX then None
    else
      match (ReadInt(parts[1], 10), ReadInt(parts[2], 16))
      case (Some(x), Some(y)) => Some((x, y))
      case _ => None
  }

  // ---- Reading back what was printed ----

  predicate AllDigits(s: string, base: nat) {
    forall i :: 0 <= i < |s| ==> DigitValue(s[i]).Some? && DigitValue(s[i]).value < base
  }

  lemma DigitCharValue(d: nat)
    requires d < 16
    ensures DigitValue(DigitChar(d)) == Some(d)
  {
  }

  lemma {:induction false} DigitsAreDigits(n: nat, base: nat)
    requires 2 <= base <= 16
    ensures AllDigits(Digits(n, base), base)
  {
    DigitCharValue(n % base);
    if n >= base {
      Quotients(n, base);
      DigitsAreDigits(n / base, base);
    }
  }

  lemma DigitIsPlain(c: char)
    requires DigitValue(c).Some?
    ensures !IsSpace(c) && !IsWhite(c) && c != '-' && c != '_' && c != '+' && c != 'x' && c != 'X'
  {
  }

  /** Reading more digits after some digits. */
  lemma {:induction false} ReadMore(s: string, c: char, base: nat, acc: nat, open: bool)
    requires AllDigits(s, base) && DigitValue(c).Some? && DigitValue(c).value < base
    requires s != "" ==> ReadDigits(s, base, acc, open).Some?
    ensures ReadDigits(s + [c], base, acc, open)
         == Some((if s == "" then acc else ReadDigits(s, base, acc, open).value) * base + DigitValue(c).value)
  {
    hide DigitValue;
    DigitIsPlain(c);
    if s == "" {
      assert (s + [c])[1..] == "";
    } else {
      DigitIsPlain(s[0]);
      assert (s + [c])[1..] == s[1..] + [c];
      ReadMore(s[1..], c, base, acc * base + DigitValue(s[0]).value, true);
    }
  }

  lemma {:induction false} DigitsRoundTrip(n: nat, base: nat)
    requires 2 <= base <= 16
    ensures ReadDigits(Digits(n, base), base, 0, false) == Some(n)
  {
    hide ReadDigits, DigitValue, DigitChar, AllDigits;
    if n < base {
      ReadOne(n, base);
      assert Digits(n, base) == [DigitChar(n)];
    } else {
      Quotients(n, base);
      DigitsRoundTrip(n / base, base);
      DigitsAreDigits(n / base, base);
      ReadLast(Digits(n / base, base), n, base);
    }
  }

  lemma Quotients(n: nat, base: nat)
    requires n >= base >= 2
    ensures 0 < n / base < n
  {
  }

  lemma ReadOne(n: nat, base: nat)
    requires n < base <= 16
    ensures ReadDigits([DigitChar(n)], base, 0, false) == Some(n)
  {
    DigitCharValue(n);
    ReadMore("", DigitChar(n), base, 0, false);
    assert "" + [DigitChar(n)] == [DigitChar(n)];
  }

  lemma ReadLast(front: string, n: nat, base: nat)
    requires 2 <= base <= 16 && front != "" && AllDigits(front, base)
    requires ReadDigits(front, base, 0, false) == Some(n / base)
    ensures ReadDigits(front + [DigitChar(n % base)], base, 0, false) == Some(n)
  {
    DigitCharValue(n % base);
    hide ReadDigits, DigitValue, DigitChar, AllDigits;
    ReadMore(front, DigitChar(n % base), base, 0, false);
    DivMod(n, base);
  }

  lemma DivMod(n: nat, base: nat)
    requires base > 0
    ensures n == (n / base) * base + n % base
  {
  }

  lemma TrimNothing(s: string, blank: char -> bool)
    requires s != "" && !blank(s[0]) && !blank(s[|s| - 1])
    ensures Trim(s, blank) == s
  {
  }

  lemma ReadPrinted(n: nat, base: nat)
    requires base == 10 || base == 16
    ensures ReadInt(Digits(n, base), base) == Some(n)
  {
    var s := Digits(n, base);
    DigitsAreDigits(n, base);
    DigitIsPlain(s[0]);
    DigitIsPlain(s[|s| - 1]);
    if |s| > 1 {
      DigitIsPlain(s[1]);
    }
    TrimNothing(s, IsSpace);
    DigitsRoundTrip(n, base);
  }

  lemma {:induction false} SplitOff(a: string, b: string, sep: char)
    requires sep !in a
    ensures Split(a + [sep] + b, sep) == [a] + Split(b, sep)
  {
    if a == "" {
      assert (a + [sep] + b)[1..] == b;
    } else {
      assert a[0] != sep && [a[0]] + a[1..] == a;
      assert (a + [sep] + b)[1..] == a[1..] + [sep] + b;
      SplitOff(a[1..], b, sep);
    }
  }

  lemma {:induction false} SplitWhole(a: string, sep: char)
    requires sep !in a
    ensures Split(a, sep) == [a]
  {
    if a != "" {
      assert a[0] != sep && [a[0]] + a[1..] == a;
      SplitWhole(a[1..], sep);
    }
  }

  lemma NoDash(n: nat, base: nat)
    requires 2 <= base <= 16
    ensures '-' !in Digits(n, base)
  {
    DigitsAreDigits(n, base);
  }

  // ---- Blanks around a text ----

  predicate AllWhite(s: string) { forall i :: 0 <= i < |s| ==> IsWhite(s[i]) }

  /** The text is the core with blanks before and after it. */
  ghost predicate Padded(text: string, core: string) {
    exists before: string, after: string :: text == before + core + after && AllWhite(before) && AllWhite(after)
  }

  lemma {:induction false} LeftTrimmed(s: string) returns (before: string)
    ensures s == before + LeftTrim(s, IsWhite) && AllWhite(before)
  {
    before := "";
    if s != "" && IsWhite(s[0]) {
      var more := LeftTrimmed(s[1..]);
      before := [s[0]] + more;
      assert s == [s[0]] + s[1..];
    }
  }

  lemma {:induction false} RightTrimmed(s: string) returns (after: string)
    ensures s == RightTrim(s, IsWhite) + after && AllWhite(after)
  {
    after := "";
    if s != "" && IsWhite(s[|s| - 1]) {
      var more := RightTrimmed(s[..|s| - 1]);
      after := more + [s[|s| - 1]];
      assert s == s[..|s| - 1] + [s[|s| - 1]];
    }
  }

  lemma {:induction false} LeftTrimPadding(before: string, s: string)
    requires AllWhite(before)
    ensures LeftTrim(before + s, IsWhite) == LeftTrim(s, IsWhite)
  {
    if before == "" {
      assert before + s == s;
    } else {
      assert (before + s)[1..] == before[1..] + s;
      LeftTrimPadding(before[1..], s);
    }
  }

  lemma {:induction false} RightTrimPadding(s: string, after: string)
    requires AllWhite(after)
    ensures RightTrim(s + after, IsWhite) == RightTrim(s, IsWhite)
  {
    if after == "" {
      assert s + after == s;
    } else {
      var n := |after| - 1;
      assert (s + after)[..|s| + n] == s + after[..n];
      RightTrimPadding(s, after[..n]);
    }
  }

  /** Stripping takes off blanks, all of them and nothing else. */
  lemma StripIsPadding(text: string, core: string)
    requires core != "" && !IsWhite(core[0]) && !IsWhite(core[|core| - 1])
    ensures Strip(text) == core <==> Padded(text, core)
  {
    if Strip(text) == core {
      var before := LeftTrimmed(text);
      var after := RightTrimmed(LeftTrim(text, IsWhite));
      assert text == before + core + after;
    }
    if Padded(text, core) {
      var before, after :| text == before + core + after && AllWhite(before) && AllWhite(after);
      assert text == before + (core + after);
      LeftTrimPadding(before, core + after);
      assert LeftTrim(core + after, IsWhite) == core + after;
      RightTrimPadding(core, after);
    }
  }

  lemma PrintedIsTight(x: nat, y: nat)
    ensures var s := PrintShare(x, y); s != "" && !IsWhite(s[0]) && !IsWhite(s[|s| - 1])
  {
    var s := PrintShare(x, y);
    DigitsAreDigits(y, 16);
    assert s[|s| - 1] == Digits(y, 16)[|Digits(y, 16)| - 1];
    DigitIsPlain(s[|s| - 1]);
  }

  /** A printed share has no blanks around it. */
  lemma PrintedIsStripped(x: nat, y: nat)
    ensures Strip(PrintShare(x, y)) == PrintShare(x, y)
  {
    PrintedIsTight(x, y);
    TrimNothing(PrintShare(x, y), IsWhite);
  }

  /** Printing a share and parsing it gives its coordinates back. */
  lemma ShareRoundTrip(x: nat, y: nat)
    ensures ParseShare(PrintShare(x, y)) == Some((x as int, y as int))
  {
    hide ReadInt, Digits;
    var dx, dy := Digits(x, 10), Digits(y, 16);
    PrintedIsStripped(x, y);
    NoDash(x, 10);
    NoDash(y, 16);
    assert PrintShare(x, y) == SHARE_PREFIX + ['-'] + (dx + ['-'] + dy);
    SplitOff(SHARE_PREFIX, dx + ['-'] + dy, '-');
    SplitOff(dx, dy, '-');
    SplitWhole(dy, '-');
    assert Split(PrintShare(x, y), '-') == [SHARE_PREFIX, dx, dy];
    ReadPrinted(x, 10);
    ReadPrinted(y, 16);
  }

  /** Different shares print differently. */
  lemma PrintInjective(x: nat, y: nat, x': nat, y': nat)
    requires PrintShare(x, y) == PrintShare(x', y')
    ensures x == x' && y == y'
  {
    ShareRoundTrip(x, y);
    ShareRoundTrip(x', y');
  }

  // ---- Exactly what is read ----

  /** The prefix and two texts that read as these numbers, joined by dashes. */
  predicate Spells(s: string, a: string, b: string, x: int, y: int) {
    && s == SHARE_PREFIX + "-" + a + "-" + b && '-' !in a && '-' !in b
    && ReadInt(a, 10) == Some(x) && ReadInt(b, 16) == Some(y)
  }

  /** A share is read as these numbers exactly if, without blanks around it, it spells them. */
  lemma ParsesExactly(text: string, x: int, y: int)
    ensures ParseShare(text) == Some((x, y)) <==> exists a, b :: Spells(Strip(text), a, b, x, y)
  {
    hide ReadInt, Strip;
    var s := Strip(text);
    if ParseShare(text) == Some((x, y)) {
      SplitJoins(s, '-');
      var parts := Split(s, '-');
      JoinedThree(parts, '-');
      assert Spells(s, parts[1], parts[2], x, y);
    }
    if a, b :| Spells(s, a, b, x, y) {
      assert s == SHARE_PREFIX + ['-'] + (a + ['-'] + b);
      SplitOff(SHARE_PREFIX, a + ['-'] + b, '-');
      SplitOff(a, b, '-');
      SplitWhole(b, '-');
      assert Split(s, '-') == [SHARE_PREFIX, a, b];
    }
  }

  lemma JoinedThree(parts: seq<string>, sep: char)
    requires |parts| == 3
    ensures Joined(parts, sep) == parts[0] + [sep] + parts[1] + [sep] + parts[2]
  {
    assert parts[1..][1..] == [parts[2]];
    assert Joined(parts[1..], sep) == parts[1] + [sep] + parts[2];
  }

  function Joined(parts: seq<string>, sep: char): string
    requires parts != []
  {
    if |parts| == 1 then parts[0] else parts[0] + [sep] + Joined(parts[1..], sep)
  }

  lemma {:induction false} SplitJoins(s: string, sep: char)
    ensures Joined(Split(s, sep), sep) == s
    ensures forall i :: 0 <= i < |Split(s, sep)| ==> sep !in Split(s, sep)[i]
  {
    if s != "" {
      SplitJoins(s[1..], sep);
      assert s == [s[0]] + s[1..];
      var rest := Split(s[1..], sep);
      if s[0] == sep {
        assert ([""] + rest)[1..] == rest;
      } else {
        assert ([[s[0]] + rest[0]] + rest[1..])[1..] == rest[1..];
      }
    }
  }

  lemma SignedTrim(sign: char, n: nat, base: nat)
    requires 2 <= base <= 16 && (sign == '-' || sign == '+')
    ensures Trim([sign] + Digits(n, base), IsSpace) == [sign] + Digits(n, base)
  {
    var s := Digits(n, base);
    DigitsAreDigits(n, base);
    DigitIsPlain(s[|s| - 1]);
    hide Digits;
    TrimNothing([sign] + s, IsSpace);
  }

  lemma NotPrefixed(n: nat, base: nat)
    requires 2 <= base <= 16
    ensures var s := Digits(n, base); |s| > 1 ==> s[1] != 'x' && s[1] != 'X'
  {
    var s := Digits(n, base);
    DigitsAreDigits(n, base);
    if |s| > 1 {
      DigitIsPlain(s[1]);
    }
  }

  lemma SignedRead(sign: char, s: string, base: nat, n: nat)
    requires (sign == '-' || sign == '+') && Trim([sign] + s, IsSpace) == [sign] + s
    requires ReadDigits(s, base, 0, false) == Some(n) && (|s| > 1 ==> s[1] != 'x' && s[1] != 'X')
    ensures ReadInt([sign] + s, base) == Some(if sign == '-' then -(n as int) else n)
  {
    hide Trim, ReadDigits;
    assert ([sign] + s)[1..] == s;
  }

  /** A sign in front of a printed number is read as such. */
  lemma SignsAreRead(n: nat, base: nat)
    requires base == 10 || base == 16
    ensures ReadInt("-" + Digits(n, base), base) == Some(-(n as int))
    ensures ReadInt("+" + Digits(n, base), base) == Some(n)
  {
    SignedTrim('-', n, base);
    SignedTrim('+', n, base);
    NotPrefixed(n, base);
    DigitsRoundTrip(n, base);
    hide Trim, Digits, ReadDigits, ReadInt;
    SignedRead('-', Digits(n, base), base, n);
    SignedRead('+', Digits(n, base), base, n);
  }
}
