/** PDF lexical rules: decimal numbers, literal strings, and a reader of them that follows sections
    7.3.4.2 and 7.5 of ISO 32000-1. A char stands for one byte. */
module PdfSyntax {
  import opened Wrappers

  // ---- decimal numbers ----

  function Pow10(n: nat): nat { if n == 0 then 1 else 10 * Pow10(n - 1) }

  function Digit(d: nat): char
    requires d < 10
  {
    '0' + d as char
  }

  predicate IsDigit(c: char) { '0' <= c <= '9' }

  predicate AllDigits(s: string) { forall c | c in s :: IsDigit(c) }

  function Decimal(n: nat): string {
    if n < 10 then [Digit(n)] else Decimal(n / 10) + [Digit(n % 10)]
  }

  /** The number that a string of digits denotes. */
  function Value(s: string): nat
    requires AllDigits(s)
  {
    if s == [] then 0
    else assert s[|s| - 1] in s; 10 * Value(s[..|s| - 1]) + (s[|s| - 1] as int - '0' as int)
  }

  function Zeros(n: nat): string { seq(n, _ => '0') }

  /** Zero-padded to `width`, wider when the number does not fit. */
  function Padded(n: nat, width: nat): string {
    var d := Decimal(n);
    if |d| < width then Zeros(width - |d|) + d else d
  }

  lemma {:induction false} DecimalReads(n: nat)
    ensures AllDigits(Decimal(n)) && |Decimal(n)| > 0 && Value(Decimal(n)) == n
  {
    if n >= 10 {
      DecimalReads(n / 10);
      assert Decimal(n)[..|Decimal(n)| - 1] == Decimal(n / 10);
    } else {
      assert Decimal(n)[..0] == [];
    }
  }

  lemma {:induction false} DecimalWidth(n: nat, width: nat)
    requires width > 0
    ensures |Decimal(n)| <= width <==> n < Pow10(width)
  {
    if n >= 10 {
      if width > 1 {
        DecimalWidth(n / 10, width - 1);
      } else {
        assert Pow10(1) == 10 * Pow10(0);
        DecimalReads(n / 10);
      }
    } else {
      PowAtLeastTen(width);
    }
  }

  lemma {:induction false} PowAtLeastTen(width: nat)
    requires width > 0
    ensures Pow10(width) >= 10
  {
    if width > 1 {
      PowAtLeastTen(width - 1);
    }
  }

  lemma {:induction false} LeadingZeros(k: nat, s: string)
    requires AllDigits(s)
    ensures AllDigits(Zeros(k) + s) && Value(Zeros(k) + s) == Value(s)
    decreases k + |s|
  {
    if s != [] {
      LeadingZeros(k, s[..|s| - 1]);
      assert (Zeros(k) + s)[..k + |s| - 1] == Zeros(k) + s[..|s| - 1];
    } else if k > 0 {
      LeadingZeros(k - 1, s);
      assert (Zeros(k) + s)[..k - 1] == Zeros(k - 1) + s;
    }
  }

  /** A padded number has the padded width exactly when it fits, and reads back either way. */
  lemma PaddedReads(n: nat, width: nat)
    requires width > 0
    ensures AllDigits(Padded(n, width)) && Value(Padded(n, width)) == n
    ensures |Padded(n, width)| == width <==> n < Pow10(width)
  {
    DecimalReads(n);
    DecimalWidth(n, width);
    if |Decimal(n)| < width {
      LeadingZeros(width - |Decimal(n)|, Decimal(n));
    }
  }

  // ---- literal strings ----

  function EscapeChar(c: char): string {
    if c == '\\' || c == '(' || c == ')' then ['\\', c] else [c]
  }

  function Escape(s: string): string {
    if s == [] then [] else EscapeChar(s[0]) + Escape(s[1..])
  }

  /** What a reader makes of unescaped line ends: each CR or CR LF is one LF. */
  function NormalizeEol(s: string): string {
    if s == [] then []
    else if s[0] == '\r' then ['\n'] + NormalizeEol(if |s| > 1 && s[1] == '\n' then s[2..] else s[1..])
    else [s[0]] + NormalizeEol(s[1..])
  }

  predicate IsOctal(c: char) { '0' <= c <= '7' }

  /** How many of the next three chars are octal digits. */
  function OctalRun(t: string, limit: nat): (n: nat)
    ensures n <= |t| && n <= limit && forall i :: 0 <= i < n ==> IsOctal(t[i])
  {
    if limit == 0 || t == [] || !IsOctal(t[0]) then 0 else 1 + OctalRun(t[1..], limit - 1)
  }

  function OctalValue(t: string): nat
    requires forall c :: c in t ==> IsOctal(c)
  {
    if t == [] then 0
    else assert t[|t| - 1] in t && IsOctal(t[|t| - 1]); 8 * OctalValue(t[..|t| - 1]) + (t[|t| - 1] as int - '0' as int)
  }

  /** What a backslash and the chars after it stand for, and how many of those chars it takes. */
  function Unescape(t: string): (r: (string, nat))
    requires t != []
    ensures 1 <= r.1 <= |t|
  {
    var c := t[0];
    if c == 'n' then ("\n", 1)
    else if c == 'r' then ("\r", 1)
    else if c == 't' then ("\t", 1)
    else if c == 'b' then ([8 as char], 1)
    else if c == 'f' then ([12 as char], 1)
    else if c == '\n' then ("", 1)
    else if c == '\r' then ("", if |t| > 1 && t[1] == '\n' then 2 else 1)
    else if IsOctal(c) then
      var n := OctalRun(t, 3);
      ([(OctalValue(t[..n]) % 256) as char], n)
    else ([c], 1)
  }

  function Prepend(head: string, r: Option<(string, string)>): Option<(string, string)> {
    match r
    case None => None
    case Some((s, rest)) => Some((head + s, rest))
  }

  /** Reads a literal string from just after its opening parenthesis; gives its text and what
      follows the parenthesis that closes it. */
  function ReadString(t: string, depth: nat): (r: Option<(string, string)>)
    ensures r.Some? ==> |r.value.1| < |t|
    decreases |t|
  {
    if t == [] then None
    else if t[0] == '\\' then
      if |t| == 1 then None
      else var (c, n) := Unescape(t[1..]); Prepend(c, ReadString(t[1 + n..], depth))
    else if t[0] == '(' then Prepend("(", ReadString(t[1..], depth + 1))
    else if t[0] == ')' then
      if depth == 0 then Some(("", t[1..])) else Prepend(")", ReadString(t[1..], depth - 1))
    else if t[0] == '\r' then
      Prepend("\n", ReadString(if |t| > 1 && t[1] == '\n' then t[2..] else t[1..], depth))
    else Prepend([t[0]], ReadString(t[1..], depth))
  }

  /** A reader of the escaped string gets its text with line ends normalised, and stops exactly at
      the closing parenthesis. */
  lemma {:induction false} EscapedStringReads(s: string, tail: string)
    ensures ReadString(Escape(s) + ")" + tail, 0) == Some((NormalizeEol(s), tail))
    decreases |s|
  {
    var t := Escape(s) + ")" + tail;
    if s == [] {
      assert t == ")" + tail && t[1..] == tail;
    } else if s[0] == '\r' && |s| > 1 && s[1] == '\n' {
      assert Escape(s) == ['\r'] + Escape(s[1..]);
      assert Escape(s[1..]) == ['\n'] + Escape(s[1..][1..]) && s[1..][1..] == s[2..];
      assert t[2..] == Escape(s[2..]) + ")" + tail;
      EscapedStringReads(s[2..], tail);
    } else {
      var e := EscapeChar(s[0]);
      assert t[|e|..] == Escape(s[1..]) + ")" + tail;
      EscapedStringReads(s[1..], tail);
      if |e| == 2 {
        assert t[1..][0] == s[0];
      } else if s[0] == '\r' && |s| > 1 {
        assert t[1] == EscapeChar(s[1])[0];
      }
    }
  }

  /** The round trip returns the string itself if and only if it has no carriage return. */
  lemma RoundTripExactly(s: string, tail: string)
    ensures ReadString(Escape(s) + ")" + tail, 0) == Some((s, tail)) <==> '\r' !in s
  {
    EscapedStringReads(s, tail);
    NormalizeDropsCr(s);
  }

  lemma {:induction false} NormalizeDropsCr(s: string)
    ensures '\r' !in NormalizeEol(s)
    ensures '\r' !in s ==> NormalizeEol(s) == s
    decreases |s|
  {
    if s != [] {
      if s[0] == '\r' && |s| > 1 && s[1] == '\n' {
        NormalizeDropsCr(s[2..]);
      } else {
        NormalizeDropsCr(s[1..]);
      }
    }
  }

  // ---- reading at a place ----

  predicate StartsAt(s: string, at: nat, w: string) {
    at + |w| <= |s| && s[at..at + |w|] == w
  }

  /** The length of the run of digits that starts at `at`. */
  function DigitsFrom(s: string, at: nat): (n: nat)
    requires at <= |s|
    ensures at + n <= |s| && AllDigits(s[at..at + n])
    decreases |s| - at
  {
    if at == |s| || !IsDigit(s[at]) then 0
    else
      var n := 1 + DigitsFrom(s, at + 1);
      assert s[at..at + n] == [s[at]] + s[at + 1..at + n];
      n
  }

  /** The length of the run of digits that ends at `end`. */
  function DigitsBefore(s: string, end: nat): (n: nat)
    requires end <= |s|
    ensures n <= end && AllDigits(s[end - n..end])
    decreases end
  {
    if end == 0 || !IsDigit(s[end - 1]) then 0
    else
      var n := 1 + DigitsBefore(s, end - 1);
      assert s[end - n..end] == s[end - n..end - 1] + [s[end - 1]];
      n
  }

  lemma {:induction false} DigitsFromIs(s: string, at: nat, n: nat)
    requires at + n < |s| && AllDigits(s[at..at + n]) && !IsDigit(s[at + n])
    ensures DigitsFrom(s, at) == n
    decreases n
  {
    if n > 0 {
      assert s[at..at + n][0] == s[at];
      assert s[at + 1..at + n] == s[at..at + n][1..];
      DigitsFromIs(s, at + 1, n - 1);
    }
  }

  lemma {:induction false} DigitsBeforeIs(s: string, end: nat, n: nat)
    requires n < end <= |s| && AllDigits(s[end - n..end]) && !IsDigit(s[end - n - 1])
    ensures DigitsBefore(s, end) == n
    decreases n
  {
    if n > 0 {
      assert s[end - n..end][n - 1] == s[end - 1];
      assert s[end - n..end - 1] == s[end - n..end][..n - 1];
      DigitsBeforeIs(s, end - 1, n - 1);
    }
  }

  /** A number between a word at `at` and a word after it; gives the number and where what follows
      begins. */
  function NumberAfter(s: string, at: nat, word: string, stop: string): Option<(nat, nat)> {
    if !StartsAt(s, at, word) then None
    else
      var from := at + |word|;
      var n := DigitsFrom(s, from);
      if n == 0 || !StartsAt(s, from + n, stop) then None
      else Some((Value(s[from..from + n]), from + n + |stop|))
  }

  /** A number between a word and the last word of the file. */
  function NumberBefore(s: string, word: string, last: string): Option<nat> {
    if |s| < |last| || !StartsAt(s, |s| - |last|, last) then None
    else
      var end := |s| - |last|;
      var n := DigitsBefore(s, end);
      if n == 0 || end < n + |word| || !StartsAt(s, end - n - |word|, word) then None
      else Some(Value(s[end - n..end]))
  }

  /** Where the parts of a concatenation start. */
  lemma Places(a: string, u: string, v: string, w: string, b: string)
    ensures var s := a + u + v + w + b;
            StartsAt(s, |a|, u) && StartsAt(s, |a| + |u|, v) && StartsAt(s, |a| + |u| + |v|, w)
  {
    var s := a + u + v + w + b;
    assert s[|a|..|a| + |u|] == u;
    assert s[|a| + |u|..|a| + |u| + |v|] == v;
    assert s[|a| + |u| + |v|..|a| + |u| + |v| + |w|] == w;
  }

  lemma NumberAfterReads(s: string, at: nat, word: string, n: nat, stop: string)
    requires stop != [] && !IsDigit(stop[0])
    requires StartsAt(s, at, word) && StartsAt(s, at + |word|, Decimal(n))
    requires StartsAt(s, at + |word| + |Decimal(n)|, stop)
    ensures NumberAfter(s, at, word, stop) == Some((n, at + |word| + |Decimal(n)| + |stop|))
  {
    var from, k := at + |word|, |Decimal(n)|;
    DecimalReads(n);
    assert s[from + k] == s[from + k..from + k + |stop|][0];
    DigitsFromIs(s, from, k);
  }

  lemma NumberBeforeReads(s: string, at: nat, word: string, n: nat, last: string)
    requires word != [] && !IsDigit(word[|word| - 1])
    requires StartsAt(s, at, word) && StartsAt(s, at + |word|, Decimal(n))
    requires StartsAt(s, at + |word| + |Decimal(n)|, last) && |s| == at + |word| + |Decimal(n)| + |last|
    ensures NumberBefore(s, word, last) == Some(n)
  {
    DecimalReads(n);
    DigitRunBefore(s, at, word, Decimal(n), |s| - |last|);
  }

  /** Digits that follow a word are the whole run of digits that ends there. */
  lemma DigitRunBefore(s: string, at: nat, word: string, d: string, end: nat)
    requires word != [] && !IsDigit(word[|word| - 1]) && AllDigits(d)
    requires StartsAt(s, at, word) && StartsAt(s, at + |word|, d) && end == at + |word| + |d|
    ensures DigitsBefore(s, end) == |d| && s[end - |d|..end] == d
  {
    var from := at + |word|;
    DigitsBetween(s, from, end);
    assert s[from - 1] == s[at..from][|word| - 1];
    DigitsBeforeIs(s, end, |d|);
  }

  lemma DigitsBetween(s: string, from: nat, end: nat)
    requires from <= end <= |s|
    ensures s[end - (end - from)..end] == s[from..end]
  {
  }
}
