/** The handful of Python `str` operations the agent and the counters rely on. */
module Text {

  /** `sep.join(parts)`. */
  function Join(sep: string, parts: seq<string>): string
    decreases |parts|
  {
    if |parts| == 0 then ""
    else if |parts| == 1 then parts[0]
    else Join(sep, parts[..|parts| - 1]) + sep + parts[|parts| - 1]
  }

  /** `s.split(c)` for a one-character separator: the pieces between separators,
      always at least one. */
  function Split(s: string, c: char): (r: seq<string>)
    ensures |r| >= 1
    ensures forall i :: 0 <= i < |r| ==> c !in r[i]
  {
    if s == [] then [""]
    else if s[0] == c then [""] + Split(s[1..], c)
    else
      var rest := Split(s[1..], c);
      [[s[0]] + rest[0]] + rest[1..]
  }

  lemma {:induction false} JoinFront(sep: string, x: string, xs: seq<string>)
    requires |xs| >= 1
    ensures Join(sep, [x] + xs) == x + sep + Join(sep, xs)
    decreases |xs|
  {
    if |xs| == 1 {
      assert ([x] + xs)[..1] == [x];
    } else {
      var n := |xs|;
      assert ([x] + xs)[..n] == [x] + xs[..n - 1];
      JoinFront(sep, x, xs[..n - 1]);
    }
  }

  lemma {:induction false} JoinStartsWith(sep: string, xs: seq<string>)
    requires |xs| >= 1
    ensures StartsWith(Join(sep, xs), xs[0])
    decreases |xs|
  {
    if |xs| > 1 {
      JoinStartsWith(sep, xs[..|xs| - 1]);
    }
  }

  /** Joining two non-empty runs of pieces puts one separator between their joins. */
  lemma {:induction false} JoinConcat(sep: string, a: seq<string>, b: seq<string>)
    requires |a| >= 1 && |b| >= 1
    ensures Join(sep, a + b) == Join(sep, a) + sep + Join(sep, b)
    decreases |b|
  {
    var n := |b|;
    assert (a + b)[..|a + b| - 1] == a + b[..n - 1];
    if n > 1 {
      JoinConcat(sep, a, b[..n - 1]);
    } else {
      assert a + b[..n - 1] == a;
    }
  }

  /** Joining the pieces of a split gives back the string. */
  lemma {:induction false} SplitJoin(s: string, c: char)
    ensures Join([c], Split(s, c)) == s
    decreases |s|
  {
    if s == [] {
    } else if s[0] == c {
      SplitJoin(s[1..], c);
      JoinFront([c], "", Split(s[1..], c));
    } else {
      var rest := Split(s[1..], c);
      SplitJoin(s[1..], c);
      if |rest| == 1 {
      } else {
        JoinFront([c], rest[0], rest[1..]);
        assert rest == [rest[0]] + rest[1..];
        JoinFront([c], [s[0]] + rest[0], rest[1..]);
      }
    }
  }

  lemma {:induction false} SplitConcat(s: string, t: string, c: char)
    ensures Split(s + [c] + t, c) == Split(s, c) + Split(t, c)
    decreases |s|
  {
    if s == [] {
      assert s + [c] + t == [c] + t;
      assert ([c] + t)[1..] == t;
    } else {
      assert (s + [c] + t)[1..] == s[1..] + [c] + t;
      SplitConcat(s[1..], t, c);
    }
  }

  lemma {:induction false} SplitNoSep(t: string, c: char)
    requires c !in t
    ensures Split(t, c) == [t]
    decreases |t|
  {
    if t != [] {
      assert c !in t[1..] by {
        forall i | 0 <= i < |t[1..]| ensures t[1..][i] != c {
          assert t[1..][i] == t[i + 1];
        }
      }
      SplitNoSep(t[1..], c);
      assert [t[0]] + t[1..] == t;
    }
  }

  /** Splitting a join of separator-free pieces gives back the pieces. */
  lemma {:induction false} JoinSplit(parts: seq<string>, c: char)
    requires |parts| >= 1
    requires forall i :: 0 <= i < |parts| ==> c !in parts[i]
    ensures Split(Join([c], parts), c) == parts
    decreases |parts|
  {
    var n := |parts|;
    if n == 1 {
      SplitNoSep(parts[0], c);
    } else {
      JoinSplit(parts[..n - 1], c);
      SplitConcat(Join([c], parts[..n - 1]), parts[n - 1], c);
      SplitNoSep(parts[n - 1], c);
      assert parts == parts[..n - 1] + [parts[n - 1]];
    }
  }

  /** `s.startswith(prefix)`. */
  predicate StartsWith(s: string, prefix: string) {
    |prefix| <= |s| && s[..|prefix|] == prefix
  }

  lemma StartsWithConcat(a: string, b: string)
    ensures StartsWith(a + b, a)
  {
    assert (a + b)[..|a|] == a;
  }

  /** The tools' error strings: `Error: ` and then what went wrong. */
  function ErrorText(detail: string): (r: string)
    ensures StartsWith(r, "Error: ")
  {
    StartsWithConcat("Error: ", detail);
    "Error: " + detail
  }

  /** `s.endswith(suffix)`. */
  predicate EndsWith(s: string, suffix: string) {
    |suffix| <= |s| && s[|s| - |suffix|..] == suffix
  }

  /** `s.rstrip(c)` for a single character `c`. */
  function RStrip(s: string, c: char): (r: string)
    ensures |r| <= |s| && r == s[..|r|]
    ensures r == [] || r[|r| - 1] != c
    ensures forall i :: |r| <= i < |s| ==> s[i] == c
  {
    if s == [] || s[|s| - 1] != c then s else RStrip(s[..|s| - 1], c)
  }

  function DigitChar(d: nat): char
    requires d < 10
  {
    ('0' as int + d) as char
  }

  /** `str(n)` for a non-negative integer: decimal digits, no leading zero. */
  function NatToString(n: nat): (r: string)
    ensures |r| >= 1
    ensures forall i :: 0 <= i < |r| ==> '0' <= r[i] <= '9'
    ensures |r| > 1 ==> r[0] != '0'
  {
    if n < 10 then [DigitChar(n)] else NatToString(n / 10) + [DigitChar(n % 10)]
  }

  /** The value of a string of decimal digits. */
  function DigitsValue(s: string): nat
    requires forall i :: 0 <= i < |s| ==> '0' <= s[i] <= '9'
  {
    if s == [] then 0 else 10 * DigitsValue(s[..|s| - 1]) + (s[|s| - 1] as int - '0' as int)
  }

  /** `NatToString` is injective: reading the digits back gives the number. */
  lemma {:induction false} NatToStringRoundTrip(n: nat)
    ensures DigitsValue(NatToString(n)) == n
  {
    if n >= 10 {
      NatToStringRoundTrip(n / 10);
      var s := NatToString(n);
      assert s[..|s| - 1] == NatToString(n / 10);
    }
  }

  /** `str(i)` (f-string formatting) for any integer. */
  function IntToString(i: int): (r: string)
    ensures i < 0 <==> (|r| > 0 && r[0] == '-')
  {
    if i < 0 then "-" + NatToString(-i) else NatToString(i)
  }

  /** Python's rendering of a `bool` in an f-string. */
  function BoolText(b: bool): string {
    if b then "True" else "False"
  }

  /** `c.isspace()`: the characters `str.split()` and `str.strip()` treat as whitespace. */
  predicate IsSpace(c: char) {
    c == ' ' || ('\t' <= c <= '\r') || ('\U{1c}' <= c <= '\U{1f}') || c == '\U{85}' || c == '\U{a0}'
    || c == '\U{1680}' || ('\U{2000}' <= c <= '\U{200a}') || c == '\U{2028}' || c == '\U{2029}'
    || c == '\U{202f}' || c == '\U{205f}' || c == '\U{3000}'
  }

  /** `s.strip()` is empty: every character is whitespace. */
  predicate Blank(s: string) {
    forall i :: 0 <= i < |s| ==> IsSpace(s[i])
  }

  // ---------------------------------------------------------------------------
  // repr() of a string

  /** Whether `repr` writes `c` as itself: every character but the C0 and C1 controls,
      DEL, the no-break space and the soft hyphen. Below U+0100 this is `str.isprintable`;
      above, every character is taken as printable. */
  predicate ReprPrintable(c: char) {
    !(c as int < 0x20 || 0x7f <= c as int <= 0xa0 || c as int == 0xad)
  }

  /** The quote `repr(s)` uses: a double quote when `s` has a single quote and no
      double quote, otherwise a single quote. */
  function ReprQuote(s: string): char {
    if '\'' in s && '"' !in s then '"' else '\''
  }

  function HexDigit(d: nat): char
    requires d < 16
  {
    "0123456789abcdef"[d]
  }

  function HexValue(c: char): (v: nat)
    ensures v < 16
  {
    if '0' <= c <= '9' then c as int - '0' as int
    else if 'a' <= c <= 'f' then c as int - 'a' as int + 10
    else 0
  }

  /** How `repr` writes one character inside the quote `q`. */
  function EscapeChar(c: char, q: char): string {
    if c == '\\' then "\\\\"
    else if c == q then ['\\', q]
    else if c == '\t' then "\\t"
    else if c == '\n' then "\\n"
    else if c == '\r' then "\\r"
    else if ReprPrintable(c) then [c]
    else ['\\', 'x', HexDigit(c as int / 16), HexDigit(c as int % 16)]
  }

  function Escape(s: string, q: char): string {
    if s == [] then [] else EscapeChar(s[0], q) + Escape(s[1..], q)
  }

  /** `repr(s)`, as `str()` of an `OSError` shows the file name. */
  function PyRepr(s: string): string {
    [ReprQuote(s)] + Escape(s, ReprQuote(s)) + [ReprQuote(s)]
  }

  /** The character a backslash escape other than `\x` stands for. */
  function Unescaped(c: char): char {
    if c == 't' then '\t' else if c == 'n' then '\n' else if c == 'r' then '\r' else c
  }

  /** Reading a string literal's body back: the escapes `repr` writes are undone. */
  function Unescape(t: string): string
    decreases |t|
  {
    if |t| == 0 then []
    else if t[0] == '\\' && |t| >= 4 && t[1] == 'x' then
      [(HexValue(t[2]) * 16 + HexValue(t[3])) as char] + Unescape(t[4..])
    else if t[0] == '\\' && |t| >= 2 then [Unescaped(t[1])] + Unescape(t[2..])
    else [t[0]] + Unescape(t[1..])
  }

  lemma HexRoundTrip(d: nat)
    requires d < 16
    ensures HexValue(HexDigit(d)) == d
  {
  }

  lemma UnescapeEscapeChar(c: char, q: char, rest: string)
    requires q == '"' || q == '\''
    ensures Unescape(EscapeChar(c, q) + rest) == [c] + Unescape(rest)
  {
    var t := EscapeChar(c, q) + rest;
    if c == '\\' || c == q || c == '\t' || c == '\n' || c == '\r' {
      assert t[2..] == rest;
    } else if ReprPrintable(c) {
      assert t[1..] == rest;
    } else {
      var v := c as int;
      HexRoundTrip(v / 16);
      HexRoundTrip(v % 16);
      assert t[4..] == rest;
    }
  }

  /** Reading the escaped body back gives the string. */
  lemma {:induction false} UnescapeEscape(s: string, q: char)
    requires q == '"' || q == '\''
    ensures Unescape(Escape(s, q)) == s
    decreases |s|
  {
    if s != [] {
      UnescapeEscapeChar(s[0], q, Escape(s[1..], q));
      UnescapeEscape(s[1..], q);
    }
  }

  /** `repr` is quoted with double quotes exactly when the string has an apostrophe
      and no double quote, and with single quotes otherwise. */
  lemma ReprQuoteChoice(s: string)
    ensures var r := PyRepr(s);
            && |r| >= 2 && r[0] == r[|r| - 1]
            && (r[0] == '"' <==> '\'' in s && '"' !in s)
            && (r[0] == '"' || r[0] == '\'')
  {
  }

  /** `repr` loses nothing: the text between the quotes reads back as `s`. */
  lemma PyReprRoundTrip(s: string)
    ensures var r := PyRepr(s); |r| >= 2 && Unescape(r[1..|r| - 1]) == s
  {
    var r := PyRepr(s);
    assert r[1..|r| - 1] == Escape(s, ReprQuote(s));
    UnescapeEscape(s, ReprQuote(s));
  }

  /** A string of printable characters without backslash or the chosen quote is
      written as itself. */
  lemma {:induction false} EscapePlain(s: string, q: char)
    requires forall i :: 0 <= i < |s| ==> ReprPrintable(s[i]) && s[i] != '\\' && s[i] != q
    ensures Escape(s, q) == s
    decreases |s|
  {
    if s != [] {
      EscapePlain(s[1..], q);
    }
  }

  /** A printable string without backslash or double quote comes back whole between
      quotes: double quotes when it has an apostrophe (`"it's"`), single ones
      otherwise. */
  lemma PlainRepr(s: string)
    requires forall i :: 0 <= i < |s| ==> ReprPrintable(s[i]) && s[i] != '\\' && s[i] != '"'
    ensures '\'' in s ==> PyRepr(s) == "\"" + s + "\""
    ensures '\'' !in s ==> PyRepr(s) == "'" + s + "'"
  {
    var q := if '\'' in s then '"' else '\'';
    assert ReprQuote(s) == q;
    EscapePlain(s, q);
  }
}
