/**
 * The Python 2.7 string built-ins the scheduler relies on: `str.split()` with no
 * separator, `str.partition(sep)`, base-10 `int(s)`, and `str(n)` for stating
 * round trips.
 */
module PyText {
  import opened Wrappers

  /** Python 2.7's `unicode.isspace()` (Unicode 5.2): what `split()` treats as blank. */
  predicate IsSpace(c: char) {
    || ('\t' <= c <= '\r')
    || ('\U{1C}' <= c <= '\U{1F}')
    || c == ' '
    || c == '\U{85}'
    || c == '\U{A0}'
    || c == '\U{1680}'
    || c == '\U{180E}'
    || ('\U{2000}' <= c <= '\U{200A}')
    || c == '\U{2028}'
    || c == '\U{2029}'
    || c == '\U{202F}'
    || c == '\U{205F}'
    || c == '\U{3000}'
  }

  /** C's `isspace` in the C locale: the blanks of a byte string. */
  predicate IsAsciiSpace(c: char) {
    ('\t' <= c <= '\r') || c == ' '
  }

  /**
   * The two kinds of Python 2 string: `unicode`, as the models' fields hold, and the
   * byte `str` of a command-line argument.
   */
  datatype StrKind = Unicode | Bytes

  /**
   * What `int()` skips as blank. It turns a unicode string's whitespace into spaces
   * before parsing, so there every Unicode blank counts; in a byte string only C's do.
   */
  predicate IsBlank(kind: StrKind, c: char) {
    match kind
    case Unicode => IsSpace(c)
    case Bytes => IsAsciiSpace(c)
  }

  predicate AllBlank(kind: StrKind, s: string) {
    forall i :: 0 <= i < |s| ==> IsBlank(kind, s[i])
  }

  /** A non-empty run of non-blank characters: one token of `split()`. */
  predicate IsWord(w: string) {
    |w| > 0 && forall i :: 0 <= i < |w| ==> !IsSpace(w[i])
  }

  /** `s` without its leading blanks. */
  function DropBlanks(kind: StrKind, s: string): (r: string)
    ensures |r| <= |s|
    ensures r == [] || !IsBlank(kind, r[0])
  {
    if s != [] && IsBlank(kind, s[0]) then DropBlanks(kind, s[1..]) else s
  }

  /** `s` without its trailing blanks. */
  function DropTrailingBlanks(kind: StrKind, s: string): (r: string)
    ensures |r| <= |s|
  {
    if s != [] && IsBlank(kind, s[|s| - 1]) then DropTrailingBlanks(kind, s[..|s| - 1]) else s
  }

  /** The length of the leading non-blank run of `s`. */
  function WordLength(s: string): (n: nat)
    ensures n <= |s|
    ensures forall i :: 0 <= i < n ==> !IsSpace(s[i])
  {
    if s == [] || IsSpace(s[0]) then 0 else 1 + WordLength(s[1..])
  }

  /** Python's `s.split()`: the maximal non-blank runs of `s`, in order. */
  function Split(s: string): (r: seq<string>)
    ensures forall i :: 0 <= i < |r| ==> IsWord(r[i])
    decreases |s|
  {
    var t := DropBlanks(Unicode, s);
    if t == [] then []
    else
      var n := WordLength(t);
      [t[..n]] + Split(t[n..])
  }

  /** Blanks followed by a non-blank start: dropping the leading blanks leaves the rest. */
  lemma {:induction false} DropBlanksOfPrefix(kind: StrKind, ws: string, rest: string)
    requires AllBlank(kind, ws)
    requires rest == [] || !IsBlank(kind, rest[0])
    ensures DropBlanks(kind, ws + rest) == rest
    decreases |ws|
  {
    if ws == [] {
      assert ws + rest == rest;
    } else {
      assert (ws + rest)[1..] == ws[1..] + rest;
      DropBlanksOfPrefix(kind, ws[1..], rest);
    }
  }

  lemma {:induction false} WordLengthOfPrefix(w: string, rest: string)
    requires forall i :: 0 <= i < |w| ==> !IsSpace(w[i])
    requires rest == [] || IsSpace(rest[0])
    ensures WordLength(w + rest) == |w|
    decreases |w|
  {
    if w == [] {
      assert w + rest == rest;
    } else {
      assert (w + rest)[1..] == w[1..] + rest;
      WordLengthOfPrefix(w[1..], rest);
    }
  }

  /** Blanks alone split into no tokens. */
  lemma {:induction false} SplitOfSpaces(ws: string)
    requires AllBlank(Unicode, ws)
    ensures Split(ws) == []
  {
    DropBlanksOfPrefix(Unicode, ws, []);
    assert ws + [] == ws;
  }

  /** Leading blanks, then a word, then a blank or the end: the word is the first token. */
  lemma {:induction false} SplitWordThen(ws: string, w: string, rest: string)
    requires AllBlank(Unicode, ws) && IsWord(w)
    requires rest == [] || IsSpace(rest[0])
    ensures Split(ws + w + rest) == [w] + Split(rest)
  {
    var s := ws + w + rest;
    assert s == ws + (w + rest);
    DropBlanksOfPrefix(Unicode, ws, w + rest);
    WordLengthOfPrefix(w, rest);
    assert (w + rest)[..|w|] == w;
    assert (w + rest)[|w|..] == rest;
  }

  /** A word followed by a blank or the end is the first token. */
  lemma {:induction false} SplitFirstWord(w: string, rest: string)
    requires IsWord(w)
    requires rest == [] || IsSpace(rest[0])
    ensures Split(w + rest) == [w] + Split(rest)
  {
    assert DropBlanks(Unicode, w + rest) == w + rest by {
      assert (w + rest)[0] == w[0];
    }
    WordLengthOfPrefix(w, rest);
    assert (w + rest)[..|w|] == w;
    assert (w + rest)[|w|..] == rest;
  }

  lemma {:induction false} WordLengthOfWord(w: string)
    requires IsWord(w)
    ensures WordLength(w) == |w|
  {
    WordLengthOfPrefix(w, []);
    assert w + [] == w;
  }

  /** Blanks followed by one word split into that word alone. */
  lemma {:induction false} SplitOfWord(ws: string, w: string)
    requires AllBlank(Unicode, ws) && IsWord(w)
    ensures Split(ws + w) == [w]
  {
    DropBlanksOfPrefix(Unicode, ws, w);
    WordLengthOfWord(w);
    assert w[..|w|] == w;
    assert w[|w|..] == [];
  }

  /** A blank and then one word split into that word alone. */
  lemma {:induction false} SplitBlankWord(w: string)
    requires IsWord(w)
    ensures Split(" " + w) == [w]
    ensures IsSpace((" " + w)[0])
  {
    assert AllBlank(Unicode, " ");
    SplitOfWord(" ", w);
  }

  /** `"<a> <b>".split()` is `[a, b]` for any two words. */
  lemma {:induction false} SplitPair(a: string, b: string)
    requires IsWord(a) && IsWord(b)
    ensures Split(a + " " + b) == [a, b]
  {
    SplitBlankWord(b);
    SplitFirstWord(a, " " + b);
    assert a + " " + b == a + (" " + b);
  }

  /** A single word surrounded by blanks splits into just that word. */
  lemma {:induction false} SplitOneWord(ws: string, w: string, ws': string)
    requires AllBlank(Unicode, ws) && IsWord(w) && AllBlank(Unicode, ws')
    ensures Split(ws + w + ws') == [w]
    ensures |ws| > 0 ==> IsSpace((ws + w + ws')[0])
  {
    SplitWordThen(ws, w, ws');
    SplitOfSpaces(ws');
  }

  /** `"<a> <b>".split()` is `[a, b]` for any two words, whatever blanks surround them. */
  lemma {:induction false} SplitTwoWords(ws1: string, a: string, ws2: string, b: string, ws3: string)
    requires AllBlank(Unicode, ws1) && AllBlank(Unicode, ws2) && AllBlank(Unicode, ws3) && |ws2| > 0
    requires IsWord(a) && IsWord(b)
    ensures Split(ws1 + a + ws2 + b + ws3) == [a, b]
  {
    SplitOneWord(ws2, b, ws3);
    assert ws1 + a + ws2 + b + ws3 == ws1 + a + (ws2 + b + ws3);
    SplitWordThen(ws1, a, ws2 + b + ws3);
  }

  /** Python's `s.partition(sep)`: the text before the first `sep`, the separator, the text after. */
  function Partition(s: string, sep: char): (r: (string, string, string))
    ensures sep in s ==> sep !in r.0 && r.1 == [sep] && s == r.0 + r.1 + r.2
    ensures sep !in s ==> r == (s, "", "")
  {
    if s == [] then ("", "", "")
    else if s[0] == sep then ("", [sep], s[1..])
    else
      var rest := Partition(s[1..], sep);
      assert s == [s[0]] + s[1..];
      assert sep in s[1..] ==> s == [s[0]] + rest.0 + rest.1 + rest.2;
      ([s[0]] + rest.0, rest.1, rest.2)
  }

  /** The text before the first `sep` is `head` whenever `head` has no `sep` in it. */
  lemma {:induction false} PartitionAfterHead(head: string, sep: char, tail: string)
    requires sep !in head
    ensures Partition(head + [sep] + tail, sep) == (head, [sep], tail)
    decreases |head|
  {
    if head == [] {
      assert head + [sep] + tail == [sep] + tail;
    } else {
      assert (head + [sep] + tail)[0] == head[0] != sep;
      assert (head + [sep] + tail)[1..] == head[1..] + [sep] + tail;
      assert sep !in head[1..];
      PartitionAfterHead(head[1..], sep, tail);
      assert head == [head[0]] + head[1..];
    }
  }

  predicate IsDigit(c: char) {
    '0' <= c <= '9'
  }

  predicate IsDigits(s: string) {
    |s| > 0 && forall i :: 0 <= i < |s| ==> IsDigit(s[i])
  }

  /** The value of a run of decimal digits, most significant first. */
  function DigitsValue(s: string): nat
    requires forall i :: 0 <= i < |s| ==> IsDigit(s[i])
  {
    if s == [] then 0
    else
      assert IsDigit(s[|s| - 1]);
      DigitsValue(s[..|s| - 1]) * 10 + (s[|s| - 1] as int - '0' as int)
  }

  /** The value of `digits` when it is a non-empty run of ASCII digits. */
  function DigitsInt(digits: string): Option<nat> {
    if IsDigits(digits) then Some(DigitsValue(digits)) else None
  }

  /**
   * Python 2's `int(s)` in base 10: blanks, an optional sign, blanks again (the sign
   * may stand apart from the digits, so `int("- 5") == -5`), at least one ASCII digit,
   * blanks. `None` stands for the ValueError it raises otherwise.
   */
  function ParseInt(kind: StrKind, s: string): (r: Option<int>)
    ensures IsDigits(s) ==> r == Some(DigitsValue(s))
  {
    var t := DropBlanks(kind, s);
    if |t| > 0 && (t[0] == '-' || t[0] == '+') then
      match DigitsInt(DropTrailingBlanks(kind, DropBlanks(kind, t[1..])))
      case None => None
      case Some(v) => Some(if t[0] == '-' then 0 - v else v)
    else
      match DigitsInt(DropTrailingBlanks(kind, t))
      case None => None
      case Some(v) => Some(v)
  }

  function DigitChar(d: nat): (c: char)
    requires d < 10
    ensures IsDigit(c) && c as int - '0' as int == d
  {
    ('0' as int + d) as char
  }

  /** Python's `str(n)` for a natural number. */
  function FormatNat(n: nat): (s: string)
    ensures IsDigits(s)
  {
    if n < 10 then [DigitChar(n)] else FormatNat(n / 10) + [DigitChar(n % 10)]
  }

  /** Python's `str(n)`. */
  function FormatInt(n: int): string {
    if n < 0 then "-" + FormatNat(-n) else FormatNat(n)
  }

  lemma {:induction false} FormatNatValue(n: nat)
    ensures DigitsValue(FormatNat(n)) == n
  {
    if n >= 10 {
      var s := FormatNat(n);
      FormatNatValue(n / 10);
      assert s[..|s| - 1] == FormatNat(n / 10);
    }
  }

  /** A run of digits has no blank at its end. */
  lemma {:induction false} DigitsKeepTrailing(kind: StrKind, digits: string)
    requires IsDigits(digits)
    ensures DropTrailingBlanks(kind, digits) == digits
  {
    assert IsDigit(digits[|digits| - 1]);
  }

  /** `int(str(n)) == n`: the decimal text of any integer parses back to it, in either kind of string. */
  lemma {:induction false} ParseFormatRoundTrip(kind: StrKind, n: int)
    ensures ParseInt(kind, FormatInt(n)) == Some(n)
  {
    var s := FormatInt(n);
    var digits := FormatNat(if n < 0 then -n else n);
    FormatNatValue(if n < 0 then -n else n);
    DigitsKeepTrailing(kind, digits);
    assert IsDigit(digits[0]);
    if n < 0 {
      assert s[1..] == digits;
    } else {
      assert s == digits;
    }
    assert DropBlanks(kind, s) == s;
  }

  /**
   * A sign followed by blanks and then digits is an integer: `int("- 5") == -5`
   * and `int("+\t5") == 5`.
   */
  lemma {:induction false} SignApartFromDigits(kind: StrKind, sign: char, ws: string, n: nat)
    requires sign == '-' || sign == '+'
    requires AllBlank(kind, ws)
    ensures ParseInt(kind, [sign] + ws + FormatNat(n)) == Some(if sign == '-' then -(n as int) else n as int)
  {
    var digits := FormatNat(n);
    var s := [sign] + ws + digits;
    FormatNatValue(n);
    assert IsDigit(digits[0]);
    assert DropBlanks(kind, s) == s;
    assert s[1..] == ws + digits;
    DropBlanksOfPrefix(kind, ws, digits);
    DigitsKeepTrailing(kind, digits);
  }

  /**
   * A no-break space before the digits is a blank to `int()` of a unicode string but
   * not of a byte string.
   */
  lemma {:induction false} NoBreakSpaceDependsOnKind()
    ensures ParseInt(Unicode, "\U{A0}7") == Some(7)
    ensures ParseInt(Bytes, "\U{A0}7") == None
  {
    var s := "\U{A0}7";
    assert s[1..] == "7";
    assert DropBlanks(Unicode, s) == "7";
    DigitsKeepTrailing(Unicode, "7");
    assert DropBlanks(Bytes, s) == s;
    assert !IsDigits(DropTrailingBlanks(Bytes, s)) by {
      assert DropTrailingBlanks(Bytes, s) == s;
    }
  }

  /** The decimal text of an integer is a single token. */
  lemma {:induction false} FormatIntIsWord(n: int)
    ensures IsWord(FormatInt(n))
  {
    var s := FormatInt(n);
    if n < 0 {
      assert forall i :: 1 <= i < |s| ==> s[i] == FormatNat(-n)[i - 1];
    }
  }
}
