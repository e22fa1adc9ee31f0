/** The Python string and list primitives the naming code relies on, written out
    with the semantics CPython gives them: str.split with and without a
    separator, str.replace, str.strip, `in`, negative slicing, str(int), int(str),
    list.index and list indexing with negative indices. */
module PyStr {
  import opened Failures

  // ---------------------------------------------------------------------------
  // Character classes

  predicate IsAsciiDigit(c: char) { '0' <= c <= '9' }
  predicate IsAsciiUpper(c: char) { 'A' <= c <= 'Z' }
  predicate IsAsciiLower(c: char) { 'a' <= c <= 'z' }

  /** Upper-case accented letters of Czech whose lower-case form is the next
      code point (Č → č, ...). */
  predicate IsCzechUpperNext(c: char)
  {
    c == 'Č' || c == 'Ď' || c == 'Ě' || c == 'Ň' || c == 'Ř' || c == 'Š' || c == 'Ť' || c == 'Ů' || c == 'Ž'
  }

  /** Upper-case accented letters of Czech from Latin-1 (Á → á is + 32). */
  predicate IsCzechUpperLatin1(c: char)
  {
    c == 'Á' || c == 'É' || c == 'Í' || c == 'Ó' || c == 'Ú' || c == 'Ý'
  }

  predicate IsCzechLowerNext(c: char)
  {
    c == 'č' || c == 'ď' || c == 'ě' || c == 'ň' || c == 'ř' || c == 'š' || c == 'ť' || c == 'ů' || c == 'ž'
  }

  predicate IsCzechLowerLatin1(c: char)
  {
    c == 'á' || c == 'é' || c == 'í' || c == 'ó' || c == 'ú' || c == 'ý'
  }

  /** str.isupper on one character, for ASCII and the Czech alphabet. */
  predicate IsUpper(c: char)
  {
    IsAsciiUpper(c) || IsCzechUpperLatin1(c) || IsCzechUpperNext(c)
  }

  predicate IsLower(c: char)
  {
    IsAsciiLower(c) || IsCzechLowerLatin1(c) || IsCzechLowerNext(c)
  }

  /** A character that has case (str.title starts a word after a non-cased one). */
  predicate IsCased(c: char) { IsUpper(c) || IsLower(c) }

  function LowerChar(c: char): (r: char)
    ensures IsUpper(c) ==> IsLower(r)
    ensures !IsUpper(c) ==> r == c
  {
    if IsAsciiUpper(c) || IsCzechUpperLatin1(c) then (c as int + 32) as char
    else if IsCzechUpperNext(c) then (c as int + 1) as char
    else c
  }

  function UpperChar(c: char): (r: char)
    ensures IsLower(c) ==> IsUpper(r)
    ensures !IsLower(c) ==> r == c
  {
    if IsAsciiLower(c) || IsCzechLowerLatin1(c) then (c as int - 32) as char
    else if IsCzechLowerNext(c) then (c as int - 1) as char
    else c
  }

  /** str.lower */
  function Lower(s: string): (r: string)
    ensures |r| == |s|
    ensures forall i :: 0 <= i < |s| ==> r[i] == LowerChar(s[i])
  {
    if s == [] then [] else [LowerChar(s[0])] + Lower(s[1..])
  }

  /** str.title: a cased character after a non-cased one (or at the start) is
      upper-cased, every other cased character lower-cased. */
  function Title(s: string): (r: string)
    ensures |r| == |s|
  {
    TitleAfter(s, false)
  }

  function TitleAfter(s: string, afterCased: bool): (r: string)
    ensures |r| == |s|
  {
    if s == [] then []
    else
      var c := s[0];
      var d := if !IsCased(c) then c else if afterCased then LowerChar(c) else UpperChar(c);
      [d] + TitleAfter(s[1..], IsCased(c))
  }

  /** str.isspace on one character: the characters CPython treats as whitespace. */
  predicate IsSpace(c: char)
  {
    var k := c as int;
    (9 <= k <= 13) || (28 <= k <= 32) || k == 0x85 || k == 0xA0 || k == 0x1680
    || (0x2000 <= k <= 0x200A) || k == 0x2028 || k == 0x2029 || k == 0x202F
    || k == 0x205F || k == 0x3000
  }

  predicate NoSpace(s: string)
  {
    forall i :: 0 <= i < |s| ==> !IsSpace(s[i])
  }

  // ---------------------------------------------------------------------------
  // Splitting

  /** Number of whitespace characters at the front of `s`. */
  function LeadingSpaces(s: string): (n: nat)
    ensures n <= |s|
    ensures forall i :: 0 <= i < n ==> IsSpace(s[i])
    ensures n < |s| ==> !IsSpace(s[n])
  {
    if s == [] || !IsSpace(s[0]) then 0 else 1 + LeadingSpaces(s[1..])
  }

  /** Number of non-whitespace characters at the front of `s`. */
  function WordLength(s: string): (n: nat)
    ensures n <= |s|
    ensures forall i :: 0 <= i < n ==> !IsSpace(s[i])
    ensures n < |s| ==> IsSpace(s[n])
  {
    if s == [] || IsSpace(s[0]) then 0 else 1 + WordLength(s[1..])
  }

  /** str.split() with no argument: the maximal runs of non-whitespace. */
  function Words(s: string): (r: seq<string>)
    ensures forall k :: 0 <= k < |r| ==> r[k] != []
    decreases |s|
  {
    if s == [] then []
    else if IsSpace(s[0]) then Words(s[1..])
    else
      var b := WordLength(s);
      [s[..b]] + Words(s[b..])
  }

  /** str.split(maxsplit=1): the first word, then the rest of the string with
      its leading whitespace removed (trailing whitespace is kept). */
  function SplitFirst(s: string): (r: seq<string>)
    ensures |r| <= 2
    ensures |r| >= 1 ==> r[0] != [] && NoSpace(r[0])
  {
    var a := LeadingSpaces(s);
    if a == |s| then []
    else
      var b := WordLength(s[a..]);
      var rest := s[a + b..];
      var c := LeadingSpaces(rest);
      if c == |rest| then [s[a..a + b]] else [s[a..a + b], rest[c..]]
  }

  /** `t` occurs in `s` at position `i`. */
  predicate OccursAt(s: string, t: string, i: nat)
  {
    i + |t| <= |s| && s[i..i + |t|] == t
  }

  /** str.find: the first position where `t` occurs in `s`. */
  function Find(s: string, t: string): (r: Option<nat>)
    ensures r.Some? ==> OccursAt(s, t, r.value)
    ensures r.Some? ==> forall j :: 0 <= j < r.value ==> !OccursAt(s, t, j)
    ensures r.None? ==> forall j :: 0 <= j <= |s| ==> !OccursAt(s, t, j)
    decreases |s|
  {
    if t <= s then Some(0)
    else if s == [] then None
    else
      match Find(s[1..], t)
      case None =>
        assert forall j :: 1 <= j <= |s| ==> (OccursAt(s, t, j) <==> OccursAt(s[1..], t, j - 1));
        None
      case Some(i) =>
        assert forall j :: 1 <= j <= |s| ==> (OccursAt(s, t, j) <==> OccursAt(s[1..], t, j - 1));
        Some(i + 1)
  }

  /** `t in s` */
  predicate Contains(s: string, t: string)
  {
    Find(s, t).Some?
  }

  /** str.split(sep) for a non-empty separator. */
  function SplitOn(s: string, sep: string): (r: seq<string>)
    requires sep != []
    ensures |r| >= 1
    ensures |r| == 1 <==> !Contains(s, sep)
    decreases |s|
  {
    match Find(s, sep)
    case None => [s]
    case Some(i) => [s[..i]] + SplitOn(s[i + |sep|..], sep)
  }

  /** str.replace(target, replacement) for a non-empty `target`: every occurrence, left to
      right, without overlaps. */
  function ReplaceAll(s: string, target: string, replacement: string): (r: string)
    requires target != []
    ensures !Contains(s, target) ==> r == s
    decreases |s|
  {
    match Find(s, target)
    case None => s
    case Some(i) => s[..i] + replacement + ReplaceAll(s[i + |target|..], target, replacement)
  }

  /** Number of whitespace characters at the end of `s`. */
  function TrailingSpaces(s: string): (n: nat)
    ensures n <= |s|
  {
    if s == [] || !IsSpace(s[|s| - 1]) then 0 else 1 + TrailingSpaces(s[..|s| - 1])
  }

  /** str.strip() */
  function Strip(s: string): string
  {
    var t := s[LeadingSpaces(s)..];
    t[..|t| - TrailingSpaces(t)]
  }

  /** s[:-k] for k > 0 */
  function DropLast(s: string, k: nat): (r: string)
    requires k > 0
    ensures |r| == if k <= |s| then |s| - k else 0
    ensures r <= s
  {
    if k <= |s| then s[..|s| - k] else []
  }

  // ---------------------------------------------------------------------------
  // Integers and text

  function DigitChar(d: nat): (c: char)
    requires d < 10
    ensures IsAsciiDigit(c)
  {
    ('0' as int + d) as char
  }

  function DigitValue(c: char): (d: nat)
    requires IsAsciiDigit(c)
    ensures d < 10
  {
    c as int - '0' as int
  }

  predicate AllDigits(s: string)
  {
    forall i :: 0 <= i < |s| ==> IsAsciiDigit(s[i])
  }

  /** The decimal digits of a natural number, most significant first. */
  function Digits(n: nat): (r: string)
    ensures r != [] && AllDigits(r)
    ensures |r| > 1 ==> r[0] != '0'
    decreases n
  {
    if n < 10 then [DigitChar(n)] else Digits(n / 10) + [DigitChar(n % 10)]
  }

  /** str(n) */
  function Decimal(n: int): (r: string)
    ensures r != []
  {
    if n < 0 then "-" + Digits(-n) else Digits(n)
  }

  /** The value of a string of decimal digits, most significant first. */
  function DigitsValue(s: string): nat
    requires AllDigits(s)
  {
    if s == [] then 0 else 10 * DigitsValue(s[..|s| - 1]) + DigitValue(s[|s| - 1])
  }

  /** Digits with single underscores between them, as int() accepts. */
  predicate IsDigitGroup(s: string)
  {
    && s != []
    && IsAsciiDigit(s[0])
    && IsAsciiDigit(s[|s| - 1])
    && (forall i :: 0 <= i < |s| ==> IsAsciiDigit(s[i]) || s[i] == '_')
    && (forall i :: 0 <= i < |s| - 1 ==> !(s[i] == '_' && s[i + 1] == '_'))
  }

  function RemoveUnderscores(s: string): (r: string)
    requires forall i :: 0 <= i < |s| ==> IsAsciiDigit(s[i]) || s[i] == '_'
    ensures AllDigits(r)
  {
    if s == [] then []
    else if s[0] == '_' then RemoveUnderscores(s[1..])
    else [s[0]] + RemoveUnderscores(s[1..])
  }

  /** int(s): optional surrounding whitespace, an optional sign, then decimal
      digits possibly grouped by single underscores; anything else raises
      ValueError. */
  function ParseInt(s: string): (r: Result<int>)
    ensures r.Err? ==> r.error == ValueError
  {
    var t := Strip(s);
    var negative := |t| > 0 && t[0] == '-';
    var body := if |t| > 0 && (t[0] == '-' || t[0] == '+') then t[1..] else t;
    if !IsDigitGroup(body) then Err(ValueError)
    else
      var v: int := DigitsValue(RemoveUnderscores(body));
      Ok(if negative then -v else v)
  }

  // ---------------------------------------------------------------------------
  // Lists

  /** list.index(x): the first position of `x`, ValueError when absent. */
  function IndexOf(list: seq<string>, x: string): (r: Result<nat>)
    ensures r.Ok? ==> r.value < |list| && list[r.value] == x
    ensures r.Ok? ==> forall j :: 0 <= j < r.value ==> list[j] != x
    ensures r.Err? <==> x !in list
    ensures r.Err? ==> r.error == ValueError
  {
    if list == [] then Err(ValueError)
    else if list[0] == x then Ok(0)
    else
      match IndexOf(list[1..], x)
      case Err(e) => Err(e)
      case Ok(i) => Ok(i + 1)
  }

  /** list[i], where a negative index counts from the end. */
  function At<T>(list: seq<T>, i: int): (r: Result<T>)
    ensures r.Ok? <==> -|list| <= i < |list|
    ensures r.Err? ==> r.error == IndexError
    ensures 0 <= i < |list| ==> r == Ok(list[i])
  {
    if 0 <= i < |list| then Ok(list[i])
    else if -|list| <= i < 0 then Ok(list[|list| + i])
    else Err(IndexError)
  }

  /** list.index finds the first position holding `x`. */
  lemma IndexOfFirst(list: seq<string>, x: string, h: nat)
    requires h < |list| && list[h] == x
    requires forall j :: 0 <= j < h ==> list[j] != x
    ensures IndexOf(list, x) == Ok(h)
  {
    assert x in list;
    var r := IndexOf(list, x).value;
    assert list[r] == x;
    assert r == h;
  }

  // ---------------------------------------------------------------------------
  // int(str(n)) == n

  lemma {:induction false} DigitsValueOfDigits(n: nat)
    ensures DigitsValue(Digits(n)) == n
    decreases n
  {
    if n >= 10 {
      var s := Digits(n);
      assert s[..|s| - 1] == Digits(n / 10);
      DigitsValueOfDigits(n / 10);
    }
  }

  lemma RemoveUnderscoresOfDigits(s: string)
    requires AllDigits(s)
    ensures RemoveUnderscores(s) == s
  {
    if s != [] {
      RemoveUnderscoresOfDigits(s[1..]);
    }
  }

  lemma StripOfUnspaced(s: string)
    requires s != [] && !IsSpace(s[0]) && !IsSpace(s[|s| - 1])
    ensures Strip(s) == s
  {
  }

  lemma DigitsAreGroup(s: string)
    requires s != [] && AllDigits(s)
    ensures IsDigitGroup(s)
  {
  }

  /** int() reads back what str() writes, for every integer. */
  lemma ParseIntDecimal(n: int)
    ensures ParseInt(Decimal(n)) == Ok(n)
  {
    var m: nat := if n < 0 then -n else n;
    var d := Digits(m);
    var t := Decimal(n);
    StripOfUnspaced(t);
    var body := if t[0] == '-' || t[0] == '+' then t[1..] else t;
    assert body == d by {
      if n < 0 { assert t[1..] == d; }
    }
    DigitsAreGroup(d);
    RemoveUnderscoresOfDigits(d);
    DigitsValueOfDigits(m);
  }

  // ---------------------------------------------------------------------------
  // str.split() on text joined with spaces

  lemma NoSpaceJoin(a: string, b: string)
    requires NoSpace(a) && NoSpace(b)
    ensures NoSpace(a + b)
  {
    assert forall i :: 0 <= i < |a + b| ==> (a + b)[i] == if i < |a| then a[i] else b[i - |a|];
  }

  /** A word followed by whitespace (or by nothing) is the first of the words. */
  lemma WordsOfJoin(a: string, rest: string)
    requires a != [] && NoSpace(a)
    requires rest == [] || IsSpace(rest[0])
    ensures Words(a + rest) == [a] + Words(rest)
  {
    var s := a + rest;
    assert !IsSpace(s[0]);
    var b := WordLength(s);
    assert forall i :: 0 <= i < |a| ==> s[i] == a[i];
    assert |a| < |s| ==> IsSpace(s[|a|]);
    assert b == |a|;
    assert s[..b] == a && s[b..] == rest;
  }

  /** Leading whitespace does not change the words. */
  lemma WordsAfterSpace(c: char, rest: string)
    requires IsSpace(c)
    ensures Words([c] + rest) == Words(rest)
  {
    assert ([c] + rest)[1..] == rest;
  }

  /** A word, a space, and then anything: the word comes first. */
  lemma WordsOfSpaced(a: string, rest: string)
    requires a != [] && NoSpace(a)
    ensures Words(a + " " + rest) == [a] + Words(rest)
  {
    assert a + " " + rest == a + ([' '] + rest);
    WordsOfJoin(a, [' '] + rest);
    WordsAfterSpace(' ', rest);
  }

  /** Two words joined by a space split back into them. */
  lemma WordsOfTwo(a: string, b: string)
    requires a != [] && NoSpace(a) && b != [] && NoSpace(b)
    ensures Words(a + " " + b) == [a, b]
  {
    WordsOfSpaced(a, b);
    WordsOfJoin(b, []);
    assert b + [] == b;
  }

  /** Three words joined by spaces split back into them. */
  lemma WordsOfThree(a: string, b: string, c: string)
    requires a != [] && NoSpace(a) && b != [] && NoSpace(b) && c != [] && NoSpace(c)
    ensures Words(a + " " + b + " " + c) == [a, b, c]
  {
    assert a + " " + b + " " + c == a + " " + (b + " " + c);
    WordsOfSpaced(a, b + " " + c);
    WordsOfTwo(b, c);
  }
}
