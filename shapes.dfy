/** Telling a formula from a name: the subscript-digit translations, the
    formula and name patterns (RE_SIGN, RE_NAME and those of every compound
    kind), is_compound_name, and fix_compound_sign, which spaces a formula into
    element tokens. The patterns are written as deterministic scanners; each
    doc comment gives the regular expression it decides. */
module Shapes {
  import opened Failures
  import opened PyStr

  // ---------------------------------------------------------------------------
  // SUB and NOR (nazvoslovi.py:14, 17)

  /** The subscript digits U+2080 to U+2089. */
  predicate IsSubscriptDigit(c: char) { '₀' <= c <= '₉' }

  predicate NoSubscripts(s: string)
  {
    forall i :: 0 <= i < |s| ==> !IsSubscriptDigit(s[i])
  }

  /** NOR on one character: a subscript digit becomes its ASCII digit. */
  function NorChar(c: char): (r: char)
    ensures !IsSubscriptDigit(r)
    ensures IsSubscriptDigit(c) ==> IsAsciiDigit(r)
    ensures !IsSubscriptDigit(c) ==> r == c
  {
    if IsSubscriptDigit(c) then (c as int - '₀' as int + '0' as int) as char else c
  }

  /** s.translate(NOR) */
  function Nor(s: string): (r: string)
    ensures |r| == |s| && NoSubscripts(r)
    ensures forall i :: 0 <= i < |s| ==> r[i] == NorChar(s[i])
  {
    seq(|s|, i requires 0 <= i < |s| => NorChar(s[i]))
  }

  /** SUB on one character: an ASCII digit becomes its subscript digit. */
  function SubChar(c: char): (r: char)
    ensures IsAsciiDigit(c) ==> IsSubscriptDigit(r)
    ensures !IsAsciiDigit(c) ==> r == c
  {
    if IsAsciiDigit(c) then (c as int - '0' as int + '₀' as int) as char else c
  }

  /** s.translate(SUB) */
  function Sub(s: string): (r: string)
    ensures |r| == |s|
    ensures forall i :: 0 <= i < |s| ==> r[i] == SubChar(s[i])
  {
    seq(|s|, i requires 0 <= i < |s| => SubChar(s[i]))
  }

  /** NOR undoes SUB: translating to subscripts and back changes nothing that
      NOR alone would not change. */
  lemma NorOfSub(s: string)
    ensures Nor(Sub(s)) == Nor(s)
  {
    assert forall i :: 0 <= i < |s| ==> NorChar(SubChar(s[i])) == NorChar(s[i]);
  }

  /** NOR leaves a string without subscript digits alone, so it is idempotent. */
  lemma NorOfUnsubscripted(s: string)
    requires NoSubscripts(s)
    ensures Nor(s) == s
  {
  }

  // ---------------------------------------------------------------------------
  // Pattern scanners. A cursor is the position reached so far, or None once
  // the match has failed.

  type Cursor = Option<nat>

  predicate Within(s: string, p: Cursor)
  {
    p.Some? ==> p.value <= |s|
  }

  /** Advances past one character satisfying the class `cls` at the cursor. */
  function One(s: string, p: Cursor, cls: char -> bool): (q: Cursor)
    requires Within(s, p)
    ensures Within(s, q)
    ensures q.Some? ==> p.Some? && q.value == p.value + 1
  {
    if p.Some? && p.value < |s| && cls(s[p.value]) then Some(p.value + 1) else None
  }

  /** The literal character `c`. */
  function Char(s: string, p: Cursor, c: char): (q: Cursor)
    requires Within(s, p)
    ensures Within(s, q)
    ensures q.Some? ==> p.Some? && q.value == p.value + 1 && s[p.value] == c
  {
    One(s, p, x => x == c)
  }

  /** `c?`: the character `c` if it is there. */
  function Maybe(s: string, p: Cursor, c: char): (q: Cursor)
    requires Within(s, p)
    ensures Within(s, q)
    ensures q.Some? <==> p.Some?
    ensures q.Some? ==> p.value <= q.value <= p.value + 1
  {
    if p.Some? && p.value < |s| && s[p.value] == c then Some(p.value + 1) else p
  }

  /** `[a-z]?` */
  function MaybeLower(s: string, p: Cursor): (q: Cursor)
    requires Within(s, p)
    ensures Within(s, q)
    ensures q.Some? <==> p.Some?
    ensures q.Some? ==> p.value <= q.value <= p.value + 1
  {
    if p.Some? && p.value < |s| && IsAsciiLower(s[p.value]) then Some(p.value + 1) else p
  }

  /** `\d{0,k}`, greedy: at most `k` ASCII digits. */
  function DigitsUpTo(s: string, p: Cursor, k: nat): (q: Cursor)
    requires Within(s, p)
    ensures Within(s, q)
    ensures q.Some? <==> p.Some?
    ensures q.Some? ==> p.value <= q.value <= p.value + k
    ensures q.Some? ==> forall i :: p.value <= i < q.value ==> IsAsciiDigit(s[i])
    decreases k
  {
    if k > 0 && p.Some? && p.value < |s| && IsAsciiDigit(s[p.value])
    then DigitsUpTo(s, Some(p.value + 1), k - 1)
    else p
  }

  /** `$`: the end of the string, or just before a final newline. */
  predicate End(s: string, p: Cursor)
  {
    p.Some? && (p.value == |s| || (p.value + 1 == |s| && s[p.value] == '\n'))
  }

  /** `[A-Z][a-z]?\d{0,2}`, one element sign with its amount. */
  function ElementSign(s: string, p: Cursor): (q: Cursor)
    requires Within(s, p)
    ensures Within(s, q)
    ensures q.Some? ==> p.Some? && p.value < q.value
  {
    DigitsUpTo(s, MaybeLower(s, One(s, p, IsAsciiUpper)), 2)
  }

  /** `E ?`: an element sign and an optional space. */
  function ElementToken(s: string, p: Cursor): (q: Cursor)
    requires Within(s, p)
    ensures Within(s, q)
    ensures q.Some? ==> p.Some? && p.value < q.value
  {
    Maybe(s, ElementSign(s, p), ' ')
  }

  // ---------------------------------------------------------------------------
  // RE_SIGN and RE_NAME, and is_compound_name (nazvoslovi.py:18-19, 36-49)

  /** One repetition of RE_SIGN's group `\(?[A-Z][a-z]?\d{0,2} ?\)?`. */
  function SignGroup(s: string, p: Cursor): (q: Cursor)
    requires Within(s, p)
    ensures Within(s, q)
    ensures q.Some? ==> p.Some? && p.value < q.value
  {
    Maybe(s, ElementToken(s, Maybe(s, p, '(')), ')')
  }

  /** Where the repetition of groups starting at `i` stops. */
  function SignGroups(s: string, i: nat): (j: nat)
    requires i <= |s|
    ensures i <= j <= |s|
    decreases |s| - i
  {
    var q := SignGroup(s, Some(i));
    if q.None? then i else SignGroups(s, q.value)
  }

  /** RE_SIGN: `^(\(?[A-Z][a-z]?\d{0,2} ?\)?)*$`. Each group holds exactly one
      capital, so the groups are found left to right without backtracking. */
  predicate IsFormula(s: string)
  {
    End(s, Some(SignGroups(s, 0)))
  }

  predicate NoAsciiDigits(s: string)
  {
    forall i :: 0 <= i < |s| ==> !IsAsciiDigit(s[i])
  }

  /** is_compound_name(s): false for a formula, true for digit-free text, and
      IncorrectFormat for anything else. */
  function IsCompoundName(s: string): (r: Result<bool>)
    ensures r == Ok(false) <==> IsFormula(s)
    ensures r == Ok(true) <==> !IsFormula(s) && NoAsciiDigits(s)
    ensures r.Err? <==> !IsFormula(s) && !NoAsciiDigits(s)
    ensures r.Err? ==> r.error == IncorrectFormat
  {
    if IsFormula(s) then Ok(false)
    else if NoAsciiDigits(s) then Ok(true)
    else Err(IncorrectFormat)
  }

  /** Digit-free text that starts with a small letter is read as a name. */
  lemma LowerTextIsName(s: string)
    requires s != [] && IsLower(s[0]) && NoAsciiDigits(s)
    ensures IsCompoundName(s) == Ok(true)
  {
    assert SignGroup(s, Some(0)).None?;
  }

  /** An element symbol followed by an amount of at most two digits is read as
      a formula. */
  lemma ElementTokenIsFormula(sym: string, n: nat)
    requires 1 <= |sym| <= 2 && IsAsciiUpper(sym[0])
    requires |sym| == 2 ==> IsAsciiLower(sym[1])
    requires n < 100
    ensures IsCompoundName(sym + Digits(n)) == Ok(false)
  {
    var d := Digits(n);
    var s := sym + d;
    assert |d| <= 2 by {
      if n >= 10 { assert Digits(n) == Digits(n / 10) + [DigitChar(n % 10)]; }
    }
    assert MaybeLower(s, One(s, Some(0), IsAsciiUpper)) == Some(|sym|);
    DigitsToEnd(s, |sym|, 2);
    assert SignGroup(s, Some(0)) == Some(|s|);
    assert SignGroup(s, Some(|s|)).None?;
  }

  /** A symbol followed by at most two ASCII digits is read as a formula. */
  lemma SymbolTokenIsFormula(sym: string, d: string)
    requires 1 <= |sym| <= 2 && IsAsciiUpper(sym[0])
    requires |sym| == 2 ==> IsAsciiLower(sym[1])
    requires |d| <= 2 && AllDigits(d)
    ensures IsCompoundName(sym + d) == Ok(false)
  {
    var s := sym + d;
    assert MaybeLower(s, One(s, Some(0), IsAsciiUpper)) == Some(|sym|);
    DigitsToEnd(s, |sym|, 2);
    assert SignGroup(s, Some(0)) == Some(|s|);
    assert SignGroup(s, Some(|s|)).None?;
  }

  /** A capital letter on its own, such as "H" or "O", is a formula. */
  lemma CapitalIsFormula(c: char)
    requires IsAsciiUpper(c)
    ensures IsCompoundName([c]) == Ok(false)
  {
    var s := [c];
    assert MaybeLower(s, One(s, Some(0), IsAsciiUpper)) == Some(1);
    assert SignGroup(s, Some(0)) == Some(1);
    assert SignGroup(s, Some(1)).None?;
  }

  /** At most `k` digits up to the end are all taken. */
  lemma {:induction false} DigitsToEnd(s: string, i: nat, k: nat)
    requires i <= |s| && |s| - i <= k
    requires forall j :: i <= j < |s| ==> IsAsciiDigit(s[j])
    ensures DigitsUpTo(s, Some(i), k) == Some(|s|)
    decreases k
  {
    if i < |s| {
      DigitsToEnd(s, i + 1, k - 1);
    }
  }

  // ---------------------------------------------------------------------------
  // The patterns of the compound kinds (nazvoslovi.py:309-310, 320-321, 333-334,
  // 434-435, 544-545, 590-591). The formula patterns are tried on the spaced
  // formula, the name patterns on the raw input.

  /** `[^ 0-9]*`: no ASCII space and no ASCII digit. */
  predicate NameChars(s: string)
  {
    forall i :: 0 <= i < |s| ==> s[i] != ' ' && !IsAsciiDigit(s[i])
  }

  /** `[a-z]*` */
  predicate AllAsciiLower(s: string)
  {
    forall i :: 0 <= i < |s| ==> IsAsciiLower(s[i])
  }

  /** Oxid and Sulfid formula: `^[A-Z][a-z]?\d{0,2} ?M\d{0,2}$` with M the
      sign of the main element (O or S). */
  predicate BinaryFormula(s: string, main: char)
  {
    End(s, DigitsUpTo(s, Char(s, ElementToken(s, Some(0)), main), 2))
  }

  /** Oxid and Sulfid name: `^W [^ 0-9]*$` with W the word "oxid" or
      "sulfid". */
  predicate BinaryName(s: string, word: string)
  {
    word + " " <= s && NameChars(s[|word| + 1..])
  }

  /** Acid formula: `^H\d{0,2} ?[A-Z][a-z]?\d{0,2} ?O\d{0,2}$`. */
  predicate AcidFormula(s: string)
  {
    var h := Maybe(s, DigitsUpTo(s, Char(s, Some(0), 'H'), 2), ' ');
    End(s, DigitsUpTo(s, Char(s, ElementToken(s, h), 'O'), 2))
  }

  /** Acid name: `^kyselina ([a-z]{2,6}hydrogen )?[^ 0-9]*$`. Neither part can
      hold a space, so a space after "kyselina " must be the one closing the
      optional hydrogen part. */
  predicate AcidName(s: string)
  {
    && "kyselina " <= s
    && var rest := s[9..];
       match Find(rest, " ")
       case None => NameChars(rest)
       case Some(p) =>
         && 10 <= p <= 14
         && AllAsciiLower(rest[..p - 8])
         && rest[p - 8..p] == "hydrogen"
         && NameChars(rest[p + 1..])
  }

  /** The tail `O\d{0,2}\)?\d{0,2}?` shared by the salt formulas. */
  function OxygenTail(s: string, p: Cursor): (q: Cursor)
    requires Within(s, p)
    ensures Within(s, q)
  {
    DigitsUpTo(s, Maybe(s, DigitsUpTo(s, Char(s, p, 'O'), 2), ')'), 2)
  }

  /** The salt part `[A-Z][a-z]?\d{0,2} ?\(?[A-Z][a-z]?\d{0,2} ?O\d{0,2}\)?\d{0,2}?`. */
  function SaltPart(s: string): (q: Cursor)
    ensures Within(s, q)
  {
    OxygenTail(s, ElementToken(s, Maybe(s, ElementToken(s, Some(0)), '(')))
  }

  /** Salt formula: the salt part, then `$`. */
  predicate SaltFormula(s: string)
  {
    End(s, SaltPart(s))
  }

  /** `(?![a-z]*hydrogen)`: "hydrogen" follows a run of small letters at the
      start. Such an occurrence lies inside the leading run of small letters,
      because "hydrogen" is itself made of small letters. */
  predicate HydrogenLead(s: string)
  {
    Contains(s[..LowerRun(s)], "hydrogen")
  }

  /** The number of ASCII small letters at the start of `s`. */
  function LowerRun(s: string): (n: nat)
    ensures n <= |s| && AllAsciiLower(s[..n])
    ensures n < |s| ==> !IsAsciiLower(s[n])
  {
    if s == [] || !IsAsciiLower(s[0]) then 0
    else
      var n := 1 + LowerRun(s[1..]);
      assert s[..n] == [s[0]] + s[1..][..n - 1];
      n
  }

  /** `[^ 0-9]*an [^ 0-9]*$` from the start: the first space ends a word
      that ends in "an" and is followed by one more word. */
  predicate AnWords(s: string)
  {
    match Find(s, " ")
    case None => false
    case Some(p) => p >= 2 && s[p - 2..p] == "an" && NameChars(s[..p]) && NameChars(s[p + 1..])
  }

  /** Salt name: `^(?![a-z]*hydrogen)[^ 0-9]*an [^ 0-9]*$`. */
  predicate SaltName(s: string)
  {
    !HydrogenLead(s) && AnWords(s)
  }

  /** HydrogenSalt formula:
      `^[A-Z][a-z]?\d{0,2} ?\(?H\d{0,2} ?[A-Z][a-z]?\d{0,2} ?O\d{0,2}\)?\d{0,2}?$`. */
  predicate HydrogenSaltFormula(s: string)
  {
    var h := Maybe(s, DigitsUpTo(s, Char(s, Maybe(s, ElementToken(s, Some(0)), '('), 'H'), 2), ' ');
    End(s, OxygenTail(s, ElementToken(s, h)))
  }

  /** "hydrogen" at `j` after `j` small letters, with room for "an" before the
      space at `p`. */
  predicate HydrogenAt(s: string, j: nat, p: nat)
  {
    j + 10 <= p <= |s| && AllAsciiLower(s[..j]) && s[j..j + 8] == "hydrogen"
  }

  /** HydrogenSalt name: `^([a-z]{2,6})?hydrogen[^ 0-9]*an [^ 0-9]*$`. */
  predicate HydrogenSaltName(s: string)
  {
    && AnWords(s)
    && var p := Find(s, " ").value;
       (HydrogenAt(s, 0, p) || HydrogenAt(s, 2, p) || HydrogenAt(s, 3, p)
        || HydrogenAt(s, 4, p) || HydrogenAt(s, 5, p) || HydrogenAt(s, 6, p))
  }

  /** SaltHydrate formula: the salt part, then ` . \d{1,2} H2 O$`, where the
      `.` stands for any character but a newline. */
  predicate SaltHydrateFormula(s: string)
  {
    var dot := One(s, Char(s, SaltPart(s), ' '), c => c != '\n');
    var water := DigitsUpTo(s, One(s, Char(s, dot, ' '), IsAsciiDigit), 1);
    End(s, Char(s, Char(s, Char(s, Char(s, Char(s, water, ' '), 'H'), '2'), ' '), 'O'))
  }

  /** SaltHydrate name: `^[a-z]{2,6}hydrát [^ 0-9]*anu [^ 0-9]*ého$`. No part
      holds a space, so the two spaces separate three words. */
  predicate SaltHydrateName(s: string)
  {
    match Find(s, " ")
    case None => false
    case Some(p) =>
      var rest := s[p + 1..];
      && 8 <= p <= 12
      && AllAsciiLower(s[..p - 6])
      && s[p - 6..p] == "hydrát"
      && match Find(rest, " ")
         case None => false
         case Some(q) =>
           var last := rest[q + 1..];
           && q >= 3
           && rest[q - 3..q] == "anu"
           && NameChars(rest[..q])
           && NameChars(last)
           && (LastChars(last, 3) == "ého" || LastChars(last, 4) == "ého\n")
  }

  /** The last `k` characters, or all of `s` when it is shorter. */
  function LastChars(s: string, k: nat): string
  {
    if |s| >= k then s[|s| - k..] else s
  }

  // ---------------------------------------------------------------------------
  // fix_compound_sign (nazvoslovi.py:634-645)

  /** A space goes between `prev` and `c`: `c` is not a space and is a capital,
      "(" or ".", or follows "."; and `prev` is neither "(" nor a space. */
  predicate Boundary(prev: char, c: char)
  {
    && c != ' '
    && (IsUpper(c) || c == '(' || c == '.' || prev == '.')
    && prev != '(' && prev != ' '
  }

  /** Which characters of `t` get a space in front of them. */
  function Marks(t: string): (m: seq<bool>)
    ensures |m| == |t|
    ensures |t| > 0 ==> !m[0]
    ensures forall i :: 0 < i < |t| ==> (m[i] <==> Boundary(t[i - 1], t[i]))
  {
    seq(|t|, i requires 0 <= i < |t| => i > 0 && Boundary(t[i - 1], t[i]))
  }

  /** `t` with a space inserted before each marked character. */
  function Merge(t: string, m: seq<bool>): (o: string)
    requires |m| == |t|
    ensures |o| >= |t|
    ensures t != [] ==> o != [] && o[|o| - 1] == t[|t| - 1]
    decreases |t|
  {
    if t == [] then []
    else
      var n := |t| - 1;
      Merge(t[..n], m[..n]) + (if m[n] then [' ', t[n]] else [t[n]])
  }

  /** Deletes the spaces `Merge` inserted for the marks `m`; None when a marked
      character is not preceded by a space. */
  function Unmerge(o: string, m: seq<bool>): (r: Option<string>)
    ensures r.Some? ==> |r.value| == |m|
    decreases |m|
  {
    if m == [] then (if o == [] then Some([]) else None)
    else
      var n := |m| - 1;
      var k := if m[n] then 2 else 1;
      if |o| < k || (m[n] && o[|o| - 2] != ' ') then None
      else
        match Unmerge(o[..|o| - k], m[..n])
        case None => None
        case Some(u) => Some(u + [o[|o| - 1]])
  }

  /** fix_compound_sign(s) */
  function Fix(s: string): string
  {
    var t := Nor(s);
    Merge(t, Marks(t))
  }

  /** The loop of fix_compound_sign: `out` grows one character (or a space and a
      character) at a time, looking only at its own last character. */
  method FixCompoundSign(s: string) returns (out: string)
    ensures out == Fix(s)
  {
    var t := Nor(s);
    out := "";
    var i := 0;
    while i < |t|
      invariant 0 <= i <= |t|
      invariant out == Merge(t[..i], Marks(t[..i]))
      invariant i > 0 ==> out != [] && out[|out| - 1] == t[i - 1]
      invariant i == 0 ==> out == []
    {
      var c := t[i];
      if out != [] && c != ' ' && (IsUpper(c) || c == '(' || c == '.' || out[|out| - 1] == '.')
         && out[|out| - 1] != '(' && out[|out| - 1] != ' '
      {
        out := out + [' ', c];
      } else {
        out := out + [c];
      }
      MergeStep(t, i);
      i := i + 1;
    }
    assert t[..|t|] == t;
  }

  lemma MergeStep(t: string, i: nat)
    requires i < |t|
    ensures Merge(t[..i + 1], Marks(t[..i + 1]))
            == Merge(t[..i], Marks(t[..i]))
               + (if i > 0 && Boundary(t[i - 1], t[i]) then [' ', t[i]] else [t[i]])
  {
    var u := t[..i + 1];
    assert u[..i] == t[..i];
    assert Marks(u)[..i] == Marks(t[..i]);
  }

  /** Deleting the inserted spaces gives back the input, and every inserted
      character is a space. */
  lemma {:induction false} UnmergeMerge(t: string, m: seq<bool>)
    requires |m| == |t|
    ensures Unmerge(Merge(t, m), m) == Some(t)
    decreases |t|
  {
    if t != [] {
      var n := |t| - 1;
      UnmergeMerge(t[..n], m[..n]);
      UnmergeLast(Merge(t[..n], m[..n]), t[n], m, t[..n]);
      assert t[..n] + [t[n]] == t;
    }
  }

  /** Unmerge takes off the last character, and the space before it when that
      character is marked. */
  lemma UnmergeLast(p: string, c: char, m: seq<bool>, u: string)
    requires m != [] && Unmerge(p, m[..|m| - 1]) == Some(u)
    ensures Unmerge(p + (if m[|m| - 1] then [' ', c] else [c]), m) == Some(u + [c])
  {
    var tail := if m[|m| - 1] then [' ', c] else [c];
    var o := p + tail;
    assert o[..|o| - |tail|] == p;
    assert o[|o| - 1] == c;
    assert m[|m| - 1] ==> o[|o| - 2] == ' ';
  }

  /** fix_compound_sign only inserts spaces: deleting them gives back the
      NOR-translated input. */
  lemma FixOnlyInsertsSpaces(s: string)
    ensures Unmerge(Fix(s), Marks(Nor(s))) == Some(Nor(s))
  {
    UnmergeMerge(Nor(s), Marks(Nor(s)));
  }

  /** No two neighbouring characters would get a space between them. */
  predicate Settled(o: string)
  {
    forall i :: 0 < i < |o| ==> !BoundaryAt(o, i)
  }

  /** A space would go in front of `o[i]`. */
  predicate BoundaryAt(o: string, i: int)
    requires 0 < i < |o|
  {
    Boundary(o[i - 1], o[i])
  }

  lemma {:induction false} MergeIsSettled(t: string)
    ensures Settled(Merge(t, Marks(t)))
    decreases |t|
  {
    if t != [] {
      var n := |t| - 1;
      MergeStep(t, n);
      assert t[..n + 1] == t;
      MergeIsSettled(t[..n]);
      var p := Merge(t[..n], Marks(t[..n]));
      var marked := n > 0 && Boundary(t[n - 1], t[n]);
      var o := p + (if marked then [' ', t[n]] else [t[n]]);
      assert n > 0 ==> p != [] && p[|p| - 1] == t[n - 1];
      forall i | 0 < i < |o|
        ensures !BoundaryAt(o, i)
      {
        if i < |p| {
          assert o[i - 1] == p[i - 1] && o[i] == p[i];
          assert !BoundaryAt(p, i);
        }
      }
    }
  }

  lemma {:induction false} MergeOfSettled(o: string)
    requires Settled(o)
    ensures Merge(o, Marks(o)) == o
    decreases |o|
  {
    if o != [] {
      var n := |o| - 1;
      var u := o[..n];
      assert Settled(u) by {
        forall i | 0 < i < |u|
          ensures !BoundaryAt(u, i)
        {
          assert u[i - 1] == o[i - 1] && u[i] == o[i];
          assert !BoundaryAt(o, i);
        }
      }
      MergeStep(o, n);
      assert o[..n + 1] == o;
      assert n > 0 ==> !BoundaryAt(o, n);
      MergeOfSettled(u);
      assert u + [o[n]] == o;
    }
  }

  lemma {:induction false} MergeKeepsNoSubscripts(t: string, m: seq<bool>)
    requires |m| == |t| && NoSubscripts(t)
    ensures NoSubscripts(Merge(t, m))
    decreases |t|
  {
    if t != [] {
      var n := |t| - 1;
      MergeKeepsNoSubscripts(t[..n], m[..n]);
    }
  }

  /** fix_compound_sign is idempotent. */
  lemma FixIdempotent(s: string)
    ensures Fix(Fix(s)) == Fix(s)
  {
    var t := Nor(s);
    var o := Fix(s);
    MergeKeepsNoSubscripts(t, Marks(t));
    NorOfUnsubscripted(o);
    MergeIsSettled(t);
    MergeOfSettled(o);
  }

  /** NOR works character by character, so it distributes over joining. */
  lemma NorJoin(a: string, b: string)
    ensures Nor(a + b) == Nor(a) + Nor(b)
  {
    assert forall i :: 0 <= i < |a + b| ==> Nor(a + b)[i] == (Nor(a) + Nor(b))[i];
  }

  /** Two settled pieces with a boundary where they meet: fix_compound_sign
      puts one space at the join and nowhere else. */
  lemma FixJoin(x: string, y: string)
    requires x != [] && y != [] && NoSubscripts(x) && NoSubscripts(y)
    requires Settled(x) && Settled(y) && Boundary(x[|x| - 1], y[0])
    ensures Fix(x + y) == x + " " + y
  {
    assert NoSubscripts(x + y) by {
      assert forall i :: 0 <= i < |x + y| ==> (x + y)[i] == if i < |x| then x[i] else y[i - |x|];
    }
    NorOfUnsubscripted(x + y);
    MergeJoin(x, y, |y|);
    assert (x + y)[..|x| + |y|] == x + y;
    assert y[..|y|] == y;
  }

  lemma {:induction false} MergeJoin(x: string, y: string, j: nat)
    requires x != [] && Settled(x) && Settled(y) && 0 < j <= |y|
    requires Boundary(x[|x| - 1], y[0])
    ensures Merge((x + y)[..|x| + j], Marks((x + y)[..|x| + j])) == x + " " + y[..j]
    decreases j
  {
    if j == 1 {
      MergeJoinFirst(x, y);
    } else {
      MergeJoin(x, y, j - 1);
      MergeJoinStep(x, y, j);
    }
  }

  /** The first character of `y` gets the space. */
  lemma MergeJoinFirst(x: string, y: string)
    requires x != [] && Settled(x) && y != []
    requires Boundary(x[|x| - 1], y[0])
    ensures Merge((x + y)[..|x| + 1], Marks((x + y)[..|x| + 1])) == x + " " + y[..1]
  {
    var t := x + y;
    MergeStep(t, |x|);
    assert t[..|x|] == x;
    MergeOfSettled(x);
    assert t[|x| - 1] == x[|x| - 1] && t[|x|] == y[0];
    assert y[..1] == [y[0]];
  }

  /** Every later character of `y` is taken as it is. */
  lemma MergeJoinStep(x: string, y: string, j: nat)
    requires x != [] && Settled(y) && 1 < j <= |y|
    requires Merge((x + y)[..|x| + j - 1], Marks((x + y)[..|x| + j - 1])) == x + " " + y[..j - 1]
    ensures Merge((x + y)[..|x| + j], Marks((x + y)[..|x| + j])) == x + " " + y[..j]
  {
    var t := x + y;
    var i := |x| + j - 1;
    var c := y[j - 1];
    assert t[i - 1] == y[j - 2] && t[i] == c;
    assert !BoundaryAt(y, j - 1);
    assert !Boundary(t[i - 1], t[i]);
    MergeStep(t, i);
    assert Merge(t[..i + 1], Marks(t[..i + 1])) == x + " " + y[..j - 1] + [c];
    assert y[..j] == y[..j - 1] + [c];
  }


  /** recognize translates with NOR before fix_compound_sign translates again;
      the second translation changes nothing. */
  lemma FixOfNor(s: string)
    ensures Fix(Nor(s)) == Fix(s)
  {
    NorOfUnsubscripted(Nor(s));
  }
}
