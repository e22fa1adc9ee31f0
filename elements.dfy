/** Elements: parse_element_sign, the two ways of building an Element (from a
    name, or from a formula token), get_oxidation, subscript, and the element's
    sign and name (nazvoslovi.py:92-117, 216-259). */
module Elements {
  import opened Failures
  import opened PyStr
  import opened Shapes
  import opened Tables

  /** An atom of a compound: its table entry, how many of it there are, and its
      oxidation number, which stays unknown for an element read from a formula
      until a compound completes it. */
  datatype Element = Element(data: ElementData, amount: int, oxidation: Option<int>)

  // ---------------------------------------------------------------------------
  // parse_element_sign (nazvoslovi.py:92-102)

  /** The length of the symbol at the front of a formula token: one character
      when the second is a digit, two otherwise. */
  function SymbolLength(s: string): (n: nat)
    ensures n <= |s|
  {
    if |s| >= 2 && IsAsciiDigit(s[1]) then 1 else if |s| >= 2 then 2 else |s|
  }

  /** The symbol and the amount of a formula token: the amount is the integer
      after the symbol, 1 when nothing follows; an empty token raises
      IndexError and a tail that is not an integer ValueError. */
  function ParseElementSign(s: string): (r: Result<(string, int)>)
    ensures r.Ok? ==> r.value.0 == s[..SymbolLength(s)]
    ensures r.Ok? && SymbolLength(s) == |s| ==> r.value.1 == 1
    ensures r.Ok? && SymbolLength(s) < |s| ==> ParseInt(s[SymbolLength(s)..]) == Ok(r.value.1)
    ensures r.Err? <==> s == [] || (SymbolLength(s) < |s| && ParseInt(s[SymbolLength(s)..]).Err?)
    ensures r.Err? ==> (r.error == IndexError <==> s == []) && (r.error == IndexError || r.error == ValueError)
  {
    if |s| == 0 then Err(IndexError)
    else if |s| == 1 then Ok((s, 1))
    else if IsAsciiDigit(s[1]) then
      var n :- ParseInt(s[1..]);
      Ok((s[..1], n))
    else if |s| == 2 then Ok((s, 1))
    else
      var n :- ParseInt(s[2..]);
      Ok((s[..2], n))
  }

  /** An element symbol: a capital, then possibly a small letter. */
  predicate IsSymbol(sym: string)
  {
    1 <= |sym| <= 2 && IsAsciiUpper(sym[0]) && (|sym| == 2 ==> IsAsciiLower(sym[1]))
  }

  /** parse_element_sign reads back a symbol followed by str(n), for every
      amount a two-character symbol can carry and every non-negative amount of
      a one-character symbol; a bare symbol has amount 1. */
  lemma ParseElementSignOfToken(sym: string, n: int)
    requires IsSymbol(sym)
    requires |sym| == 1 ==> n >= 0
    ensures ParseElementSign(sym + Decimal(n)) == Ok((sym, n))
    ensures ParseElementSign(sym) == Ok((sym, 1))
  {
    var s := sym + Decimal(n);
    assert s[|sym|..] == Decimal(n);
    ParseIntDecimal(n);
    if |sym| == 1 {
      assert s[1] == Digits(n)[0];
      assert s[..1] == sym;
    } else {
      assert s[..2] == sym;
    }
  }

  // ---------------------------------------------------------------------------
  // Element.__init__ (nazvoslovi.py:216-242)

  /** Whether `sign` is to be read as a name: the caller's choice, or
      is_compound_name when the caller leaves it open. */
  function ReadAsName(sign: string, name: Option<bool>): (r: Result<bool>)
    ensures name.Some? ==> r == Ok(name.value)
    ensures name.None? ==> r == IsCompoundName(sign)
  {
    if name.Some? then Ok(name.value) else IsCompoundName(sign)
  }

  /** Element(sign, name, tablekey=key, amount=amount, oxidation=oxidation).
      A name is lower-cased and looked up by its stem, which fixes the
      oxidation number; a formula token is parsed and its symbol, title-cased,
      looked up in the table, leaving the oxidation unknown. The given amount
      and oxidation then replace the ones found. */
  function NewElement(sign: string, name: Option<bool>, key: TableKey, amount: Option<int>,
                      oxidation: Option<int>, t: Tables): (r: Result<Element>)
    ensures r.Ok? && oxidation.Some? ==> r.value.oxidation == oxidation
    ensures r.Ok? && amount.Some? ==> r.value.amount == amount.value
    ensures r.Ok? && ReadAsName(sign, name) == Ok(true) ==> r.value.oxidation.Some?
    ensures r.Ok? && ReadAsName(sign, name) == Ok(true) && amount.None? ==> r.value.amount == 1
    ensures r.Ok? && ReadAsName(sign, name) == Ok(false) && oxidation.None? ==> r.value.oxidation.None?
    ensures ReadAsName(sign, name).Err? ==> r == Err(IncorrectFormat)
    ensures r.Err? && ReadAsName(sign, name) == Ok(true) ==>
              r.error == UnknownElement || r.error == WrongOxidation
    ensures r.Err? && ReadAsName(sign, name) == Ok(false) ==>
              r.error == IndexError || r.error == ValueError || r.error == KeyError
  {
    var isName :- ReadAsName(sign, name);
    var e :- if isName then NamedElement(sign, key, t) else FormulaElement(sign, t);
    Ok(Element(e.data,
               if amount.Some? then amount.value else e.amount,
               if oxidation.Some? then oxidation else e.oxidation))
  }

  /** A one-letter formula sign such as "H" or "O" always parses: creating its
      element can only fail in the table lookup. */
  lemma OneLetterElement(c: char, key: TableKey, amount: Option<int>, oxidation: Option<int>, t: Tables)
    requires IsAsciiUpper(c)
    ensures NewElement([c], None, key, amount, oxidation, t).Err? ==>
              NewElement([c], None, key, amount, oxidation, t).error == KeyError
  {
    CapitalIsFormula(c);
    assert ParseElementSign([c]) == Ok(([c], 1));
  }

  /** The amount a token states when Element(token) reads it as a formula:
      the integer after its symbol, 1 when nothing follows. None when the
      token is read as a name or does not parse. */
  function FormulaAmount(sign: string): (r: Option<int>)
    ensures r.Some? <==> IsCompoundName(sign) == Ok(false) && ParseElementSign(sign).Ok?
  {
    if IsCompoundName(sign) == Ok(false) && ParseElementSign(sign).Ok? then Some(ParseElementSign(sign).value.1)
    else None
  }

  /** A token read as a formula becomes the table entry of its parsed symbol,
      title-cased, with the parsed amount unless one is given; it fails
      exactly when the token does not parse or the symbol is not in the
      table. */
  lemma FormulaTokenElement(sign: string, name: Option<bool>, key: TableKey, amount: Option<int>,
                            oxidation: Option<int>, t: Tables)
    ensures ReadAsName(sign, name) == Ok(false) ==>
              (NewElement(sign, name, key, amount, oxidation, t).Ok? <==>
                 ParseElementSign(sign).Ok? && Lookup(t, Title(ParseElementSign(sign).value.0)).Ok?)
    ensures ReadAsName(sign, name) == Ok(false) && NewElement(sign, name, key, amount, oxidation, t).Ok? ==>
              NewElement(sign, name, key, amount, oxidation, t).value
              == Element(Lookup(t, Title(ParseElementSign(sign).value.0)).value,
                         if amount.Some? then amount.value else ParseElementSign(sign).value.1,
                         oxidation)
  {
  }

  /** The name branch of Element.__init__. */
  function NamedElement(sign: string, key: TableKey, t: Tables): (r: Result<Element>)
    ensures r.Ok? ==> r.value.amount == 1 && r.value.oxidation.Some?
    ensures r.Err? ==> r.error == UnknownElement || r.error == WrongOxidation
  {
    var found :- LoadNameOf(Lower(sign), key, t);
    Ok(Element(found.0, 1, Some(found.1)))
  }

  /** The formula branch of Element.__init__. */
  function FormulaElement(sign: string, t: Tables): (r: Result<Element>)
    ensures r.Ok? ==> r.value.oxidation.None?
    ensures r.Err? ==> r.error == IndexError || r.error == ValueError || r.error == KeyError
  {
    var parsed :- ParseElementSign(sign);
    var data :- Lookup(t, Title(parsed.0));
    Ok(Element(data, parsed.1, None))
  }

  /** get_oxidation: the element's total charge, oxidation times amount; only
      defined once the oxidation is known. */
  function GetOxidation(e: Element): (r: int)
    requires e.oxidation.Some?
    ensures r == 0 <==> e.amount == 0 || e.oxidation.value == 0
    ensures e.amount > 0 ==> (r > 0 <==> e.oxidation.value > 0)
  {
    e.oxidation.value * e.amount
  }

  // The charge arithmetic the compounds do on their parts, one function per
  // shape of expression, so that a compound is built from the same terms
  // whichever way it is described.

  /** -(a.get_oxidation() - charge): the oxidation that brings `a` to `charge`. */
  function Completing(charge: int, a: Element): int
    requires a.oxidation.Some?
  {
    -(GetOxidation(a) - charge)
  }

  /** -(a.get_oxidation() + b.get_oxidation() - charge) */
  function CompletingPair(charge: int, a: Element, b: Element): int
    requires a.oxidation.Some? && b.oxidation.Some?
  {
    -(GetOxidation(a) + GetOxidation(b) - charge)
  }

  /** (a.get_oxidation() + b.get_oxidation()) // 2 */
  function HalfPair(a: Element, b: Element): int
    requires a.oxidation.Some? && b.oxidation.Some?
  {
    (GetOxidation(a) + GetOxidation(b)) / 2
  }

  /** (a.get_oxidation() - charge) // 2 */
  function HalfExcess(a: Element, charge: int): int
    requires a.oxidation.Some?
  {
    (GetOxidation(a) - charge) / 2
  }

  // ---------------------------------------------------------------------------
  // subscript (nazvoslovi.py:104-117)

  /** OXIDATION: the superscript Roman numerals 0 to 7, 0 shown as "^". */
  const RomanMarks: seq<string> := ["^", "ᶦ", "ᶦᶦ", "ᶦᶦᶦ", "ᶦᵛ", "ᵛ", "ᵛᶦ", "ᵛᶦᶦ"]

  /** str(amount), where a missing amount stands for the empty string the
      callers pass when the amount is 1. */
  function AmountText(amount: Option<int>): string
  {
    match amount
    case None => ""
    case Some(n) => Decimal(n)
  }

  /** subscript(amount, oxidation): the amount in subscript digits, after the
      superscript oxidation mark (with "⁻" for a negative oxidation) when an
      oxidation is given. Marks exist for -7 to 7 only; any other oxidation
      number raises IndexError. */
  function Subscript(amount: Option<int>, oxidation: Option<int>): (r: Result<string>)
    ensures r.Ok? <==> oxidation.None? || -8 < oxidation.value < 8
    ensures r.Err? ==> r.error == IndexError
    ensures r.Ok? && oxidation.None? ==> r.value == Sub(AmountText(amount))
    ensures r.Ok? && oxidation.Some? && oxidation.value >= 0 ==>
              r.value == RomanMarks[oxidation.value] + Sub(AmountText(amount))
    ensures r.Ok? && oxidation.Some? && oxidation.value < 0 ==>
              r.value == "⁻" + RomanMarks[-oxidation.value] + Sub(AmountText(amount))
  {
    var digits := Sub(AmountText(amount));
    match oxidation
    case None => Ok(digits)
    case Some(k) =>
      if k >= 0 then
        var mark :- At(RomanMarks, k);
        Ok(mark + digits)
      else
        var mark :- At(RomanMarks, -k);
        Ok("⁻" + mark + digits)
  }

  /** The subscript digits read back, through NOR and int(), as the amount. */
  lemma SubscriptReadsBack(n: int)
    ensures Subscript(Some(n), None).Ok?
    ensures ParseInt(Nor(Subscript(Some(n), None).value)) == Ok(n)
  {
    NorOfSub(Decimal(n));
    DecimalHasNoSubscripts(n);
    NorOfUnsubscripted(Decimal(n));
    ParseIntDecimal(n);
  }

  lemma DecimalHasNoSubscripts(n: int)
    ensures NoSubscripts(Decimal(n))
  {
    var d := Decimal(n);
    if n >= 0 {
      assert forall i :: 0 <= i < |d| ==> IsAsciiDigit(d[i]);
    } else {
      assert forall i :: 1 <= i < |d| ==> IsAsciiDigit(d[i]) by {
        assert d[1..] == Digits(-n);
      }
    }
  }

  /** Different oxidation numbers get different marks: the rendering loses
      nothing of the oxidation. */
  lemma SubscriptInjective(amount: Option<int>, k: int, l: int)
    requires Subscript(amount, Some(k)).Ok? && Subscript(amount, Some(l)).Ok?
    requires Subscript(amount, Some(k)) == Subscript(amount, Some(l))
    ensures k == l
  {
    var d := Sub(AmountText(amount));
    var x := Subscript(amount, Some(k)).value;
    MinusMarksNegative(amount, k);
    MinusMarksNegative(amount, l);
    if k >= 0 && l >= 0 {
      assert RomanMarks[k] == x[..|x| - |d|] == RomanMarks[l];
      MarksDistinct(k, l);
    } else if k < 0 && l < 0 {
      assert RomanMarks[-k] == x[1..|x| - |d|] == RomanMarks[-l];
      MarksDistinct(-k, -l);
    }
  }

  /** No two oxidation marks are the same text. */
  lemma MarksDistinct(i: int, j: int)
    requires 0 <= i < |RomanMarks| && 0 <= j < |RomanMarks|
    requires RomanMarks[i] == RomanMarks[j]
    ensures i == j
  {
  }

  /** A rendered oxidation starts with "⁻" exactly when it is negative. */
  lemma MinusMarksNegative(amount: Option<int>, k: int)
    requires Subscript(amount, Some(k)).Ok?
    ensures Subscript(amount, Some(k)).value[0] == '⁻' <==> k < 0
  {
    if k >= 0 {
      assert Subscript(amount, Some(k)).value[0] == RomanMarks[k][0];
    }
  }

  // ---------------------------------------------------------------------------
  // Element.tosign and Element.toname (nazvoslovi.py:251-259)

  /** The element's sign: the symbol, the amount in subscript unless it is 1,
      and with `withOxidation` the oxidation mark when the oxidation is known. */
  function ElementToSign(e: Element, withOxidation: bool): (r: Result<string>)
    ensures !withOxidation || e.oxidation.None? ==> r.Ok?
    ensures r.Ok? ==> e.data.sign <= r.value
    ensures r.Ok? && e.amount == 1 && (!withOxidation || e.oxidation.None?) ==> r.value == e.data.sign
    ensures r.Ok? <==> !withOxidation || e.oxidation.None? || -8 < e.oxidation.value < 8
    ensures r.Ok? ==> r.value == e.data.sign + Subscript(if e.amount != 1 then Some(e.amount) else None,
                                                         if withOxidation then e.oxidation else None).value
  {
    var sub :- Subscript(if e.amount != 1 then Some(e.amount) else None,
                         if withOxidation then e.oxidation else None);
    Ok(e.data.sign + sub)
  }

  /** The sign, with NOR applied, reads back through parse_element_sign as the
      symbol and the amount. */
  lemma ElementSignReadsBack(e: Element)
    requires IsSymbol(e.data.sign)
    requires |e.data.sign| == 1 ==> e.amount >= 0
    ensures ElementToSign(e, false).Ok?
    ensures ParseElementSign(Nor(ElementToSign(e, false).value)) == Ok((e.data.sign, e.amount))
  {
    var sym := e.data.sign;
    var s := ElementToSign(e, false).value;
    assert NoSubscripts(sym);
    NorOfUnsubscripted(sym);
    if e.amount == 1 {
      assert s == sym;
      ParseElementSignOfToken(sym, 0);
    } else {
      var d := Decimal(e.amount);
      assert s == sym + Sub(d);
      NorOfSub(d);
      DecimalHasNoSubscripts(e.amount);
      NorOfUnsubscripted(d);
      assert Nor(s) == Nor(sym) + Nor(Sub(d));
      ParseElementSignOfToken(sym, e.amount);
    }
  }

  /** The sign of an element with an amount below 100, with NOR applied: the
      symbol and the amount's digits (none for 1). It parses back to the
      symbol and the amount. */
  lemma ElementTokenShape(e: Element)
    requires IsSymbol(e.data.sign) && 0 <= e.amount < 100
    ensures ElementToSign(e, false).Ok?
    ensures Nor(ElementToSign(e, false).value) == e.data.sign + (if e.amount != 1 then Decimal(e.amount) else "")
    ensures ParseElementSign(Nor(ElementToSign(e, false).value)) == Ok((e.data.sign, e.amount))
    ensures |if e.amount != 1 then Decimal(e.amount) else ""| <= 2
    ensures AllDigits(if e.amount != 1 then Decimal(e.amount) else "")
  {
    ElementTokenText(e);
    ParseElementSignOfToken(e.data.sign, e.amount);
    SmallDecimal(e.amount);
    assert e.data.sign + "" == e.data.sign;
  }

  /** str(n) of a number below 100 is at most two digits. */
  lemma SmallDecimal(n: int)
    requires 0 <= n < 100
    ensures |Decimal(n)| <= 2 && AllDigits(Decimal(n))
  {
    if n >= 10 {
      assert Digits(n) == Digits(n / 10) + [DigitChar(n % 10)];
    }
  }

  lemma ElementTokenText(e: Element)
    requires IsSymbol(e.data.sign) && e.amount >= 0
    ensures ElementToSign(e, false).Ok?
    ensures Nor(ElementToSign(e, false).value) == e.data.sign + (if e.amount != 1 then Decimal(e.amount) else "")
  {
    var sym := e.data.sign;
    assert NoSubscripts(sym);
    NorOfUnsubscripted(sym);
    if e.amount != 1 {
      var d := Decimal(e.amount);
      NorOfSub(d);
      DecimalHasNoSubscripts(e.amount);
      NorOfUnsubscripted(d);
      NorJoin(sym, Sub(d));
      assert ElementToSign(e, false).value == sym + Sub(d);
    } else {
      assert ElementToSign(e, false).value == sym;
      assert sym + "" == sym;
    }
  }

  /** A symbol and at most two digits form one formula token: no space in
      it, none that fix_compound_sign would add, a capital first, and
      neither "(" nor a space last. */
  lemma SymbolTokenShape(sym: string, d: string)
    requires IsSymbol(sym) && |d| <= 2 && AllDigits(d)
    ensures Settled(sym + d) && NoSpace(sym + d)
    ensures IsAsciiUpper((sym + d)[0])
    ensures (sym + d)[|sym + d| - 1] != '(' && (sym + d)[|sym + d| - 1] != ' '
    ensures IsCompoundName(sym + d) == Ok(false)
  {
    var tok := sym + d;
    SymbolTokenIsFormula(sym, d);
    assert forall i :: 0 < i < |tok| ==> IsAsciiLower(tok[i]) || IsAsciiDigit(tok[i]);
    forall i | 0 < i < |tok|
      ensures !BoundaryAt(tok, i)
    {
      assert IsAsciiLower(tok[i]) || IsAsciiDigit(tok[i]);
    }
    assert forall i :: 0 <= i < |tok| ==> IsAsciiUpper(tok[i]) || IsAsciiLower(tok[i]) || IsAsciiDigit(tok[i]);
  }

  /** The element's name: its stem with the suffix of its oxidation number in
      the context `key` when that number is positive, its plain name
      otherwise. A positive number past the suffix list raises IndexError; an
      element without a stem raises TypeError. */
  function ElementToName(e: Element, key: TableKey, t: Tables): (r: Result<string>)
    ensures e.oxidation.None? || e.oxidation.value <= 0 ==> r == Ok(e.data.name)
    ensures e.oxidation.Some? && e.oxidation.value > 0 ==>
              (r.Ok? <==> e.oxidation.value < |t.Suffixes(key)| && e.data.naming.Some?)
    ensures r.Ok? && e.oxidation.Some? && e.oxidation.value > 0 ==>
              r.value == e.data.naming.value + t.Suffixes(key)[e.oxidation.value]
    ensures r.Err? ==> r.error == IndexError || r.error == TypeError
  {
    if e.oxidation.Some? && e.oxidation.value > 0 then
      var suffix :- At(t.Suffixes(key), e.oxidation.value);
      match e.data.naming
      case None => Err(TypeError)
      case Some(n) => Ok(n + suffix)
    else
      Ok(e.data.name)
  }

  /** The conditions under which the name of `e`, the `k`-th entry of the
      table, reads back: a positive oxidation number with a suffix, a stem,
      suffixes that are all different and do not contain the stem, no earlier
      entry whose stem claims the name, and a name already in lower case. */
  predicate NameReadsBack(t: Tables, key: TableKey, k: nat, e: Element)
  {
    && k < |t.elements| && e.data == t.elements[k].1
    && e.oxidation.Some? && 0 < e.oxidation.value < |t.Suffixes(key)|
    && e.data.naming.Some? && e.data.naming.value != []
    && (forall j, l :: 0 <= j < l < |t.Suffixes(key)| ==> t.Suffixes(key)[j] != t.Suffixes(key)[l])
    && !Contains(t.Suffixes(key)[e.oxidation.value], e.data.naming.value)
    && (forall j :: 0 <= j < k ==>
          MatchingNaming(t.elements[j].1.naming, e.data.naming.value + t.Suffixes(key)[e.oxidation.value]).None?)
    && Lower(e.data.naming.value + t.Suffixes(key)[e.oxidation.value])
       == e.data.naming.value + t.Suffixes(key)[e.oxidation.value]
  }

  /** An element named after the first entry whose stem claims its name reads
      back, through Element(name, True), as that entry with the same oxidation
      number. */
  lemma ElementNameReadsBack(t: Tables, key: TableKey, k: nat, e: Element)
    requires NameReadsBack(t, key, k, e)
    ensures ElementToName(e, key, t).Ok?
    ensures NewElement(ElementToName(e, key, t).value, Some(true), key, None, None, t)
            == Ok(Element(e.data, 1, e.oxidation))
  {
    LoadNameOfRendered(t, key, k, e.oxidation.value);
  }
}
