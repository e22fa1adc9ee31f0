// The compound classes of nazvoslovi.py (Oxid, Sulfid, Acid, SaltAcid, Salt,
// HydrogenAcid, HydrogenSalt, SaltHydrate) as values, and what their
// constructors compute from a name or from a formula. Each constructor is a
// function returning the finished compound or the exception the source raises
// first; the statement-by-statement construction is in module Construction.

module Compounds {
  import opened Failures
  import opened PyStr
  import opened Balancing
  import opened Shapes
  import opened Tables
  import opened Elements

  // ---------------------------------------------------------------------------
  // Tuple unpacking of split results

  /** `a, b = parts`: ValueError unless there are exactly two parts. */
  function Unpack2(parts: seq<string>): (r: Result<(string, string)>)
    ensures r.Ok? <==> |parts| == 2
    ensures r.Ok? ==> r.value == (parts[0], parts[1])
    ensures r.Err? ==> r.error == ValueError
  {
    if |parts| == 2 then Ok((parts[0], parts[1])) else Err(ValueError)
  }

  /** `a, b, c = parts`: ValueError unless there are exactly three parts. */
  function Unpack3(parts: seq<string>): (r: Result<(string, string, string)>)
    ensures r.Ok? <==> |parts| == 3
    ensures r.Ok? ==> r.value == (parts[0], parts[1], parts[2])
    ensures r.Err? ==> r.error == ValueError
  {
    if |parts| == 3 then Ok((parts[0], parts[1], parts[2])) else Err(ValueError)
  }

  predicate Known(e: Element)
  {
    e.oxidation.Some?
  }

  lemma HalfOfEven(x: int)
    requires x % 2 == 0
    ensures 2 * (x / 2) == x
  {
  }

  /** Adding an even number keeps the parity. */
  lemma ParityOfShift(e: int, h: int)
    requires h % 2 == 0
    ensures (h + e) % 2 == e % 2
  {
    var k := h / 2;
    assert h == 2 * k;
    var q := e / 2;
    assert e == 2 * q + e % 2;
    assert h + e == 2 * (k + q) + e % 2;
  }

  // ---------------------------------------------------------------------------
  // SingleElementCompound, Oxid and Sulfid (nazvoslovi.py:262-320)

  datatype BinaryKind = Oxid | Sulfid

  function MainSign(kind: BinaryKind): string
  {
    match kind
    case Oxid => "O"
    case Sulfid => "S"
  }

  function MainName(kind: BinaryKind): string
  {
    match kind
    case Oxid => "oxid"
    case Sulfid => "sulfid"
  }

  /** main_oxidation of both Oxid and Sulfid. */
  const MainOxidation: int := -2

  /** An oxide or sulfide: the main element (O or S) and the other one. */
  datatype Binary = Binary(kind: BinaryKind, main: Element, alt: Element)

  /** From a name such as "oxid uhličitý": the named element fixes its
      oxidation number, and the cross rule gives amounts that cancel the
      charges, in lowest terms. */
  function BinaryFromName(kind: BinaryKind, sign: string, t: Tables): (r: Result<Binary>)
    ensures r.Ok? ==> r.value.kind == kind && r.value.main.oxidation == Some(MainOxidation)
    ensures r.Ok? ==> Known(r.value.alt) && GetOxidation(r.value.main) + GetOxidation(r.value.alt) == 0
    ensures r.Ok? ==> r.value.main.amount >= 0 && Coprime(r.value.main.amount, r.value.alt.amount)
    ensures r.Ok? ==> (r.value.main.amount == 0 <==> r.value.alt.oxidation.value == 0)
    ensures r.Err? ==> r.error != ZeroDivisionError && r.error != IncorrectFormat
  {
    var words :- Unpack2(Words(sign));
    var main :- NewElement(MainSign(kind), Some(false), ElementKey, None, Some(MainOxidation), t);
    var alt :- NewElement(words.1, Some(true), ElementKey, None, None, t);
    var amounts := CrossRule(main.oxidation.value, alt.oxidation.value);
    Ok(Binary(kind, main.(amount := amounts.0), alt.(amount := amounts.1)))
  }

  /** From a formula such as "C O2": the other element's oxidation number is
      the oxygen's (or sulfur's) charge floor-divided by its amount, and the
      amounts are then reduced. The total charge left is never positive and
      is smaller than the other element's amount: zero exactly when the
      formula balances. An amount of zero raises ZeroDivisionError. */
  function BinaryFromFormula(kind: BinaryKind, sign: string, t: Tables): (r: Result<Binary>)
    ensures r.Ok? ==> r.value.kind == kind && r.value.main.oxidation == Some(MainOxidation)
    ensures r.Ok? ==> Known(r.value.alt) && Coprime(r.value.main.amount, r.value.alt.amount)
    ensures r.Ok? && r.value.alt.amount > 0 ==>
              -r.value.alt.amount < GetOxidation(r.value.main) + GetOxidation(r.value.alt) <= 0
    ensures r == Err(ZeroDivisionError) <==>
              |Words(sign)| == 2 && NewElement(Words(sign)[1], None, ElementKey, None, Some(MainOxidation), t).Ok?
              && NewElement(Words(sign)[0], None, ElementKey, None, None, t).Ok?
              && NewElement(Words(sign)[0], None, ElementKey, None, None, t).value.amount == 0
    ensures r.Ok? ==> |Words(sign)| == 2
    ensures r.Ok? && FormulaAmount(Words(sign)[0]).Some? && FormulaAmount(Words(sign)[1]).Some? ==>
              FormulaAmount(Words(sign)[0]).value != 0
              && (r.value.main.amount, r.value.alt.amount)
                 == Factor(FormulaAmount(Words(sign)[1]).value, FormulaAmount(Words(sign)[0]).value)
              && r.value.alt.oxidation
                 == Some(PyFloorDiv(2 * FormulaAmount(Words(sign)[1]).value, FormulaAmount(Words(sign)[0]).value))
  {
    var words :- Unpack2(Words(sign));
    FormulaTokenElement(words.1, None, ElementKey, None, Some(MainOxidation), t);
    FormulaTokenElement(words.0, None, ElementKey, None, None, t);
    var main :- NewElement(words.1, None, ElementKey, None, Some(MainOxidation), t);
    var alt :- NewElement(words.0, None, ElementKey, None, None, t);
    if alt.amount == 0 then Err(ZeroDivisionError)
    else ReducedFacts(kind, main, alt); Ok(Reduced(kind, main, alt))
  }

  /** The name branch depends on the name only through the element its second
      word names: two names of two words that name the same element give the
      same compound. */
  lemma BinaryNameOfAlt(kind: BinaryKind, sign: string, other: string, t: Tables)
    requires |Words(sign)| == 2 && |Words(other)| == 2
    requires NewElement(Words(sign)[1], Some(true), ElementKey, None, None, t)
             == NewElement(Words(other)[1], Some(true), ElementKey, None, None, t)
    ensures BinaryFromName(kind, sign, t) == BinaryFromName(kind, other, t)
  {
  }

  /** The other element read from a name, before the cross rule sets its
      amount, is the one the name gives with amount 1. */
  lemma BinaryNameAlt(kind: BinaryKind, sign: string, t: Tables)
    requires BinaryFromName(kind, sign, t).Ok?
    ensures |Words(sign)| == 2
    ensures NewElement(Words(sign)[1], Some(true), ElementKey, None, None, t)
            == Ok(BinaryFromName(kind, sign, t).value.alt.(amount := 1))
  {
  }

  /** The formula branch on two tokens whose elements are known. */
  lemma BinaryFormulaOfTokens(kind: BinaryKind, sign: string, ta: string, tm: string, main: Element, alt: Element,
                              t: Tables)
    requires Words(sign) == [ta, tm]
    requires NewElement(tm, None, ElementKey, None, Some(MainOxidation), t) == Ok(main)
    requires NewElement(ta, None, ElementKey, None, None, t) == Ok(alt)
    requires alt.amount != 0
    ensures BinaryFromFormula(kind, sign, t) == Ok(Reduced(kind, main, alt))
  {
  }

  /** -main.get_oxidation() // alt.amount: the other element's oxidation
      number read off a formula. */
  function AltOxidation(main: Element, alt: Element): int
    requires main.oxidation.Some? && alt.amount != 0
  {
    PyFloorDiv(-GetOxidation(main), alt.amount)
  }

  /** The last two statements of the formula branch: the other element's
      oxidation number by floor division, then the amounts reduced. */
  function Reduced(kind: BinaryKind, main: Element, alt: Element): (b: Binary)
    requires main.oxidation.Some? && alt.amount != 0
    ensures b.kind == kind && b.main.oxidation == main.oxidation && Known(b.alt)
  {
    var amounts := Factor(main.amount, alt.amount);
    Binary(kind, main.(amount := amounts.0),
           alt.(amount := amounts.1, oxidation := Some(AltOxidation(main, alt))))
  }

  /** What the floor division and the reduction promise: amounts in lowest
      terms, the sign of the other amount kept, and a total charge that is
      never positive and smaller in size than the other amount. */
  lemma ReducedFacts(kind: BinaryKind, main: Element, alt: Element)
    requires main.oxidation == Some(MainOxidation) && alt.amount != 0
    ensures Coprime(Reduced(kind, main, alt).main.amount, Reduced(kind, main, alt).alt.amount)
    ensures Reduced(kind, main, alt).alt.amount > 0 <==> alt.amount > 0
    ensures alt.amount > 0 ==>
              -Reduced(kind, main, alt).alt.amount
              < GetOxidation(Reduced(kind, main, alt).main) + GetOxidation(Reduced(kind, main, alt).alt) <= 0
  {
    var m := main.amount;
    assert -GetOxidation(main) == 2 * m;
    if alt.amount > 0 {
      FloorCharge(m, alt.amount);
    }
  }

  /** SingleElementCompound(sign, name) */
  function BinaryOf(kind: BinaryKind, sign: string, name: Option<bool>, t: Tables): (r: Result<Binary>)
    ensures ReadAsName(sign, name).Err? ==> r == Err(IncorrectFormat)
    ensures ReadAsName(sign, name) == Ok(true) ==> r == BinaryFromName(kind, sign, t)
    ensures ReadAsName(sign, name) == Ok(false) ==> r == BinaryFromFormula(kind, sign, t)
  {
    var isName :- ReadAsName(sign, name);
    if isName then BinaryFromName(kind, sign, t) else BinaryFromFormula(kind, sign, t)
  }

  // ---------------------------------------------------------------------------
  // Acid (nazvoslovi.py:322-383)

  /** An oxoacid: hydrogen, the central element and oxygen. */
  datatype Acid = Acid(hydrogen: Element, element: Element, oxygen: Element)

  predicate AcidKnown(a: Acid)
  {
    Known(a.hydrogen) && Known(a.element) && Known(a.oxygen)
  }

  /** Total charge of the acid. */
  function AcidCharge(a: Acid): int
    requires AcidKnown(a)
  {
    GetOxidation(a.hydrogen) + GetOxidation(a.element) + GetOxidation(a.oxygen)
  }

  /** The common tail of the name branch: `h` hydrogens at +1, then as many
      oxygens at -2 as cancel the hydrogen and the element, rounded down. */
  function AcidCompleted(h: int, element: Element, t: Tables): (r: Result<Acid>)
    requires Known(element)
    ensures r.Ok? ==> r.value.element == element && r.value.hydrogen.amount == h
    ensures r.Ok? ==> r.value.hydrogen.oxidation == Some(1) && r.value.oxygen.oxidation == Some(-2)
    ensures r.Ok? ==> r.value.oxygen.amount == HalfPair(r.value.hydrogen, element)
    ensures r.Err? ==> r.error == KeyError
  {
    OneLetterElement('H', ElementKey, Some(h), Some(1), t);
    var hydrogen :- NewElement("H", None, ElementKey, Some(h), Some(1), t);
    AcidWithOxygen(hydrogen, element, t)
  }

  /** Element('O', amount=(hydrogen.get_oxidation() +
      element.get_oxidation())//2, oxidation=-2) added to the hydrogen and the
      element: the oxygen cancels their charges up to parity. */
  function AcidWithOxygen(hydrogen: Element, element: Element, t: Tables): (r: Result<Acid>)
    requires Known(element) && hydrogen.oxidation == Some(1)
    ensures r.Ok? ==> r.value.hydrogen == hydrogen && r.value.element == element
    ensures r.Ok? ==> r.value.oxygen.oxidation == Some(-2)
    ensures r.Ok? ==> r.value.oxygen.amount == HalfPair(hydrogen, element)
    ensures r.Err? ==> r.error == KeyError
  {
    OneLetterElement('O', ElementKey, Some(HalfPair(hydrogen, element)), Some(-2), t);
    var oxygen :- NewElement("O", None, ElementKey, Some(HalfPair(hydrogen, element)), Some(-2), t);
    Ok(Acid(hydrogen, element, oxygen))
  }

  /** Oxygen at -2, half as many as the hydrogen and element charges,
      cancels them up to their parity. */
  lemma LeftoverCharge(hydrogen: Element, element: Element, oxygen: Element)
    requires Known(element) && hydrogen.oxidation == Some(1) && oxygen.oxidation == Some(-2)
    requires oxygen.amount == HalfPair(hydrogen, element)
    ensures GetOxidation(hydrogen) + GetOxidation(element) + GetOxidation(oxygen)
            == (hydrogen.amount + GetOxidation(element)) % 2
  {
    var x := hydrogen.amount + GetOxidation(element);
    assert GetOxidation(hydrogen) == hydrogen.amount;
    assert GetOxidation(oxygen) == -2 * (x / 2);
  }

  /** The hydrogen count and central element a name gives: with a
      "...hydrogen" word the count is that prefix's position in the amount
      table; without one it is 2 for an even oxidation number and 0 for an
      odd one. */
  function AcidParts(sign: string, t: Tables): (r: Result<(int, Element)>)
    ensures r.Ok? ==> Known(r.value.1)
    ensures r.Ok? && Contains(sign, "hydrogen") ==> 0 <= r.value.0 < |t.amounts|
    ensures r.Ok? && !Contains(sign, "hydrogen") ==>
              r.value.0 == (if GetOxidation(r.value.1) % 2 == 0 then 2 else 0)
  {
    if Contains(sign, "hydrogen") then
      var words :- Unpack2(Words(sign));
      HydrogenWordParts(words.1, t)
    else
      var words :- Unpack2(Words(sign));
      var element :- NewElement(words.1, Some(true), AcidKey, None, None, t);
      Ok((if GetOxidation(element) % 2 == 0 then 2 else 0, element))
  }

  /** The second word of an acid name with a hydrogen count, such as
      "trihydrogenfosforečná": the count word's position in the amount table,
      and the element named by the rest in the acid context. */
  function HydrogenWordParts(word: string, t: Tables): (r: Result<(int, Element)>)
    ensures r.Ok? ==> Known(r.value.1) && 0 <= r.value.0 < |t.amounts|
    ensures r.Ok? ==> t.amounts[r.value.0] == SplitOn(word, "hydrogen")[0]
  {
    var pieces :- Unpack2(SplitOn(word, "hydrogen"));
    var h :- IndexOf(t.amounts, pieces.0);
    var element :- NewElement(pieces.1, Some(true), AcidKey, None, None, t);
    Ok((h as int, element))
  }

  /** From a name such as "kyselina sírová". The charge left over is 0 or 1;
      without a hydrogen word it is 1 exactly when the element's oxidation
      number is odd. */
  function AcidFromName(sign: string, t: Tables): (r: Result<Acid>)
    ensures r.Ok? ==> AcidKnown(r.value)
    ensures r.Ok? ==> r.value.hydrogen.oxidation == Some(1) && r.value.oxygen.oxidation == Some(-2)
    ensures r.Ok? ==> 0 <= AcidCharge(r.value) <= 1
    ensures r.Ok? && !Contains(sign, "hydrogen") ==>
              (AcidCharge(r.value) == 0 <==> GetOxidation(r.value.element) % 2 == 0)
  {
    var parts :- AcidParts(sign, t);
    var acid :- AcidCompleted(parts.0, parts.1, t);
    NameAcidCharge(acid, !Contains(sign, "hydrogen"));
    Ok(acid)
  }

  /** The charge an acid built from a name is left with: the oxygen cancels
      all but the parity of the hydrogens and the element, and the default
      hydrogen count of 2 or 0 does not change that parity. */
  lemma NameAcidCharge(acid: Acid, defaultCount: bool)
    requires AcidKnown(acid) && acid.hydrogen.oxidation == Some(1) && acid.oxygen.oxidation == Some(-2)
    requires acid.oxygen.amount == HalfPair(acid.hydrogen, acid.element)
    requires defaultCount ==> acid.hydrogen.amount == (if GetOxidation(acid.element) % 2 == 0 then 2 else 0)
    ensures 0 <= AcidCharge(acid) <= 1
    ensures defaultCount ==> (AcidCharge(acid) == 0 <==> GetOxidation(acid.element) % 2 == 0)
  {
    LeftoverCharge(acid.hydrogen, acid.element, acid.oxygen);
    var e := GetOxidation(acid.element);
    ParityOfShift(e, if e % 2 == 0 then 2 else 0);
  }

  /** From a formula such as "H2 S O4": the element's oxidation number
      cancels the hydrogen and oxygen charges. */
  function AcidFromFormula(sign: string, t: Tables): (r: Result<Acid>)
    ensures r.Ok? ==> AcidKnown(r.value)
    ensures r.Ok? ==> r.value.hydrogen.oxidation == Some(1) && r.value.oxygen.oxidation == Some(-2)
    ensures r.Ok? ==>
              r.value.element.oxidation.value + GetOxidation(r.value.hydrogen) + GetOxidation(r.value.oxygen) == 0
    ensures r.Ok? && r.value.element.amount == 1 ==> AcidCharge(r.value) == 0
    ensures r.Ok? ==> |Words(sign)| == 3
    ensures r.Ok? && FormulaAmount(Words(sign)[0]).Some? ==> r.value.hydrogen.amount == FormulaAmount(Words(sign)[0]).value
    ensures r.Ok? && FormulaAmount(Words(sign)[1]).Some? ==> r.value.element.amount == FormulaAmount(Words(sign)[1]).value
    ensures r.Ok? && FormulaAmount(Words(sign)[2]).Some? ==> r.value.oxygen.amount == FormulaAmount(Words(sign)[2]).value
  {
    var words :- Unpack3(Words(sign));
    FormulaTokenElement(words.0, None, ElementKey, None, Some(1), t);
    FormulaTokenElement(words.2, None, ElementKey, None, Some(-2), t);
    var hydrogen :- NewElement(words.0, None, ElementKey, None, Some(1), t);
    var oxygen :- NewElement(words.2, None, ElementKey, None, Some(-2), t);
    FormulaTokenElement(words.1, None, ElementKey, None, Some(CompletingPair(0, oxygen, hydrogen)), t);
    var element :- NewElement(words.1, None, ElementKey, None, Some(CompletingPair(0, oxygen, hydrogen)), t);
    Ok(Acid(hydrogen, element, oxygen))
  }

  /** Acid(sign, name) */
  function AcidOf(sign: string, name: Option<bool>, t: Tables): (r: Result<Acid>)
    ensures ReadAsName(sign, name).Err? ==> r == Err(IncorrectFormat)
    ensures ReadAsName(sign, name) == Ok(true) ==> r == AcidFromName(sign, t)
    ensures ReadAsName(sign, name) == Ok(false) ==> r == AcidFromFormula(sign, t)
  {
    var isName :- ReadAsName(sign, name);
    if isName then AcidFromName(sign, t) else AcidFromFormula(sign, t)
  }

  // ---------------------------------------------------------------------------
  // SaltAcid (nazvoslovi.py:385-427)

  /** The anion of a salt: the element and oxygen, with the anion's charge
      and its count in the salt. */
  datatype SaltAcid = SaltAcid(element: Element, oxygen: Element, oxidation: int, amount: int)

  /** From the first word of a salt's name, such as "síran": the anion's
      charge is -2 for an element of even oxidation number and -1 for an odd
      one, and the oxygen makes up exactly that charge. */
  function SaltAcidFromName(sign: string, t: Tables): (r: Result<SaltAcid>)
    ensures r.Ok? ==> Known(r.value.element) && r.value.oxygen.oxidation == Some(-2)
    ensures r.Ok? ==> r.value.amount == 1
    ensures r.Ok? ==> (r.value.oxidation == -2 <==> GetOxidation(r.value.element) % 2 == 0)
    ensures r.Ok? ==> (r.value.oxidation == -1 <==> GetOxidation(r.value.element) % 2 == 1)
    ensures r.Ok? ==> GetOxidation(r.value.element) + GetOxidation(r.value.oxygen) == r.value.oxidation
  {
    var element :- NewElement(sign, Some(true), SaltKey, None, None, t);
    var e := GetOxidation(element);
    SaltAcidParity(e);
    var oxygen :- OxygenCompleting(element, AnionCharge(e), t);
    Ok(SaltAcid(element, oxygen, AnionCharge(e), 1))
  }

  /** The anion's charge for an element of oxidation number `e`: -2 when
      `e` is even, -1 when it is odd. */
  function AnionCharge(e: int): int
  {
    if e % 2 == 0 then -2 else -1
  }

  /** The anion charge chosen by parity leaves an even charge for oxygen. */
  lemma SaltAcidParity(e: int)
    ensures (e - AnionCharge(e)) % 2 == 0
    ensures AnionCharge(e) == -2 <==> e % 2 == 0
    ensures AnionCharge(e) == -1 <==> e % 2 == 1
  {
    var q := e / 2;
    assert e == 2 * q + e % 2;
    if e % 2 == 0 {
      assert e + 2 == 2 * (q + 1);
    } else {
      assert e + 1 == 2 * (q + 1);
    }
  }

  /** Element('O', amount=(element.get_oxidation() - charge)//2,
      oxidation=-2) when that difference is even: the oxygen that brings the
      element exactly to `charge`. */
  function OxygenCompleting(element: Element, charge: int, t: Tables): (r: Result<Element>)
    requires Known(element) && (GetOxidation(element) - charge) % 2 == 0
    ensures r.Ok? ==> r.value.oxidation == Some(-2) && GetOxidation(element) + GetOxidation(r.value) == charge
  {
    HalfOfEven(GetOxidation(element) - charge);
    NewElement("O", None, ElementKey, Some(HalfExcess(element, charge)), Some(-2), t)
  }

  /** From the anion part of a salt's formula, such as "S O4", with the charge
      and count the salt worked out: the element's oxidation number completes
      the oxygen's charge to the anion's. */
  function SaltAcidFromFormula(sign: string, amount: int, oxidation: int, t: Tables): (r: Result<SaltAcid>)
    ensures r.Ok? ==> Known(r.value.element) && r.value.oxygen.oxidation == Some(-2)
    ensures r.Ok? ==> r.value.amount == amount && r.value.oxidation == oxidation
    ensures r.Ok? ==> r.value.element.oxidation.value + GetOxidation(r.value.oxygen) == oxidation
    ensures r.Ok? ==> |Words(sign)| == 2
    ensures r.Ok? && FormulaAmount(Words(sign)[0]).Some? ==> r.value.element.amount == FormulaAmount(Words(sign)[0]).value
    ensures r.Ok? && FormulaAmount(Words(sign)[1]).Some? ==> r.value.oxygen.amount == FormulaAmount(Words(sign)[1]).value
  {
    var words :- Unpack2(Words(sign));
    FormulaTokenElement(words.1, None, ElementKey, None, Some(-2), t);
    var oxygen :- NewElement(words.1, None, ElementKey, None, Some(-2), t);
    FormulaTokenElement(words.0, None, ElementKey, None, Some(Completing(oxidation, oxygen)), t);
    var element :- NewElement(words.0, None, ElementKey, None, Some(Completing(oxidation, oxygen)), t);
    Ok(SaltAcid(element, oxygen, oxidation, amount))
  }

  /** SaltAcid(sign, name, amount, oxidation): `amount` and `oxidation` are
      used by the formula branch only. */
  function SaltAcidOf(sign: string, name: Option<bool>, amount: int, oxidation: int, t: Tables)
    : (r: Result<SaltAcid>)
    ensures ReadAsName(sign, name).Err? ==> r == Err(IncorrectFormat)
    ensures ReadAsName(sign, name) == Ok(true) ==> r == SaltAcidFromName(sign, t)
    ensures ReadAsName(sign, name) == Ok(false) ==> r == SaltAcidFromFormula(sign, amount, oxidation, t)
  {
    var isName :- ReadAsName(sign, name);
    if isName then SaltAcidFromName(sign, t) else SaltAcidFromFormula(sign, amount, oxidation, t)
  }

  // ---------------------------------------------------------------------------
  // Salt (nazvoslovi.py:429-473)

  datatype Salt = Salt(element: Element, acid: SaltAcid)

  /** From a name such as "síran měďnatý": the cation and anion charges are
      cancelled by the cross rule, in lowest terms. */
  function SaltFromName(sign: string, t: Tables): (r: Result<Salt>)
    ensures r.Ok? ==> Known(r.value.element) && Known(r.value.acid.element)
    ensures r.Ok? ==> GetOxidation(r.value.element) + r.value.acid.amount * r.value.acid.oxidation == 0
    ensures r.Ok? ==> r.value.element.amount > 0 && Coprime(r.value.element.amount, r.value.acid.amount)
    ensures r.Ok? ==> r.value.acid.oxidation == -1 || r.value.acid.oxidation == -2
    ensures r.Ok? ==> Known(r.value.acid.oxygen)
    ensures r.Ok? ==> GetOxidation(r.value.acid.element) + GetOxidation(r.value.acid.oxygen) == r.value.acid.oxidation
  {
    var words :- Unpack2(Words(sign));
    var element :- NewElement(words.1, Some(true), ElementKey, None, None, t);
    var acid :- SaltAcidFromName(words.0, t);
    var amounts := CrossRule(element.oxidation.value, acid.oxidation);
    Ok(Salt(element.(amount := amounts.0), acid.(amount := amounts.1)))
  }

  /** The anion text of a salt formula and its count: "(S O4)3" gives
      ("S O4", 3), anything without "(" gives itself and 1. The part after
      ")" must be an integer (ValueError otherwise). */
  function AcidWithAmount(acid: string): (r: Result<(string, int)>)
    ensures !Contains(acid, "(") ==> r == Ok((acid, 1))
    ensures r.Err? ==> r.error == ValueError
  {
    if Contains(acid, "(") then
      var pieces :- Unpack2(SplitOn(if acid == [] then [] else acid[1..], ")"));
      var amount :- ParseInt(pieces.1);
      Ok((pieces.0, amount))
    else
      Ok((acid, 1))
  }

  /** From a formula such as "Cu S O4" or "Al (S O4)3": the cross rule turns
      the two amounts into charges that cancel, the cation's never negative.
      Two zero amounts raise ZeroDivisionError. */
  function SaltFromFormula(sign: string, t: Tables): (r: Result<Salt>)
    ensures r.Ok? ==> Known(r.value.element) && Known(r.value.acid.element)
    ensures r.Ok? ==> r.value.element.oxidation.value >= 0
    ensures r.Ok? ==> r.value.element.amount * r.value.element.oxidation.value
                      + r.value.acid.amount * r.value.acid.oxidation == 0
    ensures r.Ok? ==> Coprime(r.value.element.oxidation.value, r.value.acid.oxidation)
    ensures r.Ok? ==> Known(r.value.acid.oxygen)
    ensures r.Ok? ==> r.value.acid.element.oxidation.value + GetOxidation(r.value.acid.oxygen)
                      == r.value.acid.oxidation
  {
    var parts :- Unpack2(SplitFirst(sign));
    var acid :- AcidWithAmount(parts.1);
    var element :- NewElement(parts.0, None, ElementKey, None, None, t);
    SaltOfParts(element, acid.0, acid.1, t)
  }

  /** The rest of the formula branch once the cation and the anion's text and
      count are read: the cross rule turns the two amounts into the charges,
      and the anion is built for its charge. */
  function SaltOfParts(element: Element, acid: string, amount: int, t: Tables): (r: Result<Salt>)
    ensures r.Ok? ==> r.value.element == element.(oxidation := r.value.element.oxidation)
    ensures r.Ok? ==> Known(r.value.element) && Known(r.value.acid.element) && Known(r.value.acid.oxygen)
    ensures r.Ok? ==> r.value.element.oxidation.value >= 0
    ensures r.Ok? ==> r.value.element.amount * r.value.element.oxidation.value
                      + r.value.acid.amount * r.value.acid.oxidation == 0
    ensures r.Ok? ==> Coprime(r.value.element.oxidation.value, r.value.acid.oxidation)
    ensures r.Ok? ==> r.value.acid.element.oxidation.value + GetOxidation(r.value.acid.oxygen)
                      == r.value.acid.oxidation
    ensures r.Ok? ==> r.value.acid.amount == amount
    ensures r.Ok? ==> (element.amount != 0 || amount != 0)
                      && (r.value.element.oxidation.value, r.value.acid.oxidation) == CrossRule(element.amount, amount)
    ensures r.Ok? ==> SaltAcidFromFormula(acid, amount, r.value.acid.oxidation, t) == Ok(r.value.acid)
    ensures element.amount == 0 && amount == 0 ==> r == Err(ZeroDivisionError)
  {
    if element.amount == 0 && amount == 0 then Err(ZeroDivisionError)
    else
      var oxidations := CrossRule(element.amount, amount);
      var saltAcid :- SaltAcidFromFormula(acid, amount, oxidations.1, t);
      Ok(Salt(element.(oxidation := Some(oxidations.0)), saltAcid))
  }

  /** The formula branch reads the cation's amount from the first token and
      the anion's count from what follows it, and builds the anion from the
      text inside the brackets for the charge the cross rule gives. */
  lemma SaltFormulaParts(sign: string, t: Tables)
    requires SaltFromFormula(sign, t).Ok?
    ensures |SplitFirst(sign)| == 2 && AcidWithAmount(SplitFirst(sign)[1]).Ok?
    ensures SaltFromFormula(sign, t).value.acid.amount == AcidWithAmount(SplitFirst(sign)[1]).value.1
    ensures SaltAcidFromFormula(AcidWithAmount(SplitFirst(sign)[1]).value.0, SaltFromFormula(sign, t).value.acid.amount,
                                SaltFromFormula(sign, t).value.acid.oxidation, t)
            == Ok(SaltFromFormula(sign, t).value.acid)
    ensures FormulaAmount(SplitFirst(sign)[0]).Some? ==>
              SaltFromFormula(sign, t).value.element.amount == FormulaAmount(SplitFirst(sign)[0]).value
    ensures (SaltFromFormula(sign, t).value.element.oxidation.value, SaltFromFormula(sign, t).value.acid.oxidation)
            == CrossRule(SaltFromFormula(sign, t).value.element.amount, SaltFromFormula(sign, t).value.acid.amount)
  {
    FormulaTokenElement(SplitFirst(sign)[0], None, ElementKey, None, None, t);
  }

  /** Salt(sign, name) */
  function SaltOf(sign: string, name: Option<bool>, t: Tables): (r: Result<Salt>)
    ensures ReadAsName(sign, name).Err? ==> r == Err(IncorrectFormat)
    ensures ReadAsName(sign, name) == Ok(true) ==> r == SaltFromName(sign, t)
    ensures ReadAsName(sign, name) == Ok(false) ==> r == SaltFromFormula(sign, t)
  {
    var isName :- ReadAsName(sign, name);
    if isName then SaltFromName(sign, t) else SaltFromFormula(sign, t)
  }

  // ---------------------------------------------------------------------------
  // HydrogenAcid (nazvoslovi.py:475-537)

  /** The anion of a hydrogen salt: hydrogen, element and oxygen, with the
      anion's charge and count. */
  datatype HydrogenAcid = HydrogenAcid(hydrogen: Element, element: Element, oxygen: Element,
                                       oxidation: int, amount: int)

  /** The hydrogens of the whole acid: 2 for an even and 1 for an odd
      oxidation number `e`, raised when that would not leave `kept` of them
      behind, to the least count above `kept` with the parity of `e`. */
  function PaddedHydrogen(e: int, kept: int): (h: int)
    ensures h >= 1 && h > kept
    ensures (h + e) % 2 == 0
    ensures h <= 2 || h - 2 <= kept
  {
    var base := if e % 2 == 0 then 2 else 1;
    if base <= kept then
      var missing := kept - base + 1;
      base + missing + missing % 2
    else
      base
  }

  /** The number of hydrogens kept that a name's prefix gives: its position
      in the amount table, or 1 when the name starts with "hydrogen". */
  function KeptHydrogen(prefix: string, t: Tables): (r: Result<int>)
    ensures prefix == [] ==> r == Ok(1)
    ensures prefix != [] && r.Ok? ==> 0 <= r.value < |t.amounts| && t.amounts[r.value] == prefix
    ensures r.Err? ==> r.error == ValueError
  {
    if prefix != [] then
      var k :- IndexOf(t.amounts, prefix);
      Ok(k as int)
    else
      Ok(1)
  }

  /** From the first word of a hydrogen salt's name, such as
      "hydrogenuhličitan": the acid keeps the named number of hydrogens and
      its charge is what the removed ones leave, always negative; the full
      acid balances exactly. */
  function HydrogenAcidFromName(sign: string, t: Tables): (r: Result<HydrogenAcid>)
    ensures r.Ok? ==> Known(r.value.element)
    ensures r.Ok? ==> r.value.hydrogen.oxidation == Some(1) && r.value.oxygen.oxidation == Some(-2)
    ensures r.Ok? ==> r.value.amount == 1 && r.value.oxidation < 0
    ensures r.Ok? && SplitOn(sign, "hydrogen")[0] == [] ==> r.value.hydrogen.amount == 1
    ensures r.Ok? ==> r.value.oxidation == r.value.hydrogen.amount
                      - PaddedHydrogen(GetOxidation(r.value.element), r.value.hydrogen.amount)
    ensures r.Ok? ==> GetOxidation(r.value.hydrogen) + GetOxidation(r.value.element)
                      + GetOxidation(r.value.oxygen) == r.value.oxidation
  {
    var pieces :- Unpack2(SplitOn(sign, "hydrogen"));
    var kept :- KeptHydrogen(pieces.0, t);
    var element :- NewElement(pieces.1, Some(true), SaltKey, None, None, t);
    HydrogenAcidCompleted(kept, element, t)
  }

  /** The tail of the name branch: the padded hydrogens at +1, oxygen at -2
      cancelling them and the element exactly, then all but `kept` hydrogens
      taken out, which leaves the anion's charge. */
  function HydrogenAcidCompleted(kept: int, element: Element, t: Tables): (r: Result<HydrogenAcid>)
    requires Known(element)
    ensures r.Ok? ==> r.value.element == element && r.value.hydrogen.amount == kept
    ensures r.Ok? ==> r.value.hydrogen.oxidation == Some(1) && r.value.oxygen.oxidation == Some(-2)
    ensures r.Ok? ==> r.value.amount == 1 && r.value.oxidation < 0
    ensures r.Ok? ==> r.value.oxidation == kept - PaddedHydrogen(GetOxidation(element), kept)
    ensures r.Ok? ==> GetOxidation(r.value.hydrogen) + GetOxidation(element)
                      + GetOxidation(r.value.oxygen) == r.value.oxidation
    ensures r.Err? ==> r.error == KeyError
  {
    var hydrogens := PaddedHydrogen(GetOxidation(element), kept);
    OneLetterElement('H', ElementKey, Some(hydrogens), Some(1), t);
    var hydrogen :- NewElement("H", None, ElementKey, Some(hydrogens), Some(1), t);
    KeptAcid(hydrogen, element, kept, t)
  }

  /** The full acid completed with oxygen, then all but `kept` hydrogens taken
      out: the removed ones leave their charge on the anion. */
  function KeptAcid(hydrogen: Element, element: Element, kept: int, t: Tables): (r: Result<HydrogenAcid>)
    requires Known(element) && hydrogen.oxidation == Some(1)
    requires hydrogen.amount == PaddedHydrogen(GetOxidation(element), kept)
    ensures r.Ok? ==> r.value.element == element && r.value.hydrogen.amount == kept
    ensures r.Ok? ==> r.value.hydrogen.oxidation == Some(1) && r.value.oxygen.oxidation == Some(-2)
    ensures r.Ok? ==> r.value.amount == 1 && r.value.oxidation < 0
    ensures r.Ok? ==> r.value.oxidation == kept - PaddedHydrogen(GetOxidation(element), kept)
    ensures r.Ok? ==> GetOxidation(r.value.hydrogen) + GetOxidation(element)
                      + GetOxidation(r.value.oxygen) == r.value.oxidation
    ensures r.Err? ==> r.error == KeyError
  {
    var full :- AcidWithOxygen(hydrogen, element, t);
    var acid := HydrogenAcid(full.hydrogen.(amount := kept), element, full.oxygen, kept - full.hydrogen.amount, 1);
    KeptCharge(full, kept, acid);
    Ok(acid)
  }

  /** Once the full acid balances, taking all but `kept` hydrogens away leaves
      the charge of the removed ones on the anion. */
  lemma KeptCharge(full: Acid, kept: int, acid: HydrogenAcid)
    requires Known(full.element) && full.hydrogen.oxidation == Some(1) && full.oxygen.oxidation == Some(-2)
    requires full.hydrogen.amount == PaddedHydrogen(GetOxidation(full.element), kept)
    requires full.oxygen.amount == HalfPair(full.hydrogen, full.element)
    requires acid == HydrogenAcid(full.hydrogen.(amount := kept), full.element, full.oxygen,
                                  kept - full.hydrogen.amount, 1)
    ensures GetOxidation(acid.hydrogen) + GetOxidation(acid.element) + GetOxidation(acid.oxygen) == acid.oxidation
  {
    LeftoverCharge(full.hydrogen, full.element, full.oxygen);
    assert GetOxidation(full.hydrogen) == full.hydrogen.amount;
    assert GetOxidation(acid.hydrogen) == kept;
    assert GetOxidation(full.oxygen) == -2 * full.oxygen.amount;
  }

  /** From the anion part of a hydrogen salt's formula, such as "H C O3", with
      the charge and count the salt worked out: the element's oxidation number
      completes the hydrogen and oxygen charges to the anion's. */
  function HydrogenAcidFromFormula(sign: string, amount: int, oxidation: int, t: Tables)
    : (r: Result<HydrogenAcid>)
    ensures r.Ok? ==> Known(r.value.element)
    ensures r.Ok? ==> r.value.hydrogen.oxidation == Some(1) && r.value.oxygen.oxidation == Some(-2)
    ensures r.Ok? ==> r.value.amount == amount && r.value.oxidation == oxidation
    ensures r.Ok? ==> r.value.element.oxidation.value + GetOxidation(r.value.hydrogen)
                      + GetOxidation(r.value.oxygen) == oxidation
    ensures r.Ok? ==> |Words(sign)| == 3
    ensures r.Ok? && FormulaAmount(Words(sign)[0]).Some? ==> r.value.hydrogen.amount == FormulaAmount(Words(sign)[0]).value
    ensures r.Ok? && FormulaAmount(Words(sign)[1]).Some? ==> r.value.element.amount == FormulaAmount(Words(sign)[1]).value
    ensures r.Ok? && FormulaAmount(Words(sign)[2]).Some? ==> r.value.oxygen.amount == FormulaAmount(Words(sign)[2]).value
  {
    var words :- Unpack3(Words(sign));
    FormulaTokenElement(words.0, None, ElementKey, None, Some(1), t);
    FormulaTokenElement(words.2, None, ElementKey, None, Some(-2), t);
    var hydrogen :- NewElement(words.0, None, ElementKey, None, Some(1), t);
    var oxygen :- NewElement(words.2, None, ElementKey, None, Some(-2), t);
    FormulaTokenElement(words.1, None, ElementKey, None, Some(CompletingPair(oxidation, oxygen, hydrogen)), t);
    var element :- NewElement(words.1, None, ElementKey, None,
                              Some(CompletingPair(oxidation, oxygen, hydrogen)), t);
    Ok(HydrogenAcid(hydrogen, element, oxygen, oxidation, amount))
  }

  /** HydrogenAcid(sign, name, amount, oxidation): `amount` and `oxidation`
      are used by the formula branch only. */
  function HydrogenAcidOf(sign: string, name: Option<bool>, amount: int, oxidation: int, t: Tables)
    : (r: Result<HydrogenAcid>)
    ensures ReadAsName(sign, name).Err? ==> r == Err(IncorrectFormat)
    ensures ReadAsName(sign, name) == Ok(true) ==> r == HydrogenAcidFromName(sign, t)
    ensures ReadAsName(sign, name) == Ok(false) ==> r == HydrogenAcidFromFormula(sign, amount, oxidation, t)
  {
    var isName :- ReadAsName(sign, name);
    if isName then HydrogenAcidFromName(sign, t) else HydrogenAcidFromFormula(sign, amount, oxidation, t)
  }

  // ---------------------------------------------------------------------------
  // HydrogenSalt (nazvoslovi.py:539-583)

  datatype HydrogenSalt = HydrogenSalt(element: Element, acid: HydrogenAcid)

  /** From a name such as "hydrogenuhličitan sodný": the acid is built
      before the cation, then the cross rule cancels the charges. */
  function HydrogenSaltFromName(sign: string, t: Tables): (r: Result<HydrogenSalt>)
    ensures r.Ok? ==> Known(r.value.element)
    ensures r.Ok? ==> GetOxidation(r.value.element) + r.value.acid.amount * r.value.acid.oxidation == 0
    ensures r.Ok? ==> r.value.element.amount > 0 && Coprime(r.value.element.amount, r.value.acid.amount)
    ensures r.Ok? ==> r.value.acid.oxidation < 0
  {
    var words :- Unpack2(Words(sign));
    var acid :- HydrogenAcidFromName(words.0, t);
    var element :- NewElement(words.1, Some(true), ElementKey, None, None, t);
    var amounts := CrossRule(element.oxidation.value, acid.oxidation);
    Ok(HydrogenSalt(element.(amount := amounts.0), acid.(amount := amounts.1)))
  }

  /** From a formula such as "Na H C O3": as for a salt, with a hydrogen acid
      as the anion. */
  function HydrogenSaltFromFormula(sign: string, t: Tables): (r: Result<HydrogenSalt>)
    ensures r.Ok? ==> Known(r.value.element) && Known(r.value.acid.element)
    ensures r.Ok? ==> r.value.element.oxidation.value >= 0
    ensures r.Ok? ==> r.value.element.amount * r.value.element.oxidation.value
                      + r.value.acid.amount * r.value.acid.oxidation == 0
    ensures r.Ok? ==> Coprime(r.value.element.oxidation.value, r.value.acid.oxidation)
    ensures r.Ok? ==> Known(r.value.acid.element)
                      && r.value.acid.hydrogen.oxidation == Some(1) && r.value.acid.oxygen.oxidation == Some(-2)
    ensures r.Ok? ==> GetOxidation(r.value.acid.hydrogen) + r.value.acid.element.oxidation.value
                      + GetOxidation(r.value.acid.oxygen) == r.value.acid.oxidation
  {
    var parts :- Unpack2(SplitFirst(sign));
    var acid :- AcidWithAmount(parts.1);
    var element :- NewElement(parts.0, None, ElementKey, None, None, t);
    HydrogenSaltOfParts(element, acid.0, acid.1, t)
  }

  /** The rest of the formula branch once the cation and the anion's text and
      count are read, as for a salt. */
  function HydrogenSaltOfParts(element: Element, acid: string, amount: int, t: Tables): (r: Result<HydrogenSalt>)
    ensures r.Ok? ==> r.value.element == element.(oxidation := r.value.element.oxidation)
    ensures r.Ok? ==> Known(r.value.element) && Known(r.value.acid.element)
    ensures r.Ok? ==> r.value.element.oxidation.value >= 0
    ensures r.Ok? ==> r.value.element.amount * r.value.element.oxidation.value
                      + r.value.acid.amount * r.value.acid.oxidation == 0
    ensures r.Ok? ==> Coprime(r.value.element.oxidation.value, r.value.acid.oxidation)
    ensures r.Ok? ==> r.value.acid.hydrogen.oxidation == Some(1) && r.value.acid.oxygen.oxidation == Some(-2)
    ensures r.Ok? ==> GetOxidation(r.value.acid.hydrogen) + r.value.acid.element.oxidation.value
                      + GetOxidation(r.value.acid.oxygen) == r.value.acid.oxidation
    ensures r.Ok? ==> r.value.acid.amount == amount
    ensures r.Ok? ==> (element.amount != 0 || amount != 0)
                      && (r.value.element.oxidation.value, r.value.acid.oxidation) == CrossRule(element.amount, amount)
    ensures r.Ok? ==> HydrogenAcidFromFormula(acid, amount, r.value.acid.oxidation, t) == Ok(r.value.acid)
    ensures element.amount == 0 && amount == 0 ==> r == Err(ZeroDivisionError)
  {
    if element.amount == 0 && amount == 0 then Err(ZeroDivisionError)
    else
      var oxidations := CrossRule(element.amount, amount);
      var hydrogenAcid :- HydrogenAcidFromFormula(acid, amount, oxidations.1, t);
      Ok(HydrogenSalt(element.(oxidation := Some(oxidations.0)), hydrogenAcid))
  }

  /** As for a salt: the cation's amount from the first token, the anion's
      count from what follows it, and the anion built from the bracketed
      text for the charge the cross rule gives. */
  lemma HydrogenSaltFormulaParts(sign: string, t: Tables)
    requires HydrogenSaltFromFormula(sign, t).Ok?
    ensures |SplitFirst(sign)| == 2 && AcidWithAmount(SplitFirst(sign)[1]).Ok?
    ensures HydrogenSaltFromFormula(sign, t).value.acid.amount == AcidWithAmount(SplitFirst(sign)[1]).value.1
    ensures HydrogenAcidFromFormula(AcidWithAmount(SplitFirst(sign)[1]).value.0,
                                    HydrogenSaltFromFormula(sign, t).value.acid.amount,
                                    HydrogenSaltFromFormula(sign, t).value.acid.oxidation, t)
            == Ok(HydrogenSaltFromFormula(sign, t).value.acid)
    ensures FormulaAmount(SplitFirst(sign)[0]).Some? ==>
              HydrogenSaltFromFormula(sign, t).value.element.amount == FormulaAmount(SplitFirst(sign)[0]).value
    ensures (HydrogenSaltFromFormula(sign, t).value.element.oxidation.value,
             HydrogenSaltFromFormula(sign, t).value.acid.oxidation)
            == CrossRule(HydrogenSaltFromFormula(sign, t).value.element.amount,
                         HydrogenSaltFromFormula(sign, t).value.acid.amount)
  {
    FormulaTokenElement(SplitFirst(sign)[0], None, ElementKey, None, None, t);
  }

  /** HydrogenSalt(sign, name) */
  function HydrogenSaltOf(sign: string, name: Option<bool>, t: Tables): (r: Result<HydrogenSalt>)
    ensures ReadAsName(sign, name).Err? ==> r == Err(IncorrectFormat)
    ensures ReadAsName(sign, name) == Ok(true) ==> r == HydrogenSaltFromName(sign, t)
    ensures ReadAsName(sign, name) == Ok(false) ==> r == HydrogenSaltFromFormula(sign, t)
  {
    var isName :- ReadAsName(sign, name);
    if isName then HydrogenSaltFromName(sign, t) else HydrogenSaltFromFormula(sign, t)
  }

  // ---------------------------------------------------------------------------
  // SaltHydrate (nazvoslovi.py:585-622)

  datatype SaltHydrate = SaltHydrate(salt: Salt, hydrate: int)

  /** The salt's name recovered from a hydrate's genitive words:
      "uhličitanu měďnatého" gives "uhličitan měďnatý". */
  function SaltNameOfGenitive(acid: string, element: string): string
  {
    DropLast(acid, 1) + " " + DropLast(element, 3) + "ý"
  }

  /** From a name such as "pentahydrát síranu měďnatého": the count of water
      is the prefix's position in the amount table, and the salt is built
      from its name in the nominative. */
  function SaltHydrateFromName(sign: string, t: Tables): (r: Result<SaltHydrate>)
    ensures r.Ok? ==> 0 <= r.value.hydrate < |t.amounts|
    ensures r.Ok? ==> Known(r.value.salt.element)
    ensures r.Ok? ==> GetOxidation(r.value.salt.element) + r.value.salt.acid.amount * r.value.salt.acid.oxidation == 0
    ensures r.Ok? ==> |Words(sign)| == 3 && t.amounts[r.value.hydrate] == DropLast(Words(sign)[0], 6)
    ensures r.Ok? ==> forall j :: 0 <= j < r.value.hydrate ==> t.amounts[j] != DropLast(Words(sign)[0], 6)
    ensures r.Ok? ==> SaltFromName(SaltNameOfGenitive(Words(sign)[1], Words(sign)[2]), t) == Ok(r.value.salt)
  {
    var words :- Unpack3(Words(sign));
    var hydrate :- IndexOf(t.amounts, DropLast(words.0, 6));
    var salt :- SaltOf(SaltNameOfGenitive(words.1, words.2), Some(true), t);
    Ok(SaltHydrate(salt, hydrate))
  }

  /** The name branch on a name of three words: the count from the first,
      the salt from the other two. */
  lemma SaltHydrateNameOfWords(sign: string, x: string, y: string, z: string, t: Tables)
    requires Words(sign) == [x, y, z]
    ensures IndexOf(t.amounts, DropLast(x, 6)).Ok? && SaltFromName(SaltNameOfGenitive(y, z), t).Ok? ==>
              SaltHydrateFromName(sign, t)
              == Ok(SaltHydrate(SaltFromName(SaltNameOfGenitive(y, z), t).value, IndexOf(t.amounts, DropLast(x, 6)).value))
    ensures SaltHydrateFromName(sign, t).Ok? ==>
              IndexOf(t.amounts, DropLast(x, 6)).Ok? && SaltFromName(SaltNameOfGenitive(y, z), t).Ok?
  {
  }

  /** From a formula such as "Cu S O4 . 5 H2 O": the salt before the dot, and
      the integer before the last three characters ("H2O", spaces removed)
      after it. */
  function SaltHydrateFromFormula(sign: string, t: Tables): (r: Result<SaltHydrate>)
    ensures r.Ok? ==> Known(r.value.salt.element) && r.value.salt.element.oxidation.value >= 0
    ensures r.Ok? ==> r.value.salt.element.amount * r.value.salt.element.oxidation.value
                      + r.value.salt.acid.amount * r.value.salt.acid.oxidation == 0
    ensures r.Ok? ==> |SplitOn(sign, ".")| == 2 && ParseInt(DropLast(ReplaceAll(SplitOn(sign, ".")[1], " ", ""), 3)) == Ok(r.value.hydrate)
  {
    var parts :- Unpack2(SplitOn(sign, "."));
    var salt :- SaltOf(Strip(parts.0), Some(false), t);
    var hydrate :- ParseInt(DropLast(ReplaceAll(parts.1, " ", ""), 3));
    Ok(SaltHydrate(salt, hydrate))
  }

  /** SaltHydrate(sign, name) */
  function SaltHydrateOf(sign: string, name: Option<bool>, t: Tables): (r: Result<SaltHydrate>)
    ensures ReadAsName(sign, name).Err? ==> r == Err(IncorrectFormat)
    ensures ReadAsName(sign, name) == Ok(true) ==> r == SaltHydrateFromName(sign, t)
    ensures ReadAsName(sign, name) == Ok(false) ==> r == SaltHydrateFromFormula(sign, t)
  {
    var isName :- ReadAsName(sign, name);
    if isName then SaltHydrateFromName(sign, t) else SaltHydrateFromFormula(sign, t)
  }
}
