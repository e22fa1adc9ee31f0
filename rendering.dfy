// tosign and toname of the compound classes of nazvoslovi.py: the formula
// and the Czech name a compound renders as.

module Rendering {
  import opened Failures
  import opened Balancing
  import opened PyStr
  import opened Shapes
  import opened Tables
  import opened Elements
  import opened Compounds

  // ---------------------------------------------------------------------------
  // BaseCompound.tosign (nazvoslovi.py:172-178)

  /** A nested acid's formula: bracketed, with the amount in subscript, when
      its amount is not 1 or a non-zero oxidation is to be shown; bare
      otherwise. */
  function Wrapped(inner: string, amount: int, oxidation: int, withOxidation: bool): (r: Result<string>)
    ensures amount == 1 && !(withOxidation && oxidation != 0) ==> r == Ok(inner)
    ensures !withOxidation ==> r.Ok?
    ensures r.Ok? && (amount != 1 || (withOxidation && oxidation != 0)) ==> "(" + inner + ")" <= r.value
    ensures r.Err? ==> r.error == IndexError && withOxidation && !(-8 < oxidation < 8)
    ensures r.Err? <==> (amount != 1 || (withOxidation && oxidation != 0)) && withOxidation && !(-8 < oxidation < 8)
    ensures r.Ok? && (amount != 1 || (withOxidation && oxidation != 0)) ==>
              r.value == "(" + inner + ")" + Subscript(if amount != 1 then Some(amount) else None,
                                                       if withOxidation then Some(oxidation) else None).value
  {
    if amount != 1 || (withOxidation && oxidation != 0) then
      var sub :- Subscript(if amount != 1 then Some(amount) else None, if withOxidation then Some(oxidation) else None);
      Ok("(" + inner + ")" + sub)
    else
      Ok(inner)
  }

  /** A bracketed acid with its count reads back through the parenthesis
      parse of the salt formulas as the same text and count. */
  lemma WrappedReadsBack(inner: string, n: int)
    requires n != 1 && NoSubscripts(inner) && !Contains(inner, ")")
    ensures Wrapped(inner, n, 0, false).Ok?
    ensures AcidWithAmount(Nor(Wrapped(inner, n, 0, false).value)) == Ok((inner, n))
  {
    var d := Decimal(n);
    var s := Wrapped(inner, n, 0, false).value;
    assert s == "(" + inner + ")" + Sub(d);
    NorOfSub(d);
    DecimalHasNoSubscripts(n);
    NorOfUnsubscripted(d);
    NorOfUnsubscripted(inner);
    assert Nor(s) == "(" + inner + ")" + d by {
      assert Nor(s) == Nor("(") + Nor(inner) + Nor(")") + Nor(Sub(d));
    }
    var u := Nor(s);
    assert OccursAt(u, "(", 0);
    assert Contains(u, "(");
    assert u[1..] == inner + ")" + d;
    DecimalHasNoParen(n);
    SplitOnSingle(inner, ')', d);
    ParseIntDecimal(n);
  }

  /** No ")" in a decimal numeral. */
  lemma DecimalHasNoParen(n: int)
    ensures !Contains(Decimal(n), ")")
  {
    var d := Decimal(n);
    assert forall j :: 0 <= j < |d| ==> d[j] == '-' || IsAsciiDigit(d[j]) by {
      if n < 0 {
        assert forall j :: 1 <= j < |d| ==> d[j] == Digits(-n)[j - 1];
      }
    }
    forall j | 0 <= j <= |d|
      ensures !OccursAt(d, ")", j)
    {
      if j < |d| {
        assert d[j..j + 1][0] == d[j] != ')';
      }
    }
  }

  /** Splitting at the only occurrence of a one-character separator. */
  lemma SplitOnSingle(a: string, c: char, b: string)
    requires !Contains(a, [c]) && !Contains(b, [c])
    ensures SplitOn(a + [c] + b, [c]) == [a, b]
  {
    var s := a + [c] + b;
    assert OccursAt(s, [c], |a|);
    assert forall j :: 0 <= j < |a| ==> (OccursAt(s, [c], j) <==> OccursAt(a, [c], j));
    assert Find(s, [c]) == Some(|a|);
    assert s[|a| + 1..] == b;
    assert s[..|a|] == a;
    assert SplitOn(b, [c]) == [b];
  }

  // ---------------------------------------------------------------------------
  // Oxid and Sulfid (nazvoslovi.py:298-302)

  /** The other element's formula, then the oxygen's or sulfur's. */
  function BinaryToSign(b: Binary, withOxidation: bool): (r: Result<string>)
    ensures !withOxidation ==> r.Ok?
    ensures r.Ok? <==> ElementToSign(b.alt, withOxidation).Ok? && ElementToSign(b.main, withOxidation).Ok?
    ensures r.Ok? ==> b.alt.data.sign <= r.value
    ensures r.Ok? ==> r.value == ElementToSign(b.alt, withOxidation).value + ElementToSign(b.main, withOxidation).value
  {
    var alt :- ElementToSign(b.alt, withOxidation);
    var main :- ElementToSign(b.main, withOxidation);
    Ok(alt + main)
  }

  /** "oxid" or "sulfid", a space, and the other element's name. */
  function BinaryToName(b: Binary, t: Tables): (r: Result<string>)
    ensures r.Ok? <==> ElementToName(b.alt, ElementKey, t).Ok?
    ensures r.Ok? ==> MainName(b.kind) + " " <= r.value
    ensures r.Ok? ==> r.value == MainName(b.kind) + " " + ElementToName(b.alt, ElementKey, t).value
  {
    var alt :- ElementToName(b.alt, ElementKey, t);
    Ok(MainName(b.kind) + " " + alt)
  }

  /** A rendered oxide or sulfide name has the shape the recognizer looks for
      when the element's name is free of spaces and digits. */
  lemma BinaryNameHasShape(b: Binary, t: Tables)
    requires BinaryToName(b, t).Ok?
    requires NameChars(ElementToName(b.alt, ElementKey, t).value)
    ensures BinaryName(BinaryToName(b, t).value, MainName(b.kind))
  {
    var w := MainName(b.kind);
    var n := ElementToName(b.alt, ElementKey, t).value;
    assert (w + " " + n)[|w| + 1..] == n;
  }

  /** An oxide or sulfide read from its name gives the same compound back when
      its own name is read: the cross rule recomputes the amounts from the
      oxidation numbers the name carries. */
  lemma BinaryNameReadsBack(sign: string, t: Tables, k: nat, b: Binary)
    requires BinaryFromName(b.kind, sign, t) == Ok(b)
    requires NameReadsBack(t, ElementKey, k, b.alt)
    requires NoSpace(ElementToName(b.alt, ElementKey, t).value)
    ensures BinaryToName(b, t).Ok?
    ensures BinaryFromName(b.kind, BinaryToName(b, t).value, t) == Ok(b)
  {
    ElementNameReadsBack(t, ElementKey, k, b.alt);
    var n := ElementToName(b.alt, ElementKey, t).value;
    assert n != [];
    var w := MainName(b.kind);
    MainNameHasNoSpace(b.kind);
    WordsOfTwo(w, n);
    var name := BinaryToName(b, t).value;
    assert name == w + " " + n;
    assert Words(name)[1] == n;
    assert NewElement(n, Some(true), ElementKey, None, None, t) == Ok(Element(b.alt.data, 1, b.alt.oxidation));
    BinaryNameAlt(b.kind, sign, t);
    assert b.alt.(amount := 1) == Element(b.alt.data, 1, b.alt.oxidation);
    assert NewElement(Words(sign)[1], Some(true), ElementKey, None, None, t) == Ok(Element(b.alt.data, 1, b.alt.oxidation));
    BinaryNameOfAlt(b.kind, name, sign, t);
    assert BinaryFromName(b.kind, name, t) == BinaryFromName(b.kind, sign, t);
  }

  lemma MainNameHasNoSpace(kind: BinaryKind)
    ensures MainName(kind) != [] && NoSpace(MainName(kind))
  {
  }

  /** An oxide or sulfide in lowest terms, with the other element's
      oxidation number the one floor division gives, comes back unchanged
      from its formula: fix_compound_sign splits the two element signs, and
      each reads back as its symbol and amount. Amounts stop below 100, the
      two digits the formula pattern allows. */
  lemma BinaryFormulaReadsBack(b: Binary, t: Tables)
    requires b.main.oxidation == Some(MainOxidation)
    requires IsSymbol(b.main.data.sign) && IsSymbol(b.alt.data.sign)
    requires Lookup(t, Title(b.main.data.sign)) == Ok(b.main.data)
    requires Lookup(t, Title(b.alt.data.sign)) == Ok(b.alt.data)
    requires 0 <= b.main.amount < 100 && 0 < b.alt.amount < 100
    requires Coprime(b.main.amount, b.alt.amount)
    requires b.alt.oxidation == Some(PyFloorDiv(2 * b.main.amount, b.alt.amount))
    ensures BinaryToSign(b, false).Ok?
    ensures BinaryFromFormula(b.kind, Fix(BinaryToSign(b, false).value), t) == Ok(b)
  {
    var s := BinaryToSign(b, false).value;
    var ta, tm := BinaryTokens(b);
    assert Fix(s) == ta + " " + tm;
    WordsOfTwo(ta, tm);
    FormulaTokenElement(tm, None, ElementKey, None, Some(MainOxidation), t);
    FormulaTokenElement(ta, None, ElementKey, None, None, t);
    var main := Element(b.main.data, b.main.amount, Some(MainOxidation));
    var alt := Element(b.alt.data, b.alt.amount, None);
    assert NewElement(tm, None, ElementKey, None, Some(MainOxidation), t) == Ok(main);
    assert NewElement(ta, None, ElementKey, None, None, t) == Ok(alt);
    BinaryFormulaOfTokens(b.kind, Fix(s), ta, tm, main, alt, t);
    ReducedCanonical(b, main, alt);
  }

  /** Reducing amounts already in lowest terms changes nothing, and the
      floor division gives back the oxidation number that was there. */
  lemma ReducedCanonical(b: Binary, main: Element, alt: Element)
    requires b.main.oxidation == Some(MainOxidation) && b.alt.amount > 0
    requires Coprime(b.main.amount, b.alt.amount)
    requires b.alt.oxidation == Some(PyFloorDiv(2 * b.main.amount, b.alt.amount))
    requires main == Element(b.main.data, b.main.amount, Some(MainOxidation))
    requires alt == Element(b.alt.data, b.alt.amount, None)
    ensures Reduced(b.kind, main, alt) == b
  {
    FactorOfCoprime(b.main.amount, b.alt.amount);
    assert -GetOxidation(main) == 2 * b.main.amount;
  }

  /** The two formula tokens of an oxide's or sulfide's formula, and the
      fixed formula they make. */
  lemma BinaryTokens(b: Binary) returns (ta: string, tm: string)
    requires IsSymbol(b.main.data.sign) && IsSymbol(b.alt.data.sign)
    requires 0 <= b.main.amount < 100 && 0 <= b.alt.amount < 100
    ensures BinaryToSign(b, false).Ok?
    ensures Fix(BinaryToSign(b, false).value) == ta + " " + tm
    ensures NoSpace(ta) && NoSpace(tm) && ta != [] && tm != []
    ensures IsCompoundName(ta) == Ok(false) && IsCompoundName(tm) == Ok(false)
    ensures ParseElementSign(ta) == Ok((b.alt.data.sign, b.alt.amount))
    ensures ParseElementSign(tm) == Ok((b.main.data.sign, b.main.amount))
  {
    ElementTokenShape(b.alt);
    ElementTokenShape(b.main);
    var altS := ElementToSign(b.alt, false).value;
    var mainS := ElementToSign(b.main, false).value;
    ta := Nor(altS);
    tm := Nor(mainS);
    SymbolTokenShape(b.alt.data.sign, if b.alt.amount != 1 then Decimal(b.alt.amount) else "");
    SymbolTokenShape(b.main.data.sign, if b.main.amount != 1 then Decimal(b.main.amount) else "");
    var s := BinaryToSign(b, false).value;
    assert s == altS + mainS;
    NorJoin(altS, mainS);
    FixOfNor(s);
    assert IsUpper(tm[0]);
    FixJoin(ta, tm);
  }

  // ---------------------------------------------------------------------------
  // Acid (nazvoslovi.py:376-383)

  /** Hydrogen, element and oxygen, each with its own subscript; never
      bracketed. */
  function AcidToSign(a: Acid, withOxidation: bool): (r: Result<string>)
    ensures !withOxidation ==> r.Ok?
    ensures r.Ok? ==> a.hydrogen.data.sign <= r.value
    ensures r.Ok? <==> ElementToSign(a.hydrogen, withOxidation).Ok? && ElementToSign(a.element, withOxidation).Ok?
                       && ElementToSign(a.oxygen, withOxidation).Ok?
    ensures r.Ok? ==> r.value == ElementToSign(a.hydrogen, withOxidation).value
                                 + ElementToSign(a.element, withOxidation).value
                                 + ElementToSign(a.oxygen, withOxidation).value
  {
    var h :- ElementToSign(a.hydrogen, withOxidation);
    var e :- ElementToSign(a.element, withOxidation);
    var o :- ElementToSign(a.oxygen, withOxidation);
    Ok(h + e + o)
  }

  /** Acid.toname as the source writes it: "kyselina ", then for more than two
      hydrogens (when `doHydrogen`) their count word and "hydrogen " with a
      trailing space, then the element's acid name. */
  function AcidToNameAsWritten(a: Acid, doHydrogen: bool, t: Tables): (r: Result<string>)
    ensures r.Ok? ==> "kyselina " <= r.value
    ensures r.Ok? ==> ElementToName(a.element, AcidKey, t).Ok?
    ensures r.Ok? <==> ElementToName(a.element, AcidKey, t).Ok?
                       && (doHydrogen && a.hydrogen.amount > 2 ==> a.hydrogen.amount < |t.amounts|)
    ensures r.Ok? && doHydrogen && a.hydrogen.amount > 2 ==>
              a.hydrogen.amount < |t.amounts|
              && r.value == "kyselina " + t.amounts[a.hydrogen.amount] + "hydrogen "
                            + ElementToName(a.element, AcidKey, t).value
    ensures r.Ok? && !(doHydrogen && a.hydrogen.amount > 2) ==>
              r.value == "kyselina " + ElementToName(a.element, AcidKey, t).value
  {
    var prefix :- if doHydrogen && a.hydrogen.amount > 2 then
                    var word :- At(t.amounts, a.hydrogen.amount);
                    Ok(word + "hydrogen ")
                  else Ok("");
    var element :- ElementToName(a.element, AcidKey, t);
    Ok("kyselina " + prefix + element)
  }

  /** The acid name with the count of hydrogens written into one word with
      the element's name ("kyselina trihydrogenfosforečná"), the form the
      name branch of the constructor splits. */
  function AcidToName(a: Acid, doHydrogen: bool, t: Tables): (r: Result<string>)
    ensures r.Ok? ==> "kyselina " <= r.value
    ensures r.Ok? <==> AcidToNameAsWritten(a, doHydrogen, t).Ok?
    ensures r.Ok? && !(doHydrogen && a.hydrogen.amount > 2) ==> r == AcidToNameAsWritten(a, doHydrogen, t)
    ensures r.Ok? && !(doHydrogen && a.hydrogen.amount > 2) ==>
              r.value == "kyselina " + ElementToName(a.element, AcidKey, t).value
    ensures r.Ok? && doHydrogen && a.hydrogen.amount > 2 ==>
              a.hydrogen.amount < |t.amounts|
              && r.value == "kyselina " + t.amounts[a.hydrogen.amount] + "hydrogen"
                            + ElementToName(a.element, AcidKey, t).value
  {
    var prefix :- if doHydrogen && a.hydrogen.amount > 2 then
                    var word :- At(t.amounts, a.hydrogen.amount);
                    Ok(word + "hydrogen")
                  else Ok("");
    var element :- ElementToName(a.element, AcidKey, t);
    Ok("kyselina " + prefix + element)
  }

  /** As written, an acid with more than two hydrogens is named in three
      words ("kyselina trihydrogen fosforečná"), and the name branch of Acid,
      which unpacks two, raises ValueError on it. */
  lemma AsWrittenAcidNameRejected(a: Acid, t: Tables)
    requires a.hydrogen.amount > 2 && AcidToNameAsWritten(a, true, t).Ok?
    requires NoSpace(t.amounts[a.hydrogen.amount])
    requires ElementToName(a.element, AcidKey, t).value != []
    requires NoSpace(ElementToName(a.element, AcidKey, t).value)
    ensures AcidFromName(AcidToNameAsWritten(a, true, t).value, t) == Err(ValueError)
  {
    var w := t.amounts[a.hydrogen.amount];
    var n := ElementToName(a.element, AcidKey, t).value;
    var name := AcidToNameAsWritten(a, true, t).value;
    SpacedNameWords(w, n);
    SpacedNameHydrogen(w, n);
    AcidPartsOfThreeWords(name, t);
  }

  /** str.split() takes "kyselina " + w + "hydrogen " + n into three words. */
  lemma SpacedNameWords(w: string, n: string)
    requires NoSpace(w) && n != [] && NoSpace(n)
    ensures |Words("kyselina " + w + "hydrogen " + n)| == 3
  {
    assert "kyselina " + w + "hydrogen " + n == "kyselina" + " " + (w + "hydrogen") + " " + n;
    HydrogenHasNoSpace();
    NoSpaceJoin(w, "hydrogen");
    WordsOfThree("kyselina", w + "hydrogen", n);
  }

  /** "hydrogen" written after "kyselina " and the count word is found. */
  lemma SpacedNameHydrogen(w: string, n: string)
    ensures Contains("kyselina " + w + "hydrogen " + n, "hydrogen")
  {
    var name := "kyselina " + w + "hydrogen " + n;
    assert name[9 + |w|..17 + |w|] == "hydrogen";
    HydrogenInside(name, 9 + |w|);
  }

  /** An acid name with "hydrogen" in it must be two words. */
  lemma AcidPartsOfThreeWords(name: string, t: Tables)
    requires Contains(name, "hydrogen") && |Words(name)| == 3
    ensures AcidFromName(name, t) == Err(ValueError)
  {
  }

  lemma HydrogenHasNoSpace()
    ensures NoSpace("hydrogen") && NoSpace("kyselina")
  {
  }

  /** "hydrogen" written at `i` makes `'hydrogen' in name` true. */
  lemma HydrogenInside(name: string, i: nat)
    requires i + 8 <= |name| && name[i..i + 8] == "hydrogen"
    ensures Contains(name, "hydrogen")
  {
    assert OccursAt(name, "hydrogen", i);
  }

  /** With the count written into the element's word, the name branch of
      Acid reads the hydrogen count back, provided the count words are
      distinct and "hydrogen" occurs neither in the count word nor across its
      end, nor in the element's name. */
  lemma AcidNameReadsBack(a: Acid, t: Tables)
    requires a.hydrogen.amount > 2 && AcidToName(a, true, t).Ok?
    requires forall j :: 0 <= j < a.hydrogen.amount ==> t.amounts[j] != t.amounts[a.hydrogen.amount]
    requires NoSpace(t.amounts[a.hydrogen.amount])
    requires Find(t.amounts[a.hydrogen.amount] + "hydrogen", "hydrogen") == Some(|t.amounts[a.hydrogen.amount]|)
    requires NoSpace(ElementToName(a.element, AcidKey, t).value)
    requires !Contains(ElementToName(a.element, AcidKey, t).value, "hydrogen")
    ensures AcidParts(AcidToName(a, true, t).value, t)
            == HydrogenWordParts(t.amounts[a.hydrogen.amount] + "hydrogen" + ElementToName(a.element, AcidKey, t).value, t)
    ensures HydrogenWordParts(t.amounts[a.hydrogen.amount] + "hydrogen" + ElementToName(a.element, AcidKey, t).value, t).Ok?
            <==> NewElement(ElementToName(a.element, AcidKey, t).value, Some(true), AcidKey, None, None, t).Ok?
    ensures HydrogenWordParts(t.amounts[a.hydrogen.amount] + "hydrogen" + ElementToName(a.element, AcidKey, t).value, t).Ok? ==>
              HydrogenWordParts(t.amounts[a.hydrogen.amount] + "hydrogen" + ElementToName(a.element, AcidKey, t).value, t).value
              == (a.hydrogen.amount, NewElement(ElementToName(a.element, AcidKey, t).value, Some(true), AcidKey, None, None, t).value)
  {
    var h := a.hydrogen.amount;
    var w := t.amounts[h];
    var n := ElementToName(a.element, AcidKey, t).value;
    AcidNameSplits(w, n);
    var name := "kyselina " + w + "hydrogen" + n;
    AcidPartsOfHydrogenName(name, w + "hydrogen" + n, t);
    assert AcidToName(a, true, t).value == name;
    IndexOfFirst(t.amounts, w, h);
    HydrogenWordPartsOf(w + "hydrogen" + n, w, n, h, t);
  }

  /** When the element's acid name also reads back as the element, the
      one-word name gives back the acid's own hydrogen count and element, with
      amount 1, and the name branch rebuilds the acid from them. */
  lemma AcidElementReadsBack(a: Acid, t: Tables, k: nat)
    requires a.hydrogen.amount > 2 && AcidToName(a, true, t).Ok?
    requires forall j :: 0 <= j < a.hydrogen.amount ==> t.amounts[j] != t.amounts[a.hydrogen.amount]
    requires NoSpace(t.amounts[a.hydrogen.amount])
    requires Find(t.amounts[a.hydrogen.amount] + "hydrogen", "hydrogen") == Some(|t.amounts[a.hydrogen.amount]|)
    requires NoSpace(ElementToName(a.element, AcidKey, t).value)
    requires !Contains(ElementToName(a.element, AcidKey, t).value, "hydrogen")
    requires NameReadsBack(t, AcidKey, k, a.element)
    ensures AcidParts(AcidToName(a, true, t).value, t) == Ok((a.hydrogen.amount, a.element.(amount := 1)))
    ensures AcidFromName(AcidToName(a, true, t).value, t) == AcidCompleted(a.hydrogen.amount, a.element.(amount := 1), t)
  {
    AcidNameReadsBack(a, t);
    ElementNameReadsBack(t, AcidKey, k, a.element);
  }

  lemma HydrogenWordPartsOf(word: string, w: string, n: string, h: nat, t: Tables)
    requires SplitOn(word, "hydrogen") == [w, n] && IndexOf(t.amounts, w) == Ok(h)
    ensures HydrogenWordParts(word, t).Ok? <==> NewElement(n, Some(true), AcidKey, None, None, t).Ok?
    ensures HydrogenWordParts(word, t).Ok? ==>
              HydrogenWordParts(word, t).value == (h as int, NewElement(n, Some(true), AcidKey, None, None, t).value)
  {
  }

  lemma AcidPartsOfHydrogenName(name: string, word: string, t: Tables)
    requires Contains(name, "hydrogen") && Words(name) == ["kyselina", word]
    ensures AcidParts(name, t) == HydrogenWordParts(word, t)
  {
  }

  /** How the name branch of Acid takes "kyselina " + w + "hydrogen" + n
      apart. */
  lemma AcidNameSplits(w: string, n: string)
    requires NoSpace(w) && NoSpace(n) && !Contains(n, "hydrogen")
    requires Find(w + "hydrogen", "hydrogen") == Some(|w|)
    ensures Contains("kyselina " + w + "hydrogen" + n, "hydrogen")
    ensures Words("kyselina " + w + "hydrogen" + n) == ["kyselina", w + "hydrogen" + n]
    ensures SplitOn(w + "hydrogen" + n, "hydrogen") == [w, n]
  {
    var word := w + "hydrogen" + n;
    var name := "kyselina " + w + "hydrogen" + n;
    assert Words(name) == ["kyselina", word] by {
      assert name == "kyselina" + " " + word;
      HydrogenHasNoSpace();
      NoSpaceJoin(w, "hydrogen");
      NoSpaceJoin(w + "hydrogen", n);
      assert word != [];
      WordsOfTwo("kyselina", word);
    }
    assert Contains(name, "hydrogen") by {
      assert name[9 + |w|..17 + |w|] == "hydrogen";
      HydrogenInside(name, 9 + |w|);
    }
    SplitAtFirst(w, "hydrogen", n);
  }

  /** Splitting `w + sep + n` at `sep` when its first occurrence is the one
      written after `w` and `n` holds none. */
  lemma SplitAtFirst(w: string, sep: string, n: string)
    requires sep != [] && Find(w + sep, sep) == Some(|w|) && !Contains(n, sep)
    ensures SplitOn(w + sep + n, sep) == [w, n]
  {
    var u := w + sep + n;
    assert OccursAt(u, sep, |w|);
    assert forall j :: 0 <= j < |w| ==> (OccursAt(u, sep, j) <==> OccursAt(w + sep, sep, j)) by {
      forall j | 0 <= j < |w|
        ensures OccursAt(u, sep, j) <==> OccursAt(w + sep, sep, j)
      {
        assert u[j..j + |sep|] == (w + sep)[j..j + |sep|];
      }
    }
    assert Find(u, sep) == Some(|w|);
    assert u[..|w|] == w && u[|w| + |sep|..] == n;
    assert SplitOn(n, sep) == [n];
  }

  // ---------------------------------------------------------------------------
  // SaltAcid and Salt (nazvoslovi.py:423-427, 469-473)

  /** The anion's element and oxygen, bracketed by BaseCompound.tosign. */
  function SaltAcidToSign(a: SaltAcid, withOxidation: bool): (r: Result<string>)
    ensures !withOxidation ==> r.Ok?
    ensures r.Ok? && a.amount != 1 ==> "(" + a.element.data.sign <= r.value
    ensures r.Ok? ==> ElementToSign(a.element, withOxidation).Ok? && ElementToSign(a.oxygen, withOxidation).Ok?
    ensures r.Ok? ==> r == Wrapped(ElementToSign(a.element, withOxidation).value
                                   + ElementToSign(a.oxygen, withOxidation).value,
                                   a.amount, a.oxidation, withOxidation)
  {
    var e :- ElementToSign(a.element, withOxidation);
    var o :- ElementToSign(a.oxygen, withOxidation);
    Wrapped(e + o, a.amount, a.oxidation, withOxidation)
  }

  /** The anion's name: its element named in the salt context. */
  function SaltAcidToName(a: SaltAcid, t: Tables): (r: Result<string>)
    ensures r == ElementToName(a.element, SaltKey, t)
  {
    ElementToName(a.element, SaltKey, t)
  }

  function SaltToSign(s: Salt, withOxidation: bool): (r: Result<string>)
    ensures !withOxidation ==> r.Ok?
    ensures r.Ok? ==> s.element.data.sign <= r.value
    ensures r.Ok? <==> ElementToSign(s.element, withOxidation).Ok? && SaltAcidToSign(s.acid, withOxidation).Ok?
    ensures r.Ok? ==> r.value == ElementToSign(s.element, withOxidation).value + SaltAcidToSign(s.acid, withOxidation).value
  {
    var e :- ElementToSign(s.element, withOxidation);
    var a :- SaltAcidToSign(s.acid, withOxidation);
    Ok(e + a)
  }

  /** The anion's name, a space, the cation's name. */
  function SaltToName(s: Salt, t: Tables): (r: Result<string>)
    ensures r.Ok? <==> SaltAcidToName(s.acid, t).Ok? && ElementToName(s.element, ElementKey, t).Ok?
    ensures r.Ok? ==> SaltAcidToName(s.acid, t).value + " " <= r.value
    ensures r.Ok? ==> r.value == SaltAcidToName(s.acid, t).value + " " + ElementToName(s.element, ElementKey, t).value
  {
    var a :- SaltAcidToName(s.acid, t);
    var e :- ElementToName(s.element, ElementKey, t);
    Ok(a + " " + e)
  }

  // ---------------------------------------------------------------------------
  // HydrogenAcid and HydrogenSalt (nazvoslovi.py:533-537, 579-583)

  function HydrogenAcidToSign(a: HydrogenAcid, withOxidation: bool): (r: Result<string>)
    ensures !withOxidation ==> r.Ok?
    ensures r.Ok? && a.amount != 1 ==> "(" + a.hydrogen.data.sign <= r.value
    ensures r.Ok? ==> ElementToSign(a.hydrogen, withOxidation).Ok? && ElementToSign(a.element, withOxidation).Ok?
                      && ElementToSign(a.oxygen, withOxidation).Ok?
    ensures r.Ok? ==> r == Wrapped(ElementToSign(a.hydrogen, withOxidation).value
                                   + ElementToSign(a.element, withOxidation).value
                                   + ElementToSign(a.oxygen, withOxidation).value,
                                   a.amount, a.oxidation, withOxidation)
  {
    var h :- ElementToSign(a.hydrogen, withOxidation);
    var e :- ElementToSign(a.element, withOxidation);
    var o :- ElementToSign(a.oxygen, withOxidation);
    var w :- Wrapped(h + e + o, a.amount, a.oxidation, withOxidation);
    BracketedPrefix(a.hydrogen.data.sign, h, e, o, w);
    Ok(w)
  }

  /** What starts the first part starts the bracketed whole. */
  lemma BracketedPrefix(p: string, first: string, second: string, third: string, w: string)
    requires p <= first
    ensures "(" + (first + second + third) + ")" <= w ==> "(" + p <= w
  {
    var b := "(" + (first + second + third) + ")";
    assert forall i :: 0 <= i < |p| ==> b[i + 1] == p[i];
  }

  /** The count word of the kept hydrogens (none for one), "hydrogen", and the
      element's salt name. A count past the amount table raises IndexError;
      a negative count indexes from the end of the table. */
  function HydrogenAcidToName(a: HydrogenAcid, t: Tables): (r: Result<string>)
    ensures a.hydrogen.amount == 1 ==>
              r.Ok? == ElementToName(a.element, SaltKey, t).Ok?
              && (r.Ok? ==> r.value == "hydrogen" + ElementToName(a.element, SaltKey, t).value)
    ensures r.Ok? && a.hydrogen.amount != 1 ==>
              -|t.amounts| <= a.hydrogen.amount < |t.amounts|
    ensures r.Ok? <==> ElementToName(a.element, SaltKey, t).Ok?
                       && (a.hydrogen.amount == 1 || -|t.amounts| <= a.hydrogen.amount < |t.amounts|)
    ensures r.Ok? && a.hydrogen.amount != 1 ==>
              r.value == At(t.amounts, a.hydrogen.amount).value + "hydrogen" + ElementToName(a.element, SaltKey, t).value
  {
    var count :- if a.hydrogen.amount != 1 then At(t.amounts, a.hydrogen.amount) else Ok("");
    var e :- ElementToName(a.element, SaltKey, t);
    Ok(count + "hydrogen" + e)
  }

  function HydrogenSaltToSign(s: HydrogenSalt, withOxidation: bool): (r: Result<string>)
    ensures !withOxidation ==> r.Ok?
    ensures r.Ok? ==> s.element.data.sign <= r.value
    ensures r.Ok? <==> ElementToSign(s.element, withOxidation).Ok? && HydrogenAcidToSign(s.acid, withOxidation).Ok?
    ensures r.Ok? ==> r.value == ElementToSign(s.element, withOxidation).value + HydrogenAcidToSign(s.acid, withOxidation).value
  {
    var e :- ElementToSign(s.element, withOxidation);
    var a :- HydrogenAcidToSign(s.acid, withOxidation);
    Ok(e + a)
  }

  function HydrogenSaltToName(s: HydrogenSalt, t: Tables): (r: Result<string>)
    ensures r.Ok? <==> HydrogenAcidToName(s.acid, t).Ok? && ElementToName(s.element, ElementKey, t).Ok?
    ensures r.Ok? ==> HydrogenAcidToName(s.acid, t).value + " " <= r.value
    ensures r.Ok? ==> r.value == HydrogenAcidToName(s.acid, t).value + " " + ElementToName(s.element, ElementKey, t).value
  {
    var a :- HydrogenAcidToName(s.acid, t);
    var e :- ElementToName(s.element, ElementKey, t);
    Ok(a + " " + e)
  }

  // ---------------------------------------------------------------------------
  // SaltHydrate (nazvoslovi.py:616-622)

  /** The salt, " . ", the count of water and "H₂O" (with "ᶦ" on the hydrogen
      and "⁻ᶦᶦ" on the oxygen when oxidation numbers are shown). */
  function SaltHydrateToSign(h: SaltHydrate, withOxidation: bool): (r: Result<string>)
    ensures !withOxidation ==> r.Ok?
    ensures r.Ok? ==> SaltToSign(h.salt, withOxidation).Ok?
    ensures r.Ok? ==> SaltToSign(h.salt, withOxidation).value + " . " + Decimal(h.hydrate) + "H" <= r.value
    ensures r.Ok? <==> SaltToSign(h.salt, withOxidation).Ok?
    ensures r.Ok? ==> r.value == SaltToSign(h.salt, withOxidation).value + " . " + Decimal(h.hydrate)
                                 + (if withOxidation then "Hᶦ₂O⁻ᶦᶦ" else "H₂O")
  {
    var salt :- SaltToSign(h.salt, withOxidation);
    Ok(salt + " . " + Decimal(h.hydrate) + Water(withOxidation))
  }

  /** The count word with "hydrát ", then the salt's two words in the
      genitive: "u" after the anion, and "ého" for the cation's last letter.
      A salt name that is not two words raises ValueError. */
  function SaltHydrateToName(h: SaltHydrate, t: Tables): (r: Result<string>)
    ensures r.Ok? ==> SaltToName(h.salt, t).Ok? && |Words(SaltToName(h.salt, t).value)| == 2
    ensures r.Ok? ==> 0 <= h.hydrate < |t.amounts| || -|t.amounts| <= h.hydrate < 0
    ensures r.Ok? <==> SaltToName(h.salt, t).Ok? && |Words(SaltToName(h.salt, t).value)| == 2
                       && -|t.amounts| <= h.hydrate < |t.amounts|
    ensures r.Ok? ==> r.value == At(t.amounts, h.hydrate).value + "hydrát "
                                 + Words(SaltToName(h.salt, t).value)[0] + "u "
                                 + DropLast(Words(SaltToName(h.salt, t).value)[1], 1) + "ého"
  {
    var name :- SaltToName(h.salt, t);
    var words :- Unpack2(Words(name));
    var count :- At(t.amounts, h.hydrate);
    Ok(count + "hydrát " + words.0 + "u " + DropLast(words.1, 1) + "ého")
  }

  /** The water of a hydrate's formula: two hydrogens (oxidation 1) and an
      oxygen (oxidation -2), each given its subscript. */
  function Water(withOxidation: bool): (r: string)
    ensures r == if withOxidation then "Hᶦ₂O⁻ᶦᶦ" else "H₂O"
  {
    assert Decimal(2) == "2";
    assert Sub("2") == "₂";
    assert Sub("") == "";
    var hydrogen := Subscript(Some(2), if withOxidation then Some(1) else None).value;
    var oxygen := Subscript(None, if withOxidation then Some(-2) else None).value;
    "H" + hydrogen + "O" + oxygen
  }

  /** The count word SaltHydrate.toname writes in front of "hydrát" reads
      back, through the name branch's index lookup, as the count, when no
      earlier count word is the same. */
  lemma HydrateCountReadsBack(t: Tables, h: nat)
    requires h < |t.amounts|
    requires forall j :: 0 <= j < h ==> t.amounts[j] != t.amounts[h]
    ensures IndexOf(t.amounts, DropLast(t.amounts[h] + "hydrát", 6)) == Ok(h)
  {
    assert DropLast(t.amounts[h] + "hydrát", 6) == t.amounts[h];
    IndexOfFirst(t.amounts, t.amounts[h], h);
  }

  /** A hydrate's name reads back as the same count of water and the salt
      that the salt's own name gives, when the count word is the first of its
      kind and free of spaces, and the salt's two names are single words, the
      cation's ending in "ý". */
  lemma SaltHydrateNameReadsBack(h: SaltHydrate, t: Tables)
    requires SaltHydrateToName(h, t).Ok? && h.hydrate >= 0
    requires forall j :: 0 <= j < h.hydrate ==> t.amounts[j] != t.amounts[h.hydrate]
    requires NoSpace(t.amounts[h.hydrate])
    requires SaltAcidToName(h.salt.acid, t).value != [] && NoSpace(SaltAcidToName(h.salt.acid, t).value)
    requires ElementToName(h.salt.element, ElementKey, t).value != []
    requires NoSpace(ElementToName(h.salt.element, ElementKey, t).value)
    requires ElementToName(h.salt.element, ElementKey, t).value[|ElementToName(h.salt.element, ElementKey, t).value| - 1] == 'ý'
    ensures SaltHydrateFromName(SaltHydrateToName(h, t).value, t).Ok?
            <==> SaltFromName(SaltToName(h.salt, t).value, t).Ok?
    ensures SaltHydrateFromName(SaltHydrateToName(h, t).value, t).Ok? ==>
              SaltHydrateFromName(SaltHydrateToName(h, t).value, t).value
              == SaltHydrate(SaltFromName(SaltToName(h.salt, t).value, t).value, h.hydrate)
  {
    var a := SaltAcidToName(h.salt.acid, t).value;
    var e := ElementToName(h.salt.element, ElementKey, t).value;
    var x, y, z := HydrateNameWords(h, t);
    HydrateCountReadsBack(t, h.hydrate);
    GenitiveReadsBack(a, e);
    SaltHydrateNameOfWords(SaltHydrateToName(h, t).value, x, y, z, t);
  }

  /** The three words of a hydrate's name: the count word with "hydrát", and
      the salt's two names in the genitive. */
  lemma HydrateNameWords(h: SaltHydrate, t: Tables) returns (x: string, y: string, z: string)
    requires SaltHydrateToName(h, t).Ok? && h.hydrate >= 0
    requires NoSpace(t.amounts[h.hydrate])
    requires SaltAcidToName(h.salt.acid, t).value != [] && NoSpace(SaltAcidToName(h.salt.acid, t).value)
    requires ElementToName(h.salt.element, ElementKey, t).value != []
    requires NoSpace(ElementToName(h.salt.element, ElementKey, t).value)
    ensures x == t.amounts[h.hydrate] + "hydrát"
    ensures y == SaltAcidToName(h.salt.acid, t).value + "u"
    ensures z == DropLast(ElementToName(h.salt.element, ElementKey, t).value, 1) + "ého"
    ensures SaltToName(h.salt, t).value
            == SaltAcidToName(h.salt.acid, t).value + " " + ElementToName(h.salt.element, ElementKey, t).value
    ensures Words(SaltHydrateToName(h, t).value) == [x, y, z]
  {
    var a := SaltAcidToName(h.salt.acid, t).value;
    var e := ElementToName(h.salt.element, ElementKey, t).value;
    assert SaltToName(h.salt, t).value == a + " " + e;
    WordsOfTwo(a, e);
    x, y, z := GenitiveWords(t.amounts[h.hydrate], a, e);
  }

  /** The hydrate's name built from a count word and the salt's two names
      splits into the three genitive words. */
  lemma GenitiveWords(count: string, a: string, e: string) returns (x: string, y: string, z: string)
    requires NoSpace(count) && a != [] && NoSpace(a) && e != [] && NoSpace(e)
    ensures x == count + "hydrát" && y == a + "u" && z == DropLast(e, 1) + "ého"
    ensures Words(count + "hydrát " + a + "u " + DropLast(e, 1) + "ého") == [x, y, z]
  {
    x, y, z := count + "hydrát", a + "u", DropLast(e, 1) + "ého";
    GenitiveWordsHaveNoSpace(count, a, e);
    WordsOfThree(x, y, z);
    assert count + "hydrát " + a + "u " + DropLast(e, 1) + "ého" == x + " " + y + " " + z;
  }

  /** The three words of a hydrate's name are single words. */
  lemma GenitiveWordsHaveNoSpace(count: string, a: string, e: string)
    requires NoSpace(count) && NoSpace(a) && NoSpace(e) && e != []
    ensures NoSpace(count + "hydrát") && NoSpace(a + "u") && NoSpace(DropLast(e, 1) + "ého")
  {
    assert NoSpace("hydrát") && NoSpace("u") && NoSpace("ého");
    NoSpaceJoin(count, "hydrát");
    NoSpaceJoin(a, "u");
    assert NoSpace(DropLast(e, 1));
    NoSpaceJoin(DropLast(e, 1), "ého");
  }

  /** The genitive words of a hydrate's name turn back into the salt's name
      when the cation's word ends in "ý", the nominative the name branch of
      the hydrate's constructor restores. */
  lemma GenitiveReadsBack(acid: string, element: string)
    requires element != [] && element[|element| - 1] == 'ý'
    ensures SaltNameOfGenitive(acid + "u", DropLast(element, 1) + "ého") == acid + " " + element
  {
    var stem := DropLast(element, 1);
    assert DropLast(acid + "u", 1) == acid;
    assert DropLast(stem + "ého", 3) == stem;
    assert stem + "ý" == element;
  }
}
