// The constructors of nazvoslovi.py statement by statement: each __init__
// fills in its parts one assignment at a time and then overwrites some of
// them (the amounts after the cross rule, the hydrogen count after the
// oxidation has been worked out). The parts are owned by the compound alone,
// so each update is made on a local value that is stored at the end. Every
// method is proved to build what the function in module Compounds (or
// Elements) describes.

module Construction {
  import opened Failures
  import opened PyStr
  import opened Balancing
  import opened Tables
  import opened Elements
  import opened Compounds

  /** Element.__init__ (nazvoslovi.py:216-242) */
  method InitElement(sign: string, name: Option<bool>, key: TableKey, amount: Option<int>,
                     oxidation: Option<int>, t: Tables) returns (r: Result<Element>)
    ensures r == NewElement(sign, name, key, amount, oxidation, t)
  {
    var isName :- ReadAsName(sign, name);
    var e: Element;
    if isName {
      var loaded :- LoadName(Lower(sign), key, t);
      e := Element(loaded.0, 1, Some(loaded.1));
    } else {
      var parsed :- ParseElementSign(sign);
      var data :- Lookup(t, Title(parsed.0));
      e := Element(data, parsed.1, None);
    }
    if oxidation.Some? {
      e := e.(oxidation := oxidation);
    }
    if amount.Some? {
      e := e.(amount := amount.value);
    }
    r := Ok(e);
  }

  /** SingleElementCompound.__init__ (nazvoslovi.py:272-296) */
  method InitBinary(kind: BinaryKind, sign: string, name: Option<bool>, t: Tables) returns (r: Result<Binary>)
    ensures r == BinaryOf(kind, sign, name, t)
  {
    var isName :- ReadAsName(sign, name);
    if isName {
      r := InitBinaryFromName(kind, sign, t);
    } else {
      r := InitBinaryFromFormula(kind, sign, t);
    }
  }

  /** The name branch of SingleElementCompound.__init__ (nazvoslovi.py:281-288) */
  method InitBinaryFromName(kind: BinaryKind, sign: string, t: Tables) returns (r: Result<Binary>)
    ensures r == BinaryFromName(kind, sign, t)
  {
    var words :- Unpack2(Words(sign));
    var main :- InitElement(MainSign(kind), Some(false), ElementKey, None, Some(MainOxidation), t);
    var alt :- InitElement(words.1, Some(true), ElementKey, None, None, t);
    var amounts := CrossRule(main.oxidation.value, alt.oxidation.value);
    main := main.(amount := amounts.0);
    alt := alt.(amount := amounts.1);
    r := Ok(Binary(kind, main, alt));
  }

  /** The formula branch of SingleElementCompound.__init__ (nazvoslovi.py:289-296) */
  method InitBinaryFromFormula(kind: BinaryKind, sign: string, t: Tables) returns (r: Result<Binary>)
    ensures r == BinaryFromFormula(kind, sign, t)
  {
    var words :- Unpack2(Words(sign));
    var main :- InitElement(words.1, None, ElementKey, None, Some(MainOxidation), t);
    var alt :- InitElement(words.0, None, ElementKey, None, None, t);
    if alt.amount == 0 {
      return Err(ZeroDivisionError);
    }
    ghost var read := Binary(kind, main, alt);
    alt := alt.(oxidation := Some(AltOxidation(main, alt)));
    var amounts := Factor(main.amount, alt.amount);
    main := main.(amount := amounts.0);
    alt := alt.(amount := amounts.1);
    assert Binary(kind, main, alt) == Reduced(kind, read.main, read.alt);
    r := Ok(Binary(kind, main, alt));
  }

  /** Acid.__init__ (nazvoslovi.py:336-374) */
  method InitAcid(sign: string, name: Option<bool>, t: Tables) returns (r: Result<Acid>)
    ensures r == AcidOf(sign, name, t)
  {
    var isName :- ReadAsName(sign, name);
    if isName {
      r := InitAcidFromName(sign, t);
    } else {
      r := InitAcidFromFormula(sign, t);
    }
  }

  /** The name branch of Acid.__init__ (nazvoslovi.py:345-366) */
  method InitAcidFromName(sign: string, t: Tables) returns (r: Result<Acid>)
    ensures r == AcidFromName(sign, t)
  {
    var h: int, element: Element;
    if Contains(sign, "hydrogen") {
      var words :- Unpack2(Words(sign));
      var pieces :- Unpack2(SplitOn(words.1, "hydrogen"));
      var k :- IndexOf(t.amounts, pieces.0);
      h := k;
      element :- InitElement(pieces.1, Some(true), AcidKey, None, None, t);
    } else {
      var words :- Unpack2(Words(sign));
      element :- InitElement(words.1, Some(true), AcidKey, None, None, t);
      h := if GetOxidation(element) % 2 == 0 then 2 else 0;
    }
    assert AcidParts(sign, t) == Ok((h, element));
    var hydrogen :- InitElement("H", None, ElementKey, Some(h), Some(1), t);
    r := InitAcidWithOxygen(hydrogen, element, t);
  }

  /** The formula branch of Acid.__init__ (nazvoslovi.py:367-374) */
  method InitAcidFromFormula(sign: string, t: Tables) returns (r: Result<Acid>)
    ensures r == AcidFromFormula(sign, t)
  {
    var words :- Unpack3(Words(sign));
    var hydrogen :- InitElement(words.0, None, ElementKey, None, Some(1), t);
    var oxygen :- InitElement(words.2, None, ElementKey, None, Some(-2), t);
    var element :- InitElement(words.1, None, ElementKey, None,
                               Some(CompletingPair(0, oxygen, hydrogen)), t);
    r := Ok(Acid(hydrogen, element, oxygen));
  }

  /** SaltAcid.__init__ (nazvoslovi.py:393-421) */
  method InitSaltAcid(sign: string, name: Option<bool>, amount: int, oxidation: int, t: Tables)
    returns (r: Result<SaltAcid>)
    ensures r == SaltAcidOf(sign, name, amount, oxidation, t)
  {
    var isName :- ReadAsName(sign, name);
    if isName {
      r := InitSaltAcidFromName(sign, t);
    } else {
      r := InitSaltAcidFromFormula(sign, amount, oxidation, t);
    }
  }

  /** The name branch of SaltAcid.__init__ (nazvoslovi.py:404-410): the
      anion's charge is set before its oxygen is built from it. */
  method InitSaltAcidFromName(sign: string, t: Tables) returns (r: Result<SaltAcid>)
    ensures r == SaltAcidFromName(sign, t)
  {
    var element :- InitElement(sign, Some(true), SaltKey, None, None, t);
    var oxidation := if GetOxidation(element) % 2 == 0 then -2 else -1;
    var oxygen :- InitElement("O", None, ElementKey,
                              Some(HalfExcess(element, oxidation)), Some(-2), t);
    r := Ok(SaltAcid(element, oxygen, oxidation, 1));
  }

  /** The formula branch of SaltAcid.__init__ (nazvoslovi.py:412-421): the
      oxygen is read first and the element's oxidation number completes it. */
  method InitSaltAcidFromFormula(sign: string, amount: int, oxidation: int, t: Tables)
    returns (r: Result<SaltAcid>)
    ensures r == SaltAcidFromFormula(sign, amount, oxidation, t)
  {
    var words :- Unpack2(Words(sign));
    var oxygen :- InitElement(words.1, None, ElementKey, None, Some(-2), t);
    var element :- InitElement(words.0, None, ElementKey, None,
                               Some(Completing(oxidation, oxygen)), t);
    r := Ok(SaltAcid(element, oxygen, oxidation, amount));
  }

  /** Salt.__init__ (nazvoslovi.py:437-467) */
  method InitSalt(sign: string, name: Option<bool>, t: Tables) returns (r: Result<Salt>)
    ensures r == SaltOf(sign, name, t)
  {
    var isName :- ReadAsName(sign, name);
    if isName {
      r := InitSaltFromName(sign, t);
    } else {
      r := InitSaltFromFormula(sign, t);
    }
  }

  /** The name branch of Salt.__init__ (nazvoslovi.py:446-453) */
  method InitSaltFromName(sign: string, t: Tables) returns (r: Result<Salt>)
    ensures r == SaltFromName(sign, t)
  {
    var words :- Unpack2(Words(sign));
    var element :- InitElement(words.1, Some(true), ElementKey, None, None, t);
    var acid :- InitSaltAcid(words.0, Some(true), 1, 0, t);
    var amounts := CrossRule(element.oxidation.value, acid.oxidation);
    element := element.(amount := amounts.0);
    acid := acid.(amount := amounts.1);
    r := Ok(Salt(element, acid));
  }

  /** The formula branch of Salt.__init__ (nazvoslovi.py:454-467) */
  method InitSaltFromFormula(sign: string, t: Tables) returns (r: Result<Salt>)
    ensures r == SaltFromFormula(sign, t)
  {
    var parts :- Unpack2(SplitFirst(sign));
    var acidSign, acidAmount := parts.1, 1;
    if Contains(acidSign, "(") {
      var pieces :- Unpack2(SplitOn(if acidSign == [] then [] else acidSign[1..], ")"));
      acidSign := pieces.0;
      acidAmount :- ParseInt(pieces.1);
    }
    assert AcidWithAmount(parts.1) == Ok((acidSign, acidAmount));
    var element :- InitElement(parts.0, None, ElementKey, None, None, t);
    if element.amount == 0 && acidAmount == 0 {
      return Err(ZeroDivisionError);
    }
    var oxidations := CrossRule(element.amount, acidAmount);
    element := element.(oxidation := Some(oxidations.0));
    var acid :- InitSaltAcid(acidSign, Some(false), acidAmount, oxidations.1, t);
    r := Ok(Salt(element, acid));
  }

  /** HydrogenAcid.__init__ (nazvoslovi.py:484-531) */
  method InitHydrogenAcid(sign: string, name: Option<bool>, amount: int, oxidation: int, t: Tables)
    returns (r: Result<HydrogenAcid>)
    ensures r == HydrogenAcidOf(sign, name, amount, oxidation, t)
  {
    var isName :- ReadAsName(sign, name);
    if isName {
      r := InitHydrogenAcidFromName(sign, t);
    } else {
      r := InitHydrogenAcidFromFormula(sign, amount, oxidation, t);
    }
  }

  /** The name branch of HydrogenAcid.__init__ (nazvoslovi.py:495-518): the
      whole acid is built with enough hydrogens, then all but the kept ones
      are taken away and their charge left on the anion. */
  method InitHydrogenAcidFromName(sign: string, t: Tables) returns (r: Result<HydrogenAcid>)
    ensures r == HydrogenAcidFromName(sign, t)
  {
    var pieces :- Unpack2(SplitOn(sign, "hydrogen"));
    var kept: int := 1;
    if pieces.0 != [] {
      var k :- IndexOf(t.amounts, pieces.0);
      kept := k;
    }
    assert KeptHydrogen(pieces.0, t) == Ok(kept);
    var element :- InitElement(pieces.1, Some(true), SaltKey, None, None, t);
    r := InitHydrogenAcidCompleted(kept, element, t);
  }

  /** The rest of the name branch of HydrogenAcid.__init__
      (nazvoslovi.py:506-518), once the kept hydrogens and the element are
      known. */
  method InitHydrogenAcidCompleted(kept: int, element: Element, t: Tables) returns (r: Result<HydrogenAcid>)
    requires Known(element)
    ensures r == HydrogenAcidCompleted(kept, element, t)
  {
    var hydrogens := PadHydrogen(GetOxidation(element), kept);
    var hydrogen :- InitElement("H", None, ElementKey, Some(hydrogens), Some(1), t);
    r := InitKeptAcid(hydrogen, element, kept, t);
  }

  /** nazvoslovi.py:513-518: the oxygen, then the hydrogens taken out. */
  method InitKeptAcid(hydrogen: Element, element: Element, kept: int, t: Tables) returns (r: Result<HydrogenAcid>)
    requires Known(element) && hydrogen.oxidation == Some(1)
    requires hydrogen.amount == PaddedHydrogen(GetOxidation(element), kept)
    ensures r == KeptAcid(hydrogen, element, kept, t)
  {
    var full :- InitAcidWithOxygen(hydrogen, element, t);
    var charge := kept - full.hydrogen.amount;
    var keptHydrogen := full.hydrogen.(amount := kept);
    r := Ok(HydrogenAcid(keptHydrogen, element, full.oxygen, charge, 1));
  }

  /** The hydrogens of the whole acid (nazvoslovi.py:506-511): 2 or 1 by the
      parity of the element's oxidation number, raised above `kept`. */
  method PadHydrogen(e: int, kept: int) returns (h: int)
    ensures h == PaddedHydrogen(e, kept)
  {
    h := if e % 2 == 0 then 2 else 1;
    if h <= kept {
      var missing := kept - h + 1;
      h := h + missing + missing % 2;
    }
  }

  /** The oxygens that cancel the hydrogens and the element
      (nazvoslovi.py:364-366 and 513-515). */
  method InitAcidWithOxygen(hydrogen: Element, element: Element, t: Tables) returns (r: Result<Acid>)
    requires Known(element) && hydrogen.oxidation == Some(1)
    ensures r == AcidWithOxygen(hydrogen, element, t)
  {
    var oxygen :- InitElement("O", None, ElementKey, Some(HalfPair(hydrogen, element)), Some(-2), t);
    r := Ok(Acid(hydrogen, element, oxygen));
  }

  /** The formula branch of HydrogenAcid.__init__ (nazvoslovi.py:520-531) */
  method InitHydrogenAcidFromFormula(sign: string, amount: int, oxidation: int, t: Tables)
    returns (r: Result<HydrogenAcid>)
    ensures r == HydrogenAcidFromFormula(sign, amount, oxidation, t)
  {
    var words :- Unpack3(Words(sign));
    var hydrogen :- InitElement(words.0, None, ElementKey, None, Some(1), t);
    var oxygen :- InitElement(words.2, None, ElementKey, None, Some(-2), t);
    var element :- InitElement(words.1, None, ElementKey, None,
                               Some(CompletingPair(oxidation, oxygen, hydrogen)), t);
    r := Ok(HydrogenAcid(hydrogen, element, oxygen, oxidation, amount));
  }

  /** HydrogenSalt.__init__ (nazvoslovi.py:546-577) */
  method InitHydrogenSalt(sign: string, name: Option<bool>, t: Tables) returns (r: Result<HydrogenSalt>)
    ensures r == HydrogenSaltOf(sign, name, t)
  {
    var isName :- ReadAsName(sign, name);
    var element: Element, acid: HydrogenAcid;
    if isName {
      var words :- Unpack2(Words(sign));
      acid :- InitHydrogenAcid(words.0, Some(true), 1, 0, t);
      element :- InitElement(words.1, Some(true), ElementKey, None, None, t);
      var amounts := CrossRule(element.oxidation.value, acid.oxidation);
      element := element.(amount := amounts.0);
      acid := acid.(amount := amounts.1);
    } else {
      var parts :- Unpack2(SplitFirst(sign));
      var acidSign, acidAmount := parts.1, 1;
      if Contains(acidSign, "(") {
        var pieces :- Unpack2(SplitOn(if acidSign == [] then [] else acidSign[1..], ")"));
        acidSign := pieces.0;
        acidAmount :- ParseInt(pieces.1);
      }
      element :- InitElement(parts.0, None, ElementKey, None, None, t);
      if element.amount == 0 && acidAmount == 0 {
        return Err(ZeroDivisionError);
      }
      var oxidations := CrossRule(element.amount, acidAmount);
      element := element.(oxidation := Some(oxidations.0));
      acid :- InitHydrogenAcid(acidSign, Some(false), acidAmount, oxidations.1, t);
    }
    r := Ok(HydrogenSalt(element, acid));
  }

  /** SaltHydrate.__init__ (nazvoslovi.py:592-614) */
  method InitSaltHydrate(sign: string, name: Option<bool>, t: Tables) returns (r: Result<SaltHydrate>)
    ensures r == SaltHydrateOf(sign, name, t)
  {
    var isName :- ReadAsName(sign, name);
    if isName {
      var words :- Unpack3(Words(sign));
      var hydrate :- IndexOf(t.amounts, DropLast(words.0, 6));
      var salt :- InitSalt(DropLast(words.1, 1) + " " + DropLast(words.2, 3) + "ý", Some(true), t);
      r := Ok(SaltHydrate(salt, hydrate));
    } else {
      var parts :- Unpack2(SplitOn(sign, "."));
      var salt :- InitSalt(Strip(parts.0), Some(false), t);
      var hydrate :- ParseInt(DropLast(ReplaceAll(parts.1, " ", ""), 3));
      r := Ok(SaltHydrate(salt, hydrate));
    }
  }
}
