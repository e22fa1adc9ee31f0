/** recognize (nazvoslovi.py:648-663): the compound kinds are tried in the
    order of COMPOUNDS; for each kind the name pattern is tried on the input as
    typed, then the formula pattern on the spaced formula. The first pattern
    that matches decides the kind, and the compound is built from that text.
    A NazvosloviException raised while building it is returned as the result;
    any other exception escapes. */
module Recognizer {
  import opened Failures
  import opened Tables
  import opened Shapes
  import opened Compounds
  import opened Construction

  /** The classes listed in COMPOUNDS (nazvoslovi.py:625). */
  datatype Kind = OxidKind | SulfidKind | AcidKind | SaltKind | HydrogenSaltKind | SaltHydrateKind

  /** COMPOUNDS, in the order `recognize` tries them. */
  const Kinds: seq<Kind> := [OxidKind, SulfidKind, AcidKind, SaltKind, HydrogenSaltKind, SaltHydrateKind]

  /** A compound of one of the recognized kinds. */
  datatype Compound =
    | OxidCompound(oxid: Binary)
    | SulfidCompound(sulfid: Binary)
    | AcidCompound(acid: Acid)
    | SaltCompound(salt: Salt)
    | HydrogenSaltCompound(hydrogenSalt: HydrogenSalt)
    | SaltHydrateCompound(saltHydrate: SaltHydrate)

  /** What `recognize` returns when it returns at all: a compound with the
      class it is an instance of, the NazvosloviException its construction
      raised, or None. */
  datatype Recognition = Recognized(kind: Kind, compound: Compound) | Failed(error: Exception) | NotRecognized

  /** `compound.re_name.match(name)` */
  predicate NameMatches(k: Kind, s: string)
  {
    match k
    case OxidKind => BinaryName(s, "oxid")
    case SulfidKind => BinaryName(s, "sulfid")
    case AcidKind => AcidName(s)
    case SaltKind => SaltName(s)
    case HydrogenSaltKind => HydrogenSaltName(s)
    case SaltHydrateKind => SaltHydrateName(s)
  }

  /** `compound.re_sign.match(sign)` */
  predicate FormulaMatches(k: Kind, s: string)
  {
    match k
    case OxidKind => BinaryFormula(s, 'O')
    case SulfidKind => BinaryFormula(s, 'S')
    case AcidKind => AcidFormula(s)
    case SaltKind => SaltFormula(s)
    case HydrogenSaltKind => HydrogenSaltFormula(s)
    case SaltHydrateKind => SaltHydrateFormula(s)
  }

  /** `compound(sign, asName)`: the constructor of kind `k`, told whether
      `sign` is a name. */
  function Build(k: Kind, sign: string, asName: bool, t: Tables): Result<Compound>
  {
    match k
    case OxidKind =>
      var b :- BinaryOf(Oxid, sign, Some(asName), t); Ok(OxidCompound(b))
    case SulfidKind =>
      var b :- BinaryOf(Sulfid, sign, Some(asName), t); Ok(SulfidCompound(b))
    case AcidKind =>
      var a :- AcidOf(sign, Some(asName), t); Ok(AcidCompound(a))
    case SaltKind =>
      var s :- SaltOf(sign, Some(asName), t); Ok(SaltCompound(s))
    case HydrogenSaltKind =>
      var h :- HydrogenSaltOf(sign, Some(asName), t); Ok(HydrogenSaltCompound(h))
    case SaltHydrateKind =>
      var h :- SaltHydrateOf(sign, Some(asName), t); Ok(SaltHydrateCompound(h))
  }

  /** The `try ... except NazvosloviException` around a construction: the
      program's own exceptions become the returned value, built-in ones escape. */
  function Caught(k: Kind, r: Result<Compound>): (o: Result<Recognition>)
    ensures r.Ok? <==> o.Ok? && o.value.Recognized?
    ensures r.Ok? ==> o.value.kind == k && o.value.compound == r.value
    ensures r.Err? && IsNazvosloviException(r.error) ==> o == Ok(Failed(r.error))
    ensures r.Err? && !IsNazvosloviException(r.error) ==> o == Err(r.error)
  {
    match r
    case Ok(c) => Ok(Recognized(k, c))
    case Err(e) => if IsNazvosloviException(e) then Ok(Failed(e)) else Err(e)
  }

  /** The loop of `recognize` over `kinds`, with `name` the input and `sign`
      the spaced formula. */
  function RecognizeFrom(name: string, sign: string, kinds: seq<Kind>, t: Tables): (r: Result<Recognition>)
    ensures r.Ok? && r.value.Failed? ==> IsNazvosloviException(r.value.error)
    ensures r.Err? ==> !IsNazvosloviException(r.error)
    ensures r.Ok? && r.value.Recognized? ==> r.value.kind in kinds
    decreases |kinds|
  {
    if kinds == [] then Ok(NotRecognized)
    else if NameMatches(kinds[0], name) then Caught(kinds[0], Build(kinds[0], name, true, t))
    else if FormulaMatches(kinds[0], sign) then Caught(kinds[0], Build(kinds[0], sign, false, t))
    else RecognizeFrom(name, sign, kinds[1..], t)
  }

  /** recognize(s): names are matched as typed, formulas after
      `fix_compound_sign(s.translate(NOR))`. */
  function Recognize(s: string, t: Tables): (r: Result<Recognition>)
  {
    RecognizeFrom(s, Fix(Nor(s)), Kinds, t)
  }

  /** Whether a pattern of kind `k` matches the input or its spaced formula. */
  predicate Matches(k: Kind, name: string, sign: string)
  {
    NameMatches(k, name) || FormulaMatches(k, sign)
  }

  /** `recognize` as written: a loop over COMPOUNDS that returns from inside
      the loop at the first match. */
  method RecognizeCompound(s: string, t: Tables) returns (r: Result<Recognition>)
    ensures r == Recognize(s, t)
  {
    var name := s;
    var sign := FixCompoundSign(Nor(s));
    var i := 0;
    while i < |Kinds|
      invariant 0 <= i <= |Kinds|
      invariant RecognizeFrom(name, sign, Kinds, t) == RecognizeFrom(name, sign, Kinds[i..], t)
    {
      var k := Kinds[i];
      if NameMatches(k, name) {
        var built := Construct(k, name, true, t);
        return Caught(k, built);
      } else if FormulaMatches(k, sign) {
        var built := Construct(k, sign, false, t);
        return Caught(k, built);
      }
      assert Kinds[i..][1..] == Kinds[i + 1..];
      i := i + 1;
    }
    r := Ok(NotRecognized);
  }

  /** `compound(sign, asName)` through the constructors' own statements. */
  method Construct(k: Kind, sign: string, asName: bool, t: Tables) returns (r: Result<Compound>)
    ensures r == Build(k, sign, asName, t)
  {
    match k {
      case OxidKind =>
        var b :- InitBinary(Oxid, sign, Some(asName), t);
        r := Ok(OxidCompound(b));
      case SulfidKind =>
        var b :- InitBinary(Sulfid, sign, Some(asName), t);
        r := Ok(SulfidCompound(b));
      case AcidKind =>
        var a :- InitAcid(sign, Some(asName), t);
        r := Ok(AcidCompound(a));
      case SaltKind =>
        var c :- InitSalt(sign, Some(asName), t);
        r := Ok(SaltCompound(c));
      case HydrogenSaltKind =>
        var h :- InitHydrogenSalt(sign, Some(asName), t);
        r := Ok(HydrogenSaltCompound(h));
      case SaltHydrateKind =>
        var h :- InitSaltHydrate(sign, Some(asName), t);
        r := Ok(SaltHydrateCompound(h));
    }
  }

  // ---------------------------------------------------------------------------
  // Properties of the search order

  /** Kinds before the first match are skipped without effect. */
  lemma {:induction false} SkipUnmatched(name: string, sign: string, kinds: seq<Kind>, i: nat, t: Tables)
    requires i <= |kinds|
    requires forall j :: 0 <= j < i ==> !Matches(kinds[j], name, sign)
    ensures RecognizeFrom(name, sign, kinds, t) == RecognizeFrom(name, sign, kinds[i..], t)
    decreases i
  {
    if i > 0 {
      assert !Matches(kinds[0], name, sign);
      SkipUnmatched(name, sign, kinds[1..], i - 1, t);
      assert kinds[1..][i - 1..] == kinds[i..];
    }
  }

  /** The first kind whose name pattern matches the input, or whose formula
      pattern matches the spaced formula, decides the result: a name is tried
      before the same kind's formula, and nothing after the deciding kind is
      tried, even when its construction fails. */
  lemma FirstMatchDecides(s: string, t: Tables, i: nat)
    requires i < |Kinds|
    requires forall j :: 0 <= j < i ==> !Matches(Kinds[j], s, Fix(s))
    ensures NameMatches(Kinds[i], s) ==> Recognize(s, t) == Caught(Kinds[i], Build(Kinds[i], s, true, t))
    ensures !NameMatches(Kinds[i], s) && FormulaMatches(Kinds[i], Fix(s))
            ==> Recognize(s, t) == Caught(Kinds[i], Build(Kinds[i], Fix(s), false, t))
  {
    FixOfNor(s);
    SkipUnmatched(s, Fix(s), Kinds, i, t);
  }

  /** None is returned exactly when no pattern of any kind matches. */
  lemma {:induction false} NotRecognizedIff(name: string, sign: string, kinds: seq<Kind>, t: Tables)
    ensures RecognizeFrom(name, sign, kinds, t) == Ok(NotRecognized)
            <==> forall j :: 0 <= j < |kinds| ==> !Matches(kinds[j], name, sign)
    decreases |kinds|
  {
    if kinds != [] {
      NotRecognizedIff(name, sign, kinds[1..], t);
      assert forall j :: 1 <= j < |kinds| ==> kinds[j] == kinds[1..][j - 1];
    }
  }

  /** A recognized compound was built by the constructor of a kind whose
      pattern matched, from the input when the name pattern matched and from
      the spaced formula otherwise. */
  lemma {:induction false} RecognizedWasBuilt(name: string, sign: string, kinds: seq<Kind>, t: Tables)
    requires RecognizeFrom(name, sign, kinds, t).Ok? && RecognizeFrom(name, sign, kinds, t).value.Recognized?
    ensures var k, c := RecognizeFrom(name, sign, kinds, t).value.kind, RecognizeFrom(name, sign, kinds, t).value.compound;
            || (NameMatches(k, name) && Build(k, name, true, t) == Ok(c))
            || (FormulaMatches(k, sign) && Build(k, sign, false, t) == Ok(c))
    decreases |kinds|
  {
    if kinds != [] && !Matches(kinds[0], name, sign) {
      RecognizedWasBuilt(name, sign, kinds[1..], t);
    }
  }

  /** When no name pattern matches, only the spaced formula matters. */
  lemma {:induction false} NamesUnmatched(name1: string, name2: string, sign: string, kinds: seq<Kind>, t: Tables)
    requires forall j :: 0 <= j < |kinds| ==> !NameMatches(kinds[j], name1) && !NameMatches(kinds[j], name2)
    ensures RecognizeFrom(name1, sign, kinds, t) == RecognizeFrom(name2, sign, kinds, t)
    decreases |kinds|
  {
    if kinds != [] {
      assert !NameMatches(kinds[0], name1) && !NameMatches(kinds[0], name2);
      NamesUnmatched(name1, name2, sign, kinds[1..], t);
    }
  }

  /** A formula may be typed with subscript digits or ASCII digits: when no
      name pattern matches either spelling, both are recognized alike. */
  lemma SubscriptsDoNotMatter(s: string, t: Tables)
    requires forall j :: 0 <= j < |Kinds| ==> !NameMatches(Kinds[j], s) && !NameMatches(Kinds[j], Sub(s))
    ensures Recognize(Sub(s), t) == Recognize(s, t)
  {
    FixOfNor(Sub(s));
    FixOfNor(s);
    NorOfSub(s);
    NamesUnmatched(Sub(s), s, Fix(s), Kinds, t);
  }
}
