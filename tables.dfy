/** The three lookup tables, taken as immutable values, and the lookups made
    over them: _get_possible_naming, _load_oxidation and load_name
    (nazvoslovi.py:51-90). */
module Tables {
  import opened Failures
  import opened PyStr

  /** One entry of the element table: the symbol, the name of the free element
      and the naming stem that an oxidation suffix is appended to (absent for
      some elements). */
  datatype ElementData = ElementData(sign: string, name: string, naming: Option<string>)

  /** The three contexts of the oxidation suffixes: an element on its own, the
      central element of an acid, and that of a salt. */
  datatype TableKey = ElementKey | AcidKey | SaltKey

  /** table.json as its (key, entry) pairs in file order, oxidation.json as one
      suffix list per context, and amount.json, the multiplier words. The
      dict json.load builds has each key once; the pairs are taken to have
      distinct keys too, which is what makes the first match of a lookup the
      dict's entry. */
  datatype Tables = Tables(
    elements: seq<(string, ElementData)>,
    elementSuffixes: seq<string>,
    acidSuffixes: seq<string>,
    saltSuffixes: seq<string>,
    amounts: seq<string>)
  {
    /** oxidation_table[key] */
    function Suffixes(key: TableKey): seq<string>
    {
      match key
      case ElementKey => elementSuffixes
      case AcidKey => acidSuffixes
      case SaltKey => saltSuffixes
    }
  }

  // ---------------------------------------------------------------------------
  // table[key]

  /** The position of `key` among the table's keys. */
  function KeyIndex(elements: seq<(string, ElementData)>, key: string): (r: Option<nat>)
    ensures r.Some? ==> r.value < |elements| && elements[r.value].0 == key
    ensures r.None? ==> forall i :: 0 <= i < |elements| ==> elements[i].0 != key
  {
    if elements == [] then None
    else if elements[0].0 == key then Some(0)
    else
      match KeyIndex(elements[1..], key)
      case None => None
      case Some(i) => Some(i + 1)
  }

  /** table[key]: KeyError when the key is absent. */
  function Lookup(t: Tables, key: string): (r: Result<ElementData>)
    ensures r.Ok? <==> exists i :: 0 <= i < |t.elements| && t.elements[i].0 == key
    ensures r.Ok? ==> exists i :: 0 <= i < |t.elements| && t.elements[i] == (key, r.value)
    ensures r.Err? ==> r.error == KeyError
  {
    match KeyIndex(t.elements, key)
    case None => Err(KeyError)
    case Some(i) => Ok(t.elements[i].1)
  }

  // ---------------------------------------------------------------------------
  // _get_possible_naming (nazvoslovi.py:51-62)

  /** The stem and the stem with "hel" shortened to "hl" (uhel, uhl); nothing
      for an element without a stem. */
  function PossibleNaming(naming: Option<string>): (r: set<string>)
    ensures naming.None? ==> r == {}
    ensures naming.Some? ==> naming.value in r && 1 <= |r| <= 2
    ensures naming.Some? ==> forall m :: m in r ==> m == naming.value || m == ReplaceAll(naming.value, "hel", "hl")
  {
    match naming
    case None => {}
    case Some(n) => {n, ReplaceAll(n, "hel", "hl")}
  }

  /** At most one of the possible stems starts a given name, so the order in
      which the set is walked cannot change which stem load_name takes. */
  lemma PossibleNamingPrefixUnique(naming: Option<string>, name: string, a: string, b: string)
    requires a in PossibleNaming(naming) && b in PossibleNaming(naming)
    requires a <= name && b <= name
    ensures a == b
  {
    var n := naming.value;
    var h := ReplaceAll(n, "hel", "hl");
    match Find(n, "hel")
    case None =>
    case Some(i) =>
      assert h == n[..i] + "hl" + ReplaceAll(n[i + 3..], "hel", "hl");
      assert h[i + 1] == 'l' && n[i + 1] == 'e';
      if n <= name {
        assert name[i + 1] == 'e';
      }
  }

  /** The non-empty possible stem that starts `name`, if there is one. */
  function MatchingNaming(naming: Option<string>, name: string): (r: Option<string>)
    ensures r.Some? ==> r.value in PossibleNaming(naming) && r.value != [] && r.value <= name
    ensures r.Some? ==> forall m :: m in PossibleNaming(naming) && m != [] && m <= name ==> m == r.value
    ensures r.None? ==> forall m :: m in PossibleNaming(naming) ==> m == [] || !(m <= name)
  {
    match naming
    case None => None
    case Some(n) =>
      var h := ReplaceAll(n, "hel", "hl");
      var r := if n != [] && n <= name then Some(n) else if h != [] && h <= name then Some(h) else None;
      assert r.Some? ==> forall m :: m in PossibleNaming(naming) && m != [] && m <= name ==> m == r.value by {
        if r.Some? {
          forall m | m in PossibleNaming(naming) && m != [] && m <= name
            ensures m == r.value
          {
            PossibleNamingPrefixUnique(naming, name, m, r.value);
          }
        }
      }
      r
  }

  // ---------------------------------------------------------------------------
  // _load_oxidation (nazvoslovi.py:64-74)

  /** The oxidation number a suffix stands for in the context `key`: its first
      position in the suffix list; otherwise 5 when it contains "ečn";
      otherwise WrongOxidation. */
  function LoadOxidationOf(suffix: string, key: TableKey, t: Tables): (r: Result<int>)
    ensures r.Ok? && suffix in t.Suffixes(key) ==>
              0 <= r.value < |t.Suffixes(key)| && t.Suffixes(key)[r.value] == suffix
              && forall j :: 0 <= j < r.value ==> t.Suffixes(key)[j] != suffix
    ensures r.Ok? && suffix !in t.Suffixes(key) ==> r.value == 5 && Contains(suffix, "ečn")
    ensures r.Err? <==> suffix !in t.Suffixes(key) && !Contains(suffix, "ečn")
    ensures r.Err? ==> r.error == WrongOxidation
  {
    match IndexOf(t.Suffixes(key), suffix)
    case Ok(i) => Ok(i)
    case Err(_) => if Contains(suffix, "ečn") then Ok(5) else Err(WrongOxidation)
  }

  /** The loop of _load_oxidation. */
  method LoadOxidation(suffix: string, key: TableKey, t: Tables) returns (r: Result<int>)
    ensures r == LoadOxidationOf(suffix, key, t)
  {
    var list := t.Suffixes(key);
    var i := 0;
    while i < |list|
      invariant 0 <= i <= |list|
      invariant forall j :: 0 <= j < i ==> list[j] != suffix
    {
      if suffix == list[i] {
        return Ok(i);
      }
      i := i + 1;
    }
    if Contains(suffix, "ečn") {
      return Ok(5);
    }
    return Err(WrongOxidation);
  }

  /** Each suffix of a list without repeats reads back as its own position. */
  lemma LoadOxidationOfSuffix(key: TableKey, t: Tables, i: nat)
    requires i < |t.Suffixes(key)|
    requires forall j, k :: 0 <= j < k < |t.Suffixes(key)| ==> t.Suffixes(key)[j] != t.Suffixes(key)[k]
    ensures LoadOxidationOf(t.Suffixes(key)[i], key, t) == Ok(i)
  {
    var r := LoadOxidationOf(t.Suffixes(key)[i], key, t);
    assert t.Suffixes(key)[i] in t.Suffixes(key);
    assert r.Ok?;
  }

  // ---------------------------------------------------------------------------
  // load_name (nazvoslovi.py:76-90)

  /** The first table entry, from position `i` on, one of whose possible stems
      starts `name`, with that stem. */
  function FindEntry(elements: seq<(string, ElementData)>, name: string, i: nat): (r: Option<(nat, string)>)
    requires i <= |elements|
    ensures r.Some? ==> i <= r.value.0 < |elements|
                        && MatchingNaming(elements[r.value.0].1.naming, name) == Some(r.value.1)
                        && forall j :: i <= j < r.value.0 ==> MatchingNaming(elements[j].1.naming, name).None?
    ensures r.None? ==> forall j :: i <= j < |elements| ==> MatchingNaming(elements[j].1.naming, name).None?
    decreases |elements| - i
  {
    if i == |elements| then None
    else
      match MatchingNaming(elements[i].1.naming, name)
      case Some(stem) => Some((i, stem))
      case None => FindEntry(elements, name, i + 1)
  }

  /** load_name(name, key): the entry of the first element whose stem starts
      the name, with the stem it matched recorded as its naming, and the
      oxidation number of what is left once every occurrence of the stem is
      removed from the name. UnknownElement when no stem matches. */
  function LoadNameOf(name: string, key: TableKey, t: Tables): (r: Result<(ElementData, int)>)
    ensures r.Err? ==> r.error == UnknownElement || r.error == WrongOxidation
    ensures r.Ok? ==> r.value.0.naming.Some? && r.value.0.naming.value != [] && r.value.0.naming.value <= name
    ensures r.Ok? ==> exists k :: 0 <= k < |t.elements| && r.value.0 == t.elements[k].1.(naming := r.value.0.naming)
  {
    match FindEntry(t.elements, name, 0)
    case None => Err(UnknownElement)
    case Some((k, stem)) =>
      var ox :- LoadOxidationOf(ReplaceAll(name, stem, ""), key, t);
      Ok((t.elements[k].1.(naming := Some(stem)), ox))
  }

  /** The inner loop of load_name: walks the possible stems of one entry in
      whatever order the set yields them and stops at one that starts the
      name. */
  method PickNaming(naming: Option<string>, name: string) returns (r: Option<string>)
    ensures r == MatchingNaming(naming, name)
  {
    var all := PossibleNaming(naming);
    var remaining := all;
    while remaining != {}
      invariant remaining <= all
      invariant forall m :: m in all && m !in remaining ==> m == [] || !(m <= name)
      decreases |remaining|
    {
      var candidate :| candidate in remaining;
      if candidate != [] && candidate <= name {
        MatchingNamingIs(naming, name, candidate);
        return Some(candidate);
      }
      remaining := remaining - {candidate};
    }
    MatchingNamingNone(naming, name);
    return None;
  }

  lemma MatchingNamingIs(naming: Option<string>, name: string, m: string)
    requires m in PossibleNaming(naming) && m != [] && m <= name
    ensures MatchingNaming(naming, name) == Some(m)
  {
  }

  lemma MatchingNamingNone(naming: Option<string>, name: string)
    requires forall m :: m in PossibleNaming(naming) ==> m == [] || !(m <= name)
    ensures MatchingNaming(naming, name) == None
  {
  }

  /** The outer loop of load_name, over the table in order. */
  method LoadName(name: string, key: TableKey, t: Tables) returns (r: Result<(ElementData, int)>)
    ensures r == LoadNameOf(name, key, t)
  {
    var k := 0;
    while k < |t.elements|
      invariant 0 <= k <= |t.elements|
      invariant FindEntry(t.elements, name, 0) == FindEntry(t.elements, name, k)
    {
      var data := t.elements[k].1;
      var naming := PickNaming(data.naming, name);
      if naming.Some? {
        var ox := LoadOxidation(ReplaceAll(name, naming.value, ""), key, t);
        if ox.Err? {
          return Err(ox.error);
        }
        return Ok((data.(naming := naming), ox.value));
      }
      k := k + 1;
    }
    return Err(UnknownElement);
  }

  /** A stem followed by one of its context's suffixes reads back as that
      entry and that oxidation number, when no earlier entry claims the name
      and the stem does not occur again in the suffix. */
  lemma LoadNameOfRendered(t: Tables, key: TableKey, k: nat, ox: nat)
    requires k < |t.elements|
    requires t.elements[k].1.naming.Some? && t.elements[k].1.naming.value != []
    requires ox < |t.Suffixes(key)|
    requires forall j, l :: 0 <= j < l < |t.Suffixes(key)| ==> t.Suffixes(key)[j] != t.Suffixes(key)[l]
    requires !Contains(t.Suffixes(key)[ox], t.elements[k].1.naming.value)
    requires forall j :: 0 <= j < k ==>
               MatchingNaming(t.elements[j].1.naming, t.elements[k].1.naming.value + t.Suffixes(key)[ox]).None?
    ensures LoadNameOf(t.elements[k].1.naming.value + t.Suffixes(key)[ox], key, t) == Ok((t.elements[k].1, ox))
  {
    var n := t.elements[k].1.naming.value;
    var suffix := t.Suffixes(key)[ox];
    var name := n + suffix;
    assert n <= name;
    assert MatchingNaming(t.elements[k].1.naming, name) == Some(n);
    FindEntryAt(t.elements, name, 0, k);
    assert Find(name, n) == Some(0);
    assert name[|n|..] == suffix;
    assert ReplaceAll(name, n, "") == suffix;
    LoadOxidationOfSuffix(key, t, ox);
  }

  lemma {:induction false} FindEntryAt(elements: seq<(string, ElementData)>, name: string, i: nat, k: nat)
    requires i <= k < |elements|
    requires MatchingNaming(elements[k].1.naming, name).Some?
    requires forall j :: i <= j < k ==> MatchingNaming(elements[j].1.naming, name).None?
    ensures FindEntry(elements, name, i) == Some((k, MatchingNaming(elements[k].1.naming, name).value))
    decreases k - i
  {
    if i < k {
      FindEntryAt(elements, name, i + 1, k);
    }
  }
}
