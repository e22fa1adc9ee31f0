# Názvosloví: Czech names and formulas of inorganic compounds

`nazvoslovi.py` converts between the Czech name of an inorganic compound
("oxid uhličitý", "kyselina sírová", "síran měďnatý",
"hydrogenuhličitan sodný", "pentahydrát síranu měďnatého") and its formula
("CO₂", "H₂SO₄", "CuSO₄", "NaHCO₃", "CuSO₄ . 5H₂O"). Each compound kind
is a class with two constructor branches:

- the name branch looks the element up by its stem and reads its oxidation
  number off the suffix;
- the formula branch parses element symbols and amounts, then derives the
  oxidation numbers by charge balance (the cross rule).

`recognize` tries the kinds in a fixed order and builds the first one whose
name or formula pattern matches.

This project models that core in Dafny and proves what it promises. It has
one module per concern, in one file each:

| Module | What it models |
|---|---|
| `Failures` | the exceptions, with `Result` and `Option` |
| `PyStr` | the Python string and list primitives the code relies on (`split`, `find`, `replace`, `int`, `str`, `index`, negative indexing, `lower`, `title`) |
| `Balancing` | `gcd`, `factor`, `cross_rule` and floor division |
| `Tables` | the element table, the oxidation suffixes and the count words, with `_get_possible_naming`, `_load_oxidation` and `load_name` |
| `Shapes` | `SUB`/`NOR`, `RE_SIGN`/`RE_NAME` and `is_compound_name`, the per-kind patterns and `fix_compound_sign` |
| `Elements` | `parse_element_sign`, `subscript`, and `Element`'s constructor, `tosign` and `toname` |
| `Compounds` | each compound constructor as a function that returns the finished compound or the first exception raised |
| `Rendering` | `tosign` and `toname` of every compound |
| `Construction` | the constructors statement by statement, each proved equal to its function in `Compounds` |
| `Recognizer` | `COMPOUNDS` and `recognize`, as a function and as the loop with early returns |

The three JSON tables are a parameter (`Tables`) of every operation that
reads them.

Three behaviours of the code that a reader might expect otherwise:

- An unknown element symbol in a formula ("Xx2O") is looked up with
  `table[...]` (nazvoslovi.py:235), which raises KeyError. KeyError is not a
  NazvosloviException, so it escapes `recognize`. In the model it is an `Err`
  of `Recognize`, not a `Failed` recognition.
- `recognize` never calls `is_compound_name`: it only matches the kind
  patterns and passes the name/formula choice to the constructor. Text such
  as "xyz123abc" matches no pattern, so `recognize` returns None
  (`NotRecognized`).
- `NOR` translates only the subscript digits (nazvoslovi.py:17);
  superscript digits are kept as they are. The model does the same.

## Model

| member | source | states |
|---|---|---|
| PyStr.Lower | nazvoslovi.py:230 | str.lower keeps the length and lower-cases each character, leaving characters without case alone |
| PyStr.Words | nazvoslovi.py:283 | str.split() yields only non-empty pieces |
| PyStr.WordsOfTwo | nazvoslovi.py:283 | two space-free words joined by a space split back into exactly those two, so `a, b = s.split()` recovers them |
| PyStr.WordsOfThree | nazvoslovi.py:369 | three space-free words joined by spaces split back into exactly those three |
| PyStr.SplitFirst | nazvoslovi.py:456 | split(maxsplit=1) gives at most two parts, the first a non-empty word without whitespace |
| PyStr.Find | nazvoslovi.py:347 | the result is the first position where the pattern occurs, or None exactly when it occurs nowhere |
| PyStr.SplitOn | nazvoslovi.py:350 | split(sep) yields one part exactly when the separator does not occur |
| PyStr.ReplaceAll | nazvoslovi.py:83 | replace changes nothing when the target does not occur |
| PyStr.DropLast | nazvoslovi.py:605 | s[:-k] is the prefix of s that is k shorter, or empty |
| PyStr.ParseInt | nazvoslovi.py:100 | int() fails only with ValueError |
| PyStr.ParseIntDecimal | nazvoslovi.py:100 | int(str(n)) == n for every integer n |
| PyStr.IndexOf | nazvoslovi.py:352 | list.index returns the first position holding x, and raises ValueError exactly when x is absent |
| PyStr.IndexOfFirst | nazvoslovi.py:352 | a position holding x with no earlier x is the one list.index returns |
| PyStr.At | nazvoslovi.py:382 | list[i] succeeds exactly for -len <= i < len and raises IndexError otherwise |
| Balancing.PyFloorDiv | nazvoslovi.py:295 | `//` rounds toward minus infinity, for either sign of the divisor |
| Balancing.GcdDivides | nazvoslovi.py:123 | math.gcd divides both arguments |
| Balancing.GcdGreatest | nazvoslovi.py:123 | every common divisor divides math.gcd |
| Balancing.Factor | nazvoslovi.py:119-124 | the pair times gcd gives back the input, the ratio and both signs are kept, and the result is coprime |
| Balancing.FactorUnique | nazvoslovi.py:119-124 | factor returns the only coprime pair with the input's ratio and signs |
| Balancing.FactorOfCoprime | nazvoslovi.py:119-124 | a pair already in lowest terms is left unchanged |
| Balancing.CrossRule | nazvoslovi.py:126-141 | x*a + y*b == 0 (charge balance), a >= 0, a is 0 exactly when y is 0, b is 0 exactly when x is 0, and (a, b) is coprime |
| Balancing.CrossRuleSigns | nazvoslovi.py:136-141 | b has the opposite sign of x when y > 0 and the same sign when y < 0; y == 0 gives (0, -sign x) |
| Balancing.CrossRuleTwice | nazvoslovi.py:126-141 | applied to its own result, cross_rule gives back the reduced input or its negation |
| Balancing.FloorCharge | nazvoslovi.py:295-296 | in the oxide formula branch, the floor division leaves a total charge in (-alt amount, 0] after factoring |
| Tables.Lookup | nazvoslovi.py:235 | table[key] succeeds exactly when the key is present, returns that key's entry, and raises KeyError otherwise |
| Tables.PossibleNaming | nazvoslovi.py:51-62 | no stem gives no candidates; otherwise the stem and its "hel"→"hl" form, at most two |
| Tables.PossibleNamingPrefixUnique | nazvoslovi.py:80-82 | at most one candidate stem starts a given name, so set iteration order cannot change the result |
| Tables.MatchingNaming | nazvoslovi.py:81-82 | the non-empty candidate stem that starts the name, and None exactly when there is none |
| Tables.LoadOxidationOf | nazvoslovi.py:64-74 | a listed suffix gives its first position, an unlisted suffix containing "ečn" gives 5, and any other suffix raises WrongOxidation |
| Tables.LoadOxidation | nazvoslovi.py:64-74 | the loop over the suffix list computes the same result as the specification |
| Tables.LoadOxidationOfSuffix | nazvoslovi.py:69-71 | in a list without repeats, each suffix reads back as its own position |
| Tables.FindEntry | nazvoslovi.py:80-82 | the first table entry, in table order, one of whose stems starts the name |
| Tables.FindEntryAt | nazvoslovi.py:80-82 | an entry whose stem matches, with no earlier entry matching, is the one found |
| Tables.LoadNameOf | nazvoslovi.py:76-90 | success returns a table entry whose matched stem starts the name; the only errors are UnknownElement and WrongOxidation |
| Tables.PickNaming | nazvoslovi.py:81-82 | the inner loop of load_name picks the matching stem of one entry |
| Tables.LoadName | nazvoslovi.py:76-90 | the nested loops of load_name compute the same result as the specification |
| Tables.LoadNameOfRendered | nazvoslovi.py:76-90 | a stem followed by one of its suffixes reads back as that element and oxidation number, when no earlier entry claims the name |
| Elements.ParseElementSign | nazvoslovi.py:92-102 | the symbol is one letter before a digit, else two letters; the amount is the rest read by int(), or 1 when nothing is left; an empty token raises IndexError and bad digits raise ValueError |
| Elements.ParseElementSignOfToken | nazvoslovi.py:92-102 | a symbol followed by str(n) parses back to (symbol, n), and a bare symbol to (symbol, 1) |
| Elements.ReadAsName | nazvoslovi.py:225-226 | the caller's choice of name or formula when given, otherwise is_compound_name |
| Elements.NewElement | nazvoslovi.py:216-242 | given amount and oxidation override the parsed ones; a name always gets an oxidation and amount 1; a formula leaves the oxidation unknown; name errors are UnknownElement/WrongOxidation, formula errors IndexError/ValueError/KeyError, and an unreadable sign IncorrectFormat |
| Elements.NamedElement | nazvoslovi.py:228-230 | the name branch gives amount 1 and a known oxidation, or UnknownElement/WrongOxidation |
| Elements.FormulaElement | nazvoslovi.py:231-236 | the formula branch gives an unknown oxidation, or IndexError/ValueError/KeyError |
| Elements.OneLetterElement | nazvoslovi.py:364 | a one-capital sign such as "H" can fail only with KeyError |
| Elements.GetOxidation | nazvoslovi.py:244-246 | the charge is zero exactly when the amount or the oxidation is zero; with a positive amount it is positive exactly when the oxidation is |
| Elements.Subscript | nazvoslovi.py:104-117 | subscript digits of the amount, after the Roman mark of a non-negative oxidation or "⁻" and the mark of a negative one; IndexError exactly when the oxidation is outside -7..7 |
| Elements.SubscriptReadsBack | nazvoslovi.py:110 | the subscript digits read back through NOR and int() as the amount |
| Elements.SubscriptInjective | nazvoslovi.py:111-115 | different oxidation numbers render differently |
| Elements.MarksDistinct | nazvoslovi.py:16 | no two OXIDATION marks are equal |
| Elements.MinusMarksNegative | nazvoslovi.py:114-115 | a rendered oxidation starts with "⁻" exactly when it is negative |
| Elements.ElementToSign | nazvoslovi.py:251-252 | the symbol followed by the subscript of the amount (none for 1) and, when shown, of the known oxidation; it fails exactly when a shown oxidation is outside -7..7 |
| Elements.ElementSignReadsBack | nazvoslovi.py:251-252 | the sign, NOR-translated, parses back to the symbol and amount |
| Elements.ElementToName | nazvoslovi.py:254-259 | a positive oxidation gives the stem plus the suffix of that oxidation; otherwise the element's own name; IndexError or TypeError when the suffix or stem is missing |
| Elements.ElementNameReadsBack | nazvoslovi.py:228-230 | the rendered name of an element builds back the same element with amount 1, when no earlier entry claims the name |
| Elements.FormulaAmount | nazvoslovi.py:231-236 | a token states an amount exactly when it is read as a formula and its sign parses |
| Elements.FormulaTokenElement | nazvoslovi.py:216-242 | a token read as a formula gives the table entry of its title-cased symbol with the parsed amount unless one is given, failing exactly when the sign does not parse or the symbol is unknown |
| Elements.ElementTokenShape | nazvoslovi.py:251-252 | the sign of a known symbol with an amount below 100 is the symbol and the amount's digits, reads as a formula and parses back to the symbol and amount |
| Elements.SymbolTokenShape | nazvoslovi.py:92-102 | a symbol with at most two digits needs no space inside, starts with a capital, and reads as a formula |
| Shapes.NorChar | nazvoslovi.py:17 | a subscript digit becomes its ASCII digit and every other character is kept |
| Shapes.Nor | nazvoslovi.py:17 | translate(NOR) keeps the length, maps each character, and leaves no subscript digits |
| Shapes.SubChar | nazvoslovi.py:14 | an ASCII digit becomes its subscript digit and every other character is kept |
| Shapes.Sub | nazvoslovi.py:14 | translate(SUB) keeps the length and maps each character |
| Shapes.NorOfSub | nazvoslovi.py:14-17 | NOR undoes SUB |
| Shapes.NorOfUnsubscripted | nazvoslovi.py:17 | NOR leaves text without subscript digits unchanged, so it is idempotent |
| Shapes.IsCompoundName | nazvoslovi.py:36-49 | False exactly when RE_SIGN matches, True exactly when it does not and the text has no digit, IncorrectFormat otherwise |
| Shapes.LowerTextIsName | nazvoslovi.py:36-49 | digit-free text that starts with a small letter is a name |
| Shapes.ElementTokenIsFormula | nazvoslovi.py:42-43 | an element symbol with at most two digits is a formula |
| Shapes.SymbolTokenIsFormula | nazvoslovi.py:36-49 | an element symbol followed by at most two ASCII digits is a formula |
| Shapes.CapitalIsFormula | nazvoslovi.py:42-43 | a capital letter on its own is a formula |
| Shapes.Marks | nazvoslovi.py:641 | a space goes before a character exactly when the character and the one before it meet the boundary test, and never before the first |
| Shapes.FixCompoundSign | nazvoslovi.py:634-645 | the character loop computes the specification of fix_compound_sign |
| Shapes.UnmergeMerge | nazvoslovi.py:640-645 | deleting the inserted spaces gives back the input |
| Shapes.FixOnlyInsertsSpaces | nazvoslovi.py:634-645 | fix_compound_sign only inserts spaces into the NOR-translated input, and only at the marked positions |
| Shapes.MergeIsSettled | nazvoslovi.py:640-645 | the output has no neighbouring pair that would get another space |
| Shapes.MergeOfSettled | nazvoslovi.py:640-645 | text with no such pair is left unchanged |
| Shapes.FixIdempotent | nazvoslovi.py:634-645 | applying fix_compound_sign twice equals applying it once |
| Shapes.FixOfNor | nazvoslovi.py:653 | the NOR translation recognize applies first changes nothing |
| Shapes.NorJoin | nazvoslovi.py:17 | translate(NOR) of joined text is the joined translations |
| Shapes.FixJoin | nazvoslovi.py:634-645 | two pieces that need no space inside and meet at a boundary come out with exactly one space at the join |
| Compounds.Unpack2 | nazvoslovi.py:283 | `a, b = parts` succeeds exactly with two parts, and raises ValueError otherwise |
| Compounds.Unpack3 | nazvoslovi.py:369 | `a, b, c = parts` succeeds exactly with three parts, and raises ValueError otherwise |
| Compounds.BinaryFromName | nazvoslovi.py:281-288 | the main element keeps oxidation -2, the charges cancel, the amounts are coprime with a non-negative main amount, and neither ZeroDivisionError nor IncorrectFormat can arise |
| Compounds.BinaryFromFormula | nazvoslovi.py:289-296 | the main element keeps oxidation -2, the amounts are coprime, the total charge is in (-alt amount, 0], and ZeroDivisionError arises exactly when the other element's amount is 0; the formula has two tokens, the amounts are the reduced pair of the amounts the tokens state, and the other element's oxidation is the floor quotient of twice the main amount by its own |
| Compounds.BinaryNameOfAlt | nazvoslovi.py:281-288 | the name branch depends on the name only through the element its second word names |
| Compounds.BinaryNameAlt | nazvoslovi.py:283-286 | a name that builds has two words, and its second word builds the other element with amount 1 |
| Compounds.BinaryFormulaOfTokens | nazvoslovi.py:289-296 | a formula of two known tokens builds the reduced compound of the two elements |
| Compounds.Reduced | nazvoslovi.py:295-296 | the floor-divided oxidation and the factored amounts keep the kind and the main oxidation |
| Compounds.ReducedFacts | nazvoslovi.py:295-296 | the factored amounts are coprime, the sign of the alt amount is kept, and the leftover charge is in (-alt amount, 0] |
| Compounds.BinaryOf | nazvoslovi.py:278-296 | an unreadable sign raises IncorrectFormat; otherwise the name or formula branch decides |
| Compounds.AcidCompleted | nazvoslovi.py:363-366 | h hydrogens at +1, the same element, and oxygen at -2 half of the hydrogen and element charges |
| Compounds.AcidWithOxygen | nazvoslovi.py:364-366 | oxygen at -2 is half of the hydrogen and element charges; only KeyError can arise |
| Compounds.LeftoverCharge | nazvoslovi.py:366 | with that oxygen the acid's charge is the parity of hydrogen plus element charge |
| Compounds.AcidParts | nazvoslovi.py:347-361 | with "hydrogen" the count is a position in the count words; without, 2 hydrogens for an even element charge and 0 for an odd one |
| Compounds.HydrogenWordParts | nazvoslovi.py:350-354 | the count is the position of the word before "hydrogen" among the count words |
| Compounds.AcidFromName | nazvoslovi.py:345-366 | hydrogen +1, oxygen -2, total charge 0 or 1, and without a count word the charge is 0 exactly when the element charge is even |
| Compounds.NameAcidCharge | nazvoslovi.py:361-366 | an acid built from a name has charge 0 or 1, and 0 exactly when the element charge is even under the default count |
| Compounds.AcidFromFormula | nazvoslovi.py:367-374 | the element's oxidation cancels hydrogen and oxygen, so a single central atom gives a neutral acid; the formula has three tokens and each part keeps the amount its token states |
| Compounds.AcidOf | nazvoslovi.py:342-374 | an unreadable sign raises IncorrectFormat; otherwise the name or formula branch decides |
| Compounds.SaltAcidFromName | nazvoslovi.py:404-410 | anion charge -2 for an even element charge and -1 for an odd one; element and oxygen charges add up to it exactly |
| Compounds.SaltAcidParity | nazvoslovi.py:408-410 | the chosen anion charge leaves an even remainder for the oxygen, so `//2` is exact |
| Compounds.OxygenCompleting | nazvoslovi.py:410 | oxygen at -2 that brings the element's charge to the anion's charge |
| Compounds.SaltAcidFromFormula | nazvoslovi.py:412-421 | keeps the given amount and charge; the element's oxidation balances the oxygen to that charge; the text has two tokens and each part keeps the amount its token states |
| Compounds.SaltAcidOf | nazvoslovi.py:401-421 | an unreadable sign raises IncorrectFormat; otherwise the name or formula branch decides |
| Compounds.SaltFromName | nazvoslovi.py:446-453 | the cation charge cancels the anion charges, the amounts are coprime with a positive cation amount, and the anion charge is -1 or -2 |
| Compounds.AcidWithAmount | nazvoslovi.py:458-462 | without "(" the anion is counted once; a bad count raises ValueError |
| Compounds.SaltFromFormula | nazvoslovi.py:454-467 | the cation's oxidation is non-negative, the charges balance, and the cation and anion charges are coprime; the anion is what its bracketed text reads as, with the count after the bracket |
| Compounds.SaltOfParts | nazvoslovi.py:464-467 | the anion read from the bracketed text keeps the count after the bracket, the cation is unchanged except for its oxidation, the oxidations are the cross rule of the amounts, and two zero amounts raise ZeroDivisionError |
| Compounds.SaltFormulaParts | nazvoslovi.py:454-467 | a salt built from a formula has two parts; the anion is the bracketed text read with the count after it, the cation keeps the amount its token states, and the oxidations are the cross rule of the amounts |
| Compounds.SaltOf | nazvoslovi.py:443-467 | an unreadable sign raises IncorrectFormat; otherwise the name or formula branch decides |
| Compounds.PaddedHydrogen | nazvoslovi.py:506-511 | the padded count is positive, exceeds the kept count, has the element charge's parity, and is 1, 2, or at most kept + 2 |
| Compounds.KeptHydrogen | nazvoslovi.py:499-502 | no prefix keeps 1 hydrogen; a prefix keeps its position among the count words, or raises ValueError |
| Compounds.HydrogenAcidFromName | nazvoslovi.py:495-518 | hydrogen +1, oxygen -2, amount 1, and a negative anion charge equal to kept minus padded hydrogens, which the parts' charges add up to |
| Compounds.HydrogenAcidCompleted | nazvoslovi.py:506-518 | with the kept count and the element given, the same charge facts, and only KeyError can arise |
| Compounds.KeptAcid | nazvoslovi.py:513-518 | after the hydrogens are taken out, the parts' charges add up to the anion charge kept minus padded |
| Compounds.KeptCharge | nazvoslovi.py:513-518 | once the full acid balances, taking all but the kept hydrogens leaves exactly their deficit as charge |
| Compounds.HydrogenAcidFromFormula | nazvoslovi.py:520-531 | keeps the given amount and charge; the element's oxidation balances hydrogen and oxygen to that charge; the text has three tokens and each part keeps the amount its token states |
| Compounds.HydrogenAcidOf | nazvoslovi.py:492-531 | an unreadable sign raises IncorrectFormat; otherwise the name or formula branch decides |
| Compounds.HydrogenSaltFromName | nazvoslovi.py:555-562 | the cation charge cancels the anion charges, the amounts are coprime with a positive cation amount, and the anion is negative |
| Compounds.HydrogenSaltFromFormula | nazvoslovi.py:563-577 | the cation's oxidation is non-negative, the charges balance, and the cation and anion charges are coprime; within the anion, hydrogen +1, the element's oxidation and oxygen -2 add up to the anion's charge |
| Compounds.HydrogenSaltOfParts | nazvoslovi.py:573-577 | the anion read from the bracketed text keeps the count after the bracket, the cation is unchanged except for its oxidation, the oxidations are the cross rule of the amounts, and two zero amounts raise ZeroDivisionError |
| Compounds.HydrogenSaltFormulaParts | nazvoslovi.py:563-577 | a hydrogen salt built from a formula has two parts; the anion is the bracketed text read with the count after it, the cation keeps the amount its token states, and the oxidations are the cross rule of the amounts |
| Compounds.HydrogenSaltOf | nazvoslovi.py:552-577 | an unreadable sign raises IncorrectFormat; otherwise the name or formula branch decides |
| Compounds.SaltHydrateFromName | nazvoslovi.py:601-608 | the name has three words; the water count is the first position of the first word without "hydrát" among the count words, and the salt is the one the other two words give back in the nominative |
| Compounds.SaltHydrateNameOfWords | nazvoslovi.py:601-608 | on three words the name branch builds the hydrate exactly when the count word is found and the salt builds from the other two words |
| Compounds.SaltHydrateFromFormula | nazvoslovi.py:609-614 | the salt's charges balance with a non-negative cation, and the water count is int() of the text after the dot without spaces and "H2O" |
| Compounds.SaltHydrateOf | nazvoslovi.py:598-614 | an unreadable sign raises IncorrectFormat; otherwise the name or formula branch decides |
| Rendering.Wrapped | nazvoslovi.py:172-178 | unbracketed for amount 1 without a shown charge; otherwise "(" + the inner sign + ")" followed by the subscript of the amount (none for 1) and of the shown charge; IndexError exactly when a bracketed sign shows a charge outside -7..7 |
| Rendering.WrappedReadsBack | nazvoslovi.py:458-460 | a bracketed anion with its subscript count reads back, after NOR, as the anion text and the count |
| Rendering.BinaryToSign | nazvoslovi.py:298-299 | the other element's sign followed by the main element's sign, failing exactly when one of the two parts fails |
| Rendering.BinaryToName | nazvoslovi.py:301-302 | "oxid" or "sulfid", a space and the other element's name, failing exactly when that name fails |
| Rendering.BinaryNameHasShape | nazvoslovi.py:301-302 | a rendered oxide or sulfide name matches the kind's name pattern |
| Rendering.BinaryNameReadsBack | nazvoslovi.py:279-302 | an oxide or sulfide read from its name comes back unchanged when its rendered name is read, when the other element's name reads back and has no space |
| Rendering.BinaryFormulaReadsBack | nazvoslovi.py:289-299 | an oxide or sulfide in lowest terms, with amounts below 100 and the other element's oxidation the floor quotient the formula branch computes, comes back unchanged from its spaced formula |
| Rendering.AcidToSign | nazvoslovi.py:376-377 | the hydrogen's, the element's and the oxygen's signs joined, failing exactly when one of them fails, which needs a shown oxidation |
| Rendering.AcidToNameAsWritten | nazvoslovi.py:379-383 | "kyselina ", and for more than two hydrogens the count word, "hydrogen" and a space, before the element's acid name; otherwise "kyselina " and the acid name alone; fails exactly when the acid name fails or the count word is missing |
| Rendering.AcidToName | nazvoslovi.py:379-383 | the same name with the count word, "hydrogen" and the element's name written as one word, and "kyselina " and the acid name alone otherwise; it differs from the code only there |
| Rendering.AsWrittenAcidNameRejected | nazvoslovi.py:347-350 | the name as written has three words, and the name branch of Acid raises ValueError on it |
| Rendering.AcidNameReadsBack | nazvoslovi.py:345-354 | for more than two hydrogens (the only case where the count word is written), with no earlier count word equal to the acid's, a space-free count word and element name, and "hydrogen" neither in the element's name nor across the count word's end, the corrected name reads back through the name branch as the same hydrogen count and the element the acid name builds, failing exactly when that element does not build |
| Rendering.AcidElementReadsBack | nazvoslovi.py:345-366 | under the same conditions (more than two hydrogens, no earlier equal count word, a space-free count word and element name, no "hydrogen" in the element's name) and when the element's acid name reads back as the element, the name gives back the acid's own hydrogen count and element with amount 1, and the name branch rebuilds the acid from them |
| Rendering.SaltAcidToName | nazvoslovi.py:426-427 | the anion's element named with the salt suffixes |
| Rendering.SaltToSign | nazvoslovi.py:469-470 | the cation's sign followed by the anion's, failing exactly when one of them fails |
| Rendering.SaltToName | nazvoslovi.py:472-473 | the anion's name, a space and the cation's name, failing exactly when one of the parts does |
| Rendering.SaltAcidToSign | nazvoslovi.py:423-424 | the element's and the oxygen's signs joined and passed to the bracketing rule with the anion's count and charge; a counted anion is bracketed and starts with its element's symbol |
| Rendering.HydrogenAcidToSign | nazvoslovi.py:533-534 | the hydrogen's, the element's and the oxygen's signs joined and passed to the bracketing rule with the anion's count and charge; a counted anion is bracketed and starts with the hydrogen's symbol |
| Rendering.HydrogenAcidToName | nazvoslovi.py:536-537 | one kept hydrogen gives "hydrogen" and the element's salt name; other counts give the count word, "hydrogen" and the salt name, and need the count to index the count words |
| Rendering.HydrogenSaltToSign | nazvoslovi.py:579-580 | the cation's sign followed by the anion's, failing exactly when one of them fails |
| Rendering.HydrogenSaltToName | nazvoslovi.py:582-583 | the anion's name, a space and the cation's name, failing exactly when one of the parts does |
| Rendering.SaltHydrateToSign | nazvoslovi.py:616-618 | the salt's sign, " . ", the water count and the water's formula, with or without its oxidation marks; fails exactly when the salt's sign does |
| Rendering.Water | nazvoslovi.py:617 | water is "H₂O", and "Hᶦ₂O⁻ᶦᶦ" with the oxidations shown |
| Rendering.SaltHydrateToName | nazvoslovi.py:620-622 | the count word with "hydrát ", the anion's name with "u", a space, and the cation's name without its last letter and with "ého"; fails exactly when the salt's name is not two words or the count does not index the count words |
| Rendering.HydrateCountReadsBack | nazvoslovi.py:605 | the count word written before "hydrát" is found again at its position when no earlier count word is the same |
| Rendering.SaltHydrateNameReadsBack | nazvoslovi.py:603-622 | a hydrate's rendered name builds back the same water count and the salt the salt's own name builds, exactly when that salt builds |
| Rendering.GenitiveReadsBack | nazvoslovi.py:608 | the genitive words of a hydrate's name turn back into the salt's name |
| Construction.InitElement | nazvoslovi.py:216-242 | Element.__init__ statement by statement builds the element NewElement specifies |
| Construction.InitBinary | nazvoslovi.py:272-296 | SingleElementCompound.__init__ builds the compound BinaryOf specifies |
| Construction.InitBinaryFromName | nazvoslovi.py:281-288 | the name branch, with the amounts overwritten by cross_rule, builds BinaryFromName |
| Construction.InitBinaryFromFormula | nazvoslovi.py:289-296 | the formula branch, with the oxidation and amounts overwritten, builds BinaryFromFormula |
| Construction.InitAcid | nazvoslovi.py:336-374 | Acid.__init__ builds the acid AcidOf specifies |
| Construction.InitAcidFromName | nazvoslovi.py:345-366 | the name branch builds AcidFromName |
| Construction.InitAcidFromFormula | nazvoslovi.py:367-374 | the formula branch builds AcidFromFormula |
| Construction.InitSaltAcid | nazvoslovi.py:393-421 | SaltAcid.__init__ builds the anion SaltAcidOf specifies |
| Construction.InitSaltAcidFromName | nazvoslovi.py:404-410 | the name branch builds SaltAcidFromName |
| Construction.InitSaltAcidFromFormula | nazvoslovi.py:412-421 | the formula branch builds SaltAcidFromFormula |
| Construction.InitSalt | nazvoslovi.py:437-467 | Salt.__init__ builds the salt SaltOf specifies |
| Construction.InitSaltFromName | nazvoslovi.py:446-453 | the name branch, with the amounts overwritten by cross_rule, builds SaltFromName |
| Construction.InitSaltFromFormula | nazvoslovi.py:454-467 | the formula branch, with the cation oxidation overwritten by cross_rule, builds SaltFromFormula |
| Construction.InitHydrogenAcid | nazvoslovi.py:484-531 | HydrogenAcid.__init__ builds the anion HydrogenAcidOf specifies |
| Construction.InitHydrogenAcidFromName | nazvoslovi.py:495-518 | the name branch builds HydrogenAcidFromName |
| Construction.InitHydrogenAcidCompleted | nazvoslovi.py:506-518 | the padding, oxygen and take-out steps build HydrogenAcidCompleted |
| Construction.InitKeptAcid | nazvoslovi.py:513-518 | creating oxygen and then overwriting the hydrogen amount builds KeptAcid |
| Construction.PadHydrogen | nazvoslovi.py:506-511 | the padding statements compute PaddedHydrogen |
| Construction.InitAcidWithOxygen | nazvoslovi.py:364-366 | creating the completing oxygen builds AcidWithOxygen |
| Construction.InitHydrogenAcidFromFormula | nazvoslovi.py:520-531 | the formula branch builds HydrogenAcidFromFormula |
| Construction.InitHydrogenSalt | nazvoslovi.py:546-577 | HydrogenSalt.__init__ builds the salt HydrogenSaltOf specifies |
| Construction.InitSaltHydrate | nazvoslovi.py:592-614 | SaltHydrate.__init__ builds the hydrate SaltHydrateOf specifies |
| Recognizer.Caught | nazvoslovi.py:654-661 | a built compound is recognized with its kind; a NazvosloviException becomes the returned value; any other exception escapes |
| Recognizer.RecognizeFrom | nazvoslovi.py:655-663 | a returned exception is always a NazvosloviException, an escaping one never is, and a recognized kind is one of those tried |
| Recognizer.RecognizeCompound | nazvoslovi.py:648-663 | the loop over COMPOUNDS with its early returns computes Recognize |
| Recognizer.Construct | nazvoslovi.py:656-659 | calling a kind's constructor builds what its specification gives |
| Recognizer.SkipUnmatched | nazvoslovi.py:655-659 | kinds before the first match are skipped without effect |
| Recognizer.FirstMatchDecides | nazvoslovi.py:625 | the first kind in COMPOUNDS order whose name pattern matches the input, or else whose formula pattern matches the spaced formula, decides the result, even when its construction fails |
| Recognizer.NotRecognizedIff | nazvoslovi.py:662-663 | None is returned exactly when no pattern of any kind matches |
| Recognizer.RecognizedWasBuilt | nazvoslovi.py:656-659 | a recognized compound was built by a matching kind, from the input for a name match and from the spaced formula otherwise |
| Recognizer.NamesUnmatched | nazvoslovi.py:656-659 | when no name pattern matches, only the spaced formula decides the result |
| Recognizer.SubscriptsDoNotMatter | nazvoslovi.py:652-653 | when no name pattern matches either spelling, a formula typed with subscript digits is recognized like the same formula with ASCII digits |

## Left out

- Loading `table.json`, `oxidation.json` and `amount.json` at import (nazvoslovi.py:28-33) is file I/O. The three tables are a parameter instead.
- The write-back `data['naming'] = naming` into the shared table (nazvoslovi.py:84) is not modelled as a table mutation. The matched stem is stored in the element's own copy of its entry, which is what `toname` reads.
- The `re` engine is not modelled. Each pattern is a hand-written greedy scanner with the same language. `\d` is taken as the ASCII digits, not every Unicode decimal digit. The same holds for `str.isdigit()` in parse_element_sign (nazvoslovi.py:98), which in Python also accepts superscript digits, and for `int()` (PyStr.ParseInt, nazvoslovi.py:100 and 614), which accepts every Unicode decimal digit; the hydrate formula branch reaches `int()` without passing through `\d`.
- The element table is a sequence of (key, entry) pairs assumed to have distinct keys, as the dict `json.load` builds does. With a repeated key, the model's lookup would take the first entry where the dict keeps the last, and the name search would visit the key twice.
- Case mapping (`lower`, `title`, `isupper`) covers ASCII and the Czech accented letters only.
- `pprint`, `pstring`, `__repr__`, `__str__` and the `name`/`sign`/`oxisign` properties (nazvoslovi.py:168-203, 626-672) are presentation only.
- main.py is console I/O. test.py is a print-only script.
- Compounds are values, not objects. Each constructor owns the elements it creates, so nothing is aliased, and an in-place update of a nested element (`self.main.amount, self.alt.amount = ...`) is a record update.
- `is_compound_name` with `doraise=False` is not modelled. No caller passes it.
- `SUP` (nazvoslovi.py:15) is not modelled. Nothing uses it.
- Rendering.BinaryFormulaReadsBack: covers compounds in lowest terms with amounts below 100 and the other element's oxidation already the floor quotient; that a compound built from a formula meets these conditions is not proved.
- Rendering.SaltHydrateNameReadsBack: gives back the salt that the salt's own name builds, not the original salt; the salt's own name round trip is not proved.
- Formula round trips are proved only for oxides and sulfides (Rendering.BinaryFormulaReadsBack); none is proved for acids (Rendering.AcidToSign), salts, hydrogen salts or hydrates.
- Name round trips are not proved for hydrogen acids and hydrogen salts.
- Rendering.AcidNameReadsBack: the acid name round trip is proved only for more than two hydrogens; for one or two hydrogens the name carries no count word and the name branch infers 2 or 0 from the element's parity (nazvoslovi.py:351-354), and no round trip is proved.
- PyStr.ParseInt: states only its error; int() itself is pinned down by PyStr.ParseIntDecimal on the strings str() writes.
- Tables.LoadNameOf: states the entry's stem and the error kinds. The oxidation read off the suffix is stated by Tables.LoadNameOfRendered and Tables.LoadOxidationOf.

## Findings

| source | as written | input that shows it | evidently intended | confidence | as-written member | corrected member |
|---|---|---|---|---|---|---|
| nazvoslovi.py:382 | Acid.toname writes `'hydrogen '` with a trailing space, so an acid with more than two hydrogens is named in three words | an acid with 3 hydrogens, named "kyselina trihydrogen fosforečná"; `Acid(name, True)` unpacks `acid, element = sign.split()` (nazvoslovi.py:349) and raises ValueError | either the count word, "hydrogen" and the element's name form one word ("kyselina trihydrogenfosforečná"), which the name branch splits at "hydrogen"; or, since Acid.re_name (nazvoslovi.py:334, `([a-z]{2,6}hydrogen )?`) accepts the spaced form and recognize therefore hands it to the constructor, where the ValueError escapes recognize, the constructor's `sign.split()` at nazvoslovi.py:349 should accept three words; the model takes the first | not executed | Rendering.AsWrittenAcidNameRejected | Rendering.AcidNameReadsBack |
