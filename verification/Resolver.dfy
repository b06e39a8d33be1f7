/** `extractDistrictNumber` (api/lookup.js:22-62): the district number of a
    matched feature, read from its free-form attributes by an ordered
    precedence of keys, then from a district label in a name field. */
module Resolver {
  import opened Wrappers
  import opened JsText
  import opened JsNumber
  import opened JsValue
  import opened NamePattern

  /** A feature's `properties`. */
  type Attributes = map<string, Value>

  /** `props[k]`: a key that is not there reads as `undefined`. */
  function Get(a: Attributes, k: string): Value {
    if k in a then a[k] else Undefined
  }

  /** The TIGER state-legislative-district key: `SLDLST` for the chamber
      `"house"`, `SLDUST` for every other chamber string. */
  function ChamberKey(chamber: string): string {
    if chamber == "house" then "SLDLST" else "SLDUST"
  }

  /** The keys of the first pass, in priority order. */
  function Candidates(chamber: string): seq<string> {
    ["DIST_NBR", "DISTRICT", "district", "District", "OBJECTID",
     ChamberKey(chamber), "NAMELSAD", "NAME", "name", "REP_NM"]
  }

  /** The keys of the second pass, in priority order. */
  const NameFields: seq<string> := ["NAMELSAD", "NAME", "name"]

  /** What the first pass makes of key `k`: its coerced number, unless that
      is `null` or `k` is `OBJECTID`. */
  function DirectValue(a: Attributes, k: string): (r: Option<real>)
    ensures r.Some? ==> k != "OBJECTID" && InRange(r.value)
  {
    var n := ToNumberOrNull(Get(a, k));
    if n.Some? && k != "OBJECTID" then n else None
  }

  /** What the first pass makes of each of `keys`. */
  function DirectOffers(a: Attributes, keys: seq<string>): (offers: seq<Option<real>>)
    ensures |offers| == |keys|
    ensures forall i :: 0 <= i < |keys| ==> offers[i] == DirectValue(a, keys[i])
  {
    seq(|keys|, i requires 0 <= i < |keys| => DirectValue(a, keys[i]))
  }

  /** The first pass over `keys`. */
  function DirectPass(a: Attributes, keys: seq<string>): (r: Option<real>)
    ensures r.Some? ==> InRange(r.value)
  {
    FirstSome(DirectOffers(a, keys))
  }

  /** `Number(m[1])` for the capture of the district label in `k`, when `k`
      holds a string. */
  function PatternValue(a: Attributes, k: string): (r: Option<JsNumber>)
    ensures r.Some? ==> Get(a, k).Str? && Match(Get(a, k).s).Some?
    ensures r.Some? ==> r.value.Finite? || r.value == Infinity(false)
  {
    match Get(a, k)
    case Str(s) =>
      (match Match(s)
       case Some(m) => Some(FromExact(DigitsValue(m, 10) as real))
       case None => None)
    case _ => None
  }

  /** What the second pass makes of name field `k`: the district label's
      number, else the field's own number when the whole string coerces to
      one; `None` when the loop moves on to the next field. */
  function NameFieldValue(a: Attributes, k: string): (r: Option<JsNumber>)
    ensures PatternValue(a, k).Some? ==> r == PatternValue(a, k)
    ensures r.Some? ==> Get(a, k).Str?
  {
    match Get(a, k)
    case Str(s) =>
      if PatternValue(a, k).Some? then PatternValue(a, k)
      else
        (match ToNumberOrNull(Str(s))
         case Some(x) => Some(Finite(x))
         case None => None)
    case _ => None
  }

  /** What the second pass makes of each of `keys`. */
  function NameOffers(a: Attributes, keys: seq<string>): (offers: seq<Option<JsNumber>>)
    ensures |offers| == |keys|
    ensures forall i :: 0 <= i < |keys| ==> offers[i] == NameFieldValue(a, keys[i])
  {
    seq(|keys|, i requires 0 <= i < |keys| => NameFieldValue(a, keys[i]))
  }

  /** The second pass over `keys`. */
  function NamePass(a: Attributes, keys: seq<string>): (r: Option<JsNumber>) {
    FirstSome(NameOffers(a, keys))
  }

  /** `extractDistrictNumber(props, chamber)`; `None` for falsy `props`. */
  function ExtractDistrictNumber(props: Option<Attributes>, chamber: string): (r: Option<JsNumber>)
    ensures props.None? ==> r == None
    ensures props.Some? && DirectPass(props.value, Candidates(chamber)).Some? ==>
              r.Some? && r.value.Finite? && InRange(r.value.value)
  {
    match props
    case None => None
    case Some(a) =>
      match DirectPass(a, Candidates(chamber))
      case Some(n) => Some(Finite(n))
      case None => NamePass(a, NameFields)
  }

  /** The first pass decides whenever some listed key other than `OBJECTID`
      coerces to a finite number: the first such key in the list supplies
      the result, whatever the later keys and the name fields hold. */
  lemma DirectPrecedence(a: Attributes, chamber: string, i: nat)
    requires i < |Candidates(chamber)| && DirectValue(a, Candidates(chamber)[i]).Some?
    requires forall j :: 0 <= j < i ==> DirectValue(a, Candidates(chamber)[j]).None?
    ensures ExtractDistrictNumber(Some(a), chamber)
            == Some(Finite(DirectValue(a, Candidates(chamber)[i]).value))
  {
    var c := Candidates(chamber);
    FirstSomeIsFirst(DirectOffers(a, c), i);
  }

  /** Every name field is also a first-pass key, so once the first pass has
      failed no name field coerces to a number: the bare-number fallback of
      the second pass never yields anything, and each name field contributes
      its district label alone. */
  lemma BareNumberFallbackDead(a: Attributes, chamber: string)
    requires DirectPass(a, Candidates(chamber)).None?
    ensures forall i :: 0 <= i < |NameFields| ==> NameFieldValue(a, NameFields[i]) == PatternValue(a, NameFields[i])
  {
    var c := Candidates(chamber);
    var offers := DirectOffers(a, c);
    FirstSomeNone(offers);
    forall i | 0 <= i < |NameFields|
      ensures NameFieldValue(a, NameFields[i]) == PatternValue(a, NameFields[i])
    {
      assert NameFields[i] == c[6 + i] && offers[6 + i].None?;
      UnnumberedNameField(a, NameFields[i]);
    }
  }

  /** A name field the first pass found no number in yields its district
      label or nothing. */
  lemma UnnumberedNameField(a: Attributes, k: string)
    requires k != "OBJECTID" && DirectValue(a, k).None?
    ensures NameFieldValue(a, k) == PatternValue(a, k)
  {
  }

  /** When the first pass fails, the result is the label number of the
      first name field, in the order `NAMELSAD`, `NAME`, `name`, whose
      string carries a district label, and `None` when none does. */
  lemma NameLabelFallback(a: Attributes, chamber: string)
    requires DirectPass(a, Candidates(chamber)).None?
    ensures forall i :: 0 <= i < |NameFields| && PatternValue(a, NameFields[i]).Some?
                        && (forall j :: 0 <= j < i ==> PatternValue(a, NameFields[j]).None?)
                        ==> ExtractDistrictNumber(Some(a), chamber) == PatternValue(a, NameFields[i])
    ensures (forall i :: 0 <= i < |NameFields| ==> PatternValue(a, NameFields[i]).None?)
            ==> ExtractDistrictNumber(Some(a), chamber) == None
  {
    BareNumberFallbackDead(a, chamber);
    var offers := NameOffers(a, NameFields);
    forall i | 0 <= i <= |NameFields| && (forall j :: 0 <= j < i ==> PatternValue(a, NameFields[j]).None?)
                && (i < |NameFields| ==> PatternValue(a, NameFields[i]).Some?)
      ensures ExtractDistrictNumber(Some(a), chamber)
              == (if i < |NameFields| then PatternValue(a, NameFields[i]) else None)
    {
      FirstSomeIsFirst(offers, i);
    }
    assert (forall i :: 0 <= i < |NameFields| ==> PatternValue(a, NameFields[i]).None?) ==>
             (forall j :: 0 <= j < |NameFields| ==> PatternValue(a, NameFields[j]).None?);
  }

  /** Two attribute sets that agree on every listed key except `OBJECTID`. */
  predicate AgreeOnListedKeys(a: Attributes, b: Attributes, chamber: string) {
    forall k :: k in Candidates(chamber) && k != "OBJECTID" ==> Get(a, k) == Get(b, k)
  }

  /** The resolver reads nothing but the listed keys, and not `OBJECTID`:
      attribute sets that agree on those resolve alike. */
  lemma ReadsOnlyListedKeys(a: Attributes, b: Attributes, chamber: string)
    requires AgreeOnListedKeys(a, b, chamber)
    ensures ExtractDistrictNumber(Some(a), chamber) == ExtractDistrictNumber(Some(b), chamber)
  {
    var c := Candidates(chamber);
    forall i | 0 <= i < |c| ensures DirectOffers(a, c)[i] == DirectOffers(b, c)[i] {
      if c[i] != "OBJECTID" {
        assert c[i] in c;
        SameValueSameOffers(a, b, c[i]);
      }
    }
    assert DirectOffers(a, c) == DirectOffers(b, c);
    forall i | 0 <= i < |NameFields| ensures NameOffers(a, NameFields)[i] == NameOffers(b, NameFields)[i] {
      assert NameFields[i] == c[6 + i];
      SameValueSameOffers(a, b, NameFields[i]);
    }
    assert NameOffers(a, NameFields) == NameOffers(b, NameFields);
  }

  /** Both passes read key `k` through its value alone. */
  lemma SameValueSameOffers(a: Attributes, b: Attributes, k: string)
    requires Get(a, k) == Get(b, k)
    ensures DirectValue(a, k) == DirectValue(b, k)
    ensures NameFieldValue(a, k) == NameFieldValue(b, k)
  {
  }

  /** `OBJECTID` never supplies the result: setting it to anything, or
      removing it, leaves the result as it was. */
  lemma ObjectIdIgnored(a: Attributes, chamber: string, v: Value)
    ensures ExtractDistrictNumber(Some(a["OBJECTID" := v]), chamber) == ExtractDistrictNumber(Some(a), chamber)
    ensures ExtractDistrictNumber(Some(a - {"OBJECTID"}), chamber) == ExtractDistrictNumber(Some(a), chamber)
  {
    ReadsOnlyListedKeys(a["OBJECTID" := v], a, chamber);
    ReadsOnlyListedKeys(a - {"OBJECTID"}, a, chamber);
  }

  /** The chamber `"house"` consults `SLDLST` and ignores `SLDUST`; every
      other chamber string consults `SLDUST` and ignores `SLDLST`. */
  lemma ChamberSelectsKey(a: Attributes, chamber: string, v: Value)
    ensures ChamberKey(chamber) in Candidates(chamber)
    ensures var ignored := if chamber == "house" then "SLDUST" else "SLDLST";
            ExtractDistrictNumber(Some(a[ignored := v]), chamber) == ExtractDistrictNumber(Some(a), chamber)
  {
    var ignored := if chamber == "house" then "SLDUST" else "SLDLST";
    assert ignored !in Candidates(chamber);
    ReadsOnlyListedKeys(a[ignored := v], a, chamber);
  }

  /** "State House District 114" under `NAMELSAD` resolves to 114: the name
      is not a number, so the first pass fails and the label decides. */
  lemma HouseLabelExample(a: Attributes)
    requires a == map["NAMELSAD" := Str("State House District 114")]
    ensures ExtractDistrictNumber(Some(a), "house") == Some(Finite(114.0))
  {
    HouseLabelNotNumeric(a);
    HouseLabelPattern(a);
    NameLabelFallback(a, "house");
  }

  lemma HouseLabelNotNumeric(a: Attributes)
    requires a == map["NAMELSAD" := Str("State House District 114")]
    ensures DirectPass(a, Candidates("house")).None?
  {
    WordIsNaN("State House District 114");
    OnlyKeyNotNumeric(a, "house", "NAMELSAD");
  }

  /** Attributes with a single key whose value is no number give the first
      pass nothing. */
  lemma OnlyKeyNotNumeric(a: Attributes, chamber: string, k: string)
    requires a.Keys == {k} && ToNumberOrNull(a[k]).None?
    ensures DirectPass(a, Candidates(chamber)).None?
  {
    var c := Candidates(chamber);
    forall i | 0 <= i < |c| ensures DirectOffers(a, c)[i].None? {
      if c[i] != k { assert c[i] !in a; }
    }
    FirstSomeIsFirst(DirectOffers(a, c), |c|);
  }

  lemma HouseLabelPattern(a: Attributes)
    requires a == map["NAMELSAD" := Str("State House District 114")]
    ensures PatternValue(a, "NAMELSAD") == Some(Finite(114.0))
  {
    MatchesHouseLabel();
    LabelDigits();
    LabelNumber(a, "NAMELSAD", "State House District 114", "114");
  }

  /** A string value whose label captures the digits `m` yields `Number(m)`,
      and that is the number the digits denote (an infinity when it is out of
      range). */
  lemma LabelNumber(a: Attributes, k: string, s: string, m: string)
    requires Get(a, k) == Str(s) && Match(s) == Some(m)
    ensures PatternValue(a, k) == Some(StringToNumber(m))
    ensures StringToNumber(m) == FromExact(DigitsValue(m, 10) as real)
  {
    assert [] + m + [] == m;
    TrimPadded([], m, []);
    DigitsParse(m);
    SignedDecimalText(m, false, m, DigitsValue(m, 10) as real);
  }

  lemma LabelDigits()
    ensures DigitsValue("114", 10) == 114
  {
    assert "114"[..2] == "11" && "11"[..1] == "1" && "1"[..0] == "";
  }

  /** A generic key outranks the chamber key and the name fields: once
      `DIST_NBR` holds a number, nothing under `SLDLST` or `NAMELSAD` matters. */
  lemma GenericKeyOutranks(a: Attributes, chamber: string, v: Value, w: Value)
    requires DirectValue(a, "DIST_NBR").Some?
    ensures ExtractDistrictNumber(Some(a[ChamberKey(chamber) := v]["NAMELSAD" := w]), chamber)
            == ExtractDistrictNumber(Some(a), chamber)
            == Some(Finite(DirectValue(a, "DIST_NBR").value))
  {
    var b := a[ChamberKey(chamber) := v]["NAMELSAD" := w];
    assert Get(b, "DIST_NBR") == Get(a, "DIST_NBR");
    DirectPrecedence(a, chamber, 0);
    DirectPrecedence(b, chamber, 0);
  }

  /** The first pass returns any finite number, fractions included: with
      no `DIST_NBR`, a `DISTRICT` of "12.5" resolves to 12.5. */
  lemma FractionExample(a: Attributes, chamber: string)
    requires "DIST_NBR" !in a && Get(a, "DISTRICT") == Str("12.5")
    ensures ExtractDistrictNumber(Some(a), chamber) == Some(Finite(12.5))
  {
    FractionParses();
    SecondKeyDecides(a, chamber, "12.5", 12.5);
  }

  /** With no `DIST_NBR`, a `DISTRICT` that coerces to a number decides. */
  lemma SecondKeyDecides(a: Attributes, chamber: string, s: string, x: real)
    requires "DIST_NBR" !in a && Get(a, "DISTRICT") == Str(s)
    requires ToNumberOrNull(Str(s)) == Some(x)
    ensures ExtractDistrictNumber(Some(a), chamber) == Some(Finite(x))
  {
    var c := Candidates(chamber);
    assert c[0] == "DIST_NBR" && c[1] == "DISTRICT";
    AbsentKeyOffersNothing(a, "DIST_NBR");
    OfferOfValue(a, "DISTRICT", Str(s));
    var offers := DirectOffers(a, c);
    assert offers[0].None? && offers[1] == Some(x);
    FirstSomeIsFirst(offers, 1);
    assert DirectPass(a, c) == Some(x);
  }

  /** A missing key offers nothing. */
  lemma AbsentKeyOffersNothing(a: Attributes, k: string)
    requires k !in a
    ensures DirectValue(a, k).None?
  {
    assert Get(a, k) == Undefined;
  }

  /** Any key but `OBJECTID` offers what its value coerces to. */
  lemma OfferOfValue(a: Attributes, k: string, v: Value)
    requires k != "OBJECTID" && Get(a, k) == v
    ensures DirectValue(a, k) == ToNumberOrNull(v)
  {
  }

  lemma FractionParses()
    ensures ToNumberOrNull(Str("12.5")) == Some(12.5)
  {
    FractionText();
  }

  lemma FractionText()
    ensures StringToNumber("12.5") == Finite(12.5)
  {
    assert [] + "12.5" + [] == "12.5";
    TrimPadded([], "12.5", []);
    FractionTrimmed("12.5");
  }

  lemma FractionTrimmed(s: string)
    requires Trim(s) == "12.5"
    ensures StringToNumber(s) == Finite(12.5)
  {
    FractionLiteral();
    SignedDecimalText(s, false, "12.5", 12.5);
  }

  lemma FractionLiteral()
    ensures ParseUnsignedDecimal("12.5") == Some(12.5)
  {
    var t := "12.5";
    assert DigitRun(t, 0) == 2 && DigitRun(t, 3) == 1;
    assert t[..2] + t[3..4] == "125";
    assert "125"[..2] == "12" && "12"[..1] == "1" && "1"[..0] == "";
  }

  /** A blank string coerces to 0, so a blank `DIST_NBR` resolves to 0 and
      shadows every later key, the chamber key included. */
  lemma BlankDistNbrIsZero(a: Attributes, chamber: string, s: string)
    requires Get(a, "DIST_NBR") == Str(s) && AllSpace(s)
    ensures ExtractDistrictNumber(Some(a), chamber) == Some(Finite(0.0))
  {
    BlankCoercesToZero(s);
    DirectPrecedence(a, chamber, 0);
  }
}
