/** The validation rules of the club input
    (src/fussballverein/controller/fussballverein-dto.ts) as a declarative
    rule table (`ValidOhneRef`, `Valid`) and as the list of violated fields
    the validator reports, all of them at once (`ViolationsOhneRef`,
    `Violations`).

    The library's format checks (URL, e-mail, German phone number, strict
    ISO 8601) and the rules of the nested stadium and player inputs are not
    part of this model: they are uninterpreted predicates in `Checks`. */
module FussballvereinDto {
  import opened Wrappers

  datatype StadionDto = StadionDto(stadt: string, kapazitaet: int, strasse: string, hausnummer: string)

  datatype SpielerDto = SpielerDto(vorname: string, nachname: string, alter: int, fuss: string)

  /** `FussballvereinDtoOhneRef`; an absent or `null` field is `None`. A
      JSON number is a `real`. */
  datatype FussballvereinDtoOhneRef = FussballvereinDtoOhneRef(
    name: Option<string>,
    mitgliederanzahl: Option<real>,
    website: Option<string>,
    email: Option<string>,
    telefonnummer: Option<string>,
    gruendungsdatum: Option<string>)

  /** `FussballvereinDto`: the base fields plus the nested stadium and players. */
  datatype FussballvereinDto = FussballvereinDto(
    base: FussballvereinDtoOhneRef,
    stadion: Option<StadionDto>,
    spieler: Option<seq<SpielerDto>>)

  datatype Checks = Checks(
    isUrl: string -> bool,
    isEmail: string -> bool,
    isPhoneNumberDe: string -> bool,
    isIso8601Strict: string -> bool,
    stadionValid: StadionDto -> bool,
    spielerValid: SpielerDto -> bool)

  /** A field that failed its rule; a player is named by its array index. */
  datatype Field =
    | Name
    | Mitgliederanzahl
    | Website
    | Email
    | Telefonnummer
    | Gruendungsdatum
    | Stadion
    | Spieler(index: nat)

  const MaxNameLength: nat := 60

  /** The variation selectors U+FE0E and U+FE0F, which validator.js's
      `isLength` (behind `@MaxLength`) leaves out of a string's length. */
  predicate IsVariationSelector(c: char) {
    c == '\U{FE0E}' || c == '\U{FE0F}'
  }

  function VariationSelectors(s: string): (n: nat)
    ensures n <= |s|
  {
    if |s| == 0 then 0
    else (if IsVariationSelector(s[0]) then 1 else 0) + VariationSelectors(s[1..])
  }

  /** The length `@MaxLength` compares: the characters of `s` without the
      variation selectors. A character here is a Unicode scalar value, so a
      surrogate pair of the source is one character, as `isLength` counts
      it. */
  function ValidatorLength(s: string): (n: nat)
    ensures n <= |s|
  {
    |s| - VariationSelectors(s)
  }

  /** Without variation selectors the validator's length is the plain length. */
  lemma {:induction false} PlainLength(s: string)
    requires forall i :: 0 <= i < |s| ==> !IsVariationSelector(s[i])
    ensures ValidatorLength(s) == |s|
  {
    if |s| > 0 {
      PlainLength(s[1..]);
    }
  }

  /** Appending a variation selector leaves the validator's length as it is. */
  lemma {:induction false} SelectorAddsNoLength(s: string, c: char)
    requires IsVariationSelector(c)
    ensures ValidatorLength(s + [c]) == ValidatorLength(s)
  {
    if |s| > 0 {
      assert (s + [c])[1..] == s[1..] + [c];
      SelectorAddsNoLength(s[1..], c);
    }
  }

  predicate IsInteger(x: real) {
    x.Floor as real == x
  }

  /** `@IsInt() @Min(0) @IsOptional()`. */
  predicate MitgliederanzahlOk(v: Option<real>) {
    v.None? || (IsInteger(v.value) && v.value >= 0.0)
  }

  /** `@IsOptional()` followed by a check: absent passes, present must pass. */
  predicate OptionalOk<T>(v: Option<T>, check: T -> bool) {
    v.None? || check(v.value)
  }

  /** The rule table of `FussballvereinDtoOhneRef`. */
  predicate ValidOhneRef(dto: FussballvereinDtoOhneRef, checks: Checks) {
    && dto.name.Some? && |dto.name.value| > 0 && ValidatorLength(dto.name.value) <= MaxNameLength
    && MitgliederanzahlOk(dto.mitgliederanzahl)
    && OptionalOk(dto.website, checks.isUrl)
    && OptionalOk(dto.email, checks.isEmail)
    && OptionalOk(dto.telefonnummer, checks.isPhoneNumberDe)
    && OptionalOk(dto.gruendungsdatum, checks.isIso8601Strict)
  }

  /** The rule table of `FussballvereinDto`: the base rules, a present
      stadium valid, and a present player list valid element by element. */
  predicate Valid(dto: FussballvereinDto, checks: Checks) {
    && ValidOhneRef(dto.base, checks)
    && OptionalOk(dto.stadion, checks.stadionValid)
    && (dto.spieler.Some? ==> forall i :: 0 <= i < |dto.spieler.value| ==> checks.spielerValid(dto.spieler.value[i]))
  }

  /** The fields of `FussballvereinDtoOhneRef`, in declaration order. */
  const BaseFields: seq<Field> := [Name, Mitgliederanzahl, Website, Email, Telefonnummer, Gruendungsdatum]

  /** Whether base field `field` of `dto` breaks its rule. */
  predicate Broken(dto: FussballvereinDtoOhneRef, checks: Checks, field: Field) {
    match field
    case Name => dto.name.None? || |dto.name.value| == 0 || ValidatorLength(dto.name.value) > MaxNameLength
    case Mitgliederanzahl => !MitgliederanzahlOk(dto.mitgliederanzahl)
    case Website => !OptionalOk(dto.website, checks.isUrl)
    case Email => !OptionalOk(dto.email, checks.isEmail)
    case Telefonnummer => !OptionalOk(dto.telefonnummer, checks.isPhoneNumberDe)
    case Gruendungsdatum => !OptionalOk(dto.gruendungsdatum, checks.isIso8601Strict)
    case _ => false
  }

  /** The fields among `fields` that break their rule, in order. */
  function BrokenAmong(fields: seq<Field>, dto: FussballvereinDtoOhneRef, checks: Checks): (r: seq<Field>)
    ensures forall f :: f in r <==> f in fields && Broken(dto, checks, f)
  {
    if |fields| == 0 then []
    else if Broken(dto, checks, fields[0]) then [fields[0]] + BrokenAmong(fields[1..], dto, checks)
    else BrokenAmong(fields[1..], dto, checks)
  }

  function Violation(failed: bool, field: Field): seq<Field> {
    if failed then [field] else []
  }

  /** The rule table holds exactly when no base field is broken. */
  lemma ValidOhneRefIffNoneBroken(dto: FussballvereinDtoOhneRef, checks: Checks)
    ensures ValidOhneRef(dto, checks) <==> forall f :: f in BaseFields ==> !Broken(dto, checks, f)
  {
    if !ValidOhneRef(dto, checks) {
      var f :| f in BaseFields && Broken(dto, checks, f) by {
        if Broken(dto, checks, Name) {
          assert BaseFields[0] == Name;
        } else if Broken(dto, checks, Mitgliederanzahl) {
          assert BaseFields[1] == Mitgliederanzahl;
        } else if Broken(dto, checks, Website) {
          assert BaseFields[2] == Website;
        } else if Broken(dto, checks, Email) {
          assert BaseFields[3] == Email;
        } else if Broken(dto, checks, Telefonnummer) {
          assert BaseFields[4] == Telefonnummer;
        } else {
          assert BaseFields[5] == Gruendungsdatum;
        }
      }
    }
  }

  /** No base field reported exactly when the rule table holds. */
  lemma NoneReportedIffValid(dto: FussballvereinDtoOhneRef, checks: Checks)
    ensures |BrokenAmong(BaseFields, dto, checks)| == 0 <==> ValidOhneRef(dto, checks)
    ensures forall i :: 0 <= i < |BrokenAmong(BaseFields, dto, checks)| ==> BrokenAmong(BaseFields, dto, checks)[i] in BaseFields
  {
    var r := BrokenAmong(BaseFields, dto, checks);
    ValidOhneRefIffNoneBroken(dto, checks);
    if |r| > 0 {
      assert r[0] in r;
    }
    forall i | 0 <= i < |r| ensures r[i] in BaseFields {
      assert r[i] in r;
    }
  }

  /** The fields of a `FussballvereinDtoOhneRef` that break their rule, in
      declaration order. */
  function ViolationsOhneRef(dto: FussballvereinDtoOhneRef, checks: Checks): (r: seq<Field>)
    ensures |r| == 0 <==> ValidOhneRef(dto, checks)
    ensures forall f :: f in r <==> f in BaseFields && Broken(dto, checks, f)
    ensures forall i :: 0 <= i < |r| ==> r[i] in BaseFields
  {
    NoneReportedIffValid(dto, checks);
    BrokenAmong(BaseFields, dto, checks)
  }

  /** Each base field is reported exactly when its decorators reject it. */
  lemma ViolationsOhneRefByField(dto: FussballvereinDtoOhneRef, checks: Checks)
    ensures Name in ViolationsOhneRef(dto, checks) <==> dto.name.None? || |dto.name.value| == 0 || ValidatorLength(dto.name.value) > MaxNameLength
    ensures Mitgliederanzahl in ViolationsOhneRef(dto, checks) <==>
              dto.mitgliederanzahl.Some? && (!IsInteger(dto.mitgliederanzahl.value) || dto.mitgliederanzahl.value < 0.0)
    ensures Website in ViolationsOhneRef(dto, checks) <==> dto.website.Some? && !checks.isUrl(dto.website.value)
    ensures Email in ViolationsOhneRef(dto, checks) <==> dto.email.Some? && !checks.isEmail(dto.email.value)
    ensures Telefonnummer in ViolationsOhneRef(dto, checks) <==> dto.telefonnummer.Some? && !checks.isPhoneNumberDe(dto.telefonnummer.value)
    ensures Gruendungsdatum in ViolationsOhneRef(dto, checks) <==> dto.gruendungsdatum.Some? && !checks.isIso8601Strict(dto.gruendungsdatum.value)
  {
    assert BaseFields == [Name, Mitgliederanzahl, Website, Email, Telefonnummer, Gruendungsdatum];
  }

  /** The indexes, from `from` on, of the invalid players. */
  function SpielerViolations(spieler: seq<SpielerDto>, from: nat, checks: Checks): (r: seq<Field>)
    requires from <= |spieler|
    ensures forall i :: 0 <= i < |r| ==> r[i].Spieler?
    ensures forall k: nat :: Spieler(k) in r <==> from <= k < |spieler| && !checks.spielerValid(spieler[k])
    decreases |spieler| - from
  {
    if from == |spieler| then []
    else Violation(!checks.spielerValid(spieler[from]), Spieler(from)) + SpielerViolations(spieler, from + 1, checks)
  }

  /** The violations of the properties `FussballvereinDto` declares itself:
      the stadium, then each invalid player. */
  function OwnViolations(dto: FussballvereinDto, checks: Checks): (r: seq<Field>)
    ensures |r| == 0 <==>
              OptionalOk(dto.stadion, checks.stadionValid)
              && (dto.spieler.Some? ==> forall i :: 0 <= i < |dto.spieler.value| ==> checks.spielerValid(dto.spieler.value[i]))
    ensures forall i :: 0 <= i < |r| ==> r[i].Stadion? || r[i].Spieler?
    ensures Stadion in r <==> dto.stadion.Some? && !checks.stadionValid(dto.stadion.value)
    ensures Stadion in r ==> r[0] == Stadion
    ensures forall k: nat :: Spieler(k) in r <==>
              dto.spieler.Some? && k < |dto.spieler.value| && !checks.spielerValid(dto.spieler.value[k])
  {
    var spieler := if dto.spieler.Some? then SpielerViolations(dto.spieler.value, 0, checks) else [];
    assert |spieler| == 0 <==> (dto.spieler.Some? ==> forall i :: 0 <= i < |dto.spieler.value| ==> checks.spielerValid(dto.spieler.value[i])) by {
      if |spieler| > 0 {
        assert spieler[0] == Spieler(spieler[0].index) && spieler[0] in spieler;
      }
      if dto.spieler.Some? && exists i :: 0 <= i < |dto.spieler.value| && !checks.spielerValid(dto.spieler.value[i]) {
        var i :| 0 <= i < |dto.spieler.value| && !checks.spielerValid(dto.spieler.value[i]);
        assert Spieler(i) in spieler;
      }
    }
    Violation(!OptionalOk(dto.stadion, checks.stadionValid), Stadion) + spieler
  }

  /** The fields of a `FussballvereinDto` that break their rule, in the
      order class-validator reports them: the class's own properties before
      the inherited ones, so the stadium, then each invalid player, then the
      violations of the `FussballvereinDtoOhneRef` base. */
  function Violations(dto: FussballvereinDto, checks: Checks): (r: seq<Field>)
    ensures |r| == 0 <==> Valid(dto, checks)
    ensures |ViolationsOhneRef(dto.base, checks)| <= |r|
    ensures r[|r| - |ViolationsOhneRef(dto.base, checks)|..] == ViolationsOhneRef(dto.base, checks)
    ensures forall i :: 0 <= i < |r| - |ViolationsOhneRef(dto.base, checks)| ==> r[i].Stadion? || r[i].Spieler?
    ensures Stadion in r <==> dto.stadion.Some? && !checks.stadionValid(dto.stadion.value)
    ensures Stadion in r ==> r[0] == Stadion
    ensures forall k: nat :: Spieler(k) in r <==>
              dto.spieler.Some? && k < |dto.spieler.value| && !checks.spielerValid(dto.spieler.value[k])
  {
    var own := OwnViolations(dto, checks);
    var base := ViolationsOhneRef(dto.base, checks);
    assert forall f: Field :: f in own + base <==> f in own || f in base;
    assert Stadion !in base;
    assert forall k: nat :: Spieler(k) !in base;
    own + base
  }

  /** A valid `FussballvereinDto` has a valid `FussballvereinDtoOhneRef` part. */
  lemma ValidDtoHasValidBase(dto: FussballvereinDto, checks: Checks)
    ensures |Violations(dto, checks)| == 0 ==> ValidOhneRef(dto.base, checks)
  {
    assert |ViolationsOhneRef(dto.base, checks)| <= |Violations(dto, checks)|;
  }
}
