/** The GraphQL queries (src/fussballverein/resolver/query.ts): lookup by
    id, the listing (which hands out only the page content), and the
    `rabatt` display field. */
module QueryResolver {
  import opened Wrappers
  import opened Text
  import opened Entity
  import opened Suchparameter
  import S = FussballvereinService

  /** The argument object of the listing query. */
  datatype SuchparameterInput = SuchparameterInput(suchparameter: Option<Suchparameter>)

  /** The errors of the lookup: those of the service, and an id that
      `Number` turns into NaN. What the store does with NaN is not part of
      this model, so the lookup stops there. */
  datatype LookupError = ServiceError(error: S.Error) | NotANumber(id: string)

  /** `findById({ id })`: `Number(id)` goes to the service, which reads the
      club without its players; its answer is passed on unchanged. */
  function FindById(store: seq<Fussballverein>, id: string): (r: Result<Fussballverein, LookupError>)
    ensures NumberValue(id).None? <==> r == Failure(NotANumber(id))
    ensures NumberValue(id).Some? ==>
              (r.Success? <==> S.FindById(store, NumberValue(id).value, None).Success?)
    ensures r.Success? ==> r.value == S.FindById(store, NumberValue(id).value, None).value
    ensures r.Success? ==> NumberValue(id) == Some(r.value.id as int) && r.value.spieler.None?
    ensures r.Failure? && r.error.ServiceError? ==> r.error.error == S.IdNotFound(NumberValue(id).value)
  {
    match NumberValue(id)
    case None => Failure(NotANumber(id))
    case Some(n) =>
      match S.FindById(store, n, None)
      case Success(verein) => Success(verein)
      case Failure(e) => Failure(ServiceError(e))
  }

  function BoolToString(b: bool): string {
    if b then "true" else "false"
  }

  /** `value.toString()` for a value that is not `undefined`. */
  function ToStringValue(v: Value): (r: Value)
    ensures v == Undefined <==> r == Undefined
    ensures v.Bool? ==> r == Str(BoolToString(v.b))
    ensures v.Str? ==> r == v
  {
    match v
    case Undefined => Undefined
    case Str(s) => Str(s)
    case Num(n) => Str(IntToString(n))
    case Bool(b) => Str(BoolToString(b))
  }

  /** A GraphQL boolean `lieferbar` becomes the string a REST query would
      carry; every other parameter, and an `undefined` one, is unchanged. */
  function CoerceLieferbar(sp: Suchparameter): (r: Suchparameter)
    ensures Keys(r) == Keys(sp)
    ensures forall i :: 0 <= i < |sp| && (sp[i].0 != "lieferbar" || sp[i].1 == Undefined) ==> r[i] == sp[i]
    ensures forall i :: 0 <= i < |sp| && sp[i].0 == "lieferbar" && sp[i].1.Bool? ==>
              r[i].1 == Str(BoolToString(sp[i].1.b))
  {
    seq(|sp|, i requires 0 <= i < |sp| => if sp[i].0 == "lieferbar" then (sp[i].0, ToStringValue(sp[i].1)) else sp[i])
  }

  /** The parameters the listing query hands to the service. */
  function SuchparameterOf(input: Option<SuchparameterInput>): Option<Suchparameter> {
    if input.None? || input.value.suchparameter.None? then None
    else Some(CoerceLieferbar(input.value.suchparameter.value))
  }

  /** The listing query: the service's slice content, in order, without
      the total. `pageable` is the default page of `createPageable({})`. */
  function Find(store: seq<Fussballverein>, input: Option<SuchparameterInput>, pageable: S.Pageable, where: S.WhereBuilder)
    : (r: Result<seq<Fussballverein>, S.Error>)
    ensures r.Success? <==> S.Find(store, SuchparameterOf(input), pageable, where).Success?
    ensures r.Success? ==> r.value == S.Find(store, SuchparameterOf(input), pageable, where).value.content
    ensures r.Failure? ==> r.error == S.Find(store, SuchparameterOf(input), pageable, where).error
    ensures r.Success? ==> 0 < |r.value| <= pageable.size
  {
    match S.Find(store, SuchparameterOf(input), pageable, where)
    case Success(slice) => Success(slice.content)
    case Failure(e) => Failure(e)
  }

  /** `lieferbar` is not an admitted parameter name, so a listing query
      that sets it is rejected before the store is asked. */
  lemma LieferbarIsRejected(store: seq<Fussballverein>, sp: Suchparameter, pageable: S.Pageable, where: S.WhereBuilder)
    requires "lieferbar" in Keys(sp)
    ensures Find(store, Some(SuchparameterInput(Some(sp))), pageable, where) == Failure(S.InvalidSuchparameter)
  {
    var coerced := CoerceLieferbar(sp);
    assert Keys(coerced) == Keys(sp);
    var i :| 0 <= i < |Keys(sp)| && Keys(sp)[i] == "lieferbar";
    assert coerced[i].0 == "lieferbar" && !S.IsValidKey(coerced[i].0);
  }

  const ShortSuffix: string := "%"
  const LongSuffix: string := "Prozent"

  /** The `rabatt` field: the discount (0 when absent), one space, and `%`
      unless `short` is false, when it is `Prozent`. */
  function Rabatt(rabatt: Option<int>, short: Option<bool>): (r: string)
    ensures rabatt.None? ==> |r| >= 2 && r[..2] == "0 "
    ensures short != Some(false) ==> |r| >= 3 && r[|r| - 2..] == " %"
    ensures short == Some(false) ==> |r| >= 9 && r[|r| - 8..] == " Prozent"
  {
    var shortStr := if short.None? || short.value then ShortSuffix else LongSuffix;
    IntToString(rabatt.GetOr(0)) + " " + shortStr
  }

  /** Reads a display string back: the number before the suffix and
      whether the suffix is the short one. */
  function ParseRabatt(t: string): Option<(int, bool)> {
    if |t| >= 2 && t[|t| - 2..] == " %" then
      match IntegerValue(t[..|t| - 2])
      case Some(v) => Some((v, true))
      case None => None
    else if |t| >= 8 && t[|t| - 8..] == " Prozent" then
      match IntegerValue(t[..|t| - 8])
      case Some(v) => Some((v, false))
      case None => None
    else None
  }

  /** The display string determines the discount and the suffix form. */
  lemma RabattRoundTrip(rabatt: Option<int>, short: Option<bool>)
    ensures ParseRabatt(Rabatt(rabatt, short)) == Some((rabatt.GetOr(0), short != Some(false)))
  {
    var s := IntToString(rabatt.GetOr(0));
    var t := Rabatt(rabatt, short);
    IntegerValueOfIntToString(rabatt.GetOr(0));
    if short != Some(false) {
      assert t[..|t| - 2] == s;
    } else {
      assert t[|t| - 2..] != " %" by {
        assert t[|t| - 1] == 't';
      }
      assert t[..|t| - 8] == s;
    }
  }
}
