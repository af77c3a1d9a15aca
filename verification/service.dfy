/** The read side of the club service (src/fussballverein/service/fussballverein-service.ts):
    lookup by id, filtered and unfiltered paged listing, the slice envelope,
    and the validation of search-parameter names and enum values.

    The store is a sequence of rows in the order the store returns them. The
    where-builder, which turns validated parameters into a store predicate,
    is a parameter of `Find`. Every error the service raises is a
    `NotFoundException` (HTTP 404); `Error` keeps the context each carries. */
module FussballvereinService {
  import opened Wrappers
  import opened Text
  import opened Entity
  import opened Suchparameter

  datatype Error =
    | IdNotFound(id: int)
    | InvalidSuchparameter
    | NoMatches(suchparameter: Suchparameter, page: nat)
    | InvalidPage(page: nat)

  /** Page number (counted from 0) and page size. */
  datatype Pageable = Pageable(number: nat, size: nat)

  datatype Slice = Slice(content: seq<Fussballverein>, totalElements: nat)

  /** Whether a row satisfies the store predicate built from the parameters. */
  type WhereBuilder = (Suchparameter, Fussballverein) -> bool

  const IncludeStadion: Include := Include(true, false)
  const IncludeStadionUndSpieler: Include := Include(true, true)

  /** The enum values `#checkEnums` admits for `art`. */
  const Arten: set<string> := {"EPUB", "HARDCOVER", "PAPERBACK"}

  function Min(a: int, b: int): int {
    if a <= b then a else b
  }

  // ---------------------------------------------------------------------------
  // ID_PATTERN

  /** `ID_PATTERN = /^[1-9]\d{0,10}$/u`. */
  predicate MatchesIdPattern(s: string) {
    1 <= |s| <= 11 && '1' <= s[0] <= '9' && AllDigits(s)
  }

  /** The pattern admits exactly the decimal renderings of the ids 1 to
      10^11 - 1. */
  lemma IdPatternIsPositiveId(s: string)
    ensures MatchesIdPattern(s) <==> exists n: nat :: 1 <= n < Pow10(11) && NatToString(n) == s
  {
    if MatchesIdPattern(s) {
      var n := ParseDigits(s);
      NatToStringParse(s);
      NatToStringLength(n, 11);
      assert 1 <= n < Pow10(11) && NatToString(n) == s;
    }
    if exists n: nat :: 1 <= n < Pow10(11) && NatToString(n) == s {
      var n: nat :| 1 <= n < Pow10(11) && NatToString(n) == s;
      NatToStringLength(n, 11);
    }
  }

  // ---------------------------------------------------------------------------
  // Reading rows

  /** The keyword list of a read row, `null` replaced by the empty list. */
  function WithSchlagwoerter(e: Fussballverein): Fussballverein {
    e.(schlagwoerter := Some(e.schlagwoerter.GetOr([])))
  }

  /** `e` is how the service hands out the stored `row` when read with
      `relations`: every column as stored, the stadium and the players only
      when included (players as a list, empty when there are none), and the
      keyword list never `null`. */
  ghost predicate Presented(row: Fussballverein, relations: Include, e: Fussballverein) {
    && e.(stadion := row.stadion, spieler := row.spieler, schlagwoerter := row.schlagwoerter) == row
    && e.stadion == (if relations.stadion then row.stadion else None)
    && (e.spieler.Some? <==> relations.spieler)
    && (e.spieler.Some? ==> e.spieler.value == row.spieler.GetOr([]))
    && (row.schlagwoerter.Some? ==> e.schlagwoerter == row.schlagwoerter)
    && (row.schlagwoerter.None? ==> e.schlagwoerter == Some([]))
  }

  /** `findUnique({ where: { id } })`: the row with that id. */
  function Lookup(store: seq<Fussballverein>, id: int): (r: Option<Fussballverein>)
    ensures r.None? <==> forall i :: 0 <= i < |store| ==> store[i].id != id
    ensures r.Some? ==> r.value in store && r.value.id == id
  {
    if |store| == 0 then None
    else if store[0].id == id then Some(store[0])
    else Lookup(store[1..], id)
  }

  /** `findById({ id, mitSpieler })`: the stadium is always loaded, the
      players only when `mitSpieler` is true (it defaults to false), and a
      missing row is a not-found error naming the id. */
  function FindById(store: seq<Fussballverein>, id: int, mitSpieler: Option<bool>): (r: Result<Fussballverein, Error>)
    ensures r.Failure? <==> forall i :: 0 <= i < |store| ==> store[i].id != id
    ensures r.Failure? ==> r.error == IdNotFound(id)
    ensures r.Success? ==> r.value.id == id
    ensures r.Success? ==> (r.value.spieler.Some? <==> mitSpieler == Some(true))
    ensures r.Success? ==> Presented(Lookup(store, id).value, Include(true, mitSpieler == Some(true)), r.value)
  {
    var relations := if mitSpieler.GetOr(false) then IncludeStadionUndSpieler else IncludeStadion;
    match Lookup(store, id)
    case None => Failure(IdNotFound(id))
    case Some(row) => Success(WithSchlagwoerter(Load(row, relations)))
  }

  // ---------------------------------------------------------------------------
  // Paging

  /** `findMany({ skip, take })`: the rows at positions [skip, skip + take). */
  function Window<T>(rows: seq<T>, skip: nat, take: nat): (w: seq<T>)
    ensures |w| == if skip >= |rows| then 0 else Min(take, |rows| - skip)
    ensures forall i :: 0 <= i < |w| ==> w[i] == rows[skip + i]
  {
    if skip >= |rows| then [] else rows[skip..Min(skip + take, |rows|)]
  }

  /** The rows the store predicate built from `sp` selects, in store order. */
  function Matching(store: seq<Fussballverein>, sp: Suchparameter, where: WhereBuilder): (r: seq<Fussballverein>)
    ensures |r| <= |store|
    ensures forall e :: e in r <==> e in store && where(sp, e)
  {
    if |store| == 0 then []
    else
      var rest := Matching(store[1..], sp, where);
      assert forall e :: e in store <==> e == store[0] || e in store[1..];
      if where(sp, store[0]) then [store[0]] + rest else rest
  }

  /** The rows of a page, read with the stadium and without the players. */
  function ReadRows(rows: seq<Fussballverein>): seq<Fussballverein> {
    seq(|rows|, i requires 0 <= i < |rows| => Load(rows[i], IncludeStadion))
  }

  /** `count()`: the number of all rows. */
  function Count(store: seq<Fussballverein>): nat {
    |store|
  }

  /** `#createSlice`: the same rows in the same order, each keyword list
      defaulted to the empty list and nothing else changed. */
  function CreateSlice(rows: seq<Fussballverein>, totalElements: nat): (s: Slice)
    ensures s.totalElements == totalElements && |s.content| == |rows|
    ensures forall i :: 0 <= i < |rows| ==> s.content[i].(schlagwoerter := rows[i].schlagwoerter) == rows[i]
    ensures forall i :: 0 <= i < |rows| ==> s.content[i].schlagwoerter.Some?
    ensures forall i :: 0 <= i < |rows| && rows[i].schlagwoerter.Some? ==> s.content[i].schlagwoerter == rows[i].schlagwoerter
  {
    Slice(seq(|rows|, i requires 0 <= i < |rows| => WithSchlagwoerter(rows[i])), totalElements)
  }

  /** `content` is page `pageable` of `rows`: the rows from position
      `number * size` on, at most `size` of them, as a read presents them. */
  ghost predicate IsPage(rows: seq<Fussballverein>, pageable: Pageable, content: seq<Fussballverein>) {
    var skip := pageable.number * pageable.size;
    && skip < |rows|
    && |content| == Min(pageable.size, |rows| - skip)
    && forall i :: 0 <= i < |content| ==> Presented(rows[skip + i], IncludeStadion, content[i])
  }

  /** `#findAll`: a page of all rows; an empty page is a not-found error
      naming the page number. */
  function FindAll(store: seq<Fussballverein>, pageable: Pageable): (r: Result<Slice, Error>)
    ensures r.Success? <==> pageable.size > 0 && pageable.number * pageable.size < |store|
    ensures r.Failure? ==> r.error == InvalidPage(pageable.number)
    ensures r.Success? ==> IsPage(store, pageable, r.value.content) && r.value.totalElements == |store|
  {
    var rows := Window(store, pageable.number * pageable.size, pageable.size);
    if |rows| == 0 then Failure(InvalidPage(pageable.number))
    else Success(CreateSlice(ReadRows(rows), Count(store)))
  }

  // ---------------------------------------------------------------------------
  // Validating the search parameters

  /** A name `#checkKeys` admits: on the allow-list or one of the four
      keyword names; that is, a field of `Suchparameter` or `schlagwoerter`. */
  function IsValidKey(key: string): (ok: bool)
    ensures ok <==> key in Felder || key == "schlagwoerter"
  {
    key in SuchparameterNamen || key == "javascript" || key == "typescript" || key == "java" || key == "python"
  }

  /** `#checkKeys`: every key is admitted. */
  function CheckKeys(keys: seq<string>): (ok: bool)
    ensures ok <==> forall i :: 0 <= i < |keys| ==> IsValidKey(keys[i])
  {
    if |keys| == 0 then true else IsValidKey(keys[0]) && CheckKeys(keys[1..])
  }

  /** `#checkEnums`: `art` is absent, `undefined` or one of its enum values. */
  predicate CheckEnums(sp: Suchparameter) {
    match Get(sp, "art")
    case None => true
    case Some(v) => v == Undefined || (v.Str? && v.s in Arten)
  }

  /** `art` is not an admitted key, so once the key check passes `art` is
      absent and the enum check cannot fail. */
  lemma CheckKeysImpliesCheckEnums(sp: Suchparameter)
    requires CheckKeys(Keys(sp))
    ensures CheckEnums(sp)
  {
  }

  // ---------------------------------------------------------------------------
  // find

  /** `find(suchparameter, pageable)`.
      - no parameters, or none set: the unfiltered listing;
      - a key that is not admitted, or an `art` outside its enum: rejected
        before the store is asked (the error does not depend on the store);
      - otherwise page `pageable` of the rows the where-builder selects; an
        empty page is a not-found error naming the parameters and the page.
      `totalElements` is always the number of ALL rows, whatever the filter. */
  function Find(store: seq<Fussballverein>, suchparameter: Option<Suchparameter>, pageable: Pageable, where: WhereBuilder): (r: Result<Slice, Error>)
    ensures suchparameter.None? || |suchparameter.value| == 0 ==> r == FindAll(store, pageable)
    ensures suchparameter.Some? && (exists i :: 0 <= i < |suchparameter.value| && !IsValidKey(suchparameter.value[i].0))
            ==> r == Failure(InvalidSuchparameter)
    ensures suchparameter.Some? && !CheckEnums(suchparameter.value) ==> r == Failure(InvalidSuchparameter)
    ensures suchparameter.Some? && |suchparameter.value| > 0 && CheckKeys(Keys(suchparameter.value)) ==>
              var sp := suchparameter.value;
              var matching := Matching(store, sp, where);
              && (r.Success? <==> pageable.size > 0 && pageable.number * pageable.size < |matching|)
              && (r.Failure? ==> r.error == NoMatches(sp, pageable.number))
              && (r.Success? ==> IsPage(matching, pageable, r.value.content))
    ensures r.Success? ==> 0 < |r.value.content| <= pageable.size && r.value.totalElements == |store|
  {
    if suchparameter.None? || |Keys(suchparameter.value)| == 0 then FindAll(store, pageable)
    else
      var sp := suchparameter.value;
      if !CheckKeys(Keys(sp)) || !CheckEnums(sp) then Failure(InvalidSuchparameter)
      else
        var rows := Window(Matching(store, sp, where), pageable.number * pageable.size, pageable.size);
        if |rows| == 0 then Failure(NoMatches(sp, pageable.number))
        else Success(CreateSlice(ReadRows(rows), Count(store)))
  }

  /** Rejected parameters are rejected against every store, before any
      query: the outcome does not depend on the rows. */
  lemma RejectionIgnoresStore(s1: seq<Fussballverein>, s2: seq<Fussballverein>, sp: Suchparameter, pageable: Pageable, where: WhereBuilder)
    requires |sp| > 0 && !CheckKeys(Keys(sp))
    ensures Find(s1, Some(sp), pageable, where) == Find(s2, Some(sp), pageable, where) == Failure(InvalidSuchparameter)
  {
  }

  /** The total in the envelope does not depend on the filter. */
  lemma TotalIgnoresFilter(store: seq<Fussballverein>, sp1: Option<Suchparameter>, sp2: Option<Suchparameter>,
                           pageable: Pageable, w1: WhereBuilder, w2: WhereBuilder)
    requires Find(store, sp1, pageable, w1).Success? && Find(store, sp2, pageable, w2).Success?
    ensures Find(store, sp1, pageable, w1).value.totalElements == Find(store, sp2, pageable, w2).value.totalElements
  {
  }
}
