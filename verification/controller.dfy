/** The conditional read of one club over REST
    (src/fussballverein/controller/fussballverein-controller.ts, `getById`):
    content negotiation, lookup, and the `If-None-Match`/`ETag` comparison
    of section 13.1.2 and section 8.8.3 of RFC 9110, with the persisted
    version as entity tag. */
module FussballvereinController {
  import opened Wrappers
  import opened Text
  import opened Entity
  import FussballvereinService

  datatype Response =
    | NotAcceptable
    | NotFound
    | NotModified
    | Ok(etag: string, body: Fussballverein)

  function StatusCode(r: Response): nat {
    match r
    case NotAcceptable => 406
    case NotFound => 404
    case NotModified => 304
    case Ok(_, _) => 200
  }

  /** The decision of the handler `getById(id, req, version, res)`.
      `id` is the raw path segment: `ParseIntPipe` runs before the handler
      and answers 404 for anything that is not an integer. Then a request
      that accepts neither JSON nor HTML gets 406 without a lookup; a
      missing club gets 404; an `If-None-Match` equal to `"<version>"` gets
      304 without a body; otherwise 200 with the club (read without its
      players) and `ETag: "<version>"`. The second freshness test Express
      applies when the body is sent is not part of this model. */
  function GetById(id: string, acceptsJsonOrHtml: bool, ifNoneMatch: Option<string>, store: seq<Fussballverein>): (r: Response)
    ensures !IsIntegerString(id) ==> r == NotFound
    ensures IsIntegerString(id) && !acceptsJsonOrHtml ==> r == NotAcceptable
    ensures acceptsJsonOrHtml && IsIntegerString(id) && FussballvereinService.Lookup(store, IntegerValue(id).value).None? ==> r == NotFound
    ensures r.NotModified? <==>
              && IsIntegerString(id) && acceptsJsonOrHtml
              && FussballvereinService.Lookup(store, IntegerValue(id).value).Some?
              && ifNoneMatch == Some(VersionTag(FussballvereinService.Lookup(store, IntegerValue(id).value).value.version))
    ensures && IsIntegerString(id) && acceptsJsonOrHtml
            && FussballvereinService.Lookup(store, IntegerValue(id).value).Some?
            && ifNoneMatch != Some(VersionTag(FussballvereinService.Lookup(store, IntegerValue(id).value).value.version))
            ==> r.Ok?
    ensures r.Ok? ==>
              && IntegerValue(id) == Some(r.body.id as int)
              && r.etag == VersionTag(r.body.version)
              && ifNoneMatch != Some(r.etag)
              && r.body.spieler.None?
              && FussballvereinService.Presented(FussballvereinService.Lookup(store, r.body.id).value,
                                                 FussballvereinService.IncludeStadion, r.body)
  {
    match IntegerValue(id)
    case None => NotFound
    case Some(n) =>
      if !acceptsJsonOrHtml then NotAcceptable
      else match FussballvereinService.FindById(store, n, None)
        case Failure(_) => NotFound
        case Success(verein) =>
          var tag := VersionTag(verein.version);
          if ifNoneMatch == Some(tag) then NotModified else Ok(tag, verein)
  }

  /** Sending back the ETag of a 200 answer, while the club is unchanged,
      yields 304. */
  lemma ConditionalReadIdempotent(id: string, acceptsJsonOrHtml: bool, ifNoneMatch: Option<string>, store: seq<Fussballverein>)
    requires GetById(id, acceptsJsonOrHtml, ifNoneMatch, store).Ok?
    ensures GetById(id, acceptsJsonOrHtml, Some(GetById(id, acceptsJsonOrHtml, ifNoneMatch, store).etag), store) == NotModified
  {
  }

  /** A tag quoting any other version than the persisted one is answered
      with the full club and the current tag. */
  lemma StaleTagGetsBody(id: string, store: seq<Fussballverein>, stale: nat)
    requires IsIntegerString(id)
    requires FussballvereinService.Lookup(store, IntegerValue(id).value).Some?
    requires stale != FussballvereinService.Lookup(store, IntegerValue(id).value).value.version
    ensures GetById(id, true, Some(VersionTag(stale)), store).Ok?
    ensures GetById(id, true, Some(VersionTag(stale)), store).etag
            == VersionTag(FussballvereinService.Lookup(store, IntegerValue(id).value).value.version)
  {
    VersionTagInjective(stale, FussballvereinService.Lookup(store, IntegerValue(id).value).value.version);
  }

  /** Without `If-None-Match`, or with an unquoted version, the answer is
      never 304. */
  lemma UnquotedNeverNotModified(id: string, acceptsJsonOrHtml: bool, store: seq<Fussballverein>, v: nat)
    ensures StatusCode(GetById(id, acceptsJsonOrHtml, None, store)) != 304
    ensures StatusCode(GetById(id, acceptsJsonOrHtml, Some(NatToString(v)), store)) != 304
  {
    if IsIntegerString(id) && FussballvereinService.Lookup(store, IntegerValue(id).value).Some? {
      var tag := VersionTag(FussballvereinService.Lookup(store, IntegerValue(id).value).value.version);
      assert tag[0] != NatToString(v)[0];
    }
  }

  /** A missing club or a non-integer id ends in 404, never in 200 or 304. */
  lemma MissingClubIsNotFound(id: string, acceptsJsonOrHtml: bool, ifNoneMatch: Option<string>, store: seq<Fussballverein>)
    requires !IsIntegerString(id) || (forall i :: 0 <= i < |store| ==> store[i].id != IntegerValue(id).value)
    requires acceptsJsonOrHtml || !IsIntegerString(id)
    ensures StatusCode(GetById(id, acceptsJsonOrHtml, ifNoneMatch, store)) == 404
  {
  }
}
