/** The GraphQL mutations (src/fussballverein/resolver/mutation.ts): the
    mapping of the input to the store's create and update records, the
    version token handed to the write service, and the three payloads.

    The write service is a parameter: its version check, version increment
    and name-uniqueness check are not part of this model. */
module MutationResolver {
  import opened Wrappers
  import opened Text

  /** The input fields the resolver reads. They are the fields of the book
      catalogue the resolver was derived from (isbn, titel, abbildungen, ...),
      not those of `FussballvereinDto`. `preis` and `rabatt` are decimals in
      the source and integers here. */
  datatype TitelInput = TitelInput(titel: string, untertitel: Option<string>)

  datatype AbbildungInput = AbbildungInput(beschriftung: string, contentType: string)

  datatype MutationDto = MutationDto(
    isbn: string,
    rating: int,
    art: Option<string>,
    preis: int,
    rabatt: Option<int>,
    lieferbar: Option<bool>,
    datum: Option<string>,
    homepage: Option<string>,
    schlagwoerter: Option<seq<string>>,
    titel: TitelInput,
    abbildungen: Option<seq<AbbildungInput>>)

  /** The update input: the create fields plus the id as a string and the
      version the client last read. */
  datatype UpdateDto = UpdateDto(input: MutationDto, id: string, version: int)

  datatype Titel = Titel(titel: string, untertitel: Option<string>)

  datatype Abbildung = Abbildung(beschriftung: string, contentType: string)

  /** The record handed to the write service's `create`. */
  datatype CreateData = CreateData(
    version: int,
    isbn: string,
    rating: int,
    art: Option<string>,
    preis: int,
    rabatt: int,
    lieferbar: bool,
    datum: Option<string>,
    homepage: Option<string>,
    schlagwoerter: seq<string>,
    titel: Titel,
    abbildungen: seq<Abbildung>)

  /** The record handed to the write service's `update`: it has no id, no
      version, no title and no images. */
  datatype UpdateData = UpdateData(
    isbn: string,
    rating: int,
    art: Option<string>,
    preis: int,
    rabatt: int,
    lieferbar: bool,
    datum: Option<string>,
    homepage: Option<string>,
    schlagwoerter: seq<string>)

  /** The arguments of the write service's `update`; `id` is `None` when
      `parseInt` yields NaN. */
  datatype UpdateCall = UpdateCall(id: Option<int>, data: UpdateData, version: string)

  datatype CreatePayload = CreatePayload(id: int)

  datatype UpdatePayload = UpdatePayload(version: int)

  datatype DeletePayload = DeletePayload(success: bool)

  /** The class-validator rules of the update input: `@IsNumberString()`
      on `id`, `@IsInt() @Min(0)` on `version`. */
  predicate ValidUpdateDto(dto: UpdateDto) {
    IsNumberString(dto.id) && dto.version >= 0
  }

  /** The image inputs as create records, element by element. */
  function ToAbbildungen(inputs: Option<seq<AbbildungInput>>): (r: seq<Abbildung>)
    ensures inputs.None? ==> r == []
    ensures inputs.Some? ==> |r| == |inputs.value|
    ensures inputs.Some? ==> forall i :: 0 <= i < |r| ==>
              r[i].beschriftung == inputs.value[i].beschriftung && r[i].contentType == inputs.value[i].contentType
  {
    match inputs
    case None => []
    case Some(xs) => seq(|xs|, i requires 0 <= i < |xs| => Abbildung(xs[i].beschriftung, xs[i].contentType))
  }

  /** `#fussballvereinDtoTofussballvereinCreate`. */
  function ToCreate(dto: MutationDto): (c: CreateData)
    ensures c.version == 0
    ensures c.isbn == dto.isbn && c.rating == dto.rating && c.preis == dto.preis
    ensures c.art == dto.art && c.datum == dto.datum && c.homepage == dto.homepage
    ensures dto.rabatt.None? ==> c.rabatt == 0
    ensures dto.rabatt.Some? ==> c.rabatt == dto.rabatt.value
    ensures dto.lieferbar.None? ==> !c.lieferbar
    ensures dto.lieferbar.Some? ==> c.lieferbar == dto.lieferbar.value
    ensures dto.schlagwoerter.None? ==> c.schlagwoerter == []
    ensures dto.schlagwoerter.Some? ==> c.schlagwoerter == dto.schlagwoerter.value
    ensures c.titel.titel == dto.titel.titel && c.titel.untertitel == dto.titel.untertitel
    ensures c.abbildungen == ToAbbildungen(dto.abbildungen)
  {
    CreateData(
      0, dto.isbn, dto.rating, dto.art, dto.preis, dto.rabatt.GetOr(0), dto.lieferbar.GetOr(false),
      dto.datum, dto.homepage, dto.schlagwoerter.GetOr([]),
      Titel(dto.titel.titel, dto.titel.untertitel),
      ToAbbildungen(dto.abbildungen))
  }

  /** The fields a create record shares with an update record. */
  function SharedFields(c: CreateData): UpdateData {
    UpdateData(c.isbn, c.rating, c.art, c.preis, c.rabatt, c.lieferbar, c.datum, c.homepage, c.schlagwoerter)
  }

  /** `#fussballvereinUpdateDtoTofussballvereinUpdate`: the same fields and
      defaults as the create mapping, without id and version. */
  function ToUpdate(dto: UpdateDto): (u: UpdateData)
    ensures u == SharedFields(ToCreate(dto.input))
  {
    var d := dto.input;
    UpdateData(d.isbn, d.rating, d.art, d.preis, d.rabatt.GetOr(0), d.lieferbar.GetOr(false),
               d.datum, d.homepage, d.schlagwoerter.GetOr([]))
  }

  /** The arguments `update` passes to the write service: the id parsed in
      base 10, the mapped record, and the version quoted as `"<version>"`. */
  function UpdateCallFor(dto: UpdateDto): (call: UpdateCall)
    ensures call.data == ToUpdate(dto)
    ensures call.id == ParseIntPrefix(dto.id)
    ensures AllDigits(dto.id) && |dto.id| > 0 ==> call.id == Some(ParseDigits(dto.id))
    ensures dto.version >= 0 ==> call.version == VersionTag(dto.version)
  {
    assert AllDigits(dto.id) && |dto.id| > 0 ==> Unsigned(dto.id) == dto.id && LeadingDigits(dto.id) == dto.id;
    UpdateCall(ParseIntPrefix(dto.id), ToUpdate(dto), Quote(IntToString(dto.version)))
  }

  /** The token `update` sends carries exactly the version the client
      gave. */
  lemma UpdateTokenRoundTrip(dto: UpdateDto)
    requires ValidUpdateDto(dto)
    ensures ParseVersionTag(UpdateCallFor(dto).version) == Some(dto.version)
  {
    VersionTagRoundTrip(dto.version);
  }

  /** A valid update id is handed on as a number, except when it starts
      (after its sign) with the decimal point, as `".5"` does: `parseInt`
      gives NaN for it. */
  lemma ValidUpdateIdParses(dto: UpdateDto)
    requires ValidUpdateDto(dto)
    ensures UpdateCallFor(dto).id.None? <==> Unsigned(dto.id)[0] == '.'
  {
    NumberStringParse(dto.id);
  }

  /** `create`: the payload carries the id the write service assigned to
      the mapped record; a failure of the service is passed on. */
  function Create<E>(dto: MutationDto, service: CreateData -> Result<int, E>): (r: Result<CreatePayload, E>)
    ensures r.Success? <==> service(ToCreate(dto)).Success?
    ensures r.Success? ==> r.value.id == service(ToCreate(dto)).value
    ensures r.Failure? ==> r.error == service(ToCreate(dto)).error
  {
    match service(ToCreate(dto))
    case Success(id) => Success(CreatePayload(id))
    case Failure(e) => Failure(e)
  }

  /** `update`: the payload carries exactly the version the write service
      returned; a failure of the service is passed on. */
  function Update<E>(dto: UpdateDto, service: UpdateCall -> Result<int, E>): (r: Result<UpdatePayload, E>)
    ensures r.Success? <==> service(UpdateCallFor(dto)).Success?
    ensures r.Success? ==> r.value.version == service(UpdateCallFor(dto)).value
    ensures r.Failure? ==> r.error == service(UpdateCallFor(dto)).error
  {
    match service(UpdateCallFor(dto))
    case Success(version) => Success(UpdatePayload(version))
    case Failure(e) => Failure(e)
  }

  /** `delete`: `Number(id)` goes to the write service, and the payload
      reports success whenever the service does not fail. */
  function Delete<E>(id: string, service: Option<int> -> Outcome<E>): (r: Result<DeletePayload, E>)
    ensures r.Success? <==> service(NumberValue(id)).Pass?
    ensures r.Success? ==> r.value.success
    ensures r.Failure? ==> r.error == service(NumberValue(id)).error
  {
    match service(NumberValue(id))
    case Pass => Success(DeletePayload(true))
    case Fail(e) => Failure(e)
  }
}
