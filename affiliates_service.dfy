/**
 * `AffiliatesService`: paginated listing over the affiliates collection, and
 * registration, which fills in the derived age and fee before a single save.
 * The collection is an in-memory sequence in insertion order; saving applies the
 * schema's validators and then the unique index on `dni`.
 */
module AffiliatesService {
  import opened Wrappers
  import opened Calendar
  import opened AffiliateSchema
  import opened AffiliatesHelpers

  /** The registration request body. */
  datatype RegisterAffiliateDto = RegisterAffiliateDto(
    firstName: string,
    lastName: string,
    phoneNumber: string,
    dni: string,
    gender: string,
    birthDate: Date)

  /** Why a save was refused: failing validators, or the unique index on a path. */
  datatype SaveError = ValidationError(paths: set<Field>) | DuplicateKey(path: Field)

  datatype SaveResult = Saved(doc: Affiliate) | Rejected(error: SaveError)

  /** The listing response. */
  datatype PaginatedResult = PaginatedResult(
    items: seq<map<Field, Value>>,
    page: int,
    limit: int,
    totalItems: nat,
    hasPrev: bool,
    hasNext: bool)

  function Min(a: int, b: int): int {
    if a <= b then a else b
  }

  /** Documents as a listing returns them: projected, in collection order. */
  function Listed(records: seq<Affiliate>): (docs: seq<map<Field, Value>>)
    ensures |docs| == |records|
    ensures forall i :: 0 <= i < |records| ==> docs[i] == Project(records[i], FindQueryProjection)
  {
    seq(|records|, i requires 0 <= i < |records| => Project(records[i], FindQueryProjection))
  }

  lemma ListedConcat(a: seq<Affiliate>, b: seq<Affiliate>)
    ensures Listed(a + b) == Listed(a) + Listed(b)
  {
    assert forall i :: 0 <= i < |a| + |b| ==> (a + b)[i] == if i < |a| then a[i] else b[i - |a|];
  }

  /** `find({}, findQueryProjection).skip(skip).limit(limit)`. */
  function FetchPage(records: seq<Affiliate>, skip: nat, limit: nat): (docs: seq<map<Field, Value>>)
    ensures |docs| == if skip >= |records| then 0 else Min(limit, |records| - skip)
    ensures forall i :: 0 <= i < |docs| ==> docs[i] == Project(records[skip + i], FindQueryProjection)
  {
    Listed(records[Min(skip, |records|)..Min(skip + limit, |records|)])
  }

  /** `(pageNumber - 1) * pageLimit`: how many documents the page skips. */
  function SkipNumber(pageNumber: int, pageLimit: int): (skip: nat)
    requires pageNumber >= 1 && pageLimit >= 1
    ensures skip + pageLimit == pageNumber * pageLimit
  {
    (pageNumber - 1) * pageLimit
  }

  /**
   * The result `findAll(pageNumber, pageLimit)` builds: the `pageLimit` documents that
   * follow the first `(pageNumber - 1) * pageLimit`, the collection size, and whether
   * pages exist before and after this one.
   */
  function FindAllPage(records: seq<Affiliate>, pageNumber: int, pageLimit: int): (r: PaginatedResult)
    requires pageNumber >= 1 && pageLimit >= 1
    ensures r.page == pageNumber && r.limit == pageLimit && r.totalItems == |records|
    ensures r.items == FetchPage(records, SkipNumber(pageNumber, pageLimit), pageLimit)
    ensures |r.items| <= pageLimit
    ensures r.hasPrev <==> pageNumber > 1
    ensures r.hasNext <==> pageNumber * pageLimit < |records|
  {
    var skipNumber := SkipNumber(pageNumber, pageLimit);
    var items := FetchPage(records, skipNumber, pageLimit);
    PaginatedResult(items, pageNumber, pageLimit, |records|, pageNumber > 1,
                    skipNumber + |items| < |records|)
  }

  /** The worked example: page 2 of 5 over 15 documents has pages on both sides. */
  lemma SecondPageOfThree(records: seq<Affiliate>)
    requires |records| == 15
    ensures FindAllPage(records, 2, 5).hasPrev && FindAllPage(records, 2, 5).hasNext
    ensures |FindAllPage(records, 2, 5).items| == 5
  {
  }

  /** Every page fetched from offset `skip` on, concatenated. */
  function PagesFrom(records: seq<Affiliate>, limit: nat, skip: nat): seq<map<Field, Value>>
    requires limit >= 1
    decreases |records| - skip
  {
    if skip >= |records| then [] else FetchPage(records, skip, limit) + PagesFrom(records, limit, skip + limit)
  }

  lemma {:induction false} PagesFromCover(records: seq<Affiliate>, limit: nat, skip: nat)
    requires limit >= 1 && skip <= |records|
    ensures PagesFrom(records, limit, skip) == Listed(records[skip..])
    decreases |records| - skip
  {
    if skip < |records| {
      if skip + limit <= |records| {
        assert FetchPage(records, skip, limit) == Listed(records[skip..skip + limit]);
        PagesFromCover(records, limit, skip + limit);
        assert records[skip..] == records[skip..skip + limit] + records[skip + limit..];
        ListedConcat(records[skip..skip + limit], records[skip + limit..]);
      } else {
        assert FetchPage(records, skip, limit) == Listed(records[skip..]);
        assert PagesFrom(records, limit, skip + limit) == [];
      }
    }
  }

  /**
   * Reading the listing page after page, from page 1 on, returns every stored
   * document exactly once, in collection order.
   */
  lemma PagesPartitionStore(records: seq<Affiliate>, limit: int)
    requires limit >= 1
    ensures PagesFrom(records, limit, 0) == Listed(records)
    ensures FindAllPage(records, 1, limit).items == FetchPage(records, 0, limit)
  {
    PagesFromCover(records, limit, 0);
    assert records[0..] == records;
  }

  /**
   * What `save()` does with a document: the validators first, then the unique indexes,
   * `_id` (every collection has it) before `dni`. Only a document that passes all three
   * is stored, and it is stored as it was given.
   */
  function SaveOutcome(records: seq<Affiliate>, doc: Affiliate): (r: SaveResult)
    ensures r.Saved? <==> SchemaValid(doc) && !IdTaken(records, doc.id) && !DniTaken(records, doc.dni)
    ensures r.Saved? ==> r.doc == doc
    ensures r.Rejected? && r.error.ValidationError? ==> r.error.paths == FailingPaths(doc) && !SchemaValid(doc)
    ensures r.Rejected? && r.error.DuplicateKey? ==> SchemaValid(doc)
    ensures r == Rejected(DuplicateKey(Id)) <==> SchemaValid(doc) && IdTaken(records, doc.id)
    ensures r == Rejected(DuplicateKey(Dni)) <==> SchemaValid(doc) && !IdTaken(records, doc.id) && DniTaken(records, doc.dni)
  {
    if FailingPaths(doc) != {} then Rejected(ValidationError(FailingPaths(doc)))
    else if IdTaken(records, doc.id) then Rejected(DuplicateKey(Id))
    else if DniTaken(records, doc.dni) then Rejected(DuplicateKey(Dni))
    else Saved(doc)
  }

  /** Storing what `save()` accepts keeps both indexes unique and every document valid. */
  lemma {:induction false} SaveKeepsStoreInvariant(records: seq<Affiliate>, doc: Affiliate)
    requires StoreInvariant(records) && SaveOutcome(records, doc).Saved?
    ensures StoreInvariant(records + [doc])
  {
    var after := records + [doc];
    forall i, j | 0 <= i < j < |after|
      ensures after[i].id != after[j].id && after[i].dni != after[j].dni
    {
      if j == |records| {
        assert after[i] == records[i];
      }
    }
  }

  /**
   * The document `create` saves: the request fields under the `_id` it was given, plus
   * the age derived from the birth date and the fee of that age.
   */
  function Registered(dto: RegisterAffiliateDto, now: Date, id: nat): (a: Affiliate)
    ensures a.id == id && a.birthDate == dto.birthDate && a.dni == dto.dni
    ensures a.firstName == dto.firstName && a.lastName == dto.lastName
    ensures a.phoneNumber == dto.phoneNumber && a.gender == dto.gender
    ensures a.age == Some(AgeFromBornDate(dto.birthDate, now))
    ensures FeeMatchesAge(a)
  {
    var age := AgeFromBornDate(dto.birthDate, now);
    Affiliate(id, dto.firstName, dto.lastName, dto.phoneNumber, dto.dni, dto.gender,
              Some(age), Some(CalculateUsdAnnualFee(age)), dto.birthDate)
  }

  /** The stored fee is the fee of the stored age. */
  predicate FeeMatchesAge(a: Affiliate) {
    a.age.Some? && a.usdAnnualFee == Some(CalculateUsdAnnualFee(a.age.value))
  }

  predicate AllFeesMatchAges(records: seq<Affiliate>) {
    forall i :: 0 <= i < |records| ==> FeeMatchesAge(records[i])
  }

  /**
   * A registration is stored exactly when the request's required text fields are
   * non-empty, the gender is M or F, the birth date is a calendar date less than a
   * year after `now` (so that the age is not negative) and the dni is not yet taken
   * (its `_id` being a fresh one).
   */
  lemma CreateSucceedsIff(records: seq<Affiliate>, dto: RegisterAffiliateDto, now: Date, id: nat)
    requires !IdTaken(records, id)
    ensures SaveOutcome(records, Registered(dto, now, id)).Saved? <==>
      dto.firstName != "" && dto.lastName != "" && dto.phoneNumber != "" && dto.dni != ""
      && (dto.gender == "M" || dto.gender == "F") && ValidDate(dto.birthDate)
      && !OnOrBefore(AddYears(now, 1), dto.birthDate)
      && !DniTaken(records, dto.dni)
  {
    var doc := Registered(dto, now, id);
    SchemaValidMeans(doc);
    if ValidDate(dto.birthDate) {
      NegativeAgeIff(dto.birthDate, now);
    }
  }

  /** A valid request whose dni is taken fails on the unique index, not on validation. */
  lemma DuplicateDniRejected(records: seq<Affiliate>, dto: RegisterAffiliateDto, now: Date, id: nat, i: int)
    requires SchemaValid(Registered(dto, now, id)) && !IdTaken(records, id)
    requires 0 <= i < |records| && records[i].dni == dto.dni
    ensures SaveOutcome(records, Registered(dto, now, id)) == Rejected(DuplicateKey(Dni))
  {
  }

  /** The example registration: born 1975-10-06, registered 2025-10-06. */
  lemma RegistrationExample()
    ensures var dto := RegisterAffiliateDto("Juan", "Pérez", "+584120000000", "12345678", "M",
                                            Date(1975, 10, 6));
            var doc := Registered(dto, Date(2025, 10, 6), 0);
            SaveOutcome([], doc) == Saved(doc)
            && doc.age == Some(50) && doc.usdAnnualFee == Some(15)
            && FullNameOf(doc) == "Juan Pérez"
  {
    var dto := RegisterAffiliateDto("Juan", "Pérez", "+584120000000", "12345678", "M",
                                    Date(1975, 10, 6));
    SchemaValidMeans(Registered(dto, Date(2025, 10, 6), 0));
  }

  class AffiliatesService {
    /** `PAGINATE_DEFAULT_LIMIT`. */
    const defaultLimit: int
    /** The affiliates collection, in insertion order. */
    var records: seq<Affiliate>
    /** The next `_id` to hand out; every stored `_id` is below it. */
    var nextId: nat
    /** Number of `save()` calls issued so far. */
    ghost var saves: nat

    ghost predicate Valid()
      reads this
    {
      defaultLimit >= 1 && StoreInvariant(records)
      && forall i :: 0 <= i < |records| ==> records[i].id < nextId
    }

    constructor (defaultLimit: int)
      requires defaultLimit >= 1
      ensures Valid() && this.defaultLimit == defaultLimit
      ensures records == [] && saves == 0
    {
      this.defaultLimit := defaultLimit;
      records := [];
      nextId := 0;
      saves := 0;
    }

    /**
     * `document.save()`: the one write to the collection, of a document built here (so
     * its `_id` has been handed out).
     */
    method Save(doc: Affiliate) returns (r: SaveResult)
      requires Valid() && doc.id < nextId
      modifies this
      ensures Valid()
      ensures saves == old(saves) + 1 && nextId == old(nextId)
      ensures r == SaveOutcome(old(records), doc)
      ensures records == if r.Saved? then old(records) + [doc] else old(records)
    {
      saves := saves + 1;
      r := SaveOutcome(records, doc);
      if r.Saved? {
        SaveKeepsStoreInvariant(records, doc);
        records := records + [doc];
      }
    }

    /**
     * `create(dto)`: builds the document from the request (which gives it a fresh
     * `_id`), sets its age (at the instant `now`) and fee, and saves it once, returning
     * what was saved. The `_id` index never refuses it: it is stored exactly when the
     * request is valid, the age is not negative and the dni is free.
     */
    method Create(dto: RegisterAffiliateDto, now: Date) returns (r: SaveResult)
      requires Valid()
      modifies this
      ensures Valid()
      ensures saves == old(saves) + 1 && nextId == old(nextId) + 1
      ensures !IdTaken(old(records), old(nextId))
      ensures r == SaveOutcome(old(records), Registered(dto, now, old(nextId)))
      ensures r.Saved? <==>
        dto.firstName != "" && dto.lastName != "" && dto.phoneNumber != "" && dto.dni != ""
        && (dto.gender == "M" || dto.gender == "F") && ValidDate(dto.birthDate)
        && !OnOrBefore(AddYears(now, 1), dto.birthDate)
        && !DniTaken(old(records), dto.dni)
      ensures r != Rejected(DuplicateKey(Id))
      ensures r.Saved? ==> FeeMatchesAge(r.doc) && records == old(records) + [r.doc]
      ensures r.Rejected? ==> records == old(records)
      ensures AllFeesMatchAges(old(records)) ==> AllFeesMatchAges(records)
    {
      var affiliateInstance := Affiliate(nextId, dto.firstName, dto.lastName, dto.phoneNumber, dto.dni,
                                         dto.gender, None, None, dto.birthDate);
      nextId := nextId + 1;
      var affiliateAge := AgeFromBornDate(affiliateInstance.birthDate, now);
      var affiliateUsdAnnualFee := CalculateUsdAnnualFee(affiliateAge);
      affiliateInstance := affiliateInstance.(age := Some(affiliateAge));
      affiliateInstance := affiliateInstance.(usdAnnualFee := Some(affiliateUsdAnnualFee));
      assert affiliateInstance == Registered(dto, now, old(nextId));
      CreateSucceedsIff(records, dto, now, old(nextId));
      r := Save(affiliateInstance);
    }

    /**
     * `findAll(pageNumber?, pageLimit?)`: page 1 and `PAGINATE_DEFAULT_LIMIT` when the
     * arguments are omitted; the count and the page are read from the same collection.
     */
    method FindAll(pageNumber: Option<int>, pageLimit: Option<int>) returns (r: PaginatedResult)
      requires pageNumber.GetOr(1) >= 1 && pageLimit.GetOr(defaultLimit) >= 1
      ensures r == FindAllPage(records, pageNumber.GetOr(1), pageLimit.GetOr(defaultLimit))
    {
      var page := pageNumber.GetOr(1);
      var limit := pageLimit.GetOr(defaultLimit);
      r := FindAllPage(records, page, limit);
    }
  }
}
