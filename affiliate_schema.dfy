/**
 * The stored `Affiliate` document: its fields, the per-path validators the schema
 * declares (required, enum, min), the `fullName` virtual and the invariant of a
 * collection whose `_id` and `dni` indexes are unique.
 */
module AffiliateSchema {
  import opened Wrappers
  import opened Calendar

  /** `GENDER_VALUES`, the enumeration accepted for `gender`. */
  const GenderValues: set<string> := {"M", "F"}

  /**
   * A stored document. `id` is its `_id`, the ObjectId given to it when it is built; it
   * is a number here, larger than every `_id` handed out before it. `age` and
   * `usdAnnualFee` default to null (`None`) until set. `gender` is kept as the text the
   * caller sent, so that the enum check is the schema's.
   */
  datatype Affiliate = Affiliate(
    id: nat,
    firstName: string,
    lastName: string,
    phoneNumber: string,
    dni: string,
    gender: string,
    age: Option<int>,
    usdAnnualFee: Option<int>,
    birthDate: Date)

  /** The paths of a document: `_id`, the schema's paths and the `fullName` virtual. */
  datatype Field =
    Id | FirstName | LastName | FullName | PhoneNumber | Dni | Gender | Age | UsdAnnualFee | BirthDate

  /** A value read from one path. */
  datatype Value = Key(key: nat) | Text(text: string) | Number(number: Option<int>) | Day(date: Date)

  /** The `fullName` virtual, computed on every read and never stored. */
  function FullNameOf(a: Affiliate): (s: string)
    ensures |s| == |a.firstName| + 1 + |a.lastName|
    ensures s[..|a.firstName|] == a.firstName && s[|a.firstName|] == ' '
    ensures s[|a.firstName| + 1..] == a.lastName
  {
    a.firstName + " " + a.lastName
  }

  /** Index of the first space of `s`, or `|s|` when there is none. */
  function FirstSpace(s: string): (i: nat)
    ensures i <= |s|
    ensures forall k :: 0 <= k < i ==> s[k] != ' '
    ensures i < |s| ==> s[i] == ' '
  {
    if s == [] || s[0] == ' ' then 0 else 1 + FirstSpace(s[1..])
  }

  /** Splits a full name at its first space into first and last name. */
  function SplitFullName(s: string): (string, string) {
    var i := FirstSpace(s);
    if i < |s| then (s[..i], s[i + 1..]) else (s, "")
  }

  /**
   * `fullName` is first name, one space, last name: when the first name has no space
   * of its own, the two parts are recovered from it.
   */
  lemma FullNameRoundTrip(a: Affiliate)
    requires forall k :: 0 <= k < |a.firstName| ==> a.firstName[k] != ' '
    ensures |FullNameOf(a)| == |a.firstName| + 1 + |a.lastName|
    ensures SplitFullName(FullNameOf(a)) == (a.firstName, a.lastName)
  {
    var s := FullNameOf(a);
    assert s[|a.firstName|] == ' ';
    assert forall k :: 0 <= k < |a.firstName| ==> s[k] == a.firstName[k];
    assert FirstSpace(s) == |a.firstName|;
    assert s[..|a.firstName|] == a.firstName;
    assert s[|a.firstName| + 1..] == a.lastName;
  }

  /** The value a read (with virtuals) gives for one path. */
  function FieldValue(a: Affiliate, f: Field): Value {
    match f
    case Id => Key(a.id)
    case FirstName => Text(a.firstName)
    case LastName => Text(a.lastName)
    case FullName => Text(FullNameOf(a))
    case PhoneNumber => Text(a.phoneNumber)
    case Dni => Text(a.dni)
    case Gender => Text(a.gender)
    case Age => Number(a.age)
    case UsdAnnualFee => Number(a.usdAnnualFee)
    case BirthDate => Day(a.birthDate)
  }

  /**
   * A read through an inclusion projection: the listed paths and `_id`, which an
   * inclusion projection returns unless it excludes it explicitly. The set of paths is
   * not empty: an empty projection `{}` is no projection at all and returns the whole
   * document.
   */
  function Project(a: Affiliate, fields: set<Field>): (doc: map<Field, Value>)
    requires fields != {}
    ensures doc.Keys == fields + {Id}
    ensures forall f :: f in doc ==> doc[f] == FieldValue(a, f)
  {
    map f | f in fields + {Id} :: FieldValue(a, f)
  }

  /**
   * The validator of one path: `required` strings must be non-empty, `gender` must be
   * one of `GenderValues`, `birthDate` must be a calendar date, and `age` and
   * `usdAnnualFee` are null or at least 0. `_id` and the virtual have no validator.
   */
  predicate PathValid(a: Affiliate, f: Field) {
    match f
    case Id => true
    case FirstName => a.firstName != ""
    case LastName => a.lastName != ""
    case FullName => true
    case PhoneNumber => a.phoneNumber != ""
    case Dni => a.dni != ""
    case Gender => a.gender in GenderValues
    case Age => a.age.None? || a.age.value >= 0
    case UsdAnnualFee => a.usdAnnualFee.None? || a.usdAnnualFee.value >= 0
    case BirthDate => ValidDate(a.birthDate)
  }

  const AllFields: set<Field> :=
    {Id, FirstName, LastName, FullName, PhoneNumber, Dni, Gender, Age, UsdAnnualFee, BirthDate}

  /** The paths a validation error would report for this document. */
  function FailingPaths(a: Affiliate): (paths: set<Field>)
    ensures paths <= AllFields - {Id, FullName}
    ensures forall f :: f in paths <==> !PathValid(a, f)
  {
    set f | f in AllFields && !PathValid(a, f)
  }

  predicate SchemaValid(a: Affiliate) {
    FailingPaths(a) == {}
  }

  /** What the schema demands of a document, field by field. */
  lemma SchemaValidMeans(a: Affiliate)
    ensures SchemaValid(a) <==>
      a.firstName != "" && a.lastName != "" && a.phoneNumber != "" && a.dni != ""
      && (a.gender == "M" || a.gender == "F") && ValidDate(a.birthDate)
      && (a.age.None? || a.age.value >= 0)
      && (a.usdAnnualFee.None? || a.usdAnnualFee.value >= 0)
  {
    if !SchemaValid(a) {
      var f :| f in FailingPaths(a);
    } else {
      forall f | f in AllFields ensures PathValid(a, f) {
        assert f !in FailingPaths(a);
      }
    }
  }

  /** A document already in `records` has this `_id`. */
  predicate IdTaken(records: seq<Affiliate>, id: nat) {
    exists i :: 0 <= i < |records| && records[i].id == id
  }

  predicate UniqueIds(records: seq<Affiliate>) {
    forall i, j :: 0 <= i < j < |records| ==> records[i].id != records[j].id
  }

  /** A document already in `records` has this `dni`. */
  predicate DniTaken(records: seq<Affiliate>, dni: string) {
    exists i :: 0 <= i < |records| && records[i].dni == dni
  }

  predicate UniqueDni(records: seq<Affiliate>) {
    forall i, j :: 0 <= i < j < |records| ==> records[i].dni != records[j].dni
  }

  /** What the collection guarantees of its documents. */
  predicate StoreInvariant(records: seq<Affiliate>) {
    UniqueIds(records) && UniqueDni(records) && forall i :: 0 <= i < |records| ==> SchemaValid(records[i])
  }
}
