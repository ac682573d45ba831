/**
 * The data holders of the gift-certificate core: tags, certificates as the
 * caller submits them, certificate rows as storage keeps them, the typed
 * exceptions of the DAO, repository and service layers, and the values bound
 * to the placeholders of a prepared statement.
 */
module Entities {
  import opened Wrappers

  /** A timestamp; only its identity matters to this core. */
  type Date = int

  /** Java's `int` range. */
  const INT_MIN: int := -0x8000_0000
  const INT_MAX: int := 0x7FFF_FFFF
  type Int32 = x: int | INT_MIN <= x <= INT_MAX

  /** A tag as a value: surrogate id and a possibly-null name. */
  datatype TagState = TagState(id: int, name: Option<string>)

  /**
   * A gift certificate as a value. Every reference-typed field may be null;
   * `tags` is the iteration order of the certificate's tag set, and an
   * element of it may itself be null.
   */
  datatype CertificateState = CertificateState(
    id: int,
    name: Option<string>,
    description: Option<string>,
    price: Option<int>,
    duration: Option<int>,
    createDate: Option<Date>,
    lastUpdateDate: Option<Date>,
    tags: Option<seq<Option<TagState>>>)

  /** One row of the `gift_certificate` table (every column nullable). */
  datatype CertRecord = CertRecord(
    name: Option<string>,
    description: Option<string>,
    price: Option<int>,
    duration: Option<int>,
    createDate: Option<Date>,
    lastUpdateDate: Option<Date>)

  /** A certificate re-read from its row; the tag collection is not populated. */
  function CertificateOf(id: int, r: CertRecord): CertificateState {
    CertificateState(id, r.name, r.description, r.price, r.duration, r.createDate, r.lastUpdateDate, None)
  }

  /** The `Tag` entity: a mutable bean whose id storage assigns in place. */
  class Tag {
    var id: int
    var name: Option<string>

    constructor (id: int, name: Option<string>)
      ensures this.id == id && this.name == name
    {
      this.id := id;
      this.name := name;
    }

    function State(): TagState
      reads this
    {
      TagState(id, name)
    }
  }

  /**
   * The `GiftCertificate` entity: a mutable bean that services stamp and
   * DAOs fill with ids in place. `tags` is the iteration order of its
   * `Set<Tag>`; a null set is `None` and a null element is `null`.
   */
  class GiftCertificate {
    var id: int
    var name: Option<string>
    var description: Option<string>
    var price: Option<int>
    var duration: Option<int>
    var createDate: Option<Date>
    var lastUpdateDate: Option<Date>
    var tags: Option<seq<Tag?>>

    constructor (id: int)
      ensures this.id == id && name.None? && description.None? && price.None? && duration.None?
      ensures createDate.None? && lastUpdateDate.None? && tags.None?
    {
      this.id := id;
      name, description, price, duration := None, None, None, None;
      createDate, lastUpdateDate, tags := None, None, None;
    }

    /** The tag objects the set refers to. */
    function TagObjects(): set<Tag>
      reads this
    {
      if tags.None? then {} else set t: Tag | t in tags.value
    }

    /** The scalar columns this bean would be written with. */
    function Record(): CertRecord
      reads this
    {
      CertRecord(name, description, price, duration, createDate, lastUpdateDate)
    }

    function TagStates(): Option<seq<Option<TagState>>>
      reads this, TagObjects()
    {
      if tags.None? then None else Some(StatesOf(tags.value))
    }

    function State(): CertificateState
      reads this, TagObjects()
    {
      CertificateState(id, name, description, price, duration, createDate, lastUpdateDate, TagStates())
    }
  }

  /** The values of a sequence of possibly-null tags. */
  function StatesOf(ts: seq<Tag?>): (r: seq<Option<TagState>>)
    reads set t: Tag | t in ts
    ensures |r| == |ts|
    ensures forall i :: 0 <= i < |ts| ==> (r[i].None? <==> ts[i] == null)
    ensures forall i :: 0 <= i < |ts| && ts[i] != null ==> r[i] == Some(ts[i].State())
  {
    seq(|ts|, i reads set t: Tag | t in ts requires 0 <= i < |ts| =>
      if ts[i] == null then None else Some(ts[i].State()))
  }

  /** The exceptions this core raises. */
  datatype Error =
    | InvalidSortRequest(pattern: Option<string>)   // InvalidSortRequestException, with or without the pattern text
    | InvalidTagName                                // InvalidTagNameException
    | WrongId(id: int, resourceName: string)        // DaoWrongIdException
    | ServiceWrongTagName                           // ServiceWrongTagNameException
    | UnsupportedOperation                          // DaoUnsupportedOperationException
    | NullPointer                                   // a NullPointerException from dereferencing a null
    | IndexOutOfBounds                              // an ArrayIndexOutOfBoundsException
    | StorageFailure                                // a constraint violation reported by the database
    | DetachedEntity                                // PersistentObjectException: `persist` of a bean whose generated id is already set

  type Outcome<T> = Result<T, Error>

  /** A value bound to one `?` of a prepared statement. */
  datatype SqlArg = NullArg | TextArg(text: string) | IntArg(number: int)

  /** Statement text plus its positional arguments, in binding order. */
  datatype SqlQuery = SqlQuery(text: string, args: seq<SqlArg>)

  /** The resource name carried by every certificate WrongId error. */
  const RESOURCE_NAME: string := "GiftCertificate"
}
