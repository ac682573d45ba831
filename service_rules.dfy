/**
 * What the three gift-certificate services do to a certificate before they
 * hand it on: default its dates to "now" and vet its tag set. The services
 * differ only in where "now" comes from, whether a null set is defaulted
 * and how a null element is refused; the pieces they share live here.
 */
module ServiceRules {
  import opened Wrappers
  import opened Entities
  import opened Store
  import DaoImpl

  /** `create`'s defaults: a missing creation date and a missing last-update date each become `now`. */
  function CreateStamped(r: CertRecord, now: Date): CertRecord {
    r.(createDate := Some(r.createDate.GetOr(now)), lastUpdateDate := Some(r.lastUpdateDate.GetOr(now)))
  }

  /** `update`'s default: only a missing last-update date becomes `now`. */
  function UpdateStamped(r: CertRecord, now: Date): CertRecord {
    r.(lastUpdateDate := Some(r.lastUpdateDate.GetOr(now)))
  }

  /**
   * After `create`'s stamping both dates are present; a supplied date is
   * kept and a missing one is `now`; nothing else changes; stamping again,
   * at any later moment, changes nothing; and the JDBC insert's non-null
   * columns then need only the price and the duration.
   */
  lemma CreateStampFacts(r: CertRecord, now: Date, later: Date)
    ensures var s := CreateStamped(r, now);
      && s.createDate == (if r.createDate.Some? then r.createDate else Some(now))
      && s.lastUpdateDate == (if r.lastUpdateDate.Some? then r.lastUpdateDate else Some(now))
      && s.name == r.name && s.description == r.description && s.price == r.price && s.duration == r.duration
      && CreateStamped(s, later) == s
      && (DaoImpl.Insertable(s) <==> r.price.Some? && r.duration.Some?)
  {
  }

  /** `update`'s stamping never touches the creation date, always leaves a last-update date, and is idempotent. */
  lemma UpdateStampFacts(r: CertRecord, now: Date, later: Date)
    ensures var s := UpdateStamped(r, now);
      && s.createDate == r.createDate
      && s.lastUpdateDate == (if r.lastUpdateDate.Some? then r.lastUpdateDate else Some(now))
      && s.(lastUpdateDate := r.lastUpdateDate) == r
      && UpdateStamped(s, later) == s
  {
  }

  /** Either update, fed a stamped record, stores the last-update date the service chose. */
  lemma StampedUpdateStoresDate(r: CertRecord, stored: CertRecord, now: Date)
    ensures Coalesce(UpdateStamped(r, now), stored).lastUpdateDate == Some(r.lastUpdateDate.GetOr(now))
    ensures OrmMerge(UpdateStamped(r, now), stored).lastUpdateDate == Some(r.lastUpdateDate.GetOr(now))
    ensures Coalesce(UpdateStamped(r, now), stored).createDate == Coalesce(r, stored).createDate
  {
  }

  /** A null tag set is treated as an empty one. */
  function Defaulted(ts: Option<seq<Option<TagState>>>): seq<Option<TagState>> {
    ts.GetOr([])
  }

  /**
   * `tags.stream().map(Tag::getName).filter(Objects::isNull).count()`:
   * the number of tags without a name; reading the name of a null element
   * throws.
   */
  function NullNameCount(ts: seq<Option<TagState>>): (r: Outcome<nat>)
    ensures r.Success? <==> forall j :: 0 <= j < |ts| ==> ts[j].Some?
    ensures r.Failure? ==> r.error == NullPointer
    ensures r.Success? ==> r.value <= |ts| && (r.value == 0 <==> forall j :: 0 <= j < |ts| ==> ts[j].value.name.Some?)
    decreases |ts|
  {
    if ts == [] then Success(0)
    else if ts[0].None? then Failure(NullPointer)
    else
      var rest := NullNameCount(ts[1..]);
      assert forall j :: 1 <= j < |ts| ==> ts[j] == ts[1..][j - 1];
      if rest.Failure? then rest
      else Success(rest.value + if ts[0].value.name.None? then 1 else 0)
  }

  /** `checkTags` of the two JDBC services on a non-null set: an empty set passes; a null element throws; a null name is refused. */
  function NameCheck(ts: seq<Option<TagState>>): Outcome<()> {
    if ts == [] then Success(())
    else
      var nulls := NullNameCount(ts);
      if nulls.Failure? then Failure(nulls.error)
      else if nulls.value != 0 then Failure(ServiceWrongTagName)
      else Success(())
  }

  /** The JPA service's `checkTags`: `tags.contains(null)` is asked first, so a null element is refused as a wrong name too. */
  function JpaNameCheck(ts: seq<Option<TagState>>): Outcome<()> {
    if ts == [] then Success(())
    else if None in ts then Failure(ServiceWrongTagName)
    else
      var nulls := NullNameCount(ts);
      if nulls.Failure? || nulls.value != 0 then Failure(ServiceWrongTagName)
      else Success(())
  }

  /**
   * Both checks pass exactly the sets whose every element is a tag with a
   * name, which are the sets both DAOs' association loops get through. The
   * JDBC check throws `NullPointerException` exactly when an element is
   * null; the JPA check refuses every bad set with the service's own
   * exception.
   */
  lemma {:induction false} NameChecksAgree(ts: seq<Option<TagState>>)
    ensures NameCheck(ts).Success? <==> forall j :: 0 <= j < |ts| ==> Nameable(ts[j])
    ensures JpaNameCheck(ts).Success? <==> NameCheck(ts).Success?
    ensures NameCheck(ts).Failure? ==>
      (NameCheck(ts).error == NullPointer <==> exists j :: 0 <= j < |ts| && ts[j].None?) &&
      (NameCheck(ts).error != NullPointer ==> NameCheck(ts).error == ServiceWrongTagName)
    ensures JpaNameCheck(ts).Failure? ==> JpaNameCheck(ts).error == ServiceWrongTagName
    ensures NameCheck(ts).Success? ==> DaoImpl.Linkable(Some(ts))
  {
    var nulls := NullNameCount(ts);
    if ts != [] && None in ts {
      var j :| 0 <= j < |ts| && ts[j] == None;
      assert ts[j].None?;
    }
    if forall j :: 0 <= j < |ts| ==> Nameable(ts[j]) {
      DaoImpl.PrefixOfGood(ts, |ts|);
    } else {
      var j :| 0 <= j < |ts| && !Nameable(ts[j]);
      if ts[j].Some? {
        assert nulls.Failure? || nulls.value != 0;
      }
    }
  }

  /** An empty name is not a null name: only `null` is filtered. An instance of `NameChecksAgree`. */
  lemma EmptyNamePasses(id: int)
    ensures NameCheck([Some(TagState(id, Some("")))]) == Success(())
    ensures JpaNameCheck([Some(TagState(id, Some("")))]) == Success(())
  {
    assert NullNameCount([Some(TagState(id, Some("")))][1..]) == Success(0);
  }
}
