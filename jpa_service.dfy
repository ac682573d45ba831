/**
 * `JpaGiftCertificateServiceImpl`: the service in front of the Hibernate
 * repository. It reads the clock afresh on every call, so "now" is a
 * parameter of each operation.
 */
module JpaService {
  import opened Wrappers
  import opened Entities
  import opened Store
  import opened ServiceRules
  import DaoImpl
  import Repository

  class JpaGiftCertificateServiceImpl {
    const repository: Repository.GiftCertificateRepositoryImpl

    constructor (repository: Repository.GiftCertificateRepositoryImpl)
      ensures this.repository == repository
    {
      this.repository := repository;
    }

    /** `checkTags`: a null set becomes an empty one; a null element or a null name is refused. */
    method CheckTags(certificate: GiftCertificate) returns (r: Outcome<()>)
      modifies certificate
      ensures certificate.tags == Some(old(certificate.tags).GetOr([]))
      ensures certificate.Record() == old(certificate.Record()) && certificate.id == old(certificate.id)
      ensures r == JpaNameCheck(Defaulted(old(certificate.TagStates())))
    {
      if certificate.tags.None? {
        certificate.tags := Some([]);
      }
      var tags := certificate.tags.value;
      if tags != [] {
        if null in tags {
          assert None in StatesOf(tags) by {
            var j :| 0 <= j < |tags| && tags[j] == null;
            assert StatesOf(tags)[j] == None;
          }
          return Failure(ServiceWrongTagName);
        }
        assert None !in StatesOf(tags);
        var nulls := NullNameCount(StatesOf(tags));
        if nulls.value != 0 {
          return Failure(ServiceWrongTagName);
        }
      }
      r := Success(());
    }

    /** The part of `create` before the repository call: the stamps from one clock reading, then `checkTags`. */
    method PrepareCreate(certificate: GiftCertificate, now: Date) returns (r: Outcome<()>)
      modifies certificate
      ensures certificate.Record() == CreateStamped(old(certificate.Record()), now)
      ensures certificate.id == old(certificate.id) && certificate.TagObjects() == old(certificate.TagObjects())
      ensures certificate.tags == Some(old(certificate.tags).GetOr([]))
      ensures certificate.TagStates() == Some(Defaulted(old(certificate.TagStates())))
      ensures r == JpaNameCheck(Defaulted(old(certificate.TagStates())))
    {
      ghost var given := certificate.Record();
      if certificate.createDate.None? {
        certificate.createDate := Some(now);
      }
      if certificate.lastUpdateDate.None? {
        certificate.lastUpdateDate := Some(now);
      }
      assert certificate.Record() == CreateStamped(given, now);
      r := CheckTags(certificate);
    }

    /**
     * `create`: stamp the missing dates, vet the tags, then persist. A
     * vetted set reaches the repository with every tag named, so, with the
     * entity's validation constraints not modelled, the creation then fails
     * only when `persist` meets a bean whose id is already set: the
     * certificate itself, or a tag whose name is not stored yet.
     */
    method Create(certificate: GiftCertificate, now: Date) returns (r: Outcome<GiftCertificate>)
      requires repository.db.Valid()
      modifies certificate, repository.db, certificate.TagObjects()
      ensures repository.db.Valid()
      ensures certificate.Record() == CreateStamped(old(certificate.Record()), now)
      ensures certificate.tags == Some(old(certificate.tags).GetOr([]))
      ensures var ts := Defaulted(old(certificate.TagStates()));
        r.Success? <==>
          JpaNameCheck(ts).Success? && old(certificate.id) == 0 &&
          Repository.OrmLinkable(old(repository.db.tagIds.Keys), Some(ts))
      ensures r.Failure? ==> repository.db.Contents() == old(repository.db.Contents())
      ensures r.Failure? ==>
        r.error == if JpaNameCheck(Defaulted(old(certificate.TagStates()))).Failure? then ServiceWrongTagName else DetachedEntity
      ensures r.Success? ==>
        var ts := Defaulted(old(certificate.TagStates()));
        NameCheck(ts).Success? && r.value == certificate && certificate.id == old(repository.db.nextCertId) &&
        repository.db.Contents() == OrmCreated(old(repository.db.Contents()), CreateStamped(old(certificate.Record()), now), NamesOf(ts))
    {
      ghost var ts := Defaulted(certificate.TagStates());
      ghost var stored := repository.db.tagIds.Keys;
      var checked := PrepareCreate(certificate, now);
      NameChecksAgree(ts);
      if checked.Failure? {
        return Failure(checked.error);
      }
      r := repository.Create(certificate);
      if !Repository.OrmLinkable(stored, Some(ts)) {
        Repository.NamedTagsFailDetached(stored, Some(ts));
      }
    }

    /** The part of `update` before the repository call: the stamp from a fresh clock reading, then `checkTags`. */
    method PrepareUpdate(certificate: GiftCertificate, now: Date) returns (r: Outcome<()>)
      modifies certificate
      ensures certificate.Record() == UpdateStamped(old(certificate.Record()), now)
      ensures certificate.id == old(certificate.id) && certificate.TagObjects() == old(certificate.TagObjects())
      ensures certificate.TagStates() == Some(Defaulted(old(certificate.TagStates())))
      ensures r == JpaNameCheck(Defaulted(old(certificate.TagStates())))
    {
      ghost var given := certificate.Record();
      if certificate.lastUpdateDate.None? {
        certificate.lastUpdateDate := Some(now);
      }
      assert certificate.Record() == UpdateStamped(given, now);
      r := CheckTags(certificate);
    }

    /**
     * `update`: stamp a missing last-update date, vet the tags, then
     * update. The defaulted set is never null, so the repository always
     * replaces the associations, and a request without tags detaches them
     * all. A vetted tag whose name is new and whose id is set is refused by
     * `persist`.
     */
    method Update(certificate: GiftCertificate, now: Date) returns (r: Outcome<CertificateState>)
      requires repository.db.Valid()
      modifies certificate, repository.db, certificate.TagObjects()
      ensures repository.db.Valid()
      ensures certificate.Record() == UpdateStamped(old(certificate.Record()), now)
      ensures var ts := Defaulted(old(certificate.TagStates()));
        r.Success? <==>
          JpaNameCheck(ts).Success? && certificate.id in old(repository.db.certificates) &&
          Repository.OrmLinkable(old(repository.db.tagIds.Keys), Some(ts))
      ensures r.Failure? ==> repository.db.Contents() == old(repository.db.Contents())
      ensures r.Failure? && JpaNameCheck(Defaulted(old(certificate.TagStates()))).Success? ==>
        r.error == if certificate.id in old(repository.db.certificates) then DetachedEntity else WrongId(certificate.id, RESOURCE_NAME)
      ensures r.Failure? && JpaNameCheck(Defaulted(old(certificate.TagStates()))).Failure? ==> r.error == ServiceWrongTagName
      ensures r.Success? ==>
        var ts := Defaulted(old(certificate.TagStates()));
        NameCheck(ts).Success? && certificate.id in old(repository.db.certificates) &&
        repository.db.Contents() ==
          OrmUpdated(old(repository.db.Contents()), certificate.id, UpdateStamped(old(certificate.Record()), now), Some(NamesOf(ts))) &&
        (set l | l in repository.db.links && l.0 == certificate.id) == LinksFor(repository.db.Contents(), certificate.id, NamesOf(ts))
      ensures r.Success? && old(certificate.tags).None? ==>
        forall l :: l in repository.db.links ==> l.0 != certificate.id
    {
      ghost var ts := Defaulted(certificate.TagStates());
      ghost var given := certificate.Record();
      ghost var t0 := repository.db.Contents();
      var checked := PrepareUpdate(certificate, now);
      NameChecksAgree(ts);
      if checked.Failure? {
        return Failure(checked.error);
      }
      r := repository.Update(certificate);
      if !Repository.OrmLinkable(t0.tagIds.Keys, Some(ts)) {
        Repository.NamedTagsFailDetached(t0.tagIds.Keys, Some(ts));
      }
      if r.Success? {
        OrmUpdatedFacts(t0, certificate.id, UpdateStamped(given, now), Some(NamesOf(ts)));
        if ts == [] {
          assert LinksFor(repository.db.Contents(), certificate.id, []) == {};
        }
      }
    }

    /** `updateDuration`: the new last-update date is the clock reading of this call. */
    method UpdateDuration(id: int, duration: Int32, now: Date) returns (r: Outcome<CertificateState>)
      requires repository.db.Valid()
      modifies repository.db
      ensures repository.db.Valid()
      ensures r.Success? <==> id in old(repository.db.certificates)
      ensures r.Failure? ==> r.error == WrongId(id, RESOURCE_NAME) && repository.db.Contents() == old(repository.db.Contents())
      ensures r.Success? ==> repository.db.Contents() == DurationUpdated(old(repository.db.Contents()), id, duration, Some(now))
      ensures r.Success? ==> r.value.duration == Some(duration) && r.value.lastUpdateDate == Some(now)
    {
      r := repository.UpdateDuration(id, duration, Some(now));
    }
  }
}
