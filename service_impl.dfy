/**
 * `GiftCertificateServiceImpl`: the request-scoped service in front of the
 * JDBC DAO. "Now" is read once, when the instance is built, and every date
 * it stamps is that one value.
 */
module ServiceImpl {
  import opened Wrappers
  import opened Entities
  import opened Store
  import opened ServiceRules
  import DaoImpl

  class GiftCertificateServiceImpl {
    const currentDateTime: Date
    const dao: DaoImpl.GiftCertificateDaoImpl

    /** `now` is the UTC clock reading taken by the constructor. */
    constructor (dao: DaoImpl.GiftCertificateDaoImpl, now: Date)
      ensures this.dao == dao && currentDateTime == now
    {
      this.dao := dao;
      currentDateTime := now;
    }

    /** `checkTags`: a null set becomes an empty one, then the set is vetted. */
    method CheckTags(certificate: GiftCertificate) returns (r: Outcome<()>)
      modifies certificate
      ensures certificate.tags == Some(old(certificate.tags).GetOr([]))
      ensures certificate.Record() == old(certificate.Record()) && certificate.id == old(certificate.id)
      ensures r == NameCheck(Defaulted(old(certificate.TagStates())))
    {
      if certificate.tags.None? {
        certificate.tags := Some([]);
      }
      var tags := certificate.tags.value;
      if tags != [] {
        var nulls := NullNameCount(StatesOf(tags));
        if nulls.Failure? {
          return Failure(nulls.error);
        }
        if nulls.value != 0 {
          return Failure(ServiceWrongTagName);
        }
      }
      r := Success(());
    }

    /**
     * `create`: stamp the missing dates, vet the tags, then insert. With the
     * tags vetted and both dates stamped, the insert fails only for a
     * missing price or duration.
     */
    method Create(certificate: GiftCertificate) returns (r: Outcome<GiftCertificate>)
      requires dao.db.Valid()
      modifies certificate, dao.db, certificate.TagObjects()
      ensures dao.db.Valid()
      ensures certificate.Record() == CreateStamped(old(certificate.Record()), currentDateTime)
      ensures certificate.tags == Some(old(certificate.tags).GetOr([]))
      ensures var ts := Defaulted(old(certificate.TagStates()));
        NameCheck(ts).Failure? ==> r == Failure(NameCheck(ts).error) && dao.db.Contents() == old(dao.db.Contents())
      ensures var ts := Defaulted(old(certificate.TagStates()));
        r.Success? <==> NameCheck(ts).Success? && old(certificate.price).Some? && old(certificate.duration).Some?
      ensures r.Failure? && NameCheck(Defaulted(old(certificate.TagStates()))).Success? ==>
        r.error == NullPointer && dao.db.Contents() == old(dao.db.Contents())
      ensures r.Success? ==>
        var ts := Defaulted(old(certificate.TagStates()));
        NameCheck(ts).Success? && r.value == certificate && certificate.id == old(dao.db.nextCertId) &&
        dao.db.Contents() == SqlCreated(old(dao.db.Contents()), CreateStamped(old(certificate.Record()), currentDateTime), NamesOf(ts))
    {
      ghost var ts := Defaulted(certificate.TagStates());
      ghost var given := certificate.Record();
      var checked := PrepareCreate(certificate);
      if checked.Failure? {
        return Failure(checked.error);
      }
      NameChecksAgree(ts);
      CreateStampFacts(given, currentDateTime, currentDateTime);
      r := dao.Create(certificate);
    }

    /** The part of `create` before the DAO call: the stamps, then `checkTags`. */
    method PrepareCreate(certificate: GiftCertificate) returns (r: Outcome<()>)
      modifies certificate
      ensures certificate.Record() == CreateStamped(old(certificate.Record()), currentDateTime)
      ensures certificate.id == old(certificate.id) && certificate.TagObjects() == old(certificate.TagObjects())
      ensures certificate.tags == Some(old(certificate.tags).GetOr([]))
      ensures certificate.TagStates() == Some(Defaulted(old(certificate.TagStates())))
      ensures r == NameCheck(Defaulted(old(certificate.TagStates())))
    {
      ghost var given := certificate.Record();
      if certificate.createDate.None? {
        certificate.createDate := Some(currentDateTime);
      }
      if certificate.lastUpdateDate.None? {
        certificate.lastUpdateDate := Some(currentDateTime);
      }
      assert certificate.Record() == CreateStamped(given, currentDateTime);
      r := CheckTags(certificate);
    }

    /**
     * `update`: stamp a missing last-update date, vet the tags, then update.
     * A request without tags reaches the DAO as an empty list, which keeps
     * the certificate's associations.
     */
    method Update(certificate: GiftCertificate) returns (r: Outcome<CertificateState>)
      requires dao.db.Valid()
      modifies certificate, dao.db, certificate.TagObjects()
      ensures dao.db.Valid()
      ensures certificate.Record() == UpdateStamped(old(certificate.Record()), currentDateTime)
      ensures var ts := Defaulted(old(certificate.TagStates()));
        NameCheck(ts).Failure? ==> r == Failure(NameCheck(ts).error) && dao.db.Contents() == old(dao.db.Contents())
      ensures var ts := Defaulted(old(certificate.TagStates()));
        r.Success? <==> NameCheck(ts).Success? && certificate.id in old(dao.db.certificates)
      ensures r.Failure? && NameCheck(Defaulted(old(certificate.TagStates()))).Success? ==>
        r.error == WrongId(certificate.id, RESOURCE_NAME) && dao.db.Contents() == old(dao.db.Contents())
      ensures r.Success? ==>
        var ts := Defaulted(old(certificate.TagStates()));
        var stamped := UpdateStamped(old(certificate.Record()), currentDateTime);
        NameCheck(ts).Success? && certificate.id in old(dao.db.certificates) &&
        dao.db.Contents() == SqlUpdated(old(dao.db.Contents()), certificate.id, stamped, NamesOf(ts)) &&
        r.value == CertificateOf(certificate.id, Coalesce(stamped, old(dao.db.certificates)[certificate.id]))
      ensures r.Success? ==>
        certificate.id in dao.db.certificates &&
        dao.db.certificates[certificate.id].lastUpdateDate == Some(old(certificate.lastUpdateDate).GetOr(currentDateTime))
      ensures r.Success? && Defaulted(old(certificate.TagStates())) == [] ==> dao.db.links == old(dao.db.links)
    {
      ghost var ts := Defaulted(certificate.TagStates());
      ghost var given := certificate.Record();
      ghost var t0 := dao.db.Contents();
      var checked := PrepareUpdate(certificate);
      if checked.Failure? {
        return Failure(checked.error);
      }
      NameChecksAgree(ts);
      r := dao.Update(certificate);
      if r.Success? {
        StampedUpdateStoresDate(given, t0.certificates[certificate.id], currentDateTime);
        SqlUpdatedLinks(t0, certificate.id, UpdateStamped(given, currentDateTime), NamesOf(ts));
      }
    }

    /** The part of `update` before the DAO call: the stamp, then `checkTags`. */
    method PrepareUpdate(certificate: GiftCertificate) returns (r: Outcome<()>)
      modifies certificate
      ensures certificate.Record() == UpdateStamped(old(certificate.Record()), currentDateTime)
      ensures certificate.id == old(certificate.id) && certificate.TagObjects() == old(certificate.TagObjects())
      ensures certificate.TagStates() == Some(Defaulted(old(certificate.TagStates())))
      ensures r == NameCheck(Defaulted(old(certificate.TagStates())))
    {
      ghost var given := certificate.Record();
      if certificate.lastUpdateDate.None? {
        certificate.lastUpdateDate := Some(currentDateTime);
      }
      assert certificate.Record() == UpdateStamped(given, currentDateTime);
      r := CheckTags(certificate);
    }

    /** `updateDuration`: the new last-update date is the instance's "now". */
    method UpdateDuration(id: int, duration: Int32) returns (r: Outcome<CertificateState>)
      requires dao.db.Valid()
      modifies dao.db
      ensures dao.db.Valid()
      ensures r.Success? <==> id in old(dao.db.certificates)
      ensures r.Failure? ==> r.error == WrongId(id, RESOURCE_NAME) && dao.db.Contents() == old(dao.db.Contents())
      ensures r.Success? ==> dao.db.Contents() == DurationUpdated(old(dao.db.Contents()), id, duration, Some(currentDateTime))
      ensures r.Success? ==> r.value.duration == Some(duration) && r.value.lastUpdateDate == Some(currentDateTime)
    {
      r := dao.UpdateDuration(id, duration, Some(currentDateTime));
    }
  }
}
