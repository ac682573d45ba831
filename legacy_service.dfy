/**
 * `GiftCertificateService`: the older request-scoped service in front of
 * the first JDBC DAO. Like its successor it reads "now" once per instance;
 * unlike it, it does not default a null tag set, which is dereferenced.
 */
module LegacyService {
  import opened Wrappers
  import opened Entities
  import opened Store
  import opened ServiceRules
  import DaoImpl
  import LegacyDao

  class GiftCertificateService {
    const currentDateTime: Date
    const dao: LegacyDao.GiftCertificateDao

    constructor (dao: LegacyDao.GiftCertificateDao, now: Date)
      ensures this.dao == dao && currentDateTime == now
    {
      this.dao := dao;
      currentDateTime := now;
    }

    /** `checkTags`: `getTags().isEmpty()` throws on a null set; otherwise the set is vetted as by the newer service. */
    method CheckTags(certificate: GiftCertificate) returns (r: Outcome<()>)
      ensures certificate.tags.None? ==> r == Failure(NullPointer)
      ensures certificate.tags.Some? ==> r == NameCheck(StatesOf(certificate.tags.value))
    {
      if certificate.tags.None? {
        return Failure(NullPointer);
      }
      var tags := certificate.tags.value;
      if tags != [] {
        var nulls := NullNameCount(StatesOf(tags));
        if nulls.Failure? {
          return Failure(nulls.error);
        }
        if nulls.value != 0 {
          return Failure(ServiceWrongTagName);
        }
      }
      r := Success(());
    }

    /** `create`: stamp the missing dates, vet the tags, then insert. */
    method Create(certificate: GiftCertificate) returns (r: Outcome<GiftCertificate>)
      requires dao.statements.db.Valid()
      modifies certificate, dao.statements.db, certificate.TagObjects()
      ensures dao.statements.db.Valid()
      ensures certificate.Record() == CreateStamped(old(certificate.Record()), currentDateTime)
      ensures old(certificate.tags).None? ==> r == Failure(NullPointer) && dao.statements.db.Contents() == old(dao.statements.db.Contents())
      ensures old(certificate.tags).Some? && NameCheck(old(StatesOf(certificate.tags.value))).Failure? ==>
        r == Failure(NameCheck(old(StatesOf(certificate.tags.value))).error) &&
        dao.statements.db.Contents() == old(dao.statements.db.Contents())
      ensures r.Success? <==>
        old(certificate.tags).Some? && NameCheck(old(StatesOf(certificate.tags.value))).Success? &&
        old(certificate.price).Some? && old(certificate.duration).Some?
      ensures r.Success? ==>
        r.value == certificate && certificate.id == old(dao.statements.db.nextCertId) &&
        dao.statements.db.Contents() ==
          SqlCreated(old(dao.statements.db.Contents()), CreateStamped(old(certificate.Record()), currentDateTime),
                     NamesOf(old(StatesOf(certificate.tags.value))))
    {
      ghost var tsOpt := certificate.TagStates();
      ghost var given := certificate.Record();
      var checked := PrepareCreate(certificate);
      if checked.Failure? {
        return Failure(checked.error);
      }
      NameChecksAgree(tsOpt.value);
      CreateStampFacts(given, currentDateTime, currentDateTime);
      r := dao.statements.Create(certificate);
    }

    /** The part of `create` before the DAO call: the stamps, then `checkTags`. */
    method PrepareCreate(certificate: GiftCertificate) returns (r: Outcome<()>)
      modifies certificate
      ensures certificate.Record() == CreateStamped(old(certificate.Record()), currentDateTime)
      ensures certificate.id == old(certificate.id) && certificate.tags == old(certificate.tags)
      ensures certificate.TagStates() == old(certificate.TagStates())
      ensures old(certificate.tags).None? ==> r == Failure(NullPointer)
      ensures old(certificate.tags).Some? ==> r == NameCheck(old(StatesOf(certificate.tags.value)))
    {
      ghost var given := certificate.Record();
      if certificate.createDate.None? {
        certificate.createDate := Some(currentDateTime);
      }
      if certificate.lastUpdateDate.None? {
        certificate.lastUpdateDate := Some(currentDateTime);
      }
      assert certificate.Record() == CreateStamped(given, currentDateTime);
      r := CheckTags(certificate);
    }

    /**
     * `update`: stamp a missing last-update date, vet the tags, then run
     * the DAO's update and its re-read, whose joined rows are `rows`.
     */
    method Update(certificate: GiftCertificate, rows: seq<LegacyDao.Row>) returns (r: Outcome<CertificateState>)
      requires dao.statements.db.Valid()
      modifies certificate, dao.statements.db, certificate.TagObjects()
      ensures dao.statements.db.Valid()
      ensures certificate.Record() == UpdateStamped(old(certificate.Record()), currentDateTime)
      ensures old(certificate.tags).None? ==> r == Failure(NullPointer) && dao.statements.db.Contents() == old(dao.statements.db.Contents())
      ensures old(certificate.tags).Some? && NameCheck(old(StatesOf(certificate.tags.value))).Failure? ==>
        r == Failure(NameCheck(old(StatesOf(certificate.tags.value))).error) &&
        dao.statements.db.Contents() == old(dao.statements.db.Contents())
      ensures r.Success? <==>
        old(certificate.tags).Some? && NameCheck(old(StatesOf(certificate.tags.value))).Success? &&
        certificate.id in old(dao.statements.db.certificates) && rows != []
      ensures r.Failure? ==> dao.statements.db.Contents() == old(dao.statements.db.Contents())
      ensures r.Failure? && old(certificate.tags).Some? && NameCheck(old(StatesOf(certificate.tags.value))).Success? ==>
        r.error == WrongId(certificate.id, RESOURCE_NAME)
      ensures r.Success? ==>
        dao.statements.db.Contents() ==
          SqlUpdated(old(dao.statements.db.Contents()), certificate.id, UpdateStamped(old(certificate.Record()), currentDateTime),
                     NamesOf(old(StatesOf(certificate.tags.value)))) &&
        rows[0].id in LegacyDao.RowIds(rows) && r.value == LegacyDao.Extracted(rows, rows[0].id)
    {
      ghost var tsOpt := certificate.TagStates();
      ghost var given := certificate.Record();
      if certificate.lastUpdateDate.None? {
        certificate.lastUpdateDate := Some(currentDateTime);
      }
      assert certificate.Record() == UpdateStamped(given, currentDateTime);
      var checked := CheckTags(certificate);
      if checked.Failure? {
        return Failure(checked.error);
      }
      NameChecksAgree(tsOpt.value);
      r := dao.Update(certificate, rows);
    }
  }
}
