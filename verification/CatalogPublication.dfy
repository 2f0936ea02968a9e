/** Publishing a catalog version (services/catalog/repository.py): two updates in order. */
module CatalogPublication {

  datatype Status = Draft | Validating | Published | Superseded | Other(text: string)

  datatype Version = Version(merchantId: string, status: Status, publishedAt: int,
                             productCount: nat, validCount: nat, needsReviewCount: nat)

  type Versions = map<string, Version>

  predicate Promotable(s: Status) {
    s.Draft? || s.Validating? || s.Superseded?
  }

  predicate Displaced(v: Version, id: string, merchantId: string, target: string) {
    v.merchantId == merchantId && v.status == Published && id != target
  }

  /** First update: every other published version of the merchant. */
  function SupersedeOthers(versions: Versions, merchantId: string, target: string): Versions {
    map id | id in versions ::
      if Displaced(versions[id], id, merchantId, target) then versions[id].(status := Superseded)
      else versions[id]
  }

  predicate CanPromote(versions: Versions, merchantId: string, target: string) {
    target in versions && versions[target].merchantId == merchantId && Promotable(versions[target].status)
  }

  predicate IsPublished(versions: Versions, merchantId: string, id: string) {
    id in versions && versions[id].merchantId == merchantId && versions[id].status == Published
  }

  function Promoted(versions: Versions, merchantId: string, target: string, now: int): Versions {
    if CanPromote(versions, merchantId, target)
    then versions[target := versions[target].(status := Published, publishedAt := now)] else versions
  }

  function AfterPublish(versions: Versions, merchantId: string, target: string, now: int): Versions {
    Promoted(SupersedeOthers(versions, merchantId, target), merchantId, target, now)
  }

  class CatalogVersionTable {
    var versions: Versions

    constructor (versions: Versions)
      ensures this.versions == versions
    {
      this.versions := versions;
    }

    method AtomicPublish(merchantId: string, target: string, now: int) returns (published: bool)
      modifies this
      ensures versions == AfterPublish(old(versions), merchantId, target, now)
      ensures published <==> IsPublished(versions, merchantId, target)
    {
      var ids := versions.Keys;
      while ids != {}
        invariant ids <= old(versions).Keys == versions.Keys
        invariant forall id :: id in versions ==>
                    versions[id] == if id in ids then old(versions)[id]
                                    else SupersedeOthers(old(versions), merchantId, target)[id]
      {
        var id :| id in ids;
        if Displaced(versions[id], id, merchantId, target) {
          versions := versions[id := versions[id].(status := Superseded)];
        }
        ids := ids - {id};
      }
      assert versions == SupersedeOthers(old(versions), merchantId, target);
      if CanPromote(versions, merchantId, target) {
        versions := versions[target := versions[target].(status := Published, publishedAt := now)];
        return true;
      }
      return IsPublished(versions, merchantId, target);
    }
  }

  /** No merchant has two published versions. */
  ghost predicate OnePublished(versions: Versions) {
    forall a, b, m :: IsPublished(versions, m, a) && IsPublished(versions, m, b) ==> a == b
  }

  /** What becomes of each version. */
  lemma PublishIs(versions: Versions, merchantId: string, target: string, now: int, id: string)
    ensures AfterPublish(versions, merchantId, target, now).Keys == versions.Keys
    ensures id in versions ==>
              var (was, left) := (versions[id], AfterPublish(versions, merchantId, target, now)[id]);
              if was.merchantId != merchantId then left == was
              else if id == target then
                left == if was.status == Draft || was.status == Validating || was.status == Superseded
                        then was.(status := Published, publishedAt := now) else was
              else left == if was.status == Published then was.(status := Superseded) else was
  {}

  /** Only the target can be published for its merchant afterwards. */
  lemma OnlyTarget(versions: Versions, merchantId: string, target: string, now: int, id: string)
    requires IsPublished(AfterPublish(versions, merchantId, target, now), merchantId, id)
    ensures id == target
  {}

  /** The call answers whether the target is published; if not, nothing of the merchant is. */
  lemma FalseMeansNothingPublished(versions: Versions, merchantId: string, target: string, now: int)
    ensures var after := AfterPublish(versions, merchantId, target, now);
            IsPublished(after, merchantId, target) <==>
            exists id :: IsPublished(after, merchantId, id)
  {}

  /** When the answer is yes: exactly for an own version that is published or can be. */
  lemma PublishesIff(versions: Versions, merchantId: string, target: string, now: int)
    ensures IsPublished(AfterPublish(versions, merchantId, target, now), merchantId, target) <==>
            CanPromote(versions, merchantId, target) || IsPublished(versions, merchantId, target)
  {}

  /** An unknown target is refused, and still takes the merchant's catalog offline. */
  lemma UnknownTargetUnpublishes(versions: Versions, merchantId: string, target: string, now: int, id: string)
    requires target !in versions && IsPublished(versions, merchantId, id)
    ensures var after := AfterPublish(versions, merchantId, target, now);
            && !IsPublished(after, merchantId, target)
            && after[id].status == Superseded
  {}

  /** Versions of other merchants are not touched. */
  lemma OtherMerchantsKeepTheirs(versions: Versions, merchantId: string, target: string, now: int, id: string)
    requires id in versions && versions[id].merchantId != merchantId
    ensures var after := AfterPublish(versions, merchantId, target, now);
            id in after && after[id] == versions[id]
  {}

  lemma PublishKeepsOne(versions: Versions, merchantId: string, target: string, now: int)
    requires OnePublished(versions)
    ensures OnePublished(AfterPublish(versions, merchantId, target, now))
  {
    var after := AfterPublish(versions, merchantId, target, now);
    forall a, b, m | IsPublished(after, m, a) && IsPublished(after, m, b)
      ensures a == b
    {
      if m == merchantId {
        OnlyTarget(versions, merchantId, target, now, a);
        OnlyTarget(versions, merchantId, target, now, b);
      } else {
        assert IsPublished(versions, m, a) && IsPublished(versions, m, b);
      }
    }
  }

  /** Publishing the published version again changes nothing at all. */
  lemma RepublishChangesNothing(versions: Versions, merchantId: string, target: string, now: int)
    requires OnePublished(versions) && IsPublished(versions, merchantId, target)
    ensures AfterPublish(versions, merchantId, target, now) == versions
  {
    forall id | id in versions ensures !Displaced(versions[id], id, merchantId, target) {
      if Displaced(versions[id], id, merchantId, target) {
        assert IsPublished(versions, merchantId, id);
      }
    }
  }

  datatype Publish = Publish(merchantId: string, target: string, now: int)

  function Run(versions: Versions, calls: seq<Publish>): Versions {
    if calls == [] then versions
    else
      var last := calls[|calls| - 1];
      AfterPublish(Run(versions, calls[..|calls| - 1]), last.merchantId, last.target, last.now)
  }

  /** Any sequence of calls keeps at most one published version, and leaves other merchants alone. */
  lemma {:induction false} RunKeepsOne(versions: Versions, calls: seq<Publish>, merchantId: string)
    requires OnePublished(versions)
    ensures OnePublished(Run(versions, calls))
    ensures (forall c :: c in calls ==> c.merchantId != merchantId) ==>
              forall id :: id in versions && versions[id].merchantId == merchantId ==>
                id in Run(versions, calls) && Run(versions, calls)[id] == versions[id]
    decreases |calls|
  {
    hide OnePublished, AfterPublish;
    if calls != [] {
      var init, last := calls[..|calls| - 1], calls[|calls| - 1];
      assert last in calls && forall c :: c in init ==> c in calls;
      RunKeepsOne(versions, init, merchantId);
      PublishKeepsOne(Run(versions, init), last.merchantId, last.target, last.now);
      forall id | id in Run(versions, init) && Run(versions, init)[id].merchantId != last.merchantId
        ensures id in Run(versions, calls) && Run(versions, calls)[id] == Run(versions, init)[id]
      {
        OtherMerchantsKeepTheirs(Run(versions, init), last.merchantId, last.target, last.now, id);
      }
    }
  }
}
