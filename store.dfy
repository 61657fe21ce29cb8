/** The three tables the routes read and write, and the lookups the routes
    make in them (`findOne` returns the first matching row, in insertion
    order). */
module Store {
  import opened Records
  import opened Wrappers

  /** A route's error reply: a 404 with its message, or a 500. */
  datatype RouteError = NotFound(message: string) | ServerError

  /** Application ids are unique and no two applications share a profile
      and a university. The table declares no such constraint: the routes
      keep it. */
  ghost predicate Unique(apps: seq<Application>) {
    forall i, j :: 0 <= i < j < |apps| ==>
      apps[i].id != apps[j].id
      && (apps[i].profileId != apps[j].profileId || apps[i].universityId != apps[j].universityId)
  }

  /** In a unique table the pair of a row determines the row. */
  lemma KeyDetermines(apps: seq<Application>, i: nat, j: nat)
    requires Unique(apps) && i < |apps| && j < |apps|
    ensures apps[i].profileId == apps[j].profileId && apps[i].universityId == apps[j].universityId ==> i == j
  {
  }

  /** `Profile.findOne({ where: { userId } })`: the index of the first
      profile of the user. */
  function FindProfile(profiles: seq<Profile>, userId: Id): (r: Option<nat>)
    ensures r.Some? ==> r.value < |profiles| && profiles[r.value].userId == userId
    ensures r.Some? ==> forall k :: 0 <= k < r.value ==> profiles[k].userId != userId
    ensures r.None? ==> forall k :: 0 <= k < |profiles| ==> profiles[k].userId != userId
  {
    if profiles == [] then None
    else if profiles[0].userId == userId then Some(0)
    else match FindProfile(profiles[1..], userId)
      case None => None
      case Some(k) => Some(k + 1)
  }

  /** `Application.findOne({ where: { profileId, universityId } })`. */
  function FindApplication(apps: seq<Application>, profileId: Id, universityId: Id): (r: Option<nat>)
    ensures r.Some? ==> r.value < |apps| && apps[r.value].profileId == profileId && apps[r.value].universityId == universityId
    ensures r.Some? ==> forall k :: 0 <= k < r.value ==> !(apps[k].profileId == profileId && apps[k].universityId == universityId)
    ensures r.None? ==> forall k :: 0 <= k < |apps| ==> !(apps[k].profileId == profileId && apps[k].universityId == universityId)
  {
    if apps == [] then None
    else if apps[0].profileId == profileId && apps[0].universityId == universityId then Some(0)
    else match FindApplication(apps[1..], profileId, universityId)
      case None => None
      case Some(k) => Some(k + 1)
  }

  /** `Application.findOne({ where: { id, profileId } })`. */
  function FindApplicationById(apps: seq<Application>, id: Id, profileId: Id): (r: Option<nat>)
    ensures r.Some? ==> r.value < |apps| && apps[r.value].id == id && apps[r.value].profileId == profileId
    ensures r.None? ==> forall k :: 0 <= k < |apps| ==> !(apps[k].id == id && apps[k].profileId == profileId)
  {
    if apps == [] then None
    else if apps[0].id == id && apps[0].profileId == profileId then Some(0)
    else match FindApplicationById(apps[1..], id, profileId)
      case None => None
      case Some(k) => Some(k + 1)
  }

  /** Some university has the id `universityId`. */
  predicate Names(universities: seq<University>, universityId: Id) {
    exists k :: 0 <= k < |universities| && universities[k].id == universityId
  }

  /** The foreign key of `applications.universityId`: every application
      names a stored university. */
  ghost predicate References(apps: seq<Application>, universities: seq<University>) {
    forall i :: 0 <= i < |apps| ==> Names(universities, apps[i].universityId)
  }

  /** Under the foreign key, a university that does not exist has no
      application, so `findOne` and `findOrCreate` find none for it. */
  lemma UnknownUniversityHasNoRow(apps: seq<Application>, universities: seq<University>, profileId: Id, universityId: Id)
    requires References(apps, universities)
    ensures !Names(universities, universityId) ==> FindApplication(apps, profileId, universityId).None?
  {
  }

  /** No stored application uses `id`: a fresh UUID. */
  predicate FreshId(apps: seq<Application>, id: Id) {
    forall k :: 0 <= k < |apps| ==> apps[k].id != id
  }

  /** The tables, in insertion order. */
  class Database {
    var universities: seq<University>
    var profiles: seq<Profile>
    var applications: seq<Application>

    ghost predicate Valid()
      reads this
    {
      Unique(applications) && References(applications, universities)
    }

    constructor (universities: seq<University>, profiles: seq<Profile>)
      ensures Valid()
      ensures this.universities == universities && this.profiles == profiles && applications == []
    {
      this.universities := universities;
      this.profiles := profiles;
      applications := [];
    }
  }
}
