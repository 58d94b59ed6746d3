/** The user embed record and how the official API's and ScratchDB's user
    records are merged into it. The API merge writes the profile fields
    and ScratchDB's the status, school and statistics: the two write
    disjoint fields, so their order does not matter. */
module UserEmbed {
  import opened Wrappers
  import opened ScratchData
  import opened Embeds

  /** The fields of a `User` embed record at one moment. */
  datatype UserFields = UserFields(
    username: Option<string>,
    image: Option<string>,
    joined: Option<int>,
    country: Option<string>,
    about: Option<string>,
    work: Option<string>,
    status: Option<Status>,
    school: Option<int>,
    statistics: Option<UserStatistics>)

  /** `User::new()`: every field absent. */
  const NoFields := UserFields(None, None, None, None, None, None, None, None, None)

  /** `extend` with an API user: the username, the 50x50 picture and the
      join date are set, the country is copied even when absent, an empty
      bio or working-on text leaves about or work absent; status, school
      and statistics are left alone. */
  function ApplyApi(u: UserFields, data: ApiUser): (r: UserFields)
    ensures r.username == Some(data.username) && r.image == Some(data.profile.images.n50x50)
    ensures r.joined == Some(data.history.joined) && r.country == data.profile.country
    ensures r.about == NonEmpty(data.profile.bio) && r.work == NonEmpty(data.profile.status)
    ensures r.status == u.status && r.school == u.school && r.statistics == u.statistics
  {
    u.(username := Some(data.username), image := Some(data.profile.images.n50x50), joined := Some(data.history.joined),
       country := data.profile.country, about := NonEmpty(data.profile.bio), work := NonEmpty(data.profile.status))
  }

  /** `extend` with a ScratchDB user: status, school and statistics are
      copied as they are, absent ones included; nothing else changes. */
  function ApplyDb(u: UserFields, data: DbUser): (r: UserFields)
    ensures r.status == data.status && r.school == data.school && r.statistics == data.statistics
    ensures r.username == u.username && r.image == u.image && r.joined == u.joined && r.country == u.country
    ensures r.about == u.about && r.work == u.work
  {
    u.(status := data.status, school := data.school, statistics := data.statistics)
  }

  /** The user embed record, filled in place by one merge per source. Its
      fields are kept together as one `UserFields` value, which each merge
      updates field by field. */
  class User {
    var fields: UserFields

    /** `User::new()`. */
    constructor ()
      ensures fields == NoFields
    {
      fields := NoFields;
    }

    /** `extend(api::User)`. */
    method ExtendApi(data: ApiUser)
      modifies this
      ensures fields == ApplyApi(old(fields), data)
    {
      fields := fields.(username := Some(data.username));
      fields := fields.(image := Some(data.profile.images.n50x50));
      fields := fields.(joined := Some(data.history.joined));
      fields := fields.(country := data.profile.country);
      fields := fields.(about := NonEmpty(data.profile.bio));
      fields := fields.(work := NonEmpty(data.profile.status));
    }

    /** `extend(db::User)`. */
    method ExtendDb(data: DbUser)
      modifies this
      ensures fields == ApplyDb(old(fields), data)
    {
      fields := fields.(status := data.status);
      fields := fields.(school := data.school);
      fields := fields.(statistics := data.statistics);
    }
  }

  /** The two merges write disjoint fields: either order gives the same
      record. */
  lemma MergesCommute(u: UserFields, api: ApiUser, db: DbUser)
    ensures ApplyDb(ApplyApi(u, api), db) == ApplyApi(ApplyDb(u, db), api)
  {
  }

  /** Each merge overwrites everything it writes: merging a record again
      changes nothing, and the previous values of its fields do not
      matter. */
  lemma MergesOverwrite(u: UserFields, v: UserFields, api: ApiUser, db: DbUser)
    ensures ApplyApi(ApplyApi(u, api), api) == ApplyApi(u, api)
    ensures ApplyDb(ApplyDb(u, db), db) == ApplyDb(u, db)
    ensures ApplyApi(u, api) == ApplyApi(v, api).(status := u.status, school := u.school, statistics := u.statistics)
    ensures ApplyDb(u, db) == ApplyDb(v, db).(username := u.username, image := u.image, joined := u.joined,
                                              country := u.country, about := u.about, work := u.work)
  {
  }

  /** Both merges into a new record, in either order, leave absent exactly
      what the sources lack: the country, an empty bio or working-on text,
      the status, the school and the statistics. */
  lemma MergedFromBothSources(api: ApiUser, db: DbUser)
    ensures var r := ApplyDb(ApplyApi(NoFields, api), db);
      && r.username.Some? && r.image.Some? && r.joined.Some?
      && (r.country.None? <==> api.profile.country.None?)
      && (r.about.None? <==> |api.profile.bio| == 0)
      && (r.work.None? <==> |api.profile.status| == 0)
      && (r.status.None? <==> db.status.None?)
      && (r.school.None? <==> db.school.None?)
      && (r.statistics.None? <==> db.statistics.None?)
  {
  }
}
