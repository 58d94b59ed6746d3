/** The project embed record and how the official API's and ScratchDB's
    project records are merged into it. Each merge overwrites the fields
    its source always has, leaves an empty instructions or description
    text absent, keeps the author and the statistics record that are
    already there while updating some of their fields, and replaces the
    remix only when both of its ids are known. */
module ProjectEmbed {
  import opened Wrappers
  import opened ScratchData
  import opened Embeds

  datatype Remix = Remix(parent: int, root: int)

  datatype Author = Author(id: Option<int>, username: string, image: Option<string>)

  datatype Statistics = Statistics(
    views: int,
    loves: int,
    favorites: int,
    remixes: Option<int>,
    comments: Option<int>,
    ranks: Option<ProjectRanks>)

  /** `Statistics::default()`. */
  const NoStatistics := Statistics(0, 0, 0, None, None, None)

  /** The fields of a `Project` embed record at one moment. */
  datatype ProjectFields = ProjectFields(
    id: Option<int>,
    title: Option<string>,
    instructions: Option<string>,
    description: Option<string>,
    visibility: Option<string>,
    public: Option<bool>,
    commentsAllowed: Option<bool>,
    isPublished: Option<bool>,
    image: Option<string>,
    remix: Option<Remix>,
    author: Option<Author>,
    history: Option<ProjectHistory>,
    statistics: Option<Statistics>)

  /** `Project::new()`: every field absent. */
  const NoFields := ProjectFields(None, None, None, None, None, None, None, None, None, None, None, None, None)

  /** The remix a source reports: only when both ids are known. */
  function MergeRemix(remix: Option<Remix>, ids: RemixIds): (r: Option<Remix>)
    ensures ids.parent.Some? && ids.root.Some? ==> r == Some(Remix(ids.parent.value, ids.root.value))
    ensures ids.parent.None? || ids.root.None? ==> r == remix
  {
    if ids.parent.Some? && ids.root.Some? then Some(Remix(ids.parent.value, ids.root.value)) else remix
  }

  /** The API merge of the author: an absent author is created with the
      API's username; the id and the 50x50 picture are always replaced. */
  function ApiMergeAuthor(author: Option<Author>, data: ApiAuthor): (a: Author)
    ensures a.id == Some(data.id) && a.image == Some(data.profile.images.n50x50)
    ensures author.Some? ==> a.username == author.value.username
    ensures author.None? ==> a.username == data.username
  {
    GetOrInsert(author, Author(None, data.username, None)).(id := Some(data.id), image := Some(data.profile.images.n50x50))
  }

  /** The API merge of the statistics: views, loves, favorites and remixes
      are replaced; comments and ranks stay as they were. */
  function ApiMergeStatistics(statistics: Option<Statistics>, stats: ApiStats): (s: Statistics)
    ensures s.views == stats.views && s.loves == stats.loves && s.favorites == stats.favorites
    ensures s.remixes == Some(stats.remixes)
    ensures s.comments == GetOrInsert(statistics, NoStatistics).comments
    ensures s.ranks == GetOrInsert(statistics, NoStatistics).ranks
  {
    GetOrInsert(statistics, NoStatistics).(views := stats.views, loves := stats.loves, favorites := stats.favorites,
                                           remixes := Some(stats.remixes))
  }

  /** The ScratchDB merge of the statistics: views, loves, favorites,
      comments and ranks are replaced; remixes stay as they were. */
  function DbMergeStatistics(statistics: Option<Statistics>, stats: DbProjectStatistics): (s: Statistics)
    ensures s.views == stats.views && s.loves == stats.loves && s.favorites == stats.favorites
    ensures s.comments == stats.comments && s.ranks == Some(stats.ranks)
    ensures s.remixes == GetOrInsert(statistics, NoStatistics).remixes
  {
    GetOrInsert(statistics, NoStatistics).(views := stats.views, loves := stats.loves, favorites := stats.favorites,
                                           comments := stats.comments, ranks := Some(stats.ranks))
  }

  /** `extend` with an API project. */
  function ApplyApi(p: ProjectFields, data: ApiProject): (r: ProjectFields)
    ensures r.id == Some(data.id) && r.title == Some(data.title) && r.visibility == Some(data.visibility)
    ensures r.public == Some(data.public) && r.commentsAllowed == Some(data.commentsAllowed)
    ensures r.isPublished == Some(data.isPublished) && r.image == Some(data.image) && r.history == Some(data.history)
    ensures r.instructions == NonEmpty(data.instructions) && r.description == NonEmpty(data.description)
    ensures r.author == Some(ApiMergeAuthor(p.author, data.author))
    ensures r.statistics == Some(ApiMergeStatistics(p.statistics, data.stats))
    ensures r.remix == MergeRemix(p.remix, data.remix)
  {
    ProjectFields(
      Some(data.id), Some(data.title), NonEmpty(data.instructions), NonEmpty(data.description),
      Some(data.visibility), Some(data.public), Some(data.commentsAllowed), Some(data.isPublished),
      Some(data.image), MergeRemix(p.remix, data.remix), Some(ApiMergeAuthor(p.author, data.author)),
      Some(data.history), Some(ApiMergeStatistics(p.statistics, data.stats)))
  }

  /** `extend` with a ScratchDB project: the history comes from the
      record's times; visibility, publication and the image are left
      alone, and an existing author is untouched. */
  function ApplyDb(p: ProjectFields, data: DbProject): (r: ProjectFields)
    ensures r.id == Some(data.id) && r.title == Some(data.title)
    ensures r.public == Some(data.public) && r.commentsAllowed == Some(data.commentsAllowed)
    ensures r.instructions == NonEmpty(data.instructions) && r.description == NonEmpty(data.description)
    ensures r.history == Some(ProjectHistory(data.times.created, data.times.modified, data.times.shared))
    ensures p.author.Some? ==> r.author == p.author
    ensures p.author.None? ==> r.author == Some(Author(None, data.username, None))
    ensures r.statistics == Some(DbMergeStatistics(p.statistics, data.statistics))
    ensures r.remix == MergeRemix(p.remix, data.remix)
    ensures r.visibility == p.visibility && r.isPublished == p.isPublished && r.image == p.image
  {
    p.(id := Some(data.id),
       author := Some(GetOrInsert(p.author, Author(None, data.username, None))),
       title := Some(data.title),
       instructions := NonEmpty(data.instructions),
       description := NonEmpty(data.description),
       public := Some(data.public),
       commentsAllowed := Some(data.commentsAllowed),
       history := Some(ProjectHistory(data.times.created, data.times.modified, data.times.shared)),
       remix := MergeRemix(p.remix, data.remix),
       statistics := Some(DbMergeStatistics(p.statistics, data.statistics)))
  }

  /** The project embed record, filled in place by one merge per source.
      Its fields are kept together as one `ProjectFields` value, which each
      merge updates field by field. */
  class Project {
    var fields: ProjectFields

    /** `Project::new()`. */
    constructor ()
      ensures fields == NoFields
    {
      fields := NoFields;
    }

    /** `extend(api::Project)`. */
    method ExtendApi(data: ApiProject)
      modifies this
      ensures fields == ApplyApi(old(fields), data)
    {
      fields := fields.(id := Some(data.id));
      fields := fields.(title := Some(data.title));
      fields := fields.(instructions := NonEmpty(data.instructions));
      fields := fields.(description := NonEmpty(data.description));
      fields := fields.(visibility := Some(data.visibility));
      fields := fields.(public := Some(data.public));
      fields := fields.(commentsAllowed := Some(data.commentsAllowed));
      fields := fields.(isPublished := Some(data.isPublished));

      var author := GetOrInsert(fields.author, Author(None, data.author.username, None));
      author := author.(id := Some(data.author.id));
      author := author.(image := Some(data.author.profile.images.n50x50));
      fields := fields.(author := Some(author));

      fields := fields.(image := Some(data.image));
      fields := fields.(history := Some(data.history));

      var statistics := GetOrInsert(fields.statistics, NoStatistics);
      statistics := statistics.(views := data.stats.views);
      statistics := statistics.(loves := data.stats.loves);
      statistics := statistics.(favorites := data.stats.favorites);
      statistics := statistics.(remixes := Some(data.stats.remixes));
      fields := fields.(statistics := Some(statistics));

      if data.remix.parent.Some? && data.remix.root.Some? {
        fields := fields.(remix := Some(Remix(data.remix.parent.value, data.remix.root.value)));
      }
    }

    /** `extend(db::Project)`. */
    method ExtendDb(data: DbProject)
      modifies this
      ensures fields == ApplyDb(old(fields), data)
    {
      fields := fields.(id := Some(data.id));
      fields := fields.(author := Some(GetOrInsert(fields.author, Author(None, data.username, None))));
      fields := fields.(title := Some(data.title));
      fields := fields.(instructions := NonEmpty(data.instructions));
      fields := fields.(description := NonEmpty(data.description));
      fields := fields.(public := Some(data.public));
      fields := fields.(commentsAllowed := Some(data.commentsAllowed));
      fields := fields.(history := Some(ProjectHistory(data.times.created, data.times.modified, data.times.shared)));

      if data.remix.parent.Some? && data.remix.root.Some? {
        fields := fields.(remix := Some(Remix(data.remix.parent.value, data.remix.root.value)));
      }

      var statistics := GetOrInsert(fields.statistics, NoStatistics);
      statistics := statistics.(views := data.statistics.views);
      statistics := statistics.(loves := data.statistics.loves);
      statistics := statistics.(favorites := data.statistics.favorites);
      statistics := statistics.(comments := data.statistics.comments);
      statistics := statistics.(ranks := Some(data.statistics.ranks));
      fields := fields.(statistics := Some(statistics));
    }
  }

  /** Merging the same record twice changes nothing more than merging it
      once. */
  lemma MergesAreIdempotent(p: ProjectFields, api: ApiProject, db: DbProject)
    ensures ApplyApi(ApplyApi(p, api), api) == ApplyApi(p, api)
    ensures ApplyDb(ApplyDb(p, db), db) == ApplyDb(p, db)
  {
  }

  /** Both merges into a new record, in either order: the author's
      username is that of the source merged first, and the statistics hold
      the API's remix count and ScratchDB's comment count and ranks. */
  lemma MergedFromBothSources(api: ApiProject, db: DbProject)
    ensures ApplyDb(ApplyApi(NoFields, api), db).author.value.username == api.author.username
    ensures ApplyApi(ApplyDb(NoFields, db), api).author.value.username == db.username
    ensures var s := ApplyDb(ApplyApi(NoFields, api), db).statistics.value;
      s.remixes == Some(api.stats.remixes) && s.comments == db.statistics.comments && s.ranks == Some(db.statistics.ranks)
    ensures var s := ApplyApi(ApplyDb(NoFields, db), api).statistics.value;
      s.remixes == Some(api.stats.remixes) && s.comments == db.statistics.comments && s.ranks == Some(db.statistics.ranks)
  {
  }

  /** The ScratchDB merge after the API merge keeps what only the API
      reports: visibility, publication, the image and the author's id and
      picture. */
  lemma DbKeepsWhatOnlyApiReports(p: ProjectFields, api: ApiProject, db: DbProject)
    ensures var r := ApplyDb(ApplyApi(p, api), db);
      && r.visibility == Some(api.visibility) && r.isPublished == Some(api.isPublished)
      && r.image == Some(api.image)
      && r.author == Some(ApiMergeAuthor(p.author, api.author))
  {
  }

  /** A remix lacking either id leaves the record's remix as it was. */
  lemma IncompleteRemixIsIgnored(p: ProjectFields, api: ApiProject, db: DbProject)
    requires api.remix.parent.None? || api.remix.root.None?
    requires db.remix.parent.None? || db.remix.root.None?
    ensures ApplyApi(p, api).remix == p.remix
    ensures ApplyDb(p, db).remix == p.remix
  {
  }
}
