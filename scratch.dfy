/** The records the bot receives from the two Scratch data sources: the
    official API and the ScratchDB mirror, and how a request to either
    fails. Only the fields the modelled code reads are kept; 64-bit integer
    fields are unbounded integers, as they are only copied, never computed
    with. Points in time are whole seconds. */
module ScratchData {
  import opened Wrappers

  /** A failed request: a server error status, or any other failure. */
  datatype ScratchApiError = ServerError | Other(detail: string)

  /** A user's status on Scratch. */
  datatype Status = Scratcher | NewScratcher | TeacherAccount | ScratchTeam

  // ---------------------------------------------------------------------
  // The official API.

  /** The profile pictures of a user, by size. */
  datatype Images = Images(n90x90: string, n60x60: string, n55x55: string, n50x50: string, n32x32: string)

  /** A user's profile; `status` is the "What I'm working on" text. */
  datatype ApiProfile = ApiProfile(id: int, images: Images, status: string, bio: string, country: Option<string>)

  /** When the account was created. */
  datatype UserHistory = UserHistory(joined: int)

  /** A user as the API reports them. */
  datatype ApiUser = ApiUser(id: int, username: string, scratchteam: bool, history: UserHistory, profile: ApiProfile)

  /** When a project was created, modified and shared, as reported. */
  datatype ProjectHistory = ProjectHistory(created: string, modified: string, shared: string)

  datatype AuthorProfile = AuthorProfile(id: Option<int>, images: Images)

  /** The author of a project, as embedded in the project. */
  datatype ApiAuthor = ApiAuthor(id: int, username: string, scratchteam: bool, history: UserHistory, profile: AuthorProfile)

  datatype ApiStats = ApiStats(views: int, loves: int, favorites: int, remixes: int)

  /** The project a remix was made from and the root of its remix tree. */
  datatype RemixIds = RemixIds(parent: Option<int>, root: Option<int>)

  datatype ApiProject = ApiProject(
    id: int,
    title: string,
    description: string,
    instructions: string,
    visibility: string,
    public: bool,
    commentsAllowed: bool,
    isPublished: bool,
    author: ApiAuthor,
    image: string,
    history: ProjectHistory,
    stats: ApiStats,
    remix: RemixIds)

  // ---------------------------------------------------------------------
  // ScratchDB.

  datatype CountryRanks = CountryRanks(loves: int, favorites: int, comments: int, views: int, followers: int, following: int)

  datatype UserRanks = UserRanks(country: CountryRanks, loves: int, favorites: int, comments: int, views: int, followers: int, following: int)

  datatype UserStatistics = UserStatistics(ranks: UserRanks, loves: int, favorites: int, comments: int, views: int, followers: int, following: int)

  /** A user as ScratchDB reports them. */
  datatype DbUser = DbUser(
    username: string,
    id: Option<int>,
    sysId: int,
    joined: int,
    country: Option<string>,
    bio: Option<string>,
    work: Option<string>,
    status: Option<Status>,
    school: Option<int>,
    statistics: Option<UserStatistics>)

  datatype Times = Times(created: string, modified: string, shared: string, lastCheck: string, lastMetadataCheck: string)

  datatype ProjectRanks = ProjectRanks(views: int, loves: int, favorites: int)

  datatype DbProjectStatistics = DbProjectStatistics(ranks: ProjectRanks, views: int, loves: int, favorites: int, comments: Option<int>)

  /** A project as ScratchDB reports it. */
  datatype DbProject = DbProject(
    id: int,
    sysId: int,
    username: string,
    title: string,
    description: string,
    instructions: string,
    public: bool,
    commentsAllowed: bool,
    times: Times,
    remix: RemixIds,
    statistics: DbProjectStatistics)
}
