/** The library task engine: compiling a video identity and a task handler
    (export, export new episodes, remove) into task records, and executing
    them with per-task failure isolation. */
module LibraryTasks {
  import opened Wrappers
  import opened Strings
  import opened VideoIds
  import opened LibraryDb

  // ---------------------------------------------------------------------------
  // Data

  /** The three task handlers of the library items layer. */
  datatype Handler = ExportItem | ExportNewItem | RemoveItem

  /** FOLDER_NAME_MOVIES and FOLDER_NAME_SHOWS. */
  datatype RootFolder = MoviesFolder | ShowsFolder

  /** The user's NFO choices, read by the compiler only. */
  datatype NfoSettings = NfoSettings(exportMovieEnabled: bool, exportTvShowEnabled: bool, exportFullTvShow: bool)

  datatype EpisodeInfo = EpisodeInfo(id: nat, seqNumber: nat)

  datatype SeasonInfo = SeasonInfo(id: nat, seqNumber: nat, episodes: seq<EpisodeInfo>)

  /** One record of the metadata list the remote lookup returns; the show
      record is the one whose 'type' is 'show'. */
  datatype MetaItem =
    | MovieItem(title: string, year: nat)
    | ShowItem(title: string, seasons: seq<SeasonInfo>)
    | SeasonItem(season: SeasonInfo)
    | EpisodeItem(episode: EpisodeInfo)

  /** Result of the remote metadata lookup. */
  datatype Metadata =
    | Available(items: seq<MetaItem>)
    | NotAvailable   // MetadataNotAvailable
    | LookupFailed   // any other exception of the lookup

  /** NFO text is produced by an external generator; only its source is kept. */
  datatype NfoData =
    | MovieNfo(movie: MetaItem)
    | EpisodeNfo(episode: EpisodeInfo, season: SeasonInfo, show: MetaItem)
    | ShowNfo(show: MetaItem)

  datatype Task =
    | ExportTask(videoid: VideoId, title: string, createStrmFile: bool, createNfoFile: bool,
                 rootFolder: RootFolder, folderName: string, filename: string, nfoData: Option<NfoData>)
    | RemoveTask(videoid: VideoId, title: string, filePath: string)

  /** What `compile_tasks` gives back: a task list, None, or an exception
      that escapes it (anything but MetadataNotAvailable). */
  datatype Compiled = Tasks(tasks: seq<Task>) | NoTasks | Raised

  /** Outcome of one call of a task handler. */
  datatype HandlerOutcome = Done | Failed(excType: string, message: string)

  /** The collaborators the engine calls but that are not part of this model. */
  datatype Host = Host(
    getMetadata: (VideoId, bool) -> Metadata,        // ext_func_get_metadata(videoid, only_new)
    runHandler: (Handler, Task) -> HandlerOutcome,    // export_item / export_new_item / remove_item
    episodeTitleFromPath: string -> string,           // get_episode_title_from_path
    nfoFromPreference: bool -> NfoSettings,           // nfo.NFOSettings(nfo_export)
    nfoDefaults: NfoSettings)                         // nfo.NFOSettings()

  // ---------------------------------------------------------------------------
  // Sanitising names

  /** The characters of ILLEGAL_CHARACTERS, '[<|>|"|?|$|!|:|#|*]'. */
  const IllegalCharacters: set<char> := {'<', '|', '>', '"', '?', '$', '!', ':', '#', '*'}

  predicate NoIllegal(s: string)
  {
    forall i :: 0 <= i < |s| ==> s[i] !in IllegalCharacters
  }

  /** `re.sub(ILLEGAL_CHARACTERS, '', s)`: every illegal character deleted. */
  function Sanitize(s: string): string
  {
    if s == [] then []
    else if s[0] in IllegalCharacters then Sanitize(s[1..])
    else [s[0]] + Sanitize(s[1..])
  }

  lemma {:induction false} SanitizeRemovesIllegal(s: string)
    ensures NoIllegal(Sanitize(s))
  {
    if s != [] {
      SanitizeRemovesIllegal(s[1..]);
    }
  }

  /** A name without illegal characters is left as it is. */
  lemma {:induction false} SanitizeKeepsLegal(s: string)
    requires NoIllegal(s)
    ensures Sanitize(s) == s
  {
    if s != [] {
      SanitizeKeepsLegal(s[1..]);
      assert [s[0]] + s[1..] == s;
    }
  }

  /** Sanitising is idempotent, and it changes exactly the names that hold an
      illegal character. */
  lemma SanitizeIdempotent(s: string)
    ensures NoIllegal(Sanitize(s))
    ensures Sanitize(Sanitize(s)) == Sanitize(s)
    ensures Sanitize(s) == s <==> NoIllegal(s)
  {
    SanitizeRemovesIllegal(s);
    SanitizeKeepsLegal(Sanitize(s));
    if Sanitize(s) == s {
      assert NoIllegal(s);
    } else if NoIllegal(s) {
      SanitizeKeepsLegal(s);
    }
  }

  /** `re.sub` deletes character by character: a single character goes iff
      it is illegal, and a name sanitises piece by piece. */
  lemma SanitizeChar(c: char)
    ensures Sanitize([c]) == if c in IllegalCharacters then [] else [c]
  {
  }

  lemma {:induction false} SanitizeConcat(a: string, b: string)
    ensures Sanitize(a + b) == Sanitize(a) + Sanitize(b)
  {
    if a != [] {
      assert (a + b)[1..] == a[1..] + b;
      SanitizeConcat(a[1..], b);
    } else {
      assert a + b == b;
    }
  }

  // ---------------------------------------------------------------------------
  // Export task builders

  /** A task is well formed when its names are sanitised and it carries NFO
      data exactly when it asks for an NFO file. */
  predicate WellFormed(t: Task)
  {
    t.ExportTask? ==> NoIllegal(t.folderName) && NoIllegal(t.filename) && (t.nfoData.Some? <==> t.createNfoFile)
  }

  /** `_create_export_item_task`. */
  function CreateExportItemTask(createStrmFile: bool, createNfoFile: bool, videoid: VideoId, title: string,
                                rootFolder: RootFolder, folderName: string, filename: string,
                                nfoData: Option<NfoData>): (t: Task)
    ensures t.ExportTask? && t.videoid == videoid && t.title == title && t.rootFolder == rootFolder
    ensures t.createStrmFile == createStrmFile && t.createNfoFile == createNfoFile && t.nfoData == nfoData
    ensures NoIllegal(t.folderName) && NoIllegal(t.filename)
    ensures NoIllegal(folderName) ==> t.folderName == folderName
    ensures NoIllegal(filename) ==> t.filename == filename
    ensures t.folderName == Sanitize(folderName) && t.filename == Sanitize(filename)
  {
    SanitizeIdempotent(folderName);
    SanitizeIdempotent(filename);
    ExportTask(videoid, title, createStrmFile, createNfoFile, rootFolder,
               Sanitize(folderName), Sanitize(filename), nfoData)
  }

  /** 'title (year)'. */
  function MovieName(title: string, year: nat): string
  {
    title + " (" + NatToString(year) + ")"
  }

  /** `_create_export_movie_task`. */
  function CreateExportMovieTask(videoid: VideoId, movie: MetaItem, nfo: Option<NfoSettings>): (r: seq<Task>)
    requires movie.MovieItem?
    ensures |r| == 1 && r[0].ExportTask? && r[0].videoid == videoid && r[0].title == movie.title
    ensures r[0].rootFolder == MoviesFolder && r[0].createStrmFile
    ensures r[0].folderName == r[0].filename == Sanitize(MovieName(movie.title, movie.year))
    ensures r[0].createNfoFile <==> nfo.Some? && nfo.value.exportMovieEnabled
    ensures WellFormed(r[0])
  {
    var filename := MovieName(movie.title, movie.year);
    var createNfoFile := nfo.Some? && nfo.value.exportMovieEnabled;
    [CreateExportItemTask(true, createNfoFile, videoid, movie.title, MoviesFolder, filename, filename,
                          if createNfoFile then Some(MovieNfo(movie)) else None)]
  }

  /** 'S{season.seq:02d}E{episode.seq:02d}'. */
  function EpisodeFileName(season: SeasonInfo, episode: EpisodeInfo): (name: string)
    ensures NoIllegal(name)
  {
    "S" + Pad2(season.seqNumber) + "E" + Pad2(episode.seqNumber)
  }

  /** Reads the season and episode numbers back out of a two-digit 'SxxEyy' name. */
  function ParseEpisodeFileName(name: string): Option<(nat, nat)>
  {
    if |name| == 6 && name[0] == 'S' && name[3] == 'E' then
      match (ParseNat(name[1..3]), ParseNat(name[4..6]))
      case (Some(s), Some(e)) => Some((s, e))
      case _ => None
    else None
  }

  /** For numbers below 100 the episode file name is 'SxxEyy' and gives back
      both numbers. */
  lemma EpisodeFileNameRoundTrip(season: SeasonInfo, episode: EpisodeInfo)
    requires season.seqNumber < 100 && episode.seqNumber < 100
    ensures ParseEpisodeFileName(EpisodeFileName(season, episode)) == Some((season.seqNumber, episode.seqNumber))
  {
    ParsePad2(season.seqNumber);
    ParsePad2(episode.seqNumber);
    var name := EpisodeFileName(season, episode);
    assert name[1..3] == Pad2(season.seqNumber);
    assert name[4..6] == Pad2(episode.seqNumber);
  }

  /** `_create_export_episode_task`. */
  function CreateExportEpisodeTask(videoid: VideoId, episode: EpisodeInfo, season: SeasonInfo, show: MetaItem,
                                   nfo: Option<NfoSettings>): (t: Task)
    requires show.ShowItem?
    ensures t.ExportTask? && t.videoid == videoid && t.rootFolder == ShowsFolder && t.createStrmFile
    ensures t.filename == EpisodeFileName(season, episode) && t.title == show.title + " - " + t.filename
    ensures t.folderName == Sanitize(show.title)
    ensures t.createNfoFile <==> nfo.Some? && nfo.value.exportTvShowEnabled
    ensures WellFormed(t)
  {
    var filename := EpisodeFileName(season, episode);
    var createNfoFile := nfo.Some? && nfo.value.exportTvShowEnabled;
    CreateExportItemTask(true, createNfoFile, videoid, show.title + " - " + filename, ShowsFolder,
                         show.title, filename, if createNfoFile then Some(EpisodeNfo(episode, season, show)) else None)
  }

  /** `_compile_export_season_tasks`: one task per episode of the season, the
      episode identity derived from the season identity. */
  function CompileExportSeasonTasks(tvshowId: nat, show: MetaItem, season: SeasonInfo, nfo: Option<NfoSettings>): seq<Task>
    requires show.ShowItem?
  {
    seq(|season.episodes|, i requires 0 <= i < |season.episodes| =>
      CreateExportEpisodeTask(EpisodeId(tvshowId, season.id, season.episodes[i].id),
                              season.episodes[i], season, show, nfo))
  }

  /** `_compile_export_show_tasks`: the season task lists, season after season. */
  function CompileExportShowTasks(tvshowId: nat, show: MetaItem, seasons: seq<SeasonInfo>, nfo: Option<NfoSettings>): seq<Task>
    requires show.ShowItem?
  {
    if seasons == [] then []
    else CompileExportSeasonTasks(tvshowId, show, seasons[0], nfo) + CompileExportShowTasks(tvshowId, show, seasons[1..], nfo)
  }

  /** `common.find(seasonid, 'id', seasons)`: the first season with that id. */
  function FindSeason(seasons: seq<SeasonInfo>, seasonId: nat): (r: Option<SeasonInfo>)
    ensures r.Some? ==> r.value in seasons && r.value.id == seasonId
    ensures r.None? ==> forall s :: s in seasons ==> s.id != seasonId
    ensures r.Some? ==> exists i :: 0 <= i < |seasons| && seasons[i] == r.value
                                    && forall j :: 0 <= j < i ==> seasons[j].id != seasonId
  {
    if seasons == [] then None
    else if seasons[0].id == seasonId then Some(seasons[0])
    else
      var r := FindSeason(seasons[1..], seasonId);
      assert r.Some? ==> exists i :: 0 < i < |seasons| && seasons[i] == r.value
                                     && forall j :: 0 <= j < i ==> seasons[j].id != seasonId by {
        if r.Some? {
          var i :| 0 <= i < |seasons[1..]| && seasons[1..][i] == r.value
                   && forall j :: 0 <= j < i ==> seasons[1..][j].id != seasonId;
          assert seasons[i + 1] == r.value;
          assert forall j :: 0 <= j < i + 1 ==> seasons[j].id != seasonId by {
            forall j | 0 <= j < i + 1 ensures seasons[j].id != seasonId {
              if j > 0 { assert seasons[j] == seasons[1..][j - 1]; }
            }
          }
        }
      }
      r
  }

  /** Index of the last record whose type is 'show', if any. */
  function LastShowIndex(items: seq<MetaItem>): (r: Option<nat>)
    ensures r.Some? ==> r.value < |items| && items[r.value].ShowItem?
                        && forall j :: r.value < j < |items| ==> !items[j].ShowItem?
    ensures r.None? ==> forall j :: 0 <= j < |items| ==> !items[j].ShowItem?
  {
    if items == [] then None
    else if items[|items| - 1].ShowItem? then Some(|items| - 1)
    else LastShowIndex(items[..|items| - 1])
  }

  /** The file name of the whole-show NFO. */
  const ShowNfoFileName: string := "tvshow"

  lemma ShowNfoFileNameLegal()
    ensures NoIllegal(ShowNfoFileName)
  {
    forall i | 0 <= i < |ShowNfoFileName| ensures ShowNfoFileName[i] !in IllegalCharacters {
      assert ShowNfoFileName[i] in {'t', 'v', 's', 'h', 'o', 'w'};
    }
  }

  /** The 'tvshow.nfo' task appended when the whole-show NFO is wanted. */
  function FullShowNfoTasks(videoid: VideoId, items: seq<MetaItem>, nfo: Option<NfoSettings>): (r: seq<Task>)
    ensures |r| == (if nfo.Some? && nfo.value.exportFullTvShow && exists j :: 0 <= j < |items| && items[j].ShowItem?
                    then 1 else 0)
    ensures r != [] ==> && r[0].ExportTask? && r[0].videoid == videoid && r[0].title == "tvshow.nfo"
                        && !r[0].createStrmFile && r[0].createNfoFile && r[0].filename == ShowNfoFileName
                        && r[0].rootFolder == ShowsFolder && WellFormed(r[0])
                        && exists k :: 0 <= k < |items| && items[k].ShowItem?
                                       && (forall j :: k < j < |items| ==> !items[j].ShowItem?)
                                       && r[0].nfoData == Some(ShowNfo(items[k]))
                                       && r[0].folderName == Sanitize(items[k].title)
  {
    if nfo.Some? && nfo.value.exportFullTvShow then
      match LastShowIndex(items)
      case None => []
      case Some(k) =>
        ShowNfoFileNameLegal();
        [CreateExportItemTask(false, true, videoid, "tvshow.nfo", ShowsFolder, items[k].title, ShowNfoFileName,
                              Some(ShowNfo(items[k])))]
    else []
  }

  /** `_create_export_tv_tasks`: the episode tasks of a show, season or
      episode, then the optional 'tvshow.nfo' task. A metadata list of the
      wrong shape makes Python raise (IndexError, KeyError, TypeError). */
  function CreateExportTvTasks(videoid: VideoId, items: seq<MetaItem>, nfo: Option<NfoSettings>): Compiled
    requires videoid.IsTv()
  {
    var base: Option<seq<Task>> :=
      match videoid
      case ShowId(s) =>
        if |items| == 0 || !items[0].ShowItem? then None
        else Some(CompileExportShowTasks(s, items[0], items[0].seasons, nfo))
      case SeasonId(s, se) =>
        if |items| == 0 || !items[0].ShowItem? then None
        else (match FindSeason(items[0].seasons, se)
              case None => None
              case Some(season) => Some(CompileExportSeasonTasks(s, items[0], season, nfo)))
      case EpisodeId(_, _, _) =>
        if |items| != 3 || !items[0].EpisodeItem? || !items[1].SeasonItem? || !items[2].ShowItem? then None
        else Some([CreateExportEpisodeTask(videoid, items[0].episode, items[1].season, items[2], nfo)]);
    if base.None? then Raised else Tasks(base.value + FullShowNfoTasks(videoid, items, nfo))
  }

  // ---------------------------------------------------------------------------
  // New-episode tasks: the incremental diff against the store

  /** Whether handling `season` derives a season identity from the requested
      one: always for a season the store lacks, and for a stored season as
      soon as one of its episodes is missing. */
  predicate SeasonDerives(store: Store, tvshowId: nat, season: SeasonInfo)
  {
    !store.SeasonIdExists(tvshowId, season.id)
    || exists k :: 0 <= k < |season.episodes| && !store.EpisodeIdExists(tvshowId, season.id, season.episodes[k].id)
  }

  /** Tasks for the episodes among `episodes` that the store lacks, in order. */
  function MissingEpisodeTasks(store: Store, tvshowId: nat, show: MetaItem, season: SeasonInfo,
                               episodes: seq<EpisodeInfo>, nfo: Option<NfoSettings>): seq<Task>
    requires show.ShowItem?
  {
    if episodes == [] then []
    else
      var e := episodes[|episodes| - 1];
      MissingEpisodeTasks(store, tvshowId, show, season, episodes[..|episodes| - 1], nfo)
      + (if store.EpisodeIdExists(tvshowId, season.id, e.id) then []
         else [CreateExportEpisodeTask(EpisodeId(tvshowId, season.id, e.id), e, season, show, nfo)])
  }

  /** What `_add_missing_items` appends for one season. */
  function SeasonMissingTasks(store: Store, tvshowId: nat, show: MetaItem, season: SeasonInfo,
                              nfo: Option<NfoSettings>): seq<Task>
    requires show.ShowItem?
  {
    if store.SeasonIdExists(tvshowId, season.id)
    then MissingEpisodeTasks(store, tvshowId, show, season, season.episodes, nfo)
    else CompileExportSeasonTasks(tvshowId, show, season, nfo)
  }

  /** What `_create_new_episodes_tasks` collects over `seasons`, in order. */
  function NewEpisodeTasks(store: Store, tvshowId: nat, show: MetaItem, seasons: seq<SeasonInfo>,
                           nfo: Option<NfoSettings>): seq<Task>
    requires show.ShowItem?
  {
    if seasons == [] then []
    else NewEpisodeTasks(store, tvshowId, show, seasons[..|seasons| - 1], nfo)
         + SeasonMissingTasks(store, tvshowId, show, seasons[|seasons| - 1], nfo)
  }

  /** The NFO settings the new-episode compiler uses: the given ones, else the
      show's stored preference. */
  function NewEpisodesNfo(videoid: VideoId, nfo: Option<NfoSettings>, store: Store, host: Host): NfoSettings
  {
    if nfo.Some? then nfo.value else host.nfoFromPreference(store.ShowNfoExport(videoid.Value()))
  }

  /** `_create_new_episodes_tasks` on the fetched metadata. Only a show record
      has 'seasons'; any other first record gives no task. Deriving a season
      from an identity that is not a show raises. */
  function NewEpisodesCompiled(videoid: VideoId, items: seq<MetaItem>, nfo: Option<NfoSettings>,
                               store: Store, host: Host): Compiled
  {
    if |items| > 0 && items[0].ShowItem? then
      var seasons := items[0].seasons;
      if !videoid.ShowId? && exists i :: 0 <= i < |seasons| && SeasonDerives(store, videoid.Value(), seasons[i])
      then Raised
      else Tasks(NewEpisodeTasks(store, videoid.Value(), items[0], seasons,
                                 Some(NewEpisodesNfo(videoid, nfo, store, host))))
    else Tasks([])
  }

  // ---------------------------------------------------------------------------
  // Remove tasks

  /** `_create_remove_tv_tasks`: one remove task per stored episode row. */
  function CreateRemoveTvTasks(rows: seq<EpisodeRow>, host: Host): seq<Task>
  {
    seq(|rows|, i requires 0 <= i < |rows| =>
      RemoveTask(EpisodeId(rows[i].tvshowId, rows[i].seasonId, rows[i].episodeId),
                 host.episodeTitleFromPath(rows[i].filePath), rows[i].filePath))
  }

  /** The remove branch of `compile_tasks`, by granularity of the identity.
      A lookup of a file path the store lacks makes Python raise. */
  function CompileRemoveTasks(videoid: VideoId, store: Store, host: Host): Compiled
  {
    match videoid
    case MovieId(m) =>
      if m in store.movies then Tasks([RemoveTask(videoid, Stem(store.movies[m]), store.movies[m])]) else Raised
    case ShowId(s) => Tasks(CreateRemoveTvTasks(store.EpisodesOfShow(s), host))
    case SeasonId(s, se) => Tasks(CreateRemoveTvTasks(store.EpisodesOfSeason(s, se), host))
    case EpisodeId(s, se, e) =>
      (match store.EpisodeFilePath(s, se, e)
       case None => Raised
       case Some(path) => Tasks([RemoveTask(videoid, host.episodeTitleFromPath(path), path)]))
    case SupplementalId(_) => NoTasks
  }

  // ---------------------------------------------------------------------------
  // compile_tasks

  /** `compile_tasks`, as a function of the lookup results and the store.
      Unavailable metadata skips the compilation; export handlers give only
      export tasks and the remove handler only remove tasks. */
  function Compile(videoid: VideoId, handler: Handler, nfo: Option<NfoSettings>, store: Store, host: Host): (r: Compiled)
    ensures handler != RemoveItem && host.getMetadata(videoid, handler == ExportNewItem) == NotAvailable ==> r == NoTasks
    ensures handler != RemoveItem && host.getMetadata(videoid, handler == ExportNewItem) == LookupFailed ==> r == Raised
    ensures r.NoTasks? ==> host.getMetadata(videoid, handler == ExportNewItem) == NotAvailable || videoid.SupplementalId?
  {
    match handler
    case ExportItem =>
      (match host.getMetadata(videoid, false)
       case NotAvailable => NoTasks
       case LookupFailed => Raised
       case Available(items) =>
         if videoid.MovieId? then
           (if |items| == 0 || !items[0].MovieItem? then Raised
            else Tasks(CreateExportMovieTask(videoid, items[0], nfo)))
         else if videoid.IsTv() then CreateExportTvTasks(videoid, items, nfo)
         else NoTasks)
    case ExportNewItem =>
      (match host.getMetadata(videoid, true)
       case NotAvailable => NoTasks
       case LookupFailed => Raised
       case Available(items) => NewEpisodesCompiled(videoid, items, nfo, store, host))
    case RemoveItem => CompileRemoveTasks(videoid, store, host)
  }

  // ---------------------------------------------------------------------------
  // Properties of the compiler

  /** The (season, episode) pairs of a show: season order, then episode order. */
  datatype EpisodeRef = EpisodeRef(season: SeasonInfo, episode: EpisodeInfo)

  function EpisodeRefs(seasons: seq<SeasonInfo>): seq<EpisodeRef>
  {
    if seasons == [] then []
    else seq(|seasons[0].episodes|, k requires 0 <= k < |seasons[0].episodes| =>
               EpisodeRef(seasons[0], seasons[0].episodes[k]))
         + EpisodeRefs(seasons[1..])
  }

  /** The episode task that exporting `ref` of show `tvshowId` produces. */
  predicate IsEpisodeTaskFor(t: Task, tvshowId: nat, show: MetaItem, ref: EpisodeRef)
    requires show.ShowItem?
  {
    && t.ExportTask?
    && t.videoid == EpisodeId(tvshowId, ref.season.id, ref.episode.id)
    && t.filename == EpisodeFileName(ref.season, ref.episode)
    && t.title == show.title + " - " + t.filename
    && t.folderName == Sanitize(show.title)
  }

  /** Exporting a show gives one task per episode of every season, in season
      order then episode order. */
  lemma {:induction false} ShowTasksFollowEpisodes(tvshowId: nat, show: MetaItem, seasons: seq<SeasonInfo>,
                                                   nfo: Option<NfoSettings>)
    requires show.ShowItem?
    ensures var ts := CompileExportShowTasks(tvshowId, show, seasons, nfo);
            var refs := EpisodeRefs(seasons);
            |ts| == |refs| && forall i :: 0 <= i < |ts| ==> IsEpisodeTaskFor(ts[i], tvshowId, show, refs[i])
  {
    if seasons != [] {
      ShowTasksFollowEpisodes(tvshowId, show, seasons[1..], nfo);
      var head := CompileExportSeasonTasks(tvshowId, show, seasons[0], nfo);
      var ts := CompileExportShowTasks(tvshowId, show, seasons, nfo);
      var refs := EpisodeRefs(seasons);
      forall i | 0 <= i < |ts| ensures IsEpisodeTaskFor(ts[i], tvshowId, show, refs[i]) {
        if i >= |head| {
          assert ts[i] == CompileExportShowTasks(tvshowId, show, seasons[1..], nfo)[i - |head|];
          assert refs[i] == EpisodeRefs(seasons[1..])[i - |head|];
        }
      }
    }
  }

  /** Exporting a show: one task per episode, then the optional 'tvshow.nfo'
      task; exporting a season: one task per episode of that season. */
  lemma ExportTvTaskCounts(videoid: VideoId, items: seq<MetaItem>, nfo: Option<NfoSettings>)
    requires videoid.IsTv() && CreateExportTvTasks(videoid, items, nfo).Tasks?
    ensures var ts := CreateExportTvTasks(videoid, items, nfo).tasks;
            var extra := FullShowNfoTasks(videoid, items, nfo);
            && (videoid.ShowId? ==>
                  var refs := EpisodeRefs(items[0].seasons);
                  |ts| == |refs| + |extra|
                  && forall i :: 0 <= i < |refs| ==> IsEpisodeTaskFor(ts[i], videoid.tvshowid, items[0], refs[i]))
            && (videoid.SeasonId? ==>
                  && FindSeason(items[0].seasons, videoid.seasonid).Some?
                  && var season := FindSeason(items[0].seasons, videoid.seasonid).value;
                     && |ts| == |season.episodes| + |extra|
                     && forall i :: 0 <= i < |season.episodes| ==>
                          IsEpisodeTaskFor(ts[i], videoid.tvshowid, items[0], EpisodeRef(season, season.episodes[i])))
            && (videoid.EpisodeId? ==> |ts| == 1 + |extra| && ts[0].videoid == videoid)
  {
    if videoid.ShowId? {
      ShowTasksFollowEpisodes(videoid.tvshowid, items[0], items[0].seasons, nfo);
    }
  }

  /** An export task that is well formed. */
  predicate GoodExport(t: Task)
  {
    t.ExportTask? && WellFormed(t)
  }

  lemma {:induction false} ShowTasksWellFormed(tvshowId: nat, show: MetaItem, seasons: seq<SeasonInfo>,
                                               nfo: Option<NfoSettings>)
    requires show.ShowItem?
    ensures forall t :: t in CompileExportShowTasks(tvshowId, show, seasons, nfo) ==> GoodExport(t)
  {
    if seasons != [] {
      ShowTasksWellFormed(tvshowId, show, seasons[1..], nfo);
    }
  }

  lemma {:induction false} MissingTasksWellFormed(store: Store, tvshowId: nat, show: MetaItem, season: SeasonInfo,
                                                  episodes: seq<EpisodeInfo>, nfo: Option<NfoSettings>)
    requires show.ShowItem?
    ensures forall t :: t in MissingEpisodeTasks(store, tvshowId, show, season, episodes, nfo) ==> GoodExport(t)
  {
    if episodes != [] {
      MissingTasksWellFormed(store, tvshowId, show, season, episodes[..|episodes| - 1], nfo);
    }
  }

  lemma {:induction false} NewEpisodeTasksWellFormed(store: Store, tvshowId: nat, show: MetaItem,
                                                     seasons: seq<SeasonInfo>, nfo: Option<NfoSettings>)
    requires show.ShowItem?
    ensures forall t :: t in NewEpisodeTasks(store, tvshowId, show, seasons, nfo) ==> GoodExport(t)
  {
    if seasons != [] {
      NewEpisodeTasksWellFormed(store, tvshowId, show, seasons[..|seasons| - 1], nfo);
      MissingTasksWellFormed(store, tvshowId, show, seasons[|seasons| - 1], seasons[|seasons| - 1].episodes, nfo);
    }
  }

  /** The export handlers compile only export tasks, with sanitised folder and
      file names and NFO data exactly when an NFO file is asked for; the remove
      handler compiles only remove tasks. */
  lemma CompileWellFormed(videoid: VideoId, handler: Handler, nfo: Option<NfoSettings>, store: Store, host: Host)
    ensures var r := Compile(videoid, handler, nfo, store, host);
            r.Tasks? ==> forall t :: t in r.tasks ==> WellFormed(t) && (t.RemoveTask? <==> handler == RemoveItem)
  {
    var r := Compile(videoid, handler, nfo, store, host);
    if r.Tasks? && handler == ExportItem && videoid.ShowId? {
      var items := host.getMetadata(videoid, false).items;
      ShowTasksWellFormed(videoid.tvshowid, items[0], items[0].seasons, nfo);
    } else if r.Tasks? && handler == ExportNewItem {
      var items := host.getMetadata(videoid, true).items;
      if |items| > 0 && items[0].ShowItem? {
        NewEpisodeTasksWellFormed(store, videoid.Value(), items[0], items[0].seasons,
                                  Some(NewEpisodesNfo(videoid, nfo, store, host)));
      }
    }
  }

  /** Some task of `ts` is for `videoid`. */
  predicate HasTaskFor(ts: seq<Task>, videoid: VideoId)
  {
    exists t :: t in ts && t.videoid == videoid
  }

  /** `t` is for an episode among `episodes` of `season` that the store lacks. */
  predicate ForUnstoredEpisode(t: Task, store: Store, tvshowId: nat, season: SeasonInfo, episodes: seq<EpisodeInfo>)
  {
    exists k :: 0 <= k < |episodes| && t.videoid == EpisodeId(tvshowId, season.id, episodes[k].id)
                && !store.EpisodeIdExists(tvshowId, season.id, episodes[k].id)
  }

  lemma {:induction false} MissingEpisodeTasksExact(store: Store, tvshowId: nat, show: MetaItem, season: SeasonInfo,
                                                    episodes: seq<EpisodeInfo>, nfo: Option<NfoSettings>)
    requires show.ShowItem?
    ensures forall t :: t in MissingEpisodeTasks(store, tvshowId, show, season, episodes, nfo) ==>
              ForUnstoredEpisode(t, store, tvshowId, season, episodes)
    ensures forall k :: 0 <= k < |episodes| && !store.EpisodeIdExists(tvshowId, season.id, episodes[k].id) ==>
              HasTaskFor(MissingEpisodeTasks(store, tvshowId, show, season, episodes, nfo),
                         EpisodeId(tvshowId, season.id, episodes[k].id))
  {
    if episodes != [] {
      var init := episodes[..|episodes| - 1];
      var e := episodes[|episodes| - 1];
      MissingEpisodeTasksExact(store, tvshowId, show, season, init, nfo);
      var ts0 := MissingEpisodeTasks(store, tvshowId, show, season, init, nfo);
      var ts := MissingEpisodeTasks(store, tvshowId, show, season, episodes, nfo);
      var tail := if store.EpisodeIdExists(tvshowId, season.id, e.id) then []
                  else [CreateExportEpisodeTask(EpisodeId(tvshowId, season.id, e.id), e, season, show, nfo)];
      assert ts == ts0 + tail;
      forall t | t in ts ensures ForUnstoredEpisode(t, store, tvshowId, season, episodes) {
        if t in ts0 {
          var k :| 0 <= k < |init| && t.videoid == EpisodeId(tvshowId, season.id, init[k].id)
                   && !store.EpisodeIdExists(tvshowId, season.id, init[k].id);
          assert episodes[k] == init[k];
        } else {
          assert t in tail;
          assert t.videoid == EpisodeId(tvshowId, season.id, episodes[|episodes| - 1].id);
        }
      }
      forall k | 0 <= k < |episodes| && !store.EpisodeIdExists(tvshowId, season.id, episodes[k].id)
        ensures HasTaskFor(ts, EpisodeId(tvshowId, season.id, episodes[k].id)) {
        if k < |init| {
          assert init[k] == episodes[k];
          var t :| t in ts0 && t.videoid == EpisodeId(tvshowId, season.id, init[k].id);
          assert t in ts;
        } else {
          assert tail[0] in ts;
        }
      }
    }
  }

  /** `t` is for an episode among `seasons` that is missing from the store. */
  predicate ForMissingEpisode(t: Task, store: Store, tvshowId: nat, seasons: seq<SeasonInfo>)
  {
    exists i, k :: 0 <= i < |seasons| && 0 <= k < |seasons[i].episodes|
                   && t.videoid == EpisodeId(tvshowId, seasons[i].id, seasons[i].episodes[k].id)
                   && Missing(store, tvshowId, seasons[i], seasons[i].episodes[k])
  }

  /** Missing: an episode whose season is not stored, or which is not stored itself. */
  predicate Missing(store: Store, tvshowId: nat, season: SeasonInfo, episode: EpisodeInfo)
  {
    !store.SeasonIdExists(tvshowId, season.id) || !store.EpisodeIdExists(tvshowId, season.id, episode.id)
  }

  /** For a season the store lacks, every episode gets a task; for a stored
      season, exactly the episodes the store lacks do. */
  lemma SeasonMissingTasksExact(store: Store, tvshowId: nat, show: MetaItem, season: SeasonInfo, nfo: Option<NfoSettings>)
    requires show.ShowItem?
    ensures forall t :: t in SeasonMissingTasks(store, tvshowId, show, season, nfo) ==>
              t.ExportTask? && ForMissingEpisode(t, store, tvshowId, [season])
    ensures forall k :: 0 <= k < |season.episodes| && Missing(store, tvshowId, season, season.episodes[k]) ==>
              HasTaskFor(SeasonMissingTasks(store, tvshowId, show, season, nfo),
                         EpisodeId(tvshowId, season.id, season.episodes[k].id))
  {
    if store.SeasonIdExists(tvshowId, season.id) {
      StoredSeasonTasksExact(store, tvshowId, show, season, nfo);
    } else {
      NewSeasonTasksExact(store, tvshowId, show, season, nfo);
    }
  }

  lemma StoredSeasonTasksExact(store: Store, tvshowId: nat, show: MetaItem, season: SeasonInfo, nfo: Option<NfoSettings>)
    requires show.ShowItem? && store.SeasonIdExists(tvshowId, season.id)
    ensures forall t :: t in SeasonMissingTasks(store, tvshowId, show, season, nfo) ==>
              t.ExportTask? && ForMissingEpisode(t, store, tvshowId, [season])
    ensures forall k :: 0 <= k < |season.episodes| && Missing(store, tvshowId, season, season.episodes[k]) ==>
              HasTaskFor(SeasonMissingTasks(store, tvshowId, show, season, nfo),
                         EpisodeId(tvshowId, season.id, season.episodes[k].id))
  {
    var ts := MissingEpisodeTasks(store, tvshowId, show, season, season.episodes, nfo);
    assert SeasonMissingTasks(store, tvshowId, show, season, nfo) == ts;
    MissingEpisodeTasksExact(store, tvshowId, show, season, season.episodes, nfo);
    MissingTasksWellFormed(store, tvshowId, show, season, season.episodes, nfo);
    forall t | t in ts ensures ForMissingEpisode(t, store, tvshowId, [season]) {
      var k :| 0 <= k < |season.episodes| && t.videoid == EpisodeId(tvshowId, season.id, season.episodes[k].id)
               && !store.EpisodeIdExists(tvshowId, season.id, season.episodes[k].id);
      assert [season][0] == season;
    }
  }

  lemma NewSeasonTasksExact(store: Store, tvshowId: nat, show: MetaItem, season: SeasonInfo, nfo: Option<NfoSettings>)
    requires show.ShowItem? && !store.SeasonIdExists(tvshowId, season.id)
    ensures forall t :: t in SeasonMissingTasks(store, tvshowId, show, season, nfo) ==>
              t.ExportTask? && ForMissingEpisode(t, store, tvshowId, [season])
    ensures forall k :: 0 <= k < |season.episodes| ==>
              HasTaskFor(SeasonMissingTasks(store, tvshowId, show, season, nfo),
                         EpisodeId(tvshowId, season.id, season.episodes[k].id))
  {
    var ts := CompileExportSeasonTasks(tvshowId, show, season, nfo);
    assert SeasonMissingTasks(store, tvshowId, show, season, nfo) == ts;
    forall t | t in ts ensures t.ExportTask? && ForMissingEpisode(t, store, tvshowId, [season]) {
      var k :| 0 <= k < |ts| && ts[k] == t;
      assert [season][0] == season;
    }
    forall k | 0 <= k < |season.episodes|
      ensures HasTaskFor(ts, EpisodeId(tvshowId, season.id, season.episodes[k].id)) {
      assert ts[k] in ts;
    }
  }

  /** The new-episode compiler emits a task for exactly the missing episodes:
      each of its tasks is for a missing episode, and each missing episode has a task. */
  lemma NewEpisodeTasksExact(store: Store, tvshowId: nat, show: MetaItem, seasons: seq<SeasonInfo>,
                             nfo: Option<NfoSettings>)
    requires show.ShowItem?
    ensures forall t :: t in NewEpisodeTasks(store, tvshowId, show, seasons, nfo) ==>
              t.ExportTask? && ForMissingEpisode(t, store, tvshowId, seasons)
    ensures forall i, k :: 0 <= i < |seasons| && 0 <= k < |seasons[i].episodes|
                           && Missing(store, tvshowId, seasons[i], seasons[i].episodes[k]) ==>
              HasTaskFor(NewEpisodeTasks(store, tvshowId, show, seasons, nfo),
                         EpisodeId(tvshowId, seasons[i].id, seasons[i].episodes[k].id))
  {
    NewEpisodeTasksSound(store, tvshowId, show, seasons, nfo);
    NewEpisodeTasksComplete(store, tvshowId, show, seasons, nfo);
  }

  /** A task for a missing episode of some seasons is one for the seasons extended at the end. */
  lemma ForMissingEpisodeExtend(t: Task, store: Store, tvshowId: nat, init: seq<SeasonInfo>, last: SeasonInfo)
    ensures ForMissingEpisode(t, store, tvshowId, init) ==> ForMissingEpisode(t, store, tvshowId, init + [last])
    ensures ForMissingEpisode(t, store, tvshowId, [last]) ==> ForMissingEpisode(t, store, tvshowId, init + [last])
  {
    var seasons := init + [last];
    if ForMissingEpisode(t, store, tvshowId, init) {
      var i, k :| 0 <= i < |init| && 0 <= k < |init[i].episodes|
                  && t.videoid == EpisodeId(tvshowId, init[i].id, init[i].episodes[k].id)
                  && Missing(store, tvshowId, init[i], init[i].episodes[k]);
      assert seasons[i] == init[i];
    }
    if ForMissingEpisode(t, store, tvshowId, [last]) {
      var i, k :| 0 <= i < 1 && 0 <= k < |[last][i].episodes|
                  && t.videoid == EpisodeId(tvshowId, [last][i].id, [last][i].episodes[k].id)
                  && Missing(store, tvshowId, [last][i], [last][i].episodes[k]);
      assert seasons[|init|] == [last][i];
    }
  }

  /** Every new-episode task is an export task for a missing episode. */
  lemma {:induction false} NewEpisodeTasksSound(store: Store, tvshowId: nat, show: MetaItem, seasons: seq<SeasonInfo>,
                                                nfo: Option<NfoSettings>)
    requires show.ShowItem?
    ensures forall t :: t in NewEpisodeTasks(store, tvshowId, show, seasons, nfo) ==>
              t.ExportTask? && ForMissingEpisode(t, store, tvshowId, seasons)
  {
    if seasons != [] {
      var init := seasons[..|seasons| - 1];
      var last := seasons[|seasons| - 1];
      assert seasons == init + [last];
      NewEpisodeTasksSound(store, tvshowId, show, init, nfo);
      SeasonMissingTasksExact(store, tvshowId, show, last, nfo);
      var ts0 := NewEpisodeTasks(store, tvshowId, show, init, nfo);
      var ts1 := SeasonMissingTasks(store, tvshowId, show, last, nfo);
      assert NewEpisodeTasks(store, tvshowId, show, seasons, nfo) == ts0 + ts1;
      forall t: Task | t in ts0 + ts1 ensures t.ExportTask? && ForMissingEpisode(t, store, tvshowId, seasons) {
        ForMissingEpisodeExtend(t, store, tvshowId, init, last);
      }
    }
  }

  /** Every missing episode among `seasons` gets a new-episode task. */
  lemma {:induction false} NewEpisodeTasksComplete(store: Store, tvshowId: nat, show: MetaItem, seasons: seq<SeasonInfo>,
                                                   nfo: Option<NfoSettings>)
    requires show.ShowItem?
    ensures forall i, k :: 0 <= i < |seasons| && 0 <= k < |seasons[i].episodes|
                           && Missing(store, tvshowId, seasons[i], seasons[i].episodes[k]) ==>
              HasTaskFor(NewEpisodeTasks(store, tvshowId, show, seasons, nfo),
                         EpisodeId(tvshowId, seasons[i].id, seasons[i].episodes[k].id))
  {
    if seasons != [] {
      var init := seasons[..|seasons| - 1];
      var last := seasons[|seasons| - 1];
      NewEpisodeTasksComplete(store, tvshowId, show, init, nfo);
      SeasonMissingTasksExact(store, tvshowId, show, last, nfo);
      var ts0 := NewEpisodeTasks(store, tvshowId, show, init, nfo);
      var ts1 := SeasonMissingTasks(store, tvshowId, show, last, nfo);
      var ts := ts0 + ts1;
      assert NewEpisodeTasks(store, tvshowId, show, seasons, nfo) == ts;
      forall i, k | 0 <= i < |seasons| && 0 <= k < |seasons[i].episodes|
                    && Missing(store, tvshowId, seasons[i], seasons[i].episodes[k])
        ensures HasTaskFor(ts, EpisodeId(tvshowId, seasons[i].id, seasons[i].episodes[k].id)) {
        if i < |init| {
          assert init[i] == seasons[i];
          var t :| t in ts0 && t.videoid == EpisodeId(tvshowId, init[i].id, init[i].episodes[k].id);
          assert t in ts;
        } else {
          var t :| t in ts1 && t.videoid == EpisodeId(tvshowId, last.id, last.episodes[k].id);
          assert t in ts;
        }
      }
    }
  }

  /** The missing (season, episode) pairs among `episodes` of `season`, in order. */
  function MissingEpisodeRefs(store: Store, tvshowId: nat, season: SeasonInfo, episodes: seq<EpisodeInfo>)
    : seq<EpisodeRef>
  {
    if episodes == [] then []
    else
      var e := episodes[|episodes| - 1];
      MissingEpisodeRefs(store, tvshowId, season, episodes[..|episodes| - 1])
      + (if Missing(store, tvshowId, season, e) then [EpisodeRef(season, e)] else [])
  }

  /** The missing (season, episode) pairs of `seasons`: season order, then
      episode order. */
  function MissingRefs(store: Store, tvshowId: nat, seasons: seq<SeasonInfo>): seq<EpisodeRef>
  {
    if seasons == [] then []
    else
      var last := seasons[|seasons| - 1];
      MissingRefs(store, tvshowId, seasons[..|seasons| - 1]) + MissingEpisodeRefs(store, tvshowId, last, last.episodes)
  }

  /** `ts` is, task by task, the export of the pairs `refs`. */
  predicate TasksFollowRefs(ts: seq<Task>, tvshowId: nat, show: MetaItem, refs: seq<EpisodeRef>, nfo: Option<NfoSettings>)
    requires show.ShowItem?
  {
    && |ts| == |refs|
    && forall i :: 0 <= i < |ts| ==>
         ts[i] == CreateExportEpisodeTask(EpisodeId(tvshowId, refs[i].season.id, refs[i].episode.id),
                                          refs[i].episode, refs[i].season, show, nfo)
  }

  lemma TasksFollowRefsConcat(ts0: seq<Task>, ts1: seq<Task>, tvshowId: nat, show: MetaItem,
                              refs0: seq<EpisodeRef>, refs1: seq<EpisodeRef>, nfo: Option<NfoSettings>)
    requires show.ShowItem?
    requires TasksFollowRefs(ts0, tvshowId, show, refs0, nfo) && TasksFollowRefs(ts1, tvshowId, show, refs1, nfo)
    ensures TasksFollowRefs(ts0 + ts1, tvshowId, show, refs0 + refs1, nfo)
  {
    var ts, refs := ts0 + ts1, refs0 + refs1;
    forall i | 0 <= i < |ts|
      ensures ts[i] == CreateExportEpisodeTask(EpisodeId(tvshowId, refs[i].season.id, refs[i].episode.id),
                                               refs[i].episode, refs[i].season, show, nfo) {
      if i >= |ts0| {
        assert ts[i] == ts1[i - |ts0|] && refs[i] == refs1[i - |ts0|];
      }
    }
  }

  /** In a stored season the missing-episode tasks follow the missing pairs. */
  lemma {:induction false} MissingEpisodeTasksFollow(store: Store, tvshowId: nat, show: MetaItem, season: SeasonInfo,
                                                     episodes: seq<EpisodeInfo>, nfo: Option<NfoSettings>)
    requires show.ShowItem? && store.SeasonIdExists(tvshowId, season.id)
    ensures TasksFollowRefs(MissingEpisodeTasks(store, tvshowId, show, season, episodes, nfo), tvshowId, show,
                            MissingEpisodeRefs(store, tvshowId, season, episodes), nfo)
  {
    if episodes != [] {
      var init := episodes[..|episodes| - 1];
      var e := episodes[|episodes| - 1];
      MissingEpisodeTasksFollow(store, tvshowId, show, season, init, nfo);
      TasksFollowRefsConcat(MissingEpisodeTasks(store, tvshowId, show, season, init, nfo),
                            if store.EpisodeIdExists(tvshowId, season.id, e.id) then []
                            else [CreateExportEpisodeTask(EpisodeId(tvshowId, season.id, e.id), e, season, show, nfo)],
                            tvshowId, show, MissingEpisodeRefs(store, tvshowId, season, init),
                            if Missing(store, tvshowId, season, e) then [EpisodeRef(season, e)] else [], nfo);
    }
  }

  /** In a season the store lacks every episode is a missing pair. */
  lemma {:induction false} NewSeasonRefsAll(store: Store, tvshowId: nat, season: SeasonInfo, episodes: seq<EpisodeInfo>)
    requires !store.SeasonIdExists(tvshowId, season.id)
    ensures var refs := MissingEpisodeRefs(store, tvshowId, season, episodes);
            |refs| == |episodes| && forall k :: 0 <= k < |refs| ==> refs[k] == EpisodeRef(season, episodes[k])
  {
    if episodes != [] {
      NewSeasonRefsAll(store, tvshowId, season, episodes[..|episodes| - 1]);
    }
  }

  /** The tasks `_add_missing_items` appends for one season follow its missing pairs. */
  lemma SeasonMissingTasksFollow(store: Store, tvshowId: nat, show: MetaItem, season: SeasonInfo,
                                 nfo: Option<NfoSettings>)
    requires show.ShowItem?
    ensures TasksFollowRefs(SeasonMissingTasks(store, tvshowId, show, season, nfo), tvshowId, show,
                            MissingEpisodeRefs(store, tvshowId, season, season.episodes), nfo)
  {
    if store.SeasonIdExists(tvshowId, season.id) {
      MissingEpisodeTasksFollow(store, tvshowId, show, season, season.episodes, nfo);
    } else {
      NewSeasonRefsAll(store, tvshowId, season, season.episodes);
    }
  }

  /** `_create_new_episodes_tasks` emits exactly one task per missing episode,
      season by season, then episode by episode: the k-th task is the export
      of the k-th missing pair. */
  lemma {:induction false} NewEpisodeTasksFollowRefs(store: Store, tvshowId: nat, show: MetaItem,
                                                     seasons: seq<SeasonInfo>, nfo: Option<NfoSettings>)
    requires show.ShowItem?
    ensures var ts := NewEpisodeTasks(store, tvshowId, show, seasons, nfo);
            var refs := MissingRefs(store, tvshowId, seasons);
            && |ts| == |refs|
            && forall i :: 0 <= i < |ts| ==>
                 ts[i] == CreateExportEpisodeTask(EpisodeId(tvshowId, refs[i].season.id, refs[i].episode.id),
                                                  refs[i].episode, refs[i].season, show, nfo)
  {
    if seasons != [] {
      var init := seasons[..|seasons| - 1];
      var last := seasons[|seasons| - 1];
      NewEpisodeTasksFollowRefs(store, tvshowId, show, init, nfo);
      SeasonMissingTasksFollow(store, tvshowId, show, last, nfo);
      TasksFollowRefsConcat(NewEpisodeTasks(store, tvshowId, show, init, nfo),
                            SeasonMissingTasks(store, tvshowId, show, last, nfo), tvshowId, show,
                            MissingRefs(store, tvshowId, init), MissingEpisodeRefs(store, tvshowId, last, last.episodes), nfo);
    }
  }

  /** Every pair of `MissingRefs` is an episode of one of the seasons that
      the store lacks. */
  lemma {:induction false} MissingRefsSound(store: Store, tvshowId: nat, seasons: seq<SeasonInfo>)
    ensures forall r :: r in MissingRefs(store, tvshowId, seasons) ==>
              r.season in seasons && r.episode in r.season.episodes && Missing(store, tvshowId, r.season, r.episode)
  {
    if seasons != [] {
      var init := seasons[..|seasons| - 1];
      var last := seasons[|seasons| - 1];
      MissingRefsSound(store, tvshowId, init);
      MissingEpisodeRefsSound(store, tvshowId, last, last.episodes);
      forall r | r in MissingRefs(store, tvshowId, seasons)
        ensures r.season in seasons && r.episode in r.season.episodes && Missing(store, tvshowId, r.season, r.episode) {
        if r in MissingRefs(store, tvshowId, init) {
          assert r.season in init;
        }
      }
    }
  }

  lemma {:induction false} MissingEpisodeRefsSound(store: Store, tvshowId: nat, season: SeasonInfo, episodes: seq<EpisodeInfo>)
    ensures forall r :: r in MissingEpisodeRefs(store, tvshowId, season, episodes) ==>
              r.season == season && r.episode in episodes && Missing(store, tvshowId, season, r.episode)
  {
    if episodes != [] {
      var init := episodes[..|episodes| - 1];
      MissingEpisodeRefsSound(store, tvshowId, season, init);
      forall r | r in MissingEpisodeRefs(store, tvshowId, season, episodes)
        ensures r.season == season && r.episode in episodes && Missing(store, tvshowId, season, r.episode) {
        if r in MissingEpisodeRefs(store, tvshowId, season, init) {
          assert r.episode in init;
        }
      }
    }
  }

  /** On a consistent store, no episode the store already holds ever gets a
      new-episode task. */
  lemma NewEpisodesNeverReexport(store: Store, tvshowId: nat, show: MetaItem, seasons: seq<SeasonInfo>,
                                 nfo: Option<NfoSettings>)
    requires show.ShowItem? && store.Valid()
    ensures forall t :: t in NewEpisodeTasks(store, tvshowId, show, seasons, nfo) ==>
              t.videoid.EpisodeId? && t.videoid.tvshowid == tvshowId
              && !store.EpisodeIdExists(tvshowId, t.videoid.seasonid, t.videoid.episodeid)
  {
    NewEpisodeTasksExact(store, tvshowId, show, seasons, nfo);
    forall t | t in NewEpisodeTasks(store, tvshowId, show, seasons, nfo)
      ensures t.videoid.EpisodeId? && !store.EpisodeIdExists(tvshowId, t.videoid.seasonid, t.videoid.episodeid) {
      var i, k :| 0 <= i < |seasons| && 0 <= k < |seasons[i].episodes|
                  && t.videoid == EpisodeId(tvshowId, seasons[i].id, seasons[i].episodes[k].id)
                  && Missing(store, tvshowId, seasons[i], seasons[i].episodes[k]);
      StoredEpisodeHasSeason(store, tvshowId, seasons[i].id, seasons[i].episodes[k].id);
    }
  }

  lemma StoredEpisodeHasSeason(store: Store, tvshowId: nat, seasonId: nat, episodeId: nat)
    requires store.Valid()
    ensures store.EpisodeIdExists(tvshowId, seasonId, episodeId) ==> store.SeasonIdExists(tvshowId, seasonId)
  {
  }

  /** Removing a show or a season gives one remove task per stored episode
      row of it, in row order, carrying that row's file path. */
  lemma RemoveTvTasksFollowRows(videoid: VideoId, store: Store, host: Host)
    requires videoid.ShowId? || videoid.SeasonId?
    ensures var rows := if videoid.ShowId? then store.EpisodesOfShow(videoid.tvshowid)
                        else store.EpisodesOfSeason(videoid.tvshowid, videoid.seasonid);
            var r := Compile(videoid, RemoveItem, None, store, host);
            && r.Tasks? && |r.tasks| == |rows|
            && (forall i :: 0 <= i < |rows| ==>
                  && r.tasks[i].RemoveTask? && r.tasks[i].filePath == rows[i].filePath
                  && r.tasks[i].videoid == EpisodeId(rows[i].tvshowId, rows[i].seasonId, rows[i].episodeId))
            && (forall row :: row in store.episodes && row.tvshowId == videoid.tvshowid
                              && (videoid.SeasonId? ==> row.seasonId == videoid.seasonid) ==>
                  exists t :: t in r.tasks && t.filePath == row.filePath)
  {
    var rows := if videoid.ShowId? then store.EpisodesOfShow(videoid.tvshowid)
                else store.EpisodesOfSeason(videoid.tvshowid, videoid.seasonid);
    var r := Compile(videoid, RemoveItem, None, store, host);
    forall row | row in store.episodes && row.tvshowId == videoid.tvshowid
                 && (videoid.SeasonId? ==> row.seasonId == videoid.seasonid)
      ensures exists t :: t in r.tasks && t.filePath == row.filePath {
      var i :| 0 <= i < |rows| && rows[i] == row;
      assert r.tasks[i] in r.tasks;
    }
  }

  // ---------------------------------------------------------------------------
  // The imperative compiler entry points

  /** `_add_missing_items`: appends to `tasks` the tasks of the season's
      missing episodes, or of the whole season when the store lacks it;
      `raised` when a season identity cannot be derived from `videoid`. */
  method AddMissingItems(tasks: seq<Task>, season: SeasonInfo, videoid: VideoId, show: MetaItem,
                         nfo: Option<NfoSettings>, store: Store)
    returns (r: seq<Task>, raised: bool)
    requires show.ShowItem?
    ensures raised <==> !videoid.ShowId? && SeasonDerives(store, videoid.Value(), season)
    ensures !raised ==> r == tasks + SeasonMissingTasks(store, videoid.Value(), show, season, nfo)
  {
    var id := videoid.Value();
    if store.SeasonIdExists(id, season.id) {
      r, raised := AddMissingEpisodes(tasks, season, videoid, show, nfo, store);
    } else {
      var seasonVid := videoid.DeriveSeason(season.id);
      if seasonVid.None? {
        return tasks, true;
      }
      r := tasks + CompileExportSeasonTasks(seasonVid.value.tvshowid, show, season, nfo);
      raised := false;
    }
  }

  /** The branch of `_add_missing_items` for a stored season: one task per
      episode the store lacks. */
  method AddMissingEpisodes(tasks: seq<Task>, season: SeasonInfo, videoid: VideoId, show: MetaItem,
                            nfo: Option<NfoSettings>, store: Store)
    returns (r: seq<Task>, raised: bool)
    requires show.ShowItem? && store.SeasonIdExists(videoid.Value(), season.id)
    ensures raised <==> !videoid.ShowId? && SeasonDerives(store, videoid.Value(), season)
    ensures !raised ==> r == tasks + MissingEpisodeTasks(store, videoid.Value(), show, season, season.episodes, nfo)
  {
    var id := videoid.Value();
    r := tasks;
    var k := 0;
    while k < |season.episodes|
      invariant 0 <= k <= |season.episodes|
      invariant r == tasks + MissingEpisodeTasks(store, id, show, season, season.episodes[..k], nfo)
      invariant forall j :: 0 <= j < k ==> videoid.ShowId? || store.EpisodeIdExists(id, season.id, season.episodes[j].id)
    {
      r, raised := AddEpisodeIfMissing(tasks, r, season, k, videoid, show, nfo, store);
      if raised {
        return tasks, true;
      }
      k := k + 1;
    }
    assert season.episodes[..k] == season.episodes;
    raised := false;
  }

  /** One turn of the episode loop: a task for the k-th episode when the
      store lacks it; `raised` when its identity cannot be derived. */
  method AddEpisodeIfMissing(tasks: seq<Task>, r: seq<Task>, season: SeasonInfo, k: nat, videoid: VideoId,
                             show: MetaItem, nfo: Option<NfoSettings>, store: Store)
    returns (r': seq<Task>, raised: bool)
    requires show.ShowItem? && k < |season.episodes|
    requires r == tasks + MissingEpisodeTasks(store, videoid.Value(), show, season, season.episodes[..k], nfo)
    ensures raised <==> !videoid.ShowId? && !store.EpisodeIdExists(videoid.Value(), season.id, season.episodes[k].id)
    ensures !raised ==> r' == tasks + MissingEpisodeTasks(store, videoid.Value(), show, season, season.episodes[..k + 1], nfo)
  {
    var id := videoid.Value();
    var e := season.episodes[k];
    MissingEpisodeTasksStep(store, id, show, season, k, nfo);
    r', raised := r, false;
    if !store.EpisodeIdExists(id, season.id, e.id) {
      var seasonVid := videoid.DeriveSeason(season.id);
      if seasonVid.None? {
        return r, true;
      }
      var episodeVid := seasonVid.value.DeriveEpisode(e.id);
      r' := r + [CreateExportEpisodeTask(episodeVid.value, e, season, show, nfo)];
    }
  }

  lemma MissingEpisodeTasksStep(store: Store, tvshowId: nat, show: MetaItem, season: SeasonInfo, k: nat,
                                nfo: Option<NfoSettings>)
    requires show.ShowItem? && k < |season.episodes|
    ensures var e := season.episodes[k];
            MissingEpisodeTasks(store, tvshowId, show, season, season.episodes[..k + 1], nfo)
            == MissingEpisodeTasks(store, tvshowId, show, season, season.episodes[..k], nfo)
               + (if store.EpisodeIdExists(tvshowId, season.id, e.id) then []
                  else [CreateExportEpisodeTask(EpisodeId(tvshowId, season.id, e.id), e, season, show, nfo)])
  {
    assert season.episodes[..k + 1][..k] == season.episodes[..k];
  }

  /** `_create_new_episodes_tasks`: the season-by-season diff against the
      store, with the show's stored NFO preference when no settings are given. */
  method CreateNewEpisodesTasks(videoid: VideoId, items: seq<MetaItem>, nfo: Option<NfoSettings>,
                                store: Store, host: Host)
    returns (r: Compiled)
    ensures r == NewEpisodesCompiled(videoid, items, nfo, store, host)
  {
    if |items| > 0 && items[0].ShowItem? {
      var tasks, raised := AddMissingSeasons(videoid, items[0], nfo, store, host);
      if raised {
        return Raised;
      }
      return Tasks(tasks);
    }
    return Tasks([]);
  }

  /** The loop of `_create_new_episodes_tasks` over the show's seasons; the
      NFO settings are looked up from the store on the first season when none
      are given. */
  method AddMissingSeasons(videoid: VideoId, show: MetaItem, nfo: Option<NfoSettings>, store: Store, host: Host)
    returns (tasks: seq<Task>, raised: bool)
    requires show.ShowItem?
    ensures raised <==> !videoid.ShowId? && exists j :: 0 <= j < |show.seasons| && SeasonDerives(store, videoid.Value(), show.seasons[j])
    ensures !raised ==> tasks == NewEpisodeTasks(store, videoid.Value(), show, show.seasons,
                                                 Some(NewEpisodesNfo(videoid, nfo, store, host)))
  {
    var seasons := show.seasons;
    var settings := nfo;
    tasks := [];
    var i := 0;
    while i < |seasons|
      invariant 0 <= i <= |seasons|
      invariant settings == if i == 0 then nfo else Some(NewEpisodesNfo(videoid, nfo, store, host))
      invariant tasks == NewEpisodeTasks(store, videoid.Value(), show, seasons[..i], Some(NewEpisodesNfo(videoid, nfo, store, host)))
      invariant forall j :: 0 <= j < i ==> videoid.ShowId? || !SeasonDerives(store, videoid.Value(), seasons[j])
    {
      tasks, settings, raised := AddSeason(tasks, settings, seasons, i, videoid, show, nfo, store, host);
      if raised {
        return;
      }
      i := i + 1;
    }
    assert seasons[..i] == seasons;
    raised := false;
  }

  /** One turn of the season loop: look up the settings if still unset,
      then `_add_missing_items` for the i-th season. */
  method AddSeason(tasks: seq<Task>, settings: Option<NfoSettings>, seasons: seq<SeasonInfo>, i: nat, videoid: VideoId,
                   show: MetaItem, nfo: Option<NfoSettings>, store: Store, host: Host)
    returns (tasks': seq<Task>, settings': Option<NfoSettings>, raised: bool)
    requires show.ShowItem? && i < |seasons|
    requires settings.None? ==> nfo.None?
    requires settings.Some? ==> settings.value == NewEpisodesNfo(videoid, nfo, store, host)
    requires tasks == NewEpisodeTasks(store, videoid.Value(), show, seasons[..i], Some(NewEpisodesNfo(videoid, nfo, store, host)))
    ensures settings' == Some(NewEpisodesNfo(videoid, nfo, store, host))
    ensures raised <==> !videoid.ShowId? && SeasonDerives(store, videoid.Value(), seasons[i])
    ensures !raised ==> tasks' == NewEpisodeTasks(store, videoid.Value(), show, seasons[..i + 1], settings')
  {
    settings' := settings;
    if settings'.None? {
      settings' := Some(host.nfoFromPreference(store.ShowNfoExport(videoid.Value())));
    }
    tasks', raised := AddMissingItems(tasks, seasons[i], videoid, show, settings', store);
    NewEpisodeTasksStep(store, videoid.Value(), show, seasons, i, settings');
  }

  lemma NewEpisodeTasksStep(store: Store, tvshowId: nat, show: MetaItem, seasons: seq<SeasonInfo>, i: nat,
                            nfo: Option<NfoSettings>)
    requires show.ShowItem? && i < |seasons|
    ensures NewEpisodeTasks(store, tvshowId, show, seasons[..i + 1], nfo)
            == NewEpisodeTasks(store, tvshowId, show, seasons[..i], nfo) + SeasonMissingTasks(store, tvshowId, show, seasons[i], nfo)
  {
    assert seasons[..i + 1][..i] == seasons[..i];
  }

  /** `compile_tasks`. */
  method CompileTasks(videoid: VideoId, handler: Handler, nfo: Option<NfoSettings>, store: Store, host: Host)
    returns (r: Compiled)
    ensures r == Compile(videoid, handler, nfo, store, host)
  {
    if handler == ExportNewItem {
      var metadata := host.getMetadata(videoid, true);
      match metadata
      case NotAvailable => r := NoTasks;
      case LookupFailed => r := Raised;
      case Available(items) => r := CreateNewEpisodesTasks(videoid, items, nfo, store, host);
    } else {
      r := Compile(videoid, handler, nfo, store, host);
    }
  }

  // ---------------------------------------------------------------------------
  // Execution

  /** One `(index, total, title)` item of the progress sequence. */
  datatype Progress = Progress(index: nat, total: nat, title: string)

  /** `{'task_title': ..., 'error': 'ExcType: message'}`. */
  datatype TaskError = TaskError(taskTitle: string, error: string)

  /** A run of the executor: an exception escaped before any task ran, or
      every task ran and these are the progress items and collected errors. */
  datatype Execution = ExecRaised | Ran(progress: seq<Progress>, errors: seq<TaskError>)

  datatype Job = Job(handler: Handler, task: Task)

  /** The tasks a compilation contributes; a skipped one contributes none. */
  function TasksOf(c: Compiled): seq<Task>
  {
    if c.Tasks? then c.tasks else []
  }

  function CompileAll(videoid: VideoId, handlers: seq<Handler>, nfo: Option<NfoSettings>, store: Store, host: Host)
    : seq<Compiled>
  {
    seq(|handlers|, i requires 0 <= i < |handlers| => Compile(videoid, handlers[i], nfo, store, host))
  }

  function GroupJobs(handler: Handler, tasks: seq<Task>): seq<Job>
  {
    seq(|tasks|, k requires 0 <= k < |tasks| => Job(handler, tasks[k]))
  }

  /** The tasks to run, handler group after handler group. */
  function Jobs(handlers: seq<Handler>, compiled: seq<Compiled>): seq<Job>
    requires |handlers| == |compiled|
  {
    if handlers == [] then []
    else Jobs(handlers[..|handlers| - 1], compiled[..|compiled| - 1])
         + GroupJobs(handlers[|handlers| - 1], TasksOf(compiled[|compiled| - 1]))
  }

  /** `total_tasks`: the sum of the lengths of the compiled lists, a skipped
      compilation counting as empty. */
  function TotalTasks(compiled: seq<Compiled>): nat
  {
    if compiled == [] then 0 else TotalTasks(compiled[..|compiled| - 1]) + |TasksOf(compiled[|compiled| - 1])|
  }

  /** The error entry one run of a handler adds. */
  function ErrorOf(job: Job, host: Host): seq<TaskError>
  {
    match host.runHandler(job.handler, job.task)
    case Done => []
    case Failed(excType, message) => [TaskError(job.task.title, excType + ": " + message)]
  }

  function ErrorsOf(jobs: seq<Job>, host: Host): seq<TaskError>
  {
    if jobs == [] then [] else ErrorsOf(jobs[..|jobs| - 1], host) + ErrorOf(jobs[|jobs| - 1], host)
  }

  function ProgressOf(jobs: seq<Job>, total: nat): seq<Progress>
  {
    seq(|jobs|, i requires 0 <= i < |jobs| => Progress(i + 1, total, jobs[i].task.title))
  }

  /** What `execute_library_tasks` does: compile for every handler, then run
      every task in order, one progress item per task. With the correction
      of Finding 1: a skipped compilation counts as no tasks, where the code
      as written raises while counting. */
  function Execute(videoid: VideoId, handlers: seq<Handler>, nfo: Option<NfoSettings>, store: Store, host: Host)
    : Execution
  {
    var compiled := CompileAll(videoid, handlers, nfo, store, host);
    if exists i :: 0 <= i < |compiled| && compiled[i].Raised? then ExecRaised
    else
      var jobs := Jobs(handlers, compiled);
      Ran(ProgressOf(jobs, |jobs|), ErrorsOf(jobs, host))
  }

  /** `_execute_task`: a falsy task is skipped; a handler that raises adds one
      error entry naming the task, and nothing else happens. */
  method ExecuteTask(handler: Handler, task: Option<Task>, errors: seq<TaskError>, host: Host)
    returns (errors': seq<TaskError>)
    ensures task.None? ==> errors' == errors
    ensures task.Some? ==> errors' == errors + ErrorOf(Job(handler, task.value), host)
    ensures |errors'| <= |errors| + 1
  {
    if task.None? {
      return errors;
    }
    var outcome := host.runHandler(handler, task.value);
    if outcome.Failed? {
      errors' := errors + [TaskError(task.value.title, outcome.excType + ": " + outcome.message)];
    } else {
      errors' := errors;
    }
  }

  lemma {:induction false} JobsCount(handlers: seq<Handler>, compiled: seq<Compiled>)
    requires |handlers| == |compiled|
    ensures |Jobs(handlers, compiled)| == TotalTasks(compiled)
  {
    if handlers != [] {
      JobsCount(handlers[..|handlers| - 1], compiled[..|compiled| - 1]);
    }
  }

  lemma JobsStep(handlers: seq<Handler>, compiled: seq<Compiled>, g: nat)
    requires |handlers| == |compiled| && g < |handlers|
    ensures Jobs(handlers[..g + 1], compiled[..g + 1])
            == Jobs(handlers[..g], compiled[..g]) + GroupJobs(handlers[g], TasksOf(compiled[g]))
  {
    assert handlers[..g + 1][..g] == handlers[..g] && compiled[..g + 1][..g] == compiled[..g];
  }

  /** Running one more job appends its progress item and its error entry. */
  lemma RunStep(ran: seq<Job>, job: Job, total: nat, host: Host)
    ensures ProgressOf(ran + [job], total) == ProgressOf(ran, total) + [Progress(|ran| + 1, total, job.task.title)]
    ensures ErrorsOf(ran + [job], host) == ErrorsOf(ran, host) + ErrorOf(job, host)
  {
    assert (ran + [job])[..|ran|] == ran;
  }

  /** The jobs after `done` grow by one job per task of the group. */
  lemma GroupJobsStep(done: seq<Job>, handler: Handler, tasks: seq<Task>, k: nat)
    requires k < |tasks|
    ensures done + GroupJobs(handler, tasks[..k + 1]) == done + GroupJobs(handler, tasks[..k]) + [Job(handler, tasks[k])]
  {
    assert GroupJobs(handler, tasks[..k + 1]) == GroupJobs(handler, tasks[..k]) + [Job(handler, tasks[k])];
  }

  /** The two nested loops of `execute_library_tasks`: every task of every
      group runs, and each yields `(index, total, title)`. */
  method RunCompiledTasks(handlers: seq<Handler>, compiled: seq<Compiled>, host: Host)
    returns (progress: seq<Progress>, errors: seq<TaskError>)
    requires |handlers| == |compiled|
    ensures var jobs := Jobs(handlers, compiled);
            progress == ProgressOf(jobs, TotalTasks(compiled)) && errors == ErrorsOf(jobs, host)
  {
    var total := TotalTasks(compiled);
    progress, errors := [], [];
    var index := 0;
    var g := 0;
    while g < |compiled|
      invariant 0 <= g <= |compiled|
      invariant index == |Jobs(handlers[..g], compiled[..g])|
      invariant progress == ProgressOf(Jobs(handlers[..g], compiled[..g]), total)
      invariant errors == ErrorsOf(Jobs(handlers[..g], compiled[..g]), host)
    {
      index, progress, errors := RunGroup(Jobs(handlers[..g], compiled[..g]), handlers[g], TasksOf(compiled[g]),
                                          index, progress, errors, total, host);
      JobsStep(handlers, compiled, g);
      g := g + 1;
    }
    assert handlers[..g] == handlers && compiled[..g] == compiled;
  }

  /** The inner loop: the tasks of one handler run after the jobs `done`. */
  method RunGroup(ghost done: seq<Job>, handler: Handler, tasks: seq<Task>, index: nat, progress: seq<Progress>,
                  errors: seq<TaskError>, total: nat, host: Host)
    returns (index': nat, progress': seq<Progress>, errors': seq<TaskError>)
    requires index == |done| && progress == ProgressOf(done, total) && errors == ErrorsOf(done, host)
    ensures var next := done + GroupJobs(handler, tasks);
            index' == |next| && progress' == ProgressOf(next, total) && errors' == ErrorsOf(next, host)
  {
    index', progress', errors' := index, progress, errors;
    ghost var ran := done;
    assert done + GroupJobs(handler, tasks[..0]) == done;
    var k := 0;
    while k < |tasks|
      invariant 0 <= k <= |tasks|
      invariant ran == done + GroupJobs(handler, tasks[..k])
      invariant index' == |ran| && progress' == ProgressOf(ran, total) && errors' == ErrorsOf(ran, host)
    {
      index', progress', errors' := RunJob(ran, handler, tasks[k], index', progress', errors', total, host);
      GroupJobsStep(done, handler, tasks, k);
      ran := ran + [Job(handler, tasks[k])];
      k := k + 1;
    }
    assert tasks[..k] == tasks;
  }

  /** One turn of the inner loop: run the task, then report its progress item. */
  method RunJob(ghost ran: seq<Job>, handler: Handler, task: Task, index: nat, progress: seq<Progress>,
                errors: seq<TaskError>, total: nat, host: Host)
    returns (index': nat, progress': seq<Progress>, errors': seq<TaskError>)
    requires index == |ran| && progress == ProgressOf(ran, total) && errors == ErrorsOf(ran, host)
    ensures index' == index + 1
    ensures progress' == progress + [Progress(index + 1, total, task.title)]
    ensures errors' == errors + ErrorOf(Job(handler, task), host)
    ensures progress' == ProgressOf(ran + [Job(handler, task)], total)
    ensures errors' == ErrorsOf(ran + [Job(handler, task)], host)
  {
    errors' := ExecuteTask(handler, Some(task), errors, host);
    index' := index + 1;
    progress' := progress + [Progress(index', total, task.title)];
    RunStep(ran, Job(handler, task), total, host);
  }

  /** `execute_library_tasks`: compiles for every handler (an exception of
      the compiler escapes before any task runs), counts the tasks, then runs
      them group by group, collecting the errors. With the correction of
      Finding 1: a skipped compilation counts as no tasks. */
  method ExecuteLibraryTasks(videoid: VideoId, handlers: seq<Handler>, nfo: Option<NfoSettings>,
                             store: Store, host: Host)
    returns (r: Execution)
    requires forall i, j :: 0 <= i < j < |handlers| ==> handlers[i] != handlers[j]
    ensures r == Execute(videoid, handlers, nfo, store, host)
  {
    ghost var all := CompileAll(videoid, handlers, nfo, store, host);
    var compiled: seq<Compiled> := [];
    var h := 0;
    while h < |handlers|
      invariant 0 <= h <= |handlers|
      invariant compiled == all[..h]
      invariant forall i :: 0 <= i < h ==> !compiled[i].Raised?
    {
      var c := CompileTasks(videoid, handlers[h], nfo, store, host);
      if c.Raised? {
        assert all[h].Raised?;
        return ExecRaised;
      }
      compiled := compiled + [c];
      h := h + 1;
    }
    assert compiled == all;
    JobsCount(handlers, compiled);
    var progress, errors := RunCompiledTasks(handlers, compiled, host);
    return Ran(progress, errors);
  }

  // ---------------------------------------------------------------------------
  // Properties of the executor

  /** The progress items count 1, 2, ... up to the total computed before any
      task runs, and that total is the number of tasks run. */
  lemma ExecuteProgressCounts(videoid: VideoId, handlers: seq<Handler>, nfo: Option<NfoSettings>,
                              store: Store, host: Host)
    ensures var r := Execute(videoid, handlers, nfo, store, host);
            var total := TotalTasks(CompileAll(videoid, handlers, nfo, store, host));
            r.Ran? ==>
              && |r.progress| == total
              && forall i :: 0 <= i < |r.progress| ==> r.progress[i].index == i + 1 && r.progress[i].total == total
  {
    var compiled := CompileAll(videoid, handlers, nfo, store, host);
    JobsCount(handlers, compiled);
  }

  /** An exception from any compilation stops the executor before any task runs. */
  lemma ExecuteRaisesIff(videoid: VideoId, handlers: seq<Handler>, nfo: Option<NfoSettings>,
                         store: Store, host: Host)
    ensures Execute(videoid, handlers, nfo, store, host).ExecRaised?
            <==> exists i :: 0 <= i < |handlers| && Compile(videoid, handlers[i], nfo, store, host).Raised?
  {
    var compiled := CompileAll(videoid, handlers, nfo, store, host);
    if exists i :: 0 <= i < |handlers| && Compile(videoid, handlers[i], nfo, store, host).Raised? {
      var i :| 0 <= i < |handlers| && Compile(videoid, handlers[i], nfo, store, host).Raised?;
      assert compiled[i].Raised?;
    }
  }

  predicate Fails(job: Job, host: Host)
  {
    host.runHandler(job.handler, job.task).Failed?
  }

  /** A task that raises never stops the run: the error list is empty exactly
      when no handler failed, and it never has more entries than tasks. */
  lemma {:induction false} ErrorsEmptyIff(jobs: seq<Job>, host: Host)
    ensures ErrorsOf(jobs, host) == [] <==> forall i :: 0 <= i < |jobs| ==> !Fails(jobs[i], host)
    ensures |ErrorsOf(jobs, host)| <= |jobs|
  {
    if jobs != [] {
      var init := jobs[..|jobs| - 1];
      ErrorsEmptyIff(init, host);
      assert forall i :: 0 <= i < |init| ==> init[i] == jobs[i];
    }
  }

  /** Every error entry names a task whose handler failed, with the
      exception's type and message. */
  lemma {:induction false} ErrorsNameFailedTasks(jobs: seq<Job>, host: Host)
    ensures forall e :: e in ErrorsOf(jobs, host) ==>
              exists i :: 0 <= i < |jobs| && Fails(jobs[i], host) && e.taskTitle == jobs[i].task.title
                          && e.error == host.runHandler(jobs[i].handler, jobs[i].task).excType + ": "
                                        + host.runHandler(jobs[i].handler, jobs[i].task).message
  {
    if jobs != [] {
      var init := jobs[..|jobs| - 1];
      ErrorsNameFailedTasks(init, host);
      forall e | e in ErrorsOf(jobs, host)
        ensures exists i :: 0 <= i < |jobs| && Fails(jobs[i], host) && e.taskTitle == jobs[i].task.title
                            && e.error == host.runHandler(jobs[i].handler, jobs[i].task).excType + ": "
                                          + host.runHandler(jobs[i].handler, jobs[i].task).message
      {
        if e in ErrorsOf(init, host) {
          var i :| 0 <= i < |init| && Fails(init[i], host) && e.taskTitle == init[i].task.title
                   && e.error == host.runHandler(init[i].handler, init[i].task).excType + ": "
                                 + host.runHandler(init[i].handler, init[i].task).message;
          assert init[i] == jobs[i];
        } else {
          assert e in ErrorOf(jobs[|jobs| - 1], host);
        }
      }
    }
  }

  /** `update_item` passes `[remove, export]`: every remove task runs before
      every export task. */
  lemma RemoveRunsBeforeExport(videoid: VideoId, nfo: Option<NfoSettings>, store: Store, host: Host)
    ensures var handlers := [RemoveItem, ExportItem];
            var jobs := Jobs(handlers, CompileAll(videoid, handlers, nfo, store, host));
            forall i, j :: 0 <= i < j < |jobs| && jobs[i].handler == ExportItem ==> jobs[j].handler != RemoveItem
  {
    var handlers := [RemoveItem, ExportItem];
    var compiled := CompileAll(videoid, handlers, nfo, store, host);
    var removes := GroupJobs(RemoveItem, TasksOf(compiled[0]));
    var exports := GroupJobs(ExportItem, TasksOf(compiled[1]));
    assert handlers[..1][..0] == [];
    assert Jobs(handlers[..1], compiled[..1]) == removes;
    assert Jobs(handlers, compiled) == removes + exports;
  }

  // ---------------------------------------------------------------------------
  // The task count as written

  /** `sum(len(list_tasks) ...)` as written: `len(None)` raises a TypeError,
      so a skipped compilation gives no count at all. */
  function TotalTasksAsWritten(compiled: seq<Compiled>): (r: Option<nat>)
    ensures r.Some? <==> forall i :: 0 <= i < |compiled| ==> !compiled[i].NoTasks?
  {
    if compiled == [] then Some(0)
    else
      var init := compiled[..|compiled| - 1];
      assert forall i :: 0 <= i < |init| ==> init[i] == compiled[i];
      match TotalTasksAsWritten(init)
      case None => None
      case Some(n) =>
        if compiled[|compiled| - 1].NoTasks? then None
        else Some(n + |TasksOf(compiled[|compiled| - 1])|)
  }

  /** Where the source counts at all, it agrees with the corrected count. */
  lemma {:induction false} TotalTasksAgree(compiled: seq<Compiled>)
    ensures TotalTasksAsWritten(compiled).Some? ==> TotalTasksAsWritten(compiled).value == TotalTasks(compiled)
  {
    if compiled != [] {
      TotalTasksAgree(compiled[..|compiled| - 1]);
    }
  }

  /** Exporting an item whose metadata is not available: the compiler skips it
      (None), the count as written raises instead of running nothing, while the
      corrected executor finishes with no progress and no error. */
  lemma NotAvailableExportCrashesAsWritten(videoid: VideoId, nfo: Option<NfoSettings>, store: Store, host: Host)
    requires host.getMetadata(videoid, false) == NotAvailable
    ensures TotalTasksAsWritten(CompileAll(videoid, [ExportItem], nfo, store, host)).None?
    ensures Execute(videoid, [ExportItem], nfo, store, host) == Ran([], [])
  {
    var compiled := CompileAll(videoid, [ExportItem], nfo, store, host);
    assert compiled[0] == NoTasks;
    assert compiled[..0] == [];
    assert Jobs([ExportItem], compiled) == [];
  }
}
