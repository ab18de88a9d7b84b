/** The rows of the shared library database that the library code reads:
    exported movies and shows with their per-item flags, the stored seasons,
    and the stored episode rows in table order. */
module LibraryDb {
  import opened Wrappers

  datatype ShowRow = ShowRow(excludeUpdate: bool, nfoExport: bool)

  datatype EpisodeRow = EpisodeRow(tvshowId: nat, seasonId: nat, episodeId: nat, filePath: string)

  datatype Store = Store(
    movies: map<nat, string>,    // movie id -> exported file path
    shows: map<nat, ShowRow>,    // exported show id -> per-show properties
    seasons: set<(nat, nat)>,    // (show id, season id) of exported seasons
    episodes: seq<EpisodeRow>)   // exported episode rows
  {
    /** Every episode row belongs to a stored season of a stored show. */
    ghost predicate Valid()
    {
      forall i :: 0 <= i < |episodes| ==>
        (episodes[i].tvshowId, episodes[i].seasonId) in seasons && episodes[i].tvshowId in shows
    }

    /** `season_id_exists`. */
    predicate SeasonIdExists(tvshowId: nat, seasonId: nat)
    {
      (tvshowId, seasonId) in seasons
    }

    /** `episode_id_exists`. */
    predicate EpisodeIdExists(tvshowId: nat, seasonId: nat, episodeId: nat)
    {
      exists i :: 0 <= i < |episodes| && episodes[i].tvshowId == tvshowId
        && episodes[i].seasonId == seasonId && episodes[i].episodeId == episodeId
    }

    /** `get_tvshows_id_list()`. */
    function TvShowIds(): set<nat>
    {
      shows.Keys
    }

    /** `get_tvshows_id_list(VidLibProp['exclude_update'], flag)`. */
    function TvShowIdsWithExclude(flag: bool): (r: set<nat>)
      ensures forall s :: s in r <==> s in shows && shows[s].excludeUpdate == flag
    {
      set s | s in shows && shows[s].excludeUpdate == flag
    }

    /** `get_movies_id_list()`. */
    function MovieIds(): set<nat>
    {
      movies.Keys
    }

    /** `get_tvshow_property(id, VidLibProp['nfo_export'], False)`. */
    function ShowNfoExport(tvshowId: nat): bool
    {
      if tvshowId in shows then shows[tvshowId].nfoExport else false
    }

    /** `get_all_episodes_ids_and_filepath_from_tvshow`. */
    function EpisodesOfShow(tvshowId: nat): (r: seq<EpisodeRow>)
      ensures forall row :: row in r <==> row in episodes && row.tvshowId == tvshowId
    {
      RowsWhere(episodes, tvshowId, None)
    }

    /** `get_all_episodes_ids_and_filepath_from_season`. */
    function EpisodesOfSeason(tvshowId: nat, seasonId: nat): (r: seq<EpisodeRow>)
      ensures forall row :: row in r <==> row in episodes && row.tvshowId == tvshowId && row.seasonId == seasonId
    {
      RowsWhere(episodes, tvshowId, Some(seasonId))
    }

    /** `get_episode_filepath`: the path of the first matching row. */
    function EpisodeFilePath(tvshowId: nat, seasonId: nat, episodeId: nat): (r: Option<string>)
      ensures r.Some? <==> EpisodeIdExists(tvshowId, seasonId, episodeId)
      ensures r.Some? ==> exists i :: 0 <= i < |episodes| && episodes[i] == EpisodeRow(tvshowId, seasonId, episodeId, r.value)
    {
      FirstPath(episodes, tvshowId, seasonId, episodeId)
    }

    /** `purge_library`: every exported row deleted. */
    function Purged(): (r: Store)
      ensures r.TvShowIds() == {} && r.MovieIds() == {} && r.seasons == {} && r.episodes == []
    {
      Store(map[], map[], {}, [])
    }
  }

  /** The rows of one show, optionally of one season of it, in table order. */
  function RowsWhere(rows: seq<EpisodeRow>, tvshowId: nat, seasonId: Option<nat>): (r: seq<EpisodeRow>)
    ensures forall row :: row in r <==>
      row in rows && row.tvshowId == tvshowId && (seasonId.Some? ==> row.seasonId == seasonId.value)
  {
    if rows == [] then []
    else
      var rest := RowsWhere(rows[1..], tvshowId, seasonId);
      if rows[0].tvshowId == tvshowId && (seasonId.Some? ==> rows[0].seasonId == seasonId.value)
      then [rows[0]] + rest else rest
  }

  /** The file path of the first row with the given episode key. */
  function FirstPath(rows: seq<EpisodeRow>, tvshowId: nat, seasonId: nat, episodeId: nat): (r: Option<string>)
    ensures r.Some? <==> exists i :: 0 <= i < |rows| && rows[i].tvshowId == tvshowId
                                     && rows[i].seasonId == seasonId && rows[i].episodeId == episodeId
    ensures r.Some? ==> exists i :: 0 <= i < |rows| && rows[i] == EpisodeRow(tvshowId, seasonId, episodeId, r.value)
  {
    if rows == [] then None
    else if rows[0].tvshowId == tvshowId && rows[0].seasonId == seasonId && rows[0].episodeId == episodeId
    then Some(rows[0].filePath)
    else
      var r := FirstPath(rows[1..], tvshowId, seasonId, episodeId);
      assert forall i :: 0 <= i < |rows| - 1 ==> rows[1..][i] == rows[i + 1];
      r
  }
}
