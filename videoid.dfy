/** The add-on's hierarchical video identity: a movie, or a show with an
    optional season and episode below it (plus supplemental videos, which the
    library code never exports). Identities are values compared structurally. */
module VideoIds {
  import opened Wrappers

  datatype MediaType = Movie | Show | Season | Episode | Supplemental

  datatype VideoId =
    | MovieId(movieid: nat)
    | ShowId(tvshowid: nat)
    | SeasonId(tvshowid: nat, seasonid: nat)
    | EpisodeId(tvshowid: nat, seasonid: nat, episodeid: nat)
    | SupplementalId(supplementalid: nat)
  {
    function Mediatype(): MediaType
    {
      match this
      case MovieId(_) => Movie
      case ShowId(_) => Show
      case SeasonId(_, _) => Season
      case EpisodeId(_, _, _) => Episode
      case SupplementalId(_) => Supplemental
    }

    /** `VideoId.value`: the id of the most specific level. */
    function Value(): nat
    {
      match this
      case MovieId(m) => m
      case ShowId(s) => s
      case SeasonId(_, se) => se
      case EpisodeId(_, _, e) => e
      case SupplementalId(x) => x
    }

    /** Membership in `VideoId.TV_TYPES`. */
    predicate IsTv()
    {
      ShowId? || SeasonId? || EpisodeId?
    }

    /** `derive_season`: only a show identity has seasons; the others raise. */
    function DeriveSeason(seasonid: nat): (r: Option<VideoId>)
      ensures r.Some? <==> ShowId?
      ensures r.Some? ==> r.value.SeasonId? && r.value.tvshowid == tvshowid && r.value.seasonid == seasonid
    {
      if ShowId? then Some(SeasonId(tvshowid, seasonid)) else None
    }

    /** `derive_episode`: only a season identity has episodes; the others raise. */
    function DeriveEpisode(episodeid: nat): (r: Option<VideoId>)
      ensures r.Some? <==> SeasonId?
      ensures r.Some? ==> r.value.EpisodeId? && r.value.tvshowid == tvshowid
                          && r.value.seasonid == seasonid && r.value.episodeid == episodeid
    {
      if SeasonId? then Some(EpisodeId(tvshowid, seasonid, episodeid)) else None
    }
  }
}
