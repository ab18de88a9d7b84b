/** The library orchestrator: the auto-update plan reconciling the exported
    items with My List, the loop that carries the plan out, and the `Library`
    object with its running flag and thin export/update/remove/clear
    operations. */
module Library {
  import opened Wrappers
  import opened Strings
  import opened VideoIds
  import opened LibraryDb
  import opened LibraryTasks

  // ---------------------------------------------------------------------------
  // The auto-update plan

  /** What `get_mylist_videoids_profile_switch` gives: the My List ids as
      strings with a parallel list of type tags, or an exception. */
  datatype MyListFetch = Fetched(ids: seq<string>, types: seq<string>) | FetchFailed

  /** The `videoids_tasks` dictionary, or an exception while building it. */
  datatype PlanResult = Planned(plan: map<VideoId, Handler>) | PlanRaised

  /** The handler a new My List entry gets, by whether its tag is 'movie':
      a movie is exported, a show gets its new episodes. */
  function NewItemHandler(isMovie: bool): Handler
  {
    if isMovie then ExportItem else ExportNewItem
  }

  /** The same choice as `auto_update_library` writes it: swapped. */
  function NewItemHandlerAsWritten(isMovie: bool): Handler
  {
    if isMovie then ExportNewItem else ExportItem
  }

  /** `unicode(videoid_value) in mylist_video_id_list`. */
  predicate InMyList(id: nat, ids: seq<string>)
  {
    NatToString(id) in ids
  }

  /** An id that is neither an exported show nor an exported movie. */
  predicate IsNew(store: Store, id: nat)
  {
    id !in store.shows && id !in store.movies
  }

  /** The identity built for a new My List entry from its type tag. */
  function NewEntryId(id: nat, tag: string): VideoId
  {
    if tag == "movie" then MovieId(id) else ShowId(id)
  }

  /** The seed: export-new for every exported show not excluded from updates. */
  function Seed(store: Store): map<VideoId, Handler>
  {
    map s | s in store.TvShowIdsWithExclude(false) :: ShowId(s) := ExportNewItem
  }

  /** Exported shows missing from My List, each to be removed. */
  function ShowRemovals(shows: set<nat>, ids: seq<string>): map<VideoId, Handler>
  {
    map s | s in shows && !InMyList(s, ids) :: ShowId(s) := RemoveItem
  }

  /** Exported movies missing from My List, each to be removed. */
  function MovieRemovals(movies: set<nat>, ids: seq<string>): map<VideoId, Handler>
  {
    map m | m in movies && !InMyList(m, ids) :: MovieId(m) := RemoveItem
  }

  /** The loop over My List adding new entries, up to the end of `ids`: an id
      that is not a number (`int()` raises) or a new entry without a type
      tag (the index is out of range) raises. */
  function WithAdditions(plan: map<VideoId, Handler>, store: Store, ids: seq<string>, types: seq<string>,
                         handlerFor: bool -> Handler): Option<map<VideoId, Handler>>
  {
    if ids == [] then Some(plan)
    else
      var i := |ids| - 1;
      match WithAdditions(plan, store, ids[..i], types, handlerFor)
      case None => None
      case Some(p) =>
        match ParseNat(ids[i])
        case None => None
        case Some(n) =>
          if !IsNew(store, n) then Some(p)
          else if i >= |types| then None
          else Some(p[NewEntryId(n, types[i]) := handlerFor(types[i] == "movie")])
  }

  /** `videoids_tasks` as `auto_update_library` builds it, for a given choice
      of handler for new entries. */
  function PlanWith(store: Store, syncWithMylist: bool, fetch: MyListFetch, handlerFor: bool -> Handler): PlanResult
  {
    if !syncWithMylist then Planned(Seed(store))
    else match fetch
      case FetchFailed => PlanRaised
      case Fetched(ids, types) =>
        var removed := Seed(store) + ShowRemovals(store.TvShowIds(), ids) + MovieRemovals(store.MovieIds(), ids);
        match WithAdditions(removed, store, ids, types, handlerFor)
        case None => PlanRaised
        case Some(p) => Planned(p)
  }

  /** The plan as written (a new movie gets export-new, a new show export). */
  function PlanAsWritten(store: Store, syncWithMylist: bool, fetch: MyListFetch): PlanResult
  {
    PlanWith(store, syncWithMylist, fetch, NewItemHandlerAsWritten)
  }

  /** The plan with a new movie exported and a new show given its episodes. */
  function Plan(store: Store, syncWithMylist: bool, fetch: MyListFetch): PlanResult
  {
    PlanWith(store, syncWithMylist, fetch, NewItemHandler)
  }

  // ---------------------------------------------------------------------------
  // Properties of the plan

  /** Seeded: an exported show not flagged exclude_update. */
  predicate Seeded(store: Store, v: VideoId)
  {
    v.ShowId? && v.tvshowid in store.shows && !store.shows[v.tvshowid].excludeUpdate
  }

  /** Stale: an exported show or movie that My List no longer holds. */
  predicate Stale(store: Store, ids: seq<string>, v: VideoId)
  {
    ((v.ShowId? && v.tvshowid in store.shows) || (v.MovieId? && v.movieid in store.movies))
    && !InMyList(v.Value(), ids)
  }

  /** The i-th My List entry is a well-formed new entry. */
  predicate AddsAt(store: Store, ids: seq<string>, types: seq<string>, i: int)
  {
    0 <= i < |ids| && i < |types| && ParseNat(ids[i]).Some? && IsNew(store, ParseNat(ids[i]).value)
  }

  /** Added: the identity of some new My List entry among the first k. */
  predicate Added(store: Store, ids: seq<string>, types: seq<string>, k: int, v: VideoId)
  {
    exists i :: 0 <= i < k && AddsAt(store, ids, types, i) && v == NewEntryId(ParseNat(ids[i]).value, types[i])
  }

  /** The i-th My List entry makes the loop raise. */
  predicate BadAt(store: Store, ids: seq<string>, types: seq<string>, i: int)
  {
    0 <= i < |ids| && (ParseNat(ids[i]).None? || (IsNew(store, ParseNat(ids[i]).value) && i >= |types|))
  }

  lemma AddedPrefix(store: Store, ids: seq<string>, types: seq<string>, k: nat, v: VideoId)
    requires k <= |ids|
    ensures Added(store, ids[..k], types, k, v) <==> Added(store, ids, types, k, v)
  {
    if Added(store, ids, types, k, v) {
      var i :| 0 <= i < k && AddsAt(store, ids, types, i) && v == NewEntryId(ParseNat(ids[i]).value, types[i]);
      assert ids[..k][i] == ids[i];
    }
    if Added(store, ids[..k], types, k, v) {
      var i :| 0 <= i < k && AddsAt(store, ids[..k], types, i) && v == NewEntryId(ParseNat(ids[..k][i]).value, types[i]);
      assert ids[..k][i] == ids[i];
    }
  }

  /** The addition loop raises exactly when some entry is bad; otherwise it
      adds exactly the new entries' identities, each with the handler its tag
      chooses, and leaves every other entry as it was. */
  lemma {:induction false} AdditionsExact(plan: map<VideoId, Handler>, store: Store, ids: seq<string>,
                                          types: seq<string>, handlerFor: bool -> Handler)
    ensures var r := WithAdditions(plan, store, ids, types, handlerFor);
            && (r.None? <==> exists i :: BadAt(store, ids, types, i))
            && (r.Some? ==> forall v :: v in r.value <==> v in plan || Added(store, ids, types, |ids|, v))
            && (r.Some? ==> forall v :: v in r.value ==>
                  r.value[v] == if Added(store, ids, types, |ids|, v) then handlerFor(v.MovieId?) else plan[v])
  {
    if ids != [] {
      var i := |ids| - 1;
      var init := ids[..i];
      AdditionsExact(plan, store, init, types, handlerFor);
      var r := WithAdditions(plan, store, ids, types, handlerFor);
      var r0 := WithAdditions(plan, store, init, types, handlerFor);
      assert forall j :: 0 <= j < i ==> init[j] == ids[j];
      assert forall j :: BadAt(store, init, types, j) <==> 0 <= j < i && BadAt(store, ids, types, j);
      forall v ensures Added(store, ids, types, |ids|, v)
                       <==> Added(store, init, types, i, v) || (AddsAt(store, ids, types, i)
                                                                 && v == NewEntryId(ParseNat(ids[i]).value, types[i])) {
        AddedPrefix(store, ids, types, i, v);
        if Added(store, ids, types, |ids|, v) {
          var j :| 0 <= j < |ids| && AddsAt(store, ids, types, j) && v == NewEntryId(ParseNat(ids[j]).value, types[j]);
          if j < i {
            assert Added(store, ids, types, i, v);
          }
        }
      }
      if exists j :: BadAt(store, ids, types, j) {
        var j :| BadAt(store, ids, types, j);
        if j < i {
          assert BadAt(store, init, types, j);
          assert r0.None?;
        } else {
          assert j == i;
          assert r.None?;
        }
      }
      if r.None? {
        if r0.None? {
          var j :| BadAt(store, init, types, j);
          assert BadAt(store, ids, types, j);
        } else {
          assert BadAt(store, ids, types, i);
        }
      }
      if r0.Some? && ParseNat(ids[i]).Some? && AddsAt(store, ids, types, i) {
        var n := ParseNat(ids[i]).value;
        assert NewEntryId(n, types[i]).MovieId? == (types[i] == "movie");
      }
    }
  }

  /** The corrected plan with sync: its entries are exactly the seeded, stale
      and added identities; a stale one is removed, an added one gets the
      handler of its tag, a seeded one gets its new episodes. It raises
      exactly when the fetch fails or some My List entry is bad. */
  lemma PlanExact(store: Store, ids: seq<string>, types: seq<string>)
    ensures var r := Plan(store, true, Fetched(ids, types));
            && (r.PlanRaised? <==> exists i :: BadAt(store, ids, types, i))
            && (r.Planned? ==> forall v :: v in r.plan <==>
                  Seeded(store, v) || Stale(store, ids, v) || Added(store, ids, types, |ids|, v))
            && (r.Planned? ==> forall v :: v in r.plan ==>
                  r.plan[v] == if Stale(store, ids, v) then RemoveItem
                               else if Added(store, ids, types, |ids|, v) then NewItemHandler(v.MovieId?)
                               else ExportNewItem)
  {
    PlanWithExact(store, ids, types, NewItemHandler);
  }

  lemma PlanWithExact(store: Store, ids: seq<string>, types: seq<string>, handlerFor: bool -> Handler)
    ensures var r := PlanWith(store, true, Fetched(ids, types), handlerFor);
            && (r.PlanRaised? <==> exists i :: BadAt(store, ids, types, i))
            && (r.Planned? ==> forall v :: v in r.plan <==>
                  Seeded(store, v) || Stale(store, ids, v) || Added(store, ids, types, |ids|, v))
            && (r.Planned? ==> forall v :: v in r.plan ==>
                  r.plan[v] == if Stale(store, ids, v) then RemoveItem
                               else if Added(store, ids, types, |ids|, v) then handlerFor(v.MovieId?)
                               else ExportNewItem)
  {
    var removed := Seed(store) + ShowRemovals(store.TvShowIds(), ids) + MovieRemovals(store.MovieIds(), ids);
    RemovedExact(store, ids);
    AddedNotStale(store, ids, types);
    AdditionsExact(removed, store, ids, types, handlerFor);
  }

  /** Before the additions the plan holds the seeded and the stale
      identities, a stale one to be removed. */
  lemma RemovedExact(store: Store, ids: seq<string>)
    ensures var removed := Seed(store) + ShowRemovals(store.TvShowIds(), ids) + MovieRemovals(store.MovieIds(), ids);
            && (forall v :: v in removed <==> Seeded(store, v) || Stale(store, ids, v))
            && (forall v :: v in removed ==> removed[v] == if Stale(store, ids, v) then RemoveItem else ExportNewItem)
  {
  }

  /** A new My List entry is in My List, so it is never stale. */
  lemma AddedNotStale(store: Store, ids: seq<string>, types: seq<string>)
    ensures forall v :: Added(store, ids, types, |ids|, v) ==> !Stale(store, ids, v)
  {
    forall v | Added(store, ids, types, |ids|, v) ensures !Stale(store, ids, v) {
      var i :| 0 <= i < |ids| && AddsAt(store, ids, types, i) && v == NewEntryId(ParseNat(ids[i]).value, types[i]);
    }
  }

  /** Without sync the plan is just the seed, whatever My List holds. */
  lemma PlanWithoutSync(store: Store, fetch: MyListFetch)
    ensures var r := Plan(store, false, fetch);
            && r.Planned?
            && (forall v :: v in r.plan <==> Seeded(store, v))
            && (forall v :: v in r.plan ==> r.plan[v] == ExportNewItem)
  {
  }

  /** After `clear_library` nothing is exported, so a sync plans exactly one
      export per well-formed My List entry. */
  lemma SyncAfterClearExportsMyList(store: Store, ids: seq<string>, types: seq<string>)
    ensures var r := Plan(store.Purged(), true, Fetched(ids, types));
            r.Planned? ==> forall v :: v in r.plan <==> Added(store.Purged(), ids, types, |ids|, v)
  {
    PlanExact(store.Purged(), ids, types);
  }

  function ExampleStore(): Store
  {
    Store(map[], map[1 := ShowRow(false, false), 2 := ShowRow(false, false)], {}, [])
  }

  /** My List in the example: show 1, then movie 3. */
  predicate ExampleMyList(ids: seq<string>, types: seq<string>)
  {
    ids == [NatToString(1), NatToString(3)] && types == ["show", "movie"]
  }

  lemma ExampleEntries(ids: seq<string>, types: seq<string>)
    requires ExampleMyList(ids, types)
    ensures forall i :: !BadAt(ExampleStore(), ids, types, i)
    ensures forall v :: Added(ExampleStore(), ids, types, 2, v) <==> v == MovieId(3)
  {
    ParseNatToString(1);
    ParseNatToString(3);
    assert AddsAt(ExampleStore(), ids, types, 1) && !AddsAt(ExampleStore(), ids, types, 0);
    assert NewEntryId(3, types[1]) == MovieId(3);
  }

  lemma ExampleStale(ids: seq<string>, types: seq<string>)
    requires ExampleMyList(ids, types)
    ensures forall v :: Stale(ExampleStore(), ids, v) <==> v == ShowId(2)
  {
    ParseNatToString(1);
    ParseNatToString(2);
    ParseNatToString(3);
    assert InMyList(1, ids) && !InMyList(2, ids);
  }

  /** The reconciliation example: exported shows 1 and 2, no movie, My List
      holding show 1 and movie 3; the plan gets show 1's new episodes,
      removes show 2 and exports movie 3. */
  lemma ReconciliationExample(ids: seq<string>, types: seq<string>)
    requires ExampleMyList(ids, types)
    ensures var r := Plan(ExampleStore(), true, Fetched(ids, types));
            && r.Planned?
            && r.plan.Keys == {ShowId(1), ShowId(2), MovieId(3)}
            && r.plan[ShowId(1)] == ExportNewItem && r.plan[ShowId(2)] == RemoveItem && r.plan[MovieId(3)] == ExportItem
  {
    ExampleEntries(ids, types);
    ExampleStale(ids, types);
    PlanExact(ExampleStore(), ids, types);
    var r := Plan(ExampleStore(), true, Fetched(ids, types));
    assert Seeded(ExampleStore(), ShowId(1)) && Stale(ExampleStore(), ids, ShowId(2));
    assert Added(ExampleStore(), ids, types, |ids|, MovieId(3)) && !Stale(ExampleStore(), ids, MovieId(3));
    assert r.plan[MovieId(3)] == NewItemHandler(true);
  }

  /** A new My List movie as written: the plan gives it export-new, which on
      movie metadata compiles to no task, so the movie is never exported;
      the corrected plan exports it as one movie task. */
  lemma NewMovieNeverExportedAsWritten(store: Store, ids: seq<string>, types: seq<string>, i: nat,
                                       nfo: Option<NfoSettings>, host: Host, title: string, year: nat)
    requires AddsAt(store, ids, types, i) && types[i] == "movie"
    requires forall j :: !BadAt(store, ids, types, j)
    requires var v := MovieId(ParseNat(ids[i]).value);
             host.getMetadata(v, true) == Available([MovieItem(title, year)])
             && host.getMetadata(v, false) == Available([MovieItem(title, year)])
    ensures var v := MovieId(ParseNat(ids[i]).value);
            var asWritten := PlanAsWritten(store, true, Fetched(ids, types));
            && asWritten.Planned? && v in asWritten.plan && asWritten.plan[v] == ExportNewItem
            && Compile(v, ExportNewItem, nfo, store, host) == Tasks([])
    ensures var v := MovieId(ParseNat(ids[i]).value);
            var corrected := Plan(store, true, Fetched(ids, types));
            && corrected.Planned? && v in corrected.plan && corrected.plan[v] == ExportItem
            && Compile(v, ExportItem, nfo, store, host).Tasks?
            && |Compile(v, ExportItem, nfo, store, host).tasks| == 1
  {
    AddedMovieHandler(store, ids, types, i, NewItemHandlerAsWritten);
    AddedMovieHandler(store, ids, types, i, NewItemHandler);
  }

  /** A new My List movie gets the handler chosen for movies. */
  lemma AddedMovieHandler(store: Store, ids: seq<string>, types: seq<string>, i: nat, handlerFor: bool -> Handler)
    requires AddsAt(store, ids, types, i) && types[i] == "movie"
    requires forall j :: !BadAt(store, ids, types, j)
    ensures var v := MovieId(ParseNat(ids[i]).value);
            var r := PlanWith(store, true, Fetched(ids, types), handlerFor);
            r.Planned? && v in r.plan && r.plan[v] == handlerFor(true)
  {
    var v := MovieId(ParseNat(ids[i]).value);
    assert Added(store, ids, types, |ids|, v);
    PlanWithExact(store, ids, types, handlerFor);
  }

  // ---------------------------------------------------------------------------
  // Carrying the plan out

  /** One plan entry, in the order the loop visits it. */
  datatype Entry = Entry(videoid: VideoId, handler: Handler)

  /** `order` visits every entry of `plan` exactly once. */
  predicate Enumerates(order: seq<Entry>, plan: map<VideoId, Handler>)
  {
    && (forall i, j :: 0 <= i < j < |order| ==> order[i].videoid != order[j].videoid)
    && (forall i :: 0 <= i < |order| ==> order[i].videoid in plan && plan[order[i].videoid] == order[i].handler)
    && (forall v :: v in plan ==> exists i :: 0 <= i < |order| && order[i].videoid == v)
  }

  /** The inputs of `_update_library` besides the plan: the NFO override the
      user chose (when asked), whether a cancel clears the library, and the
      state of the cancel button and of Kodi's abort request after the i-th
      visited entry. */
  datatype UpdateInputs = UpdateInputs(nfoOverride: Option<NfoSettings>, clearOnCancel: bool,
                                       canceled: nat -> bool, aborted: nat -> bool)

  /** How `_update_library` ended. */
  datatype Outcome = Completed | Interrupted(cleared: bool) | UpdateRaised

  /** One visited entry: the executor run on it and the messages shown. */
  datatype Run = Run(videoid: VideoId, handler: Handler, nfo: NfoSettings, execution: Execution, messages: seq<string>)

  datatype UpdateRun = UpdateRun(runs: seq<Run>, outcome: Outcome)

  /** `int(videoid.value) in excluded_videoids_values`: the numeric value is
      compared whatever the kind of identity. */
  predicate Excluded(store: Store, v: VideoId)
  {
    v.Value() in store.TvShowIdsWithExclude(true)
  }

  /** The NFO settings of an entry: the override when there is one; else the
      stored per-show preference for an exported show's value; else the
      defaults. */
  function NfoFor(store: Store, inputs: UpdateInputs, host: Host, v: VideoId): NfoSettings
  {
    if inputs.nfoOverride.None? && v.Value() in store.TvShowIds()
    then host.nfoFromPreference(store.ShowNfoExport(v.Value()))
    else if inputs.nfoOverride.Some? then inputs.nfoOverride.value
    else host.nfoDefaults
  }

  /** The ` (i/n)` suffix of a progress message, shown only when there is
      more than one task. */
  function ProgressLabel(p: Progress): string
  {
    if p.total > 1 then " (" + NatToString(p.index) + "/" + NatToString(p.total) + ")" else ""
  }

  /** The suffix as written, adding one to an index that already counts from 1. */
  function ProgressLabelAsWritten(p: Progress): string
  {
    if p.total > 1 then " (" + NatToString(p.index + 1) + "/" + NatToString(p.total) + ")" else ""
  }

  /** The progress messages of one executor run: each task's title and its
      label. With the correction of Finding 3 in the label's index. */
  function Messages(e: Execution): seq<string>
  {
    if e.ExecRaised? then []
    else seq(|e.progress|, k requires 0 <= k < |e.progress| => e.progress[k].title + ProgressLabel(e.progress[k]))
  }

  /** Running the executor on one entry with its NFO settings. With the
      corrections of Findings 1 and 3 (through `Execute` and `Messages`). */
  function RunOf(store: Store, inputs: UpdateInputs, host: Host, entry: Entry): Run
  {
    var nfo := NfoFor(store, inputs, host, entry.videoid);
    var e := Execute(entry.videoid, [entry.handler], Some(nfo), store, host);
    Run(entry.videoid, entry.handler, nfo, e, Messages(e))
  }

  /** What `_update_library` does from the i-th entry of `order` on. With
      the corrections of Findings 1 and 3, through `RunOf`. */
  function UpdateFrom(store: Store, order: seq<Entry>, i: nat, inputs: UpdateInputs, host: Host): UpdateRun
    decreases |order| - i
  {
    if i >= |order| then UpdateRun([], Completed)
    else if Excluded(store, order[i].videoid) then UpdateFrom(store, order, i + 1, inputs, host)
    else
      var run := RunOf(store, inputs, host, order[i]);
      if run.execution.ExecRaised? then UpdateRun([run], UpdateRaised)
      else if inputs.canceled(i) && inputs.clearOnCancel then UpdateRun([run], Interrupted(true))
      else if inputs.aborted(i) then UpdateRun([run], Interrupted(false))
      else
        var rest := UpdateFrom(store, order, i + 1, inputs, host);
        UpdateRun([run] + rest.runs, rest.outcome)
  }

  // ---------------------------------------------------------------------------
  // Properties of the update loop

  /** Every run is of a non-excluded entry of `order[i..]`, with the NFO
      settings chosen for its identity. */
  predicate RunsFromOrder(runs: seq<Run>, store: Store, order: seq<Entry>, i: nat, inputs: UpdateInputs, host: Host)
    requires i <= |order|
  {
    forall k :: 0 <= k < |runs| ==>
      && !Excluded(store, runs[k].videoid)
      && runs[k].nfo == NfoFor(store, inputs, host, runs[k].videoid)
      && Entry(runs[k].videoid, runs[k].handler) in order[i..]
  }

  /** An excluded entry is never run; every run is of an entry of the order
      and uses the NFO settings chosen for its identity. */
  lemma {:induction false} UpdateRunsNotExcluded(store: Store, order: seq<Entry>, i: nat, inputs: UpdateInputs, host: Host)
    requires i <= |order|
    ensures RunsFromOrder(UpdateFrom(store, order, i, inputs, host).runs, store, order, i, inputs, host)
    decreases |order| - i
  {
    if i < |order| {
      UpdateRunsNotExcluded(store, order, i + 1, inputs, host);
      var rest := UpdateFrom(store, order, i + 1, inputs, host).runs;
      var run := RunOf(store, inputs, host, order[i]);
      assert order[i..] == [order[i]] + order[i + 1..];
      if !Excluded(store, order[i].videoid) {
        assert RunsFromOrder([run], store, order, i, inputs, host);
        forall k | 0 <= k < |rest|
          ensures Entry(rest[k].videoid, rest[k].handler) in order[i..]
        {
          assert Entry(rest[k].videoid, rest[k].handler) in order[i + 1..];
        }
        assert RunsFromOrder([run] + rest, store, order, i, inputs, host);
      }
    }
  }

  /** With an override every run uses it, whatever the per-show preference. */
  lemma OverrideUsedForAll(store: Store, order: seq<Entry>, inputs: UpdateInputs, host: Host)
    requires inputs.nfoOverride.Some?
    ensures var u := UpdateFrom(store, order, 0, inputs, host);
            forall k :: 0 <= k < |u.runs| ==> u.runs[k].nfo == inputs.nfoOverride.value
  {
    UpdateRunsNotExcluded(store, order, 0, inputs, host);
    var u := UpdateFrom(store, order, 0, inputs, host);
    assert forall k :: 0 <= k < |u.runs| ==> u.runs[k].nfo == NfoFor(store, inputs, host, u.runs[k].videoid);
  }

  /** Without clear-on-cancel the cancel button changes nothing. */
  lemma {:induction false} CancelIgnoredWithoutClear(store: Store, order: seq<Entry>, i: nat, inputs: UpdateInputs,
                                                     host: Host, canceled: nat -> bool)
    requires !inputs.clearOnCancel
    ensures UpdateFrom(store, order, i, inputs, host) == UpdateFrom(store, order, i, inputs.(canceled := canceled), host)
    decreases |order| - i
  {
    if i < |order| {
      var inputs' := inputs.(canceled := canceled);
      assert NfoFor(store, inputs, host, order[i].videoid) == NfoFor(store, inputs', host, order[i].videoid);
      assert RunOf(store, inputs, host, order[i]) == RunOf(store, inputs', host, order[i]);
      CancelIgnoredWithoutClear(store, order, i + 1, inputs, host, canceled);
    }
  }

  /** The library is cleared only on a cancel with clear-on-cancel set. */
  lemma {:induction false} ClearedOnlyOnCancel(store: Store, order: seq<Entry>, i: nat, inputs: UpdateInputs, host: Host)
    ensures UpdateFrom(store, order, i, inputs, host).outcome == Interrupted(true) ==>
              inputs.clearOnCancel && exists j :: i <= j < |order| && inputs.canceled(j)
    decreases |order| - i
  {
    if i < |order| {
      ClearedOnlyOnCancel(store, order, i + 1, inputs, host);
    }
  }

  /** The entries of `order[i..]` that are not excluded. */
  function Visited(store: Store, order: seq<Entry>, i: nat): seq<Entry>
    decreases |order| - i
  {
    if i >= |order| then []
    else if Excluded(store, order[i].videoid) then Visited(store, order, i + 1)
    else [order[i]] + Visited(store, order, i + 1)
  }

  /** A completed loop ran every entry that is not excluded, in order. */
  lemma {:induction false} CompletedRunsAll(store: Store, order: seq<Entry>, i: nat, inputs: UpdateInputs, host: Host)
    ensures var u := UpdateFrom(store, order, i, inputs, host);
            u.outcome == Completed ==>
              && |u.runs| == |Visited(store, order, i)|
              && forall k :: 0 <= k < |u.runs| ==>
                   Entry(u.runs[k].videoid, u.runs[k].handler) == Visited(store, order, i)[k]
    decreases |order| - i
  {
    if i < |order| && !Excluded(store, order[i].videoid) {
      CompletedRunsAll(store, order, i + 1, inputs, host);
      var run := RunOf(store, inputs, host, order[i]);
      var rest := UpdateFrom(store, order, i + 1, inputs, host);
      var u := UpdateFrom(store, order, i, inputs, host);
      if u.outcome == Completed {
        assert u.runs == [run] + rest.runs;
        assert Visited(store, order, i) == [order[i]] + Visited(store, order, i + 1);
      }
    } else if i < |order| {
      CompletedRunsAll(store, order, i + 1, inputs, host);
    }
  }

  /** The j-th entry ends the loop when it is visited: its compilation
      raises, a cancel comes with clear-on-cancel set, or an abort comes. */
  predicate Stops(store: Store, order: seq<Entry>, j: nat, inputs: UpdateInputs, host: Host)
    requires j < |order|
  {
    && !Excluded(store, order[j].videoid)
    && (|| RunOf(store, inputs, host, order[j]).execution.ExecRaised?
        || (inputs.canceled(j) && inputs.clearOnCancel)
        || inputs.aborted(j))
  }

  /** The loop completes exactly when no entry it visits stops it. */
  lemma CompletesUninterrupted(store: Store, order: seq<Entry>, i: nat, inputs: UpdateInputs, host: Host)
    ensures UpdateFrom(store, order, i, inputs, host).outcome == Completed
            <==> forall j :: i <= j < |order| ==> !Stops(store, order, j, inputs, host)
  {
    CompletesWithoutStop(store, order, i, inputs, host);
    forall j | i <= j < |order|
      ensures UpdateFrom(store, order, i, inputs, host).outcome == Completed ==> !Stops(store, order, j, inputs, host)
    {
      StopPreventsCompletion(store, order, i, j, inputs, host);
    }
  }

  /** With no entry stopping it, the loop completes. */
  lemma {:induction false} CompletesWithoutStop(store: Store, order: seq<Entry>, i: nat, inputs: UpdateInputs, host: Host)
    ensures (forall j :: i <= j < |order| ==> !Stops(store, order, j, inputs, host))
            ==> UpdateFrom(store, order, i, inputs, host).outcome == Completed
    decreases |order| - i
  {
    if i < |order| {
      CompletesWithoutStop(store, order, i + 1, inputs, host);
      if !Stops(store, order, i, inputs, host) {
        PassesOn(store, order, i, inputs, host);
      }
    }
  }

  /** An entry that stops the loop keeps it from completing. */
  lemma {:induction false} StopPreventsCompletion(store: Store, order: seq<Entry>, i: nat, j: nat, inputs: UpdateInputs,
                                                  host: Host)
    requires i <= j < |order|
    ensures UpdateFrom(store, order, i, inputs, host).outcome == Completed ==> !Stops(store, order, j, inputs, host)
    decreases j - i
  {
    if i < j && !Stops(store, order, i, inputs, host) {
      StopPreventsCompletion(store, order, i + 1, j, inputs, host);
      PassesOn(store, order, i, inputs, host);
    } else {
      UpdateStep(store, order, i, inputs, host);
    }
  }

  /** The first entry that stops the loop decides how it ends: a raise, then
      a clearing cancel, then an abort, in the order the loop tests them. */
  lemma FirstStopDecides(store: Store, order: seq<Entry>, i: nat, j: nat, inputs: UpdateInputs, host: Host)
    requires i <= j < |order| && Stops(store, order, j, inputs, host) && NoStopBetween(store, order, i, j, inputs, host)
    ensures var u := UpdateFrom(store, order, i, inputs, host);
            var raised := RunOf(store, inputs, host, order[j]).execution.ExecRaised?;
            && (raised ==> u.outcome == UpdateRaised)
            && (!raised && inputs.canceled(j) && inputs.clearOnCancel ==> u.outcome == Interrupted(true))
            && (!raised && !(inputs.canceled(j) && inputs.clearOnCancel) && inputs.aborted(j) ==>
                  u.outcome == Interrupted(false))
  {
    PassesOnUntil(store, order, i, j, inputs, host);
    UpdateStep(store, order, j, inputs, host);
  }

  /** No entry of `order[i..j]` stops the loop. */
  predicate NoStopBetween(store: Store, order: seq<Entry>, i: nat, j: nat, inputs: UpdateInputs, host: Host)
    requires j <= |order|
    decreases j - i
  {
    i >= j || (!Stops(store, order, i, inputs, host) && NoStopBetween(store, order, i + 1, j, inputs, host))
  }

  /** Entries that do not stop the loop leave its outcome to the entries after them. */
  lemma {:induction false} PassesOnUntil(store: Store, order: seq<Entry>, i: nat, j: nat, inputs: UpdateInputs,
                                         host: Host)
    requires i <= j <= |order| && NoStopBetween(store, order, i, j, inputs, host)
    ensures UpdateFrom(store, order, i, inputs, host).outcome == UpdateFrom(store, order, j, inputs, host).outcome
    decreases j - i
  {
    if i < j {
      PassesOnUntil(store, order, i + 1, j, inputs, host);
      PassesOn(store, order, i, inputs, host);
    }
  }

  /** An entry that does not stop the loop leaves its outcome to the rest. */
  lemma PassesOn(store: Store, order: seq<Entry>, i: nat, inputs: UpdateInputs, host: Host)
    requires i < |order| && !Stops(store, order, i, inputs, host)
    ensures UpdateFrom(store, order, i, inputs, host).outcome == UpdateFrom(store, order, i + 1, inputs, host).outcome
  {
    UpdateStep(store, order, i, inputs, host);
  }

  /** The label as written numbers the first task 2 and the last one past
      the total; the corrected label numbers them 1 to the total. */
  lemma ProgressLabelOffByOne(title: string)
    ensures ProgressLabelAsWritten(Progress(2, 2, title)) == " (3/2)"
    ensures ProgressLabel(Progress(2, 2, title)) == " (2/2)"
    ensures ProgressLabelAsWritten(Progress(1, 2, title)) == " (2/2)"
    ensures ProgressLabel(Progress(1, 2, title)) == " (1/2)"
  {
    assert NatToString(1) == "1" && NatToString(2) == "2" && NatToString(3) == "3";
  }

  /** Every corrected label of an executor run counts within the total: the
      k-th task's message ends in ` (k+1/n)` for n tasks, and carries no
      suffix when there is a single task. */
  lemma LabelsWithinTotal(videoid: VideoId, handlers: seq<Handler>, nfo: Option<NfoSettings>, store: Store, host: Host)
    ensures var e := Execute(videoid, handlers, nfo, store, host);
            e.Ran? ==> forall k :: 0 <= k < |e.progress| ==>
              && 1 <= e.progress[k].index <= e.progress[k].total == |e.progress|
              && ProgressLabel(e.progress[k])
                 == (if |e.progress| > 1 then " (" + NatToString(k + 1) + "/" + NatToString(|e.progress|) + ")" else "")
              && Messages(e)[k] == e.progress[k].title + ProgressLabel(e.progress[k])
  {
    ExecuteProgressCounts(videoid, handlers, nfo, store, host);
  }

  // ---------------------------------------------------------------------------
  // Building the plan step by step

  /** One turn of the show removal loop, on the plan built so far. */
  lemma ShowRemovalsStep(plan: map<VideoId, Handler>, done: set<nat>, s: nat, ids: seq<string>)
    ensures plan + ShowRemovals(done + {s}, ids)
            == if InMyList(s, ids) then plan + ShowRemovals(done, ids)
               else (plan + ShowRemovals(done, ids))[ShowId(s) := RemoveItem]
  {
    var before, after := ShowRemovals(done, ids), ShowRemovals(done + {s}, ids);
    assert after == if InMyList(s, ids) then before else before[ShowId(s) := RemoveItem];
    if !InMyList(s, ids) {
      MapUnionUpdate(plan, before, ShowId(s), RemoveItem);
    }
  }

  /** One turn of the movie removal loop, on the plan built so far. */
  lemma MovieRemovalsStep(plan: map<VideoId, Handler>, done: set<nat>, m: nat, ids: seq<string>)
    ensures plan + MovieRemovals(done + {m}, ids)
            == if InMyList(m, ids) then plan + MovieRemovals(done, ids)
               else (plan + MovieRemovals(done, ids))[MovieId(m) := RemoveItem]
  {
    var before, after := MovieRemovals(done, ids), MovieRemovals(done + {m}, ids);
    assert after == if InMyList(m, ids) then before else before[MovieId(m) := RemoveItem];
    if !InMyList(m, ids) {
      MapUnionUpdate(plan, before, MovieId(m), RemoveItem);
    }
  }

  lemma MapUnionUpdate(a: map<VideoId, Handler>, b: map<VideoId, Handler>, k: VideoId, h: Handler)
    ensures a + b[k := h] == (a + b)[k := h]
  {
  }

  /** Once the addition loop has raised it stays raised. */
  lemma {:induction false} AdditionsRaisedStays(plan: map<VideoId, Handler>, store: Store, ids: seq<string>,
                                               types: seq<string>, handlerFor: bool -> Handler, k: nat)
    requires k <= |ids|
    requires WithAdditions(plan, store, ids[..k], types, handlerFor).None?
    ensures WithAdditions(plan, store, ids, types, handlerFor).None?
    decreases |ids|
  {
    if k < |ids| {
      var init := ids[..|ids| - 1];
      assert init[..k] == ids[..k];
      AdditionsRaisedStays(plan, store, init, types, handlerFor, k);
    } else {
      assert ids[..k] == ids;
    }
  }

  /** The loop over the exported shows: each one missing from My List is
      set to be removed. */
  method RemoveStaleShows(plan: map<VideoId, Handler>, shows: set<nat>, ids: seq<string>)
    returns (r: map<VideoId, Handler>)
    ensures r == plan + ShowRemovals(shows, ids)
  {
    r := plan;
    var todo, done := shows, {};
    while todo != {}
      invariant todo + done == shows && todo !! done
      invariant r == plan + ShowRemovals(done, ids)
      decreases todo
    {
      var s :| s in todo;
      ShowRemovalsStep(plan, done, s, ids);
      if !InMyList(s, ids) {
        r := r[ShowId(s) := RemoveItem];
      }
      done, todo := done + {s}, todo - {s};
    }
  }

  /** The loop over the exported movies, likewise. */
  method RemoveStaleMovies(plan: map<VideoId, Handler>, movies: set<nat>, ids: seq<string>)
    returns (r: map<VideoId, Handler>)
    ensures r == plan + MovieRemovals(movies, ids)
  {
    r := plan;
    var todo, done := movies, {};
    while todo != {}
      invariant todo + done == movies && todo !! done
      invariant r == plan + MovieRemovals(done, ids)
      decreases todo
    {
      var m :| m in todo;
      MovieRemovalsStep(plan, done, m, ids);
      if !InMyList(m, ids) {
        r := r[MovieId(m) := RemoveItem];
      }
      done, todo := done + {m}, todo - {m};
    }
  }

  /** The loop over My List adding the new entries. With the correction of
      Finding 2: a movie gets the export handler and a show the export-new
      handler, the reverse of the code as written. */
  method AddMyListEntries(plan: map<VideoId, Handler>, store: Store, ids: seq<string>, types: seq<string>)
    returns (r: Option<map<VideoId, Handler>>)
    ensures r == WithAdditions(plan, store, ids, types, NewItemHandler)
  {
    var p := plan;
    var i := 0;
    while i < |ids|
      invariant 0 <= i <= |ids|
      invariant WithAdditions(plan, store, ids[..i], types, NewItemHandler) == Some(p)
    {
      assert ids[..i + 1][..i] == ids[..i];
      var n := ParseNat(ids[i]);
      if n.None? {
        AdditionsRaisedStays(plan, store, ids, types, NewItemHandler, i + 1);
        return None;
      }
      if IsNew(store, n.value) {
        if i >= |types| {
          AdditionsRaisedStays(plan, store, ids, types, NewItemHandler, i + 1);
          return None;
        }
        var isMovie := types[i] == "movie";
        var videoid := if isMovie then MovieId(n.value) else ShowId(n.value);
        p := p[videoid := NewItemHandler(isMovie)];
      }
      i := i + 1;
    }
    assert ids[..i] == ids;
    return Some(p);
  }

  /** `auto_update_library`'s construction of `videoids_tasks`: the seed
      comprehension, then (with sync) the removal loops over the exported
      shows and movies and the addition loop over My List. With the
      correction of Finding 2 in the handler a new entry gets. */
  method BuildPlan(store: Store, syncWithMylist: bool, fetch: MyListFetch) returns (r: PlanResult)
    ensures r == Plan(store, syncWithMylist, fetch)
  {
    var plan := Seed(store);
    if !syncWithMylist {
      return Planned(plan);
    }
    if fetch.FetchFailed? {
      return PlanRaised;
    }
    plan := RemoveStaleShows(plan, store.TvShowIds(), fetch.ids);
    plan := RemoveStaleMovies(plan, store.MovieIds(), fetch.ids);
    var added := AddMyListEntries(plan, store, fetch.ids, fetch.types);
    if added.None? {
      return PlanRaised;
    }
    return Planned(added.value);
  }

  /** One order in which the dictionary's entries are visited. */
  method EnumeratePlan(plan: map<VideoId, Handler>) returns (order: seq<Entry>)
    ensures Enumerates(order, plan)
  {
    order := [];
    var rest := plan;
    while rest != map[]
      invariant Enumerating(plan, rest, order)
      decreases |rest.Keys|
    {
      var v :| v in rest;
      EnumerateStep(plan, rest, order, v);
      order := order + [Entry(v, rest[v])];
      rest := rest - {v};
    }
    EnumerateDone(plan, order);
  }

  /** The loop state of `EnumeratePlan`: `order` holds the visited entries
      once each, and `rest` the others. */
  ghost predicate Enumerating(plan: map<VideoId, Handler>, rest: map<VideoId, Handler>, order: seq<Entry>)
  {
    && rest.Keys <= plan.Keys
    && (forall v :: v in rest ==> rest[v] == plan[v])
    && (forall v :: v in plan ==> (v in rest <==> forall i :: 0 <= i < |order| ==> order[i].videoid != v))
    && (forall i :: 0 <= i < |order| ==> order[i].videoid in plan && plan[order[i].videoid] == order[i].handler)
    && (forall i, j :: 0 <= i < j < |order| ==> order[i].videoid != order[j].videoid)
  }

  lemma EnumerateStep(plan: map<VideoId, Handler>, rest: map<VideoId, Handler>, order: seq<Entry>, v: VideoId)
    requires Enumerating(plan, rest, order) && v in rest
    ensures Enumerating(plan, rest - {v}, order + [Entry(v, rest[v])])
    ensures |(rest - {v}).Keys| < |rest.Keys|
  {
    var order' := order + [Entry(v, rest[v])];
    assert forall i :: 0 <= i < |order| ==> order'[i] == order[i];
    assert order'[|order|].videoid == v;
    assert rest.Keys == (rest - {v}).Keys + {v};
  }

  lemma EnumerateDone(plan: map<VideoId, Handler>, order: seq<Entry>)
    requires Enumerating(plan, map[], order)
    ensures Enumerates(order, plan)
  {
    forall v | v in plan ensures exists i :: 0 <= i < |order| && order[i].videoid == v {
      var empty: map<VideoId, Handler> := map[];
      assert v !in empty;
    }
  }

  /** One step of `UpdateFrom`. */
  lemma UpdateStep(store: Store, order: seq<Entry>, i: nat, inputs: UpdateInputs, host: Host)
    requires i < |order|
    ensures var u := UpdateFrom(store, order, i, inputs, host);
            var rest := UpdateFrom(store, order, i + 1, inputs, host);
            var run := RunOf(store, inputs, host, order[i]);
            && (Excluded(store, order[i].videoid) ==> u == rest)
            && (!Excluded(store, order[i].videoid) ==>
                  u == if run.execution.ExecRaised? then UpdateRun([run], UpdateRaised)
                       else if inputs.canceled(i) && inputs.clearOnCancel then UpdateRun([run], Interrupted(true))
                       else if inputs.aborted(i) then UpdateRun([run], Interrupted(false))
                       else UpdateRun([run] + rest.runs, rest.outcome))
  {
  }

  /** The body of `_update_library`'s loop for an entry that is not
      excluded: pick the NFO settings and run the executor. */
  method VisitEntry(store: Store, entry: Entry, inputs: UpdateInputs, host: Host, exportedShows: set<nat>)
    returns (run: Run)
    requires exportedShows == store.TvShowIds()
    ensures run == RunOf(store, inputs, host, entry)
  {
    var v := entry.videoid;
    var nfo: NfoSettings;
    if inputs.nfoOverride.None? && v.Value() in exportedShows {
      nfo := host.nfoFromPreference(store.ShowNfoExport(v.Value()));
    } else if inputs.nfoOverride.Some? {
      nfo := inputs.nfoOverride.value;
    } else {
      nfo := host.nfoDefaults;
    }
    var e := ExecuteLibraryTasks(v, [entry.handler], Some(nfo), store, host);
    run := Run(v, entry.handler, nfo, e, Messages(e));
  }

  /** How `auto_update_library` ended. */
  datatype AutoUpdate = AlreadyRunning | AutoUpdateFailed | Updated(order: seq<Entry>, run: UpdateRun)

  /** The library object: the shared database rows it reads and purges, the
      auto-update running flag and start time kept in that database, and the
      contents of the movies and shows root folders. */
  class LibraryManager {
    var db: Store
    var autoUpdateRunning: bool
    var autoUpdateStartTime: int
    var moviesFolder: set<string>
    var showsFolder: set<string>

    constructor(store: Store, running: bool, moviesFolder: set<string>, showsFolder: set<string>)
      ensures db == store && autoUpdateRunning == running
      ensures this.moviesFolder == moviesFolder && this.showsFolder == showsFolder
    {
      db := store;
      autoUpdateRunning := running;
      autoUpdateStartTime := 0;
      this.moviesFolder := moviesFolder;
      this.showsFolder := showsFolder;
    }

    /** `clear_library`: purge the exported rows, empty both root folders. */
    method ClearLibrary()
      modifies this
      ensures db == old(db).Purged() && moviesFolder == {} && showsFolder == {}
      ensures autoUpdateRunning == old(autoUpdateRunning) && autoUpdateStartTime == old(autoUpdateStartTime)
    {
      db := db.Purged();
      moviesFolder := {};
      showsFolder := {};
    }

    /** `_update_library`: visit the entries in order, skip excluded shows,
        pick the NFO settings, run the executor, then stop on a cancel with
        clear-on-cancel (after clearing) or on abort. With the corrections
        of Findings 1 and 3, through `RunOf`. */
    method UpdateLibraryEntries(order: seq<Entry>, inputs: UpdateInputs, host: Host) returns (u: UpdateRun)
      modifies this
      ensures u == UpdateFrom(old(db), order, 0, inputs, host)
      ensures u.outcome == Interrupted(true) ==> db == old(db).Purged() && moviesFolder == {} && showsFolder == {}
      ensures u.outcome != Interrupted(true) ==>
                db == old(db) && moviesFolder == old(moviesFolder) && showsFolder == old(showsFolder)
      ensures autoUpdateRunning == old(autoUpdateRunning) && autoUpdateStartTime == old(autoUpdateStartTime)
    {
      var store := db;
      var excluded := store.TvShowIdsWithExclude(true);
      var exportedShows := store.TvShowIds();
      ghost var full := UpdateFrom(store, order, 0, inputs, host);
      var runs: seq<Run> := [];
      var i := 0;
      while i < |order|
        invariant 0 <= i <= |order|
        invariant db == store && moviesFolder == old(moviesFolder) && showsFolder == old(showsFolder)
        invariant autoUpdateRunning == old(autoUpdateRunning) && autoUpdateStartTime == old(autoUpdateStartTime)
        invariant full == UpdateRun(runs + UpdateFrom(store, order, i, inputs, host).runs,
                                    UpdateFrom(store, order, i, inputs, host).outcome)
      {
        UpdateStep(store, order, i, inputs, host);
        var v := order[i].videoid;
        if v.Value() in excluded {
          i := i + 1;
          continue;
        }
        var run := VisitEntry(store, order[i], inputs, host, exportedShows);
        if run.execution.ExecRaised? {
          return UpdateRun(runs + [run], UpdateRaised);
        }
        if inputs.canceled(i) && inputs.clearOnCancel {
          ClearLibrary();
          return UpdateRun(runs + [run], Interrupted(true));
        }
        if inputs.aborted(i) {
          return UpdateRun(runs + [run], Interrupted(false));
        }
        runs := runs + [run];
        i := i + 1;
      }
      return UpdateRun(runs, Completed);
    }

    /** `auto_update_library`: nothing when a run is flagged; otherwise set
        the flag and start time, build and carry out the plan, and clear the
        flag on every way out, the exception path included. With the
        corrections of Findings 1, 2 and 3, through `BuildPlan` and
        `UpdateLibraryEntries`. */
    method AutoUpdateLibrary(syncWithMylist: bool, fetch: MyListFetch, now: int, inputs: UpdateInputs, host: Host)
      returns (result: AutoUpdate)
      modifies this
      ensures result.AlreadyRunning? <==> old(autoUpdateRunning)
      ensures old(autoUpdateRunning) ==> autoUpdateRunning && autoUpdateStartTime == old(autoUpdateStartTime)
      ensures old(autoUpdateRunning) || result.AutoUpdateFailed? ==>
                db == old(db) && moviesFolder == old(moviesFolder) && showsFolder == old(showsFolder)
      ensures !old(autoUpdateRunning) ==> !autoUpdateRunning && autoUpdateStartTime == now
      ensures !old(autoUpdateRunning) ==>
                (result.AutoUpdateFailed? <==> Plan(old(db), syncWithMylist, fetch).PlanRaised?)
      ensures result.Updated? ==>
                && Plan(old(db), syncWithMylist, fetch).Planned?
                && Enumerates(result.order, Plan(old(db), syncWithMylist, fetch).plan)
                && result.run == UpdateFrom(old(db), result.order, 0, inputs, host)
                && (result.run.outcome == Interrupted(true) ==>
                      db == old(db).Purged() && moviesFolder == {} && showsFolder == {})
                && (result.run.outcome != Interrupted(true) ==>
                      db == old(db) && moviesFolder == old(moviesFolder) && showsFolder == old(showsFolder))
    {
      if autoUpdateRunning {
        return AlreadyRunning;
      }
      autoUpdateRunning := true;
      autoUpdateStartTime := now;
      var plan := BuildPlan(db, syncWithMylist, fetch);
      if plan.PlanRaised? {
        autoUpdateRunning := false;
        return AutoUpdateFailed;
      }
      var order := EnumeratePlan(plan.plan);
      var run := UpdateLibraryEntries(order, inputs, host);
      autoUpdateRunning := false;
      return Updated(order, run);
    }

    /** `sync_library_with_mylist`: clear everything, then an auto-update
        with sync, the NFO question asked and clear-on-cancel set. With the
        corrections of Findings 1, 2 and 3, through `AutoUpdateLibrary`. */
    method SyncLibraryWithMylist(fetch: MyListFetch, now: int, nfo: NfoSettings,
                                 canceled: nat -> bool, aborted: nat -> bool, host: Host)
      returns (result: AutoUpdate)
      modifies this
      ensures db == old(db).Purged() && moviesFolder == {} && showsFolder == {}
      ensures old(autoUpdateRunning) ==>
                result == AlreadyRunning && autoUpdateRunning && autoUpdateStartTime == old(autoUpdateStartTime)
      ensures !old(autoUpdateRunning) ==> !autoUpdateRunning && autoUpdateStartTime == now
      ensures result.Updated? ==>
                && Plan(old(db).Purged(), true, fetch).Planned?
                && Enumerates(result.order, Plan(old(db).Purged(), true, fetch).plan)
                && result.run == UpdateFrom(old(db).Purged(), result.order, 0,
                                            UpdateInputs(Some(nfo), true, canceled, aborted), host)
      ensures result.Updated? ==>
                && fetch.Fetched?
                && (forall i :: 0 <= i < |result.order| ==>
                      Added(old(db).Purged(), fetch.ids, fetch.types, |fetch.ids|, result.order[i].videoid))
                && forall k :: 0 <= k < |result.run.runs| ==> result.run.runs[k].nfo == nfo
    {
      ClearLibrary();
      var inputs := UpdateInputs(Some(nfo), true, canceled, aborted);
      result := AutoUpdateLibrary(true, fetch, now, inputs, host);
      if result.Updated? {
        SyncAfterClearExportsMyList(old(db), fetch.ids, fetch.types);
        OverrideUsedForAll(old(db).Purged(), result.order, inputs, host);
      }
    }

    /** `export_to_library`: the export handler alone. */
    method ExportToLibrary(videoid: VideoId, nfo: NfoSettings, host: Host) returns (r: Execution)
      ensures r == Execute(videoid, [ExportItem], Some(nfo), db, host)
    {
      r := ExecuteLibraryTasks(videoid, [ExportItem], Some(nfo), db, host);
    }

    /** `export_to_library_new_episodes`: nothing for an identity that is not
        a show, else the export-new handler alone. */
    method ExportToLibraryNewEpisodes(videoid: VideoId, nfo: NfoSettings, host: Host) returns (r: Option<Execution>)
      ensures r.None? <==> videoid.Mediatype() != Show
      ensures r.Some? ==> r.value == Execute(videoid, [ExportNewItem], Some(nfo), db, host)
    {
      if videoid.Mediatype() != Show {
        return None;
      }
      var e := ExecuteLibraryTasks(videoid, [ExportNewItem], Some(nfo), db, host);
      return Some(e);
    }

    /** `update_library`: remove, then export again. */
    method UpdateLibrary(videoid: VideoId, nfo: NfoSettings, host: Host) returns (r: Execution)
      ensures r == Execute(videoid, [RemoveItem, ExportItem], Some(nfo), db, host)
      ensures var jobs := Jobs([RemoveItem, ExportItem], CompileAll(videoid, [RemoveItem, ExportItem], Some(nfo), db, host));
              forall i, j :: 0 <= i < j < |jobs| && jobs[i].handler == ExportItem ==> jobs[j].handler != RemoveItem
    {
      r := ExecuteLibraryTasks(videoid, [RemoveItem, ExportItem], Some(nfo), db, host);
      RemoveRunsBeforeExport(videoid, Some(nfo), db, host);
    }

    /** `remove_from_library`: the remove handler alone, no NFO settings. */
    method RemoveFromLibrary(videoid: VideoId, host: Host) returns (r: Execution)
      ensures r == Execute(videoid, [RemoveItem], None, db, host)
    {
      r := ExecuteLibraryTasks(videoid, [RemoveItem], None, db, host);
    }
  }
}
