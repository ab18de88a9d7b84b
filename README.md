# Kodi library engine of the Netflix add-on, in Dafny

This project models the part of the add-on that keeps Kodi's video library
in step with the user's Netflix account:

- **The task compiler and executor** (`LibraryTasks`, `library_tasks.dfy`).
  `compile_tasks` turns a video identity and a handler into a list of task
  records. The handlers are export, export-new-episodes and remove.
  - A show expands into seasons, then episodes.
  - A movie gives one task.
  - `_add_missing_items` compares the fetched seasons with the shared
    database and emits tasks only for what is missing.
  - Folder and file names lose their illegal characters.
  - `execute_library_tasks` runs every compiled task. It collects one error
    per failing handler call and yields `(index, total, title)` per task.
- **The auto-update reconciliation** (`Library`, `library.dfy`).
  - `auto_update_library` builds the `videoids_tasks` plan from the
    exported shows and movies and from My List, under the
    `library_auto_update_is_running` flag.
  - `_update_library` walks the plan. It skips excluded shows, picks the
    NFO settings per entry and stops on abort, or on cancel when
    clear-on-cancel is set.
  - The thin operations `export_to_library`,
    `export_to_library_new_episodes`, `update_library`,
    `remove_from_library`, `sync_library_with_mylist` and `clear_library`
    are methods of the `LibraryManager` class. The class holds the shared
    database rows, the running flag and the two library root folders.
- **The scheduler** (`LibraryUpdater`, `library_updater.dfy`).
  - `_compute_next_schedule` takes the last start, replaces its time of
    day with the configured `HH:MM` and adds 1, 2, 5 or 7 days.
  - `LibraryUpdateService` keeps `enabled`, `startidle` and
    `next_schedule`. It fires the `library_auto_update` signal on a due,
    idle tick.

The remaining files are supporting modules:

- `wrappers.dfy`: `Option`.
- `strings.dfy`: decimal digits, `{:02d}`, and `os.path` base name and stem.
- `videoid.dfy`: `VideoId` and its `derive_*` operations.
- `store.dfy`: the exported rows of the shared database and its queries.

The collaborators are values of a `Host` datatype of functions:

- the metadata fetch, whose result is available, `MetadataNotAvailable` or
  another exception;
- the task handlers, each of which completes or raises with a type and a
  message;
- the NFO settings constructors;
- `get_episode_title_from_path`.

The three defects listed under "## Findings" are each modelled twice: as
written, with a lemma exhibiting the defect, and corrected. The rest of the
model (the executor, the plan, the update loop and the library object) uses
the corrected definitions; their comments say so.

Datetimes are naive local times in seconds. The clock, the idle time, the
player state, the cancel button and Kodi's abort request are parameters.

## Model

| member | source | states |
|---|---|---|
| LibraryTasks.SanitizeRemovesIllegal | resources/lib/kodi/library_tasks.py:212-213 | a sanitised name contains no character of ILLEGAL_CHARACTERS |
| LibraryTasks.SanitizeKeepsLegal | resources/lib/kodi/library_tasks.py:212-213 | a name without illegal characters is left unchanged |
| LibraryTasks.SanitizeIdempotent | resources/lib/kodi/library_tasks.py:212-213 | sanitising twice equals sanitising once; a name is its own sanitisation iff it has no illegal character |
| LibraryTasks.SanitizeChar | resources/lib/kodi/library_tasks.py:212-213 | a single character is deleted iff it is one of ILLEGAL_CHARACTERS, else kept |
| LibraryTasks.SanitizeConcat | resources/lib/kodi/library_tasks.py:212-213 | `re.sub` deletes character by character: sanitising a concatenation concatenates the sanitised parts |
| LibraryTasks.CreateExportItemTask | resources/lib/kodi/library_tasks.py:204-215 | the record carries the given flags, identity, title, root folder and NFO data; its folder and file names are exactly the sanitised names given, so free of illegal characters and unchanged when already legal |
| LibraryTasks.CreateExportMovieTask | resources/lib/kodi/library_tasks.py:131-142 | exactly one export task, in the movies folder, with a .strm file; folder name == file name == sanitised `title (year)`; an NFO file iff settings exist and enable movie NFOs |
| Strings.ParsePad2 | resources/lib/kodi/library_tasks.py:193 | `{:02d}` reads back as the number and has two characters below 100 |
| LibraryTasks.EpisodeFileNameRoundTrip | resources/lib/kodi/library_tasks.py:193 | `S{season:02d}E{episode:02d}` parses back to the season and episode numbers (both below 100) |
| LibraryTasks.CreateExportEpisodeTask | resources/lib/kodi/library_tasks.py:191-202 | an export task in the shows folder named `SxxEyy`, titled `show title - SxxEyy`, in the sanitised show-title folder; an NFO file iff settings exist and enable show NFOs |
| LibraryTasks.FindSeason | resources/lib/kodi/library_tasks.py:153-155 | the season found is the first of the show's seasons with the requested id; none is found only when no season has that id |
| LibraryTasks.LastShowIndex | resources/lib/kodi/library_tasks.py:165-168 | the index found is that of the last metadata record of type show; none means no record is a show |
| LibraryTasks.FullShowNfoTasks | resources/lib/kodi/library_tasks.py:160-175 | one extra task iff full-show NFO export is on and some record is a show; it is an NFO-only task named `tvshow` built from the last show record |
| LibraryTasks.ShowTasksFollowEpisodes | resources/lib/kodi/library_tasks.py:178-189 | a show export yields exactly one task per episode, in season order then episode order, each with the derived episode identity |
| LibraryTasks.ExportTvTaskCounts | resources/lib/kodi/library_tasks.py:144-176 | show: one task per episode of every season plus the optional tvshow.nfo; season: the first season with the requested id is the one exported, one task per its episode, in order, plus tvshow.nfo; episode: one plus it |
| LibraryTasks.ShowTasksWellFormed | resources/lib/kodi/library_tasks.py:178-189 | every task of a show export is a well-formed export task |
| LibraryTasks.MissingTasksWellFormed | resources/lib/kodi/library_tasks.py:229-240 | every missing-episode task is a well-formed export task |
| LibraryTasks.NewEpisodeTasksWellFormed | resources/lib/kodi/library_tasks.py:217-249 | every new-episode task is a well-formed export task |
| LibraryTasks.Compile | resources/lib/kodi/library_tasks.py:98-129 | an export handler yields None exactly when metadata is unavailable (or the identity is supplemental), and raises when the lookup raises |
| LibraryTasks.CompileWellFormed | resources/lib/kodi/library_tasks.py:98-129 | every compiled task is well formed; it is a remove task iff the handler is remove_item |
| LibraryTasks.CompileTasks | resources/lib/kodi/library_tasks.py:98-129 | the method's result is the compilation `Compile` describes |
| LibraryTasks.MissingEpisodeTasksExact | resources/lib/kodi/library_tasks.py:229-240 | in a stored season every task is for an episode the store lacks, and every such episode has a task |
| LibraryTasks.StoredSeasonTasksExact | resources/lib/kodi/library_tasks.py:229-240 | for a stored season, tasks are exactly for the missing episodes (count and order: MissingEpisodeTasksFollow) |
| LibraryTasks.NewSeasonTasksExact | resources/lib/kodi/library_tasks.py:241-248 | for a season the store lacks, every episode gets a task |
| LibraryTasks.SeasonMissingTasksExact | resources/lib/kodi/library_tasks.py:228-249 | `_add_missing_items` emits tasks for exactly the missing episodes of one season (count and order: SeasonMissingTasksFollow) |
| LibraryTasks.NewEpisodeTasksSound | resources/lib/kodi/library_tasks.py:217-249 | every new-episode task is an export task for a missing episode of some fetched season |
| LibraryTasks.NewEpisodeTasksComplete | resources/lib/kodi/library_tasks.py:217-249 | every missing episode of every fetched season has a new-episode task |
| LibraryTasks.NewEpisodeTasksExact | resources/lib/kodi/library_tasks.py:217-249 | both directions together: tasks are exactly for the missing episodes (count and order: NewEpisodeTasksFollowRefs) |
| LibraryTasks.NewEpisodesNeverReexport | resources/lib/kodi/library_tasks.py:228-249 | no stored episode ever gets a new-episode task |
| LibraryTasks.MissingEpisodeTasksFollow | resources/lib/kodi/library_tasks.py:229-240 | in a stored season there is one task per missing episode, in episode order: the k-th task is the export of the k-th missing episode |
| LibraryTasks.NewSeasonRefsAll | resources/lib/kodi/library_tasks.py:241-248 | in a season the store lacks, the missing episodes are all its episodes, in order |
| LibraryTasks.SeasonMissingTasksFollow | resources/lib/kodi/library_tasks.py:228-249 | for any season, `_add_missing_items` appends one task per missing episode, in order: the k-th task exports the k-th missing episode |
| LibraryTasks.NewEpisodeTasksFollowRefs | resources/lib/kodi/library_tasks.py:217-249 | the new-episode tasks number exactly the missing (season, episode) pairs, and the k-th task exports the k-th pair, season order then episode order |
| LibraryTasks.MissingEpisodeRefsSound | resources/lib/kodi/library_tasks.py:229-240 | every missing pair of a season is one of its episodes that the store lacks |
| LibraryTasks.MissingRefsSound | resources/lib/kodi/library_tasks.py:217-249 | every missing pair is an episode, of a fetched season, that the store lacks |
| LibraryTasks.AddMissingItems | resources/lib/kodi/library_tasks.py:228-249 | appends the season's missing-episode tasks to the list; raises iff a season must be derived from an identity that is not a show |
| LibraryTasks.AddMissingEpisodes | resources/lib/kodi/library_tasks.py:229-240 | the loop over a stored season's episodes appends exactly the missing-episode tasks, or raises under the same condition |
| LibraryTasks.AddEpisodeIfMissing | resources/lib/kodi/library_tasks.py:231-239 | one episode step: appends its task iff the store lacks it; deriving from a non-show identity raises |
| LibraryTasks.CreateNewEpisodesTasks | resources/lib/kodi/library_tasks.py:217-226 | the method's result is the new-episode compilation: no task unless the first record is a show, else the missing episodes of every season |
| LibraryTasks.AddMissingSeasons | resources/lib/kodi/library_tasks.py:219-225 | the loop over the seasons collects every season's missing-episode tasks, with the NFO settings looked up once |
| LibraryTasks.AddSeason | resources/lib/kodi/library_tasks.py:220-225 | one season step: settings from the show's stored preference when none are given, then the season's tasks appended |
| LibraryTasks.RemoveTvTasksFollowRows | resources/lib/kodi/library_tasks.py:256-280 | removing a show or season gives one remove task per stored episode row, in row order, with that row's FilePath and episode identity |
| LibraryTasks.ExecuteTask | resources/lib/kodi/library_tasks.py:84-95 | a falsy task adds nothing; a handler that raises adds exactly one `{title, 'Type: message'}` error, one that completes adds none |
| LibraryTasks.JobsCount | resources/lib/kodi/library_tasks.py:44-52 | the number of tasks run is total_tasks, the sum of the compiled lists' lengths |
| LibraryTasks.RunJob | resources/lib/kodi/library_tasks.py:49-52 | one task: index advances by one; its progress item and error (if any) are appended |
| LibraryTasks.RunGroup | resources/lib/kodi/library_tasks.py:49-52 | one handler's task list runs in order, extending progress and errors by that group's jobs |
| LibraryTasks.RunCompiledTasks | resources/lib/kodi/library_tasks.py:47-52 | the nested loops produce the progress items and errors of all jobs, group after group |
| LibraryTasks.ExecuteLibraryTasks | resources/lib/kodi/library_tasks.py:32-53 | the method's result is the execution `Execute` describes, with the correction of Finding 1 (a skipped compilation counts as no tasks) |
| LibraryTasks.ExecuteProgressCounts | resources/lib/kodi/library_tasks.py:43-52 | exactly total_tasks progress items, the k-th with index k + 1 and that total |
| LibraryTasks.ExecuteRaisesIff | resources/lib/kodi/library_tasks.py:43-46 | the executor raises before running anything iff the compilation for some handler raises |
| LibraryTasks.ErrorsEmptyIff | resources/lib/kodi/library_tasks.py:84-95 | the error list is empty iff no handler call raised, and has at most one entry per task |
| LibraryTasks.ErrorsNameFailedTasks | resources/lib/kodi/library_tasks.py:89-95 | every error names a task whose handler raised, with `Type: message` |
| LibraryTasks.RemoveRunsBeforeExport | resources/lib/kodi/library.py:107-108 | with handlers [remove, export], no remove task runs after an export task |
| LibraryTasks.TotalTasksAsWritten | resources/lib/kodi/library_tasks.py:46 | as written the sum has a value iff no compilation gave None |
| LibraryTasks.TotalTasksAgree | resources/lib/kodi/library_tasks.py:46 | where the sum as written has a value it equals total_tasks with None counting as empty |
| LibraryTasks.NotAvailableExportCrashesAsWritten | resources/lib/kodi/library_tasks.py:43-46 | exporting an item whose metadata is unavailable breaks the sum as written, while the corrected executor runs no task and reports no error |
| Strings.StemOfFilePath | resources/lib/kodi/library_tasks.py:253 | the title of a movie remove task is the file name without folder and extension |
| Strings.ParseNatToString | resources/lib/kodi/library.py:188 | a numeric id printed as text reads back as itself, so `unicode(id) in My List` and `int(entry)` agree |
| Library.RemovedExact | resources/lib/kodi/library.py:176-200 | after the removals the plan holds exactly the seeded and the stale ids; a stale id maps to remove_item, overwriting the seed |
| Library.AddedNotStale | resources/lib/kodi/library.py:202-205 | an added My List id is never one scheduled for removal |
| Library.AdditionsRaisedStays | resources/lib/kodi/library.py:203-208 | once an entry of My List raises, building the rest of the plan raises too |
| Library.AdditionsExact | resources/lib/kodi/library.py:202-208 | the My List loop raises iff some entry is not a number or a new entry lacks a type tag; otherwise it adds exactly the new ids with the handler chosen by tag, and leaves other entries alone |
| Library.PlanWithExact | resources/lib/kodi/library.py:176-208 | for any choice of handler for new entries: raises iff some entry is bad; keys are seeded, stale or added ids; stale maps to remove, added to the chosen handler, the rest to export_new_item |
| Library.PlanExact | resources/lib/kodi/library.py:176-208 | the same for the corrected plan: a new movie gets export_item, a new show export_new_item |
| Library.PlanWithoutSync | resources/lib/kodi/library.py:176-181 | without sync the plan is exactly the non-excluded exported shows, each with export_new_item |
| Library.SyncAfterClearExportsMyList | resources/lib/kodi/library.py:124-133 | after clear_library a sync plan holds exactly the My List entries |
| Library.ReconciliationExample | resources/lib/kodi/library.py:176-208 | shows 1, 2 exported, My List ['1','3'] tagged show, movie: show 1 updated, show 2 removed, movie 3 exported |
| Library.AddedMovieHandler | resources/lib/kodi/library.py:206-208 | a new movie of My List gets the handler chosen for tag 'movie' |
| Library.NewMovieNeverExportedAsWritten | resources/lib/kodi/library.py:206-208 | as written a new My List movie gets export_new_item, which compiles to no task; the corrected plan gives export_item, which compiles its task |
| Library.UpdateRunsNotExcluded | resources/lib/kodi/library.py:238-250 | every visited entry is a plan entry not excluded from updates, run with the NFO settings chosen for it (override, else stored show preference, else defaults) |
| Library.OverrideUsedForAll | resources/lib/kodi/library.py:230-233 | when the NFO question was asked its answer is used for every entry |
| Library.CancelIgnoredWithoutClear | resources/lib/kodi/library.py:258-261 | without clear-on-cancel the cancel button changes nothing about the run |
| Library.ClearedOnlyOnCancel | resources/lib/kodi/library.py:258-261 | the library is cleared only when clear-on-cancel is set and cancel was pressed |
| Library.CompletedRunsAll | resources/lib/kodi/library.py:238-267 | a completed run visited every non-excluded entry, in order, with its own handler |
| Library.CompletesUninterrupted | resources/lib/kodi/library.py:258-267 | the run completes (returns True) iff no visited entry raises, meets a cancel with clear-on-cancel set, or meets an abort |
| Library.FirstStopDecides | resources/lib/kodi/library.py:258-267 | when no entry before the j-th stops the run and the j-th does, the j-th decides the outcome: an exception propagates, else a clearing cancel clears and returns False, else an abort returns False without clearing |
| Library.CompletesWithoutStop | resources/lib/kodi/library.py:238-267 | with no visited entry raising, meeting a clearing cancel or meeting an abort, the run completes (returns True) |
| Library.StopPreventsCompletion | resources/lib/kodi/library.py:258-267 | a visited entry that raises, meets a clearing cancel or meets an abort keeps the run from completing |
| Library.PassesOn | resources/lib/kodi/library.py:238-267 | an entry that is excluded, or is visited without stopping the run, leaves the outcome to the entries after it |
| Library.PassesOnUntil | resources/lib/kodi/library.py:238-267 | entries none of which stops the run leave the outcome to the entries after them |
| Library.ProgressLabelOffByOne | resources/lib/kodi/library.py:256 | as written the labels of two tasks read (2/2) and (3/2); corrected they read (1/2) and (2/2) |
| Library.LabelsWithinTotal | resources/lib/kodi/library.py:252-257 | with the corrected label the k-th task's message is its title followed by ` (k+1/n)` for n > 1 tasks, and by nothing for a single task; every index lies between 1 and the total |
| Library.RemoveStaleShows | resources/lib/kodi/library.py:187-192 | the loop adds remove_item for exactly the exported shows missing from My List |
| Library.RemoveStaleMovies | resources/lib/kodi/library.py:195-200 | the loop adds remove_item for exactly the exported movies missing from My List |
| Library.AddMyListEntries | resources/lib/kodi/library.py:203-208 | the loop over My List builds the additions `WithAdditions` describes, or raises; with the correction of Finding 2 in the handler a new entry gets |
| Library.BuildPlan | resources/lib/kodi/library.py:172-208 | the method's plan is `Plan`, whose content PlanExact states; with the correction of Finding 2 |
| Library.EnumeratePlan | resources/lib/kodi/library.py:238 | the iteration visits every plan entry exactly once, with its handler, in some order |
| Library.VisitEntry | resources/lib/kodi/library.py:242-257 | one visit picks the NFO settings and runs the executor with the entry's single handler |
| Library.LibraryManager.constructor | resources/lib/kodi/library.py:58-62 | the object starts on the given database rows, running flag and folders |
| Library.LibraryManager.ClearLibrary | resources/lib/kodi/library.py:135-152 | purges the exported rows and empties both root folders; the running flag is untouched |
| Library.LibraryManager.UpdateLibraryEntries | resources/lib/kodi/library.py:227-267 | the run is the one `UpdateFrom` describes (with the corrections of Findings 1 and 3); the library is cleared iff it stopped on a clearing cancel, and nothing else changes |
| Library.LibraryManager.AutoUpdateLibrary | resources/lib/kodi/library.py:154-225 | returns AlreadyRunning iff a run is flagged, and then changes nothing (flag and start time kept); otherwise sets and records the start, fails iff building the plan raises, visits every plan entry once, empties the folders and purges the rows iff the run stopped on a clearing cancel, and ends with the flag cleared on every path; with the corrections of Findings 1, 2 and 3 |
| Library.LibraryManager.SyncLibraryWithMylist | resources/lib/kodi/library.py:124-133 | always leaves the rows purged and both folders empty; when no run was flagged, clears the flag and records now as the start; an update enumerates the whole sync plan of the cleared store (exactly the new My List entries, by SyncAfterClearExportsMyList) and its run is the update loop over the cleared store with the NFO answer as override and clear-on-cancel set; every visited entry is a My List entry and uses that answer; with the corrections of Findings 1, 2 and 3 |
| Library.LibraryManager.ExportToLibrary | resources/lib/kodi/library.py:64-77 | runs the export handler alone |
| Library.LibraryManager.ExportToLibraryNewEpisodes | resources/lib/kodi/library.py:79-96 | nothing for an identity that is not a show; else the export-new handler alone |
| Library.LibraryManager.UpdateLibrary | resources/lib/kodi/library.py:98-111 | runs remove then export, with no remove task after an export task |
| Library.LibraryManager.RemoveFromLibrary | resources/lib/kodi/library.py:113-122 | runs the remove handler alone, without NFO settings |
| LibraryUpdater.PyIntOfDigits | resources/lib/services/library_updater.py:96 | `int()` of plain digits is their decimal value |
| LibraryUpdater.Slice | resources/lib/services/library_updater.py:96 | `time[i:j]` clamps both bounds to the string's length |
| LibraryUpdater.ParseTimeOfDay | resources/lib/services/library_updater.py:91-96 | a time that parses has an hour below 24 and a minute below 60 |
| LibraryUpdater.TimeOfDayRoundTrip | resources/lib/services/library_updater.py:91-96 | `HH:MM` written with two digits each parses back to (HH, MM) |
| LibraryUpdater.EmptyTimeIsMidnight | resources/lib/services/library_updater.py:91 | an empty start-time setting means 00:00 |
| LibraryUpdater.FrequencyDays | resources/lib/services/library_updater.py:97 | `[1, 2, 5, 7][index]` has a value iff -4 <= index < 4, and the value is one of 1, 2, 5, 7 |
| LibraryUpdater.ReplaceTimeAndAddDays | resources/lib/services/library_updater.py:96-97 | the next run falls `days` days after the last start's day, at the configured hour and minute, keeping the seconds |
| LibraryUpdater.NextScheduleAt | resources/lib/services/library_updater.py:91-100 | a schedule exists only for a valid time and frequency, and lies that many days after the last start (1970-01-01 when none), at HH:MM |
| LibraryUpdater.NextScheduleAfterLastStart | resources/lib/services/library_updater.py:92-100 | the schedule is later than the last start and within a day of last start plus the frequency |
| LibraryUpdater.NoScheduleIff | resources/lib/services/library_updater.py:81-109 | there is no schedule iff a setting cannot be read, another device owns the shared-database update, the time is invalid or the frequency index is out of range |
| LibraryUpdater.ScheduleIsNextRun | resources/lib/services/library_updater.py:91-100 | with frequency index 1 the schedule is the last start, at HH:MM, two days on |
| LibraryUpdater.NextRunExample | resources/lib/services/library_updater.py:96-97 | a run started at HH:MM schedules the next exactly two days later, and one started a minute late still schedules at HH:MM |
| LibraryUpdater.TickExample | resources/lib/services/library_updater.py:91-100 | with the start time written `HH:MM` and frequency index 1, a last start at HH:MM schedules two days on, and a tick a minute after that schedules four days on |
| LibraryUpdater.IdleStepProperties | resources/lib/services/library_updater.py:59-65 | after the resets the idle start never exceeds the idle time; playing is never idle; idle iff at least 300 seconds since the idle start |
| LibraryUpdater.LibraryUpdateService.constructor | resources/lib/services/library_updater.py:25-36 | enabled iff the mode setting reads 2 (an unreadable one disables); idle start 0; schedule computed |
| LibraryUpdater.LibraryUpdateService.IsIdle | resources/lib/services/library_updater.py:52-65 | always idle when waiting for idle is off; otherwise the idle step's resets and 300-second test |
| LibraryUpdater.LibraryUpdateService.OnServiceTick | resources/lib/services/library_updater.py:38-50 | fires iff enabled, a schedule exists, it is due and Kodi is idle; firing sends one signal, records now as last start and recomputes the schedule; a due tick updates the idle start as the idle test does; otherwise nothing changes |
| LibraryUpdater.LibraryUpdateService.OnSettingsChanged | resources/lib/services/library_updater.py:67-78 | re-reads enabled; recomputes the schedule only when enabled; an unreadable mode raises and changes nothing |

## Left out

- The GUI executor `execute_library_tasks_gui`, progress dialogs and bars, notifications, `show_library_task_errors`, logging and tracebacks. They are host I/O. The GUI variant compiles and runs tasks exactly as `execute_library_tasks` does.
- `request_kodi_library_upd` and its decorator, `delay_anti_ban`, `xbmc.sleep` and `common.time_execution`. They are timing and host calls.
- What the handlers do to files and to the database. A handler call completes or raises, and the store stays fixed during a run; only `clear_library` changes it.
- NFO text generation and `show_export_dialog`. NFO data is opaque, and NFO settings are three booleans.
- `library_utils.py` is not part of this model. ILLEGAL_CHARACTERS is taken as the characters `< | > " ? $ ! : # *`, and `get_library_path` and `is_auto_update_library_running` become the stored fields they read.
- `import_library`, `get_library_cls` and the session plumbing that sends and receives the update signal.
- The SQL store internals. The store is a set of exported rows with scalar flags.
- Library.EnumeratePlan: does not fix an iteration order. Python 2 dict order is not guaranteed, so the loop visits the plan in an arbitrary order.
- LibraryTasks.Execute: takes handler groups in list order, the insertion order of the `compiled_tasks` dict. That is guaranteed only from Python 3.7 on, so RemoveRunsBeforeExport relies on it.
- LibraryTasks.ExecuteLibraryTasks: requires distinct handlers. Every caller passes distinct ones, and a repeated handler would collapse into one dict key.
- Library.AdditionsExact: reads a My List entry as plain decimal digits, where `int(videoid_value)` at resources/lib/kodi/library.py:204-205 also accepts surrounding whitespace and a sign. An entry such as `'-5'` or `' 5'` makes the model's plan raise (BadAt), where the source adds an identity built from that text; Library.PlanExact, Library.PlanWithExact and Library.LibraryManager.AutoUpdateLibrary inherit this. The new identity is also built from the parsed number rather than the entry's text, which differs only for a non-canonical entry such as `'05'`.
- Library.InMyList: compares the canonical decimal text of an exported id with the My List entries exactly, as `unicode(videoid_value) in mylist_video_id_list` does; nothing is left out there.
- LibraryUpdater.PyInt: strips every whitespace character `str.isspace` accepts, but reads only ASCII decimal digits. A start-time setting written with non-ASCII digits (or, from Python 3.6, underscores between digits) gives no schedule in the model, where `int()` would read a number.
- LibraryUpdater.NextRun: microseconds, calendar validity (day-of-month) and datetime overflow are not modelled. A time is whole seconds on an unbounded day count.
- The string form of video identities and `VideoId.from_path` parsing are not modelled. Identities are compared structurally.
- Strings.BaseName: splits on '/' only, as `posixpath` does. On Windows `os.path` also splits on '\\', which the model does not capture; Strings.Stem and Strings.StemOfFilePath inherit this.

## Findings

| source | as written | input that shows it | evidently intended | confidence | as-written member | corrected member |
|---|---|---|---|---|---|---|
| resources/lib/kodi/library_tasks.py:46 | `total_tasks` sums `len` over the compiled lists, but `compile_tasks` returns None when metadata is not available | export (or update) of an id whose metadata lookup raises MetadataNotAvailable: `len(None)` raises TypeError, which aborts the whole auto-update | a skipped compilation counts as zero tasks and the other entries go on | high; not executed | LibraryTasks.TotalTasksAsWritten, LibraryTasks.NotAvailableExportCrashesAsWritten | LibraryTasks.TotalTasks, LibraryTasks.ExecuteProgressCounts, LibraryTasks.Execute, LibraryTasks.ExecuteLibraryTasks, Library.RunOf, Library.UpdateFrom, Library.LibraryManager.UpdateLibraryEntries, Library.LibraryManager.AutoUpdateLibrary, Library.LibraryManager.SyncLibraryWithMylist |
| resources/lib/kodi/library.py:206-208 | a new My List entry tagged 'movie' gets `export_new_item`, any other `export_item` | My List holds movie 3, not yet exported: the plan maps it to export_new_item, whose compilation gives no task for a movie, so the movie is never exported | a new movie gets `export_item`, a new show `export_new_item` | high; not executed | Library.PlanAsWritten, Library.NewMovieNeverExportedAsWritten | Library.Plan, Library.PlanExact, Library.AddMyListEntries, Library.BuildPlan, Library.LibraryManager.AutoUpdateLibrary, Library.LibraryManager.SyncLibraryWithMylist |
| resources/lib/kodi/library.py:256 | the progress suffix shows `index + 1`, but the executor's index already counts from 1 | an entry compiling to two tasks shows "(2/2)" then "(3/2)" | "(1/2)" then "(2/2)" | high; not executed | Library.ProgressLabelAsWritten, Library.ProgressLabelOffByOne | Library.ProgressLabel, Library.LabelsWithinTotal, Library.Messages, Library.RunOf, Library.UpdateFrom, Library.LibraryManager.UpdateLibraryEntries, Library.LibraryManager.AutoUpdateLibrary, Library.LibraryManager.SyncLibraryWithMylist |
