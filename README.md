# A Dafny model of the wallpaper manager and its helper libraries

This project models the core of `bebert64/rust-projects` in Dafny and proves
properties of that model. Four parts are modelled:

- **WallpapersManager.**
  - The monitor topology query (`screens_config`).
  - The two wallpaper choosers (`wallpapers/choose.rs` and its newer variant
    `wallpapers/change.rs`), with their periodic scheduler.
  - The sorter that files every image of the wallpapers directory into the
    single-screen or dual-screen bucket (`wallpapers/sort.rs`).
  - The bookmark-driven downloader (`download/mod.rs`) and the first stage of
    the Wallpaper Flare downloader (`download/wallpaper_flare.rs`).
- **FirefoxSyncSdk.**
  - The bookmark tree (`Folder`, `Bookmark`, `BookmarkOrFolder`,
    `BookmarkCollection`) and its JSON decoding rules.
  - The `ffsclient` command runner, with its login-and-retry logic.
  - The bookmark operations: listing, folder lookup by path, creation,
    deletion and moving.
- **don_error.**
  - `DonError` with its JSON context map, where duplicate keys get `_1`,
    `_2`, … suffixes.
  - The ordered `DonErrorContext` builder and its `Debug` rendering.
  - `err_msg!`/`bail!` and `try_or_report`.
  - The `Option`/`Result` extension methods.
- **DieselHelpers.**
  - `get_only_result` and its follow-ups (`optional`, `unique_or_fail`,
    `unique_or_fail_with_results`, `load_all`, `into_results`).
  - The `bi_dir_from!` enum ↔ text mapping.
  - `Db::to_url`.

Each core Rust source file becomes one Dafny module:

| Dafny file | module |
|---|---|
| `don_error.dfy` | `DonErrors` |
| `don_error_ctx.dfy` | `DonErrorCtx` |
| `don_error_lib.dfy` | `DonErrorLib` |
| `option_extensions.dfy` | `OptionExtensions` |
| `result_extensions.dfy` | `ResultExtensions` |
| `get_only_result.dfy` | `GetOnlyResult` |
| `diesel_enums.dfy` | `DieselEnums` |
| `diesel_db.dfy` | `DieselDb` |
| `firefox_structs.dfy` | `FirefoxStructs` |
| `firefox_client.dfy` | `FirefoxClient` |
| `firefox_bookmarks.dfy` | `FirefoxBookmarks` |
| `monitors.dfy` | `Monitors` |
| `wallpapers_choose.dfy` | `WallpapersChoose` |
| `wallpapers_change.dfy` | `WallpapersChange` |
| `wallpapers_sort.dfy` | `WallpapersSort` |
| `download.dfy` | `Download` |
| `wallpaper_flare.dfy` | `WallpaperFlare` |

Three modules hold shared pieces:
- `Wrappers`: `Option`, `Result`.
- `Text`: Rust's `split`, `strip_suffix`, `truncate`, integer formatting.
- `Process`: `std::process::Command` and its output.

`WallpaperCommon` holds what `choose.rs` and `change.rs` share: buckets,
modes, the `f64` limit, `run_command` and the scheduler.

Code that mutates in place is imperative Dafny:
- `DonError` and `DonErrorContext` are classes.
- The wallpaper directory is the class `WallpaperTree`, whose methods rename files.
- Loops in the source (`add_ctx_pair_inner`, `add_ctx`, `load_all`,
  `get_folder`, the suffix loop of Wallpaper Flare, the download loop, the
  scheduler) are methods with loop invariants, each proved against a function.

Everything the program asks of the outside world becomes a parameter (an oracle):
- the `ffsclient` process;
- `feh`;
- `xrandr`/the window system;
- the random draw;
- the file system's image reader and `rename`;
- URL parsing;
- HTTP fetches and HTML lookups;
- the per-site downloaders.

## Model

| member | source | states |
|---|---|---|
| DonErrors.SlotInjective | libs/don_error/Crate/src/don_error.rs:71-87 | The keys `key_i` and `key_j` tried for duplicates are equal only when `i == j`. |
| DonErrors.SlotsBelowSize | libs/don_error/Crate/src/don_error.rs:71-87 | The keys `key_1` … `key_(n-1)` are `n - 1` distinct keys. |
| DonErrors.OccupiedSlotsBound | libs/don_error/Crate/src/don_error.rs:71-87 | If `key_1` … `key_(n-1)` are all taken, the context has at least `n - 1` entries, so the probing loop ends. |
| DonErrors.FirstFreeIndex | libs/don_error/Crate/src/don_error.rs:75-85 | The suffix chosen is the smallest free one: `key_k` is absent, every `key_j` with `j < k` is present, and `k <= |ctx| + 1`. |
| DonErrors.InsertPair | libs/don_error/Crate/src/don_error.rs:71-87 | An absent key is stored as it is. A present key is never overwritten: the value goes under the smallest free `key_k`. The context grows by exactly one entry and keeps every old entry. |
| DonErrors.InsertAll | libs/don_error/Crate/src/don_error.rs:43-49 | Adding a list of pairs keeps every existing entry and grows the context by the number of pairs: none is lost to a duplicate key. |
| DonErrors.InsertAllAppend | libs/don_error/Crate/src/don_error.rs:43-49 | Pairs are inserted in list order: inserting `pairs + [p]` is inserting `pairs`, then `p`. |
| DonErrors.DonErrorInner.WithCtx | libs/don_error/Crate/src/don_error.rs:23-26 | The wrapped error is kept; the context grows by one entry per pair. |
| DonErrors.DonErrorInner.WithCtxVal | libs/don_error/Crate/src/don_error.rs:28-34 | Adding one value is adding the one-pair context; the context grows by one. |
| DonErrors.FromError | libs/don_error/Crate/src/don_error.rs:95-105 | A converted error starts with an empty context. |
| DonErrors.DonError.constructor | libs/don_error/Crate/src/don_error.rs:95-105 | `DonError::from` holds the error and an empty context. |
| DonErrors.DonError.AddCtxPairInner | libs/don_error/Crate/src/don_error.rs:71-87 | The probing loop leaves the context equal to `InsertPair` of the old one and keeps the error. |
| DonErrors.DonError.AddCtxPair | libs/don_error/Crate/src/don_error.rs:66-69 | One owned pair is inserted as `with_ctx_val` would insert it. |
| DonErrors.DonError.AddCtx | libs/don_error/Crate/src/don_error.rs:43-49 | Every pair of the context builder is inserted, in its order; `self` is returned. |
| DonErrors.DonError.AddCtxVal | libs/don_error/Crate/src/don_error.rs:51-57 | One key/value pair is inserted; `self` is returned. |
| DonErrors.DonError.AddCtxSer | libs/don_error/Crate/src/don_error.rs:59-64 | The serialised value is inserted under the key. |
| DonErrors.DonError.WithCtx | libs/don_error/Crate/src/don_error.rs:23-26 | The by-value form: the same new state as `add_ctx`. |
| DonErrors.DonError.WithCtxVal | libs/don_error/Crate/src/don_error.rs:28-34 | The by-value form of `add_ctx_val`. |
| DonErrors.DonError.WithCtxSer | libs/don_error/Crate/src/don_error.rs:36-41 | The by-value form of `add_ctx_ser`. |
| DonErrors.DonError.IntoInner | libs/don_error/Crate/src/don_error.rs:89-92 | Gives back the error and its context unchanged. |
| DonErrorCtx.RenderValue | libs/don_error/Crate/src/don_error_ctx.rs:72-90 | A value of at most 100 characters is shown whole. A longer one is shown as its first 100 characters and "...". No rendering exceeds 103 characters. |
| DonErrorCtx.DonErrorContext.New | libs/don_error/Crate/src/don_error_ctx.rs:27-29 | A new context holds no pair. |
| DonErrorCtx.DonErrorContext.Add | libs/don_error/Crate/src/don_error_ctx.rs:31-34 | The pair is appended after all earlier ones. |
| DonErrorCtx.DonErrorContext.AddVal | libs/don_error/Crate/src/don_error_ctx.rs:36-41 | The key/value pair is appended. |
| DonErrorCtx.DonErrorContext.AddSer | libs/don_error/Crate/src/don_error_ctx.rs:43-48 | The key with the serialised value is appended. |
| DonErrorCtx.DonErrorContext.With | libs/don_error/Crate/src/don_error_ctx.rs:50-53 | The builder form of `add`: the pair is appended and the builder returned. |
| DonErrorCtx.DonErrorContext.WithVal | libs/don_error/Crate/src/don_error_ctx.rs:55-61 | The builder form of `add_val`. |
| DonErrorCtx.DonErrorContext.WithSer | libs/don_error/Crate/src/don_error_ctx.rs:63-69 | The builder form of `add_ser`. |
| DonErrorCtx.DonErrorContext.DebugFields | libs/don_error/Crate/src/don_error_ctx.rs:72-90 | The `Debug` output has one field per pair, in insertion order, each showing the key and the rendered value. Every field is bounded by 103 characters. |
| DonErrorLib.ErrMsg | libs/don_error/Crate/src/lib.rs:31-36 | `err_msg!` makes an error with that message and an empty context. |
| DonErrorLib.Bail | libs/don_error/Crate/src/lib.rs:38-43 | `bail!` returns at once with that error. |
| DonErrorLib.TryOrReport | libs/don_error/Crate/src/lib.rs:25-29 | Nothing is reported exactly when the call succeeds. A failure reports that one error. |
| OptionExtensions.OkOrDonErr | libs/don_error/Crate/src/option_extensions.rs:12-14 | `Some` becomes `Ok` of the same value, and only `Some` does. `None` becomes an error with that message and an empty context. |
| ResultExtensions.ErrCtx | libs/don_error/Crate/src/result_extensions.rs:62-64 | An `Ok` passes unchanged. An error is converted, then gets every pair of the context. |
| ResultExtensions.ErrCtxVal | libs/don_error/Crate/src/result_extensions.rs:66-71 | An `Ok` passes unchanged. A converted error gets exactly one more entry. |
| ResultExtensions.ErrCtxSer | libs/don_error/Crate/src/result_extensions.rs:73-78 | `err_ctx_val` with the serialised value; an `Ok` passes unchanged. |
| ResultExtensions.MapErrToFail | libs/don_error/Crate/src/result_extensions.rs:80-91 | `Ok(x)` becomes `Ok(Ok(x))`. An error the operation maps to a failure becomes `Ok(Err(failure))`. Any other error is converted into a `DonError`. An inner `Ok` only comes from an outer `Ok`. |
| ResultExtensions.MapErrToFailDocExample | libs/don_error/Crate/src/result_extensions.rs:18-52 | The documentation example: `Variant1` gives the expected failure, `Variant2` an error. |
| GetOnlyResult.DieselInto | libs/DieselHelpers/src/get_only_result.rs:75-90 | A diesel error becomes a `DonError` with its message and no context. |
| GetOnlyResult.GetOnlyResult | libs/DieselHelpers/src/get_only_result.rs:22-42 | A failed query gives `QueryError` and no rows gives `NotFound`. The result is `Ok` exactly when there is one row and it loaded; the value is that row. Two loaded rows give `MultipleInstancesReturned` with both rows and the unread rest. A row error gives `QueryError`. The pool error never arises here. |
| GetOnlyResult.FirstError | libs/DieselHelpers/src/get_only_result.rs:107-116 | The position of the first row error, with every row before it loaded; none exactly when all rows loaded. |
| GetOnlyResult.FirstErrorAt | libs/DieselHelpers/src/get_only_result.rs:107-116 | A row error preceded only by loaded rows is the first error. |
| GetOnlyResult.LoadAllOf | libs/DieselHelpers/src/get_only_result.rs:107-116 | All rows load exactly when the unread rest holds no error. The values are then the two first rows followed by the rest, in order. Otherwise the error comes from a row preceded only by loaded rows. |
| GetOnlyResult.LoadAll | libs/DieselHelpers/src/get_only_result.rs:107-116 | The loop over the unread rows computes `LoadAllOf`. |
| GetOnlyResult.Optional | libs/DieselHelpers/src/get_only_result.rs:181-187 | A row becomes `Some(row)` and `NotFound` becomes `None`. Every other failure is kept. |
| GetOnlyResult.FailInto | libs/DieselHelpers/src/get_only_result.rs:75-90 | Each failure is converted with its own message; pool and query errors keep their original error. |
| GetOnlyResult.UniqueOrFail | libs/DieselHelpers/src/get_only_result.rs:188-197 | The outer result is an error exactly for pool and query errors. "Not found" and "several" become inner failures, carrying the rows read. |
| GetOnlyResult.IntoResults | libs/DieselHelpers/src/get_only_result.rs:132-137 | "Not found" gives `None`. "Several" gives all rows, or the first load error. |
| GetOnlyResult.UniqueOrFailWithResults | libs/DieselHelpers/src/get_only_result.rs:162-173 | Like `unique_or_fail`, with the rows of "several" already loaded, or the load error. |
| GetOnlyResult.GetOnlyThenLoadAll | libs/DieselHelpers/src/get_only_result.rs:22-42 | Over rows that all load: none is "not found", one is the value, and several give back every row in order. |
| DieselEnums.NameOf | libs/DieselHelpers/src/enums.rs:17-22 | The name written for a variant is the name of an arm for that variant. |
| DieselEnums.ToSql | libs/DieselHelpers/src/enums.rs:17-22 | `to_sql` appends the variant's name to the output and is never null. |
| DieselEnums.FromSql | libs/DieselHelpers/src/enums.rs:26-31 | A text decodes exactly when some arm has that name, giving the variant of the first such arm. Otherwise the result is "Unrecognized enum variant". |
| DieselEnums.FromSqlToSql | libs/DieselHelpers/src/enums.rs:17-31 | With distinct names, reading what was written gives back the variant. |
| DieselEnums.ToSqlFromSql | libs/DieselHelpers/src/enums.rs:17-31 | With distinct variants, writing what was read gives back the text. |
| DieselDb.ToUrl | libs/DieselHelpers/src/lib.rs:20-29 | The URL starts with `postgres://` and holds every field verbatim, with six separator characters. |
| DieselDb.SplitOnceFirst | libs/DieselHelpers/src/lib.rs:20-29 | Splitting at a separator absent from the first part recovers both parts. |
| DieselDb.ParseHostOf | libs/DieselHelpers/src/lib.rs:20-29 | `[ip]:port/name` reads back as its three fields when `ip` has no `]` and `port` no `/`. |
| DieselDb.ParseToUrl | libs/DieselHelpers/src/lib.rs:20-29 | The URL determines the settings when no field contains the separator that ends it. |
| DieselDb.ToUrlNotInjective | libs/DieselHelpers/src/lib.rs:20-29 | With no escaping, two different settings give the same URL. |
| FirefoxStructs.Bookmarks | libs/FirefoxSyncSdk/src/structs/mod.rs:40-47 | A bookmark is yielded exactly when it is a bookmark child. |
| FirefoxStructs.SubFolders | libs/FirefoxSyncSdk/src/structs/mod.rs:49-63 | A folder is yielded exactly when it is a folder child (`sub_folders` and `into_sub_folders`). |
| FirefoxStructs.FiltersPartition | libs/FirefoxSyncSdk/src/structs/mod.rs:40-63 | Every child is yielded by exactly one of the two filters. |
| FirefoxStructs.FiltersAppend | libs/FirefoxSyncSdk/src/structs/mod.rs:40-63 | Both filters keep the children's order. |
| FirefoxStructs.OccurrencesAppend | libs/FirefoxSyncSdk/src/structs/mod.rs:20-28 | The fields under the looked-for names are found in document order. |
| FirefoxStructs.RequiredString | libs/FirefoxSyncSdk/src/structs/mod.rs:20-28 | A required field decodes exactly when it appears once, under any one of its names, as a string. |
| FirefoxStructs.DefaultedId | libs/FirefoxSyncSdk/src/structs/mod.rs:26-27 | An absent `parentid` defaults to `None`. A present id is the string given. |
| FirefoxStructs.DecodeBookmark | libs/FirefoxSyncSdk/src/structs/mod.rs:20-28 | A decoded bookmark's url is the one string given under `url`, `uri` or `bmkUri`. |
| FirefoxStructs.Decode | libs/FirefoxSyncSdk/src/structs/mod.rs:13-18 | A node decodes as a bookmark only when tagged "bookmark", and as a folder only when tagged "folder". |
| FirefoxStructs.DecodeAll | libs/FirefoxSyncSdk/src/structs/mod.rs:30-37 | Decoded children are as many as the items. |
| FirefoxStructs.OccurrencesUnique | libs/FirefoxSyncSdk/src/structs/mod.rs:20-28 | A name carried by exactly one field is found once, with that field's value. |
| FirefoxStructs.OccurrencesNone | libs/FirefoxSyncSdk/src/structs/mod.rs:20-28 | A name carried by no field is not found. |
| FirefoxStructs.OccurrencesSkip | libs/FirefoxSyncSdk/src/structs/mod.rs:20-28 | A field with an unknown name changes no lookup. |
| FirefoxStructs.UrlAliases | libs/FirefoxSyncSdk/src/structs/mod.rs:24-25 | The url given as `uri` or `bmkUri` decodes as if given as `url`. |
| FirefoxStructs.UrlTwice | libs/FirefoxSyncSdk/src/structs/mod.rs:24-25 | The url given under two of its names at once is rejected. |
| FirefoxStructs.MissingParentIsNone | libs/FirefoxSyncSdk/src/structs/mod.rs:26-27 | Without `parentid`, a decoded bookmark has no parent. |
| FirefoxStructs.DecodeBookmarkExample | libs/FirefoxSyncSdk/src/structs/mod.rs:87-104 | A bookmark given with `uri`, as in the repository's test, decodes to its id, title, url and parent, whatever their values. |
| FirefoxStructs.DecodeFolderExample | libs/FirefoxSyncSdk/src/structs/mod.rs:126-141 | A folder without a parent and with no children, as in the repository's test, decodes to its id and title with no parent and no children, whatever their values. |
| FirefoxClient.FfsclientCommand | libs/FirefoxSyncSdk/src/client.rs:17-23 | The command is `ffsclient` with the arguments, in order. |
| FirefoxClient.StderrError | libs/FirefoxSyncSdk/src/client.rs:51-55 | The error message is the start of stderr: a longer stderr keeps exactly its first 2000 characters, a shorter one is kept whole. |
| FirefoxClient.TryCommandAndThenInnerAsWritten | libs/FirefoxSyncSdk/src/client.rs:33-58 | The code as written: every call it returns from has run the command first. |
| FirefoxClient.AsWrittenDiverges | libs/FirefoxSyncSdk/src/client.rs:13-15 | As written, when every run fails, no nesting depth is enough: each failed login starts another. |
| FirefoxClient.TryCommandAndThen | libs/FirefoxSyncSdk/src/client.rs:25-58 | A call runs the command; or the command and a login; or the command, a login and the command again. An `Ok` is the callback applied to the stdout of the last, successful run. A first success never logs in. A failed login returns its own error. The retry's failure returns the truncated stderr. |
| FirefoxClient.Login | libs/FirefoxSyncSdk/src/client.rs:13-15 | A login that succeeds runs exactly the login command. |
| FirefoxClient.TryCommand | libs/FirefoxSyncSdk/src/client.rs:60-62 | A successful run gives `Ok(())` with the output discarded; a command that cannot be started gives that error. |
| FirefoxClient.AsWrittenAgrees | libs/FirefoxSyncSdk/src/client.rs:33-58 | When the login does not fail, the code as written and the corrected one give the same outcome and commands. |
| FirefoxBookmarks.GetAllBookmarks | libs/FirefoxSyncSdk/src/bookmarks.rs:19-23 | A listed collection is the decoding of the stdout of a successful run of the list command, the last command of the call. After a successful first run nothing else runs, and an output that does not decode is the decoder's error. |
| FirefoxBookmarks.FirstTitled | libs/FirefoxSyncSdk/src/bookmarks.rs:34-38 | The first sub-folder with the title; none exactly when no sub-folder has it. |
| FirefoxBookmarks.Descend | libs/FirefoxSyncSdk/src/bookmarks.rs:34-39 | A found folder is titled by the last segment. An error names a segment that is missing. |
| FirefoxBookmarks.DescendAppend | libs/FirefoxSyncSdk/src/bookmarks.rs:34-39 | Each further segment selects the first sub-folder with exactly that title; with none, the error names that segment; an error from an earlier segment is kept, so the error names the first missing segment. |
| FirefoxBookmarks.MissingRootMessageAsWrittenOmitsPath | libs/FirefoxSyncSdk/src/bookmarks.rs:33 | As written, the message is the same for every path. |
| FirefoxBookmarks.MissingRootMessageNamesPath | libs/FirefoxSyncSdk/src/bookmarks.rs:33 | Corrected, different paths give different messages. |
| FirefoxBookmarks.Resolve | libs/FirefoxSyncSdk/src/bookmarks.rs:27-40 | An empty path is "Empty path". An unknown first segment is the missing-root error, in its corrected form naming the path. Otherwise the root named by the first segment is descended by the rest. |
| FirefoxBookmarks.ResolveOneSegment | libs/FirefoxSyncSdk/src/bookmarks.rs:30-33 | A one-segment path naming a root gives that root. |
| FirefoxBookmarks.ResolveTitle | libs/FirefoxSyncSdk/src/bookmarks.rs:34-39 | A resolved longer path ends on a folder titled by its last segment. |
| FirefoxBookmarks.GetFolderOf | libs/FirefoxSyncSdk/src/bookmarks.rs:25-41 | A listing error comes first, even for an empty path; otherwise the path is resolved. |
| FirefoxBookmarks.GetFolder | libs/FirefoxSyncSdk/src/bookmarks.rs:25-41 | The loop over the path segments gives `GetFolderOf` of the listing; the commands run are the listing's. |
| FirefoxBookmarks.CreateBookmark | libs/FirefoxSyncSdk/src/bookmarks.rs:43-63 | A created bookmark has the input's url and title, with the new folder as parent. The last command run is the create. |
| FirefoxBookmarks.CreateFolder | libs/FirefoxSyncSdk/src/bookmarks.rs:65-84 | A created folder has the input's title and parent, and no children. The last command run is the create. |
| FirefoxBookmarks.DeleteBookmark | libs/FirefoxSyncSdk/src/bookmarks.rs:86-88 | The delete command is run first. |
| FirefoxBookmarks.MoveBookmark | libs/FirefoxSyncSdk/src/bookmarks.rs:90-100 | A bookmark already in the folder runs nothing. Otherwise a copy is created in the folder, and the original is deleted only after the copy was created. |
| FirefoxBookmarks.FailedMoveKeepsOriginal | libs/FirefoxSyncSdk/src/bookmarks.rs:94-99 | When the create fails, the original is never deleted. |
| Monitors.ScreensConfigOf | WallpapersManager/src/monitors.rs:17-30 | No screen is an error and one screen is single. Two screens are "same resolution" exactly when their sizes are equal. Three or more are "three or more". |
| Monitors.ScreensConfigDependsOnFirstTwo | WallpapersManager/src/monitors.rs:17-30 | Only the number of screens and the sizes of two screens matter. |
| WallpaperCommon.ProportionateLimit | WallpapersManager/src/wallpapers/choose.rs:30-54 | The limit is NaN exactly when both directories are empty. Otherwise it lies in [0, 1] and equals `ns / (ns + 2 nd)`. |
| WallpaperCommon.DebugString | WallpapersManager/src/wallpapers/choose.rs:111-120 | The `{:#?}` form of the command's output is quoted. |
| WallpaperCommon.EscapeDebug | WallpapersManager/src/wallpapers/choose.rs:111-120 | A text without characters to escape is kept as it is; escaping never shortens. |
| WallpaperCommon.RunCommand | WallpapersManager/src/wallpapers/choose.rs:111-120 | Success exactly when the process ran and exited successfully. A spawn failure is returned as is. A failed exit reports its outputs. |
| WallpaperCommon.Reports | WallpapersManager/src/wallpapers/choose.rs:56-77 | Every report is the error of an earlier round. |
| WallpaperCommon.ReportsAreErrors | WallpapersManager/src/wallpapers/choose.rs:56-77 | The reports are exactly the errors of the rounds, in round order. |
| WallpaperCommon.RunRounds | WallpapersManager/src/wallpapers/choose.rs:71-74 | The loop reports exactly the failed rounds' errors, in order, and sleeps `minutes * 60` seconds after each round. |
| WallpaperCommon.EveryNMinutes | WallpapersManager/src/wallpapers/choose.rs:56-77 | A failed lock setup returns its error. With the lock held elsewhere, one change is made and its outcome returned. With the lock, every round runs, every failure is reported in order, each round sleeps `minutes * 60` seconds, and the call never returns. |
| WallpapersChoose.ChooseSingleIfUnderLimit | WallpapersManager/src/wallpapers/choose.rs:102-109 | Single exactly when the draw is strictly below the limit (never below NaN). |
| WallpapersChoose.ChooseBucket | WallpapersManager/src/wallpapers/choose.rs:30-54 | Anything but two same-size screens is single. Only-single and only-dual are what they say. Fifty-fifty is single below 0.5. Proportionate is single below the proportionate limit; errors counting entries are passed on. |
| WallpapersChoose.FehCommand | WallpapersManager/src/wallpapers/choose.rs:79-100 | `feh --bg-max` on the single directory, or `feh --bg-fill --no-xinerama` on the dual one. |
| WallpapersChoose.ChooseOnce | WallpapersManager/src/wallpapers/choose.rs:30-54 | A monitor query error is returned. A chosen bucket runs `feh` on it. Success means `feh` ran successfully on some bucket. |
| WallpapersChoose.NoDualMeansSingle | WallpapersManager/src/wallpapers/choose.rs:30-54 | With no dual image and some single image, single is always shown. |
| WallpapersChoose.NoSingleMeansDual | WallpapersManager/src/wallpapers/choose.rs:30-54 | With no single image, dual is always shown, even when both directories are empty. |
| WallpapersChange.ChooseSingleOrDualRandomly | WallpapersManager/src/wallpapers/change.rs:104-110 | Single exactly when the draw is at most the probability (never for NaN). |
| WallpapersChange.ChangeBucket | WallpapersManager/src/wallpapers/change.rs:28-52 | As in `choose.rs`, but the comparison with the limit is `<=`. |
| WallpapersChange.FehCommand | WallpapersManager/src/wallpapers/change.rs:77-102 | `feh --bg-max` on the configured single or dual directory; dual adds `--no-xinerama`. |
| WallpapersChange.Once | WallpapersManager/src/wallpapers/change.rs:28-52 | A monitor query error is returned; a chosen bucket runs `feh` on it. |
| WallpapersChange.FiftyFiftyBoundary | WallpapersManager/src/wallpapers/change.rs:104-110 | A draw of exactly 0.5 gives dual in `choose.rs` and single in `change.rs`. |
| WallpapersChange.EmptySingleDirectory | WallpapersManager/src/wallpapers/change.rs:104-110 | With no single image, a draw of 0 still gives single in `change.rs`, but dual in `choose.rs`. |
| WallpapersChange.AgreeOffTheLimit | WallpapersManager/src/wallpapers/change.rs:28-52 | On any draw other than the limit itself, the two variants choose the same bucket. |
| WallpapersSort.RatioTest | WallpapersManager/src/wallpapers/sort.rs:40 | For a positive height, `width / height <= RATIO_LIMIT` holds exactly when `90 * width <= 208 * height`, RATIO_LIMIT being 16/9 × 1.3. |
| WallpapersSort.BucketOf | WallpapersManager/src/wallpapers/sort.rs:13 | An image is single exactly when width/height is at most 16/9 × 1.3. A zero height gives dual. |
| WallpapersSort.BucketExamples | WallpapersManager/src/wallpapers/sort.rs:40-44 | Full HD is single; three full-HD screens side by side are dual. |
| WallpapersSort.Destination | WallpapersManager/src/wallpapers/sort.rs:59-68 | An image goes directly into its bucket directory under the same file name. |
| WallpapersSort.WalkStart | WallpapersManager/src/wallpapers/sort.rs:34-35 | The walk starts with every file below the root not named `Thumbs.db`. |
| WallpapersSort.ReportStep | WallpapersManager/src/wallpapers/sort.rs:37-46 | A file that cannot be read or renamed is reported and left in place; the walk's invariant is kept. |
| WallpapersSort.MoveKeepsSorted | WallpapersManager/src/wallpapers/sort.rs:40-44 | Moving a visited file into its bucket keeps every other visited file in its bucket. |
| WallpapersSort.MoveKeepsNames | WallpapersManager/src/wallpapers/sort.rs:59-68 | A move neither loses nor invents an image: every file below the root is an earlier one under the same name. |
| WallpapersSort.MoveKeepsOutside | WallpapersManager/src/wallpapers/sort.rs:59-68 | A move changes nothing outside the root. |
| WallpapersSort.MoveKeepsRest | WallpapersManager/src/wallpapers/sort.rs:34-47 | A move keeps reports, `Thumbs.db` files and an already sorted tree untouched. |
| WallpapersSort.MoveStep | WallpapersManager/src/wallpapers/sort.rs:37-46 | Moving a visited file keeps the walk's invariant. |
| WallpapersSort.MoveKeepsInPlace | WallpapersManager/src/wallpapers/sort.rs:41-45 | A move leaves its image in its bucket, and takes no image already in its bucket out of it. |
| WallpapersSort.KeepingReport | WallpapersManager/src/wallpapers/sort.rs:37-39 | A reported file keeps its place and contents, and the walk's lower bound holds on. |
| WallpapersSort.KeepingMove | WallpapersManager/src/wallpapers/sort.rs:40-46 | A move keeps every file that no other move targets: pending ones unchanged, visited movable ones in place at their destination, reported ones where they were. |
| WallpapersSort.MovedIntoRoot | WallpapersManager/src/wallpapers/sort.rs:29-32 | Emptying a bucket into the root keeps the images, by name, and the outside of the root. Every root file outside the bucket that no bucket file was moved onto is still there with the same content. |
| WallpapersSort.BucketsApart | WallpapersManager/src/wallpapers/sort.rs:29-32 | Emptying the single bucket does not touch the dual one, so the second emptying fails exactly where it would have from the start. |
| WallpapersSort.WallpaperTree.constructor | WallpapersManager/src/wallpapers/sort.rs:15-16 | The tree holds the given directories and files. |
| WallpapersSort.MoveFile | WallpapersManager/src/wallpapers/sort.rs:59-68 | After a rename the file's content is under the new directory with the same name, and every other path is untouched. |
| WallpapersSort.EmptyingStep | WallpapersManager/src/wallpapers/sort.rs:70-75 | Moving one remaining file keeps the loop's invariant: the files not yet moved are exactly those still below the old directory, every moved one is in the new directory. Every other path is unchanged, except `newDir/<name>` for the name of a moved file. |
| WallpapersSort.WallpaperTree.MoveTo | WallpapersManager/src/wallpapers/sort.rs:59-68 | A rename moves the file into the directory under its name. A failed rename returns its error and changes nothing. |
| WallpapersSort.WallpaperTree.MoveAllFiles | WallpapersManager/src/wallpapers/sort.rs:70-75 | Success exactly when every file below the old directory can be renamed; an error is one file's rename error. After success, nothing is left below the old directory and every file is in the new one. Every path outside the old directory is unchanged, except `newDir/<name>` for the name of a moved file. |
| WallpapersSort.WallpaperTree.SortFiles | WallpapersManager/src/wallpapers/sort.rs:34-47 | Afterwards the tree is sorted, and every file left in place was reported. Reports are files below the root not named `Thumbs.db`. An already sorted tree is unchanged. Images keep their names. `Thumbs.db` files and everything outside the root are untouched. Every image it can move that no other image's move targets ends in its bucket under its name, and every reported file that no move targets is still where it was, unchanged. |
| WallpapersSort.WallpaperTree.Perform | WallpapersManager/src/wallpapers/sort.rs:15-50 | A missing root is an error; otherwise both buckets exist afterwards. A forced run first empties both buckets, and fails exactly when one of their files cannot be renamed. On success the tree is sorted and every unsorted file reported. Images keep their names and nothing outside the root changes. Unforced, a sorted tree is left unchanged. On success, the sort's lower bound holds of the tree it starts from: the original one, or after a forced run, the tree with both buckets emptied into the root. In that emptied tree no file is under a bucket, every original bucket file has a file of its name in the root, and every root file outside the buckets that no bucket file was moved onto is kept. The thumbnails of the emptied tree are kept. |
| WallpapersSort.WallpaperTree.CreateBuckets | WallpapersManager/src/wallpapers/sort.rs:20-27 | Both bucket directories exist afterwards; no file changes. |
| WallpapersSort.WallpaperTree.EmptyBuckets | WallpapersManager/src/wallpapers/sort.rs:29-32 | The single bucket, then the dual one, is emptied into the root. This fails exactly when a file of one cannot be renamed; images and the outside are kept. After success, both buckets are empty and every file that was in either bucket has a file of its name in the root. Every root file outside the buckets that no bucket file was moved onto keeps its path and content. |
| WallpapersSort.EmptiedBoth | WallpapersManager/src/wallpapers/sort.rs:29-32 | After the single bucket and then the dual one are emptied into the root, every root file outside the buckets that no file of either bucket was moved onto is kept. Once the dual bucket's files have landed, every original file of either bucket has a file of its name in the root. |
| WallpapersSort.Lands | WallpapersManager/src/wallpapers/sort.rs:70-75 | A file outside the emptied directory that is present before a move of that directory is still present afterwards: either it is untouched, or a moved file landed on its path. |
| WallpapersSort.DualTargetsFromStart | WallpapersManager/src/wallpapers/sort.rs:29-32 | Emptying the single bucket adds no file below the dual bucket, so every root path a dual file lands on is the target of a dual file of the original tree. |
| Download.SiteOf | WallpapersManager/src/download/mod.rs:39-48 | A site is selected exactly when the host is exactly that site's name. |
| Download.HoldingFolder | WallpapersManager/src/download/mod.rs:18-27 | An existing "Unsupported domains" sub-folder is used without any command. Otherwise one is created in the download folder. Either way the folder has that title. |
| Download.DownloadAndDelete | WallpapersManager/src/download/mod.rs:28-36 | The download is recorded. A failed download returns its error and deletes nothing. After a successful one, the outcome and the commands are those of deleting the bookmark. |
| Download.HandleBookmark | WallpapersManager/src/download/mod.rs:37-51 | An unparsable URL ends the turn with its error and does nothing. A supported host is downloaded; a failed download is the outcome, and after a successful one the outcome is the delete's. Any other host downloads nothing, and the outcome and commands are those of moving the bookmark to the holding folder. The history only grows. |
| Download.HandleAll | WallpapersManager/src/download/mod.rs:37-51 | The history of commands and downloads only grows. |
| Download.DownloadsOfBookmarks | WallpapersManager/src/download/mod.rs:37-51 | Every download the walk adds is of one of the bookmarks, into the folder of the site its host names. |
| Download.FirstErrorAborts | WallpapersManager/src/download/mod.rs:37-51 | An error is the error of one bookmark; every bookmark before it succeeded and none after it was handled. |
| Download.SupportedDownloaded | WallpapersManager/src/download/mod.rs:37-51 | When the loop succeeds, every bookmark with a supported host was downloaded by its site. |
| Download.Perform | WallpapersManager/src/download/mod.rs:14-56 | A failed lookup of the download folder or of the holding folder aborts without downloading. Otherwise the bookmarks are handled in order. The sort runs exactly when every bookmark succeeded; its outcome is then the result. |
| Download.TargetPath | WallpapersManager/src/download/mod.rs:58-66 | The file is named after the text following the last `/` of the link (the whole link without one), in the wallpapers directory; this never fails. |
| Download.DownloadFile | WallpapersManager/src/download/mod.rs:58-70 | The link is stored at that path. |
| WallpaperFlare.StripEach | WallpapersManager/src/download/wallpaper_flare.rs:4-6 | The normalised link is always a prefix of the link. |
| WallpaperFlare.NormaliseUrl | WallpapersManager/src/download/wallpaper_flare.rs:4-6 | The loop removes each suffix, in order, at most once. |
| WallpaperFlare.NormaliseKeepsOthers | WallpapersManager/src/download/wallpaper_flare.rs:4-6 | A link ending in neither suffix is unchanged. |
| WallpaperFlare.NormaliseExamples | WallpapersManager/src/download/wallpaper_flare.rs:4-6 | "a/download" and "a/download/" become "a/"; "a/downloaddownload" loses only one "download". |
| WallpaperFlare.Download | WallpapersManager/src/download/wallpaper_flare.rs:3-25 | The normalised link is fetched first; a fetch error is returned. A missing anchor or `href` is an error carrying the page source under "source code", and nothing more is fetched. Otherwise the link found goes to the second stage, whose outcome is returned. |
| Text.StripSuffix | WallpapersManager/src/download/wallpaper_flare.rs:5 | With the suffix, the result followed by the suffix is the text; without it, the text is kept. |
| Text.SplitJoin | libs/FirefoxSyncSdk/src/bookmarks.rs:30 | Splitting at `/` and joining back gives the path; no piece holds a `/`. |
| Text.Truncate | libs/FirefoxSyncSdk/src/client.rs:51-55 | A longer text keeps exactly its first n characters; a shorter text is kept whole. |
| Text.NatToStringInjective | libs/don_error/Crate/src/don_error.rs:71-87 | Distinct numbers give distinct suffixes. |

## Left out

- Anything a process, the network, the clock or the file system does is a parameter of the model:
  - the `ffsclient` tool, `feh` and the window-system query;
  - the random draw, the JSON decoder and the URL parser;
  - HTTP fetches and the HTML lookup;
  - the per-site downloaders, and the writing of a downloaded file.
- `thread::sleep` is recorded as a list of durations, not performed.
- The lock-file handling of the scheduler is given as its outcome (error, busy or acquired).
- WallpaperCommon.EveryNMinutes: the loop never ends in the source; the model runs `fuel` rounds and returns `None`.
- WallpaperCommon.EveryNMinutes: `minutes * 60` is unbounded, not the `u64` product that could wrap.
- WallpapersSort.BucketOf: the ratio is exact, so `f64` rounding of `width / height` and of 16/9 × 1.3 is not modelled.
- WallpapersSort.WallpaperTree.SortFiles: a rename onto a path that holds a file replaces it. So when two images share a name, or an image lies in a bucket under the name another image is moved to, one of them can be lost. The lower bound (each movable image ends in its bucket) is stated only for images no other move targets.
- WallpapersSort.WallpaperTree.SortFiles: the walk visits a snapshot of the files taken before it starts. It visits them in any order. It does not see files that earlier moves put into a directory it has not yet entered. Only the paths of reported errors are kept, not their messages.
- WallpapersSort.WallpaperTree.EmptyBuckets: a bucket file moved onto a root file of the same name replaces it, so the promise that root files are kept leaves out the paths bucket files are moved onto.
- WallpapersSort.WallpaperTree.CreateBuckets: `create_dir_all` never fails in the model.
- WallpapersSort.WallpaperTree.MoveTo: a rename error is a property of the file. A rename onto an existing file replaces it. Renaming onto a directory is not modelled.
- WallpapersSort: the `expect` on the file name cannot fail, since every file path is non-empty.
- `sort.rs` and `change.rs` read the bucket names from `CONFIG.single_screen_dir` and `CONFIG.dual_screen_dir`, which `config.rs` does not define; the model takes them as parameters. `choose.rs` uses the constants `Single_screen` and `Dual_screen` of `wallpapers/mod.rs`.
- Monitors.ScreensConfigOf: the window-system query and its size `expect` are left out. The screen sizes are given as the outcome of the query.
- WallpaperCommon.RunCommand: the `String::from_utf8(..).expect(..)` on the stderr of a failed command is not modelled; stderr is already text, so that panic on invalid UTF-8 cannot happen in the model.
- Download.SiteOf: the host is taken from a URL-parser parameter. A real parser gives hosts such as `www.flickr.com`, which never equal the names matched.
- Download.Perform: the sort is given as its outcome, not run on a `WallpaperTree`.
- Download.DownloadFile: creating the file and copying the response into it are one parameter, `store`.
- The Flickr and Wallhaven downloaders are parameters. So is the second stage of the Wallpaper Flare downloader: HTML glue over the `scraper` crate.
- WallpaperFlare.Download: a failure to parse the constant selector cannot happen and is left out.
- `WallpapersManager/src/scrapers` is not declared by the crate and is not modelled.
- The JSON listing is decoded by a parameter.
  - FirefoxStructs models the field rules of the structs (aliases, defaults, the type tag) on a small JSON value type.
  - Which error serde reports first is not modelled.
- Ids are plain strings, without the newtypes of `structs/ids.rs`.
- `DonErrorContext` stores owned pairs. Borrowed pairs and their lifetimes are not modelled.
- `serde_json::Value` is represented by its serialised text. Serialisation errors are not modelled.
- DonErrorCtx.RenderValue: the limit counts characters of the serialised text.
- DonErrorCtx.DonErrorContext.DebugFields: a field holds the string handed to `field`, not its `Debug` rendering with quotes and escapes.
- FirefoxClient.StderrError: `String::truncate` counts bytes and panics when the cut falls inside a character; the model counts characters and never panics. The lossy UTF-8 decoding of stdout and stderr is not modelled: outputs are text.
- Text.Truncate: counts characters, not bytes (see StderrError).
- FirefoxBookmarks.Resolve: an unknown first segment gives the corrected message `MissingRootMessage(path)`, which names the path. The code as written gives the literal text `MissingRootMessageAsWritten`; see Findings.
- FirefoxBookmarks.GetFolderOf: uses Resolve, so it gives the corrected missing-root message.
- FirefoxBookmarks.GetFolder: gives the corrected missing-root message, as Resolve does.
- WallpaperCommon.EscapeDebug: only quotes, backslashes, newlines, carriage returns and tabs are escaped, not every escape `{:#?}` performs.
- `DonError::report`, the `Display`/`Debug` impls of `DonError` and the `Deref`/`AsRef` impls are not modelled, nor the actix and yew helpers.
- The derive macro of `don_error`, `ActixHelpers` and `ConfigHelpers` are not modelled.
- GetOnlyResult: the row stream and the connection pool are given as values. A `Fail` holds the loaded rows instead of the live query.
- DieselEnums.FromSql: a failure to decode the bytes as text is not modelled.
- The `db!` macro that opens a connection is not modelled.

## Findings

| source | as written | input that shows it | evidently intended | confidence | as-written member | corrected member |
|---|---|---|---|---|---|---|
| libs/FirefoxSyncSdk/src/client.rs:13-15, 47-49 | A failed command triggers `login`. `login` is `try_command`, so a failed login itself triggers another login, and so on without end. | `ffsclient` failing every run, e.g. with the account service unreachable. `FirefoxClient.AsWrittenDiverges` shows no nesting depth suffices. | Log in once; a failed login returns its error. `FirefoxClient.AsWrittenAgrees` shows both agree whenever the login does not fail. | not executed | FirefoxClient.TryCommandAndThenInnerAsWritten | FirefoxClient.TryCommandAndThen |
| libs/FirefoxSyncSdk/src/bookmarks.rs:33 | The message `"{path} doesn't exists in collection"` is passed to `ok_or_don_err` as a plain string, so `{path}` is never formatted. | Any path whose first segment is not a root, e.g. "toolbar/Wallpaper" and "menu" give the same text (`FirefoxBookmarks.MissingRootMessageAsWrittenOmitsPath`). | The message names the path, as `format!` would (`FirefoxBookmarks.MissingRootMessageNamesPath`). | not executed | FirefoxBookmarks.MissingRootMessageAsWritten | FirefoxBookmarks.MissingRootMessage |
