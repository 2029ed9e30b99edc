# DownloadManager: the download record and the download registry

This project models the core of a Swift download manager that runs
resumable file downloads on a background URL session and tracks them by
URL.

- `Downloads` (`download.dfy`) is the immutable `Download` record. It holds
  the source and destination URLs, whether a transfer is running, the task
  handle, any resume data, and the two byte counts. It also has the derived
  `progress` ratio, the convenience initializer and the three "with"
  transformers, each of which returns a new record.
- `RegistryFold` (`registry_fold.dfy`) holds the two steps the registry uses
  to rebuild its dictionary. The first is Swift's dictionary `filter`, which
  yields a list of (key, value) pairs in no promised order; it is modelled
  as a loop that picks keys nondeterministically. The second is the
  `toDictionary` left fold, where the last pair written for a key wins.
- `Manager` (`download_manager.dfy`) is the `DownloadManager` class. Its
  state is the `downloads` dictionary (keyed by `absoluteString`) and the
  records captured by pause requests that have not yet completed. It has
  the public operations `startDownload`, `pauseDownload`, `resumeDownload`,
  `cancelDownload`, `getDownload` and `getDownloads`, and the engine
  callbacks for progress, pause completion and download completion. Each
  callback is one atomic method call.
- The URL session is replaced by a `TransferEngine` class. It hands out
  fresh task handles (handle `h` is the `h`-th task made) and records where
  each task came from: a URL or resume data. It also logs, in order, the
  handles that `resume()`, `cancel()` and `cancelByProducingResumeData` were
  called on.
- `Scenario` (`scenario.dfy`) holds two client methods. They show what a
  caller can conclude from the contracts alone.

Modelling choices:

- A URL is a string equal to its `absoluteString`.
- Handles and resume data are opaque values.
- Byte counts are Swift's `Int64`, as a bounded newtype.
- `progress` uses exact real division.
- A callback's `downloadTask.originalRequest?.URL` is a parameter of type
  `Option<Url>`.
- The file system's answer to the delete in the completion callback is a
  parameter.

Behaviour kept as the code has it:

- `resumeDownload` does not start the task it creates: `resume()` goes to
  the record's previous task. `ResumeDownload` proves that, when the call
  returns, the handle it created is not in the resume log.
- The pause completion handler stores the pause state of the record that
  was captured when the pause was requested. Progress written in between is
  lost. The handler also registers that record again if the entry was
  cancelled in between (see `Scenario.CancelThenLateCallbacks`).
- `startDownload` on a URL that is already tracked replaces the entry and
  does not cancel the old task.
- `downloadWithResumeState` keeps the old resume data.
- The completion callback copies from the download URL, not from the
  temporary `location`.
- The completion callback does not ignore a failed delete. A delete that
  throws, for example because no file is at the destination yet, skips the
  copy, and the entry is still removed. So when no file exists at the
  destination yet, nothing is copied.

## Model

| member | source | states |
|---|---|---|
| Downloads.Progress | DownloadManager/Download.swift:22-28 | 0 when `downloadSize` is 0; otherwise the result times `downloadSize` is `progressSize` |
| Downloads.ProgressIsFraction | DownloadManager/Download.swift:22-28 | progress lies in [0, 1] when 0 <= progressSize <= downloadSize |
| Downloads.NewDownload | DownloadManager/Download.swift:40-42 | the convenience initializer keeps both URLs, is not downloading, has no task, no resume data, both sizes 0 and progress 0 |
| Downloads.WithProgress | DownloadManager/Download.swift:45-47 | sets both sizes to the given values, so progress is their ratio when the total is non-zero; URLs, `isDownloading`, task and resume data unchanged |
| Downloads.WithPauseState | DownloadManager/Download.swift:49-51 | not downloading, resume data replaced by the given data (none by default); URLs, sizes and the task handle unchanged |
| Downloads.WithResumeState | DownloadManager/Download.swift:53-55 | downloading on the given task; URLs, sizes and the old resume data unchanged |
| Downloads.ProgressLastWins | DownloadManager/Download.swift:45-47 | a second progress update wholly replaces the first |
| Downloads.PauseThenResume | DownloadManager/Download.swift:49-55 | pausing with delivered data and then resuming on a new task gives a downloading record on that task holding that data, with the URLs and sizes from before the pause |
| Downloads.PauseOfCapturedRecordDropsProgress | DownloadManager/DownloadManager.swift:48-50 | the pause state of a captured record equals that of the record after a progress update exactly when the update changed no size |
| RegistryFold.ToDictionaryKeys | DownloadManager/DownloadManager.swift:91-99 | a key is in the folded dictionary iff some element's transform is present and carries that key |
| RegistryFold.ToDictionaryLastWins | DownloadManager/DownloadManager.swift:91-99 | the value stored for a key is that of the last element writing it |
| RegistryFold.ToDictionaryOfEnumeration | DownloadManager/DownloadManager.swift:79 | folding a duplicate-free listing of a dictionary's entries with the pair transformer rebuilds that dictionary |
| RegistryFold.AsPair | DownloadManager/DownloadManager.swift:87 | the transformer `{ ($0.0, $0.1) }` keeps every pair and changes neither component |
| RegistryFold.FilterEntries | DownloadManager/DownloadManager.swift:84-86 | the result lists each accepted entry of the dictionary exactly once and nothing else |
| RegistryFold.UpsertByFold | DownloadManager/DownloadManager.swift:76-80 | filtering all entries, appending `(k, v)` and folding gives the old dictionary with `k` mapped to `v` |
| Manager.TransferEngine.DownloadTaskWithURL | DownloadManager/DownloadManager.swift:41 | a fresh handle (one past every earlier one) whose task is recorded as made from the URL; nothing else logged |
| Manager.TransferEngine.DownloadTaskWithResumeData | DownloadManager/DownloadManager.swift:59 | a fresh handle whose task is recorded as made from the resume data |
| Manager.TransferEngine.Resume | DownloadManager/DownloadManager.swift:63 | appends the handle to the log of `resume()` calls |
| Manager.TransferEngine.Cancel | DownloadManager/DownloadManager.swift:70 | appends the handle to the log of `cancel()` calls |
| Manager.TransferEngine.CancelByProducingResumeData | DownloadManager/DownloadManager.swift:49 | appends the handle to the log of pause requests |
| Manager.DownloadManager.constructor | DownloadManager/DownloadManager.swift:23-29 | an empty registry, no outstanding pauses, a fresh engine with empty logs |
| Manager.DownloadManager.GetDownload | DownloadManager/DownloadManager.swift:35-37 | present iff the URL is tracked, and then the record whose `downloadURL` is that URL |
| Manager.DownloadManager.GetDownloads | DownloadManager/DownloadManager.swift:31-33 | as many records as tracked keys, and exactly the tracked records |
| Manager.DownloadManager.RegisterActiveDownload | DownloadManager/DownloadManager.swift:76-80 | upsert: the record's URL maps to it, every other key keeps its record, no key is added besides it |
| Manager.DownloadManager.RemoveActiveDownload | DownloadManager/DownloadManager.swift:82-88 | the URL's key is absent and every other entry is unchanged |
| Manager.DownloadManager.StartDownload | DownloadManager/DownloadManager.swift:40-45 | a fresh task made from the URL and started; the URL maps to an active record with that task, sizes 0/0, no resume data and the given destination; any earlier task is not cancelled |
| Manager.DownloadManager.PauseDownload | DownloadManager/DownloadManager.swift:47-53 | the registry never changes; for a tracked, downloading record, its task gets a pause request and the record as it is now is captured; otherwise nothing changes |
| Manager.DownloadManager.OnPauseData | DownloadManager/DownloadManager.swift:49-51 | the handler of one outstanding pause upserts the pause state of the captured record with the delivered data and is used up |
| Manager.DownloadManager.ResumeDownload | DownloadManager/DownloadManager.swift:55-66 | no-op if untracked; otherwise a fresh task made from the resume data if present and from the URL otherwise, the entry becomes the resume state on it, this call does not start the task it creates: `resume()` goes to the record's previous task |
| Manager.DownloadManager.CancelDownload | DownloadManager/DownloadManager.swift:68-73 | the key is removed at once and all others unchanged; the record's task, if any, is cancelled; no-op if untracked |
| Manager.DownloadManager.OnWriteData | DownloadManager/DownloadManager.swift:118-123 | for a tracked request URL the entry becomes its progress update with the totals; otherwise nothing changes |
| Manager.DownloadManager.OnFinishDownloading | DownloadManager/DownloadManager.swift:104-116 | for a tracked request URL the entry is removed whatever the file system answers; a delete of the destination is attempted, then a copy from the download URL only if the delete succeeded; otherwise nothing changes and nothing is attempted |

## Left out

- The shared singleton, the background session configuration and the lazy session (DownloadManager/DownloadManager.swift:13-21) are replaced by `TransferEngine`.
- Concurrency: callbacks run on the session's background queue. Each callback is modelled as one atomic step; locking and interleavings inside a step are not modelled.
- Downloads.Progress: `Float` rounding is not modelled; the ratio is exact real division.
- `getProgressSizeString` and `getDownloadSizeString` (DownloadManager/Download.swift:58-64) only format a number through the platform's byte-count formatter.
- DownloadManager/FileManager.swift is not part of this model. It is a thin wrapper over the platform file manager. The delete and copy it performs in the completion callback appear only as the list of operations attempted. The delete's outcome is an input. The copy's outcome changes nothing afterwards, so it is not an input.
- The bytes transferred and the contents of resume data are opaque. The engine's own transfers, and the timing of its callbacks, are not modelled beyond the callbacks themselves.
- `bytesWritten` in the progress callback is accepted and unused, as in the source.
