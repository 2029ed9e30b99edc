/**
 * The download registry: a dictionary from a URL's `absoluteString` to the
 * current `Download` record, the public start / pause / resume / cancel
 * operations, and the transfer engine's progress, pause and completion
 * callbacks. Each callback runs as one atomic step.
 */
module Manager {

  import opened Wrappers
  import opened Downloads
  import opened RegistryFold

  /** How the engine made a task: from a URL, or from resume data. */
  datatype TaskOrigin = FromURL(url: Url) | FromResumeData(data: ResumeData)

  /** A file operation the completion callback asks the file system to perform. */
  datatype FileOp = Delete(path: Url) | Copy(source: Url, destination: Url)

  /**
   * The transfer engine (the background URL session), seen only through the
   * calls the manager makes on it. Task handle `h` is the `h`-th task made,
   * so a new handle is always fresh; the other fields log, in order, the
   * handles that `resume()`, `cancel()` and `cancelByProducingResumeData`
   * were called on.
   */
  class TransferEngine {
    var tasks: seq<TaskOrigin>
    var resumed: seq<Handle>
    var cancelled: seq<Handle>
    var pauseRequested: seq<Handle>

    /** Every logged call was made on a task the engine had handed out. */
    ghost predicate Valid()
      reads this
    {
      && (forall i :: 0 <= i < |resumed| ==> resumed[i] < |tasks|)
      && (forall i :: 0 <= i < |cancelled| ==> cancelled[i] < |tasks|)
      && (forall i :: 0 <= i < |pauseRequested| ==> pauseRequested[i] < |tasks|)
    }

    constructor ()
      ensures Valid()
      ensures tasks == [] && resumed == [] && cancelled == [] && pauseRequested == []
    {
      tasks, resumed, cancelled, pauseRequested := [], [], [], [];
    }

    /** `downloadTaskWithURL`: a new, not yet started task for `url`. */
    method DownloadTaskWithURL(url: Url) returns (h: Handle)
      requires Valid()
      modifies this
      ensures Valid()
      ensures h == |old(tasks)| && tasks == old(tasks) + [FromURL(url)]
      ensures resumed == old(resumed) && cancelled == old(cancelled) && pauseRequested == old(pauseRequested)
    {
      h := |tasks|;
      tasks := tasks + [FromURL(url)];
    }

    /** `downloadTaskWithResumeData`: a new, not yet started task continuing from `data`. */
    method DownloadTaskWithResumeData(data: ResumeData) returns (h: Handle)
      requires Valid()
      modifies this
      ensures Valid()
      ensures h == |old(tasks)| && tasks == old(tasks) + [FromResumeData(data)]
      ensures resumed == old(resumed) && cancelled == old(cancelled) && pauseRequested == old(pauseRequested)
    {
      h := |tasks|;
      tasks := tasks + [FromResumeData(data)];
    }

    /** `resume()` on a task. */
    method Resume(h: Handle)
      requires Valid() && h < |tasks|
      modifies this
      ensures Valid()
      ensures resumed == old(resumed) + [h]
      ensures tasks == old(tasks) && cancelled == old(cancelled) && pauseRequested == old(pauseRequested)
    {
      resumed := resumed + [h];
    }

    /** `cancel()` on a task: abort without resume data. */
    method Cancel(h: Handle)
      requires Valid() && h < |tasks|
      modifies this
      ensures Valid()
      ensures cancelled == old(cancelled) + [h]
      ensures tasks == old(tasks) && resumed == old(resumed) && pauseRequested == old(pauseRequested)
    {
      cancelled := cancelled + [h];
    }

    /** `cancelByProducingResumeData` on a task; its completion handler fires later. */
    method CancelByProducingResumeData(h: Handle)
      requires Valid() && h < |tasks|
      modifies this
      ensures Valid()
      ensures pauseRequested == old(pauseRequested) + [h]
      ensures tasks == old(tasks) && resumed == old(resumed) && cancelled == old(cancelled)
    {
      pauseRequested := pauseRequested + [h];
    }
  }

  class DownloadManager {
    const engine: TransferEngine

    /** The registry, keyed by `absoluteString` of each record's `downloadURL`. */
    var downloads: map<Url, Download>

    /**
     * The records captured by pause requests whose completion handler the
     * engine has not yet called, in the order the pauses were requested.
     */
    var pendingPauses: seq<Download>

    /** A record the registry may hold: its task, if any, was made by the engine,
        and a record that is downloading has a task. */
    ghost predicate Held(d: Download)
      reads this, engine
    {
      (d.downloadTask.Some? ==> d.downloadTask.value < |engine.tasks|)
      && (d.isDownloading ==> d.downloadTask.Some?)
    }

    ghost predicate Valid()
      reads this, engine
    {
      && engine.Valid()
      && (forall k :: k in downloads ==> downloads[k].downloadURL == k && Held(downloads[k]))
      && (forall i :: 0 <= i < |pendingPauses| ==> Held(pendingPauses[i]))
    }

    /** The manager's initializer, with a fresh engine in place of the background session. */
    constructor ()
      ensures Valid() && fresh(engine)
      ensures downloads == map[] && pendingPauses == []
      ensures engine.tasks == [] && engine.resumed == [] && engine.cancelled == [] && engine.pauseRequested == []
    {
      engine := new TransferEngine();
      downloads := map[];
      pendingPauses := [];
    }

    /** `getDownload`: the record tracked for `downloadURL`, if any. */
    function GetDownload(downloadURL: Url): (r: Option<Download>)
      reads this, engine
      requires Valid()
      ensures r.Some? <==> downloadURL in downloads
      ensures r.Some? ==> r.value.downloadURL == downloadURL && r.value in downloads.Values
    {
      if downloadURL in downloads then Some(downloads[downloadURL]) else None
    }

    /** `getDownloads`: every tracked record once, in no promised order. */
    method GetDownloads() returns (ds: seq<Download>)
      requires Valid()
      ensures |ds| == |downloads|
      ensures forall d :: d in ds <==> d in downloads.Values
    {
      ds := [];
      var rest := downloads.Keys;
      while rest != {}
        invariant rest <= downloads.Keys
        invariant |ds| + |rest| == |downloads|
        invariant forall d :: d in ds <==> exists k :: k in downloads && k !in rest && downloads[k] == d
        decreases rest
      {
        var k :| k in rest;
        ds := ds + [downloads[k]];
        rest := rest - {k};
      }
    }

    /**
     * `registerActiveDownload`: filter every entry into a list, append
     * `download` under its URL, and fold the list back into a dictionary.
     */
    method RegisterActiveDownload(download: Download)
      modifies this`downloads
      ensures downloads == old(downloads)[download.downloadURL := download]
    {
      var keepAll := (_: Url, _: Download) => true;
      var newDownloads := FilterEntries(downloads, keepAll);
      assert Kept(downloads, keepAll) == downloads;
      UpsertByFold(newDownloads, downloads, download.downloadURL, download);
      newDownloads := newDownloads + [(download.downloadURL, download)];
      downloads := ToDictionary(newDownloads, AsPair);
    }

    /** `removeActiveDownload`: keep the entries under other keys and fold them back. */
    method RemoveActiveDownload(downloadURL: Url)
      modifies this`downloads
      ensures downloads == old(downloads) - {downloadURL}
    {
      var keepOthers := (key: Url, _: Download) => downloadURL != key;
      var newDownloads := FilterEntries(downloads, keepOthers);
      assert Kept(downloads, keepOthers) == downloads - {downloadURL};
      ToDictionaryOfEnumeration(newDownloads, downloads - {downloadURL});
      downloads := ToDictionary(newDownloads, AsPair);
    }

    /**
     * `startDownload`: make a task for the URL, start it, and register an
     * active record with no progress and no resume data. A record already
     * held for the URL is replaced, and its task is not cancelled.
     */
    method StartDownload(downloadURL: Url, destinationFilePath: Url)
      requires Valid()
      modifies this, engine
      ensures Valid()
      ensures engine.tasks == old(engine.tasks) + [FromURL(downloadURL)]
      ensures downloads == old(downloads)[downloadURL :=
                Download(downloadURL, destinationFilePath, true, 0, 0, Some(|old(engine.tasks)|), None)]
      ensures engine.resumed == old(engine.resumed) + [|old(engine.tasks)|]
      ensures engine.cancelled == old(engine.cancelled) && engine.pauseRequested == old(engine.pauseRequested)
      ensures pendingPauses == old(pendingPauses)
    {
      var downloadTask := engine.DownloadTaskWithURL(downloadURL);
      var download := Download(downloadURL, destinationFilePath, true, 0, 0, Some(downloadTask), None);
      engine.Resume(downloadTask);
      RegisterActiveDownload(download);
    }

    /**
     * `pauseDownload`: for a tracked record that is downloading, ask the
     * engine to cancel its task producing resume data, and capture the
     * record as it is now for the completion handler. The registry itself
     * does not change until that handler runs.
     */
    method PauseDownload(downloadURL: Url)
      requires Valid()
      modifies this, engine
      ensures Valid()
      ensures downloads == old(downloads)
      ensures engine.tasks == old(engine.tasks) && engine.resumed == old(engine.resumed)
      ensures engine.cancelled == old(engine.cancelled)
      ensures downloadURL in old(downloads) && old(downloads)[downloadURL].isDownloading ==>
                && pendingPauses == old(pendingPauses) + [old(downloads)[downloadURL]]
                && engine.pauseRequested == old(engine.pauseRequested) + [old(downloads)[downloadURL].downloadTask.value]
      ensures !(downloadURL in old(downloads) && old(downloads)[downloadURL].isDownloading) ==>
                pendingPauses == old(pendingPauses) && engine.pauseRequested == old(engine.pauseRequested)
    {
      var found := GetDownload(downloadURL);
      if found.Some? && found.value.isDownloading {
        var download := found.value;
        if download.downloadTask.Some? {
          engine.CancelByProducingResumeData(download.downloadTask.value);
          pendingPauses := pendingPauses + [download];
        }
      }
    }

    /**
     * The completion handler of the `i`-th outstanding pause request, called
     * with the resume data the engine produced (possibly none): it registers
     * the pause state of the record captured when the pause was requested,
     * whatever happened to the entry since.
     */
    method OnPauseData(i: nat, data: Option<ResumeData>)
      requires Valid() && i < |pendingPauses|
      modifies this
      ensures Valid()
      ensures pendingPauses == old(pendingPauses[..i] + pendingPauses[i + 1..])
      ensures downloads == old(downloads)[old(pendingPauses[i]).downloadURL := WithPauseState(old(pendingPauses[i]), data)]
    {
      var download := pendingPauses[i];
      pendingPauses := pendingPauses[..i] + pendingPauses[i + 1..];
      RegisterActiveDownload(WithPauseState(download, data));
    }

    /**
     * `resumeDownload`: for a tracked record, make a new task, from its
     * resume data if it has some and from its URL otherwise, and register
     * the record as downloading on that task. This call does not start the
     * task it creates: `resume()` goes to the record's previous task.
     */
    method ResumeDownload(downloadURL: Url)
      requires Valid()
      modifies this, engine
      ensures Valid()
      ensures pendingPauses == old(pendingPauses)
      ensures engine.cancelled == old(engine.cancelled) && engine.pauseRequested == old(engine.pauseRequested)
      ensures downloadURL !in old(downloads) ==>
                downloads == old(downloads) && engine.tasks == old(engine.tasks) && engine.resumed == old(engine.resumed)
      ensures downloadURL in old(downloads) ==>
                var download := old(downloads)[downloadURL];
                && engine.tasks == old(engine.tasks) + [
                     if download.resumeData.Some? then FromResumeData(download.resumeData.value)
                     else FromURL(download.downloadURL)]
                && downloads == old(downloads)[downloadURL := WithResumeState(download, |old(engine.tasks)|)]
                && engine.resumed == old(engine.resumed) +
                     (if download.downloadTask.Some? then [download.downloadTask.value] else [])
                && |old(engine.tasks)| !in engine.resumed
    {
      var found := GetDownload(downloadURL);
      if found.Some? {
        var download := found.value;
        var downloadTask: Handle;
        if download.resumeData.Some? {
          downloadTask := engine.DownloadTaskWithResumeData(download.resumeData.value);
        } else {
          downloadTask := engine.DownloadTaskWithURL(download.downloadURL);
        }
        if download.downloadTask.Some? {
          engine.Resume(download.downloadTask.value);
        }
        RegisterActiveDownload(WithResumeState(download, downloadTask));
      }
    }

    /**
     * `cancelDownload`: for a tracked record, cancel its task and drop its
     * entry at once; other entries are untouched.
     */
    method CancelDownload(downloadURL: Url)
      requires Valid()
      modifies this, engine
      ensures Valid()
      ensures downloads == old(downloads) - {downloadURL}
      ensures pendingPauses == old(pendingPauses)
      ensures engine.tasks == old(engine.tasks) && engine.resumed == old(engine.resumed)
      ensures engine.pauseRequested == old(engine.pauseRequested)
      ensures engine.cancelled == old(engine.cancelled) +
                (if downloadURL in old(downloads) && old(downloads)[downloadURL].downloadTask.Some?
                 then [old(downloads)[downloadURL].downloadTask.value] else [])
    {
      var found := GetDownload(downloadURL);
      if found.Some? {
        var download := found.value;
        if download.downloadTask.Some? {
          engine.Cancel(download.downloadTask.value);
        }
        downloads := downloads - {downloadURL};
      }
    }

    /**
     * The progress callback, for a task whose original request had URL
     * `requestURL` (nil when it had none): a tracked record takes the new
     * totals; anything else is ignored.
     */
    method OnWriteData(requestURL: Option<Url>, bytesWritten: Int64,
                       totalBytesWritten: Int64, totalBytesExpectedToWrite: Int64)
      requires Valid()
      modifies this
      ensures Valid()
      ensures pendingPauses == old(pendingPauses)
      ensures requestURL.Some? && requestURL.value in old(downloads) ==>
                downloads == old(downloads)[requestURL.value :=
                  WithProgress(old(downloads)[requestURL.value], totalBytesWritten, totalBytesExpectedToWrite)]
      ensures !(requestURL.Some? && requestURL.value in old(downloads)) ==> downloads == old(downloads)
    {
      if requestURL.Some? {
        var found := GetDownload(requestURL.value);
        if found.Some? {
          RegisterActiveDownload(WithProgress(found.value, totalBytesWritten, totalBytesExpectedToWrite));
        }
      }
    }

    /**
     * The completion callback for a task whose original request had URL
     * `requestURL`, the engine having saved the file at `location`. For a
     * tracked record it deletes the destination file and, only if that
     * succeeded, copies from the download URL (not from `location`) to the
     * destination; `deleteSucceeds` is the file system's answer to the
     * delete, and the copy's answer changes nothing. Either way the entry is
     * removed. `ops` lists the file operations attempted.
     */
    method OnFinishDownloading(requestURL: Option<Url>, location: Url, deleteSucceeds: bool)
      returns (ops: seq<FileOp>)
      requires Valid()
      modifies this
      ensures Valid()
      ensures pendingPauses == old(pendingPauses)
      ensures requestURL.Some? && requestURL.value in old(downloads) ==>
                var destination := old(downloads)[requestURL.value].destinationURL;
                && downloads == old(downloads) - {requestURL.value}
                && ops == [Delete(destination)] + (if deleteSucceeds then [Copy(requestURL.value, destination)] else [])
      ensures !(requestURL.Some? && requestURL.value in old(downloads)) ==>
                downloads == old(downloads) && ops == []
    {
      ops := [];
      if requestURL.Some? {
        var downloadURL := requestURL.value;
        var found := GetDownload(downloadURL);
        if found.Some? {
          var destinationURL := found.value.destinationURL;
          ops := ops + [Delete(destinationURL)];
          if deleteSucceeds {
            ops := ops + [Copy(downloadURL, destinationURL)];
          }
          RemoveActiveDownload(downloadURL);
        }
      }
    }
  }

}
