/**
 * A caller's view: what the manager's contracts let a caller conclude
 * about a whole session, without looking inside the manager.
 */
module Scenario {

  import opened Wrappers
  import opened Downloads
  import opened Manager

  /**
   * Start, progress to half, pause, receive resume data, resume, finish:
   * the pause state comes from the record captured at the pause, resuming
   * makes a task from that resume data, and the completion drops the entry.
   */
  method StartPauseResumeFinish()
  {
    var manager := new DownloadManager();
    var url, destination := "https://example.com/a.bin", "/docs/a.bin";
    manager.StartDownload(url, destination);
    assert manager.GetDownload(url) == Some(Download(url, destination, true, 0, 0, Some(0), None));

    manager.OnWriteData(Some(url), 500, 500, 1000);
    assert Progress(manager.downloads[url]) == 0.5;

    manager.PauseDownload(url);
    assert manager.downloads[url].isDownloading;
    assert manager.engine.pauseRequested == [0];

    // Progress that arrives between the pause request and its completion
    // handler is lost: the handler stores the record captured at the pause.
    manager.OnWriteData(Some(url), 100, 600, 1000);
    var token: ResumeData := [0x61, 0x62, 0x63];
    manager.OnPauseData(0, Some(token));
    assert manager.downloads[url] == Download(url, destination, false, 500, 1000, Some(0), Some(token));

    manager.ResumeDownload(url);
    assert manager.engine.tasks == [FromURL(url), FromResumeData(token)];
    assert manager.downloads[url].downloadTask == Some(1) && manager.downloads[url].isDownloading;
    assert manager.engine.resumed == [0, 0];

    var ops := manager.OnFinishDownloading(Some(url), "/tmp/x", true);
    assert ops == [Delete(destination), Copy(url, destination)];
    assert manager.GetDownload(url) == None;
  }

  /**
   * Cancelling drops the entry at once and later callbacks for it are
   * ignored, but a pause requested before the cancel still registers its
   * captured record when its handler runs.
   */
  method CancelThenLateCallbacks()
  {
    var manager := new DownloadManager();
    var url := "https://example.com/b.bin";
    manager.StartDownload(url, "/docs/b.bin");
    manager.PauseDownload(url);
    manager.CancelDownload(url);
    assert manager.GetDownload(url) == None;
    assert manager.engine.cancelled == [0];

    manager.OnWriteData(Some(url), 10, 10, 100);
    var ops := manager.OnFinishDownloading(Some(url), "/tmp/y", true);
    assert manager.downloads == map[] && ops == [];

    manager.OnPauseData(0, None);
    assert manager.GetDownload(url).Some? && !manager.downloads[url].isDownloading;
  }

}
