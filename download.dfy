/**
 * The immutable `Download` record: one download's identity and state at a
 * point in time. Every state change builds a new record through the
 * designated initializer; nothing is ever updated in place.
 */
module Downloads {

  import opened Wrappers

  /** A URL, identified by its `absoluteString`. */
  type Url = string

  /** A transfer-engine task handle; opaque, compared only for identity. */
  type Handle = nat

  /** Resume data produced by the engine when a task is cancelled for a pause; opaque. */
  type ResumeData = seq<bv8>

  /** Swift's `Int64`, the type of both byte counts. */
  newtype Int64 = x: int | -0x8000_0000_0000_0000 <= x < 0x8000_0000_0000_0000

  /**
   * The designated initializer takes every field, in the order of the
   * constructor below: URLs, `isDownloading`, the two sizes, task, resume data.
   */
  datatype Download = Download(
    downloadURL: Url,
    destinationURL: Url,
    isDownloading: bool,
    progressSize: Int64,
    downloadSize: Int64,
    downloadTask: Option<Handle>,
    resumeData: Option<ResumeData>)

  /** Both records describe the same transfer: same source and same destination. */
  predicate SameTarget(d: Download, e: Download)
  {
    d.downloadURL == e.downloadURL && d.destinationURL == e.destinationURL
  }

  /**
   * The fraction transferred; a `downloadSize` of 0 means "size unknown"
   * and yields 0. Division is exact here (the source divides `Float`s).
   */
  function Progress(d: Download): (r: real)
    ensures d.downloadSize == 0 ==> r == 0.0
    ensures d.downloadSize != 0 ==> r * (d.downloadSize as real) == d.progressSize as real
  {
    if d.downloadSize == 0 then 0.0
    else d.progressSize as real / d.downloadSize as real
  }

  /** Progress is a fraction between 0 and 1 while no more than the expected size has arrived. */
  lemma ProgressIsFraction(d: Download)
    requires 0 <= d.progressSize <= d.downloadSize
    ensures 0.0 <= Progress(d) <= 1.0
  {
    if d.downloadSize != 0 {
      QuotientIsFraction(d.progressSize as real, d.downloadSize as real);
    }
  }

  /**
   * The bound on a quotient, kept apart from `ProgressIsFraction` so that
   * the solver meets the nonlinear fact in a small context of its own.
   */
  lemma QuotientIsFraction(p: real, s: real)
    requires 0.0 <= p <= s && s > 0.0
    ensures 0.0 <= p / s <= 1.0
  {
  }

  /** The convenience initializer: an idle record with nothing transferred. */
  function NewDownload(downloadURL: Url, destinationURL: Url): (r: Download)
    ensures r.downloadURL == downloadURL && r.destinationURL == destinationURL
    ensures !r.isDownloading && r.downloadTask == None && r.resumeData == None
    ensures r.progressSize == 0 && r.downloadSize == 0 && Progress(r) == 0.0
  {
    Download(downloadURL, destinationURL, false, 0, 0, None, None)
  }

  /** `downloadWithProgress`: new byte counts, accepted as given; all else kept. */
  function WithProgress(d: Download, newProgressSize: Int64, newDownloadSize: Int64): (r: Download)
    ensures SameTarget(d, r)
    ensures r.isDownloading == d.isDownloading
    ensures r.downloadTask == d.downloadTask && r.resumeData == d.resumeData
    ensures r.progressSize == newProgressSize && r.downloadSize == newDownloadSize
    ensures newDownloadSize != 0 ==> Progress(r) == newProgressSize as real / newDownloadSize as real
  {
    Download(d.downloadURL, d.destinationURL, d.isDownloading, newProgressSize, newDownloadSize,
             d.downloadTask, d.resumeData)
  }

  /**
   * `downloadWithPauseState`: no longer downloading, the given resume data
   * (absent by default) replaces the old; the now-cancelled task handle is kept.
   */
  function WithPauseState(d: Download, newResumeData: Option<ResumeData> := None): (r: Download)
    ensures SameTarget(d, r)
    ensures !r.isDownloading && r.resumeData == newResumeData
    ensures r.downloadTask == d.downloadTask
    ensures r.progressSize == d.progressSize && r.downloadSize == d.downloadSize
  {
    Download(d.downloadURL, d.destinationURL, false, d.progressSize, d.downloadSize,
             d.downloadTask, newResumeData)
  }

  /**
   * `downloadWithResumeState`: downloading again on a new task; the old
   * resume data is kept, not cleared.
   */
  function WithResumeState(d: Download, newDownloadTask: Handle): (r: Download)
    ensures SameTarget(d, r)
    ensures r.isDownloading && r.downloadTask == Some(newDownloadTask)
    ensures r.resumeData == d.resumeData
    ensures r.progressSize == d.progressSize && r.downloadSize == d.downloadSize
  {
    Download(d.downloadURL, d.destinationURL, true, d.progressSize, d.downloadSize,
             Some(newDownloadTask), d.resumeData)
  }

  /** A later progress report wholly replaces an earlier one. */
  lemma ProgressLastWins(d: Download, p1: Int64, s1: Int64, p2: Int64, s2: Int64)
    ensures WithProgress(WithProgress(d, p1, s1), p2, s2) == WithProgress(d, p2, s2)
  {
  }

  /**
   * Pausing a record with delivered data and then resuming it on a new
   * task gives the record back downloading, on the new task and with that
   * data; URLs and sizes are those it had before the pause.
   */
  lemma PauseThenResume(d: Download, data: Option<ResumeData>, h: Handle)
    ensures WithResumeState(WithPauseState(d, data), h)
            == Download(d.downloadURL, d.destinationURL, true, d.progressSize, d.downloadSize, Some(h), data)
  {
  }

  /**
   * A pause state built from a record captured before some progress was
   * applied carries the captured sizes, not the later ones.
   */
  lemma PauseOfCapturedRecordDropsProgress(d: Download, p: Int64, s: Int64, data: Option<ResumeData>)
    ensures WithPauseState(d, data) == WithPauseState(WithProgress(d, p, s), data)
            <==> (p == d.progressSize && s == d.downloadSize)
  {
    if WithPauseState(d, data) == WithPauseState(WithProgress(d, p, s), data) {
      assert WithPauseState(WithProgress(d, p, s), data).progressSize == p;
    }
  }

}
