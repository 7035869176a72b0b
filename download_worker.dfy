/**
 * The download task (`DownloadWorker`): the selected songs are fetched one after the other, each
 * through a search query handed to the media tool; `stop()` clears a flag that the loop checks
 * before starting each song.
 */
module Downloading {
  import opened Text

  /** The search query and options `run` hands to the media tool for one song. */
  datatype DownloadRequest = DownloadRequest(
    query: string,
    format: string,          // 'bestaudio/best'
    outputTemplate: string,  // '<folder>/%(title)s.%(ext)s'
    codec: string,           // the FFmpegExtractAudio post-processor's preferred codec
    quality: string,         // and preferred quality
    quiet: bool)

  /** What `run` signals when it starts a song (`song_progress(song, percent)`) and the request it hands to the media tool. */
  datatype SongStarted = SongStarted(song: string, percent: nat, request: DownloadRequest)

  /** `download_complete` or `error`. */
  datatype Outcome = Completed | Failed

  /** The progress shown when song `i` of `n` starts: the share of songs already started, in percent, rounded down. */
  function Percent(i: nat, n: nat): (r: nat)
    requires i < n
    ensures r < 100
  {
    var r := (100 * i) / n;
    assert r * n <= 100 * i < 100 * n;
    MulCancel(r, 100, n);
    r
  }

  /** Progress starts at 0 and stays below 100. */
  lemma PercentBounds(i: nat, n: nat)
    requires i < n
    ensures Percent(0, n) == 0
    ensures Percent(i, n) < 100
  {
    assert 100 * i < 100 * n;
  }

  /** Progress never goes down from one song to a later one. */
  lemma PercentMonotone(i: nat, j: nat, n: nat)
    requires i <= j < n
    ensures Percent(i, n) <= Percent(j, n)
  {
    DivMonotone(100 * i, 100 * j, n);
  }

  lemma DivMonotone(a: nat, b: nat, n: nat)
    requires a <= b && n > 0
    ensures a / n <= b / n
  {
    var qa, qb := a / n, b / n;
    assert qa * n <= a;
    assert b < (qb + 1) * n;
    MulCancel(qa, qb + 1, n);
  }

  lemma MulCancel(x: nat, y: nat, n: nat)
    requires n > 0 && x * n < y * n
    ensures x < y
  {
    if x >= y {
      MulLe(y, x, n);
    }
  }

  lemma {:induction false} MulLe(y: nat, x: nat, n: nat)
    requires y <= x
    ensures y * n <= x * n
    decreases x - y
  {
    if y < x {
      MulLe(y + 1, x, n);
      assert (y + 1) * n == y * n + n;
    }
  }

  /** `f"ytsearch:{song.strip()} audio"`. */
  function SearchQuery(song: string): (r: string)
    ensures |r| == |Strip(song)| + 15
    ensures r[..9] == "ytsearch:" && r[9..|r| - 6] == Strip(song) && r[|r| - 6..] == " audio"
  {
    "ytsearch:" + Strip(song) + " audio"
  }

  /** Whitespace around a song entry does not change its query, and distinct stripped entries give distinct queries. */
  lemma SearchQueryStrips(song: string, other: string)
    ensures SearchQuery(Strip(song)) == SearchQuery(song)
    ensures SearchQuery(song) == SearchQuery(other) <==> Strip(song) == Strip(other)
  {
    StripIdempotent(song);
    if SearchQuery(song) == SearchQuery(other) {
      var q, q' := SearchQuery(song), SearchQuery(other);
      assert |Strip(song)| == |Strip(other)|;
      assert Strip(song) == q[9..|q| - 6];
      assert Strip(other) == q'[9..|q'| - 6];
    }
  }

  /** No stop request came in before any of the first `n` checks. */
  predicate NoStopBefore(stopRequested: seq<bool>, n: nat)
    requires n <= |stopRequested|
  {
    true !in stopRequested[..n]
  }

  class DownloadWorker {
    const songs: seq<string>
    const outputFolder: string
    const formatChoice: string
    const quality: string
    var isRunning: bool

    constructor (songs: seq<string>, outputFolder: string, formatChoice: string, quality: string)
      ensures this.songs == songs && this.outputFolder == outputFolder
      ensures this.formatChoice == formatChoice && this.quality == quality
      ensures isRunning
    {
      this.songs, this.outputFolder := songs, outputFolder;
      this.formatChoice, this.quality := formatChoice, quality;
      isRunning := true;
    }

    /** The `ydl_opts` and query used for `song`. */
    function RequestFor(song: string): DownloadRequest
    {
      DownloadRequest(SearchQuery(song), "bestaudio/best", outputFolder + "/%(title)s.%(ext)s",
        formatChoice, quality, true)
    }

    /** The signal and request of starting song `i`. */
    function StartOf(i: nat): SongStarted
      requires i < |songs|
    {
      SongStarted(songs[i], Percent(i, |songs|), RequestFor(songs[i]))
    }

    /** What starting the first `n` songs signals and requests, in list order. */
    function Schedule(n: nat): (r: seq<SongStarted>)
      requires n <= |songs|
      ensures |r| == n
    {
      seq(n, k requires 0 <= k < n => StartOf(k))
    }

    /** `stop`: clears the running flag. */
    method Stop()
      modifies this`isRunning
      ensures !isRunning
    {
      isRunning := false;
    }

    /**
     * `run`. The interleaving with the interface thread is given as `stopRequested[i]`: `stop()`
     * was called before the check for song `i`; `downloadSucceeds[i]` is whether the media tool
     * returns normally for song `i` (otherwise it raises and the whole batch ends in `error`).
     * Songs start in list order, each with its progress and query; none starts once the flag is
     * cleared; a failure ends the batch; a stopped batch still reports completion.
     */
    method Run(stopRequested: seq<bool>, downloadSucceeds: seq<bool>) returns (started: seq<SongStarted>, outcome: Outcome)
      requires |stopRequested| == |songs| && |downloadSucceeds| == |songs|
      modifies this`isRunning
      ensures |started| <= |songs|
      ensures started == Schedule(|started|)
      ensures |started| > 0 ==> old(isRunning) && NoStopBefore(stopRequested, |started|)
      ensures forall i :: 0 <= i < |started| - 1 ==> downloadSucceeds[i]
      ensures outcome == Failed <==> |started| > 0 && !downloadSucceeds[|started| - 1]
      ensures outcome == Completed && |started| < |songs| ==> !isRunning && (!old(isRunning) || stopRequested[|started|])
      ensures isRunning == (old(isRunning) && (outcome == Failed || |started| == |songs|))
    {
      started := [];
      outcome := Completed;
      var i := 0;
      while i < |songs|
        invariant 0 <= i <= |songs| && |started| == i
        invariant started == Schedule(i)
        invariant forall k :: 0 <= k < i ==> downloadSucceeds[k]
        invariant isRunning == old(isRunning)
        invariant i > 0 ==> isRunning && NoStopBefore(stopRequested, i)
      {
        if stopRequested[i] {
          Stop();
        }
        if !isRunning {
          break;
        }
        assert stopRequested[..i + 1] == stopRequested[..i] + [stopRequested[i]];
        started := started + [StartOf(i)];
        assert started == Schedule(i + 1);
        if !downloadSucceeds[i] {
          outcome := Failed;
          break;
        }
        i := i + 1;
      }
    }
  }

  /** A run that nobody stops and where every download succeeds starts every song and completes. */
  method DownloadAll(songs: seq<string>, outputFolder: string, formatChoice: string, quality: string, downloadSucceeds: seq<bool>)
    returns (started: seq<SongStarted>, outcome: Outcome)
    requires |downloadSucceeds| == |songs| && forall i :: 0 <= i < |songs| ==> downloadSucceeds[i]
    ensures outcome == Completed
    ensures |started| == |songs|
    ensures forall i :: 0 <= i < |songs| ==> started[i].song == songs[i] && started[i].percent == Percent(i, |songs|)
  {
    var worker := new DownloadWorker(songs, outputFolder, formatChoice, quality);
    var noStops := seq(|songs|, _ => false);
    assert forall n :: 0 <= n <= |songs| ==> true !in noStops[..n];
    started, outcome := worker.Run(noStops, downloadSucceeds);
  }

  /** A worker stopped before it runs starts no song, and still reports completion. */
  method StopThenRun(songs: seq<string>, outputFolder: string, formatChoice: string, quality: string, stopRequested: seq<bool>, downloadSucceeds: seq<bool>)
    returns (started: seq<SongStarted>, outcome: Outcome)
    requires |stopRequested| == |songs| && |downloadSucceeds| == |songs|
    ensures started == [] && outcome == Completed
  {
    var worker := new DownloadWorker(songs, outputFolder, formatChoice, quality);
    worker.Stop();
    started, outcome := worker.Run(stopRequested, downloadSucceeds);
  }
}
