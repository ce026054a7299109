/**
 * The server's file-system state and the retention map `downloadedZips`. The
 * file system is a set of names per directory; an unlink is a call that may fail,
 * given as the oracle `unlinkOk`. Times are milliseconds, as `Date.now()` gives them.
 */
module Artifacts {

  /** Five minutes: how long a downloaded archive is kept. */
  const RetentionMs: int := 300000

  /** The archives one sweep deletes: marked, older than the window, still on disk, and unlinked without error. */
  function Swept(downloaded: map<string, int>, outputs: set<string>, now: int, unlinkOk: string -> bool): (gone: set<string>)
    ensures gone <= downloaded.Keys && gone <= outputs
    ensures forall name :: name in gone ==> now - downloaded[name] > RetentionMs && unlinkOk(name)
  {
    set name | name in downloaded && now - downloaded[name] > RetentionMs && name in outputs && unlinkOk(name)
  }

  /**
   * The state of the sweep once every name outside `pending` has been visited:
   * exactly the swept names already visited are gone from the map and from disk.
   */
  ghost predicate SweptUpTo(d0: map<string, int>, o0: set<string>, now: int, unlinkOk: string -> bool,
                            pending: set<string>, d: map<string, int>, o: set<string>)
  {
    && d.Keys == d0.Keys - (Swept(d0, o0, now, unlinkOk) - pending)
    && (forall name :: name in d ==> d[name] == d0[name])
    && o == o0 - (Swept(d0, o0, now, unlinkOk) - pending)
  }

  /** One turn of the sweep: visiting `name` deletes it exactly when it is swept. */
  lemma SweepTurn(d0: map<string, int>, o0: set<string>, now: int, unlinkOk: string -> bool,
                  pending: set<string>, name: string, d: map<string, int>, o: set<string>)
    requires name in pending && pending <= d0.Keys
    requires SweptUpTo(d0, o0, now, unlinkOk, pending, d, o)
    ensures name in d
    ensures var gone := now - d[name] > RetentionMs && name in o && unlinkOk(name);
      SweptUpTo(d0, o0, now, unlinkOk, pending - {name},
                if gone then d - {name} else d, if gone then o - {name} else o)
  {
  }

  class Storage {
    /** Archives in `./downloaded_images`. */
    var outputs: set<string>
    /** Per-URL scratch directories under `./temp_downloads`. */
    var scratch: set<string>
    /** Files the upload middleware stored under `uploads/`. */
    var uploads: set<string>
    /** `downloadedZips`: archive name to the time of its latest download. */
    var downloaded: map<string, int>

    /**
     * The state at server start: each directory is created only when missing, so
     * files left by an earlier run are still there; the retention map starts empty.
     */
    constructor (outputs0: set<string>, scratch0: set<string>, uploads0: set<string>)
      ensures outputs == outputs0 && scratch == scratch0 && uploads == uploads0 && downloaded == map[]
    {
      outputs := outputs0;
      scratch := scratch0;
      uploads := uploads0;
      downloaded := map[];
    }

    /**
     * The marking part of `GET /download/:filename`: when the archive exists its
     * download time is set to `now`, replacing any earlier mark; otherwise nothing changes.
     */
    method MarkDownloaded(name: string, now: int) returns (found: bool)
      modifies this
      ensures found <==> name in outputs
      ensures downloaded == if found then old(downloaded)[name := now] else old(downloaded)
      ensures outputs == old(outputs) && scratch == old(scratch) && uploads == old(uploads)
    {
      found := name in outputs;
      if found {
        downloaded := downloaded[name := now];
      }
    }

    /** The upload middleware stores a file under `uploads/`. */
    method StoreUpload(path: string)
      modifies this
      ensures uploads == old(uploads) + {path}
      ensures outputs == old(outputs) && scratch == old(scratch) && downloaded == old(downloaded)
    {
      uploads := uploads + {path};
    }

    /** `fs.unlinkSync` of an upload: the file leaves `uploads/`. */
    method UnlinkUpload(path: string)
      modifies this
      ensures uploads == old(uploads) - {path}
      ensures outputs == old(outputs) && scratch == old(scratch) && downloaded == old(downloaded)
    {
      uploads := uploads - {path};
    }

    /**
     * `cleanupOldZips`: every marked archive older than five minutes whose file
     * still exists is unlinked and unmarked; an entry whose file is gone, or whose
     * unlink fails, stays marked.
     */
    method CleanupOldZips(now: int, unlinkOk: string -> bool)
      modifies this
      ensures downloaded.Keys == old(downloaded).Keys - Swept(old(downloaded), old(outputs), now, unlinkOk)
      ensures forall name :: name in downloaded ==> downloaded[name] == old(downloaded)[name]
      ensures outputs == old(outputs) - Swept(old(downloaded), old(outputs), now, unlinkOk)
      ensures scratch == old(scratch) && uploads == old(uploads)
    {
      ghost var gone := Swept(downloaded, outputs, now, unlinkOk);
      ghost var d0, o0 := downloaded, outputs;
      var marks, files := downloaded, outputs;
      var pending := marks.Keys;
      while pending != {}
        invariant pending <= d0.Keys
        invariant SweptUpTo(d0, o0, now, unlinkOk, pending, marks, files)
        modifies {}
        decreases |pending|
      {
        var name :| name in pending;
        SweepTurn(d0, o0, now, unlinkOk, pending, name, marks, files);
        if now - marks[name] > RetentionMs {
          if name in files {
            if unlinkOk(name) {
              files := files - {name};
              marks := marks - {name};
            }
          }
        }
        pending := pending - {name};
      }
      assert gone - pending == gone;
      downloaded, outputs := marks, files;
    }
  }

  /** A download marked at `t` is not swept by any sweep within five minutes of `t`: a re-download restarts the window. */
  lemma MarkRestartsWindow(downloaded: map<string, int>, outputs: set<string>, name: string, t: int, now: int, unlinkOk: string -> bool)
    requires now - t <= RetentionMs
    ensures name !in Swept(downloaded[name := t], outputs, now, unlinkOk)
  {
  }

  /** A sweep deletes nothing that was never marked, and only what it unmarks. */
  lemma SweepTouchesOnlyMarked(downloaded: map<string, int>, outputs: set<string>, now: int, unlinkOk: string -> bool, name: string)
    requires name in outputs && name !in downloaded
    ensures name in outputs - Swept(downloaded, outputs, now, unlinkOk)
  {
  }

  /** An entry whose archive is already gone is never removed from the map. */
  lemma MissingFileStaysMarked(downloaded: map<string, int>, outputs: set<string>, now: int, unlinkOk: string -> bool, name: string)
    requires name in downloaded && name !in outputs
    ensures name in downloaded - Swept(downloaded, outputs, now, unlinkOk)
  {
  }

  /** A stale, present, unlinkable archive is always deleted. */
  lemma StaleArchiveSwept(downloaded: map<string, int>, outputs: set<string>, now: int, unlinkOk: string -> bool, name: string)
    requires name in downloaded && now - downloaded[name] > RetentionMs && name in outputs && unlinkOk(name)
    ensures name in Swept(downloaded, outputs, now, unlinkOk)
  {
  }

  /**
   * A second sweep at the same time, with unlinks that may now succeed or fail
   * differently, deletes exactly the archives whose unlink failed in the first
   * sweep and succeeds in the second; nothing the first sweep kept for another
   * reason is touched.
   */
  lemma SweepRetriesFailures(downloaded: map<string, int>, outputs: set<string>, now: int,
                             unlinkOk: string -> bool, unlinkOk2: string -> bool, left: map<string, int>)
    requires left.Keys == downloaded.Keys - Swept(downloaded, outputs, now, unlinkOk)
    requires forall name :: name in left ==> left[name] == downloaded[name]
    ensures forall name :: name in Swept(left, outputs - Swept(downloaded, outputs, now, unlinkOk), now, unlinkOk2) <==>
      name in downloaded && now - downloaded[name] > RetentionMs && name in outputs && !unlinkOk(name) && unlinkOk2(name)
  {
    var gone := Swept(downloaded, outputs, now, unlinkOk);
    var again := Swept(left, outputs - gone, now, unlinkOk2);
    forall name
      ensures name in again <==>
        name in downloaded && now - downloaded[name] > RetentionMs && name in outputs && !unlinkOk(name) && unlinkOk2(name)
    {
      if name in downloaded && now - downloaded[name] > RetentionMs && name in outputs && !unlinkOk(name) {
        assert name !in gone;
      }
    }
  }

  /** Sweeping again at the same time, with every unlink behaving as before, deletes nothing more. */
  lemma SweepIdempotent(downloaded: map<string, int>, outputs: set<string>, now: int, unlinkOk: string -> bool,
                        left: map<string, int>)
    requires left.Keys == downloaded.Keys - Swept(downloaded, outputs, now, unlinkOk)
    requires forall name :: name in left ==> left[name] == downloaded[name]
    ensures Swept(left, outputs - Swept(downloaded, outputs, now, unlinkOk), now, unlinkOk) == {}
  {
    SweepRetriesFailures(downloaded, outputs, now, unlinkOk, unlinkOk, left);
  }
}
