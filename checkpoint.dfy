/**
 * `CheckpointManager` (spider/core/checkpoint.py): when to save, how a save
 * stamps the crawler's data, and which loaded files are accepted. The file is
 * an abstract store; the JSON codec is not part of this model.
 */
module Checkpoint {
  import opened Wrappers
  import opened Frontier
  import RateController

  /**
   * The checkpoint dictionary with the keys the crawler writes and reads; a
   * missing key is `None`.
   */
  datatype CheckpointData = CheckpointData(
    visited: Option<seq<string>>,
    toVisit: Option<seq<Entry>>,
    pendingUrls: Option<seq<Entry>>,
    pagesVisited: Option<int>,
    retryCounts: Option<map<string, nat>>,
    rateController: Option<RateController.RateCheckpoint>,
    checkpointTime: Option<real>,
    checkpointVersion: Option<string>)

  /** What is on disk: no file, a file that does not decode, or decoded data. */
  datatype StoredFile = Absent | Undecodable | Written(data: CheckpointData)

  /** How a save attempt ends: the atomic replace, the direct-write fallback, or neither. */
  datatype WriteOutcome = AtomicWrite | DirectWrite | WriteFailed

  const CheckpointVersion: string := "1.0"

  /** The two stamps `save_checkpoint` adds to the data before writing it. */
  function Stamped(d: CheckpointData, now: real): (r: CheckpointData)
    ensures r.checkpointTime == Some(now) && r.checkpointVersion == Some(CheckpointVersion)
    ensures r.(checkpointTime := d.checkpointTime, checkpointVersion := d.checkpointVersion) == d
  {
    d.(checkpointTime := Some(now), checkpointVersion := Some(CheckpointVersion))
  }

  /** The keys `load_checkpoint` insists on. */
  predicate HasRequiredKeys(d: CheckpointData) {
    d.checkpointTime.Some? && d.visited.Some? && d.toVisit.Some? && d.pagesVisited.Some?
  }

  /** The validation of `load_checkpoint`. */
  function Validate(f: StoredFile): (r: Option<CheckpointData>)
    ensures r.Some? <==> f.Written? && HasRequiredKeys(f.data)
    ensures r.Some? ==> r.value == f.data
  {
    match f
    case Absent => None
    case Undecodable => None
    case Written(d) =>
      if d.checkpointTime.None? then None
      else if d.visited.None? || d.toVisit.None? || d.pagesVisited.None? then None
      else Some(d)
  }

  /** Saved data that carries the three crawl keys loads back whole, with its stamps. */
  lemma SaveLoadRoundTrip(d: CheckpointData, now: real)
    requires d.visited.Some? && d.toVisit.Some? && d.pagesVisited.Some?
    ensures Validate(Written(Stamped(d, now))) == Some(Stamped(d, now))
  {
  }

  /** A file without a timestamp is refused whatever else it holds. */
  lemma UnstampedIsRefused(d: CheckpointData)
    requires d.checkpointTime.None?
    ensures Validate(Written(d)) == None
  {
  }

  /** The progress threshold: five percent of a page count, but at least ten pages. */
  function PagesThreshold(pages: int): (t: real)
    ensures t >= 10.0 && t >= pages as real * 0.05
    ensures t == 10.0 || t == pages as real * 0.05
  {
    if pages as real * 0.05 > 10.0 then pages as real * 0.05 else 10.0
  }

  class CheckpointManager {
    const autoSaveInterval: real
    var lastSaveTime: real
    var lastSavePages: int
    var file: StoredFile

    /** A manager over a store that may already hold a file from an earlier run. */
    constructor (autoSaveInterval: real, file: StoredFile)
      ensures this.autoSaveInterval == autoSaveInterval && this.file == file
      ensures lastSaveTime == 0.0 && lastSavePages == 0
    {
      this.autoSaveInterval := autoSaveInterval;
      lastSaveTime := 0.0;
      lastSavePages := 0;
      this.file := file;
    }

    /** `should_save_checkpoint`: the interval has passed, or enough pages since the last save. */
    predicate ShouldSaveCheckpoint(pages: int, now: real): (r: bool)
      reads this
      ensures r <==> || now - lastSaveTime >= autoSaveInterval
                     || ((pages - lastSavePages) as real >= 10.0
                         && (pages - lastSavePages) as real >= lastSavePages as real * 0.05)
    {
      now - lastSaveTime >= autoSaveInterval || (pages - lastSavePages) as real >= PagesThreshold(lastSavePages)
    }

    /**
     * The gate of `save_checkpoint` that refuses an unforced save: inside the
     * interval and fewer new pages than the threshold of the current count.
     */
    predicate SaveRefused(force: bool, pages: int, now: real): (r: bool)
      reads this
      ensures force ==> !r
      ensures r <==> && !force && now - lastSaveTime < autoSaveInterval
                     && ((pages - lastSavePages) as real < 10.0 || (pages - lastSavePages) as real < pages as real * 0.05)
    {
      !force && now - lastSaveTime < autoSaveInterval && (pages - lastSavePages) as real < PagesThreshold(pages)
    }

    /** `load_checkpoint`. */
    function LoadCheckpoint(): (r: Option<CheckpointData>)
      reads this
      ensures r.Some? ==> file == Written(r.value) && HasRequiredKeys(r.value)
      ensures r.None? <==> (file.Written? ==> !HasRequiredKeys(file.data))
    {
      Validate(file)
    }

    /**
     * `save_checkpoint`. `outcome` stands for what the file system does with
     * the write; `stamped` is the caller's dictionary after the call, which the
     * Python code stamps in place even when both writes fail.
     */
    method SaveCheckpoint(data: CheckpointData, force: bool, now: real, outcome: WriteOutcome)
      returns (saved: bool, stamped: CheckpointData)
      modifies this
      ensures old(SaveRefused(force, data.pagesVisited.GetOr(0), now)) ==>
        !saved && stamped == data && unchanged(this)
      ensures !old(SaveRefused(force, data.pagesVisited.GetOr(0), now)) ==>
        && stamped == Stamped(data, now)
        && (saved <==> outcome != WriteFailed)
        && (saved ==> file == Written(stamped) && lastSaveTime == now && lastSavePages == data.pagesVisited.GetOr(0))
        && (!saved ==> unchanged(this))
      ensures saved && data.visited.Some? && data.toVisit.Some? && data.pagesVisited.Some? ==>
        LoadCheckpoint() == Some(Stamped(data, now))
    {
      var pages := data.pagesVisited.GetOr(0);
      if !force && now - lastSaveTime < autoSaveInterval {
        if ((pages - lastSavePages) as real) < PagesThreshold(pages) {
          return false, data;
        }
      }
      stamped := Stamped(data, now);
      if outcome == WriteFailed {
        return false, stamped;
      }
      file := Written(stamped);
      lastSaveTime := now;
      lastSavePages := pages;
      saved := true;
    }
  }

  /** A forced save always reaches the write, whatever the interval and the page count. */
  lemma ForceBypassesGate(m: CheckpointManager, pages: int, now: real)
    ensures !m.SaveRefused(true, pages, now)
  {
  }

  /**
   * The predicate and the save gate measure progress differently: after a
   * save at 1000 pages, 1052 pages pass the predicate (threshold 50) but not
   * the gate (threshold 52.6), so an unforced save inside the interval is
   * refused although the predicate asked for it.
   */
  lemma PredicateAndGateDisagree(m: CheckpointManager, now: real)
    requires m.lastSavePages == 1000 && now - m.lastSaveTime < m.autoSaveInterval
    ensures m.ShouldSaveCheckpoint(1052, now)
    ensures m.SaveRefused(false, 1052, now)
  {
  }

  /** Once the interval has passed, both the predicate and the gate let a save through. */
  lemma IntervalElapsedSaves(m: CheckpointManager, pages: int, now: real)
    requires now - m.lastSaveTime >= m.autoSaveInterval
    ensures m.ShouldSaveCheckpoint(pages, now) && !m.SaveRefused(false, pages, now)
  {
  }

  /**
   * The progress rule of the predicate: from a save at `last` pages (at
   * least zero), `10 + last / 20` more pages always trigger it.
   */
  lemma {:induction false} EnoughPagesTrigger(m: CheckpointManager, pages: int, now: real)
    requires m.lastSavePages >= 0 && pages - m.lastSavePages >= 10 + m.lastSavePages / 20 + 1
    ensures m.ShouldSaveCheckpoint(pages, now)
  {
    var last := m.lastSavePages;
    assert (last / 20) as real * 20.0 <= last as real;
    assert last as real * 0.05 <= (last / 20 + 1) as real;
  }
}
