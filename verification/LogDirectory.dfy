/** The log directory over whole runs: which logged requests a restart replays. */
module LogDirectory {
  import opened ReplaySelection
  import W = WriteAheadLog

  /** The finished files, and the file being written with its label counters. */
  datatype Dir = Dir(done: seq<LogFile>, time: int, checkpoint: int, entries: seq<W.Entry>, min: int, max: int)

  /** A request is logged; a new stable checkpoint finishes the file (at two clock readings); the replica restarts. */
  datatype Event = Log(e: W.Entry) | Finish(checkpoint: int, renamed: int, reopened: int) | Restart

  function FileAt(stem: string, l: Label, es: seq<W.Entry>): LogFile {
    LogFile(l, NameOf(stem, l), es)
  }

  /** The file being written carries no range in its name. */
  function OpenFile(stem: string, d: Dir): LogFile {
    FileAt(stem, Label(d.time, -1, -1, d.checkpoint), d.entries)
  }

  function Files(stem: string, d: Dir): seq<LogFile> {
    d.done + [OpenFile(stem, d)]
  }

  /** What `SwitchFile` reads back: only numbers above 0 count, and the first of them stays the lower end. */
  function LowAfterRestart(es: seq<W.Entry>): int {
    if es == [] then -1
    else
      var before := LowAfterRestart(es[..|es| - 1]);
      if before == -1 && es[|es| - 1].request.sn > 0 then es[|es| - 1].request.sn else before
  }

  function HighAfterRestart(es: seq<W.Entry>): int {
    if es == [] then -1
    else
      var before, sn := HighAfterRestart(es[..|es| - 1]), es[|es| - 1].request.sn;
      if sn > 0 && sn > before then sn else before
  }

  /** The lower end read back is the first positive number, the upper end the greatest; -1 if there is none. */
  lemma {:induction false} RangeReadBack(es: seq<W.Entry>)
    ensures var low, high := LowAfterRestart(es), HighAfterRestart(es);
      && (forall i :: 0 <= i < |es| && es[i].request.sn > 0 ==> 0 < low && es[i].request.sn <= high)
      && (low != -1 ==> exists i :: FirstPositive(es, i) && es[i].request.sn == low)
      && (high != -1 ==> high > 0 && exists i :: 0 <= i < |es| && es[i].request.sn == high)
  {
    if es != [] {
      var n := |es| - 1;
      RangeReadBack(es[..n]);
      if LowAfterRestart(es[..n]) != -1 {
        var i :| FirstPositive(es[..n], i) && es[..n][i].request.sn == LowAfterRestart(es[..n]);
        assert FirstPositive(es, i);
      } else if es[n].request.sn > 0 {
        assert FirstPositive(es, n);
      }
      if HighAfterRestart(es) == HighAfterRestart(es[..n]) != -1 {
        var i :| 0 <= i < n && es[..n][i].request.sn == HighAfterRestart(es[..n]);
        assert es[i].request.sn == HighAfterRestart(es);
      }
    }
  }

  ghost predicate FirstPositive(es: seq<W.Entry>, i: int) {
    0 <= i < |es| && es[i].request.sn > 0 && forall j :: 0 <= j < i ==> es[j].request.sn <= 0
  }

  /** When nothing was logged and the clock has not moved, the new file has the name of the old one. */
  function Step(stem: string, d: Dir, ev: Event): Dir {
    match ev
    case Log(e) =>
      var sn := e.request.sn;
      d.(entries := d.entries + [e],
         min := if d.min == -1 || sn < d.min then sn else d.min,
         max := if sn > d.max then sn else d.max)
    case Finish(c, renamed, reopened) =>
      if d.min == -1 && renamed == reopened then d.(time := reopened, checkpoint := c, max := -1)
      else Dir(d.done + [FileAt(stem, Label(renamed, d.min, d.max, c), d.entries)], reopened, c, [], -1, -1)
    case Restart =>
      d.(min := LowAfterRestart(d.entries), max := HighAfterRestart(d.entries))
  }

  function Run(stem: string, start: int, events: seq<Event>): Dir {
    if events == [] then Dir([], start, 0, [], -1, -1)
    else Step(stem, Run(stem, start, events[..|events| - 1]), events[|events| - 1])
  }

  /** The clock does not go backwards. */
  predicate Clocked(stem: string, start: int, events: seq<Event>) {
    events == [] ||
    var init, last := events[..|events| - 1], events[|events| - 1];
    Clocked(stem, start, init) &&
    (last.Finish? ==> Run(stem, start, init).time <= last.renamed <= last.reopened)
  }

  // ----- what labels say about contents

  /** The upper end is the greatest positive number logged; without a lower end nothing positive was. */
  ghost predicate RangeOk(es: seq<W.Entry>, min: int, max: int) {
    && min >= -1 && (min == -1 ==> max == -1)
    && (forall e :: e in es && e.request.sn > 0 ==> min != -1 && e.request.sn <= max)
    && (max > 0 ==> exists e :: e in es && e.request.sn == max)
  }

  ghost predicate Inv(d: Dir) {
    && RangeOk(d.entries, d.min, d.max)
    && forall f :: f in d.done ==> RangeOk(f.entries, f.tag.min, f.tag.max) && (IsOpen(f) ==> f.tag.time < d.time)
  }

  lemma {:induction false} RestartRange(es: seq<W.Entry>)
    ensures RangeOk(es, LowAfterRestart(es), HighAfterRestart(es))
    ensures LowAfterRestart(es) == -1 || LowAfterRestart(es) > 0
  {
    if es != [] {
      var init, last := es[..|es| - 1], es[|es| - 1];
      RestartRange(init);
      assert es == init + [last];
      if HighAfterRestart(es) != HighAfterRestart(init) {
        assert last in es;
      } else if HighAfterRestart(es) > 0 {
        var e :| e in init && e.request.sn == HighAfterRestart(init);
        assert e in es;
      }
    }
  }

  lemma LogRange(es: seq<W.Entry>, min: int, max: int, e: W.Entry)
    requires RangeOk(es, min, max)
    ensures var sn := e.request.sn;
      RangeOk(es + [e], if min == -1 || sn < min then sn else min, if sn > max then sn else max)
  {
    assert e in es + [e];
    if max > 0 && e.request.sn <= max {
      var x :| x in es && x.request.sn == max;
      assert x in es + [e];
    }
  }

  lemma StepKeeps(stem: string, d: Dir, ev: Event)
    requires Inv(d) && (ev.Finish? ==> d.time <= ev.renamed <= ev.reopened)
    ensures Inv(Step(stem, d, ev))
  {
    match ev
    case Log(e) => LogRange(d.entries, d.min, d.max, e);
    case Finish(c, renamed, reopened) =>
    case Restart => RestartRange(d.entries);
  }

  lemma {:induction false} InvAlways(stem: string, start: int, events: seq<Event>)
    requires Clocked(stem, start, events)
    ensures Inv(Run(stem, start, events))
  {
    if events != [] {
      InvAlways(stem, start, events[..|events| - 1]);
      StepKeeps(stem, Run(stem, start, events[..|events| - 1]), events[|events| - 1]);
    }
  }

  // ----- what a restart replays

  lemma OpenIsLatest(stem: string, d: Dir)
    requires Inv(d)
    ensures OpenFile(stem, d) in Files(stem, d) && IsOpen(OpenFile(stem, d))
    ensures LatestOpen(Files(stem, d)) == OpenFile(stem, d)
  {
    var fs, open := Files(stem, d), OpenFile(stem, d);
    assert open in fs;
    LatestIsOpen(fs);
    assert LatestOpen(fs) in d.done || LatestOpen(fs) == open;
  }

  /** The names say that no finished file lies wholly above the last checkpoint. */
  ghost predicate NoneBeyond(fs: seq<LogFile>) {
    forall f :: f in fs && f.tag.max > LastCheckpoint(fs) ==> f.tag.min <= LastCheckpoint(fs)
  }

  /** A file needs replay when it holds a request above the last checkpoint. */
  ghost predicate Needed(fs: seq<LogFile>, f: LogFile) {
    f in fs && exists e :: e in f.entries && LastCheckpoint(fs) < e.request.sn
  }

  lemma NeededSelected(stem: string, d: Dir, f: LogFile)
    requires Inv(d) && Needed(Files(stem, d), f)
    ensures OpenFile(stem, d) in Files(stem, d)
    ensures f in Selected(Files(stem, d)) <==>
      f == OpenFile(stem, d) || f.tag.min <= LastCheckpoint(Files(stem, d)) < f.tag.max
    ensures f == OpenFile(stem, d) || f.tag.max > LastCheckpoint(Files(stem, d))
  {
    var fs := Files(stem, d);
    OpenIsLatest(stem, d);
    SelectedExactly(fs, f);
    var e :| e in f.entries && LastCheckpoint(fs) < e.request.sn;
    assert f in d.done || f == OpenFile(stem, d);
  }

  lemma BeyondNeeded(stem: string, d: Dir, f: LogFile)
    requires Inv(d) && f in Files(stem, d) && f.tag.max > LastCheckpoint(Files(stem, d))
    ensures Needed(Files(stem, d), f) && f in d.done
  {
    assert f in d.done || f == OpenFile(stem, d);
    var e :| e in f.entries && e.request.sn == f.tag.max;
  }

  /**
    * For every run of logging, finishing and restarting: the replay reads every file that holds a request
    * above the last checkpoint exactly when no finished file lies wholly above it.
    */
  lemma ReplayExact(stem: string, start: int, events: seq<Event>)
    requires Clocked(stem, start, events)
    ensures var fs := Files(stem, Run(stem, start, events));
      && (exists f :: f in fs && IsOpen(f))
      && ((forall f :: Needed(fs, f) ==> f in Selected(fs)) <==> NoneBeyond(fs))
  {
    InvAlways(stem, start, events);
    ExactIn(stem, Run(stem, start, events));
  }

  lemma ExactIn(stem: string, d: Dir)
    requires Inv(d)
    ensures var fs := Files(stem, d);
      && (exists f :: f in fs && IsOpen(f))
      && ((forall f :: Needed(fs, f) ==> f in Selected(fs)) <==> NoneBeyond(fs))
  {
    var fs := Files(stem, d);
    OpenIsLatest(stem, d);
    if NoneBeyond(fs) {
      forall f | Needed(fs, f) ensures f in Selected(fs) {
        NeededSelected(stem, d, f);
      }
    }
    if forall f :: Needed(fs, f) ==> f in Selected(fs) {
      forall f | f in fs && f.tag.max > LastCheckpoint(fs) ensures f.tag.min <= LastCheckpoint(fs) {
        BeyondNeeded(stem, d, f);
        NeededSelected(stem, d, f);
      }
    }
  }

  /** Then exactly the logged requests above the last checkpoint are replayed, file by file in time order. */
  lemma ReplayComplete(stem: string, start: int, events: seq<Event>, e: W.Entry)
    requires Clocked(stem, start, events) && NoneBeyond(Files(stem, Run(stem, start, events)))
    ensures var fs := Files(stem, Run(stem, start, events));
      && (exists f :: f in fs && IsOpen(f)) && Sorted(Selected(fs))
      && (e in Replayed(fs) <==> LastCheckpoint(fs) < e.request.sn && exists f :: f in fs && e in f.entries)
  {
    var fs := Files(stem, Run(stem, start, events));
    ReplayExact(stem, start, events);
    ReplayMembers(Selected(fs), LastCheckpoint(fs), e);
    SelectedExactly(fs, OpenFile(stem, Run(stem, start, events)));
    forall f | f in fs && e in f.entries && LastCheckpoint(fs) < e.request.sn ensures f in Selected(fs) {
      assert Needed(fs, f);
    }
    forall f | f in Selected(fs) ensures f in fs {
      SelectedExactly(fs, f);
    }
  }

  /** Every file was finished at a checkpoint no lower than the least number it holds. */
  predicate Caught(stem: string, start: int, events: seq<Event>) {
    events == [] ||
    var init, last := events[..|events| - 1], events[|events| - 1];
    Caught(stem, start, init) && (last.Finish? ==> Run(stem, start, init).min <= last.checkpoint)
  }

  lemma {:induction false} CaughtFiles(stem: string, start: int, events: seq<Event>)
    requires Caught(stem, start, events)
    ensures forall f :: f in Run(stem, start, events).done ==> f.tag.min <= f.tag.checkpoint
  {
    if events != [] {
      CaughtFiles(stem, start, events[..|events| - 1]);
    }
  }

  /** A replica whose checkpoints keep up in this sense loses nothing. */
  lemma CaughtComplete(stem: string, start: int, events: seq<Event>)
    requires Caught(stem, start, events)
    ensures NoneBeyond(Files(stem, Run(stem, start, events)))
  {
    CaughtFiles(stem, start, events);
    var d := Run(stem, start, events);
    forall f | f in Files(stem, d) && f.tag.max > LastCheckpoint(Files(stem, d)) ensures f.tag.min <= f.tag.checkpoint {
      assert f in d.done || f == OpenFile(stem, d);
    }
  }

  // ----- the failing case

  function Logs(votes: seq<W.Entry>): (evs: seq<Event>)
    ensures |evs| == |votes| && forall i :: 0 <= i < |votes| ==> evs[i] == Log(votes[i])
  {
    seq(|votes|, i requires 0 <= i < |votes| => Log(votes[i]))
  }

  /** The checkpoint votes, logged under number 0, all go to the first file. */
  function Lagging(e: W.Entry, votes: seq<W.Entry>, e': W.Entry): seq<Event> {
    [Log(e)] + Logs(votes) + [Finish(5, 1, 2), Log(e'), Finish(8, 3, 4)]
  }

  ghost predicate LaggingCase(e: W.Entry, votes: seq<W.Entry>, e': W.Entry) {
    e.request.sn == 10 && e'.request.sn == 11 && votes != [] && forall v :: v in votes ==> v.request.sn == 0
  }

  /** One more event, from one known state to the next. */
  lemma Onward(stem: string, es: seq<Event>, k: nat, d: Dir, ev: Event)
    requires k < |es| && es[k] == ev && Run(stem, 0, es[..k]) == d && Clocked(stem, 0, es[..k])
    requires ev.Finish? ==> d.time <= ev.renamed <= ev.reopened
    ensures Run(stem, 0, es[..k + 1]) == Step(stem, d, ev) && Clocked(stem, 0, es[..k + 1])
  {
    assert es[..k + 1][..k] == es[..k];
  }

  lemma LaggingEvents(e: W.Entry, votes: seq<W.Entry>, e': W.Entry)
    ensures var es, n := Lagging(e, votes, e'), 1 + |votes|;
      && |es| == n + 3 && es[0] == Log(e) && (forall i :: 1 <= i < n ==> es[i] == Log(votes[i - 1]))
      && es[n] == Finish(5, 1, 2) && es[n + 1] == Log(e') && es[n + 2] == Finish(8, 3, 4)
  {
  }

  lemma VoteStep(stem: string, logged: seq<W.Entry>, low: int, v: W.Entry)
    requires (low == 10 || low == 0) && v.request.sn == 0
    ensures Step(stem, Dir([], 0, 0, logged, low, 10), Log(v)) == Dir([], 0, 0, logged + [v], 0, 10)
  {
  }

  lemma {:induction false} VotesLogged(stem: string, e: W.Entry, votes: seq<W.Entry>, es: seq<Event>, i: nat)
    requires e.request.sn == 10 && (forall v :: v in votes ==> v.request.sn == 0) && i <= |votes| < |es|
    requires es[0] == Log(e) && forall j :: 1 <= j <= |votes| ==> es[j] == Log(votes[j - 1])
    ensures Run(stem, 0, es[..1 + i]) == Dir([], 0, 0, [e] + votes[..i], if i == 0 then 10 else 0, 10)
    ensures Clocked(stem, 0, es[..1 + i])
    decreases i
  {
    if i == 0 {
      assert es[..0] == [] && [] + [e] == [e] + votes[..0];
      Onward(stem, es, 0, Dir([], 0, 0, [], -1, -1), Log(e));
    } else {
      var v, logged, low := votes[i - 1], [e] + votes[..i - 1], if i == 1 then 10 else 0;
      VotesLogged(stem, e, votes, es, i - 1);
      assert es[i] == Log(v) && v in votes;
      Onward(stem, es, i, Dir([], 0, 0, logged, low, 10), Log(v));
      VoteStep(stem, logged, low, v);
      assert logged + [v] == [e] + votes[..i];
    }
  }

  lemma LaggingFiles(stem: string, e: W.Entry, votes: seq<W.Entry>, e': W.Entry)
    requires LaggingCase(e, votes, e')
    ensures Clocked(stem, 0, Lagging(e, votes, e'))
    ensures Run(stem, 0, Lagging(e, votes, e'))
         == Dir([FileAt(stem, Label(1, 0, 10, 5), [e] + votes), FileAt(stem, Label(3, 11, 11, 8), [e'])],
                4, 8, [], -1, -1)
  {
    var es, n := Lagging(e, votes, e'), 1 + |votes|;
    LaggingEvents(e, votes, e');
    VotesLogged(stem, e, votes, es, |votes|);
    assert votes[..|votes|] == votes;
    LaggingEnd(stem, [e] + votes, e', es, n);
    assert es[..n + 3] == es;
  }

  lemma LaggingEnd(stem: string, logged: seq<W.Entry>, e': W.Entry, es: seq<Event>, n: nat)
    requires n + 3 <= |es| && es[n] == Finish(5, 1, 2) && es[n + 1] == Log(e') && es[n + 2] == Finish(8, 3, 4)
    requires Run(stem, 0, es[..n]) == Dir([], 0, 0, logged, 0, 10) && Clocked(stem, 0, es[..n]) && e'.request.sn == 11
    ensures Clocked(stem, 0, es[..n + 3])
    ensures Run(stem, 0, es[..n + 3])
         == Dir([FileAt(stem, Label(1, 0, 10, 5), logged), FileAt(stem, Label(3, 11, 11, 8), [e'])], 4, 8, [], -1, -1)
  {
    var first, second := FileAt(stem, Label(1, 0, 10, 5), logged), FileAt(stem, Label(3, 11, 11, 8), [e']);
    Onward(stem, es, n, Dir([], 0, 0, logged, 0, 10), Finish(5, 1, 2));
    assert [] + [first] == [first] && [] + [e'] == [e'] && [first] + [second] == [first, second];
    Onward(stem, es, n + 1, Dir([first], 2, 5, [], -1, -1), Log(e'));
    Onward(stem, es, n + 2, Dir([first], 2, 5, [e'], 11, 11), Finish(8, 3, 4));
  }

  /** Of three files, the second lying above the last checkpoint, the second is not read. */
  lemma SecondSkipped(a: LogFile, b: LogFile, c: LogFile, e: W.Entry)
    requires a.tag == Label(1, 0, 10, 5) && b.tag == Label(3, 11, 11, 8) && c.tag == Label(4, -1, -1, 8)
    requires e !in a.entries && e in b.entries && e !in c.entries
    ensures LastCheckpoint([a, b, c]) == 8 && c in [a, b, c] && IsOpen(c) && e !in Replayed([a, b, c])
  {
    var fs := [a, b, c];
    assert fs[..2] == [a, b] && [a, b][..1] == [a] && [a][..0] == [];
    assert LastCheckpoint([a]) == 5 && LastCheckpoint([a, b]) == 8;
    assert c in fs;
    forall f | f in Selected(fs) ensures e !in f.entries {
      SelectedExactly(fs, f);
      assert IsOpen(LatestOpen(fs));
    }
    ReplayMembers(Selected(fs), 8, e);
  }

  /**
    * Request 11 was logged after checkpoint 5, the votes for checkpoint 8 having been logged before, and its file
    * finished at checkpoint 8: a restart does not replay it.
    */
  lemma LaggingLost(stem: string, e: W.Entry, votes: seq<W.Entry>, e': W.Entry)
    requires LaggingCase(e, votes, e')
    ensures var fs := Files(stem, Run(stem, 0, Lagging(e, votes, e')));
      && Clocked(stem, 0, Lagging(e, votes, e')) && LastCheckpoint(fs) == 8
      && (exists f :: f in fs && e' in f.entries) && (exists f :: f in fs && IsOpen(f)) && e' !in Replayed(fs)
  {
    LaggingFiles(stem, e, votes, e');
    var fs := Files(stem, Run(stem, 0, Lagging(e, votes, e')));
    assert fs == [fs[0], fs[1], fs[2]];
    SecondSkipped(fs[0], fs[1], fs[2], e');
    assert fs[1] in fs;
  }

  // ----- the file handling of the source

  /** `Recovery`'s file-switching side; `WriteAheadLog.Recovery` has the bytes of one file. */
  class FileSwitcher {
    const stem: string
    var done: seq<LogFile>
    var time: int
    var checkpoint: int
    var entries: seq<W.Entry>
    var minSeq: int
    var maxSeq: int

    function View(): (d: Dir)
      reads this
    {
      Dir(done, time, checkpoint, entries, minSeq, maxSeq)
    }

    /** An empty directory: the first file is for checkpoint 0. */
    constructor (stem: string, now: int)
      ensures View() == Run(stem, now, []) && this.stem == stem
    {
      this.stem, time := stem, now;
      done, checkpoint, entries, minSeq, maxSeq := [], 0, [], -1, -1;
    }

    method WriteLog(e: W.Entry)
      modifies this
      ensures View() == Step(stem, old(View()), Log(e))
    {
      minSeq := if minSeq == -1 || e.request.sn < minSeq then e.request.sn else minSeq;
      maxSeq := if e.request.sn > maxSeq then e.request.sn else maxSeq;
      entries := entries + [e];
    }

    /**
      * Once the storage has been flushed the file is renamed to its range, and the next one opened; renaming to an
      * equal name changes nothing else.
      */
    method FinishFile(seqNo: int, renamed: int, reopened: int, flushed: bool)
      modifies this
      ensures View() == if flushed then Step(stem, old(View()), Finish(seqNo, renamed, reopened)) else old(View())
    {
      if !flushed {
        return;
      }
      var finished := Label(renamed, minSeq, maxSeq, seqNo);
      if minSeq != -1 || renamed != reopened {
        done, entries, minSeq := done + [FileAt(stem, finished, entries)], [], -1;
      }
      maxSeq, time, checkpoint := -1, reopened, seqNo;
    }

    /** The range is read back from the file; the loop keeps the first number as lower end. */
    method SwitchFile()
      modifies this`minSeq, this`maxSeq
      ensures View() == Step(stem, old(View()), Restart)
    {
      minSeq, maxSeq := -1, -1;
      for i := 0 to |entries|
        invariant minSeq == LowAfterRestart(entries[..i]) && maxSeq == HighAfterRestart(entries[..i])
      {
        assert entries[..i + 1][..i] == entries[..i];
        var sn := entries[i].request.sn;
        if sn > 0 {
          if minSeq == -1 {
            minSeq := sn;
          }
          if sn > maxSeq {
            maxSeq := sn;
          }
        }
      }
      assert entries[..|entries|] == entries;
    }
  }
}
