/** Log file names, and which files and requests `Recovery::ReadLogs` replays after a restart. */
module ReplaySelection {
  import opened Messages
  import opened Lexicographic
  import opened Selection
  import opened Decimal
  import W = WriteAheadLog

  /** What a file name says: creation time, lowest and highest number logged (-1 while open), checkpoint. */
  datatype Label = Label(time: int, min: int, max: int, checkpoint: int)

  /** `GenerateFile`, without directory and extension. */
  function NameOf(stem: string, l: Label): string {
    stem + "_" + PrintInt(l.time) + "_" + PrintInt(l.min) + "_" + PrintInt(l.max) + "_" + PrintInt(l.checkpoint)
  }

  /** `rfind`: the last underscore at or before position `from`, -1 if there is none. */
  function RFind(s: string, from: int): (i: int)
    requires from < |s|
    ensures -1 <= i <= from || i == -1
    ensures i >= 0 ==> s[i] == '_'
    decreases from + 1
  {
    if from < 0 then -1 else if s[from] == '_' then from else RFind(s, from - 1)
  }

  /** What stands before and after the last underscore. */
  function LastField(s: string): Option<(string, string)> {
    var pos := RFind(s, |s| - 1);
    if pos < 0 then None else Some((s[..pos], s[pos + 1..]))
  }

  /** The four fields between the last four underscores, each found before the one after it, if they are numbers. */
  function LabelOf(name: string): Option<Label> {
    match LastField(name)
    case None => None
    case Some((s3, checkpoint)) =>
    match LastField(s3)
    case None => None
    case Some((s2, max)) =>
    match LastField(s2)
    case None => None
    case Some((s1, min)) =>
    match LastField(s1)
    case None => None
    case Some((stem, time)) =>
      if IsInt(time) && IsInt(min) && IsInt(max) && IsInt(checkpoint)
      then Some(Label(ParseInt(time), ParseInt(min), ParseInt(max), ParseInt(checkpoint)))
      else None
  }

  predicate NoUnderscore(s: string) {
    forall c :: c in s ==> c != '_'
  }

  lemma PrintedHasNone(n: int)
    ensures NoUnderscore(PrintInt(n))
  {
    if n < 0 {
      assert PrintInt(n) == "-" + PrintNat(-n);
    }
  }

  lemma {:induction false} RFindLast(name: string, pos: nat, from: nat)
    requires pos <= from < |name| && name[pos] == '_' && forall i :: pos < i <= from ==> name[i] != '_'
    ensures RFind(name, from) == pos
  {
    if from > pos {
      RFindLast(name, pos, from - 1);
    }
  }

  lemma CutField(front: string, field: string)
    requires NoUnderscore(field)
    ensures LastField(front + "_" + field) == Some((front, field))
  {
    var s := front + "_" + field;
    forall i | |front| < i < |s| ensures s[i] != '_' {
      assert s[i] == field[i - |front| - 1] && field[i - |front| - 1] in field;
    }
    RFindLast(s, |front|, |s| - 1);
    assert s[..|front|] == front && s[|front| + 1..] == field;
  }

  /** Parsing a generated name gives its fields back, negative ones included, whatever the stem. */
  lemma NameRoundTrip(stem: string, l: Label)
    ensures LabelOf(NameOf(stem, l)) == Some(l)
  {
    PrintedField(l.time);
    PrintedField(l.min);
    PrintedField(l.max);
    PrintedField(l.checkpoint);
    var s1 := stem + "_" + PrintInt(l.time);
    var s2 := s1 + "_" + PrintInt(l.min);
    var s3 := s2 + "_" + PrintInt(l.max);
    CutField(s3, PrintInt(l.checkpoint));
    CutField(s2, PrintInt(l.max));
    CutField(s1, PrintInt(l.min));
    CutField(stem, PrintInt(l.time));
  }

  lemma PrintedField(n: int)
    ensures NoUnderscore(PrintInt(n)) && IsInt(PrintInt(n)) && ParseInt(PrintInt(n)) == n
  {
    IntRoundTrip(n);
    PrintedHasNone(n);
  }

  // ----- which files are replayed

  /** A log file in the recovery directory, with what reading it back yields. */
  datatype LogFile = LogFile(tag: Label, path: string, entries: seq<W.Entry>)

  function KeyOf(f: LogFile): Key {
    (f.tag.time, f.path)
  }

  /** `sort` on (time, path) pairs. */
  ghost predicate Sorted(fs: seq<LogFile>) {
    forall i, j :: 0 <= i < j < |fs| ==> Le(KeyOf(fs[i]), KeyOf(fs[j]))
  }

  function Insert(f: LogFile, fs: seq<LogFile>): (r: seq<LogFile>)
    ensures multiset(r) == multiset(fs) + multiset{f}
  {
    if fs == [] then [f]
    else if Le(KeyOf(f), KeyOf(fs[0])) then
      [f] + fs
    else
      assert fs == [fs[0]] + fs[1..];
      [fs[0]] + Insert(f, fs[1..])
  }

  function Sort(fs: seq<LogFile>): (r: seq<LogFile>)
    ensures multiset(r) == multiset(fs)
  {
    if fs == [] then []
    else
      assert fs == [fs[0]] + fs[1..];
      Insert(fs[0], Sort(fs[1..]))
  }

  lemma {:induction false} InsertSorted(f: LogFile, fs: seq<LogFile>)
    requires Sorted(fs)
    ensures Sorted(Insert(f, fs))
  {
    if fs != [] {
      var k := KeyOf(fs[0]);
      Order(KeyOf(f), k, k);
      if Le(KeyOf(f), k) {
        forall j | 0 <= j < |fs| ensures Le(KeyOf(f), KeyOf(fs[j])) {
          Order(KeyOf(f), k, KeyOf(fs[j]));
        }
      } else {
        InsertSorted(f, fs[1..]);
        var rest := Insert(f, fs[1..]);
        forall j | 0 <= j < |rest| ensures Le(k, KeyOf(rest[j])) {
          assert rest[j] in multiset(rest);
          assert rest[j] == f || rest[j] in fs[1..];
        }
      }
    }
  }

  lemma {:induction false} SortSorted(fs: seq<LogFile>)
    ensures Sorted(Sort(fs))
  {
    if fs != [] {
      SortSorted(fs[1..]);
      InsertSorted(fs[0], Sort(fs[1..]));
    }
  }

  lemma SortMembers(fs: seq<LogFile>, f: LogFile)
    ensures f in Sort(fs) <==> f in fs
  {
    assert f in Sort(fs) <==> f in multiset(Sort(fs));
    assert f in fs <==> f in multiset(fs);
  }

  /** The greatest checkpoint any file name carries, 0 at least. */
  function LastCheckpoint(fs: seq<LogFile>): (c: int)
    ensures c >= 0 && forall f :: f in fs ==> f.tag.checkpoint <= c
  {
    if fs == [] then 0
    else
      var last, before := fs[|fs| - 1], LastCheckpoint(fs[..|fs| - 1]);
      assert fs == fs[..|fs| - 1] + [last];
      if last.tag.checkpoint > before then last.tag.checkpoint else before
  }

  /** It is 0 or carried by some file. */
  lemma {:induction false} CheckpointNamed(fs: seq<LogFile>)
    ensures LastCheckpoint(fs) == 0 || exists f :: f in fs && f.tag.checkpoint == LastCheckpoint(fs)
  {
    if fs != [] {
      var init, last := fs[..|fs| - 1], fs[|fs| - 1];
      CheckpointNamed(init);
      assert fs == init + [last];
      assert last in fs;
      if LastCheckpoint(fs) == LastCheckpoint(init) != 0 {
        var f :| f in init && f.tag.checkpoint == LastCheckpoint(init);
        assert f in fs;
      }
    }
  }

  predicate IsOpen(f: LogFile) {
    f.tag.min == -1
  }

  /** A finished file whose range spans the last checkpoint. */
  predicate Spans(f: LogFile, checkpoint: int) {
    !IsOpen(f) && f.tag.min <= checkpoint <= f.tag.max
  }

  function OpenFiles(fs: seq<LogFile>): (r: seq<LogFile>)
    ensures forall f :: f in r <==> f in fs && IsOpen(f)
  {
    if fs == [] then []
    else
      var last := fs[|fs| - 1];
      assert fs == fs[..|fs| - 1] + [last];
      OpenFiles(fs[..|fs| - 1]) + if IsOpen(last) then [last] else []
  }

  function SpanningFiles(fs: seq<LogFile>, checkpoint: int): (r: seq<LogFile>)
    ensures forall f :: f in r <==> f in fs && Spans(f, checkpoint)
  {
    if fs == [] then []
    else
      var last := fs[|fs| - 1];
      assert fs == fs[..|fs| - 1] + [last];
      SpanningFiles(fs[..|fs| - 1], checkpoint) + if Spans(last, checkpoint) then [last] else []
  }

  /** The open file at the back of the sorted list. */
  function LatestOpen(fs: seq<LogFile>): LogFile
    requires exists f :: f in fs && IsOpen(f)
  {
    assert OpenFiles(fs) != [] by {
      var f :| f in fs && IsOpen(f);
      assert f in OpenFiles(fs);
    }
    Back(OpenFiles(fs))
  }

  function Back(fs: seq<LogFile>): LogFile
    requires fs != []
  {
    SortNonEmpty(fs);
    Sort(fs)[|fs| - 1]
  }

  /** `GetRecoveryFiles`: the spanning files and the latest open one, by time. */
  function Selected(fs: seq<LogFile>): seq<LogFile>
    requires exists f :: f in fs && IsOpen(f)
  {
    Sort(SpanningFiles(fs, LastCheckpoint(fs)) + [LatestOpen(fs)])
  }

  lemma SortNonEmpty(fs: seq<LogFile>)
    ensures |Sort(fs)| == |fs|
  {
    assert |multiset(Sort(fs))| == |multiset(fs)|;
  }

  /** The requests of one file above the checkpoint, in log order. */
  function Above(es: seq<W.Entry>, checkpoint: int): seq<W.Entry> {
    if es == [] then []
    else
      var last := es[|es| - 1];
      Above(es[..|es| - 1], checkpoint) + if checkpoint < last.request.sn then [last] else []
  }

  function ReplayOf(fs: seq<LogFile>, checkpoint: int): seq<W.Entry> {
    if fs == [] then [] else ReplayOf(fs[..|fs| - 1], checkpoint) + Above(fs[|fs| - 1].entries, checkpoint)
  }

  /** `ReadLogs`: file by file in time order, each in log order, only what is above the last checkpoint. */
  function Replayed(fs: seq<LogFile>): seq<W.Entry>
    requires exists f :: f in fs && IsOpen(f)
  {
    ReplayOf(Selected(fs), LastCheckpoint(fs))
  }

  /** The file at the back of a sorted list is one of its files and no other is later. */
  lemma BackIsLast(fs: seq<LogFile>)
    requires fs != []
    ensures Back(fs) in fs && forall g :: g in fs ==> Le(KeyOf(g), KeyOf(Back(fs)))
  {
    SortNonEmpty(fs);
    SortSorted(fs);
    SortMembers(fs, Back(fs));
    forall g | g in fs ensures Le(KeyOf(g), KeyOf(Back(fs))) {
      SortMembers(fs, g);
      EndIsLast(Sort(fs), g);
    }
  }

  lemma EndIsLast(fs: seq<LogFile>, g: LogFile)
    requires Sorted(fs) && g in fs
    ensures Le(KeyOf(g), KeyOf(fs[|fs| - 1]))
  {
    var i :| 0 <= i < |fs| && fs[i] == g;
    if i == |fs| - 1 {
      Order(KeyOf(g), KeyOf(g), KeyOf(g));
    }
  }

  lemma LatestIsOpen(fs: seq<LogFile>)
    requires exists f :: f in fs && IsOpen(f)
    ensures LatestOpen(fs) in fs && IsOpen(LatestOpen(fs))
    ensures forall g :: g in fs && IsOpen(g) ==> Le(KeyOf(g), KeyOf(LatestOpen(fs)))
  {
    BackIsLast(OpenFiles(fs));
  }

  /** Exactly which files are replayed, and that they come in time order. */
  lemma SelectedExactly(fs: seq<LogFile>, f: LogFile)
    requires exists g :: g in fs && IsOpen(g)
    ensures Sorted(Selected(fs))
    ensures f in Selected(fs) <==>
      f in fs && (f == LatestOpen(fs) || (f.tag.min != -1 && f.tag.min <= LastCheckpoint(fs) <= f.tag.max))
    ensures var latest := LatestOpen(fs);
      latest.tag.min == -1 && forall g :: g in fs && g.tag.min == -1 ==> Le(KeyOf(g), KeyOf(latest))
  {
    LatestIsOpen(fs);
    var chosen := SpanningFiles(fs, LastCheckpoint(fs)) + [LatestOpen(fs)];
    SortSorted(chosen);
    SortMembers(chosen, f);
  }

  /** The files come by creation time, and no open file was created after the one selected. */
  lemma SelectedByTime(fs: seq<LogFile>, i: nat, j: nat, g: LogFile)
    requires exists f :: f in fs && IsOpen(f)
    requires i < j < |Selected(fs)| && g in fs && g.tag.min == -1
    ensures Selected(fs)[i].tag.time <= Selected(fs)[j].tag.time && g.tag.time <= LatestOpen(fs).tag.time
  {
    SelectedExactly(fs, g);
    assert Le(KeyOf(Selected(fs)[i]), KeyOf(Selected(fs)[j]));
  }

  lemma {:induction false} AboveMembers(es: seq<W.Entry>, checkpoint: int, e: W.Entry)
    ensures e in Above(es, checkpoint) <==> e in es && checkpoint < e.request.sn
  {
    if es != [] {
      AboveMembers(es[..|es| - 1], checkpoint, e);
      assert es == es[..|es| - 1] + [es[|es| - 1]];
    }
  }

  lemma {:induction false} ReplayMembers(fs: seq<LogFile>, checkpoint: int, e: W.Entry)
    ensures e in ReplayOf(fs, checkpoint) <==> exists f :: f in fs && e in f.entries && checkpoint < e.request.sn
  {
    if fs != [] {
      ReplayMembers(fs[..|fs| - 1], checkpoint, e);
      AboveMembers(fs[|fs| - 1].entries, checkpoint, e);
      assert fs == fs[..|fs| - 1] + [fs[|fs| - 1]];
    }
  }

  // ----- in what order, and each once

  function Later(checkpoint: int): W.Entry -> bool {
    (e: W.Entry) => checkpoint < e.request.sn
  }

  lemma {:induction false} AboveFilter(es: seq<W.Entry>, checkpoint: int)
    ensures IsFilter(es, Above(es, checkpoint), Later(checkpoint))
  {
    if es == [] {
      FilterEmpty(Later(checkpoint));
    } else {
      var init, last := es[..|es| - 1], es[|es| - 1];
      AboveFilter(init, checkpoint);
      FilterNext(init, Above(init, checkpoint), Later(checkpoint), last);
      assert es == init + [last];
    }
  }

  /** Earlier in an earlier file, or earlier in the same file. */
  predicate Before(a: (nat, nat), b: (nat, nat)) {
    a.0 < b.0 || (a.0 == b.0 && a.1 < b.1)
  }

  /** The requests replayed are those found at these places: file, then position in it. */
  ghost predicate PlacedAt(list: seq<LogFile>, replayed: seq<W.Entry>, at: seq<(nat, nat)>) {
    && |at| == |replayed|
    && forall i :: 0 <= i < |at| ==>
         && at[i].0 < |list| && at[i].1 < |list[at[i].0].entries|
         && replayed[i] == list[at[i].0].entries[at[i].1]
  }

  ghost predicate InOrder(at: seq<(nat, nat)>) {
    forall i, j :: 0 <= i < j < |at| ==> Before(at[i], at[j])
  }

  /** The places are those of all requests above the checkpoint and no others. */
  ghost predicate AllAbove(list: seq<LogFile>, checkpoint: int, at: seq<(nat, nat)>) {
    forall f: nat, p: nat :: f < |list| && p < |list[f].entries| ==>
      ((f, p) in at <==> checkpoint < list[f].entries[p].request.sn)
  }

  ghost predicate Places(list: seq<LogFile>, checkpoint: int, replayed: seq<W.Entry>, at: seq<(nat, nat)>) {
    PlacedAt(list, replayed, at) && InOrder(at) && AllAbove(list, checkpoint, at)
  }

  function Tagged(file: nat, at: seq<nat>): seq<(nat, nat)> {
    seq(|at|, i requires 0 <= i < |at| => (file, at[i]))
  }

  lemma TaggedAbove(list: seq<LogFile>, file: LogFile, checkpoint: int, at: seq<(nat, nat)>, part: seq<nat>)
    requires AllAbove(list, checkpoint, at) && (forall i :: 0 <= i < |at| ==> at[i].0 < |list|)
    requires Hits(file.entries, Later(checkpoint), part)
    ensures AllAbove(list + [file], checkpoint, at + Tagged(|list|, part))
  {
    var tags := Tagged(|list|, part);
    forall p: nat ensures (|list|, p) in tags <==> p in part {
      if p in part {
        var i :| 0 <= i < |part| && part[i] == p;
        assert tags[i] == (|list|, p);
      }
    }
    forall f: nat, p: nat | f < |list + [file]| && p < |(list + [file])[f].entries|
      ensures (f, p) in at + tags <==> checkpoint < (list + [file])[f].entries[p].request.sn {
      if f == |list| {
        assert (f, p) !in at && (p in part <==> Later(checkpoint)(file.entries[p]));
      } else {
        assert (f, p) !in tags;
      }
    }
  }

  lemma TaggedPlaced(list: seq<LogFile>, file: LogFile, replayed: seq<W.Entry>, at: seq<(nat, nat)>,
                     above: seq<W.Entry>, part: seq<nat>)
    requires PlacedAt(list, replayed, at) && From(file.entries, above, part)
    ensures PlacedAt(list + [file], replayed + above, at + Tagged(|list|, part))
  {
    var all, at' := list + [file], at + Tagged(|list|, part);
    forall i | 0 <= i < |at'|
      ensures
        && at'[i].0 < |all| && at'[i].1 < |all[at'[i].0].entries|
        && (replayed + above)[i] == all[at'[i].0].entries[at'[i].1] {
      if i >= |at| {
        assert at'[i] == (|list|, part[i - |at|]) && (replayed + above)[i] == above[i - |at|];
      }
    }
  }

  lemma TaggedInOrder(file: nat, at: seq<(nat, nat)>, part: seq<nat>)
    requires InOrder(at) && Ascending(part) && forall i :: 0 <= i < |at| ==> at[i].0 < file
    ensures InOrder(at + Tagged(file, part))
  {
    var at' := at + Tagged(file, part);
    forall i, j | 0 <= i < j < |at'| ensures Before(at'[i], at'[j]) {
      if i >= |at| {
        assert at'[i] == (file, part[i - |at|]) && at'[j] == (file, part[j - |at|]);
      } else if j >= |at| {
        assert at'[j] == (file, part[j - |at|]);
      }
    }
  }

  lemma PlacesNext(list: seq<LogFile>, file: LogFile, checkpoint: int, replayed: seq<W.Entry>, at: seq<(nat, nat)>)
    returns (at': seq<(nat, nat)>)
    requires Places(list, checkpoint, replayed, at)
    ensures Places(list + [file], checkpoint, replayed + Above(file.entries, checkpoint), at')
  {
    AboveFilter(file.entries, checkpoint);
    var es, above := file.entries, Above(file.entries, checkpoint);
    var part: seq<nat> :| Ascending(part) && From(es, above, part) && Hits(es, Later(checkpoint), part);
    at' := at + Tagged(|list|, part);
    TaggedPlaced(list, file, replayed, at, above, part);
    TaggedInOrder(|list|, at, part);
    TaggedAbove(list, file, checkpoint, at, part);
  }

  lemma {:induction false} ReplayPlaces(list: seq<LogFile>, checkpoint: int) returns (at: seq<(nat, nat)>)
    ensures Places(list, checkpoint, ReplayOf(list, checkpoint), at)
  {
    if list == [] {
      at := [];
    } else {
      var init, file := list[..|list| - 1], list[|list| - 1];
      at := ReplayPlaces(init, checkpoint);
      at := PlacesNext(init, file, checkpoint, ReplayOf(init, checkpoint), at);
      assert list == init + [file];
    }
  }

  /** Every request above the checkpoint in a selected file is replayed once, by file and then by place in the file. */
  lemma ReplayedInOrder(fs: seq<LogFile>) returns (at: seq<(nat, nat)>)
    requires exists f :: f in fs && IsOpen(f)
    ensures var list, replayed := Selected(fs), Replayed(fs);
      && |at| == |replayed|
      && (forall i :: 0 <= i < |at| ==>
            && at[i].0 < |list| && at[i].1 < |list[at[i].0].entries|
            && replayed[i] == list[at[i].0].entries[at[i].1])
      && (forall i, j :: 0 <= i < j < |at| ==> at[i].0 < at[j].0 || (at[i].0 == at[j].0 && at[i].1 < at[j].1))
      && forall f: nat, p: nat :: f < |list| && p < |list[f].entries| ==>
           ((f, p) in at <==> LastCheckpoint(fs) < list[f].entries[p].request.sn)
  {
    at := ReplayPlaces(Selected(fs), LastCheckpoint(fs));
  }

  lemma {:induction false} SpanningCount(fs: seq<LogFile>, checkpoint: int, f: LogFile)
    ensures multiset(SpanningFiles(fs, checkpoint))[f] == if Spans(f, checkpoint) then multiset(fs)[f] else 0
  {
    if fs != [] {
      SpanningCount(fs[..|fs| - 1], checkpoint, f);
      assert fs == fs[..|fs| - 1] + [fs[|fs| - 1]];
    }
  }

  /** A file is selected as often as the directory lists it, and of the open ones only the latest, once. */
  lemma SelectedOnce(fs: seq<LogFile>, f: LogFile)
    requires exists g :: g in fs && IsOpen(g)
    ensures multiset(Selected(fs))[f] ==
      if f == LatestOpen(fs) then 1
      else if f.tag.min != -1 && f.tag.min <= LastCheckpoint(fs) <= f.tag.max then multiset(fs)[f]
      else 0
  {
    LatestIsOpen(fs);
    SpanningCount(fs, LastCheckpoint(fs), f);
    var spanning := SpanningFiles(fs, LastCheckpoint(fs));
    assert multiset(spanning + [LatestOpen(fs)])[f] == multiset(spanning)[f] + multiset([LatestOpen(fs)])[f];
  }

  // ----- the loops of the source

  method GetRecoveryFiles(fs: seq<LogFile>) returns (list: seq<LogFile>, checkpoint: int)
    requires exists f :: f in fs && IsOpen(f)
    ensures list == Selected(fs) && checkpoint == LastCheckpoint(fs)
  {
    checkpoint := FindCheckpoint(fs);
    var open, spanning := Classify(fs, checkpoint);
    var latest := Back(open);
    assert latest == LatestOpen(fs);
    list := Sort(spanning + [latest]);
  }

  method FindCheckpoint(fs: seq<LogFile>) returns (checkpoint: int)
    ensures checkpoint == LastCheckpoint(fs)
  {
    checkpoint := 0;
    for i := 0 to |fs|
      invariant checkpoint == LastCheckpoint(fs[..i])
    {
      assert fs[..i + 1][..i] == fs[..i];
      if fs[i].tag.checkpoint > checkpoint {
        checkpoint := fs[i].tag.checkpoint;
      }
    }
    assert fs[..|fs|] == fs;
  }

  method Classify(fs: seq<LogFile>, checkpoint: int) returns (open: seq<LogFile>, spanning: seq<LogFile>)
    ensures open == OpenFiles(fs) && spanning == SpanningFiles(fs, checkpoint)
  {
    open, spanning := [], [];
    for i := 0 to |fs|
      invariant open == OpenFiles(fs[..i]) && spanning == SpanningFiles(fs[..i], checkpoint)
    {
      assert fs[..i + 1][..i] == fs[..i];
      if fs[i].tag.min == -1 {
        open := open + [fs[i]];
      } else if fs[i].tag.min <= checkpoint && fs[i].tag.max >= checkpoint {
        spanning := spanning + [fs[i]];
      }
    }
    assert fs[..|fs|] == fs;
  }

  lemma ReplayOfNext(list: seq<LogFile>, checkpoint: int, i: nat)
    requires i < |list|
    ensures ReplayOf(list[..i + 1], checkpoint) == ReplayOf(list[..i], checkpoint) + Above(list[i].entries, checkpoint)
  {
    assert list[..i + 1][..i] == list[..i];
  }

  method ReadLogs(fs: seq<LogFile>) returns (replayed: seq<W.Entry>)
    requires exists f :: f in fs && IsOpen(f)
    ensures replayed == Replayed(fs)
  {
    var list, checkpoint := GetRecoveryFiles(fs);
    replayed := [];
    for i := 0 to |list|
      invariant replayed == ReplayOf(list[..i], checkpoint)
    {
      ReplayOfNext(list, checkpoint, i);
      var part := ReadOneFile(list[i].entries, checkpoint);
      replayed := replayed + part;
    }
    assert list[..|list|] == list;
  }

  method ReadOneFile(es: seq<W.Entry>, checkpoint: int) returns (above: seq<W.Entry>)
    ensures above == Above(es, checkpoint)
  {
    above := [];
    for i := 0 to |es|
      invariant above == Above(es[..i], checkpoint)
    {
      assert es[..i + 1][..i] == es[..i];
      if checkpoint < es[i].request.sn {
        above := above + [es[i]];
      }
    }
    assert es[..|es|] == es;
  }
}
