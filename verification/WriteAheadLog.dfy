/** The write-ahead log of `Recovery`: nested length-prefixed records, and reading back what a crash left. */
module WriteAheadLog {
  import opened Messages

  newtype byte = x: int | 0 <= x < 256

  type Bytes = seq<byte>

  function Pow256(k: nat): (p: nat)
    ensures p >= 1
  {
    if k == 0 then 1 else 256 * Pow256(k - 1)
  }

  const WORD: nat := 8

  /** The `k` low bytes of a number, least significant first. */
  function LittleEndian(n: nat, k: nat): (b: Bytes)
    ensures |b| == k
  {
    if k == 0 then [] else [(n % 256) as byte] + LittleEndian(n / 256, k - 1)
  }

  function FromLittleEndian(b: Bytes): nat {
    if b == [] then 0 else b[0] as nat + 256 * FromLittleEndian(b[1..])
  }

  /** A number is read back from its bytes, of which the first is the least significant. */
  lemma {:induction false} WordRoundTrip(n: nat, k: nat)
    requires n < Pow256(k)
    ensures FromLittleEndian(LittleEndian(n, k)) == n
    ensures k > 0 ==> LittleEndian(n, k)[0] as nat == n % 256
  {
    if k > 0 {
      WordRoundTrip(n / 256, k - 1);
      assert LittleEndian(n, k)[1..] == LittleEndian(n / 256, k - 1);
    }
  }

  /** A string with its length in front, as both `AppendData` and `Flush` write it. */
  function Frame(data: Bytes): Bytes {
    LittleEndian(|data|, WORD) + data
  }

  predicate Fits(data: Bytes) {
    |data| < Pow256(WORD)
  }

  /** The length word at the front, if there are enough bytes for one. */
  function LengthAt(b: Bytes): nat
    requires |b| >= WORD
  {
    FromLittleEndian(b[..WORD])
  }

  lemma FrameFront(data: Bytes, rest: Bytes)
    requires Fits(data)
    ensures var b := Frame(data) + rest;
      && |b| >= WORD && LengthAt(b) == |data| && WORD + |data| <= |b|
      && b[WORD..WORD + |data|] == data && b[WORD + |data|..] == rest
  {
    var b := Frame(data) + rest;
    assert b[..WORD] == LittleEndian(|data|, WORD);
    WordRoundTrip(|data|, WORD);
  }

  /** Items already found in front of what is found later, if anything is. */
  function Prepend<T>(front: seq<T>, back: Option<seq<T>>): Option<seq<T>> {
    if back.None? then None else Some(front + back.value)
  }

  lemma PrependMore<T>(front: seq<T>, x: T, back: Option<seq<T>>)
    ensures Prepend(front + [x], back) == Prepend(front, Prepend([x], back))
  {
    if back.Some? {
      assert front + [x] + back.value == front + ([x] + back.value);
    }
  }

  /** One round of the parsing loop. */
  lemma TakeItem(items: seq<Bytes>, rest: Bytes)
    requires |rest| >= WORD
    ensures var len := LengthAt(rest);
      Prepend(items, ParseItems(rest)) ==
      if len >= |rest| - WORD then Prepend(items + [rest[WORD..]], ParseItems([]))
      else Prepend(items + [rest[WORD..WORD + len]], ParseItems(rest[WORD + len..]))
  {
    var len := LengthAt(rest);
    if len >= |rest| - WORD {
      PrependMore(items, rest[WORD..], Some([]));
      assert [rest[WORD..]] + [] == [rest[WORD..]];
    } else {
      PrependMore(items, rest[WORD..WORD + len], ParseItems(rest[WORD + len..]));
    }
  }

  lemma PrependEmpty<T>(back: Option<seq<T>>)
    ensures Prepend([], back) == back
  {
    if back.Some? {
      assert [] + back.value == back.value;
    }
  }

  /**
    * `ParseRawData`: split into items. `substr` cuts an item that claims too much; fewer bytes than a length
    * word are read out of bounds by the source, which is `None` here.
    */
  function ParseItems(data: Bytes): Option<seq<Bytes>> {
    if data == [] then Some([])
    else if |data| < WORD then None
    else
      var len := LengthAt(data);
      if len >= |data| - WORD then Some([data[WORD..]])
      else Prepend([data[WORD..WORD + len]], ParseItems(data[WORD + len..]))
  }

  /** A logged request: its sequence number and the rest of it. */
  datatype Logged = Logged(sn: nat, body: Bytes)

  datatype Entry = Entry(request: Logged, signature: string)

  /** Message serialisation, whose parser may refuse. */
  datatype Codec = Codec(
    write: Logged -> Bytes, read: Bytes -> Option<Logged>,
    writeSignature: string -> Bytes, readSignature: Bytes -> Option<string>)

  ghost predicate Faithful(c: Codec) {
    && (forall r :: c.read(c.write(r)) == Some(r))
    && (forall g :: c.readSignature(c.writeSignature(g)) == Some(g))
  }

  /** `ParseData` from item i on: pairs until one does not parse; a lone last item is read out of bounds. */
  function ParsePairs(c: Codec, items: seq<Bytes>): Option<seq<Entry>> {
    if items == [] then Some([])
    else if c.read(items[0]) == None then Some([])
    else if |items| == 1 then None
    else if c.readSignature(items[1]) == None then Some([])
    else
      Prepend([Entry(c.read(items[0]).value, c.readSignature(items[1]).value)], ParsePairs(c, items[2..]))
  }

  function ParseData(c: Codec, data: Bytes): Option<seq<Entry>> {
    match ParseItems(data)
    case None => None
    case Some(items) => ParsePairs(c, items)
  }

  /** The buffer of one `WriteLog`: request and signature, each framed. */
  function Payload(c: Codec, e: Entry): Bytes {
    Frame(c.write(e.request)) + Frame(c.writeSignature(e.signature))
  }

  function Record(c: Codec, e: Entry): Bytes {
    Frame(Payload(c, e))
  }

  /** A record byte by byte: its length, then length and bytes of the request, then those of the signature. */
  lemma RecordLayout(c: Codec, e: Entry)
    ensures var w, g, r := c.write(e.request), c.writeSignature(e.signature), Record(c, e);
      var first, second := 2 * WORD, 3 * WORD + |w|;
      && |r| == second + |g| && r[..WORD] == LittleEndian(|r| - WORD, WORD)
      && r[WORD..first] == LittleEndian(|w|, WORD) && r[first..first + |w|] == w
      && r[first + |w|..second] == LittleEndian(|g|, WORD) && r[second..] == g
  {
    var w, g, r := c.write(e.request), c.writeSignature(e.signature), Record(c, e);
    var a, b, d := LittleEndian(|r| - WORD, WORD), LittleEndian(|w|, WORD), LittleEndian(|g|, WORD);
    assert r == a + b + w + d + g;
  }

  function Records(c: Codec, es: seq<Entry>): Bytes {
    if es == [] then [] else Record(c, es[0]) + Records(c, es[1..])
  }

  /** All lengths fit a 64-bit word. */
  predicate EntryFits(c: Codec, e: Entry) {
    Fits(c.write(e.request)) && Fits(c.writeSignature(e.signature)) && Fits(Payload(c, e))
  }

  predicate AllFit(c: Codec, es: seq<Entry>) {
    forall e :: e in es ==> EntryFits(c, e)
  }

  /** What the record loop of `ReadLogsFromFiles` collects; `Broken` when it reads out of bounds. */
  datatype Log = Entries(es: seq<Entry>) | Broken

  /** Stops at a record that is not all there; a record without entries discards everything read. */
  function ReadRecords(c: Codec, b: Bytes, sofar: seq<Entry>): Log
    decreases |b|
  {
    if |b| < WORD || LengthAt(b) > |b| - WORD then Entries(sofar)
    else
      var len := LengthAt(b);
      match ParseData(c, b[WORD..WORD + len])
      case None => Broken
      case Some(es) => if es == [] then Entries([]) else ReadRecords(c, b[WORD + len..], sofar + es)
  }

  lemma ItemsOfTwo(x: Bytes, y: Bytes)
    requires Fits(x) && Fits(y)
    ensures ParseItems(Frame(x) + Frame(y)) == Some([x, y])
  {
    FrameFront(x, Frame(y));
    FrameFront(y, []);
    assert Frame(y) + [] == Frame(y);
    assert Frame(y)[WORD..] == y;
    assert ParseItems(Frame(y)) == Some([y]);
    assert [x] + [y] == [x, y];
  }

  lemma PayloadRoundTrip(c: Codec, e: Entry)
    requires Faithful(c) && EntryFits(c, e)
    ensures ParseData(c, Payload(c, e)) == Some([e])
  {
    var x, y := c.write(e.request), c.writeSignature(e.signature);
    ItemsOfTwo(x, y);
    var items := [x, y];
    assert items[2..] == [] && ParsePairs(c, items[2..]) == Some([]);
    assert [e] + [] == [e];
    assert ParsePairs(c, items) == Some([e]);
  }

  /** Reading one whole record yields its entry and goes on with the rest. */
  lemma ReadOne(c: Codec, e: Entry, rest: Bytes, sofar: seq<Entry>)
    requires Faithful(c) && EntryFits(c, e)
    ensures ReadRecords(c, Record(c, e) + rest, sofar) == ReadRecords(c, rest, sofar + [e])
  {
    FrameFront(Payload(c, e), rest);
    PayloadRoundTrip(c, e);
  }

  /** A cut record is as good as none. */
  lemma ReadCut(c: Codec, e: Entry, n: nat, sofar: seq<Entry>)
    requires EntryFits(c, e) && n < |Record(c, e)|
    ensures ReadRecords(c, Record(c, e)[..n], sofar) == Entries(sofar)
  {
    var whole := Record(c, e);
    if n >= WORD {
      FrameFront(Payload(c, e), []);
      assert whole + [] == whole;
      assert whole[..n][..WORD] == whole[..WORD];
    }
  }

  lemma RecordsPrefix(c: Codec, es: seq<Entry>, k: nat)
    requires 1 <= k <= |es|
    ensures Records(c, es[..k]) == Record(c, es[0]) + Records(c, es[1..][..k - 1])
  {
    assert es[..k][1..] == es[1..][..k - 1];
  }

  lemma {:induction false} RecordsSplit(c: Codec, es: seq<Entry>, n: nat) returns (k: nat)
    requires n <= |Records(c, es)|
    ensures CompleteAt(c, es, n, k)
  {
    if es == [] {
      k := 0;
    } else if n < |Record(c, es[0])| {
      k := 0;
      RecordsPrefix(c, es, 1);
    } else {
      k := RecordsSplit(c, es[1..], n - |Record(c, es[0])|);
      k := k + 1;
      RecordsPrefix(c, es, k);
      if k < |es| {
        RecordsPrefix(c, es, k + 1);
      }
    }
  }

  /** Exactly the first k records are completely within the first n bytes. */
  ghost predicate CompleteAt(c: Codec, es: seq<Entry>, n: nat, k: nat) {
    k <= |es| && |Records(c, es[..k])| <= n && (k < |es| ==> n < |Records(c, es[..k + 1])|)
  }

  /** One entry less in front leaves the same question about the rest. */
  lemma CompleteRest(c: Codec, es: seq<Entry>, n: nat, k: nat)
    requires es != [] && CompleteAt(c, es, n, k)
    ensures k == 0 <==> n < |Record(c, es[0])|
    ensures k > 0 ==> CompleteAt(c, es[1..], n - |Record(c, es[0])|, k - 1)
  {
    RecordsPrefix(c, es, 1);
    if k > 0 {
      RecordsPrefix(c, es, k);
    }
    if k < |es| {
      RecordsPrefix(c, es, k + 1);
    }
  }

  lemma TakeSplit<T>(a: seq<T>, b: seq<T>, n: nat)
    requires n <= |a + b|
    ensures (a + b)[..n] == if n <= |a| then a[..n] else a + b[..n - |a|]
  {
  }

  lemma MoveOver<T>(sofar: seq<T>, es: seq<T>, k: nat)
    requires 1 <= k <= |es|
    ensures sofar + [es[0]] + es[1..][..k - 1] == sofar + es[..k]
  {
  }

  /** One step of the truncated read: the first record is read whole, the question moves to the rest. */
  lemma ReadTruncatedFirst(c: Codec, es: seq<Entry>, n: nat, sofar: seq<Entry>)
    requires AllFit(c, es) && es != [] && n < |Record(c, es[0])|
    ensures n <= |Records(c, es)| && ReadRecords(c, Records(c, es)[..n], sofar) == Entries(sofar)
  {
    assert es[0] in es;
    TakeSplit(Record(c, es[0]), Records(c, es[1..]), n);
    ReadCut(c, es[0], n, sofar);
  }

  lemma ReadTruncatedStep(c: Codec, es: seq<Entry>, n: nat, sofar: seq<Entry>)
    requires Faithful(c) && AllFit(c, es) && es != [] && |Record(c, es[0])| <= n <= |Records(c, es)|
    ensures ReadRecords(c, Records(c, es)[..n], sofar)
         == ReadRecords(c, Records(c, es[1..])[..n - |Record(c, es[0])|], sofar + [es[0]])
  {
    var first, rest := Record(c, es[0]), Records(c, es[1..]);
    assert es[0] in es;
    TakeSplit(first, rest, n);
    assert n == |first| ==> first[..n] == first + rest[..0];
    ReadOne(c, es[0], rest[..n - |first|], sofar);
  }

  /** Reading the first n bytes of some records gives exactly the entries that are completely there. */
  lemma {:induction false} ReadTruncated(c: Codec, es: seq<Entry>, n: nat, sofar: seq<Entry>, k: nat)
    requires Faithful(c) && AllFit(c, es) && n <= |Records(c, es)| && CompleteAt(c, es, n, k)
    ensures ReadRecords(c, Records(c, es)[..n], sofar) == Entries(sofar + es[..k])
    decreases |es|
  {
    if es == [] {
      assert sofar + es[..k] == sofar;
    } else {
      CompleteRest(c, es, n, k);
      if k == 0 {
        ReadTruncatedFirst(c, es, n, sofar);
        assert sofar + es[..k] == sofar;
      } else {
        ReadTruncatedStep(c, es, n, sofar);
        ReadTruncated(c, es[1..], n - |Record(c, es[0])|, sofar + [es[0]], k - 1);
        MoveOver(sofar, es, k);
      }
    }
  }

  // ----- whole files

  /** The first record of a file: view and primary, in two frames. */
  function Header(info: Bytes): Bytes {
    Frame(Frame(info))
  }

  function FileOf(c: Codec, info: Bytes, es: seq<Entry>): Bytes {
    Header(info) + Records(c, es)
  }

  /** `ReadLogsFromFiles`: no header, or one that does not parse, ends the reading; else the records follow. */
  function ReadFile(c: Codec, parseInfo: Bytes -> bool, b: Bytes): Log {
    if |b| < WORD || LengthAt(b) > |b| - WORD then Entries([])
    else
      var len := LengthAt(b);
      match ParseItems(b[WORD..WORD + len])
      case None => Broken
      case Some(items) =>
        if items == [] || !parseInfo(items[0]) then Entries([]) else ReadRecords(c, b[WORD + len..], [])
  }

  lemma HeaderRead(c: Codec, parseInfo: Bytes -> bool, info: Bytes, rest: Bytes)
    requires Fits(info) && Fits(Frame(info)) && parseInfo(info)
    ensures ReadFile(c, parseInfo, Header(info) + rest) == ReadRecords(c, rest, [])
  {
    FrameFront(Frame(info), rest);
    FrameFront(info, []);
    assert Frame(info) + [] == Frame(info);
  }

  /** Reading back an intact log yields exactly what was logged, in order. */
  lemma RoundTrip(c: Codec, parseInfo: Bytes -> bool, info: Bytes, es: seq<Entry>)
    requires Faithful(c) && AllFit(c, es) && Fits(info) && Fits(Frame(info)) && parseInfo(info)
    ensures ReadFile(c, parseInfo, FileOf(c, info, es)) == Entries(es)
  {
    HeaderRead(c, parseInfo, info, Records(c, es));
    assert es[..|es|] == es && Records(c, es)[..|Records(c, es)|] == Records(c, es);
    ReadTruncated(c, es, |Records(c, es)|, [], |es|);
    assert [] + es == es;
  }

  /**
    * Crash prefix. Whatever length a crash left after the header, reading yields a prefix of what was logged:
    * all entries whose records are completely there, and no other.
    */
  lemma CrashPrefix(c: Codec, parseInfo: Bytes -> bool, info: Bytes, es: seq<Entry>, n: nat) returns (k: nat)
    requires Faithful(c) && AllFit(c, es) && Fits(info) && Fits(Frame(info)) && parseInfo(info)
    requires |Header(info)| <= n <= |FileOf(c, info, es)|
    ensures k <= |es| && ReadFile(c, parseInfo, FileOf(c, info, es)[..n]) == Entries(es[..k])
    ensures |FileOf(c, info, es[..k])| <= n && (k < |es| ==> n < |FileOf(c, info, es[..k + 1])|)
  {
    var m := n - |Header(info)|;
    assert FileOf(c, info, es)[..n] == Header(info) + Records(c, es)[..m];
    HeaderRead(c, parseInfo, info, Records(c, es)[..m]);
    k := RecordsSplit(c, es, m);
    ReadTruncated(c, es, m, [], k);
    assert [] + es[..k] == es[..k];
  }

  // ----- writing on after a crash

  lemma HeadOver<T>(sofar: seq<T>, es: seq<T>)
    requires es != []
    ensures sofar + [es[0]] + es[1..] == sofar + es
  {
  }

  /** A reader that takes a record off the front takes a list of records off the front. */
  lemma {:induction false} Through(c: Codec, read: (Bytes, seq<Entry>) -> Log, es: seq<Entry>, rest: Bytes,
                                   sofar: seq<Entry>)
    requires AllFit(c, es)
    requires forall e, b, s :: EntryFits(c, e) ==> read(Record(c, e) + b, s) == read(b, s + [e])
    ensures read(Records(c, es) + rest, sofar) == read(rest, sofar + es)
    decreases |es|
  {
    if es == [] {
      assert [] + rest == rest && sofar + es == sofar;
    } else {
      assert es[0] in es;
      var more := Records(c, es[1..]) + rest;
      Rejoin(Record(c, es[0]), Records(c, es[1..]), rest);
      assert read(Record(c, es[0]) + more, sofar) == read(more, sofar + [es[0]]);
      Through(c, read, es[1..], rest, sofar + [es[0]]);
      HeadOver(sofar, es);
    }
  }

  /** Whole records are read, whatever follows them. */
  lemma ReadThrough(c: Codec, es: seq<Entry>, rest: Bytes, sofar: seq<Entry>)
    requires Faithful(c) && AllFit(c, es)
    ensures ReadRecords(c, Records(c, es) + rest, sofar) == ReadRecords(c, rest, sofar + es)
  {
    forall e, b, s | EntryFits(c, e) ensures ReadRecords(c, Record(c, e) + b, s) == ReadRecords(c, b, s + [e]) {
      ReadOne(c, e, b, s);
    }
    Through(c, (b: Bytes, s: seq<Entry>) => ReadRecords(c, b, s), es, rest, sofar);
  }

  lemma {:induction false} RecordsJoin(c: Codec, es: seq<Entry>, k: nat)
    requires k <= |es|
    ensures Records(c, es) == Records(c, es[..k]) + Records(c, es[k..])
    decreases k
  {
    if k == 0 {
      assert es[..k] == [] && es[k..] == es && [] + Records(c, es) == Records(c, es);
    } else {
      RecordsJoin(c, es[1..], k - 1);
      RecordsPrefix(c, es, k);
      assert es[1..][k - 1..] == es[k..];
      Rejoin(Record(c, es[0]), Records(c, es[1..][..k - 1]), Records(c, es[k..]));
    }
  }

  /** A file cut j bytes behind its first k records, and written on. */
  lemma CutFile(c: Codec, info: Bytes, es: seq<Entry>, k: nat, j: nat, more: Bytes)
    requires k <= |es| && j <= |Records(c, es[k..])|
    ensures var n := |FileOf(c, info, es[..k])| + j;
      && n <= |FileOf(c, info, es)|
      && FileOf(c, info, es)[..n] + more == Header(info) + (Records(c, es[..k]) + (Records(c, es[k..])[..j] + more))
  {
    RecordsJoin(c, es, k);
    var kept, rest := Records(c, es[..k]), Records(c, es[k..]);
    assert (Header(info) + (kept + rest))[..|Header(info) + kept| + j] == Header(info) + (kept + rest[..j]);
    Rejoin(Header(info), kept + rest[..j], more);
    Rejoin(kept, rest[..j], more);
  }

  /** A file that starts with whole records is read as those records and what follows them. */
  lemma ReadKept(c: Codec, parseInfo: Bytes -> bool, info: Bytes, es: seq<Entry>, rest: Bytes)
    requires Faithful(c) && AllFit(c, es) && Fits(info) && Fits(Frame(info)) && parseInfo(info)
    ensures ReadFile(c, parseInfo, Header(info) + (Records(c, es) + rest)) == ReadRecords(c, rest, es)
  {
    HeaderRead(c, parseInfo, info, Records(c, es) + rest);
    ReadThrough(c, es, rest, []);
    assert [] + es == es;
  }

  /** Cut at a record boundary, the log goes on as if nothing was lost: the old entries and the new are read back. */
  lemma AppendAtBoundary(c: Codec, parseInfo: Bytes -> bool, info: Bytes, es: seq<Entry>, k: nat, more: seq<Entry>)
    requires Faithful(c) && AllFit(c, es) && AllFit(c, more) && Fits(info) && Fits(Frame(info)) && parseInfo(info)
    requires k <= |es|
    ensures var n := |FileOf(c, info, es[..k])|;
      && n <= |FileOf(c, info, es)|
      && ReadFile(c, parseInfo, FileOf(c, info, es)[..n] + Records(c, more)) == Entries(es[..k] + more)
  {
    CutFile(c, info, es, k, 0, Records(c, more));
    assert Records(c, es[k..])[..0] + Records(c, more) == Records(c, more);
    ReadKept(c, parseInfo, info, es[..k], Records(c, more));
    ReadThrough(c, more, [], es[..k]);
    assert Records(c, more) + [] == Records(c, more);
  }

  /**
    * Cut inside a record, j bytes behind its start, and written on. The rest of the torn record and the new records
    * are read as one: of its own length if the length word was complete, otherwise of a length that is partly the new
    * records' own. While they do not fill it none of them is read; then what fills it is parsed, and if that fails
    * the whole file is given up, if it yields nothing even the old entries are dropped, and otherwise reading goes on
    * behind it, wherever that is in the new records.
    */
  lemma TornReads(c: Codec, parseInfo: Bytes -> bool, info: Bytes, es: seq<Entry>, k: nat, j: nat, more: Bytes)
    requires Faithful(c) && AllFit(c, es) && Fits(info) && Fits(Frame(info)) && parseInfo(info)
    requires k < |es| && 0 < j < |Record(c, es[k])|
    ensures var n, b := |FileOf(c, info, es[..k])| + j, Record(c, es[k])[..j] + more;
      && n < |FileOf(c, info, es)|
      && (j >= WORD ==> LengthAt(b) == |Payload(c, es[k])|)
      && var read := ReadFile(c, parseInfo, FileOf(c, info, es)[..n] + more);
      if |b| < WORD || LengthAt(b) > |b| - WORD then read == Entries(es[..k])
      else
        var end := WORD + LengthAt(b);
        var parsed := ParseData(c, b[WORD..end]);
        if parsed == None then read == Broken
        else if parsed.value == [] then read == Entries([])
        else read == ReadRecords(c, b[end..], es[..k] + parsed.value)
  {
    assert es[k..][0] == es[k] && es[k] in es;
    TornFront(c, es[k..], j);
    CutFile(c, info, es, k, j, more);
    CutFile(c, info, es, k, j + 1, []);
    ReadKept(c, parseInfo, info, es[..k], Record(c, es[k])[..j] + more);
    if j >= WORD {
      TornLength(c, es[k], j, more);
    }
  }

  /** In particular, behind a complete length word, records that do not fill the torn one are not read. */
  lemma TornHidesAppended(c: Codec, parseInfo: Bytes -> bool, info: Bytes, es: seq<Entry>, k: nat, j: nat,
                          more: seq<Entry>)
    requires Faithful(c) && AllFit(c, es) && Fits(info) && Fits(Frame(info)) && parseInfo(info)
    requires k < |es| && WORD <= j && j + |Records(c, more)| < |Record(c, es[k])|
    ensures var n := |FileOf(c, info, es[..k])| + j;
      && n < |FileOf(c, info, es)|
      && ReadFile(c, parseInfo, FileOf(c, info, es)[..n] + Records(c, more)) == Entries(es[..k])
  {
    TornReads(c, parseInfo, info, es, k, j, Records(c, more));
  }

  lemma TornFront(c: Codec, es: seq<Entry>, j: nat)
    requires es != [] && j < |Record(c, es[0])|
    ensures j < |Records(c, es)| && Records(c, es)[..j] == Record(c, es[0])[..j]
  {
  }

  lemma TornLength(c: Codec, e: Entry, j: nat, rest: Bytes)
    requires EntryFits(c, e) && WORD <= j <= |Record(c, e)|
    ensures LengthAt(Record(c, e)[..j] + rest) == |Payload(c, e)|
  {
    var whole, b := Record(c, e), Record(c, e)[..j] + rest;
    FrameFront(Payload(c, e), []);
    assert whole + [] == whole;
    assert b[..WORD] == whole[..WORD];
  }

  // ----- the writer and the reader

  /** The smallest sequence number logged, -1 if none. */
  function MinLabel(es: seq<Entry>): int {
    if es == [] then -1
    else
      var before, sn := MinLabel(es[..|es| - 1]), es[|es| - 1].request.sn;
      if before == -1 || sn < before then sn else before
  }

  /** The greatest sequence number logged, -1 if none. */
  function MaxLabel(es: seq<Entry>): int {
    if es == [] then -1
    else
      var before, sn := MaxLabel(es[..|es| - 1]), es[|es| - 1].request.sn;
      if sn > before then sn else before
  }

  /** The labels are the least and the greatest number logged. */
  lemma {:induction false} LabelsExact(es: seq<Entry>)
    requires es != []
    ensures forall e :: e in es ==> MinLabel(es) <= e.request.sn <= MaxLabel(es)
    ensures exists e :: e in es && e.request.sn == MinLabel(es)
    ensures exists e :: e in es && e.request.sn == MaxLabel(es)
  {
    var init, last := es[..|es| - 1], es[|es| - 1];
    assert es == init + [last];
    assert last in es;
    if init != [] {
      LabelsExact(init);
      var low :| low in init && low.request.sn == MinLabel(init);
      var high :| high in init && high.request.sn == MaxLabel(init);
      assert low in es && high in es;
    }
  }

  lemma Rejoin<T>(a: seq<T>, b: seq<T>, c: seq<T>)
    ensures a + (b + c) == (a + b) + c
  {
  }

  lemma {:induction false} RecordsAppend(c: Codec, es: seq<Entry>, e: Entry)
    ensures Records(c, es + [e]) == Records(c, es) + Record(c, e)
  {
    if es == [] {
      assert es + [e] == [e] && [e][1..] == [];
    } else {
      RecordsAppend(c, es[1..], e);
      assert (es + [e])[1..] == es[1..] + [e] && (es + [e])[0] == es[0];
      Rejoin(Record(c, es[0]), Records(c, es[1..]), Record(c, e));
    }
  }

  lemma EmptyLog(c: Codec, info: Bytes)
    ensures FileOf(c, info, []) == [] + Frame(Frame(info)) && Frame(info) != []
    ensures MinLabel([]) == -1 && MaxLabel([]) == -1
  {
  }

  lemma PayloadIs(c: Codec, e: Entry)
    ensures [] + Frame(c.write(e.request)) + Frame(c.writeSignature(e.signature)) == Payload(c, e) != []
  {
  }

  lemma LogAppend(c: Codec, info: Bytes, es: seq<Entry>, e: Entry)
    ensures FileOf(c, info, es + [e]) == FileOf(c, info, es) + Record(c, e)
    ensures MinLabel(es + [e]) ==
      if MinLabel(es) == -1 || e.request.sn < MinLabel(es) then e.request.sn else MinLabel(es)
    ensures MaxLabel(es + [e]) == if e.request.sn > MaxLabel(es) then e.request.sn else MaxLabel(es)
  {
    RecordsAppend(c, es, e);
    assert (es + [e])[..|es|] == es;
    assert Header(info) + (Records(c, es) + Record(c, e)) == Header(info) + Records(c, es) + Record(c, e);
  }

  class Recovery {
    const codec: Codec
    var buffer: Bytes
    var file: Bytes
    var minSeq: int
    var maxSeq: int
    ghost const info: Bytes
    ghost var logged: seq<Entry>

    /** The file holds the header and everything logged; the labels are exact. */
    ghost predicate Valid()
      reads this
    {
      && buffer == [] && file == FileOf(codec, info, logged)
      && minSeq == MinLabel(logged) && maxSeq == MaxLabel(logged)
    }

    /** `OpenFile` on an empty file: only the system information is written. */
    constructor (codec: Codec, info: Bytes)
      ensures Valid() && logged == [] && this.codec == codec && this.info == info
    {
      this.codec, this.info, logged := codec, info, [];
      buffer, file, minSeq, maxSeq := [], [], -1, -1;
      new;
      AppendData(info);
      assert buffer == Frame(info);
      Flush();
      EmptyLog(codec, info);
    }

    method AppendData(data: Bytes)
      modifies this`buffer
      ensures buffer == old(buffer) + Frame(data)
    {
      buffer := buffer + LittleEndian(|data|, WORD);
      buffer := buffer + data;
    }

    method Flush()
      modifies this`buffer, this`file
      ensures buffer == []
      ensures file == old(file) + if old(buffer) == [] then [] else Frame(old(buffer))
    {
      if |buffer| == 0 {
        return;
      }
      file := file + LittleEndian(|buffer|, WORD);
      file := file + buffer;
      buffer := [];
    }

    method WriteLog(e: Entry)
      requires Valid()
      modifies this
      ensures Valid() && logged == old(logged) + [e]
    {
      var sn := e.request.sn;
      minSeq := if minSeq == -1 || sn < minSeq then sn else minSeq;
      maxSeq := if sn > maxSeq then sn else maxSeq;
      AppendData(codec.write(e.request));
      AppendData(codec.writeSignature(e.signature));
      PayloadIs(codec, e);
      Flush();
      assert file == old(file) + Record(codec, e);
      LogAppend(codec, info, logged, e);
      logged := logged + [e];
    }

    method ParseRawData(data: Bytes) returns (r: Option<seq<Bytes>>)
      ensures r == ParseItems(data)
    {
      var pos, items, rest := 0, [], data;
      ghost var whole := ParseItems(data);
      PrependEmpty(whole);
      while pos < |data|
        invariant 0 <= pos <= |data| && rest == data[pos..]
        invariant Prepend(items, ParseItems(rest)) == whole
        decreases |data| - pos
      {
        if |rest| < WORD {
          return None;
        }
        TakeItem(items, rest);
        var len := LengthAt(rest);
        if len >= |rest| - WORD {
          items, pos, rest := items + [rest[WORD..]], |data|, [];
        } else {
          items, pos, rest := items + [rest[WORD..WORD + len]], pos + WORD + len, rest[WORD + len..];
        }
      }
      assert items + [] == items;
      return Some(items);
    }

    method ParseEntries(data: Bytes) returns (r: Option<seq<Entry>>)
      ensures r == ParseData(codec, data)
    {
      var parsed := ParseRawData(data);
      if parsed == None {
        return None;
      }
      var items, es, i := parsed.value, [], 0;
      assert items[0..] == items;
      PrependEmpty(ParsePairs(codec, items));
      while i < |items|
        invariant 0 <= i <= |items|
        invariant Prepend(es, ParsePairs(codec, items[i..])) == ParsePairs(codec, items)
        decreases |items| - i
      {
        var request := codec.read(items[i]);
        if request == None {
          break;
        }
        if i + 1 == |items| {
          return None;
        }
        var signature := codec.readSignature(items[i + 1]);
        if signature == None {
          break;
        }
        assert items[i..][2..] == items[i + 2..];
        PrependMore(es, Entry(request.value, signature.value), ParsePairs(codec, items[i + 2..]));
        es := es + [Entry(request.value, signature.value)];
        i := i + 2;
      }
      assert es + [] == es;
      return Some(es);
    }

    /** The record loop; `None` where the source would read out of bounds. */
    method ReadRequests(b: Bytes) returns (log: Log)
      ensures log == ReadRecords(codec, b, [])
    {
      var rest, es := b, [];
      while |rest| >= WORD
        invariant ReadRecords(codec, rest, es) == ReadRecords(codec, b, [])
        decreases |rest|
      {
        var len := LengthAt(rest);
        if len > |rest| - WORD {
          break;
        }
        var list := ParseEntries(rest[WORD..WORD + len]);
        if list == None {
          return Broken;
        }
        if |list.value| == 0 {
          return Entries([]);
        }
        es := es + list.value;
        rest := rest[WORD + len..];
      }
      return Entries(es);
    }

    method ReadLogsFromFile(b: Bytes, parseInfo: Bytes -> bool) returns (log: Log)
      ensures log == ReadFile(codec, parseInfo, b)
    {
      if |b| < WORD || LengthAt(b) > |b| - WORD {
        return Entries([]);
      }
      var len := LengthAt(b);
      var items := ParseRawData(b[WORD..WORD + len]);
      if items == None {
        return Broken;
      }
      if |items.value| == 0 || !parseInfo(items.value[0]) {
        return Entries([]);
      }
      log := ReadRequests(b[WORD + len..]);
    }
  }
}
