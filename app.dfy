/** The main screen (App.tsx): the date field's string form, the archive of
    past echoes kept in `localStorage`, and the deep-scan pipeline that
    drives the providers through the loading states.

    The pure parts come first (date string, index transforms, what each
    archive operation does to the index and the store, what a scan run
    produces); the class `MainApp` then holds the component's state and
    changes it step by step the way the handlers do. */
module App {
  import opened Types
  import opened Text
  import opened DateUtils
  import opened GeminiService
  import InspirationCard

  const HISTORY_INDEX_KEY := "divine_echo_index_v6"
  const HISTORY_ITEM_PREFIX := "divine_echo_item_v6_"
  const AUTHOR_KEY := "divine_echo_author_name_v6"
  const DEFAULT_AUTHOR := "Awaiting Soul"
  const MAX_HISTORY_ITEMS := 50
  const ARCHIVE_FULL := "Archive capacity reached. Please clear old echoes."
  const FRAGMENT_LOST := "This archival fragment is lost."
  const LINK_SEVERED := "Archive link severed."
  const SCAN_COUNT := 20
  const ASPECT_RATIO := "3:4"
  /** The message of the TypeError thrown when the content prompt reads
      `selectedEvent.title` of an empty recommendation list (V8's wording). */
  const UNDEFINED_TITLE := "Cannot read properties of undefined (reading 'title')"

  // ---------------------------------------------------------------------
  // The date field

  /** `getLocalDateString` for the clock's local year, zero-based month and
      day of the month. */
  function LocalDateString(year: int, monthIndex: int, date: int): (s: string)
    requires 0 <= monthIndex < 12 && 1 <= date <= 31
    ensures |s| == |IntToString(year)| + 6
    ensures s[..|IntToString(year)|] == IntToString(year)
    ensures s[|s| - 6] == '-' && s[|s| - 3] == '-'
  {
    TwoDigits(monthIndex + 1);
    TwoDigits(date);
    IntToString(year) + "-" + PadStart(NatToString(monthIndex + 1), 2, '0') +
      "-" + PadStart(NatToString(date), 2, '0')
  }

  /** A month or a day is written with exactly two digits. */
  lemma TwoDigits(n: nat)
    requires n < 100
    ensures |PadStart(NatToString(n), 2, '0')| == 2
  {
    if n >= 10 {
      assert n / 10 < 10;
      assert |NatToString(n / 10)| == 1;
      assert |NatToString(n)| == 2;
    }
  }

  /** `selectedDate.split('-').map(Number)` taken as `[year, month, day]`;
      `None` when one of the three is missing or `NaN`. */
  function DateParts(s: string): (r: Option<(int, int, int)>)
    ensures r.Some? ==> (|Split(s, '-')| >= 3 &&
      JsNumber(Split(s, '-')[0]) == Some(r.value.0) &&
      JsNumber(Split(s, '-')[1]) == Some(r.value.1) &&
      JsNumber(Split(s, '-')[2]) == Some(r.value.2))
    ensures r.None? <==> (|Split(s, '-')| < 3 || JsNumber(Split(s, '-')[0]).None? ||
      JsNumber(Split(s, '-')[1]).None? || JsNumber(Split(s, '-')[2]).None?)
  {
    var parts := Split(s, '-');
    if |parts| < 3 then None
    else
      match (JsNumber(parts[0]), JsNumber(parts[1]), JsNumber(parts[2]))
      case (Some(y), Some(m), Some(d)) => Some((y, m, d))
      case _ => None
  }

  lemma PaddedDigits(n: nat)
    ensures var p := PadStart(NatToString(n), 2, '0');
      |p| >= 2 && AllDigits(p) && '-' !in p && JsNumber(p) == Some(n)
  {
    var s := NatToString(n);
    var p := PadStart(s, 2, '0');
    forall i | 0 <= i < |p| ensures IsDigit(p[i]) {
      if i >= |p| - |s| {
        assert p[i] == p[|p| - |s|..][i - (|p| - |s|)];
      }
    }
    DigitsExclude(p, '-');
    PadTwoRoundTrip(n);
  }

  /** Splitting the string `getLocalDateString` builds gives back the
      year, the month (one-based) and the day. */
  lemma LocalDateRoundTrip(year: int, monthIndex: int, date: int)
    requires year >= 0 && 0 <= monthIndex < 12 && 1 <= date <= 31
    ensures DateParts(LocalDateString(year, monthIndex, date)) == Some((year, monthIndex + 1, date))
  {
    var y := IntToString(year);
    var m := PadStart(NatToString(monthIndex + 1), 2, '0');
    var d := PadStart(NatToString(date), 2, '0');
    DigitsExclude(y, '-');
    PaddedDigits(monthIndex + 1);
    PaddedDigits(date);
    IntToStringRoundTrip(year);
    SplitThree(y, m, d);
  }

  /** Three dash-free pieces joined with dashes split back into those pieces. */
  lemma SplitThree(y: string, m: string, d: string)
    requires '-' !in y && '-' !in m && '-' !in d
    ensures Split(y + "-" + m + "-" + d, '-') == [y, m, d]
  {
    assert y + "-" + m + "-" + d == y + ['-'] + (m + ['-'] + d);
    SplitAtFirstSeparator(y, '-', m + ['-'] + d);
    SplitAtFirstSeparator(m, '-', d);
    SplitWithoutSeparator(d, '-');
  }

  /** The year `new Date(year, month - 1, day)` lands in: JavaScript reads
      the years 0 to 99 as 1900 to 1999. */
  function JsDateYear(y: int): int {
    if 0 <= y <= 99 then 1900 + y else y
  }

  /** The memoised `dayInfo`: the day indexer applied to the selected date,
      or `None` where the source would build an invalid or rolled-over
      `Date`. */
  function DayInfoOf(selectedDate: string, dateLabel: string, fullDateLabel: string): (info: Option<DayInfo>)
    ensures info.Some? ==> DateParts(selectedDate).Some?
    ensures info.Some? ==> (1 <= info.value.current <= info.value.total &&
      (info.value.total == 365 || info.value.total == 366) &&
      info.value.dateString == dateLabel && info.value.fullDateString == fullDateLabel)
  {
    match DateParts(selectedDate)
    case None => None
    case Some((y, m, d)) =>
      var date := Date(JsDateYear(y), m, d);
      if ValidDate(date) then Some(GetDayOfYearInfo(date, dateLabel, fullDateLabel)) else None
  }

  /** The initial date field of a valid local date from year 100 on gives
      the ordinal of that very date. */
  lemma TodayDayInfo(year: int, monthIndex: int, date: int, dateLabel: string, fullDateLabel: string)
    requires year >= 100 && 0 <= monthIndex < 12 && ValidDate(Date(year, monthIndex + 1, date))
    ensures DayInfoOf(LocalDateString(year, monthIndex, date), dateLabel, fullDateLabel) ==
      Some(GetDayOfYearInfo(Date(year, monthIndex + 1, date), dateLabel, fullDateLabel))
    ensures DayInfoOf(LocalDateString(year, monthIndex, date), dateLabel, fullDateLabel).value.current ==
      DayOfYear(Date(year, monthIndex + 1, date))
  {
    LocalDateRoundTrip(year, monthIndex, date);
  }

  // ---------------------------------------------------------------------
  // The history index

  /** The lightweight index record of a stored echo. */
  datatype HistoryMetadata = HistoryMetadata(
    id: string,
    eventTitle: string,
    dateString: string,
    imageUrl: Option<string>,
    timestamp: int)

  /** `s.slice(0, n)`. */
  function Truncate<T>(s: seq<T>, n: nat): (r: seq<T>)
    ensures |r| == if |s| <= n then |s| else n
    ensures r == s[..|r|]
  {
    if |s| <= n then s else s[..n]
  }

  /** `[m, ...index].slice(0, MAX_HISTORY_ITEMS)`. */
  function Prepend(m: HistoryMetadata, index: seq<HistoryMetadata>): (r: seq<HistoryMetadata>)
    ensures 1 <= |r| <= MAX_HISTORY_ITEMS && r[0] == m
    ensures |r| == if |index| < MAX_HISTORY_ITEMS then |index| + 1 else MAX_HISTORY_ITEMS
  {
    Truncate([m] + index, MAX_HISTORY_ITEMS)
  }

  /** A save puts the new entry first and keeps the old entries, in order,
      as far as the bound allows. */
  lemma PrependShape(m: HistoryMetadata, index: seq<HistoryMetadata>)
    ensures var r := Prepend(m, index);
      |r| == (if |index| < MAX_HISTORY_ITEMS then |index| + 1 else MAX_HISTORY_ITEMS) &&
      r[0] == m && r[1..] == index[..|r| - 1]
  {
    var r := Prepend(m, index);
    assert r[1..] == ([m] + index)[1..|r|];
    assert ([m] + index)[1..|r|] == index[..|r| - 1];
  }

  /** `index.filter(m => m.id !== id)`. */
  function WithoutId(index: seq<HistoryMetadata>, id: string): (r: seq<HistoryMetadata>)
    ensures |r| <= |index|
    ensures forall j :: 0 <= j < |r| ==> r[j].id != id
  {
    if |index| == 0 then []
    else if index[0].id != id then [index[0]] + WithoutId(index[1..], id)
    else WithoutId(index[1..], id)
  }

  /** The filter keeps exactly the entries with another id. */
  lemma {:induction false} WithoutIdMembers(index: seq<HistoryMetadata>, id: string)
    ensures forall m :: m in WithoutId(index, id) <==> m in index && m.id != id
  {
    if |index| > 0 {
      WithoutIdMembers(index[1..], id);
      assert forall m :: m in index <==> m == index[0] || m in index[1..];
    }
  }

  /** The filter keeps order: filtering a concatenation filters each part. */
  lemma {:induction false} WithoutIdConcat(a: seq<HistoryMetadata>, b: seq<HistoryMetadata>, id: string)
    ensures WithoutId(a + b, id) == WithoutId(a, id) + WithoutId(b, id)
  {
    if |a| > 0 {
      assert (a + b)[1..] == a[1..] + b;
      WithoutIdConcat(a[1..], b, id);
    } else {
      assert a + b == b;
    }
  }

  /** Deleting an id that is not in the index changes nothing, and only then. */
  lemma {:induction false} WithoutAbsentId(index: seq<HistoryMetadata>, id: string)
    ensures WithoutId(index, id) == index <==> forall j :: 0 <= j < |index| ==> index[j].id != id
  {
    if |index| > 0 {
      WithoutAbsentId(index[1..], id);
      assert [index[0]] + index[1..] == index;
      assert forall j :: 1 <= j < |index| ==> index[j] == index[1..][j - 1];
    }
  }

  /** Deleting the same id twice is deleting it once. */
  lemma {:induction false} WithoutIdIdempotent(index: seq<HistoryMetadata>, id: string)
    ensures WithoutId(WithoutId(index, id), id) == WithoutId(index, id)
  {
    if |index| > 0 {
      WithoutIdIdempotent(index[1..], id);
      if index[0].id != id {
        assert ([index[0]] + WithoutId(index[1..], id))[1..] == WithoutId(index[1..], id);
      }
    }
  }

  /** Saving entries one after another, each to the front. */
  function SaveAll(index: seq<HistoryMetadata>, entries: seq<HistoryMetadata>): seq<HistoryMetadata>
    decreases |entries|
  {
    if |entries| == 0 then index else SaveAll(Prepend(entries[0], index), entries[1..])
  }

  function Reversed<T>(s: seq<T>): (r: seq<T>)
    ensures |r| == |s|
  {
    if |s| == 0 then [] else Reversed(s[1..]) + [s[0]]
  }

  lemma TruncateAfterPrefix<T>(a: seq<T>, b: seq<T>, n: nat)
    ensures Truncate(a + Truncate(b, n), n) == Truncate(a + b, n)
  {
    if |b| > n {
      var l := if |a| + n <= n then |a| + n else n;
      assert (a + b[..n])[..l] == (a + b)[..l];
    }
  }

  /** Successive saves keep the newest entries, newest first, up to the
      bound; older ones fall off the end. */
  lemma {:induction false} SaveAllKeepsNewest(index: seq<HistoryMetadata>, entries: seq<HistoryMetadata>)
    requires |index| <= MAX_HISTORY_ITEMS
    ensures SaveAll(index, entries) == Truncate(Reversed(entries) + index, MAX_HISTORY_ITEMS)
    decreases |entries|
  {
    if |entries| > 0 {
      var e := entries[0];
      PrependShape(e, index);
      SaveAllKeepsNewest(Prepend(e, index), entries[1..]);
      TruncateAfterPrefix(Reversed(entries[1..]), [e] + index, MAX_HISTORY_ITEMS);
      assert Reversed(entries[1..]) + ([e] + index) == Reversed(entries) + index;
    } else {
      assert Reversed(entries) + index == index;
    }
  }

  /** Sixty saves into an empty index leave exactly the fifty newest. */
  lemma SixtySavesKeepFifty(entries: seq<HistoryMetadata>)
    requires |entries| == 60
    ensures |SaveAll([], entries)| == 50
    ensures SaveAll([], entries) == Reversed(entries)[..50]
  {
    SaveAllKeepsNewest([], entries);
    assert Reversed(entries) + [] == Reversed(entries);
  }

  // ---------------------------------------------------------------------
  // The archive: the index in memory and the key-value store

  /** `JSON.stringify` and `JSON.parse` for the two kinds of stored value;
      a decoder answers `None` where `JSON.parse` throws. */
  datatype Codec = Codec(
    encodeItem: InspirationData -> string,
    decodeItem: string -> Option<InspirationData>,
    encodeIndex: seq<HistoryMetadata> -> string,
    decodeIndex: string -> Option<seq<HistoryMetadata>>)

  /** The index codec reads back what it writes, and never writes "". */
  ghost predicate IndexRoundTrips(c: Codec) {
    forall ix :: c.decodeIndex(c.encodeIndex(ix)) == Some(ix) && c.encodeIndex(ix) != ""
  }

  datatype Archive = Archive(index: seq<HistoryMetadata>, storage: map<string, string>)

  function ItemKey(id: string): string {
    HISTORY_ITEM_PREFIX + id
  }

  /** No item key is the index key, and distinct ids have distinct keys. */
  lemma ItemKeys(id: string, other: string)
    ensures ItemKey(id) != HISTORY_INDEX_KEY
    ensures id != other ==> ItemKey(id) != ItemKey(other)
  {
    assert ItemKey(id)[13] == 't' && HISTORY_INDEX_KEY[13] == 'n';
    if id != other {
      assert ItemKey(id)[|HISTORY_ITEM_PREFIX|..] == id;
      assert ItemKey(other)[|HISTORY_ITEM_PREFIX|..] == other;
    }
  }

  /** `` `echo_${Date.now()}` ``. */
  function EchoId(now: int): string {
    "echo_" + IntToString(now)
  }

  function MetadataFor(item: InspirationData, id: string, timestamp: int): HistoryMetadata {
    HistoryMetadata(id, item.eventTitle, item.dateString, item.imageUrl, timestamp)
  }

  /** The effect of `saveToHistory`: the new archive and whether the quota
      error was reported. `itemWriteOk` and `indexWriteOk` say whether the
      two `setItem` calls succeed. */
  datatype SaveResult = SaveResult(archive: Archive, quotaError: bool)

  function SaveEcho(
    a: Archive, item: InspirationData, idTime: int, timestamp: int,
    itemWriteOk: bool, indexWriteOk: bool, codec: Codec): (r: SaveResult)
    ensures r.quotaError <==> !itemWriteOk || !indexWriteOk
    ensures !itemWriteOk ==> r.archive == a
    ensures itemWriteOk ==> (
      1 <= |r.archive.index| <= MAX_HISTORY_ITEMS &&
      r.archive.index[0] == MetadataFor(item, EchoId(idTime), timestamp) &&
      ItemKey(EchoId(idTime)) in r.archive.storage &&
      r.archive.storage[ItemKey(EchoId(idTime))] == codec.encodeItem(item) &&
      a.storage.Keys <= r.archive.storage.Keys)
    ensures itemWriteOk && indexWriteOk ==> (
      HISTORY_INDEX_KEY in r.archive.storage &&
      r.archive.storage[HISTORY_INDEX_KEY] == codec.encodeIndex(r.archive.index))
    ensures itemWriteOk ==> forall k :: ((k in a.storage && k != ItemKey(EchoId(idTime)) &&
      k != HISTORY_INDEX_KEY) ==> r.archive.storage[k] == a.storage[k])
    ensures itemWriteOk && !indexWriteOk ==> (
      (HISTORY_INDEX_KEY in r.archive.storage <==> HISTORY_INDEX_KEY in a.storage) &&
      (HISTORY_INDEX_KEY in a.storage ==> r.archive.storage[HISTORY_INDEX_KEY] == a.storage[HISTORY_INDEX_KEY]))
    ensures r.archive.storage.Keys <= a.storage.Keys + {ItemKey(EchoId(idTime)), HISTORY_INDEX_KEY}
  {
    ItemKeys(EchoId(idTime), EchoId(idTime));
    var id := EchoId(idTime);
    if !itemWriteOk then SaveResult(a, true)
    else
      var stored := a.storage[ItemKey(id) := codec.encodeItem(item)];
      var index := Prepend(MetadataFor(item, id, timestamp), a.index);
      if indexWriteOk then SaveResult(Archive(index, stored[HISTORY_INDEX_KEY := codec.encodeIndex(index)]), false)
      else SaveResult(Archive(index, stored), true)
  }

  /** The effect of `deleteFromHistory`. If writing the shorter index throws,
      the in-memory index is already filtered and the blob stays. */
  function DeleteEcho(a: Archive, id: string, indexWriteOk: bool, codec: Codec): (b: Archive)
    ensures b.index == WithoutId(a.index, id)
    ensures !indexWriteOk ==> b.storage == a.storage
    ensures indexWriteOk ==> (
      ItemKey(id) !in b.storage &&
      HISTORY_INDEX_KEY in b.storage && b.storage[HISTORY_INDEX_KEY] == codec.encodeIndex(b.index) &&
      forall k :: k in a.storage && k != ItemKey(id) && k != HISTORY_INDEX_KEY ==>
        k in b.storage && b.storage[k] == a.storage[k])
    ensures indexWriteOk ==> b.storage.Keys <= a.storage.Keys + {HISTORY_INDEX_KEY}
  {
    ItemKeys(id, id);
    var index := WithoutId(a.index, id);
    if indexWriteOk then Archive(index, a.storage[HISTORY_INDEX_KEY := codec.encodeIndex(index)] - {ItemKey(id)})
    else Archive(index, a.storage)
  }

  /** What `loadFromHistory` finds under an id. */
  datatype LoadResult = Restored(data: InspirationData) | Missing | Lost

  function LoadEcho(storage: map<string, string>, id: string, codec: Codec): (r: LoadResult)
    ensures r == Missing <==> ItemKey(id) !in storage || storage[ItemKey(id)] == ""
    ensures r.Restored? ==> codec.decodeItem(storage[ItemKey(id)]) == Some(r.data)
    ensures r == Lost <==> (ItemKey(id) in storage && storage[ItemKey(id)] != "" &&
      codec.decodeItem(storage[ItemKey(id)]).None?)
  {
    var key := ItemKey(id);
    if key !in storage || storage[key] == "" then Missing
    else
      match codec.decodeItem(storage[key])
      case None => Lost
      case Some(d) => Restored(d)
  }

  /** The index read back at start-up; `None` leaves the empty index. */
  function StoredIndex(storage: map<string, string>, codec: Codec): (r: Option<seq<HistoryMetadata>>)
    ensures r.Some? ==> (HISTORY_INDEX_KEY in storage && storage[HISTORY_INDEX_KEY] != "" &&
      codec.decodeIndex(storage[HISTORY_INDEX_KEY]) == r)
    ensures HISTORY_INDEX_KEY !in storage ==> r.None?
  {
    if HISTORY_INDEX_KEY !in storage || storage[HISTORY_INDEX_KEY] == "" then None
    else codec.decodeIndex(storage[HISTORY_INDEX_KEY])
  }

  /** A successful save puts the new entry at the head of the index, keeps
      the old entries in order behind it and stays within the bound. */
  lemma SaveHeadsIndex(
    a: Archive, item: InspirationData, idTime: int, timestamp: int, indexWriteOk: bool, codec: Codec)
    ensures var r := SaveEcho(a, item, idTime, timestamp, true, indexWriteOk, codec);
      var n := |r.archive.index|;
      n <= MAX_HISTORY_ITEMS && n >= 1 &&
      r.archive.index[0] == MetadataFor(item, EchoId(idTime), timestamp) &&
      r.archive.index[1..] == a.index[..n - 1] &&
      r.quotaError == !indexWriteOk
  {
    PrependShape(MetadataFor(item, EchoId(idTime), timestamp), a.index);
  }

  /** When writing the item throws, nothing changes but the reported error. */
  lemma QuotaLeavesArchive(a: Archive, item: InspirationData, idTime: int, timestamp: int, indexWriteOk: bool, codec: Codec)
    ensures SaveEcho(a, item, idTime, timestamp, false, indexWriteOk, codec) == SaveResult(a, true)
  {
  }

  /** An echo saved with its blob written loads back as itself, whether or
      not the index write then succeeds. */
  lemma SaveThenLoad(
    a: Archive, item: InspirationData, idTime: int, timestamp: int, indexWriteOk: bool, codec: Codec)
    requires codec.decodeItem(codec.encodeItem(item)) == Some(item)
    requires codec.encodeItem(item) != ""
    ensures LoadEcho(SaveEcho(a, item, idTime, timestamp, true, indexWriteOk, codec).archive.storage,
                     EchoId(idTime), codec) == Restored(item)
  {
    ItemKeys(EchoId(idTime), EchoId(idTime));
  }

  /** After a delete whose writes succeed the id is gone from the index and
      loads as missing; every other id loads as before. */
  lemma DeleteThenLoad(a: Archive, id: string, other: string, codec: Codec)
    ensures var b := DeleteEcho(a, id, true, codec);
      (forall j :: 0 <= j < |b.index| ==> b.index[j].id != id) &&
      LoadEcho(b.storage, id, codec) == Missing &&
      (other != id ==> LoadEcho(b.storage, other, codec) == LoadEcho(a.storage, other, codec))
  {
    var b := DeleteEcho(a, id, true, codec);
    WithoutIdMembers(a.index, id);
    assert forall j :: 0 <= j < |b.index| ==> b.index[j] in b.index;
    ItemKeys(id, other);
    ItemKeys(other, id);
  }

  /** Deleting twice is deleting once. */
  lemma DeleteIdempotent(a: Archive, id: string, codec: Codec)
    ensures DeleteEcho(DeleteEcho(a, id, true, codec), id, true, codec) == DeleteEcho(a, id, true, codec)
  {
    WithoutIdIdempotent(a.index, id);
    ItemKeys(id, id);
    var once := DeleteEcho(a, id, true, codec);
    var twice := DeleteEcho(once, id, true, codec);
    assert twice.storage == once.storage;
  }

  /** Deleting an id the index does not hold leaves the index as it was. */
  lemma DeleteAbsentKeepsIndex(a: Archive, id: string, indexWriteOk: bool, codec: Codec)
    requires forall j :: 0 <= j < |a.index| ==> a.index[j].id != id
    ensures DeleteEcho(a, id, indexWriteOk, codec).index == a.index
  {
    WithoutAbsentId(a.index, id);
  }

  /** When the writes succeed the stored index is the in-memory index. */
  lemma StoredIndexInSync(
    a: Archive, item: InspirationData, idTime: int, timestamp: int, id: string, codec: Codec)
    requires IndexRoundTrips(codec)
    ensures var s := SaveEcho(a, item, idTime, timestamp, true, true, codec).archive;
      StoredIndex(s.storage, codec) == Some(s.index)
    ensures var d := DeleteEcho(a, id, true, codec);
      StoredIndex(d.storage, codec) == Some(d.index)
  {
    var d := DeleteEcho(a, id, true, codec);
    ItemKeys(id, id);
    assert HISTORY_INDEX_KEY in d.storage && d.storage[HISTORY_INDEX_KEY] == codec.encodeIndex(d.index);
  }

  /** A sequence of archive operations, as the buttons issue them. */
  datatype HistoryOp =
    | Save(item: InspirationData, idTime: int, timestamp: int, itemWriteOk: bool, indexWriteOk: bool)
    | Delete(id: string, indexWriteOk: bool)

  function Replay(a: Archive, ops: seq<HistoryOp>, codec: Codec): Archive
    decreases |ops|
  {
    if |ops| == 0 then a
    else
      var next := match ops[0]
        case Save(item, idTime, timestamp, itemOk, indexOk) =>
          SaveEcho(a, item, idTime, timestamp, itemOk, indexOk, codec).archive
        case Delete(id, indexOk) => DeleteEcho(a, id, indexOk, codec);
      Replay(next, ops[1..], codec)
  }

  /** Saves and deletes never take the index past fifty entries. */
  lemma {:induction false} ReplayKeepsBound(a: Archive, ops: seq<HistoryOp>, codec: Codec)
    requires |a.index| <= MAX_HISTORY_ITEMS
    ensures |Replay(a, ops, codec).index| <= MAX_HISTORY_ITEMS
    decreases |ops|
  {
    if |ops| > 0 {
      var next := match ops[0]
        case Save(item, idTime, timestamp, itemOk, indexOk) =>
          SaveEcho(a, item, idTime, timestamp, itemOk, indexOk, codec).archive
        case Delete(id, indexOk) => DeleteEcho(a, id, indexOk, codec);
      ReplayKeepsBound(next, ops[1..], codec);
    }
  }

  /** Every entry of the index has its echo in the store. */
  ghost predicate Backed(a: Archive) {
    forall j :: 0 <= j < |a.index| ==> ItemKey(a.index[j].id) in a.storage
  }

  /** A save writes the echo before it lists it, and never removes a stored
      echo, so a backed archive stays backed whichever write throws. */
  lemma SaveKeepsBacked(
    a: Archive, item: InspirationData, idTime: int, timestamp: int,
    itemWriteOk: bool, indexWriteOk: bool, codec: Codec)
    requires Backed(a)
    ensures Backed(SaveEcho(a, item, idTime, timestamp, itemWriteOk, indexWriteOk, codec).archive)
  {
    if itemWriteOk {
      var b := SaveEcho(a, item, idTime, timestamp, itemWriteOk, indexWriteOk, codec).archive;
      PrependShape(MetadataFor(item, EchoId(idTime), timestamp), a.index);
      forall j | 0 <= j < |b.index| ensures ItemKey(b.index[j].id) in b.storage {
        if j > 0 {
          assert b.index[j] == b.index[1..][j - 1] == a.index[j - 1];
        }
      }
    }
  }

  /** A save under an id the index does not list yet leaves every listed
      entry loading as it did before, whichever write throws. */
  lemma SaveKeepsListedEchoes(
    a: Archive, item: InspirationData, idTime: int, timestamp: int,
    itemWriteOk: bool, indexWriteOk: bool, codec: Codec, j: int)
    requires forall i :: 0 <= i < |a.index| ==> a.index[i].id != EchoId(idTime)
    requires 0 <= j < |a.index|
    ensures var b := SaveEcho(a, item, idTime, timestamp, itemWriteOk, indexWriteOk, codec).archive;
      LoadEcho(b.storage, a.index[j].id, codec) == LoadEcho(a.storage, a.index[j].id, codec)
  {
    ItemKeys(a.index[j].id, EchoId(idTime));
  }

  /** A delete removes a stored echo only together with every entry of its
      id, so a backed archive stays backed. */
  lemma DeleteKeepsBacked(a: Archive, id: string, indexWriteOk: bool, codec: Codec)
    requires Backed(a)
    ensures Backed(DeleteEcho(a, id, indexWriteOk, codec))
  {
    var b := DeleteEcho(a, id, indexWriteOk, codec);
    WithoutIdMembers(a.index, id);
    forall j | 0 <= j < |b.index| ensures ItemKey(b.index[j].id) in b.storage {
      var m := b.index[j];
      assert m in b.index;
      var i :| 0 <= i < |a.index| && a.index[i] == m;
      ItemKeys(m.id, id);
      ItemKeys(m.id, m.id);
    }
  }

  /** Any sequence of saves and deletes keeps every listed echo stored. */
  lemma {:induction false} ReplayKeepsBacked(a: Archive, ops: seq<HistoryOp>, codec: Codec)
    requires Backed(a)
    ensures Backed(Replay(a, ops, codec))
    decreases |ops|
  {
    if |ops| > 0 {
      match ops[0]
      case Save(item, idTime, timestamp, itemOk, indexOk) =>
        SaveKeepsBacked(a, item, idTime, timestamp, itemOk, indexOk, codec);
        ReplayKeepsBacked(SaveEcho(a, item, idTime, timestamp, itemOk, indexOk, codec).archive, ops[1..], codec);
      case Delete(id, indexOk) =>
        DeleteKeepsBacked(a, id, indexOk, codec);
        ReplayKeepsBacked(DeleteEcho(a, id, indexOk, codec), ops[1..], codec);
    }
  }

  // ---------------------------------------------------------------------
  // The deep scan

  /** The remote side of the three provider calls and the two decoders:
      each call is a function of what the code passes it. */
  datatype Backend = Backend(
    recommend: (string, int, string) -> Outcome<Option<string>>,
    decodeRecommendations: string -> Option<seq<HistoricalRecommendation>>,
    compose: ContentRequest -> Outcome<Option<string>>,
    decodeContent: string -> Option<InspirationData>,
    paint: (InspirationData, string) -> Outcome<Option<seq<Part>>>)

  /** `err.message || "Archive link severed."`. */
  function ErrorText(message: Option<string>): (text: string)
    ensures text != ""
    ensures message.Some? && message.value != "" ==> text == message.value
    ensures message.None? || message.value == "" ==> text == LINK_SEVERED
  {
    if message.Some? && message.value != "" then message.value else LINK_SEVERED
  }

  /** The recommendations the scan asks for. */
  function ScanRecommendations(day: DayInfo, backend: Backend): Outcome<seq<HistoricalRecommendation>> {
    RecommendationsFrom(backend.recommend(day.dateString, SCAN_COUNT, ExclusionClause([])), backend.decodeRecommendations)
  }

  /** The content request built around the top recommendation. */
  function ScanRequest(day: DayInfo, userName: string, top: HistoricalRecommendation): ContentRequest {
    ContentRequest(day.current, day.total, day.formatted, day.dateString, userName, top)
  }

  /** One run of `handleDeepScan`: the states it sets, in order, the data it
      last sets (if any) and the error it leaves. */
  datatype ScanRun = ScanRun(states: seq<LoadingState>, shown: Option<InspirationData>, error: Option<string>)

  /** The part of a run after the first recommendation is chosen: the
      content for it, then its image. */
  function ScanEvent(day: DayInfo, userName: string, top: HistoricalRecommendation, backend: Backend): (run: ScanRun)
    ensures 1 <= |run.states| <= 2
    ensures run.states[|run.states| - 1] == COMPLETED <==> run.error.None?
    ensures run.states[|run.states| - 1] == COMPLETED || run.states[|run.states| - 1] == ERROR
    ensures run.shown.Some? ==> run.shown.value.dayNumber == day.current && run.shown.value.userName == userName
  {
    var req := ScanRequest(day, userName, top);
    var info := ContentFrom(backend.compose(req), backend.decodeContent, req);
    if info.Fail? then ScanRun([ERROR], None, Some(ErrorText(info.message)))
    else
      var image := ImageFrom(backend.paint(info.value, ASPECT_RATIO));
      if image.Fail? then ScanRun([GENERATING_IMAGE, ERROR], Some(info.value), Some(ErrorText(image.message)))
      else ScanRun([GENERATING_IMAGE, COMPLETED], Some(info.value.(imageUrl := Some(image.value))), None)
  }

  function DeepScan(day: DayInfo, userName: string, backend: Backend): (run: ScanRun)
    ensures 2 <= |run.states| <= 4 && run.states[0] == SCANNING
    ensures run.states[|run.states| - 1] == COMPLETED <==> run.error.None?
    ensures run.states[|run.states| - 1] == COMPLETED || run.states[|run.states| - 1] == ERROR
  {
    var recs := ScanRecommendations(day, backend);
    if recs.Fail? then ScanRun([SCANNING, ERROR], None, Some(ErrorText(recs.message)))
    else if |recs.value| == 0 then ScanRun([SCANNING, FETCHING_EVENT, ERROR], None, Some(UNDEFINED_TITLE))
    else
      var rest := ScanEvent(day, userName, recs.value[0], backend);
      ScanRun([SCANNING, FETCHING_EVENT] + rest.states, rest.shown, rest.error)
  }

  const PIPELINE: seq<LoadingState> := [SCANNING, FETCHING_EVENT, GENERATING_IMAGE]

  /** Every run walks a prefix of SCANNING, FETCHING_EVENT, GENERATING_IMAGE
      and ends in COMPLETED or ERROR; it reaches COMPLETED only after all
      three, never enters IDLE, SETUP or CHOOSING_EVENT, and an error run
      carries a non-empty message. */
  lemma ScanWalksPipeline(day: DayInfo, userName: string, backend: Backend)
    ensures var run := DeepScan(day, userName, backend);
      var n := |run.states|;
      2 <= n <= 4 &&
      run.states[..n - 1] == PIPELINE[..n - 1] &&
      (run.states[n - 1] == COMPLETED || run.states[n - 1] == ERROR) &&
      (run.states[n - 1] == COMPLETED ==> n == 4 && run.error == None) &&
      (run.states[n - 1] == ERROR ==> COMPLETED !in run.states && run.error.Some? && run.error.value != "") &&
      IDLE !in run.states && SETUP !in run.states && CHOOSING_EVENT !in run.states
  {
  }

  /** A scan completes exactly when all three providers succeed and at least
      one event is recommended; the result is then the content generated for
      the first recommendation with the image attached. */
  lemma ScanCompletes(day: DayInfo, userName: string, backend: Backend)
    ensures var run := DeepScan(day, userName, backend);
      var recs := ScanRecommendations(day, backend);
      run.states[|run.states| - 1] == COMPLETED <==>
        (recs.Ok? && |recs.value| > 0 &&
         var req := ScanRequest(day, userName, recs.value[0]);
         var info := ContentFrom(backend.compose(req), backend.decodeContent, req);
         info.Ok? && ImageFrom(backend.paint(info.value, ASPECT_RATIO)).Ok?)
    ensures var run := DeepScan(day, userName, backend);
      var recs := ScanRecommendations(day, backend);
      run.states[|run.states| - 1] == COMPLETED ==>
        var req := ScanRequest(day, userName, recs.value[0]);
        var info := ContentFrom(backend.compose(req), backend.decodeContent, req).value;
        run.states == [SCANNING, FETCHING_EVENT, GENERATING_IMAGE, COMPLETED] &&
        run.shown == Some(info.(imageUrl := Some(ImageFrom(backend.paint(info, ASPECT_RATIO)).value))) &&
        req.selectedEvent == recs.value[0] &&
        run.shown.value.dayNumber == day.current && run.shown.value.totalDays == day.total &&
        run.shown.value.userName == userName
  {
  }

  /** How each failure reads: a provider's own message when it has one,
      "Archive link severed." when not, the parse messages of the service,
      and the TypeError of an empty recommendation list. */
  lemma ScanFailureMessages(day: DayInfo, userName: string, backend: Backend)
    ensures var recs := ScanRecommendations(day, backend);
      var run := DeepScan(day, userName, backend);
      (recs.Fail? ==> run == ScanRun([SCANNING, ERROR], None, Some(ErrorText(recs.message)))) &&
      (recs.Fail? && recs.message == Some(ARCHIVES_FAILED) ==> run.error == Some(ARCHIVES_FAILED)) &&
      (recs.Fail? && (recs.message.None? || recs.message == Some("")) ==> run.error == Some(LINK_SEVERED)) &&
      (recs == Ok([]) ==> run == ScanRun([SCANNING, FETCHING_EVENT, ERROR], None, Some(UNDEFINED_TITLE)))
    ensures var recs := ScanRecommendations(day, backend);
      var run := DeepScan(day, userName, backend);
      recs.Ok? && |recs.value| > 0 ==>
        var req := ScanRequest(day, userName, recs.value[0]);
        var info := ContentFrom(backend.compose(req), backend.decodeContent, req);
        (info.Fail? ==> run == ScanRun([SCANNING, FETCHING_EVENT, ERROR], None, Some(ErrorText(info.message)))) &&
        (info.Ok? && ImageFrom(backend.paint(info.value, ASPECT_RATIO)).Fail? ==>
          run.error == Some(ErrorText(ImageFrom(backend.paint(info.value, ASPECT_RATIO)).message)))
  {
  }

  /** A failure at the image step leaves the text content as the data,
      without an image. */
  lemma ImageFailureKeepsContent(day: DayInfo, userName: string, backend: Backend)
    ensures var run := DeepScan(day, userName, backend);
      run.states == [SCANNING, FETCHING_EVENT, GENERATING_IMAGE, ERROR] ==>
        run.shown.Some? &&
        var recs := ScanRecommendations(day, backend);
        var req := ScanRequest(day, userName, recs.value[0]);
        run.shown == Some(ContentFrom(backend.compose(req), backend.decodeContent, req).value)
  {
    var run := DeepScan(day, userName, backend);
    var recs := ScanRecommendations(day, backend);
    if run.states == [SCANNING, FETCHING_EVENT, GENERATING_IMAGE, ERROR] {
      assert recs.Ok? && |recs.value| > 0;
      var rest := ScanEvent(day, userName, recs.value[0], backend);
      assert rest.states == run.states[2..];
    }
  }

  /** `isLoading`. */
  function IsLoading(s: LoadingState): (loading: bool)
    ensures loading <==> s in {IDLE, SCANNING, CHOOSING_EVENT, FETCHING_EVENT, GENERATING_IMAGE}
  {
    s != SETUP && s != COMPLETED && s != ERROR
  }

  /** The loader shows while a scan is under way and never after it. */
  lemma LoadingDuringScan(day: DayInfo, userName: string, backend: Backend)
    ensures var run := DeepScan(day, userName, backend);
      (forall i :: 0 <= i < |run.states| - 1 ==> IsLoading(run.states[i])) &&
      !IsLoading(run.states[|run.states| - 1])
  {
    ScanWalksPipeline(day, userName, backend);
  }

  // ---------------------------------------------------------------------
  // Edits through `onUpdate` (passed to the card, which never calls it)

  /** A `Partial<InspirationData>`: the fields an update sets. Post fields
      are merged key by key, as the object spread does with top-level keys. */
  datatype Patch = Patch(
    dayCount: Option<string>,
    dayNumber: Option<int>,
    totalDays: Option<int>,
    dateString: Option<string>,
    eventTitle: Option<string>,
    eventDescription: Option<string>,
    imageOverlayText: Option<string>,
    eventLocation: Option<string>,
    bibleVerse: Option<string>,
    bibleReference: Option<string>,
    reflectionPrompt: Option<string>,
    posts: map<string, string>,
    imagePrompt: Option<string>,
    imageUrl: Option<string>,
    customBg: Option<string>,
    userName: Option<string>)

  const EMPTY_PATCH := Patch(None, None, None, None, None, None, None, None, None, None, None, map[], None, None, None, None)

  function Or<T>(o: Option<T>, d: T): T {
    if o.Some? then o.value else d
  }

  function OrSome<T>(o: Option<T>, d: Option<T>): Option<T> {
    if o.Some? then o else d
  }

  /** `{ ...prev, ...u }`: every field the update names takes the update's
      value, every other field keeps the previous one. */
  function ApplyPatch(d: InspirationData, u: Patch): (r: InspirationData)
    ensures (u.dayCount.Some? ==> r.dayCount == u.dayCount.value) && (u.dayCount.None? ==> r.dayCount == d.dayCount)
    ensures (u.dayNumber.Some? ==> r.dayNumber == u.dayNumber.value) && (u.dayNumber.None? ==> r.dayNumber == d.dayNumber)
    ensures (u.totalDays.Some? ==> r.totalDays == u.totalDays.value) && (u.totalDays.None? ==> r.totalDays == d.totalDays)
    ensures (u.dateString.Some? ==> r.dateString == u.dateString.value) && (u.dateString.None? ==> r.dateString == d.dateString)
    ensures (u.eventTitle.Some? ==> r.eventTitle == u.eventTitle.value) && (u.eventTitle.None? ==> r.eventTitle == d.eventTitle)
    ensures (u.eventDescription.Some? ==> r.eventDescription == u.eventDescription.value) && (u.eventDescription.None? ==> r.eventDescription == d.eventDescription)
    ensures (u.imageOverlayText.Some? ==> r.imageOverlayText == u.imageOverlayText) && (u.imageOverlayText.None? ==> r.imageOverlayText == d.imageOverlayText)
    ensures (u.eventLocation.Some? ==> r.eventLocation == u.eventLocation) && (u.eventLocation.None? ==> r.eventLocation == d.eventLocation)
    ensures (u.bibleVerse.Some? ==> r.bibleVerse == u.bibleVerse.value) && (u.bibleVerse.None? ==> r.bibleVerse == d.bibleVerse)
    ensures (u.bibleReference.Some? ==> r.bibleReference == u.bibleReference.value) && (u.bibleReference.None? ==> r.bibleReference == d.bibleReference)
    ensures (u.reflectionPrompt.Some? ==> r.reflectionPrompt == u.reflectionPrompt.value) && (u.reflectionPrompt.None? ==> r.reflectionPrompt == d.reflectionPrompt)
    ensures (u.imagePrompt.Some? ==> r.imagePrompt == u.imagePrompt.value) && (u.imagePrompt.None? ==> r.imagePrompt == d.imagePrompt)
    ensures (u.imageUrl.Some? ==> r.imageUrl == u.imageUrl) && (u.imageUrl.None? ==> r.imageUrl == d.imageUrl)
    ensures (u.customBg.Some? ==> r.customBg == u.customBg) && (u.customBg.None? ==> r.customBg == d.customBg)
    ensures (u.userName.Some? ==> r.userName == u.userName.value) && (u.userName.None? ==> r.userName == d.userName)
    ensures forall k :: k in r.posts <==> k in d.posts || k in u.posts
    ensures forall k :: k in u.posts ==> r.posts[k] == u.posts[k]
    ensures forall k :: k in d.posts && k !in u.posts ==> r.posts[k] == d.posts[k]
  {
    InspirationData(
      Or(u.dayCount, d.dayCount), Or(u.dayNumber, d.dayNumber), Or(u.totalDays, d.totalDays),
      Or(u.dateString, d.dateString), Or(u.eventTitle, d.eventTitle),
      Or(u.eventDescription, d.eventDescription), OrSome(u.imageOverlayText, d.imageOverlayText),
      OrSome(u.eventLocation, d.eventLocation), Or(u.bibleVerse, d.bibleVerse),
      Or(u.bibleReference, d.bibleReference), Or(u.reflectionPrompt, d.reflectionPrompt),
      d.posts + u.posts, Or(u.imagePrompt, d.imagePrompt), OrSome(u.imageUrl, d.imageUrl),
      OrSome(u.customBg, d.customBg), Or(u.userName, d.userName))
  }

  /** An update is a no-op when empty and has no further effect when repeated. */
  lemma PatchLaws(d: InspirationData, u: Patch)
    ensures ApplyPatch(d, EMPTY_PATCH) == d
    ensures ApplyPatch(ApplyPatch(d, u), u) == ApplyPatch(d, u)
  {
    assert d.posts + map[] == d.posts;
    assert (d.posts + u.posts) + u.posts == d.posts + u.posts;
  }

  /** Two updates in a row act as one update in which the later values win. */
  lemma PatchesCompose(d: InspirationData, u: Patch, v: Patch)
    ensures ApplyPatch(ApplyPatch(d, u), v) == ApplyPatch(d, Combined(u, v))
  {
    assert (d.posts + u.posts) + v.posts == d.posts + (u.posts + v.posts);
  }

  /** Two updates merged into one, the second one's fields winning. */
  function Combined(u: Patch, v: Patch): Patch {
    Patch(
      OrSome(v.dayCount, u.dayCount), OrSome(v.dayNumber, u.dayNumber), OrSome(v.totalDays, u.totalDays),
      OrSome(v.dateString, u.dateString), OrSome(v.eventTitle, u.eventTitle),
      OrSome(v.eventDescription, u.eventDescription), OrSome(v.imageOverlayText, u.imageOverlayText),
      OrSome(v.eventLocation, u.eventLocation), OrSome(v.bibleVerse, u.bibleVerse),
      OrSome(v.bibleReference, u.bibleReference), OrSome(v.reflectionPrompt, u.reflectionPrompt),
      u.posts + v.posts, OrSome(v.imagePrompt, u.imagePrompt), OrSome(v.imageUrl, u.imageUrl),
      OrSome(v.customBg, u.customBg), OrSome(v.userName, u.userName))
  }

  // ---------------------------------------------------------------------
  // The component

  /** `MainApp`'s state. `storage` stands for `localStorage`; `trace` is
      every loading state set so far, in order. */
  class MainApp {
    var loadingState: LoadingState
    var data: Option<InspirationData>
    var error: Option<string>
    var authorName: string
    var historyIndex: seq<HistoryMetadata>
    var storage: map<string, string>
    ghost var trace: seq<LoadingState>
    const codec: Codec

    /** The trace ends in the current loading state. */
    ghost predicate Valid()
      reads this
    {
      |trace| > 0 && trace[|trace| - 1] == loadingState
    }

    /** The first render: setup state, nothing shown, the author name from
      storage or the default, an empty index until the effect runs. */
    constructor(initialStorage: map<string, string>, codec: Codec)
      ensures Valid() && trace == [SETUP]
      ensures loadingState == SETUP && data == None && error == None && historyIndex == []
      ensures storage == initialStorage && this.codec == codec
      ensures AUTHOR_KEY in initialStorage && initialStorage[AUTHOR_KEY] != "" ==>
        authorName == initialStorage[AUTHOR_KEY]
      ensures AUTHOR_KEY !in initialStorage || initialStorage[AUTHOR_KEY] == "" ==>
        authorName == DEFAULT_AUTHOR
    {
      loadingState := SETUP;
      data := None;
      error := None;
      authorName := if AUTHOR_KEY in initialStorage && initialStorage[AUTHOR_KEY] != ""
        then initialStorage[AUTHOR_KEY] else DEFAULT_AUTHOR;
      historyIndex := [];
      storage := initialStorage;
      trace := [SETUP];
      this.codec := codec;
    }

    /** The mount effect: adopt the stored index when there is one that parses. */
    method RestoreIndex()
      modifies this`historyIndex
      ensures StoredIndex(storage, codec).Some? ==> historyIndex == StoredIndex(storage, codec).value
      ensures StoredIndex(storage, codec).None? ==> historyIndex == old(historyIndex)
    {
      var saved := if HISTORY_INDEX_KEY in storage then Some(storage[HISTORY_INDEX_KEY]) else None;
      if saved.Some? && saved.value != "" {
        var parsed := codec.decodeIndex(saved.value);
        if parsed.Some? {
          historyIndex := parsed.value;
        }
      }
    }

    method SetLoadingState(s: LoadingState)
      modifies this`loadingState, this`trace
      ensures loadingState == s && trace == old(trace) + [s]
    {
      loadingState := s;
      trace := trace + [s];
    }

    /** `saveToHistory`: write the blob, then the new index. */
    method SaveToHistory(newItem: InspirationData, idTime: int, timestamp: int, itemWriteOk: bool, indexWriteOk: bool)
      modifies this`historyIndex, this`storage, this`error
      ensures var r := SaveEcho(Archive(old(historyIndex), old(storage)), newItem, idTime, timestamp,
                                itemWriteOk, indexWriteOk, codec);
        historyIndex == r.archive.index && storage == r.archive.storage &&
        error == (if r.quotaError then Some(ARCHIVE_FULL) else old(error))
      ensures itemWriteOk ==> |historyIndex| <= MAX_HISTORY_ITEMS
    {
      var itemId := EchoId(idTime);
      var metadata := MetadataFor(newItem, itemId, timestamp);
      if !itemWriteOk {
        error := Some(ARCHIVE_FULL);
        return;
      }
      storage := storage[ItemKey(itemId) := codec.encodeItem(newItem)];
      var updatedIndex := Prepend(metadata, historyIndex);
      historyIndex := updatedIndex;
      if !indexWriteOk {
        error := Some(ARCHIVE_FULL);
        return;
      }
      storage := storage[HISTORY_INDEX_KEY := codec.encodeIndex(updatedIndex)];
    }

    /** The card's archive button: save the echo on display. */
    method ArchiveEcho(idTime: int, timestamp: int, itemWriteOk: bool, indexWriteOk: bool)
      requires data.Some?
      modifies this`historyIndex, this`storage, this`error
      ensures var r := SaveEcho(Archive(old(historyIndex), old(storage)), data.value, idTime, timestamp,
                                itemWriteOk, indexWriteOk, codec);
        historyIndex == r.archive.index && storage == r.archive.storage &&
        error == (if r.quotaError then Some(ARCHIVE_FULL) else old(error))
    {
      SaveToHistory(data.value, idTime, timestamp, itemWriteOk, indexWriteOk);
    }

    /** `loadFromHistory`: show a stored echo, report one that does not parse,
      ignore one that is not there. */
    method LoadFromHistory(itemId: string)
      requires Valid()
      modifies this`data, this`loadingState, this`trace, this`error
      ensures Valid()
      ensures match LoadEcho(storage, itemId, codec)
        case Restored(d) =>
          data == Some(d) && loadingState == COMPLETED && trace == old(trace) + [COMPLETED] && error == old(error)
        case Missing =>
          data == old(data) && loadingState == old(loadingState) && trace == old(trace) && error == old(error)
        case Lost =>
          data == old(data) && loadingState == old(loadingState) && trace == old(trace) && error == Some(FRAGMENT_LOST)
    {
      var key := ItemKey(itemId);
      var saved := if key in storage then Some(storage[key]) else None;
      if saved.Some? && saved.value != "" {
        var parsed := codec.decodeItem(saved.value);
        if parsed.Some? {
          data := parsed;
          SetLoadingState(COMPLETED);
        } else {
          error := Some(FRAGMENT_LOST);
        }
      }
    }

    /** `deleteFromHistory`: filter the index, write it, remove the blob. */
    method DeleteFromHistory(itemId: string, indexWriteOk: bool)
      modifies this`historyIndex, this`storage
      ensures var r := DeleteEcho(Archive(old(historyIndex), old(storage)), itemId, indexWriteOk, codec);
        historyIndex == r.index && storage == r.storage
      ensures |historyIndex| <= |old(historyIndex)|
    {
      var updatedIndex := WithoutId(historyIndex, itemId);
      historyIndex := updatedIndex;
      if !indexWriteOk {
        return;
      }
      storage := storage[HISTORY_INDEX_KEY := codec.encodeIndex(updatedIndex)];
      storage := storage - {ItemKey(itemId)};
    }

    /** `handleDeepScan`: recommendations, then content for the first one,
      then its image, each step announced through the loading state. */
    method HandleDeepScan(day: DayInfo, backend: Backend)
      requires Valid()
      modifies this`error, this`loadingState, this`trace, this`data
      ensures Valid()
      ensures var run := DeepScan(day, authorName, backend);
        trace == old(trace) + run.states &&
        loadingState == run.states[|run.states| - 1] &&
        error == run.error &&
        data == (if run.shown.Some? then run.shown else old(data))
    {
      error := None;
      SetLoadingState(SCANNING);
      var recs := RecommendationsFrom(
        backend.recommend(day.dateString, SCAN_COUNT, ExclusionClause([])), backend.decodeRecommendations);
      if recs.Fail? {
        error := Some(ErrorText(recs.message));
        SetLoadingState(ERROR);
        return;
      }
      SetLoadingState(FETCHING_EVENT);
      if |recs.value| == 0 {
        error := Some(UNDEFINED_TITLE);
        SetLoadingState(ERROR);
        return;
      }
      GenerateForEvent(day, recs.value[0], backend);
      assert trace == old(trace) + ([SCANNING, FETCHING_EVENT] + ScanEvent(day, authorName, recs.value[0], backend).states);
    }

    /** The rest of `handleDeepScan` once the first recommendation is known. */
    method GenerateForEvent(day: DayInfo, topEvent: HistoricalRecommendation, backend: Backend)
      requires Valid() && error == None
      modifies this`error, this`loadingState, this`trace, this`data
      ensures Valid()
      ensures var run := ScanEvent(day, authorName, topEvent, backend);
        trace == old(trace) + run.states &&
        loadingState == run.states[|run.states| - 1] &&
        error == run.error &&
        data == (if run.shown.Some? then run.shown else old(data))
    {
      var req := ScanRequest(day, authorName, topEvent);
      var info := ContentFrom(backend.compose(req), backend.decodeContent, req);
      if info.Fail? {
        error := Some(ErrorText(info.message));
        SetLoadingState(ERROR);
        return;
      }
      data := Some(info.value);
      SetLoadingState(GENERATING_IMAGE);
      var imageUrl := GenerateInspirationalImage(backend.paint(info.value, ASPECT_RATIO));
      if imageUrl.Fail? {
        error := Some(ErrorText(imageUrl.message));
        SetLoadingState(ERROR);
        return;
      }
      data := Some(info.value.(imageUrl := Some(imageUrl.value)));
      SetLoadingState(COMPLETED);
    }

    /** "Return to Sanctuary" under a result: drop the data, back to setup. */
    method ReturnToSanctuary()
      requires Valid()
      modifies this`data, this`loadingState, this`trace
      ensures Valid()
      ensures data == None && loadingState == SETUP && trace == old(trace) + [SETUP]
    {
      data := None;
      SetLoadingState(SETUP);
    }

    /** "Back to Sanctuary" on the error screen: only the state changes. */
    method BackToSanctuary()
      requires Valid()
      modifies this`loadingState, this`trace
      ensures Valid()
      ensures loadingState == SETUP && trace == old(trace) + [SETUP]
    {
      SetLoadingState(SETUP);
    }

    /** `onUpdate`, handed to the card as a prop (the card never calls it):
        merge the update into the data, if any. */
    method OnUpdate(u: Patch)
      modifies this`data
      ensures data == if old(data).Some? then Some(ApplyPatch(old(data).value, u)) else None
    {
      if data.Some? {
        data := Some(ApplyPatch(data.value, u));
      }
    }
  }
}
