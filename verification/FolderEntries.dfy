/** The entries of a folder: counting, ordering, and the rows shown for them. */
module FolderEntries {
  import opened Text
  import opened SizeFormat
  import opened StableSorting

  datatype Entry = Entry(name: string, isDir: bool, size: int)

  /** How names are folded for comparison without case, and lower-cased. */
  datatype CaseMaps = CaseMaps(fold: string -> string, lower: string -> string)

  // ----- the scan -----

  datatype ScanResult = ScanResult(entries: seq<Entry>, fileCount: nat, dirCount: nat)

  function CountDirs(entries: seq<Entry>): (n: nat)
    ensures n <= |entries|
  {
    if entries == [] then 0
    else CountDirs(entries[..|entries| - 1]) + if entries[|entries| - 1].isDir then 1 else 0
  }

  /** What a scan of this listing reports. */
  function ScanOf(listing: seq<Entry>): ScanResult {
    ScanResult(listing, |listing| - CountDirs(listing), CountDirs(listing))
  }

  /** The scan that runs in the background. */
  method Scan(listing: seq<Entry>) returns (result: ScanResult)
    ensures result == ScanOf(listing)
    ensures result.fileCount + result.dirCount == |result.entries|
  {
    result := ScanResult([], 0, 0);
    for i := 0 to |listing|
      invariant result.entries == listing[..i]
      invariant result.dirCount == CountDirs(listing[..i])
      invariant result.fileCount + result.dirCount == i
    {
      assert listing[..i + 1][..i] == listing[..i];
      result := result.(entries := result.entries + [listing[i]]);
      if listing[i].isDir {
        result := result.(dirCount := result.dirCount + 1);
      } else {
        result := result.(fileCount := result.fileCount + 1);
      }
    }
    assert listing[..|listing|] == listing;
  }

  // ----- the order of the list -----

  /** Lexicographic order on strings. */
  predicate StringLess(a: string, b: string) {
    b != [] && (a == [] || a[0] < b[0] || (a[0] == b[0] && StringLess(a[1..], b[1..])))
  }

  /** A string comes first if it is a proper prefix of the other, or has the smaller
      character where they first differ. */
  lemma {:induction false} StringLessIs(a: string, b: string, k: nat)
    requires k <= |a| && k <= |b| && a[..k] == b[..k]
    requires k == |a| || k == |b| || a[k] != b[k]
    ensures StringLess(a, b) <==> k < |b| && (k == |a| || a[k] < b[k])
  {
    if k > 0 {
      assert a[0] == a[..k][0] == b[..k][0] == b[0];
      assert a[1..][..k - 1] == a[..k][1..] == b[..k][1..] == b[1..][..k - 1];
      StringLessIs(a[1..], b[1..], k - 1);
    }
  }

  /** The comparator of `populateList`, for a given treatment of case. */
  predicate Before(caseMap: string -> string, a: Entry, b: Entry) {
    if a.isDir != b.isDir then a.isDir else StringLess(caseMap(a.name), caseMap(b.name))
  }

  function ListOrder(caseMap: string -> string): (Entry, Entry) -> bool {
    (a, b) => Before(caseMap, a, b)
  }

  function SortKey(lower: string -> string, e: Entry): string {
    (if e.isDir then "0:" else "1:") + lower(e.name)
  }

  function KeyOrder(lower: string -> string): (Entry, Entry) -> bool {
    (a, b) => StringLess(SortKey(lower, a), SortKey(lower, b))
  }

  lemma {:induction false} StringLessAsymmetric(a: string, b: string)
    requires StringLess(a, b)
    ensures !StringLess(b, a)
  {
    if a != [] && a[0] == b[0] {
      StringLessAsymmetric(a[1..], b[1..]);
    }
  }

  lemma {:induction false} StringLessSplits(a: string, b: string, c: string)
    requires StringLess(a, c)
    ensures StringLess(a, b) || StringLess(b, c)
  {
    if a != [] && b != [] && a[0] == b[0] == c[0] {
      StringLessSplits(a[1..], b[1..], c[1..]);
    }
  }

  lemma {:induction false} ListOrderIsWeak(caseMap: string -> string)
    ensures StrictWeakOrder(ListOrder(caseMap))
  {
    var less := ListOrder(caseMap);
    forall a, b | less(a, b) ensures !less(b, a) {
      if a.isDir == b.isDir {
        StringLessAsymmetric(caseMap(a.name), caseMap(b.name));
      }
    }
    forall a, b, c | less(a, c) ensures less(a, b) || less(b, c) {
      if a.isDir == b.isDir == c.isDir {
        StringLessSplits(caseMap(a.name), caseMap(b.name), caseMap(c.name));
      }
    }
  }

  /** The rows in the order of the list. */
  function SortedEntries(maps: CaseMaps, entries: seq<Entry>): seq<Entry> {
    StableSort(ListOrder(maps.fold), entries)
  }

  /** The list shows a permutation of the scanned entries, directories first,
      then by case-folded name, entries with equal keys in scan order; and no
      other arrangement does. */
  lemma {:induction false} ListIsSorted(maps: CaseMaps, entries: seq<Entry>, r: seq<Entry>)
    ensures multiset(SortedEntries(maps, entries)) == multiset(entries)
    ensures r == SortedEntries(maps, entries) <==> StablySorted(ListOrder(maps.fold), entries, r)
    ensures var sorted := SortedEntries(maps, entries);
            forall i, j :: 0 <= i < j < |sorted| ==> !Before(maps.fold, sorted[j], sorted[i])
  {
    var less := ListOrder(maps.fold);
    ListOrderIsWeak(maps.fold);
    StableSortCorrect(less, entries);
    StableSortIs(less, entries, r);
    var sorted := SortedEntries(maps, entries);
    forall i, j | 0 <= i < j < |sorted| ensures !Before(maps.fold, sorted[j], sorted[i]) {
      assert !less(sorted[j], sorted[i]);
    }
  }

  /** In the key, the prefix decides between directories and files. */
  lemma {:induction false} KeyOrderIs(lower: string -> string, a: Entry, b: Entry)
    ensures StringLess(SortKey(lower, a), SortKey(lower, b)) == Before(lower, a, b)
  {
    var x, y := SortKey(lower, a), SortKey(lower, b);
    assert x[1..][1..] == lower(a.name) && y[1..][1..] == lower(b.name);
    assert x[1] == y[1] == ':';
    assert x[1..][0] == ':' && y[1..][0] == ':';
  }

  lemma {:induction false} KeyOrderIsWeak(lower: string -> string)
    ensures StrictWeakOrder(KeyOrder(lower))
  {
    var less := KeyOrder(lower);
    forall a, b | less(a, b) ensures !less(b, a) {
      StringLessAsymmetric(SortKey(lower, a), SortKey(lower, b));
    }
    forall a, b, c | less(a, c) ensures less(a, b) || less(b, c) {
      StringLessSplits(SortKey(lower, a), SortKey(lower, b), SortKey(lower, c));
    }
  }

  /** Sorting a folder by the stored key gives the order of the list exactly when
      lower-casing orders every later entry against every earlier one of its kind
      as case folding does. */
  lemma {:induction false} KeySortAgrees(maps: CaseMaps, entries: seq<Entry>)
    ensures StableSort(KeyOrder(maps.lower), entries) == SortedEntries(maps, entries)
       <==> forall i, j :: 0 <= i < j < |entries| && entries[i].isDir == entries[j].isDir ==>
              StringLess(maps.lower(entries[j].name), maps.lower(entries[i].name))
              == StringLess(maps.fold(entries[j].name), maps.fold(entries[i].name))
  {
    var byKey, byName := KeyOrder(maps.lower), ListOrder(maps.fold);
    KeyOrderIsWeak(maps.lower);
    ListOrderIsWeak(maps.fold);
    SameSortIff(byKey, byName, entries);
    forall i, j | 0 <= i < j < |entries|
      ensures byKey(entries[j], entries[i]) == Before(maps.lower, entries[j], entries[i])
      ensures byName(entries[j], entries[i]) == Before(maps.fold, entries[j], entries[i])
    {
      KeyOrderIs(maps.lower, entries[j], entries[i]);
    }
    hide StringLess, StableSort, KeyOrder, ListOrder;
  }

  /** Unicode's treatment of the long s: it folds to s, but is a lower-case letter. */
  function FoldLongS(s: string): string {
    if s == [] then [] else [if s[0] == '\U{17F}' then 's' else s[0]] + FoldLongS(s[1..])
  }

  /** Two files whose names the two treatments of case order differently. */
  lemma {:induction false} KeySortExample()
    ensures var maps := CaseMaps(FoldLongS, (s: string) => s);
         && var f, g := Entry("\U{17F}", false, 0), Entry("t", false, 0);
         && SortedEntries(maps, [f, g]) == [f, g]
         && StableSort(KeyOrder(maps.lower), [f, g]) == [g, f]
  {
    var maps := CaseMaps(FoldLongS, (s: string) => s);
    var f, g := Entry("\U{17F}", false, 0), Entry("t", false, 0);
    SortPair(ListOrder(maps.fold), f, g);
    SortPair(KeyOrder(maps.lower), f, g);
    KeyOrderIs(maps.lower, g, f);
    assert FoldLongS(f.name) == "s" && FoldLongS(g.name) == "t";
  }

  lemma {:induction false} SortPair<T>(less: (T, T) -> bool, x: T, y: T)
    ensures StableSort(less, [x, y]) == if less(y, x) then [y, x] else [x, y]
  {
    assert [x, y][1..] == [y] && [y][1..] == [];
    assert StableSort(less, [y]) == [y];
    assert Insert(less, x, []) == [x];
  }

  // ----- counts and list agree -----

  lemma {:induction false} CountAppend(a: seq<Entry>, b: seq<Entry>)
    ensures CountDirs(a + b) == CountDirs(a) + CountDirs(b)
    decreases |b|
  {
    if b == [] {
      assert a + b == a;
    } else {
      var n := |b| - 1;
      CountAppend(a, b[..n]);
      assert (a + b)[..|a + b| - 1] == a + b[..n];
    }
  }

  lemma {:induction false} CountInsert(less: (Entry, Entry) -> bool, x: Entry, s: seq<Entry>)
    ensures CountDirs(Insert(less, x, s)) == CountDirs([x]) + CountDirs(s)
    ensures |Insert(less, x, s)| == 1 + |s|
  {
    if s != [] && less(s[0], x) {
      CountInsert(less, x, s[1..]);
      CountAppend([s[0]], Insert(less, x, s[1..]));
      CountAppend([s[0]], s[1..]);
      assert s == [s[0]] + s[1..];
    } else {
      CountAppend([x], s);
    }
  }

  lemma {:induction false} CountSorted(less: (Entry, Entry) -> bool, s: seq<Entry>)
    ensures CountDirs(StableSort(less, s)) == CountDirs(s) && |StableSort(less, s)| == |s|
  {
    if s != [] {
      CountSorted(less, s[1..]);
      CountInsert(less, s[0], StableSort(less, s[1..]));
      CountAppend([s[0]], s[1..]);
      assert s == [s[0]] + s[1..];
    }
  }

  lemma {:induction false} DirsLead(entries: seq<Entry>)
    requires forall i, j :: 0 <= i < j < |entries| && entries[j].isDir ==> entries[i].isDir
    ensures forall i :: 0 <= i < |entries| ==> (entries[i].isDir <==> i < CountDirs(entries))
    decreases |entries|
  {
    if entries != [] {
      var n := |entries| - 1;
      DirsLead(entries[..n]);
      if entries[n].isDir {
        assert forall i :: 0 <= i < n ==> entries[..n][i].isDir;
        AllDirs(entries[..n]);
      }
    }
  }

  lemma {:induction false} AllDirs(entries: seq<Entry>)
    requires forall i :: 0 <= i < |entries| ==> entries[i].isDir
    ensures CountDirs(entries) == |entries|
    decreases |entries|
  {
    if entries != [] {
      AllDirs(entries[..|entries| - 1]);
    }
  }

  /** The badge for folders counts exactly the leading rows that are directories. */
  lemma {:induction false} CountsMatchList(maps: CaseMaps, entries: seq<Entry>)
    ensures var sorted := SortedEntries(maps, entries);
         && |sorted| == |entries|
         && forall i :: 0 <= i < |sorted| ==> (sorted[i].isDir <==> i < CountDirs(entries))
  {
    var sorted := SortedEntries(maps, entries);
    ListIsSorted(maps, entries, sorted);
    CountSorted(ListOrder(maps.fold), entries);
    forall i, j | 0 <= i < j < |sorted| && sorted[j].isDir ensures sorted[i].isDir {
      assert !Before(maps.fold, sorted[j], sorted[i]);
    }
    DirsLead(sorted);
  }

  // ----- rows -----

  datatype Row = Row(name: string, sizeText: string, sortKey: string)

  function MakeItem(maps: CaseMaps, e: Entry): Row {
    Row(e.name, if e.isDir then "—" else SizeText(e.size), SortKey(maps.lower, e))
  }

  /** What the columns of a row say about its entry. */
  predicate RowShows(maps: CaseMaps, row: Row, e: Entry) {
    && row.name == e.name
    && (e.isDir ==> row.sizeText == "—" && row.sortKey == "0:" + maps.lower(e.name))
    && (!e.isDir ==> row.sortKey == "1:" + maps.lower(e.name))
    && (!e.isDir && e.size >= 0 ==> ReadSize(row.sizeText) == Some(ShownBytes(e.size)))
    && (!e.isDir && e.size < 0 ==> row.sizeText == "—")
  }

  lemma {:induction false} ItemShowsEntry(maps: CaseMaps, e: Entry)
    ensures RowShows(maps, MakeItem(maps, e), e)
  {
    hide ReadSize, ShownBytes;
    if e.size >= 0 {
      SizeReadsBack(e.size);
    }
  }

  function RowsOf(maps: CaseMaps, entries: seq<Entry>): (rows: seq<Row>)
    ensures |rows| == |SortedEntries(maps, entries)|
    ensures forall i :: 0 <= i < |rows| ==> rows[i] == MakeItem(maps, SortedEntries(maps, entries)[i])
  {
    var sorted := SortedEntries(maps, entries);
    seq(|sorted|, i requires 0 <= i < |sorted| => MakeItem(maps, sorted[i]))
  }
}
