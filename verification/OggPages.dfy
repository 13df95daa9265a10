// Making an Ogg file reproducible: every page's serial number is cleared and its checksum redone,
// in place.

module OggPages {
  import opened Wrappers
  import opened OggChecksum

  datatype OggError = Truncated | Invalid

  const HEADER: nat := 27

  /** The letters every page starts with. */
  const CAPTURE: seq<Byte> := [0x4F, 0x67, 0x67, 0x53]

  function ByteSum(table: seq<Byte>): nat {
    if table == [] then 0 else ByteSum(table[..|table| - 1]) + table[|table| - 1] as nat
  }

  predicate StartsPage(d: seq<Byte>) { |d| >= HEADER && d[..4] == CAPTURE }

  /** The lengths of a page's segments, or as many of them as there are. */
  function SegmentTable(d: seq<Byte>): seq<Byte>
    requires |d| >= HEADER
  {
    var n := d[26] as nat;
    d[HEADER..if HEADER + n <= |d| then HEADER + n else |d|]
  }

  /** The size a page's own header claims. */
  function PageSize(d: seq<Byte>): (n: nat)
    requires |d| >= HEADER
    ensures n >= HEADER
  {
    HEADER + d[26] as nat + ByteSum(SegmentTable(d))
  }

  function LittleEndian(w: Word): (r: seq<Byte>)
    ensures |r| == 4
  {
    [(w & 0xFF) as Byte, ((w >> 8) & 0xFF) as Byte, ((w >> 16) & 0xFF) as Byte, ((w >> 24) & 0xFF) as Byte]
  }

  function ReadLittleEndian(b: seq<Byte>): Word
    requires |b| == 4
  {
    (b[0] as Word) | ((b[1] as Word) << 8) | ((b[2] as Word) << 16) | ((b[3] as Word) << 24)
  }

  /** The stored bytes read back, lowest first, as the checksum. */
  lemma ChecksumReadsBack(w: Word)
    ensures ReadLittleEndian(LittleEndian(w)) == w
  {
  }

  const ZEROS: seq<Byte> := [0, 0, 0, 0]

  function Write4(d: seq<Byte>, i: nat, bytes: seq<Byte>): (r: seq<Byte>)
    requires i + 4 <= |d| && |bytes| == 4
    ensures |r| == |d|
    ensures forall k :: 0 <= k < |d| ==> r[k] == if i <= k < i + 4 then bytes[k - i] else d[k]
  {
    d[..i] + bytes + d[i + 4..]
  }

  /** A page with its serial number and checksum cleared. */
  function Blank(page: seq<Byte>): (r: seq<Byte>)
    requires |page| >= HEADER
    ensures |r| == |page|
  {
    Write4(Write4(page, 14, ZEROS), 22, ZEROS)
  }

  /** A page with its serial number cleared and its checksum made right. */
  function Stamped(page: seq<Byte>): (r: seq<Byte>)
    requires |page| >= HEADER
    ensures |r| == |page|
  {
    Write4(Blank(page), 22, LittleEndian(Crc(Blank(page))))
  }

  /** The pages of a file; each is as long as its own header says, and together they fill it. */
  function SplitPages(d: seq<Byte>): (r: Result<seq<seq<Byte>>, OggError>)
    ensures r.Ok? ==> Concat(r.value) == d
    ensures r.Ok? ==> forall p <- r.value :: StartsPage(p) && PageSize(p) == |p|
  {
    if d == [] then Ok([])
    else if !StartsPage(d) then Err(Invalid)
    else if PageSize(d) > |d| then Err(Truncated)
    else
      var n := PageSize(d);
      assert d == d[..n] + d[n..];
      PageIsItself(d);
      match SplitPages(d[n..])
      case Err(e) => Err(e)
      case Ok(pages) => Ok([d[..n]] + pages)
  }

  function Concat(pages: seq<seq<Byte>>): seq<Byte> {
    if pages == [] then [] else pages[0] + Concat(pages[1..])
  }

  /** The file the script writes, or why it writes none. */
  function Canonical(d: seq<Byte>): (r: Result<seq<Byte>, OggError>)
    ensures r.Ok? ==> |r.value| == |d|
  {
    if d == [] then Ok([])
    else if !StartsPage(d) then Err(Invalid)
    else if PageSize(d) > |d| then Err(Truncated)
    else
      var n := PageSize(d);
      match Canonical(d[n..])
      case Err(e) => Err(e)
      case Ok(rest) => Ok(Stamped(d[..n]) + rest)
  }

  // ----- Slices of slices --------------------------------------------------------------------------

  lemma SliceOfDrop<T>(s: seq<T>, a: nat, lo: nat, hi: nat)
    requires lo <= hi && a + hi <= |s|
    ensures s[a..][lo..hi] == s[a + lo..a + hi]
  {
  }

  lemma SliceOfTake<T>(s: seq<T>, n: nat, lo: nat, hi: nat)
    requires lo <= hi <= n <= |s|
    ensures s[..n][lo..hi] == s[lo..hi]
  {
  }

  lemma SameSlice<T>(s: seq<T>, t: seq<T>, lo: nat, hi: nat)
    requires lo <= hi <= |s| && hi <= |t| && forall k :: lo <= k < hi ==> s[k] == t[k]
    ensures s[lo..hi] == t[lo..hi]
  {
  }

  // ----- Sizes depend on the untouched part of the header -----------------------------------------

  lemma PageIsItself(d: seq<Byte>)
    requires |d| >= HEADER && PageSize(d) <= |d|
    ensures PageSize(d[..PageSize(d)]) == PageSize(d)
    ensures StartsPage(d) ==> StartsPage(d[..PageSize(d)])
  {
    var n := PageSize(d);
    var tableEnd := HEADER + d[26] as nat;
    assert tableEnd <= n && d[..n][26] == d[26];
    SliceOfTake(d, n, HEADER, tableEnd);
    SliceOfTake(d, n, 0, 4);
  }

  /** Where the rewriting leaves a page alone. */
  predicate Untouched(k: nat) { !(14 <= k < 18) && !(22 <= k < 26) }

  lemma StampedKeeps(page: seq<Byte>)
    requires |page| >= HEADER
    ensures forall k :: 0 <= k < |page| && Untouched(k) ==> Stamped(page)[k] == page[k]
    ensures Stamped(page)[14..18] == ZEROS
    ensures Stamped(page)[22..26] == LittleEndian(Crc(Blank(page)))
  {
    hide Crc, LittleEndian;
  }

  lemma StampedKeepsSize(page: seq<Byte>, rest: seq<Byte>)
    requires StartsPage(page) && PageSize(page) == |page|
    ensures StartsPage(Stamped(page) + rest) && PageSize(Stamped(page) + rest) == |page|
  {
    hide Stamped, ByteSum, Crc, LittleEndian;
    StampedKeeps(page);
    var d := Stamped(page) + rest;
    SameSlice(d, page, 0, 4);
    SameSlice(d, page, HEADER, HEADER + page[26] as nat);
  }

  /** Clearing undoes stamping. */
  lemma BlankOfStamped(page: seq<Byte>)
    requires |page| >= HEADER
    ensures Blank(Stamped(page)) == Blank(page)
  {
    hide Crc, LittleEndian;
  }

  // ----- Main results -----------------------------------------------------------------------------

  function StampAll(pages: seq<seq<Byte>>): (r: seq<seq<Byte>>)
    requires forall p <- pages :: |p| >= HEADER
    ensures |r| == |pages|
  {
    seq(|pages|, i requires 0 <= i < |pages| => Stamped(pages[i]))
  }

  lemma StampedPageComesFirst(page: seq<Byte>, tail: seq<Byte>)
    requires StartsPage(page) && PageSize(page) == |page|
    ensures SplitPages(Stamped(page) + tail) ==
      if SplitPages(tail).Ok? then Ok([Stamped(page)] + SplitPages(tail).value) else SplitPages(tail)
  {
    hide Stamped, PageSize;
    StampedKeepsSize(page, tail);
    var c := Stamped(page) + tail;
    assert c[..|page|] == Stamped(page) && c[|page|..] == tail;
  }

  lemma FirstPage(d: seq<Byte>)
    requires StartsPage(d) && PageSize(d) <= |d|
    ensures var page, rest := d[..PageSize(d)], d[PageSize(d)..];
      && SplitPages(d) == (if SplitPages(rest).Ok? then Ok([page] + SplitPages(rest).value) else SplitPages(rest))
      && Canonical(d) == (if Canonical(rest).Ok? then Ok(Stamped(page) + Canonical(rest).value) else Canonical(rest))
  {
    hide Stamped, PageSize, Concat;
  }

  /** The rewritten file is the stamped pages in order, and splits back into exactly those. */
  lemma {:induction false} CanonicalStampsEveryPage(d: seq<Byte>)
    ensures SplitPages(d).Err? ==> Canonical(d) == Err(SplitPages(d).error)
    ensures SplitPages(d).Ok? ==>
      Canonical(d).Ok? && SplitPages(Canonical(d).value) == Ok(StampAll(SplitPages(d).value))
    decreases |d|
  {
    hide PageSize, Stamped, Concat;
    if d != [] && StartsPage(d) && PageSize(d) <= |d| {
      hide SplitPages, Canonical;
      var page, rest := d[..PageSize(d)], d[PageSize(d)..];
      FirstPage(d);
      CanonicalStampsEveryPage(rest);
      PageIsItself(d);
      if SplitPages(rest).Ok? {
        StampedPageComesFirst(page, Canonical(rest).value);
        StampAllSplits(page, SplitPages(rest).value);
      }
    }
  }

  lemma StampAllSplits(page: seq<Byte>, pages: seq<seq<Byte>>)
    requires |page| >= HEADER && forall p <- pages :: |p| >= HEADER
    ensures forall p <- [page] + pages :: |p| >= HEADER
    ensures StampAll([page] + pages) == [Stamped(page)] + StampAll(pages)
  {
    hide Stamped;
  }

  /**
   * In the rewritten file every page has a cleared serial number and stores the checksum of
   * itself with the checksum field cleared; every other byte is the page's own.
   */
  lemma CanonicalPagesAreRight(d: seq<Byte>, i: nat)
    requires SplitPages(d).Ok? && i < |SplitPages(d).value|
    ensures Canonical(d).Ok?
    ensures var was, pages := SplitPages(d).value, SplitPages(Canonical(d).value);
      && pages.Ok? && |pages.value| == |was| && |pages.value[i]| == |was[i]| >= HEADER
      && pages.value[i][14..18] == ZEROS
      && ReadLittleEndian(pages.value[i][22..26]) == Crc(Write4(pages.value[i], 22, ZEROS))
      && forall k :: 0 <= k < |was[i]| && Untouched(k) ==> pages.value[i][k] == was[i][k]
  {
    hide Stamped, Crc, LittleEndian, ReadLittleEndian, SplitPages, Canonical;
    CanonicalStampsEveryPage(d);
    var page := SplitPages(d).value[i];
    assert page in SplitPages(d).value;
    StampedKeeps(page);
    BlankOfStamped(page);
    ClearedSerial(Stamped(page));
    ChecksumReadsBack(Crc(Blank(page)));
  }

  lemma ClearedSerial(page: seq<Byte>)
    requires |page| >= HEADER && page[14..18] == ZEROS
    ensures Write4(page, 22, ZEROS) == Blank(page)
  {
    assert forall k :: 14 <= k < 18 ==> page[k] == page[14..18][k - 14];
  }

  /** A second run changes nothing. */
  lemma CanonicalIsIdempotent(d: seq<Byte>)
    requires Canonical(d).Ok?
    ensures Canonical(Canonical(d).value) == Canonical(d)
  {
    hide Stamped, SplitPages, Canonical;
    CanonicalStampsEveryPage(d);
    CanonicalIsConcat(d);
    var c := Canonical(d).value;
    CanonicalStampsEveryPage(c);
    CanonicalIsConcat(c);
    var pages := SplitPages(d).value;
    forall i | 0 <= i < |pages|
      ensures StampAll(StampAll(pages))[i] == StampAll(pages)[i]
    {
      assert pages[i] in pages;
      StampingTwice(pages[i]);
    }
    assert StampAll(StampAll(pages)) == StampAll(pages);
  }

  lemma StampingTwice(page: seq<Byte>)
    requires |page| >= HEADER
    ensures Stamped(Stamped(page)) == Stamped(page)
  {
    BlankOfStamped(page);
  }

  lemma CanonicalIsConcat(d: seq<Byte>)
    requires SplitPages(d).Ok?
    ensures Canonical(d) == Ok(Concat(StampAll(SplitPages(d).value)))
  {
    CanonicalStampsEveryPage(d);
  }

  function BlankAll(pages: seq<seq<Byte>>): (r: seq<seq<Byte>>)
    requires forall p <- pages :: |p| >= HEADER
    ensures |r| == |pages|
  {
    seq(|pages|, i requires 0 <= i < |pages| => Blank(pages[i]))
  }

  /** Two files are rewritten alike exactly when they differ in serial numbers and checksums only. */
  lemma SameFileIff(d: seq<Byte>, e: seq<Byte>)
    requires Canonical(d).Ok? && Canonical(e).Ok?
    ensures SplitPages(d).Ok? && SplitPages(e).Ok?
    ensures Canonical(d) == Canonical(e) <==> BlankAll(SplitPages(d).value) == BlankAll(SplitPages(e).value)
  {
    hide Blank, Stamped, SplitPages, Canonical, Concat;
    CanonicalStampsEveryPage(d);
    CanonicalStampsEveryPage(e);
    CanonicalIsConcat(d);
    CanonicalIsConcat(e);
    var p, q := SplitPages(d).value, SplitPages(e).value;
    if Canonical(d) == Canonical(e) {
      assert StampAll(p) == StampAll(q);
      BlanksOfStamps(p);
      BlanksOfStamps(q);
    }
    if BlankAll(p) == BlankAll(q) { StampsOfBlanks(p, q); }
  }

  lemma StampsOfBlanks(p: seq<seq<Byte>>, q: seq<seq<Byte>>)
    requires forall page <- p :: |page| >= HEADER
    requires forall page <- q :: |page| >= HEADER
    requires BlankAll(p) == BlankAll(q)
    ensures StampAll(p) == StampAll(q)
  {
    hide Blank, Stamped;
    assert |p| == |BlankAll(p)| == |q|;
    forall i | 0 <= i < |p|
      ensures StampAll(p)[i] == StampAll(q)[i]
    {
      assert BlankAll(p)[i] == BlankAll(q)[i];
      assert p[i] in p && q[i] in q;
      StampOfBlank(p[i], q[i]);
    }
  }

  lemma StampOfBlank(p: seq<Byte>, q: seq<Byte>)
    requires |p| >= HEADER && |q| >= HEADER && Blank(p) == Blank(q)
    ensures Stamped(p) == Stamped(q)
  {
  }

  lemma BlanksOfStamps(pages: seq<seq<Byte>>)
    requires forall p <- pages :: |p| >= HEADER
    ensures forall p <- StampAll(pages) :: |p| >= HEADER
    ensures BlankAll(StampAll(pages)) == BlankAll(pages)
  {
    hide Blank, Stamped;
    forall i | 0 <= i < |pages|
      ensures |StampAll(pages)[i]| >= HEADER && Blank(StampAll(pages)[i]) == Blank(pages[i])
    {
      assert pages[i] in pages;
      BlankOfStamped(pages[i]);
    }
  }

  // ----- The script's loop ----------------------------------------------------------------------------

  method SumOf(table: seq<Byte>) returns (total: nat)
    ensures total == ByteSum(table)
  {
    total := 0;
    for i := 0 to |table|
      invariant total == ByteSum(table[..i])
    {
      assert table[..i + 1][..i] == table[..i];
      total := total + table[i] as nat;
    }
    assert table[..|table|] == table;
  }

  method Assign4(data: array<Byte>, at: nat, bytes: seq<Byte>)
    requires at + 4 <= data.Length && |bytes| == 4
    modifies data
    ensures forall k :: 0 <= k < data.Length ==> data[k] == if at <= k < at + 4 then bytes[k - at] else old(data[k])
  {
    data[at], data[at + 1], data[at + 2], data[at + 3] := bytes[0], bytes[1], bytes[2], bytes[3];
  }

  /** Rewrites one page where it lies. */
  method StampPage(data: array<Byte>, offset: nat, end: nat)
    requires offset + HEADER <= end <= data.Length
    modifies data
    ensures data[offset..end] == Stamped(old(data[offset..end]))
    ensures data[..offset] == old(data[..offset]) && data[end..] == old(data[end..])
  {
    hide Crc, LittleEndian;
    ghost var page := data[offset..end];
    Assign4(data, offset + 14, ZEROS);
    Assign4(data, offset + 22, ZEROS);
    assert data[offset..end] == Blank(page);
    var checksum := OggCrc(data[offset..end]);
    Assign4(data, offset + 22, LittleEndian(checksum));
  }

  /** Measures the page at an offset and rewrites it, unless it runs past the end. */
  method RewriteNext(data: array<Byte>, offset: nat) returns (end: nat)
    requires offset + HEADER <= data.Length
    modifies data
    ensures end == offset + PageSize(old(data[offset..])) && end > offset
    ensures end > data.Length ==> data[..] == old(data[..])
    ensures end <= data.Length ==> data[offset..end] == Stamped(old(data[offset..end]))
    ensures end <= data.Length ==> data[..offset] == old(data[..offset]) && data[end..] == old(data[end..])
  {
    hide Stamped, PageSize, SegmentTable;
    var segmentCount := data[offset + 26] as nat;
    var tableEnd := if offset + HEADER + segmentCount <= data.Length
                    then offset + HEADER + segmentCount else data.Length;
    var segments := SumOf(data[offset + HEADER..tableEnd]);
    end := offset + HEADER + segmentCount + segments;
    assert data[..][offset + HEADER..tableEnd] == data[offset + HEADER..tableEnd];
    assert data[..][offset..] == data[offset..];
    SizeInPlace(data[..], offset);
    if end <= data.Length { StampPage(data, offset, end); }
  }

  /** Rewrites a whole file in memory; it is written back only on success. */
  method CanonicalizeOgg(data: array<Byte>) returns (r: Result<(), OggError>)
    modifies data
    ensures r.Ok? <==> Canonical(old(data[..])).Ok?
    ensures r.Ok? ==> data[..] == Canonical(old(data[..])).value
    ensures r.Err? ==> Canonical(old(data[..])) == Err(r.error)
  {
    hide Stamped, PageSize, Canonical;
    ghost var was := data[..];
    var offset := 0;
    CanonicalStarts(was);
    while offset + HEADER <= data.Length && data[offset..offset + 4] == CAPTURE
      invariant offset <= data.Length && |was| == data.Length
      invariant data[offset..] == was[offset..]
      invariant Canonical(was) == Resume(data[..offset], Canonical(was[offset..]))
      decreases data.Length - offset
    {
      SliceOfDrop(data[..], offset, 0, 4);
      assert was[offset..] == data[..][offset..];
      CanonicalStep(was, data[..offset], offset);
      ghost var before := data[..];
      var end := RewriteNext(data, offset);
      if end > data.Length { return Err(Truncated); }
      assert before[offset..end] == before[offset..][..end - offset] == was[offset..end];
      assert data[..end] == data[..offset] + data[offset..end];
      offset := end;
    }
    CanonicalStops(was, offset);
    if offset != data.Length {
      if offset + HEADER <= data.Length {
        SliceOfDrop(data[..], offset, 0, 4);
        assert was[offset..] == data[..][offset..];
      }
      return Err(Invalid);
    }
    assert data[..offset] == data[..];
    return Ok(());
  }

  lemma CanonicalStarts(was: seq<Byte>)
    ensures Canonical(was) == Resume([], Canonical(was[0..]))
  {
    assert was[0..] == was;
    if Canonical(was).Ok? { assert [] + Canonical(was).value == Canonical(was).value; }
  }

  lemma CanonicalStep(was: seq<Byte>, front: seq<Byte>, offset: nat)
    requires offset < |was| && StartsPage(was[offset..])
    ensures offset + PageSize(was[offset..]) > |was| ==> Canonical(was[offset..]) == Err(Truncated)
    ensures offset + PageSize(was[offset..]) <= |was| ==>
      var end := offset + PageSize(was[offset..]);
      Resume(front, Canonical(was[offset..])) == Resume(front + Stamped(was[offset..end]), Canonical(was[end..]))
  {
    hide Stamped, PageSize;
    var rest, n := was[offset..], PageSize(was[offset..]);
    if n <= |rest| {
      assert rest[..n] == was[offset..offset + n] && rest[n..] == was[offset + n..];
      var tail := Canonical(rest[n..]);
      if tail.Ok? { assert front + (Stamped(rest[..n]) + tail.value) == front + Stamped(rest[..n]) + tail.value; }
    }
  }

  lemma CanonicalStops(was: seq<Byte>, offset: nat)
    requires offset <= |was|
    ensures offset == |was| ==> Canonical(was[offset..]) == Ok([])
    ensures offset < |was| && !StartsPage(was[offset..]) ==> Canonical(was[offset..]) == Err(Invalid)
  {
  }

  function Resume(front: seq<Byte>, rest: Result<seq<Byte>, OggError>): Result<seq<Byte>, OggError> {
    match rest
    case Err(e) => Err(e)
    case Ok(d) => Ok(front + d)
  }

  lemma SizeInPlace(d: seq<Byte>, offset: nat)
    requires offset + HEADER <= |d|
    ensures var n := d[offset + 26] as nat;
      var tableEnd := if offset + HEADER + n <= |d| then offset + HEADER + n else |d|;
      PageSize(d[offset..]) == HEADER + n + ByteSum(d[offset + HEADER..tableEnd])
  {
    var n := d[offset + 26] as nat;
    var tableEnd := if offset + HEADER + n <= |d| then offset + HEADER + n else |d|;
    SliceOfDrop(d, offset, HEADER, tableEnd - offset);
  }

  // ----- What a header says ------------------------------------------------------------------------------

  /** The first so many numbers of a page's segment table, which begins at byte 27, added up. */
  function SegmentsFrom(page: seq<Byte>, n: nat): nat
    requires 27 + n <= |page|
  {
    if n == 0 then 0 else SegmentsFrom(page, n - 1) + page[26 + n] as nat
  }

  lemma {:induction false} SegmentsAdd(page: seq<Byte>, n: nat)
    requires 27 + n <= |page|
    ensures ByteSum(page[27..27 + n]) == SegmentsFrom(page, n)
  {
    if n > 0 {
      SegmentsAdd(page, n - 1);
      assert page[27..27 + n][..n - 1] == page[27..27 + n - 1];
    }
  }

  /** Starts with the letters OggS, and is 27 bytes, a table as long as byte 26 says, and its segments. */
  predicate SpelledOut(page: seq<Byte>) {
    && 27 <= |page| && page[0] == 0x4F && page[1] == 0x67 && page[2] == 0x67 && page[3] == 0x53
    && 27 + page[26] as nat <= |page| && |page| == 27 + page[26] as nat + SegmentsFrom(page, page[26] as nat)
  }

  lemma PageSpellsOut(page: seq<Byte>)
    requires StartsPage(page) && PageSize(page) == |page|
    ensures SpelledOut(page)
  {
    var n := page[26] as nat;
    assert page[0] == page[..4][0] && page[1] == page[..4][1] && page[2] == page[..4][2] && page[3] == page[..4][3];
    TableFits(page);
    SegmentsAdd(page, n);
  }

  lemma TableFits(page: seq<Byte>)
    requires |page| >= HEADER && PageSize(page) == |page|
    ensures HEADER + page[26] as nat <= |page|
    ensures SegmentTable(page) == page[27..27 + page[26] as nat]
  {
  }

  /** The pages of every file that can be rewritten are spelled out so. */
  lemma PagesSpellOut(d: seq<Byte>, i: nat)
    requires SplitPages(d).Ok? && i < |SplitPages(d).value|
    ensures SpelledOut(SplitPages(d).value[i])
  {
    hide SplitPages, StartsPage, PageSize, SpelledOut;
    var page := SplitPages(d).value[i];
    assert page in SplitPages(d).value;
    PageSpellsOut(page);
  }

  /** Whole pages, then something that is none: not a page's beginning, or shorter than its header says. */
  lemma {:induction false} RefusalIs(d: seq<Byte>) returns (pages: seq<seq<Byte>>, rest: seq<Byte>)
    requires Canonical(d).Err?
    ensures Concat(pages) + rest == d && rest != []
    ensures forall p <- pages :: SpelledOut(p)
    ensures Canonical(d) == Err(Invalid) ==>
      |rest| < 27 || rest[0] != 0x4F || rest[1] != 0x67 || rest[2] != 0x67 || rest[3] != 0x53
    ensures Canonical(d) == Err(Truncated) ==>
      |rest| >= 27 && (27 + rest[26] as nat > |rest|
                       || 27 + rest[26] as nat + SegmentsFrom(rest, rest[26] as nat) > |rest|)
    decreases |d|
  {
    hide Stamped, SpelledOut, ByteSum;
    if !StartsPage(d) {
      pages, rest := [], d;
      NotAPage(d);
    } else if PageSize(d) > |d| {
      pages, rest := [], d;
      CutShort(d);
    } else {
      var n := PageSize(d);
      var more, last := RefusalIs(d[n..]);
      pages, rest := [d[..n]] + more, last;
      PageIsItself(d);
      PageSpellsOut(d[..n]);
      assert d == d[..n] + (Concat(more) + last);
      assert Concat(pages) == d[..n] + Concat(more) by { assert pages[1..] == more; }
    }
  }

  lemma NotAPage(d: seq<Byte>)
    requires !StartsPage(d)
    ensures |d| < 27 || d[0] != 0x4F || d[1] != 0x67 || d[2] != 0x67 || d[3] != 0x53
  {
    if |d| >= 27 { assert d[..4] == [d[0], d[1], d[2], d[3]]; }
  }

  lemma CutShort(d: seq<Byte>)
    requires |d| >= HEADER && PageSize(d) > |d|
    ensures 27 + d[26] as nat > |d| || 27 + d[26] as nat + SegmentsFrom(d, d[26] as nat) > |d|
  {
    hide ByteSum, SegmentsFrom;
    var n := d[26] as nat;
    if 27 + n <= |d| {
      SegmentsAdd(d, n);
      assert SegmentTable(d) == d[27..27 + n];
    }
  }
}
