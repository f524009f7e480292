/** The ML2 type driver that hands out route target numbers for tenant
    networks. Its allocation table, one row per route target number with an
    "allocated" flag, is kept here as a map from number to flag; the
    configured ranges are the "min:max" strings of the `rt_nn_ranges`
    option. */
module RouteTargetPool {
  import opened Wrappers
  import opened Text

  const MIN_RT_NN := 1
  const MAX_RT_NN := 65535
  const TYPE_ROUTE_TARGET := "route_target"

  const NETWORK_TYPE := "network_type"
  const PHYSICAL_NETWORK := "physical_network"
  const SEGMENTATION_ID := "segmentation_id"

  /** A value held in a network segment dict. */
  datatype Value = VNone | VInt(i: int) | VStr(s: string)

  /** Python truthiness of a segment value. */
  predicate Truthy(v: Value) {
    match v
    case VNone => false
    case VInt(i) => i != 0
    case VStr(s) => s != ""
  }

  type Segment = map<string, Value>

  /** `segment.get(key)`: None for an absent key. */
  function Get(segment: Segment, key: string): Value {
    if key in segment then segment[key] else VNone
  }

  /** An inclusive range of route target numbers, as configured. */
  datatype Range = Range(lo: int, hi: int)

  /** The allocation table: route target number to "allocated". */
  type Table = map<int, bool>

  datatype PoolError =
    | PhysicalNetworkSpecified(networkType: Value)
    | SegmentationIdRequired
    | SegmentationIdOutOfRange
    | ProhibitedAttributes(keys: set<string>)  // the source names one of these keys
    | RouteTargetInUse(rtNn: int)

  // ---------------------------------------------------------------------
  // Parsing the configured ranges

  /** One configured entry: stripped, split on ':' into exactly two parts,
      each stripped and read as a decimal integer. Anything else is
      rejected (and only logged by the driver). */
  function ParseRangeEntry(entry: string): Option<Range> {
    var parts := Split(Strip(entry), ':');
    if |parts| != 2 then None
    else
      var lo, hi := ParseInt(Strip(parts[0])), ParseInt(Strip(parts[1]));
      if lo.Some? && hi.Some? then Some(Range(lo.value, hi.value)) else None
  }

  /** The ranges a list of entries contributes, in input order, skipping
      malformed entries. */
  function ParsedRanges(entries: seq<string>): (r: seq<Range>)
    ensures |r| <= |entries|
  {
    if entries == [] then []
    else
      var last := ParseRangeEntry(entries[|entries| - 1]);
      ParsedRanges(entries[..|entries| - 1]) + (if last.Some? then [last.value] else [])
  }

  /** Parsing one more entry appends its range, if it has one. */
  lemma ParsedRangesStep(entries: seq<string>, i: nat)
    requires i < |entries|
    ensures ParsedRanges(entries[..i + 1]) ==
      ParsedRanges(entries[..i]) + (if ParseRangeEntry(entries[i]).Some? then [ParseRangeEntry(entries[i]).value] else [])
  {
    assert entries[..i + 1][..i] == entries[..i];
  }

  /** The canonical text of a range. */
  function FormatRange(r: Range): string {
    IntToString(r.lo) + ":" + IntToString(r.hi)
  }

  /** Two separator-free pieces joined by ':' split back into the pieces. */
  lemma SplitPair(x: string, y: string)
    requires forall i :: 0 <= i < |x| ==> x[i] != ':'
    requires forall i :: 0 <= i < |y| ==> y[i] != ':'
    ensures Split(x + [':'] + y, ':') == [x, y]
  {
    assert ':' !in x && ':' !in y;
    SplitAtFirst(x, ':', y);
    SplitNoSep(y, ':');
  }

  /** An entry that is already stripped and splits into two integer texts
      yields their range. */
  lemma ParseRangeEntryOfParts(e: string, x: string, y: string, lo: int, hi: int)
    requires Strip(e) == e && Split(e, ':') == [x, y]
    requires ParseInt(Strip(x)) == Some(lo) && ParseInt(Strip(y)) == Some(hi)
    ensures ParseRangeEntry(e) == Some(Range(lo, hi))
  {
  }

  lemma JoinNoSpace(x: string, y: string)
    requires forall i :: 0 <= i < |x| ==> !IsSpace(x[i])
    requires forall i :: 0 <= i < |y| ==> !IsSpace(y[i])
    ensures forall i :: 0 <= i < |x + [':'] + y| ==> !IsSpace((x + [':'] + y)[i])
  {
    var s := x + [':'] + y;
    forall i | 0 <= i < |s| ensures !IsSpace(s[i]) {
      if i < |x| { assert s[i] == x[i]; }
      else if i > |x| { assert s[i] == y[i - |x| - 1]; }
    }
  }

  /** Two integer texts without white space or ':' joined by ':' parse as
      the range of their values. */
  lemma RangeTextParses(x: string, y: string, lo: int, hi: int)
    requires forall i :: 0 <= i < |x| ==> !IsSpace(x[i]) && x[i] != ':'
    requires forall i :: 0 <= i < |y| ==> !IsSpace(y[i]) && y[i] != ':'
    requires ParseInt(x) == Some(lo) && ParseInt(y) == Some(hi)
    ensures ParseRangeEntry(x + [':'] + y) == Some(Range(lo, hi))
  {
    JoinNoSpace(x, y);
    StripNoSpace(x + [':'] + y);
    StripNoSpace(x);
    StripNoSpace(y);
    SplitPair(x, y);
    ParseRangeEntryOfParts(x + [':'] + y, x, y, lo, hi);
  }

  /** Every range is read back from its canonical text. */
  lemma ParseFormatRange(r: Range)
    ensures ParseRangeEntry(FormatRange(r)) == Some(r)
  {
    IntToStringRoundTrip(r.lo);
    IntToStringRoundTrip(r.hi);
    RangeTextParses(IntToString(r.lo), IntToString(r.hi), r.lo, r.hi);
  }

  /** Parsing a concatenation of entry lists concatenates the results. */
  lemma {:induction false} ParsedRangesConcat(a: seq<string>, b: seq<string>)
    ensures ParsedRanges(a + b) == ParsedRanges(a) + ParsedRanges(b)
    decreases |b|
  {
    if b == [] {
      assert a + b == a;
    } else {
      var b' := b[..|b| - 1];
      assert (a + b)[..|a + b| - 1] == a + b';
      assert (a + b)[|a + b| - 1] == b[|b| - 1];
      ParsedRangesConcat(a, b');
    }
  }

  /** When every entry is well formed, each yields exactly its own range, in
      order. */
  lemma {:induction false} ParsedRangesAllWellFormed(entries: seq<string>)
    requires forall i :: 0 <= i < |entries| ==> ParseRangeEntry(entries[i]).Some?
    ensures |ParsedRanges(entries)| == |entries|
    ensures forall i :: 0 <= i < |entries| ==> ParsedRanges(entries)[i] == ParseRangeEntry(entries[i]).value
  {
    if entries != [] {
      var init := entries[..|entries| - 1];
      ParsedRangesAllWellFormed(init);
      var last := ParseRangeEntry(entries[|entries| - 1]);
      assert ParsedRanges(entries) == ParsedRanges(init) + [last.value];
      forall i | 0 <= i < |entries|
        ensures ParsedRanges(entries)[i] == ParseRangeEntry(entries[i]).value
      {
        if i < |init| {
          assert init[i] == entries[i];
        }
      }
    }
  }

  /** The configured text of a list of ranges parses back to that list. */
  lemma ParsedRangesRoundTrip(rs: seq<Range>)
    ensures ParsedRanges(seq(|rs|, i requires 0 <= i < |rs| => FormatRange(rs[i]))) == rs
  {
    var entries := seq(|rs|, i requires 0 <= i < |rs| => FormatRange(rs[i]));
    forall i | 0 <= i < |entries| ensures ParseRangeEntry(entries[i]) == Some(rs[i]) {
      ParseFormatRange(rs[i]);
    }
    ParsedRangesAllWellFormed(entries);
  }

  /** An entry with a number of ':'-separated parts other than two adds no
      range. */
  lemma MalformedEntryIgnored(entries: seq<string>, e: string)
    requires |Split(Strip(e), ':')| != 2
    ensures ParsedRanges(entries + [e]) == ParsedRanges(entries)
  {
    assert (entries + [e])[..|entries|] == entries;
  }

  // ---------------------------------------------------------------------
  // Segments

  /** A route target number is valid when it is non-zero and fits the
      16-bit assigned-number field of a type 0 route target. */
  predicate IsValidRouteTargetNumber(n: int)
    ensures IsValidRouteTargetNumber(n) <==> 0 < n < 0x1_0000
  {
    MIN_RT_NN <= n <= MAX_RT_NN
  }

  /** A segment is partial when it carries no segmentation id: the key is
      absent or holds None. */
  predicate IsPartialSegment(segment: Segment)
    ensures IsPartialSegment(segment) <==> SEGMENTATION_ID !in segment || segment[SEGMENTATION_ID].VNone?
  {
    Get(segment, SEGMENTATION_ID) == VNone
  }

  /** The keys a provider segment may set. */
  predicate IsSegmentKey(key: string) {
    key == NETWORK_TYPE || key == PHYSICAL_NETWORK || key == SEGMENTATION_ID
  }

  /** Checks of a provider segment, in the driver's order. A string
      segmentation id never lies in range: under Python 2 ordering every
      integer compares below every string. */
  function ValidateProviderSegment(segment: Segment): (r: Outcome<PoolError>)
    ensures r.Pass? <==>
      && !Truthy(Get(segment, PHYSICAL_NETWORK))
      && Get(segment, SEGMENTATION_ID).VInt?
      && MIN_RT_NN <= Get(segment, SEGMENTATION_ID).i <= MAX_RT_NN
      && (forall k :: k in segment && Truthy(segment[k]) ==> IsSegmentKey(k))
    ensures Truthy(Get(segment, PHYSICAL_NETWORK)) ==> r == Fail(PhysicalNetworkSpecified(Get(segment, NETWORK_TYPE)))
    ensures r == Fail(SegmentationIdRequired) ==> IsPartialSegment(segment)
    ensures r.Fail? && r.error.ProhibitedAttributes? ==>
      r.error.keys != {} && forall k :: k in r.error.keys <==> k in segment && Truthy(segment[k]) && !IsSegmentKey(k)
  {
    var physicalNetwork := Get(segment, PHYSICAL_NETWORK);
    var segmentationId := Get(segment, SEGMENTATION_ID);
    var prohibited := set k | k in segment && Truthy(segment[k]) && !IsSegmentKey(k);
    if Truthy(physicalNetwork) then Fail(PhysicalNetworkSpecified(Get(segment, NETWORK_TYPE)))
    else if segmentationId == VNone then Fail(SegmentationIdRequired)
    else if !(segmentationId.VInt? && IsValidRouteTargetNumber(segmentationId.i)) then Fail(SegmentationIdOutOfRange)
    else if prohibited != {} then Fail(ProhibitedAttributes(prohibited))
    else
      assert forall k :: k in segment && Truthy(segment[k]) && !IsSegmentKey(k) ==> k in prohibited;
      Pass
  }

  /** A segment that passes validation is never partial, and a partial one
      never passes. */
  lemma ValidSegmentIsComplete(segment: Segment)
    ensures ValidateProviderSegment(segment).Pass? ==> !IsPartialSegment(segment)
    ensures IsPartialSegment(segment) ==> ValidateProviderSegment(segment).Fail?
  {
  }

  /** The segment a tenant allocation returns. */
  function TenantSegment(rtNn: int): Segment {
    map[NETWORK_TYPE := VStr(TYPE_ROUTE_TARGET), PHYSICAL_NETWORK := VNone, SEGMENTATION_ID := VInt(rtNn)]
  }

  /** A tenant segment is complete, and would pass provider validation
      exactly when its number is a valid route target number. */
  lemma TenantSegmentValidates(rtNn: int)
    ensures !IsPartialSegment(TenantSegment(rtNn))
    ensures ValidateProviderSegment(TenantSegment(rtNn)).Pass? <==> IsValidRouteTargetNumber(rtNn)
  {
    var s := TenantSegment(rtNn);
    assert Get(s, SEGMENTATION_ID) == VInt(rtNn);
    assert Get(s, PHYSICAL_NETWORK) == VNone;
    forall k | k in s && Truthy(s[k]) ensures IsSegmentKey(k) { }
  }

  // ---------------------------------------------------------------------
  // The pool and the table

  /** Ranges wider than MAX_RT_NN numbers are skipped by synchronisation. */
  predicate Reasonable(r: Range) {
    r.hi + 1 - r.lo <= MAX_RT_NN
  }

  /** The numbers of an inclusive range. */
  function RangeSet(r: Range): (s: set<int>)
    ensures forall n :: n in s <==> r.lo <= n <= r.hi
    decreases r.hi - r.lo
  {
    if r.lo > r.hi then {} else {r.lo} + RangeSet(Range(r.lo + 1, r.hi))
  }

  /** The allocatable numbers: the union of the reasonable ranges. */
  function Pool(ranges: seq<Range>): set<int> {
    if ranges == [] then {}
    else
      var last := ranges[|ranges| - 1];
      Pool(ranges[..|ranges| - 1]) + (if Reasonable(last) then RangeSet(last) else {})
  }

  /** A number lies in some configured range, reasonable or not. */
  predicate InSomeRange(ranges: seq<Range>, n: int) {
    exists k :: 0 <= k < |ranges| && ranges[k].lo <= n <= ranges[k].hi
  }

  /** The pool is exactly the set of numbers covered by a reasonable range. */
  lemma {:induction false} PoolMembership(ranges: seq<Range>, n: int)
    ensures n in Pool(ranges) <==> exists k :: 0 <= k < |ranges| && Reasonable(ranges[k]) && ranges[k].lo <= n <= ranges[k].hi
  {
    if ranges != [] {
      var init := ranges[..|ranges| - 1];
      PoolMembership(init, n);
      if n in Pool(ranges) && n !in Pool(init) {
        var k := |ranges| - 1;
        assert Reasonable(ranges[k]) && ranges[k].lo <= n <= ranges[k].hi;
      }
      if k :| 0 <= k < |ranges| && Reasonable(ranges[k]) && ranges[k].lo <= n <= ranges[k].hi {
        if k < |init| {
          assert init[k] == ranges[k];
        } else {
          assert n in RangeSet(ranges[k]);
        }
      }
    }
  }

  lemma PoolWithinRanges(ranges: seq<Range>, n: int)
    requires n in Pool(ranges)
    ensures InSomeRange(ranges, n)
  {
    PoolMembership(ranges, n);
  }

  /** What the driver keeps true of its table: every allocatable number has
      a row, and every free row lies in a configured range. */
  predicate TableInvariant(table: Table, ranges: seq<Range>) {
    && (forall n :: n in Pool(ranges) ==> n in table)
    && (forall n :: n in table && !table[n] ==> InSomeRange(ranges, n))
  }

  predicate HasFreeRow(table: Table) {
    exists n :: n in table && !table[n]
  }

  /** Synchronisation of the table with the configured ranges. */
  function Sync(table: Table, ranges: seq<Range>): (r: Table)
    ensures forall n :: n in Pool(ranges) ==> n in r
    ensures forall n :: n in Pool(ranges) && n !in table ==> !r[n]
    ensures forall n :: n in table ==> (n in r <==> n in Pool(ranges) || table[n])
    ensures forall n :: n in table && n in r ==> r[n] == table[n]
    ensures forall n :: n in r ==> n in table || n in Pool(ranges)
  {
    var pool := Pool(ranges);
    map n | n in table.Keys + pool && (n in pool || table[n]) :: if n in table then table[n] else false
  }

  /** Synchronisation establishes the table invariant. */
  lemma SyncEstablishesInvariant(table: Table, ranges: seq<Range>)
    ensures TableInvariant(Sync(table, ranges), ranges)
  {
    var r := Sync(table, ranges);
    forall n | n in r && !r[n] ensures InSomeRange(ranges, n) {
      PoolWithinRanges(ranges, n);
    }
  }

  /** Synchronising twice against the same ranges changes nothing more. */
  lemma SyncIdempotent(table: Table, ranges: seq<Range>)
    ensures Sync(Sync(table, ranges), ranges) == Sync(table, ranges)
  {
  }

  /** Reservation of a specific number: an allocated row is in use; a free
      row becomes allocated; an absent number gets a new allocated row. */
  function Reserve(table: Table, rtNn: int): (r: Result<Table, PoolError>)
    ensures r.Failure? <==> rtNn in table && table[rtNn]
    ensures r.Failure? ==> r.error == RouteTargetInUse(rtNn)
    ensures r.Success? ==> r.value.Keys == table.Keys + {rtNn} && r.value[rtNn]
    ensures r.Success? ==> forall n :: n in table && n != rtNn ==> r.value[n] == table[n]
  {
    if rtNn in table && table[rtNn] then Failure(RouteTargetInUse(rtNn))
    else Success(table[rtNn := true])
  }

  /** The table after the free row `rtNn` is handed to a tenant. */
  function Allocated(table: Table, rtNn: int): (r: Table)
    requires rtNn in table && !table[rtNn]
    ensures r.Keys == table.Keys && r[rtNn]
    ensures forall n :: n in table && n != rtNn ==> r[n] == table[n]
  {
    table[rtNn := true]
  }

  /** Release of a number: its row becomes free and stays iff the number
      lies in a configured range, otherwise it is deleted; a missing row
      is only logged. */
  function Release(table: Table, ranges: seq<Range>, rtNn: int): (r: Table)
    ensures rtNn !in table ==> r == table
    ensures rtNn in table ==> (rtNn in r <==> InSomeRange(ranges, rtNn))
    ensures rtNn in r ==> !r[rtNn]
    ensures forall n :: n != rtNn ==> (n in r <==> n in table) && (n in r ==> r[n] == table[n])
  {
    if rtNn !in table then table
    else if InSomeRange(ranges, rtNn) then table[rtNn := false]
    else table - {rtNn}
  }

  lemma ReservePreservesInvariant(table: Table, ranges: seq<Range>, rtNn: int)
    requires TableInvariant(table, ranges)
    requires Reserve(table, rtNn).Success?
    ensures TableInvariant(Reserve(table, rtNn).value, ranges)
  {
  }

  lemma AllocatePreservesInvariant(table: Table, ranges: seq<Range>, rtNn: int)
    requires TableInvariant(table, ranges)
    requires rtNn in table && !table[rtNn]
    ensures TableInvariant(Allocated(table, rtNn), ranges)
  {
  }

  lemma ReleasePreservesInvariant(table: Table, ranges: seq<Range>, rtNn: int)
    requires TableInvariant(table, ranges)
    ensures TableInvariant(Release(table, ranges, rtNn), ranges)
  {
    if rtNn in Pool(ranges) {
      PoolWithinRanges(ranges, rtNn);
    }
  }

  /** Handing out a free row and releasing it again restores the table. */
  lemma AllocateThenRelease(table: Table, ranges: seq<Range>, rtNn: int)
    requires TableInvariant(table, ranges)
    requires rtNn in table && !table[rtNn]
    ensures Release(Allocated(table, rtNn), ranges, rtNn) == table
  {
  }

  /** Reserving a number and releasing it again restores the table exactly
      when the number already had a row or lies outside every range; a
      number reserved from outside the table but inside a configured range
      leaves a free row behind. */
  lemma ReserveThenRelease(table: Table, ranges: seq<Range>, rtNn: int)
    requires TableInvariant(table, ranges)
    requires Reserve(table, rtNn).Success?
    ensures Release(Reserve(table, rtNn).value, ranges, rtNn) == table <==> rtNn in table || !InSomeRange(ranges, rtNn)
  {
    var after := Release(Reserve(table, rtNn).value, ranges, rtNn);
    if rtNn !in table && InSomeRange(ranges, rtNn) {
      assert rtNn in after;
    }
  }

  /** A number from a range that synchronisation skips as unreasonable is
      never in the pool, yet once reserved by a provider network and
      released it stays in the table as a free row that tenant allocation
      can hand out. */
  lemma SkippedRangeNumberBecomesAllocatable()
    ensures var ranges := [Range(1, 70000)];
      && 5 !in Pool(ranges)
      && Sync(map[], ranges) == map[]
      && Reserve(map[], 5) == Success(map[5 := true])
      && Release(map[5 := true], ranges, 5) == map[5 := false]
      && HasFreeRow(map[5 := false])
  {
    var ranges := [Range(1, 70000)];
    PoolMembership(ranges, 5);
    assert !Reasonable(ranges[0]);
    assert InSomeRange(ranges, 5) by { assert ranges[0].lo <= 5 <= ranges[0].hi; }
    assert Pool(ranges) == {} by {
      forall n ensures n !in Pool(ranges) { PoolMembership(ranges, n); }
    }
    var m: Table := map[5 := false];
    assert 5 in m && !m[5];
  }

  // ---------------------------------------------------------------------
  // The driver

  /** One pass over the table: rows of allocatable numbers stay and their
      numbers are crossed off, other rows stay only if allocated; what is
      left uncrossed are the allocatable numbers the table lacks. */
  method DropUnallocatable(table: Table, rtNns: set<int>) returns (kept: Table, missing: set<int>)
    ensures kept.Keys <= table.Keys
    ensures forall n :: n in table ==> (n in kept <==> n in rtNns || table[n])
    ensures forall n :: n in kept ==> kept[n] == table[n]
    ensures missing == rtNns - table.Keys
  {
    kept, missing := table, rtNns;
    var todo := table.Keys;
    while todo != {}
      invariant todo <= table.Keys
      invariant missing == rtNns - (table.Keys - todo)
      invariant kept.Keys <= table.Keys
      invariant forall n :: n in table ==> (n in kept <==> n in todo || n in rtNns || table[n])
      invariant forall n :: n in kept ==> kept[n] == table[n]
      decreases |todo|
    {
      NonEmptyHasMember(todo);
      var n :| n in todo;
      if n in missing {
        missing := missing - {n};
      } else if !kept[n] {
        kept := kept - {n};
      }
      todo := todo - {n};
    }
  }

  /** Adds a free row for each of `missing`, numbers the table lacks. */
  method AddFreeRows(table: Table, missing: set<int>) returns (r: Table)
    requires forall n :: n in missing ==> n !in table
    ensures forall n :: n in r <==> n in table || n in missing
    ensures forall n :: n in missing ==> !r[n]
    ensures forall n :: n in table ==> r[n] == table[n]
  {
    r := table;
    var todo := missing;
    while todo != {}
      invariant todo <= missing
      invariant forall n :: n in r <==> n in table || (n in missing && n !in todo)
      invariant forall n :: n in missing && n !in todo ==> !r[n]
      invariant forall n :: n in table ==> r[n] == table[n]
      decreases |todo|
    {
      NonEmptyHasMember(todo);
      var n :| n in todo;
      assert n !in table;
      r := r[n := false];
      todo := todo - {n};
    }
  }

  lemma NonEmptyHasMember(s: set<int>)
    requires s != {}
    ensures exists n :: n in s
  {
    if forall n :: n !in s {
      assert false;
    }
  }

  class RouteTargetTypeDriver {
    /** The ranges read from the configuration. */
    var rtNnRanges: seq<Range>
    /** The allocation table in the database. */
    var allocations: Table

    /** A driver over an existing allocation table, before initialisation. */
    constructor (table: Table)
      ensures rtNnRanges == [] && allocations == table
    {
      rtNnRanges := [];
      allocations := table;
    }

    /** Reads the configured ranges into fresh state and synchronises the
        table against them. */
    method Initialize(configuredRanges: seq<string>)
      modifies this
      ensures rtNnRanges == ParsedRanges(configuredRanges)
      ensures allocations == Sync(old(allocations), rtNnRanges)
      ensures TableInvariant(allocations, rtNnRanges)
    {
      rtNnRanges := [];
      ParseRouteTargetNumberRanges(configuredRanges);
      SyncRouteTargetAllocations();
      SyncEstablishesInvariant(old(allocations), rtNnRanges);
    }

    /** Appends the range of every well-formed entry, in order. */
    method ParseRouteTargetNumberRanges(entries: seq<string>)
      modifies this`rtNnRanges
      ensures rtNnRanges == old(rtNnRanges) + ParsedRanges(entries)
    {
      var i := 0;
      while i < |entries|
        invariant 0 <= i <= |entries|
        invariant rtNnRanges == old(rtNnRanges) + ParsedRanges(entries[..i])
      {
        var parsed := ParseRangeEntry(entries[i]);
        if parsed.Some? {
          rtNnRanges := rtNnRanges + [parsed.value];
        }
        ParsedRangesStep(entries, i);
        i := i + 1;
      }
      assert entries[..i] == entries;
    }

    /** The allocatable numbers: the union of the configured ranges that
        are not unreasonably wide. */
    method AllocatableNumbers() returns (rtNns: set<int>)
      ensures rtNns == Pool(rtNnRanges)
    {
      rtNns := {};
      var i := 0;
      while i < |rtNnRanges|
        invariant 0 <= i <= |rtNnRanges|
        invariant rtNns == Pool(rtNnRanges[..i])
      {
        var r := rtNnRanges[i];
        assert rtNnRanges[..i + 1][..i] == rtNnRanges[..i];
        if Reasonable(r) {
          rtNns := rtNns + RangeSet(r);
        }
        i := i + 1;
      }
      assert rtNnRanges[..i] == rtNnRanges;
    }

    /** Synchronises the table with the configured ranges. */
    method SyncRouteTargetAllocations()
      modifies this`allocations
      ensures allocations == Sync(old(allocations), rtNnRanges)
    {
      var rtNns := AllocatableNumbers();
      var kept, missing := DropUnallocatable(allocations, rtNns);
      allocations := AddFreeRows(kept, missing);
      ghost var expected := Sync(old(allocations), rtNnRanges);
      assert forall n :: n in allocations <==> n in expected;
      assert forall n :: n in allocations ==> allocations[n] == expected[n];
    }

    /** Reserves the provider segment's number, or reports it in use. */
    method ReserveProviderSegment(segment: Segment) returns (r: Outcome<PoolError>)
      requires Get(segment, SEGMENTATION_ID).VInt?
      modifies this`allocations
      ensures var expected := Reserve(old(allocations), Get(segment, SEGMENTATION_ID).i);
        && (r.Fail? <==> expected.Failure?)
        && (r.Fail? ==> r.error == expected.error && allocations == old(allocations))
        && (r.Pass? ==> allocations == expected.value)
    {
      var rtNn := Get(segment, SEGMENTATION_ID).i;
      if rtNn in allocations {
        if allocations[rtNn] {
          return Fail(RouteTargetInUse(rtNn));
        }
        allocations := allocations[rtNn := true];
      } else {
        allocations := allocations[rtNn := true];
      }
      r := Pass;
    }

    /** Hands out some free row, or reports that none is left. */
    method AllocateTenantSegment() returns (r: Option<Segment>)
      modifies this`allocations
      ensures r.None? <==> !HasFreeRow(old(allocations))
      ensures r.None? ==> allocations == old(allocations)
      ensures r.Some? ==>
        && Get(r.value, SEGMENTATION_ID).VInt?
        && var rtNn := Get(r.value, SEGMENTATION_ID).i;
        && rtNn in old(allocations) && !old(allocations)[rtNn]
        && allocations == Allocated(old(allocations), rtNn)
        && r.value == TenantSegment(rtNn)
    {
      if !HasFreeRow(allocations) {
        return None;
      }
      var rtNn :| rtNn in allocations && !allocations[rtNn];
      allocations := allocations[rtNn := true];
      r := Some(TenantSegment(rtNn));
    }

    /** Releases the segment's number back to the table. */
    method ReleaseSegment(segment: Segment)
      requires SEGMENTATION_ID in segment && segment[SEGMENTATION_ID].VInt?
      modifies this`allocations
      ensures allocations == Release(old(allocations), rtNnRanges, segment[SEGMENTATION_ID].i)
    {
      var rtNn := segment[SEGMENTATION_ID].i;
      if rtNn !in allocations {
        return;
      }
      allocations := allocations[rtNn := false];
      var i := 0;
      while i < |rtNnRanges|
        invariant 0 <= i <= |rtNnRanges|
        invariant forall k :: 0 <= k < i ==> !(rtNnRanges[k].lo <= rtNn <= rtNnRanges[k].hi)
      {
        if rtNnRanges[i].lo <= rtNn <= rtNnRanges[i].hi {
          return;
        }
        i := i + 1;
      }
      allocations := allocations - {rtNn};
    }
  }
}
