/**
 The trace read from PostgreSQL and the validator of cached traces. Whatever the slow path
 returns, stripped as it is written to the cache, passes the validator: the cache never
 rejects its own writes.
 */
module TraceCache {
  import opened Prelude
  import opened Lexicographic
  import opened TracePath
  import opened TraceTree
  import Decimal

  // ----- hexadecimal texts

  function HexDigit(n: nat, upper: bool): char
    requires n < 16
  {
    if n < 10 then ('0' as int + n) as char
    else ((if upper then 'A' as int else 'a' as int) + (n - 10)) as char
  }

  function HexValue(c: char): Option<nat> {
    if '0' <= c <= '9' then Some(c as int - '0' as int)
    else if 'a' <= c <= 'f' then Some(c as int - 'a' as int + 10)
    else if 'A' <= c <= 'F' then Some(c as int - 'A' as int + 10)
    else None
  }

  /** `upper(i)` chooses the letter case of digit `i`. */
  function HexEncode(b: Bytes, upper: nat -> bool, i: nat): (s: string)
    ensures |s| == 2 * |b|
  {
    if b == [] then []
    else [HexDigit(b[0] / 16, upper(i)), HexDigit(b[0] % 16, upper(i + 1))] + HexEncode(b[1..], upper, i + 2)
  }

  function HexDecode(s: string): Option<Bytes> {
    if s == [] then Some([])
    else if |s| == 1 then None
    else match (HexValue(s[0]), HexValue(s[1]), HexDecode(s[2..]))
         case (Some(h), Some(l), Some(rest)) =>
           if h < 16 && l < 16 then Some([h * 16 + l] + rest) else None
         case _ => None
  }

  lemma {:induction false} HexRoundTrip(b: Bytes, upper: nat -> bool, i: nat)
    ensures HexDecode(HexEncode(b, upper, i)) == Some(b)
  {
    if b != [] {
      HexRoundTrip(b[1..], upper, i + 2);
      assert b == [b[0]] + b[1..];
    }
  }

  function Lower(b: Bytes): string {
    "0x" + HexEncode(b, _ => false, 0)
  }

  /** The letter case of each digit of an address is decided by a hash of the address. */
  type Casing = Bytes -> (nat -> bool)

  function Checksum(b: Bytes, casing: Casing): string {
    "0x" + HexEncode(b, casing(b), 0)
  }

  function DecodeFixedHex(s: string, size: nat): Option<Bytes> {
    if |s| != 2 + size * 2 || !("0x" <= s) then None else HexDecode(s[2..])
  }

  predicate CanonicalAddress(s: string, casing: Casing) {
    var b := DecodeFixedHex(s, 20);
    b.Some? && |b.value| == 20 && Checksum(b.value, casing) == s
  }

  lemma {:induction false} ChecksumIsCanonical(b: Bytes, casing: Casing)
    requires |b| == 20
    ensures CanonicalAddress(Checksum(b, casing), casing)
  {
    HexRoundTrip(b, casing(b), 0);
    assert Checksum(b, casing)[2..] == HexEncode(b, casing(b), 0);
  }

  predicate CanonicalUint256(s: string) {
    CanonicalDecimal(s, 78) && Decimal.Value(s) < UINT256_BOUND
  }

  // ----- rows and frames

  /** Limits of the reader; its constructor refuses limits that are not positive. */
  datatype Options = Options(maxFrames: int, maxDataBytes: int, maxTextBytes: int) {
    predicate Configured() {
      maxFrames > 0 && maxDataBytes > 0 && maxTextBytes > 0
    }
  }

  datatype Row = Row(
    tracePath: string, parentPath: Option<string>, depth: int, callType: string,
    from: Option<Bytes>, to: Option<Bytes>, created: Option<Bytes>,
    value: Option<string>, gas: Option<string>, gasUsed: Option<string>,
    input: Option<Bytes>, output: Option<Bytes>, error: Option<string>,
    directReverted: bool, reverted: bool, executionValid: bool)

  datatype Frame = Frame(
    path: Path, parentPath: Path, depth: nat, callType: string,
    from: Option<string>, to: Option<string>, created: Option<string>,
    value: Option<string>, gas: Option<string>, gasUsed: Option<string>,
    input: Option<string>, output: Option<string>, error: Option<string>,
    directReverted: bool, reverted: bool, decorated: bool)

  datatype Identity = Identity(chainId: string, blockNumber: string, blockHash: string, hash: string, index: string)

  datatype Trace = Trace(identity: Identity, complete: bool, frames: seq<Frame>)

  function Length(b: Option<Bytes>): nat {
    if b.None? then 0 else |b.value|
  }

  /** An address column is absent or has twenty bytes. */
  predicate AddressColumn(b: Option<Bytes>) {
    b.Some? ==> |b.value| == 20
  }

  function AddressText(b: Option<Bytes>, casing: Casing): Option<string> {
    if b.None? then None else Some(Checksum(b.value, casing))
  }

  function DataText(b: Option<Bytes>): Option<string> {
    if b.None? then None else Some(Lower(b.value))
  }

  predicate QuantityColumn(s: Option<string>) {
    s.Some? ==> CanonicalUint256(s.value)
  }

  predicate TextWithin(s: Option<string>, maximum: int) {
    s.Some? ==> |s.value| <= maximum
  }

  /** What a row must satisfy to be scanned. */
  predicate Scannable(row: Row, o: Options) {
    && 0 <= row.depth <= 128 && |row.tracePath| <= o.maxTextBytes
    && row.callType != "" && |row.callType| <= 128
    && TextWithin(row.parentPath, o.maxTextBytes)
    && Parse(row.tracePath).Some?
    && (row.parentPath.Some? ==> Parse(row.parentPath.value).Some?)
    && (row.directReverted ==> row.reverted)
    && AddressColumn(row.from) && AddressColumn(row.to) && AddressColumn(row.created)
    && row.executionValid
    && QuantityColumn(row.value) && QuantityColumn(row.gas) && QuantityColumn(row.gasUsed)
    && Length(row.input) + Length(row.output) <= o.maxDataBytes
    && TextWithin(row.error, o.maxTextBytes)
  }

  function FrameOf(row: Row, o: Options, casing: Casing): Frame
    requires Scannable(row, o)
  {
    Frame(Parse(row.tracePath).value,
          if row.parentPath.Some? then Parse(row.parentPath.value).value else [],
          row.depth, row.callType,
          AddressText(row.from, casing), AddressText(row.to, casing), AddressText(row.created, casing),
          row.value, row.gas, row.gasUsed, DataText(row.input), DataText(row.output), row.error,
          row.directReverted, row.reverted, true)
  }

  function ScanOf(row: Row, o: Options, casing: Casing): Scanned<Frame>
    requires Scannable(row, o)
  {
    Scanned(Parse(row.tracePath).value, row.depth, row.tracePath, row.parentPath, FrameOf(row, o, casing))
  }

  // ----- the validator

  /** Decoded length of a data text. */
  function DataLength(s: Option<string>): nat {
    if s.None? then 0 else |s.value| / 2 - (if |s.value| < 2 then 0 else 1)
  }

  predicate DataOk(s: Option<string>) {
    s.Some? ==> |s.value| >= 2 && "0x" <= s.value && |s.value| % 2 == 0 && HexDecode(s.value[2..]).Some?
  }

  function FrameData(f: Frame): nat {
    DataLength(f.input) + DataLength(f.output)
  }

  function DataSum(frames: seq<Frame>): nat {
    if frames == [] then 0 else FrameData(frames[0]) + DataSum(frames[1..])
  }

  predicate AddressOk(s: Option<string>, casing: Casing) {
    s.Some? ==> CanonicalAddress(s.value, casing)
  }

  /** The fields whose checks need no path. */
  predicate FieldsOk(f: Frame, o: Options, casing: Casing) {
    && AddressOk(f.from, casing) && AddressOk(f.to, casing) && AddressOk(f.created, casing)
    && QuantityColumn(f.value) && QuantityColumn(f.gas) && QuantityColumn(f.gasUsed)
    && DataOk(f.input) && DataOk(f.output)
    && TextWithin(f.error, o.maxTextBytes)
  }

  predicate ShapeOk(f: Frame) {
    && !f.decorated && f.callType != "" && |f.callType| <= 128
    && f.depth == |f.path| <= 128 && (f.directReverted ==> f.reverted)
  }

  /** Every check of a cached frame that does not look at other frames. */
  predicate FrameOk(f: Frame, o: Options, casing: Casing) {
    && ShapeOk(f)
    && f.parentPath == (if f.path == [] then [] else Parent(f.path))
    && FieldsOk(f, o, casing)
  }

  ghost predicate HasFrame(frames: seq<Frame>, p: Path) {
    exists j | 0 <= j < |frames| :: frames[j].path == p
  }

  ghost predicate CachedOk(identity: Identity, trace: Trace, o: Options, casing: Casing) {
    && trace.identity == identity && trace.complete && 1 <= |trace.frames| <= o.maxFrames
    && (forall i | 0 <= i < |trace.frames| :: FrameOk(trace.frames[i], o, casing))
    && (forall i | 0 < i < |trace.frames| :: Less(trace.frames[i - 1].path, trace.frames[i].path))
    && (forall i | 0 <= i < |trace.frames| && trace.frames[i].path != [] ::
          HasFrame(trace.frames[..i], Parent(trace.frames[i].path)))
    && trace.frames[0].path == []
    && DataSum(trace.frames) <= o.maxDataBytes
  }

  /** Path components are 32-bit values. */
  ghost predicate Paths32(frames: seq<Frame>) {
    forall i, k | 0 <= i < |frames| && 0 <= k < |frames[i].path| :: frames[i].path[k] < UINT32_BOUND
  }

  function Strip(trace: Trace): Trace {
    trace.(frames := seq(|trace.frames|, i requires 0 <= i < |trace.frames| => trace.frames[i].(decorated := false)))
  }

  // ----- the slow path

  function DataOfScans(fs: seq<Scanned<Frame>>): nat {
    if fs == [] then 0 else FrameData(fs[0].node) + DataOfScans(fs[1..])
  }

  lemma {:induction false} DataOfRow(row: Row, o: Options, casing: Casing)
    requires Scannable(row, o)
    ensures FrameData(ScanOf(row, o, casing).node) == RowData(row)
  {
  }

  lemma {:induction false} DataOfScansAppend(fs: seq<Scanned<Frame>>, f: Scanned<Frame>)
    ensures DataOfScans(fs + [f]) == DataOfScans(fs) + FrameData(f.node)
  {
    if fs != [] {
      assert (fs + [f])[1..] == fs[1..] + [f];
      DataOfScansAppend(fs[1..], f);
    } else {
      assert (fs + [f])[1..] == [];
    }
  }

  lemma {:induction false} DataOfPermutation(a: seq<Scanned<Frame>>, b: seq<Scanned<Frame>>)
    requires multiset(a) == multiset(b)
    ensures DataOfScans(a) == DataOfScans(b)
    decreases |a|
  {
    if a == [] {
      assert |multiset(b)| == 0;
    } else {
      var n := |a| - 1;
      var f := a[n];
      assert a == a[..n] + [f];
      assert f in multiset(b);
      var k :| 0 <= k < |b| && b[k] == f;
      var rest := b[..k] + b[k + 1..];
      assert b == b[..k] + [f] + b[k + 1..];
      assert multiset(a[..n]) == multiset(a) - multiset{f};
      assert multiset(rest) == multiset(b) - multiset{f};
      DataOfPermutation(a[..n], rest);
      DataOfScansAppend(a[..n], f);
      DataOfMiddle(b[..k], f, b[k + 1..]);
    }
  }

  lemma {:induction false} DataOfMiddle(a: seq<Scanned<Frame>>, f: Scanned<Frame>, b: seq<Scanned<Frame>>)
    ensures DataOfScans(a + [f] + b) == DataOfScans(a + b) + FrameData(f.node)
  {
    if a == [] {
      assert [] + [f] + b == [f] + b && [] + b == b;
    } else {
      assert (a + [f] + b)[1..] == a[1..] + [f] + b && (a + b)[1..] == a[1..] + b;
      DataOfMiddle(a[1..], f, b);
    }
  }

  function RowData(row: Row): nat {
    Length(row.input) + Length(row.output)
  }

  function RowsData(rows: seq<Row>): nat {
    if rows == [] then 0 else RowData(rows[0]) + RowsData(rows[1..])
  }

  predicate AllScannable(rows: seq<Row>, o: Options) {
    forall i | 0 <= i < |rows| :: Scannable(rows[i], o)
  }

  function Scans(rows: seq<Row>, o: Options, casing: Casing): seq<Scanned<Frame>>
    requires AllScannable(rows, o)
  {
    seq(|rows|, i requires 0 <= i < |rows| => ScanOf(rows[i], o, casing))
  }

  predicate RowsWithin(rows: seq<Row>, o: Options) {
    AllScannable(rows, o) && |rows| <= o.maxFrames && RowsData(rows) <= o.maxDataBytes
  }

  /** Scans all rows under the data and frame limits. */
  method ScanRows(rows: seq<Row>, o: Options, casing: Casing) returns (r: Option<seq<Scanned<Frame>>>)
    requires o.Configured()
    ensures r.Some? <==> RowsWithin(rows, o)
    ensures r.Some? ==> r.value == Scans(rows, o, casing) && DataOfScans(r.value) <= o.maxDataBytes
  {
    hide Scannable, FrameOf, ScanOf;
    var persisted: seq<Scanned<Frame>>, total, i := [], 0, 0;
    while i < |rows|
      invariant 0 <= i <= |rows| && |persisted| == i <= o.maxFrames
      invariant forall j | 0 <= j < i :: Scannable(rows[j], o) && persisted[j] == ScanOf(rows[j], o, casing)
      invariant DataOfScans(persisted) == total <= o.maxDataBytes
      invariant RowsData(rows) == total + RowsData(rows[i..])
    {
      var row := rows[i];
      if !Scannable(row, o) {
        return None;
      }
      var f := ScanOf(row, o, casing);
      DataOfRow(row, o, casing);
      DataOfScansAppend(persisted, f);
      persisted := persisted + [f];
      var dataBytes := RowData(row);
      assert rows[i..][1..] == rows[i + 1..];
      if total > o.maxDataBytes - dataBytes {
        return None;
      }
      total := total + dataBytes;
      if |persisted| > o.maxFrames {
        return None;
      }
      i := i + 1;
    }
    r := Some(persisted);
  }

  function Nodes(fs: seq<Scanned<Frame>>): seq<Frame> {
    seq(|fs|, i requires 0 <= i < |fs| => fs[i].node)
  }

  /** A scanned frame: its texts parse, and the fields the validator will look at are canonical. */
  predicate ScannedFrame(f: Scanned<Frame>, o: Options, casing: Casing) {
    && FromText(f) && f.node.path == f.path && f.node.depth == f.depth && f.depth <= 128
    && f.node.parentPath == (if f.parentText.None? then [] else match Parse(f.parentText.value) case None => [] case Some(p) => p)
    && f.node.callType != "" && |f.node.callType| <= 128 && (f.node.directReverted ==> f.node.reverted)
    && AddressOk(f.node.from, casing) && AddressOk(f.node.to, casing) && AddressOk(f.node.created, casing)
    && QuantityColumn(f.node.value) && QuantityColumn(f.node.gas) && QuantityColumn(f.node.gasUsed)
    && DataOk(f.node.input) && DataOk(f.node.output)
    && TextWithin(f.node.error, o.maxTextBytes)
  }

  lemma {:induction false} LowerIsOk(b: Option<Bytes>)
    ensures DataOk(DataText(b))
  {
    if b.Some? {
      HexRoundTrip(b.value, _ => false, 0);
      assert Lower(b.value)[2..] == HexEncode(b.value, _ => false, 0);
    }
  }

  lemma {:induction false} AddressTextIsOk(b: Option<Bytes>, casing: Casing)
    requires AddressColumn(b)
    ensures AddressOk(AddressText(b, casing), casing)
  {
    if b.Some? {
      ChecksumIsCanonical(b.value, casing);
    }
  }

  lemma {:induction false} ScanIsScanned(row: Row, o: Options, casing: Casing)
    requires Scannable(row, o)
    ensures ScannedFrame(ScanOf(row, o, casing), o, casing)
  {
    hide AddressOk, AddressText, DataOk, DataText, QuantityColumn, Parse;
    AddressTextIsOk(row.from, casing);
    AddressTextIsOk(row.to, casing);
    AddressTextIsOk(row.created, casing);
    LowerIsOk(row.input);
    LowerIsOk(row.output);
  }

  /** A well-placed scanned frame, stripped, passes the frame checks. */
  lemma {:induction false} PlacedIsOk(f: Scanned<Frame>, o: Options, casing: Casing)
    requires ScannedFrame(f, o, casing) && WellPlaced(f)
    ensures FrameOk(f.node.(decorated := false), o, casing)
  {
    hide AddressOk, DataOk, QuantityColumn;
    TextFacts(f);
    if f.path != [] {
      ParentStorable(f.path);
      ParsePrint(Parent(f.path));
    }
    hide Parse, Print;
  }

  lemma {:induction false} StrippedData(fs: seq<Scanned<Frame>>, frames: seq<Frame>)
    requires |frames| == |fs| && forall i | 0 <= i < |fs| :: frames[i] == fs[i].node.(decorated := false)
    ensures DataSum(frames) == DataOfScans(fs)
  {
    if fs != [] {
      StrippedData(fs[1..], frames[1..]);
    }
  }

  /** A sorted tree of scanned frames passes the validator. */
  lemma {:induction false} TreeIsCached(fs: seq<Scanned<Frame>>, identity: Identity, o: Options, casing: Casing)
    requires Sorted(fs) && IsTreeList(fs) && |fs| <= o.maxFrames && DataOfScans(fs) <= o.maxDataBytes
    requires forall i | 0 <= i < |fs| :: ScannedFrame(fs[i], o, casing)
    ensures CachedOk(identity, Strip(Trace(identity, true, Nodes(fs))), o, casing)
    ensures Paths32(Strip(Trace(identity, true, Nodes(fs))).frames)
  {
    hide ScannedFrame, FrameOk, WellPlaced, Less;
    var trace := Strip(Trace(identity, true, Nodes(fs)));
    var frames := trace.frames;
    assert forall i | 0 <= i < |fs| :: frames[i] == fs[i].node.(decorated := false);
    forall i | 0 <= i < |fs| ensures FrameOk(frames[i], o, casing) && frames[i].path == fs[i].path && Storable(frames[i].path) {
      PlacedIsOk(fs[i], o, casing);
      NodePath(fs[i], o, casing);
    }
    StrippedData(fs, frames);
    forall i | 0 < i < |fs| ensures Less(frames[i - 1].path, frames[i].path) {
      LessTotal(fs[i - 1].path, fs[i].path);
    }
    forall i | 0 <= i < |fs| && frames[i].path != [] ensures HasFrame(frames[..i], Parent(frames[i].path)) {
      var j := Preorder(fs, i);
      assert frames[..i][j].path == Parent(frames[i].path);
    }
    RootIsFirst(fs);
  }

  lemma {:induction false} NodePath(f: Scanned<Frame>, o: Options, casing: Casing)
    requires ScannedFrame(f, o, casing)
    ensures f.node.path == f.path && Storable(f.path)
  {
    TextFacts(f);
  }

  lemma {:induction false} RootIsFirst(fs: seq<Scanned<Frame>>)
    requires Sorted(fs) && IsTreeList(fs)
    ensures fs != [] && fs[0].path == []
  {
    assert HasAt(fs, []);
    var j :| 0 <= j < |fs| && fs[j].path == [];
    if fs[0].path != [] {
      assert Less([], fs[0].path);
    }
  }

  /** Every row scans, the limits hold, and the paths form a tree. */
  ghost predicate Readable(rows: seq<Row>, o: Options, casing: Casing) {
    RowsWithin(rows, o) && IsTree(multiset(Scans(rows, o, casing)))
  }

  // ----- which column is shown where

  predicate AddressShown(s: Option<string>, b: Option<Bytes>) {
    (s.Some? <==> b.Some?) && (s.Some? ==> DecodeFixedHex(s.value, 20) == b)
  }

  predicate DataShown(s: Option<string>, b: Option<Bytes>) {
    (s.Some? <==> b.Some?) && (s.Some? ==> "0x" <= s.value && HexDecode(s.value[2..]) == b)
  }

  /** The frame shows the row, column by column. */
  predicate Shows(f: Frame, row: Row) {
    && Print(f.path) == row.tracePath && f.depth == row.depth && f.callType == row.callType
    && (if row.parentPath.Some? then Print(f.parentPath) == row.parentPath.value else f.parentPath == [])
    && AddressShown(f.from, row.from) && AddressShown(f.to, row.to) && AddressShown(f.created, row.created)
    && f.value == row.value && f.gas == row.gas && f.gasUsed == row.gasUsed && f.error == row.error
    && DataShown(f.input, row.input) && DataShown(f.output, row.output)
    && f.directReverted == row.directReverted && f.reverted == row.reverted
  }

  ghost predicate ShownIn(frames: seq<Frame>, row: Row) {
    exists i | 0 <= i < |frames| :: Shows(frames[i], row)
  }

  /** Every row is shown by the one frame with its path, and there are no other frames. */
  ghost predicate ShowsAll(frames: seq<Frame>, rows: seq<Row>) {
    && |frames| == |rows|
    && (forall k | 0 <= k < |rows| :: ShownIn(frames, rows[k]))
    && (forall i, j | 0 <= i < j < |frames| :: Print(frames[i].path) != Print(frames[j].path))
  }

  lemma {:induction false} AddressIsShown(b: Option<Bytes>, casing: Casing)
    requires AddressColumn(b)
    ensures AddressShown(AddressText(b, casing), b)
  {
    if b.Some? {
      HexRoundTrip(b.value, casing(b.value), 0);
      assert Checksum(b.value, casing)[2..] == HexEncode(b.value, casing(b.value), 0);
    }
  }

  lemma {:induction false} DataIsShown(b: Option<Bytes>)
    ensures DataShown(DataText(b), b)
  {
    if b.Some? {
      HexRoundTrip(b.value, _ => false, 0);
      assert Lower(b.value)[2..] == HexEncode(b.value, _ => false, 0);
    }
  }

  lemma {:induction false} RowIsShown(row: Row, o: Options, casing: Casing)
    requires Scannable(row, o)
    ensures Shows(FrameOf(row, o, casing), row)
  {
    hide AddressShown, DataShown, AddressText, DataText, Parse, Print, QuantityColumn;
    PrintParse(row.tracePath);
    if row.parentPath.Some? {
      PrintParse(row.parentPath.value);
    }
    AddressIsShown(row.from, casing);
    AddressIsShown(row.to, casing);
    AddressIsShown(row.created, casing);
    DataIsShown(row.input);
    DataIsShown(row.output);
  }

  lemma {:induction false} PathsDiffer(identity: Identity, trace: Trace, o: Options, casing: Casing, i: nat, j: nat)
    requires CachedOk(identity, Strip(trace), o, casing) && Paths32(Strip(trace).frames) && i < j < |trace.frames|
    ensures Print(trace.frames[i].path) != Print(trace.frames[j].path)
  {
    hide Print, Less, FieldsOk, HasFrame;
    var frames := Strip(trace).frames;
    assert FrameOk(frames[i], o, casing) && FrameOk(frames[j], o, casing);
    IncreasingFirst(frames, j, i);
    LessIrreflexive(frames[i].path);
    if Print(frames[i].path) == Print(frames[j].path) {
      PrintIsInjective(frames[i].path, frames[j].path);
    }
  }

  lemma {:induction false} RowsAreShown(rows: seq<Row>, identity: Identity, trace: Trace, o: Options, casing: Casing)
    requires AllScannable(rows, o) && multiset(trace.frames) == multiset(Nodes(Scans(rows, o, casing)))
    requires CachedOk(identity, Strip(trace), o, casing) && Paths32(Strip(trace).frames)
    ensures ShowsAll(trace.frames, rows)
  {
    hide Shows, CachedOk, Scannable, FrameOf, Paths32, Print;
    var nodes := Nodes(Scans(rows, o, casing));
    assert |trace.frames| == |multiset(trace.frames)| == |multiset(nodes)| == |nodes| == |rows|;
    forall k | 0 <= k < |rows| ensures ShownIn(trace.frames, rows[k]) {
      assert nodes[k] == FrameOf(rows[k], o, casing);
      RowIsShown(rows[k], o, casing);
      assert nodes[k] in multiset(nodes);
      assert nodes[k] in trace.frames;
    }
    forall i, j | 0 <= i < j < |trace.frames| ensures Print(trace.frames[i].path) != Print(trace.frames[j].path) {
      PathsDiffer(identity, trace, o, casing, i, j);
    }
  }

  /**
   The slow path: scan, sort, check, assemble. It succeeds exactly on readable rows, and a
   returned trace, stripped of decoding and execution, is accepted by the validator for the
   same identity.
   */
  method ReadTransactionTrace(rows: seq<Row>, identity: Identity, o: Options, casing: Casing)
    returns (r: Option<Trace>)
    requires o.Configured()
    ensures r.Some? <==> Readable(rows, o, casing)
    ensures r.Some? ==> CachedOk(identity, Strip(r.value), o, casing) && Paths32(Strip(r.value).frames)
    ensures r.Some? ==> multiset(r.value.frames) == multiset(Nodes(Scans(rows, o, casing)))
    ensures r.Some? ==> ShowsAll(r.value.frames, rows) && r.value.identity == identity && r.value.complete
  {
    hide ShowsAll, Paths32, Scannable, ScannedFrame, CachedOk, Sorted, IsTreeList, IsTree, FromText, ScanOf, RowsWithin;
    var scanned := ScanRows(rows, o, casing);
    if scanned.None? {
      return None;
    }
    assert AllScannable(rows, o) && |rows| <= o.maxFrames by { WithinFacts(rows, o); }
    var fs := scanned.value;
    forall i | 0 <= i < |fs| ensures ScannedFrame(fs[i], o, casing) && FromText(fs[i]) {
      ScanIsScanned(rows[i], o, casing);
      ScannedParses(fs[i], o, casing);
    }
    var ok, sorted := CheckTree(fs);
    if !ok {
      return None;
    }
    assert |sorted| == |multiset(sorted)| == |multiset(fs)| == |fs|;
    DataOfPermutation(sorted, fs);
    forall i | 0 <= i < |sorted| ensures ScannedFrame(sorted[i], o, casing) {
      assert sorted[i] in multiset(sorted);
      assert sorted[i] in fs;
    }
    TreeIsCached(sorted, identity, o, casing);
    NodesPermute(sorted, fs);
    var trace := Trace(identity, true, Nodes(sorted));
    RowsAreShown(rows, identity, trace, o, casing);
    r := Some(trace);
  }

  lemma {:induction false} WithinFacts(rows: seq<Row>, o: Options)
    requires RowsWithin(rows, o)
    ensures AllScannable(rows, o) && |rows| <= o.maxFrames
  {
  }

  lemma {:induction false} NodesAppend(a: seq<Scanned<Frame>>, b: seq<Scanned<Frame>>)
    ensures Nodes(a + b) == Nodes(a) + Nodes(b)
  {
  }

  lemma {:induction false} NodesPermute(a: seq<Scanned<Frame>>, b: seq<Scanned<Frame>>)
    requires multiset(a) == multiset(b)
    ensures multiset(Nodes(a)) == multiset(Nodes(b))
    decreases |a|
  {
    if a == [] {
      assert |multiset(b)| == 0;
    } else {
      var n := |a| - 1;
      var f := a[n];
      assert a == a[..n] + [f];
      assert f in multiset(b);
      var k :| 0 <= k < |b| && b[k] == f;
      var rest := b[..k] + b[k + 1..];
      assert b == b[..k] + ([f] + b[k + 1..]);
      assert multiset(a[..n]) == multiset(a) - multiset{f};
      assert multiset(rest) == multiset(b) - multiset{f};
      NodesPermute(a[..n], rest);
      NodesAppend(a[..n], [f]);
      NodesAppend(b[..k], b[k + 1..]);
      NodesAppend([f], b[k + 1..]);
      NodesAppend(b[..k], [f] + b[k + 1..]);
    }
  }

  lemma {:induction false} ScannedParses(f: Scanned<Frame>, o: Options, casing: Casing)
    requires ScannedFrame(f, o, casing)
    ensures FromText(f)
  {
  }

  // ----- the validator as a single pass

  datatype Verdict = Accepted | Corrupt | LimitExceeded

  lemma {:induction false} DecodedLength(s: string)
    requires HexDecode(s).Some?
    ensures |s| % 2 == 0 && |HexDecode(s).value| == |s| / 2
  {
    if s != [] {
      DecodedLength(s[2..]);
    }
  }

  /** One data text against what is left of the byte budget. */
  method CheckData(data: Option<string>, o: Options, used: nat) returns (v: Verdict, total: nat)
    requires used <= o.maxDataBytes
    ensures v.Accepted? <==> DataOk(data) && used + DataLength(data) <= o.maxDataBytes
    ensures v.Accepted? ==> total == used + DataLength(data)
  {
    total := used;
    if data.None? {
      return Accepted, used;
    }
    if |data.value| < 2 || !("0x" <= data.value) || |data.value| % 2 != 0 {
      return Corrupt, used;
    }
    var decoded := HexDecode(data.value[2..]);
    if decoded.None? {
      return LimitExceeded, used;
    }
    DecodedLength(data.value[2..]);
    if used > o.maxDataBytes - |decoded.value| {
      return LimitExceeded, used;
    }
    return Accepted, used + |decoded.value|;
  }

  method CheckFields(f: Frame, o: Options, casing: Casing, used: nat) returns (v: Verdict, total: nat)
    requires used <= o.maxDataBytes
    ensures v.Accepted? <==> FieldsOk(f, o, casing) && used + FrameData(f) <= o.maxDataBytes
    ensures v.Accepted? ==> total == used + FrameData(f)
  {
    hide AddressOk, QuantityColumn, DataOk, DataLength;
    total := used;
    if !(AddressOk(f.from, casing) && AddressOk(f.to, casing) && AddressOk(f.created, casing)) {
      return Corrupt, used;
    }
    if !(QuantityColumn(f.value) && QuantityColumn(f.gas) && QuantityColumn(f.gasUsed)) {
      return Corrupt, used;
    }
    v, total := CheckData(f.input, o, used);
    if !v.Accepted? {
      return;
    }
    v, total := CheckData(f.output, o, total);
    if !v.Accepted? {
      return;
    }
    if f.error.Some? && |f.error.value| > o.maxTextBytes {
      return LimitExceeded, total;
    }
  }

  /** The set of path texts seen in the first `i` frames. */
  ghost predicate Known(known: set<string>, frames: seq<Frame>, i: nat)
    requires i <= |frames|
  {
    && (forall j | 0 <= j < i :: Print(frames[j].path) in known)
    && (forall t | t in known :: exists j | 0 <= j < i :: t == Print(frames[j].path))
  }

  lemma {:induction false} KnownParent(known: set<string>, frames: seq<Frame>, i: nat)
    requires i < |frames| && Known(known, frames, i) && Paths32(frames)
    requires forall j | 0 <= j <= i :: |frames[j].path| <= 128
    requires frames[i].path != []
    ensures Print(Parent(frames[i].path)) in known <==> HasFrame(frames[..i], Parent(frames[i].path))
  {
    hide Print;
    var p := Parent(frames[i].path);
    assert Storable(p);
    if Print(p) in known {
      var j :| 0 <= j < i && Print(p) == Print(frames[j].path);
      PrintIsInjective(p, frames[j].path);
      assert frames[..i][j].path == p;
    }
    if HasFrame(frames[..i], p) {
      var j :| 0 <= j < |frames[..i]| && frames[..i][j].path == p;
      assert frames[j].path == p;
    }
  }

  lemma {:induction false} IncreasingFirst(frames: seq<Frame>, i: nat, j: nat)
    requires j < i < |frames|
    requires forall k | 0 < k <= i :: Less(frames[k - 1].path, frames[k].path)
    ensures Less(frames[j].path, frames[i].path)
  {
    if j + 1 < i {
      IncreasingFirst(frames, i - 1, j);
      LessTransitive(frames[j].path, frames[i - 1].path, frames[i].path);
    }
  }

  lemma {:induction false} UnknownPath(known: set<string>, frames: seq<Frame>, i: nat)
    requires i < |frames| && Known(known, frames, i) && Paths32(frames)
    requires forall j | 0 <= j <= i :: |frames[j].path| <= 128
    requires forall k | 0 < k <= i :: Less(frames[k - 1].path, frames[k].path)
    ensures Print(frames[i].path) !in known
  {
    hide Print, Less;
    if Print(frames[i].path) in known {
      var j :| 0 <= j < i && Print(frames[i].path) == Print(frames[j].path);
      PrintIsInjective(frames[i].path, frames[j].path);
      IncreasingFirst(frames, i, j);
      LessIrreflexive(frames[i].path);
    }
  }

  /** The conditions of `CachedOk` that concern frame `i`. */
  ghost predicate StepOk(frames: seq<Frame>, i: nat, o: Options, casing: Casing)
    requires i < |frames|
  {
    && FrameOk(frames[i], o, casing)
    && (i > 0 ==> Less(frames[i - 1].path, frames[i].path))
    && (frames[i].path != [] ==> HasFrame(frames[..i], Parent(frames[i].path)))
  }

  lemma {:induction false} CachedBySteps(identity: Identity, trace: Trace, o: Options, casing: Casing)
    ensures CachedOk(identity, trace, o, casing) <==>
            && trace.identity == identity && trace.complete && 1 <= |trace.frames| <= o.maxFrames
            && (forall i | 0 <= i < |trace.frames| :: StepOk(trace.frames, i, o, casing))
            && trace.frames[0].path == []
            && DataSum(trace.frames) <= o.maxDataBytes
  {
    hide FrameOk, Less, HasFrame, DataSum;
    var frames := trace.frames;
    if forall i | 0 <= i < |frames| :: StepOk(frames, i, o, casing) {
      forall i | 0 <= i < |frames|
        ensures FrameOk(frames[i], o, casing) && (i > 0 ==> Less(frames[i - 1].path, frames[i].path))
        ensures frames[i].path != [] ==> HasFrame(frames[..i], Parent(frames[i].path))
      {
        assert StepOk(frames, i, o, casing);
      }
    }
  }

  lemma {:induction false} StepsSoFar(frames: seq<Frame>, i: nat, o: Options, casing: Casing)
    requires i < |frames| && ShapeOk(frames[i]) && (i > 0 ==> Less(frames[i - 1].path, frames[i].path))
    requires forall j | 0 <= j < i :: StepOk(frames, j, o, casing)
    ensures forall j | 0 <= j <= i :: |frames[j].path| <= 128
    ensures forall k | 0 < k <= i :: Less(frames[k - 1].path, frames[k].path)
  {
    hide Less, FieldsOk, HasFrame;
    forall j | 0 <= j <= i
      ensures |frames[j].path| <= 128 && (j > 0 ==> Less(frames[j - 1].path, frames[j].path))
    {
      if j < i {
        assert StepOk(frames, j, o, casing);
      }
    }
  }

  /** One frame of the pass: its checks, in the order of the source. */
  method CheckFrame(frames: seq<Frame>, i: nat, o: Options, casing: Casing, known: set<string>, used: nat)
    returns (v: Verdict, total: nat)
    requires i < |frames| && used <= o.maxDataBytes && Paths32(frames) && Known(known, frames, i)
    requires forall j | 0 <= j < i :: StepOk(frames, j, o, casing)
    ensures v.Accepted? <==> StepOk(frames, i, o, casing) && used + FrameData(frames[i]) <= o.maxDataBytes
    ensures v.Accepted? ==> total == used + FrameData(frames[i])
  {
    hide FieldsOk, Less, Known, HasFrame, Paths32, FrameData;
    var frame := frames[i];
    total := used;
    if !ShapeOk(frame) {
      return Corrupt, used;
    }
    if i > 0 && !Less(frames[i - 1].path, frame.path) {
      return Corrupt, used;
    }
    StepsSoFar(frames, i, o, casing);
    UnknownPath(known, frames, i);
    if Print(frame.path) in known {
      return Corrupt, used;
    }
    if frame.depth == 0 {
      if frame.path != [] || frame.parentPath != [] {
        return Corrupt, used;
      }
    } else {
      KnownParent(known, frames, i);
      if frame.parentPath != Parent(frame.path) || Print(Parent(frame.path)) !in known {
        return Corrupt, used;
      }
    }
    v, total := CheckFields(frame, o, casing, used);
  }

  lemma {:induction false} KnownGrows(known: set<string>, frames: seq<Frame>, i: nat)
    requires i < |frames| && Known(known, frames, i)
    ensures Known(known + {Print(frames[i].path)}, frames, i + 1)
  {
    hide Print;
    forall t | t in known + {Print(frames[i].path)} ensures exists j | 0 <= j < i + 1 :: t == Print(frames[j].path) {
      if t in known {
        var j :| 0 <= j < i && t == Print(frames[j].path);
      }
    }
  }

  lemma {:induction false} RootOnlyFirst(frames: seq<Frame>, i: nat, o: Options, casing: Casing)
    requires i < |frames| && forall j | 0 <= j <= i :: StepOk(frames, j, o, casing)
    ensures frames[i].path == [] <==> i == 0
  {
    hide FrameOk;
    assert StepOk(frames, i, o, casing);
  }

  /** The validator of cached traces decides exactly `CachedOk`. */
  method ValidateCachedTrace(identity: Identity, trace: Trace, o: Options, casing: Casing) returns (v: Verdict)
    requires o.Configured() && Paths32(trace.frames)
    ensures v.Accepted? <==> CachedOk(identity, trace, o, casing)
  {
    hide StepOk, CachedOk, Known, FrameData;
    CachedBySteps(identity, trace, o, casing);
    if trace.identity != identity || !trace.complete || trace.frames == [] || |trace.frames| > o.maxFrames {
      return Corrupt;
    }
    var frames := trace.frames;
    var known: set<string>, used, roots, i := {}, 0, 0, 0;
    assert Known(known, frames, 0) by { KnownNone(frames); }
    while i < |frames|
      invariant 0 <= i <= |frames| && Known(known, frames, i)
      invariant forall j | 0 <= j < i :: StepOk(frames, j, o, casing)
      invariant 0 <= used <= o.maxDataBytes && DataSum(frames) == used + DataSum(frames[i..])
      invariant roots == (if i == 0 then 0 else 1)
    {
      assert frames[i..][1..] == frames[i + 1..];
      var step, total := CheckFrame(frames, i, o, casing, known, used);
      if !step.Accepted? {
        return step;
      }
      RootOnlyFirst(frames, i, o, casing);
      KnownGrows(known, frames, i);
      if frames[i].path == [] {
        roots := roots + 1;
      }
      known, used, i := known + {Print(frames[i].path)}, total, i + 1;
    }
    RootOnlyFirst(frames, 0, o, casing);
    v := if roots != 1 then Corrupt else Accepted;
  }

  lemma {:induction false} KnownNone(frames: seq<Frame>)
    ensures Known({}, frames, 0)
  {
  }

  lemma {:induction false} StripShowsRow(trace: Trace, row: Row)
    requires ShownIn(trace.frames, row)
    ensures ShownIn(Strip(trace).frames, row)
  {
    hide Print, AddressShown, DataShown;
    var i :| 0 <= i < |trace.frames| && Shows(trace.frames[i], row);
    assert Strip(trace).frames[i] == trace.frames[i].(decorated := false);
    assert Shows(Strip(trace).frames[i], row);
  }

  lemma {:induction false} StripShows(trace: Trace, rows: seq<Row>)
    requires ShowsAll(trace.frames, rows)
    ensures ShowsAll(Strip(trace).frames, rows)
  {
    hide Print, ShownIn;
    var frames := Strip(trace).frames;
    forall k | 0 <= k < |rows| ensures ShownIn(frames, rows[k]) {
      StripShowsRow(trace, rows[k]);
    }
    forall i, j | 0 <= i < j < |frames| ensures Print(frames[i].path) != Print(frames[j].path) {
      assert Print(trace.frames[i].path) != Print(trace.frames[j].path);
    }
  }

  /** A trace read from PostgreSQL, stripped as it is stored, is never rejected when it is read back. */
  method StoreAndValidate(rows: seq<Row>, identity: Identity, o: Options, casing: Casing)
    returns (stored: Option<Trace>, v: Verdict)
    requires o.Configured()
    ensures stored.Some? <==> Readable(rows, o, casing)
    ensures stored.Some? ==> v == Accepted && ShowsAll(stored.value.frames, rows) && stored.value.identity == identity
  {
    hide Readable, CachedOk, ShowsAll;
    var r := ReadTransactionTrace(rows, identity, o, casing);
    if r.None? {
      return None, Corrupt;
    }
    stored := Some(Strip(r.value));
    StripShows(r.value, rows);
    v := ValidateCachedTrace(identity, stored.value, o, casing);
  }
}
