/**
 The converse of the cache's promise: a cached trace that the validator accepts is one that the
 slow path can have written, except for the letter case of its data texts.
 */
module TraceRows {
  import opened Prelude
  import opened Lexicographic
  import opened TracePath
  import opened TraceTree
  import opened TraceCache

  function AddressColumnOf(s: Option<string>): Option<Bytes> {
    if s.None? then None else DecodeFixedHex(s.value, 20)
  }

  function DataColumnOf(s: Option<string>): Option<Bytes> {
    if s.None? || |s.value| < 2 then None else HexDecode(s.value[2..])
  }

  /** The row that a frame shows. */
  function RowOf(f: Frame): Row {
    Row(Print(f.path), if f.path == [] then None else Some(Print(f.parentPath)), f.depth, f.callType,
        AddressColumnOf(f.from), AddressColumnOf(f.to), AddressColumnOf(f.created), f.value, f.gas, f.gasUsed,
        DataColumnOf(f.input), DataColumnOf(f.output), f.error, f.directReverted, f.reverted, true)
  }

  function RowsOf(frames: seq<Frame>): (rows: seq<Row>)
    ensures |rows| == |frames| && forall i | 0 <= i < |frames| :: rows[i] == RowOf(frames[i])
  {
    if frames == [] then [] else [RowOf(frames[0])] + RowsOf(frames[1..])
  }

  /** Data as the slow path writes it, and paths short enough for the limit on texts. */
  predicate Writable(f: Frame, o: Options) {
    && (f.input.Some? ==> DataText(DataColumnOf(f.input)) == f.input)
    && (f.output.Some? ==> DataText(DataColumnOf(f.output)) == f.output)
    && |Print(f.path)| <= o.maxTextBytes && |Print(f.parentPath)| <= o.maxTextBytes
  }

  lemma {:induction false} AddressBack(s: Option<string>, casing: Casing)
    requires AddressOk(s, casing)
    ensures AddressColumn(AddressColumnOf(s)) && AddressText(AddressColumnOf(s), casing) == s
  {
  }

  lemma {:induction false} DataBack(s: Option<string>)
    requires DataOk(s)
    ensures Length(DataColumnOf(s)) == DataLength(s)
    ensures s.None? ==> DataText(DataColumnOf(s)) == s
  {
    if s.Some? {
      DecodedLength(s.value[2..]);
    }
  }

  lemma {:induction false} RowBack(f: Frame, o: Options, casing: Casing)
    requires FrameOk(f, o, casing) && Storable(f.path) && Writable(f, o) && FrameData(f) <= o.maxDataBytes
    ensures Scannable(RowOf(f), o) && FrameOf(RowOf(f), o, casing) == f.(decorated := true)
    ensures WellPlaced(ScanOf(RowOf(f), o, casing)) && ScanOf(RowOf(f), o, casing).path == f.path
    ensures RowData(RowOf(f)) == FrameData(f)
  {
    hide AddressOk, AddressText, AddressColumnOf, DataOk, DataText, DataColumnOf, DataLength, QuantityColumn, Parse, Print;
    ParsePrint(f.path);
    if f.path != [] {
      ParentStorable(f.path);
      ParsePrint(f.parentPath);
    }
    AddressBack(f.from, casing);
    AddressBack(f.to, casing);
    AddressBack(f.created, casing);
    DataBack(f.input);
    DataBack(f.output);
  }

  lemma {:induction false} DataOfRows(frames: seq<Frame>, rows: seq<Row>)
    requires |rows| == |frames| && forall i | 0 <= i < |frames| :: RowData(rows[i]) == FrameData(frames[i])
    ensures RowsData(rows) == DataSum(frames)
  {
    hide RowData, FrameData;
    if frames != [] {
      DataOfRows(frames[1..], rows[1..]);
    }
  }

  lemma {:induction false} FrameWithin(frames: seq<Frame>, i: nat)
    requires i < |frames|
    ensures FrameData(frames[i]) <= DataSum(frames)
  {
    hide FrameData;
    if i > 0 {
      FrameWithin(frames[1..], i - 1);
    }
  }

  /**
   Every accepted trace of that form is what the slow path returns for some rows: they scan to its
   frames, one by one, fit the limits and form a tree.
   */
  lemma {:induction false} AcceptedIsReadable(identity: Identity, trace: Trace, o: Options, casing: Casing)
    requires o.Configured() && CachedOk(identity, trace, o, casing) && Paths32(trace.frames)
    requires forall i | 0 <= i < |trace.frames| :: Writable(trace.frames[i], o)
    ensures Readable(RowsOf(trace.frames), o, casing)
    ensures AllScannable(RowsOf(trace.frames), o)
    ensures Strip(Trace(identity, true, Nodes(Scans(RowsOf(trace.frames), o, casing)))) == trace
  {
    hide RowOf, FrameOf, Scannable, FrameOk, Writable, Less, Parent, WellPlaced, DataSum, FrameData;
    var frames, rows := trace.frames, RowsOf(trace.frames);
    forall i | 0 <= i < |frames|
      ensures Scannable(rows[i], o) && FrameOf(rows[i], o, casing) == frames[i].(decorated := true)
      ensures WellPlaced(ScanOf(rows[i], o, casing)) && ScanOf(rows[i], o, casing).path == frames[i].path
      ensures RowData(rows[i]) == FrameData(frames[i])
    {
      FrameWithin(frames, i);
      PathIsStorable(frames, i, o, casing);
      RowBack(frames[i], o, casing);
    }
    DataOfRows(frames, rows);
    var fs := Scans(rows, o, casing);
    assert forall i | 0 <= i < |fs| :: fs[i] == ScanOf(rows[i], o, casing);
    FramesAreTree(identity, trace, o, casing, fs);
    ListToTree(fs);
    forall i | 0 <= i < |frames| ensures Strip(Trace(identity, true, Nodes(fs))).frames[i] == frames[i] {
      Undecorated(frames[i], o, casing);
      assert Nodes(fs)[i] == frames[i].(decorated := true);
    }
    assert Strip(Trace(identity, true, Nodes(fs))).frames == frames;
  }

  lemma {:induction false} Undecorated(f: Frame, o: Options, casing: Casing)
    requires FrameOk(f, o, casing)
    ensures !f.decorated
  {
  }

  lemma {:induction false} PathIsStorable(frames: seq<Frame>, i: nat, o: Options, casing: Casing)
    requires i < |frames| && FrameOk(frames[i], o, casing) && Paths32(frames)
    ensures Storable(frames[i].path)
  {
    hide FieldsOk;
  }

  lemma {:induction false} FramesAreTree(identity: Identity, trace: Trace, o: Options, casing: Casing, fs: seq<Scanned<Frame>>)
    requires CachedOk(identity, trace, o, casing) && |fs| == |trace.frames|
    requires forall i | 0 <= i < |fs| :: WellPlaced(fs[i]) && fs[i].path == trace.frames[i].path
    ensures IsTreeList(fs)
  {
    hide FrameOk, Less, WellPlaced, DataSum;
    var frames := trace.frames;
    forall i, j | 0 <= i < j < |fs| ensures fs[i].path != fs[j].path {
      IncreasingFirst(frames, j, i);
      LessIrreflexive(frames[i].path);
    }
    forall i | 0 <= i < |fs| && fs[i].path != [] ensures HasAt(fs, Parent(fs[i].path)) {
      assert HasFrame(frames[..i], Parent(frames[i].path));
      var j :| 0 <= j < i && frames[..i][j].path == Parent(frames[i].path);
      assert fs[j].path == Parent(fs[i].path);
    }
    assert fs[0].path == [];
  }
}
