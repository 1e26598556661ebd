/** The swath PKL record built by `ConversionWorker.process_data_for_plotting`
    in kmall_to_pkl_converter.py: one entry per accepted ping in each of the
    per-ping lists, holding the outermost port and starboard soundings, plus the
    HDR, RTP, start_byte and cmnPart side tables. */
module PklRecord {
  import opened Common

  // ---------------------------------------------------------------------------
  // Input: the dictionary produced by the format parser
  // ---------------------------------------------------------------------------

  /** One entry of the parser's 'XYZ' list. A field is None when the ping's
      dictionary lacks that key. */
  datatype Ping = Ping(
    z: Option<seq<int>>,              // 'z_reRefPoint_m'
    y: Option<seq<int>>,              // 'y_reRefPoint_m'
    x: Option<seq<int>>,              // 'x_reRefPoint_m'
    bs: Option<seq<int>>,             // 'reflectivity1_dB'
    angle: Option<seq<int>>,          // 'beamAngleReRx_deg'
    deltaLat: Option<seq<int>>,       // 'deltaLatitude_deg'
    deltaLon: Option<seq<int>>,       // 'deltaLongitude_deg'
    detectionType: Option<seq<int>>,  // 'detectionType'
    bytesFromLastPing: Option<Value>, // 'bytes_from_last_ping'
    pingMode: Option<Value>,          // 'PING_MODE'
    pulseForm: Option<Value>,         // 'PULSE_FORM'
    frequency: Option<Value>)         // 'FREQUENCY'

  /** The parser's 'fname' entry: absent, a scalar, or a list of names. */
  datatype FnameField = FnameAbsent | FnameScalar(v: Value) | FnameList(items: seq<Value>)

  /** The parsed file. Each Option is None when the dictionary lacks the key. */
  datatype ParsedData = ParsedData(
    xyz: Option<seq<Ping>>,                    // 'XYZ'
    fname: FnameField,                         // 'fname'
    fsize: Option<Value>,                      // 'fsize'
    fsizeWc: Option<Value>,                    // 'fsize_wc'
    pingInfo: Option<seq<map<string, Value>>>, // 'pingInfo'
    hdr: Option<seq<map<string, Value>>>,      // 'HDR'
    rtp: Option<seq<map<string, Value>>>,      // 'RTP'
    ip: Option<map<string, Value>>,            // 'IP'
    iop: Option<map<string, Value>>,           // 'IOP'
    cmnPart: Option<seq<Value>>)               // 'cmnPart'

  /** What the parser handed over: a dictionary, or anything else. */
  datatype ParserOutput = NotADict | Dict(data: ParsedData)

  // ---------------------------------------------------------------------------
  // Output: the optimized record written to the PKL file
  // ---------------------------------------------------------------------------

  datatype MinimalXyz = MinimalXyz(
    bytesFromLastPing: Value, z: seq<int>, y: seq<int>, x: seq<int>,
    deltaLat: seq<int>, deltaLon: seq<int>, detectionType: seq<int>,
    bs: seq<int>, angle: seq<int>, pingMode: Value, pulseForm: Value, frequency: Value)

  datatype HdrEntry = HdrEntry(echoSounderId: Value, dgdatetime: Value)

  datatype RtpEntry = RtpEntry(depthMode: Value, pulseForm: Value)

  datatype IopBlock = IopBlock(header: Value, runtimeTxt: Value)

  datatype Metadata = Metadata(
    sourceFile: Value, sourceMtime: int, conversionTime: string,
    version: string, optimized: bool, compressed: bool)

  /** `columns[k]` is the list stored under `RecordListKeys[k]`. */
  datatype SwathRecord = SwathRecord(
    columns: seq<seq<Value>>,
    fname: string,
    fsize: Value,
    fsizeWc: Value,
    xyz: seq<MinimalXyz>,
    hdr: seq<HdrEntry>,
    rtp: seq<RtpEntry>,
    ip: Option<Value>,
    iop: Option<IopBlock>,
    startByte: seq<int>,
    cmnPart: seq<Value>,
    metadata: Metadata)

  /** The keys of the detection dictionary, in the source's order. The first 40
      get one entry per accepted ping; 'fsize' and 'fsize_wc' stay empty and are
      replaced by the file sizes. */
  const DetKeys: seq<string> := [
    "fname", "model", "datetime", "date", "time", "sn",
    "y_port", "y_stbd", "z_port", "z_stbd", "bs_port", "bs_stbd",
    "rx_angle_port", "rx_angle_stbd",
    "ping_mode", "pulse_form", "swath_mode", "frequency",
    "max_port_deg", "max_stbd_deg", "max_port_m", "max_stbd_m",
    "tx_x_m", "tx_y_m", "tx_z_m", "tx_r_deg", "tx_p_deg", "tx_h_deg",
    "rx_x_m", "rx_y_m", "rx_z_m", "rx_r_deg", "rx_p_deg", "rx_h_deg",
    "aps_num", "aps_x_m", "aps_y_m", "aps_z_m", "wl_z_m",
    "bytes", "fsize", "fsize_wc"]

  const PerPingKeyCount: nat := 40

  /** The per-ping lists that survive into the record: every per-ping key but
      'fname', whose list is replaced by the file name string. */
  const RecordListKeys: seq<string> := DetKeys[1..PerPingKeyCount]

  // Positions of the sounding and acquisition columns in `DetKeys`.
  const FnameCol: nat := 0
  const YPort: nat := 6
  const YStbd: nat := 7
  const ZPort: nat := 8
  const ZStbd: nat := 9
  const BsPort: nat := 10
  const BsStbd: nat := 11
  const AnglePort: nat := 12
  const AngleStbd: nat := 13
  const PingModeCol: nat := 14
  const PulseFormCol: nat := 15
  const SwathModeCol: nat := 16
  const FrequencyCol: nat := 17

  /** Columns that always receive a 0 (the 27 keys of the source's default loop). */
  predicate IsZeroColumn(k: nat) {
    (1 <= k <= 5) || (18 <= k < PerPingKeyCount)
  }

  // ---------------------------------------------------------------------------
  // Outermost soundings
  // ---------------------------------------------------------------------------

  /** `r` is the port choice among the first `n` beams: the position of the first
      minimum of y, provided that minimum is negative; None when no beam is
      negative. */
  predicate IsPortIndexUpTo(y: seq<int>, n: nat, r: Option<nat>)
    requires n <= |y|
  {
    match r
    case None => forall i :: 0 <= i < n ==> y[i] >= 0
    case Some(k) =>
      && k < n && y[k] < 0
      && (forall i :: 0 <= i < n ==> y[k] <= y[i])
      && (forall i :: 0 <= i < k ==> y[k] < y[i])
  }

  predicate IsPortIndex(y: seq<int>, r: Option<nat>) {
    IsPortIndexUpTo(y, |y|, r)
  }

  /** The starboard choice: the first maximum of y, provided it is positive. */
  predicate IsStbdIndexUpTo(y: seq<int>, n: nat, r: Option<nat>)
    requires n <= |y|
  {
    match r
    case None => forall i :: 0 <= i < n ==> y[i] <= 0
    case Some(k) =>
      && k < n && y[k] > 0
      && (forall i :: 0 <= i < n ==> y[i] <= y[k])
      && (forall i :: 0 <= i < k ==> y[i] < y[k])
  }

  predicate IsStbdIndex(y: seq<int>, r: Option<nat>) {
    IsStbdIndexUpTo(y, |y|, r)
  }

  /** The port scan over the first `n` beams, one beam at a time. */
  function PortScan(y: seq<int>, n: nat): (r: Option<nat>)
    requires n <= |y|
    ensures IsPortIndexUpTo(y, n, r)
  {
    if n == 0 then None
    else
      var prev := PortScan(y, n - 1);
      if y[n - 1] < 0 && (prev.None? || y[n - 1] < y[prev.value]) then Some(n - 1) else prev
  }

  function StbdScan(y: seq<int>, n: nat): (r: Option<nat>)
    requires n <= |y|
    ensures IsStbdIndexUpTo(y, n, r)
  {
    if n == 0 then None
    else
      var prev := StbdScan(y, n - 1);
      if y[n - 1] > 0 && (prev.None? || y[n - 1] > y[prev.value]) then Some(n - 1) else prev
  }

  function PortIndex(y: seq<int>): (r: Option<nat>)
    ensures IsPortIndex(y, r)
  {
    PortScan(y, |y|)
  }

  function StbdIndex(y: seq<int>): (r: Option<nat>)
    ensures IsStbdIndex(y, r)
  {
    StbdScan(y, |y|)
  }

  /** The port choice is determined by y alone: at most one index qualifies. */
  lemma PortIndexUnique(y: seq<int>, a: Option<nat>, b: Option<nat>)
    requires IsPortIndex(y, a) && IsPortIndex(y, b)
    ensures a == b
  {
    if a.Some? && b.Some? {
      assert y[a.value] <= y[b.value] && y[b.value] <= y[a.value];
    }
  }

  lemma StbdIndexUnique(y: seq<int>, a: Option<nat>, b: Option<nat>)
    requires IsStbdIndex(y, a) && IsStbdIndex(y, b)
    ensures a == b
  {
    if a.Some? && b.Some? {
      assert y[a.value] <= y[b.value] && y[b.value] <= y[a.value];
    }
  }

  /** The loop of kmall_to_pkl_converter.py:420-423: the most negative
      across-track value, the earliest one on ties; a value of 0 is not port. */
  method FindPortIndex(y: seq<int>) returns (portIdx: Option<nat>)
    ensures IsPortIndex(y, portIdx)
  {
    portIdx := None;
    var i := 0;
    while i < |y|
      invariant 0 <= i <= |y|
      invariant IsPortIndexUpTo(y, i, portIdx)
    {
      if y[i] < 0 {
        if portIdx.None? || y[i] < y[portIdx.value] {
          portIdx := Some(i);
        }
      }
      i := i + 1;
    }
  }

  /** The loop of kmall_to_pkl_converter.py:426-429: the most positive
      across-track value, the earliest one on ties. */
  method FindStbdIndex(y: seq<int>) returns (stbdIdx: Option<nat>)
    ensures IsStbdIndex(y, stbdIdx)
  {
    stbdIdx := None;
    var i := 0;
    while i < |y|
      invariant 0 <= i <= |y|
      invariant IsStbdIndexUpTo(y, i, stbdIdx)
    {
      if y[i] > 0 {
        if stbdIdx.None? || y[i] > y[stbdIdx.value] {
          stbdIdx := Some(i);
        }
      }
      i := i + 1;
    }
  }

  // ---------------------------------------------------------------------------
  // One ping
  // ---------------------------------------------------------------------------

  /** The four values recorded for one side of a ping. */
  datatype Side = Side(y: Value, z: Value, bs: Value, angle: Value)

  const ZeroSide := Side(Num(0), Num(0), Num(0), Num(0))

  /** A side with no sounding is zero-filled; otherwise y and z at the chosen
      beam, and backscatter and angle there when their arrays reach that far. */
  function SideAt(idx: Option<nat>, y: seq<int>, z: seq<int>, bs: seq<int>, angle: seq<int>): (s: Side)
    requires idx.Some? ==> idx.value < |y| && idx.value < |z|
    ensures idx.None? ==> s == ZeroSide
    ensures idx.Some? ==> s.y == Num(y[idx.value]) && s.z == Num(z[idx.value])
    ensures idx.Some? && idx.value >= |bs| ==> s.bs == Num(0)
    ensures idx.Some? && idx.value >= |angle| ==> s.angle == Num(0)
  {
    match idx
    case None => ZeroSide
    case Some(k) =>
      Side(Num(y[k]), Num(z[k]),
           if k < |bs| then Num(bs[k]) else Num(0),
           if k < |angle| then Num(angle[k]) else Num(0))
  }

  /** The 40 values one accepted ping appends, in the order of `DetKeys`. */
  function Row(fname: Value, port: Side, stbd: Side, info: map<string, Value>): (row: seq<Value>)
    ensures |row| == PerPingKeyCount
  {
    [fname, Num(0), Num(0), Num(0), Num(0), Num(0),
     port.y, stbd.y, port.z, stbd.z, port.bs, stbd.bs, port.angle, stbd.angle,
     Get(info, "depthMode", Num(0)), Get(info, "pulseForm", Num(0)),
     Get(info, "swathMode", Num(0)), Get(info, "frequencyMode_Hz", Num(0))]
    + seq(22, _ => Num(0))
  }

  /** What one ping does to the detection lists. `Raised` is the IndexError of
      reading z at a beam that z does not have (z shorter than y). */
  datatype PingOutcome = Skipped | Appended(row: seq<Value>) | Raised

  /** The ping-mode dictionary for ping `p`, or an empty one past the list's end. */
  function InfoFor(pingInfo: seq<map<string, Value>>, p: nat): map<string, Value> {
    if p < |pingInfo| then pingInfo[p] else map[]
  }

  function ExtractPing(ping: Ping, info: map<string, Value>, fname: Value): (o: PingOutcome)
    ensures o.Skipped? <==> ping.z.None? || ping.y.None? || |ping.z.value| == 0 || |ping.y.value| == 0
    ensures o.Raised? <==>
              (!o.Skipped? &&
               ((PortIndex(ping.y.value).Some? && PortIndex(ping.y.value).value >= |ping.z.value|)
                || (StbdIndex(ping.y.value).Some? && StbdIndex(ping.y.value).value >= |ping.z.value|)))
    ensures ping.z.Some? && ping.y.Some? && 0 < |ping.y.value| <= |ping.z.value| ==> o.Appended?
    ensures o.Appended? ==> |o.row| == PerPingKeyCount
  {
    if ping.z.None? || ping.y.None? then Skipped
    else
      var z, y := ping.z.value, ping.y.value;
      if |z| == 0 || |y| == 0 then Skipped
      else
        var portIdx, stbdIdx := PortIndex(y), StbdIndex(y);
        if (portIdx.Some? && portIdx.value >= |z|) || (stbdIdx.Some? && stbdIdx.value >= |z|) then Raised
        else
          var bs, angle := ping.bs.GetOr([]), ping.angle.GetOr([]);
          Appended(Row(fname, SideAt(portIdx, y, z, bs, angle), SideAt(stbdIdx, y, z, bs, angle), info))
  }

  /** What an accepted ping records on the port side: the outermost negative
      sounding, or zeros when the ping has none. */
  lemma PortSideOfRow(ping: Ping, info: map<string, Value>, fname: Value)
    requires ExtractPing(ping, info, fname).Appended?
    ensures var row, y, z := ExtractPing(ping, info, fname).row, ping.y.value, ping.z.value;
      && ((forall i :: 0 <= i < |y| ==> y[i] >= 0) ==>
            row[YPort] == Num(0) && row[ZPort] == Num(0) && row[BsPort] == Num(0) && row[AnglePort] == Num(0))
      && ((exists i :: 0 <= i < |y| && y[i] < 0) ==>
            exists k :: 0 <= k < |y| && k < |z| && IsPortIndex(y, Some(k))
              && row[YPort] == Num(y[k]) && row[ZPort] == Num(z[k])
              && row[BsPort] == (if k < |ping.bs.GetOr([])| then Num(ping.bs.value[k]) else Num(0))
              && row[AnglePort] == (if k < |ping.angle.GetOr([])| then Num(ping.angle.value[k]) else Num(0)))
  {
    var y := ping.y.value;
    var p := PortIndex(y);
    if exists i :: 0 <= i < |y| && y[i] < 0 {
      var i :| 0 <= i < |y| && y[i] < 0;
      assert p.Some?;
    }
  }

  /** The starboard side of an accepted ping, mirror of `PortSideOfRow`. */
  lemma StbdSideOfRow(ping: Ping, info: map<string, Value>, fname: Value)
    requires ExtractPing(ping, info, fname).Appended?
    ensures var row, y, z := ExtractPing(ping, info, fname).row, ping.y.value, ping.z.value;
      && ((forall i :: 0 <= i < |y| ==> y[i] <= 0) ==>
            row[YStbd] == Num(0) && row[ZStbd] == Num(0) && row[BsStbd] == Num(0) && row[AngleStbd] == Num(0))
      && ((exists i :: 0 <= i < |y| && y[i] > 0) ==>
            exists k :: 0 <= k < |y| && k < |z| && IsStbdIndex(y, Some(k))
              && row[YStbd] == Num(y[k]) && row[ZStbd] == Num(z[k])
              && row[BsStbd] == (if k < |ping.bs.GetOr([])| then Num(ping.bs.value[k]) else Num(0))
              && row[AngleStbd] == (if k < |ping.angle.GetOr([])| then Num(ping.angle.value[k]) else Num(0)))
  {
    var y := ping.y.value;
    var s := StbdIndex(y);
    if exists i :: 0 <= i < |y| && y[i] > 0 {
      var i :| 0 <= i < |y| && y[i] > 0;
      assert s.Some?;
    }
  }

  /** The file name, the ping-mode fields and the 27 placeholder columns of an
      accepted ping. */
  lemma RowMetadata(ping: Ping, info: map<string, Value>, fname: Value)
    requires ExtractPing(ping, info, fname).Appended?
    ensures var row := ExtractPing(ping, info, fname).row;
      && row[FnameCol] == fname
      && row[PingModeCol] == Get(info, "depthMode", Num(0))
      && row[PulseFormCol] == Get(info, "pulseForm", Num(0))
      && row[SwathModeCol] == Get(info, "swathMode", Num(0))
      && row[FrequencyCol] == Get(info, "frequencyMode_Hz", Num(0))
      && forall k :: 0 <= k < PerPingKeyCount && IsZeroColumn(k) ==> row[k] == Num(0)
  {
  }

  // ---------------------------------------------------------------------------
  // All pings
  // ---------------------------------------------------------------------------

  /** The rows appended by the first `n` pings, or None once one of them raised
      (the exception discards the whole conversion). */
  function RowsUpTo(pings: seq<Ping>, pingInfo: seq<map<string, Value>>, fname: Value, n: nat): (r: Option<seq<seq<Value>>>)
    requires n <= |pings|
    ensures r.Some? ==> forall j :: 0 <= j < |r.value| ==> |r.value[j]| == PerPingKeyCount
  {
    if n == 0 then Some([])
    else match RowsUpTo(pings, pingInfo, fname, n - 1)
      case None => None
      case Some(rows) =>
        match ExtractPing(pings[n - 1], InfoFor(pingInfo, n - 1), fname)
        case Skipped => Some(rows)
        case Appended(row) => Some(rows + [row])
        case Raised => None
  }

  /** Number of pings among the first `n` that append a row. */
  function AcceptedCount(pings: seq<Ping>, pingInfo: seq<map<string, Value>>, fname: Value, n: nat): nat
    requires n <= |pings|
  {
    if n == 0 then 0
    else AcceptedCount(pings, pingInfo, fname, n - 1)
         + (if ExtractPing(pings[n - 1], InfoFor(pingInfo, n - 1), fname).Appended? then 1 else 0)
  }

  /** Conversion fails exactly when some ping raises; otherwise there is one row
      per accepted ping (`RowsUpToRows` gives the rows themselves). */
  lemma {:induction false} RowsUpToMeaning(pings: seq<Ping>, pingInfo: seq<map<string, Value>>, fname: Value, n: nat)
    requires n <= |pings|
    ensures RowsUpTo(pings, pingInfo, fname, n).None?
            <==> exists p :: 0 <= p < n && ExtractPing(pings[p], InfoFor(pingInfo, p), fname).Raised?
    ensures RowsUpTo(pings, pingInfo, fname, n).Some? ==>
            |RowsUpTo(pings, pingInfo, fname, n).value| == AcceptedCount(pings, pingInfo, fname, n)
  {
    if n > 0 {
      RowsUpToMeaning(pings, pingInfo, fname, n - 1);
    }
  }

  /** The rows the first `n` pings append, in ping order, leaving out pings
      that are skipped or raise. */
  function AppendedRows(pings: seq<Ping>, pingInfo: seq<map<string, Value>>, fname: Value, n: nat): (rows: seq<seq<Value>>)
    requires n <= |pings|
    ensures |rows| == AcceptedCount(pings, pingInfo, fname, n)
  {
    if n == 0 then []
    else AppendedRows(pings, pingInfo, fname, n - 1)
         + match ExtractPing(pings[n - 1], InfoFor(pingInfo, n - 1), fname)
           case Appended(row) => [row]
           case _ => []
  }

  /** Without a raising ping, the collected rows are exactly the rows of the
      appending pings, in ping order. */
  lemma {:induction false} RowsUpToRows(pings: seq<Ping>, pingInfo: seq<map<string, Value>>, fname: Value, n: nat)
    requires n <= |pings|
    requires RowsUpTo(pings, pingInfo, fname, n).Some?
    ensures RowsUpTo(pings, pingInfo, fname, n).value == AppendedRows(pings, pingInfo, fname, n)
  {
    if n > 0 {
      RowsUpToRows(pings, pingInfo, fname, n - 1);
    }
  }

  /** The detection lists: `cols[k]` holds entry k of every row, in ping order. */
  function Columns(rows: seq<seq<Value>>): (cols: seq<seq<Value>>)
    requires forall j :: 0 <= j < |rows| ==> |rows[j]| == PerPingKeyCount
    ensures |cols| == PerPingKeyCount
    ensures forall k :: 0 <= k < PerPingKeyCount ==> |cols[k]| == |rows|
  {
    seq(PerPingKeyCount, k requires 0 <= k < PerPingKeyCount =>
      seq(|rows|, j requires 0 <= j < |rows| => rows[j][k]))
  }

  /** Appending one row appends one entry to every list. */
  lemma ColumnsSnoc(rows: seq<seq<Value>>, row: seq<Value>)
    requires forall j :: 0 <= j < |rows| ==> |rows[j]| == PerPingKeyCount
    requires |row| == PerPingKeyCount
    ensures Columns(rows + [row])
            == seq(PerPingKeyCount, k requires 0 <= k < PerPingKeyCount => Columns(rows)[k] + [row[k]])
  {
    forall k | 0 <= k < PerPingKeyCount
      ensures Columns(rows + [row])[k] == Columns(rows)[k] + [row[k]]
    {
      var lhs, rhs := Columns(rows + [row])[k], Columns(rows)[k] + [row[k]];
      assert |lhs| == |rhs|;
      forall j | 0 <= j < |lhs| ensures lhs[j] == rhs[j] {
        if j < |rows| {
          assert (rows + [row])[j] == rows[j];
        }
      }
    }
  }

  /** The body of the ping loop, kmall_to_pkl_converter.py:397-469: skip a ping
      without soundings, scan for the outermost beams, read the values there. */
  method ExtractPingStep(ping: Ping, info: map<string, Value>, fname: Value) returns (o: PingOutcome)
    ensures o == ExtractPing(ping, info, fname)
  {
    if ping.z.None? || ping.y.None? {
      return Skipped;
    }
    var z, y := ping.z.value, ping.y.value;
    if |z| == 0 || |y| == 0 {
      return Skipped;
    }
    var portIdx := FindPortIndex(y);
    var stbdIdx := FindStbdIndex(y);
    PortIndexUnique(y, portIdx, PortIndex(y));
    StbdIndexUnique(y, stbdIdx, StbdIndex(y));
    if (portIdx.Some? && portIdx.value >= |z|) || (stbdIdx.Some? && stbdIdx.value >= |z|) {
      return Raised;
    }
    var bs, angle := ping.bs.GetOr([]), ping.angle.GetOr([]);
    o := Appended(Row(fname, SideAt(portIdx, y, z, bs, angle), SideAt(stbdIdx, y, z, bs, angle), info));
  }

  /** The ping loop of kmall_to_pkl_converter.py:397-469. */
  method ExtractColumns(pings: seq<Ping>, pingInfo: seq<map<string, Value>>, fname: Value)
    returns (det: Option<seq<seq<Value>>>)
    ensures det.None? <==> RowsUpTo(pings, pingInfo, fname, |pings|).None?
    ensures det.Some? ==> det.value == Columns(RowsUpTo(pings, pingInfo, fname, |pings|).value)
  {
    var cols: seq<seq<Value>> := seq(PerPingKeyCount, _ => []);
    var p := 0;
    assert cols == Columns([]);
    while p < |pings|
      invariant 0 <= p <= |pings|
      invariant RowsUpTo(pings, pingInfo, fname, p).Some?
      invariant cols == Columns(RowsUpTo(pings, pingInfo, fname, p).value)
    {
      var info := if p < |pingInfo| then pingInfo[p] else map[];
      var outcome := ExtractPingStep(pings[p], info, fname);
      match outcome {
        case Skipped =>
        case Raised =>
          RowsUpToMeaning(pings, pingInfo, fname, p + 1);
          RowsUpToMeaning(pings, pingInfo, fname, |pings|);
          return None;
        case Appended(row) =>
          ColumnsSnoc(RowsUpTo(pings, pingInfo, fname, p).value, row);
          cols := seq(PerPingKeyCount, k requires 0 <= k < PerPingKeyCount => cols[k] + [row[k]]);
      }
      p := p + 1;
    }
    det := Some(cols);
  }

  // ---------------------------------------------------------------------------
  // Side tables and the record
  // ---------------------------------------------------------------------------

  /** `fname` as the source normalises it: the first element of a non-empty list,
      a string unchanged, anything else through `str`. */
  function NormaliseFname(f: FnameField): (v: Value)
    ensures f.FnameAbsent? ==> v == Text("unknown")
    ensures f.FnameList? && |f.items| > 0 ==> v == f.items[0]
    ensures f.FnameList? && |f.items| == 0 ==> v == Text("[]")
    ensures f.FnameScalar? ==> v == Text(ValueToString(f.v))
  {
    match f
    case FnameAbsent => Text("unknown")
    case FnameList(items) => if |items| > 0 then items[0] else Text("[]")
    case FnameScalar(v) => if v.Text? then v else Text(ValueToString(v))
  }

  function MinimalXyzOf(p: Ping): MinimalXyz {
    MinimalXyz(
      p.bytesFromLastPing.GetOr(Num(0)), p.z.GetOr([]), p.y.GetOr([]), p.x.GetOr([]),
      p.deltaLat.GetOr([]), p.deltaLon.GetOr([]), p.detectionType.GetOr([]),
      p.bs.GetOr([]), p.angle.GetOr([]),
      p.pingMode.GetOr(Num(0)), p.pulseForm.GetOr(Num(0)), p.frequency.GetOr(Text("NA")))
  }

  /** The minimal XYZ list: one entry per ping, in order. */
  function XyzTable(pings: seq<Ping>): (t: seq<MinimalXyz>)
    ensures |t| == |pings|
    ensures forall i :: 0 <= i < |pings| ==> t[i] == MinimalXyzOf(pings[i])
  {
    seq(|pings|, i requires 0 <= i < |pings| => MinimalXyzOf(pings[i]))
  }

  /** 'start_byte': a zero per ping. */
  function ZeroStartBytes(pings: nat): (t: seq<int>)
    ensures |t| == pings && forall i :: 0 <= i < pings ==> t[i] == 0
  {
    seq(pings, _ => 0)
  }

  /** 'cmnPart' of a parsed file without one: `Num(0)` per ping. */
  function ZeroCmnPart(pings: nat): (t: seq<Value>)
    ensures |t| == pings && forall i :: 0 <= i < pings ==> t[i] == Num(0)
  {
    seq(pings, _ => Num(0))
  }

  function HdrEntryOf(m: map<string, Value>, now: Value): HdrEntry {
    HdrEntry(Get(m, "echoSounderID", Num(712)), Get(m, "dgdatetime", now))
  }

  function RtpEntryOf(m: map<string, Value>): RtpEntry {
    RtpEntry(Get(m, "depthMode", Num(0)), Get(m, "pulseForm", Num(0)))
  }

  /** The HDR table: one entry per source entry when the parser gave a non-empty
      list, otherwise `pings` default entries. */
  function HdrTable(hdr: Option<seq<map<string, Value>>>, pings: nat, now: Value): (t: seq<HdrEntry>)
    ensures hdr.Some? && |hdr.value| > 0 ==>
      |t| == |hdr.value| && forall i :: 0 <= i < |t| ==> t[i] == HdrEntryOf(hdr.value[i], now)
    ensures !(hdr.Some? && |hdr.value| > 0) ==>
      |t| == pings && forall i :: 0 <= i < |t| ==> t[i] == HdrEntry(Num(712), now)
  {
    if hdr.Some? && |hdr.value| > 0 then seq(|hdr.value|, i requires 0 <= i < |hdr.value| => HdrEntryOf(hdr.value[i], now))
    else seq(pings, _ => HdrEntry(Num(712), now))
  }

  function RtpTable(rtp: Option<seq<map<string, Value>>>, pings: nat): (t: seq<RtpEntry>)
    ensures rtp.Some? && |rtp.value| > 0 ==>
      |t| == |rtp.value| && forall i :: 0 <= i < |t| ==> t[i] == RtpEntryOf(rtp.value[i])
    ensures !(rtp.Some? && |rtp.value| > 0) ==>
      |t| == pings && forall i :: 0 <= i < |t| ==> t[i] == RtpEntry(Num(0), Num(0))
  {
    if rtp.Some? && |rtp.value| > 0 then seq(|rtp.value|, i requires 0 <= i < |rtp.value| => RtpEntryOf(rtp.value[i]))
    else seq(pings, _ => RtpEntry(Num(0), Num(0)))
  }

  /** The default 'install_txt' of a parsed file without one (the source stores
      this line as a one-element list). */
  const DefaultInstallTxt: string := "SN=0,SWLZ=0,TRAI_TX1X=0;Y=0;Z=0;R=0;P=0;H=0,TRAI_RX1X=0;Y=0;Z=0;R=0;P=0;H=0"

  const DefaultRuntimeTxt: string := "Max angle Port: 0\nMax angle Starboard: 0\nMax coverage Port: 0\nMax coverage Starboard: 0"

  /** The record assembled from the accepted rows. */
  function BuildRecord(d: ParsedData, pings: seq<Ping>, rows: seq<seq<Value>>, fname: Value, now: Value, nowIso: string): (r: SwathRecord)
    requires forall j :: 0 <= j < |rows| ==> |rows[j]| == PerPingKeyCount
    ensures |r.columns| == PerPingKeyCount - 1
    ensures forall k :: 0 <= k < |r.columns| ==> |r.columns[k]| == |rows|
    ensures r.fname == ValueToString(fname)
    ensures |r.xyz| == |pings| && |r.startByte| == |pings|
    ensures d.cmnPart.None? ==> |r.cmnPart| == |pings|
  {
    SwathRecord(
      Columns(rows)[1..],
      ValueToString(fname),
      d.fsize.GetOr(Num(0)),
      d.fsizeWc.GetOr(Num(0)),
      XyzTable(pings),
      HdrTable(d.hdr, |pings|, now),
      RtpTable(d.rtp, |pings|),
      if d.ip.Some? then Some(Get(d.ip.value, "install_txt", Text(DefaultInstallTxt))) else None,
      if d.iop.Some? then Some(IopBlock(Get(d.iop.value, "header", now), Get(d.iop.value, "runtime_txt", Text(DefaultRuntimeTxt)))) else None,
      ZeroStartBytes(|pings|),
      d.cmnPart.GetOr(ZeroCmnPart(|pings|)),
      Metadata(fname, 0, nowIso, "2.1", true, true))
  }

  /** The whole of `process_data_for_plotting`: None when the parser tools are
      missing, the input is not a dictionary, 'XYZ' is missing or empty, or a
      ping raises. `now` and `nowIso` stand for `datetime.now()`. */
  function Process(toolsAvailable: bool, parsed: ParserOutput, now: Value, nowIso: string): (r: Option<SwathRecord>)
    ensures r.Some? ==> toolsAvailable && parsed.Dict? && parsed.data.xyz.Some? && |parsed.data.xyz.value| > 0
    ensures r.Some? ==> r.value.fname == ValueToString(NormaliseFname(parsed.data.fname))
                        && |r.value.xyz| == |parsed.data.xyz.value|
  {
    if !toolsAvailable || parsed.NotADict? || parsed.data.xyz.None? || |parsed.data.xyz.value| == 0 then None
    else
      var d := parsed.data;
      var pings := d.xyz.value;
      var fname := NormaliseFname(d.fname);
      match RowsUpTo(pings, d.pingInfo.GetOr([]), fname, |pings|)
      case None => None
      case Some(rows) => Some(BuildRecord(d, pings, rows, fname, now, nowIso))
  }

  /** Shape of every record: 39 per-ping lists of one common length (the number
      of accepted pings), the side tables padded to the ping count, and the file
      name stored as a string. */
  lemma RecordShape(toolsAvailable: bool, parsed: ParserOutput, now: Value, nowIso: string)
    requires Process(toolsAvailable, parsed, now, nowIso).Some?
    ensures var rec, d := Process(toolsAvailable, parsed, now, nowIso).value, parsed.data;
      var pings := d.xyz.value;
      var fname := NormaliseFname(d.fname);
      && |rec.columns| == |RecordListKeys| == PerPingKeyCount - 1
      && (forall k :: 0 <= k < |rec.columns| ==>
            |rec.columns[k]| == AcceptedCount(pings, d.pingInfo.GetOr([]), fname, |pings|))
      && rec.fname == ValueToString(fname)
      && |rec.xyz| == |pings|
      && |rec.hdr| == (if d.hdr.Some? && |d.hdr.value| > 0 then |d.hdr.value| else |pings|)
      && |rec.rtp| == (if d.rtp.Some? && |d.rtp.value| > 0 then |d.rtp.value| else |pings|)
      && |rec.startByte| == |pings| && (forall i :: 0 <= i < |rec.startByte| ==> rec.startByte[i] == 0)
      && (d.cmnPart.None? ==> |rec.cmnPart| == |pings|)
  {
    var d := parsed.data;
    var pings := d.xyz.value;
    RowsUpToMeaning(pings, d.pingInfo.GetOr([]), NormaliseFname(d.fname), |pings|);
  }

  /** When conversion fails: exactly the four cases of the source. */
  lemma ProcessFailsExactly(toolsAvailable: bool, parsed: ParserOutput, now: Value, nowIso: string)
    ensures Process(toolsAvailable, parsed, now, nowIso).None? <==>
      || !toolsAvailable
      || parsed.NotADict?
      || parsed.data.xyz.None?
      || |parsed.data.xyz.value| == 0
      || exists p :: 0 <= p < |parsed.data.xyz.value|
           && ExtractPing(parsed.data.xyz.value[p], InfoFor(parsed.data.pingInfo.GetOr([]), p),
                          NormaliseFname(parsed.data.fname)).Raised?
  {
    if toolsAvailable && parsed.Dict? && parsed.data.xyz.Some? && |parsed.data.xyz.value| > 0 {
      var d := parsed.data;
      RowsUpToMeaning(d.xyz.value, d.pingInfo.GetOr([]), NormaliseFname(d.fname), |d.xyz.value|);
    }
  }

  /** kmall_to_pkl_converter.py:351-611 as a method: the ping loop, then the
      side tables. */
  method ProcessDataForPlotting(toolsAvailable: bool, parsed: ParserOutput, now: Value, nowIso: string)
    returns (r: Option<SwathRecord>)
    ensures r == Process(toolsAvailable, parsed, now, nowIso)
  {
    if !toolsAvailable || parsed.NotADict? {
      return None;
    }
    var d := parsed.data;
    if d.xyz.None? {
      return None;
    }
    var pings := d.xyz.value;
    var fname := NormaliseFname(d.fname);
    if |pings| == 0 {
      return None;
    }
    var det := ExtractColumns(pings, d.pingInfo.GetOr([]), fname);
    if det.None? {
      return None;
    }
    ghost var rows := RowsUpTo(pings, d.pingInfo.GetOr([]), fname, |pings|).value;
    var xyz := MinimalXyzList(pings);
    var hdr := HdrList(d.hdr, |pings|, now);
    var rtp := RtpList(d.rtp, |pings|);
    var ip := if d.ip.Some? then Some(Get(d.ip.value, "install_txt", Text(DefaultInstallTxt))) else None;
    var iop := if d.iop.Some? then Some(IopBlock(Get(d.iop.value, "header", now), Get(d.iop.value, "runtime_txt", Text(DefaultRuntimeTxt)))) else None;
    var startByte := ZeroStartBytes(|pings|);
    var cmnPart := d.cmnPart.GetOr(ZeroCmnPart(|pings|));
    r := Some(SwathRecord(det.value[1..], ValueToString(fname), d.fsize.GetOr(Num(0)), d.fsizeWc.GetOr(Num(0)),
                          xyz, hdr, rtp, ip, iop, startByte, cmnPart, Metadata(fname, 0, nowIso, "2.1", true, true)));
    assert r.value == BuildRecord(d, pings, rows, fname, now, nowIso);
  }

  /** The loop of kmall_to_pkl_converter.py:499-516. */
  method MinimalXyzList(pings: seq<Ping>) returns (xyz: seq<MinimalXyz>)
    ensures xyz == XyzTable(pings)
  {
    xyz := [];
    for i := 0 to |pings|
      invariant |xyz| == i
      invariant forall j :: 0 <= j < i ==> xyz[j] == MinimalXyzOf(pings[j])
    {
      xyz := xyz + [MinimalXyzOf(pings[i])];
    }
  }

  /** The loops of kmall_to_pkl_converter.py:519-534. */
  method HdrList(hdr: Option<seq<map<string, Value>>>, pings: nat, now: Value) returns (t: seq<HdrEntry>)
    ensures t == HdrTable(hdr, pings, now)
  {
    t := [];
    if hdr.Some? && |hdr.value| > 0 {
      for i := 0 to |hdr.value|
        invariant |t| == i
        invariant forall j :: 0 <= j < i ==> t[j] == HdrEntryOf(hdr.value[j], now)
      {
        t := t + [HdrEntryOf(hdr.value[i], now)];
      }
    } else {
      for i := 0 to pings
        invariant |t| == i
        invariant forall j :: 0 <= j < i ==> t[j] == HdrEntry(Num(712), now)
      {
        t := t + [HdrEntry(Num(712), now)];
      }
    }
  }

  /** The loops of kmall_to_pkl_converter.py:537-552. */
  method RtpList(rtp: Option<seq<map<string, Value>>>, pings: nat) returns (t: seq<RtpEntry>)
    ensures t == RtpTable(rtp, pings)
  {
    t := [];
    if rtp.Some? && |rtp.value| > 0 {
      for i := 0 to |rtp.value|
        invariant |t| == i
        invariant forall j :: 0 <= j < i ==> t[j] == RtpEntryOf(rtp.value[j])
      {
        t := t + [RtpEntryOf(rtp.value[i])];
      }
    } else {
      for i := 0 to pings
        invariant |t| == i
        invariant forall j :: 0 <= j < i ==> t[j] == RtpEntry(Num(0), Num(0))
      {
        t := t + [RtpEntry(Num(0), Num(0))];
      }
    }
  }
}
