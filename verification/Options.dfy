/** CommandLineOptions of envoy/admin/v2alpha: 27 fields, with one-byte tags up to field 15 and two-byte tags after
    it. */
module Options {
  import opened Wire
  import opened Buffer
  import opened Message

  // ---------------------------------------------------------------- CommandLineOptions

  datatype CommandLineOptions = CommandLineOptions(
    baseId: uint64, concurrency: uint32, configPath: bytes, configYaml: bytes, allowUnknownStaticFields: bool,
    adminAddressPath: bytes, localAddressIpVersion: int32, logLevel: bytes, componentLogLevel: bytes,
    logFormat: bytes, logPath: bytes, serviceCluster: bytes, serviceNode: bytes, serviceZone: bytes,
    fileFlushInterval: Ptr<bytes>, drainTime: Ptr<bytes>, parentShutdownTime: Ptr<bytes>, mode: int32,
    maxStats: uint64, maxObjNameLen: uint64, disableHotRestart: bool, enableMutexTracing: bool,
    restartEpoch: uint32, cpusetThreads: bool, rejectUnknownDynamicFields: bool, logFormatEscaped: bool,
    disabledExtensions: seq<bytes>, unknown: bytes)

  const COMMAND_LINE_OPTIONS_SCHEMA_LOW: seq<Key> := [Key(1, 0), Key(2, 0), Key(3, 2), Key(4, 2), Key(5, 0), Key(6, 2),
      Key(7, 0), Key(8, 2), Key(9, 2)]

  const COMMAND_LINE_OPTIONS_SCHEMA_MID: seq<Key> := [Key(10, 2), Key(11, 2), Key(13, 2), Key(14, 2), Key(15, 2),
      Key(16, 2), Key(17, 2), Key(18, 2), Key(19, 0)]

  const COMMAND_LINE_OPTIONS_SCHEMA_HIGH: seq<Key> := [Key(20, 0), Key(21, 0), Key(22, 0), Key(23, 0), Key(24, 0),
      Key(25, 0), Key(26, 0), Key(27, 0), Key(28, 2)]

  const COMMAND_LINE_OPTIONS_SCHEMA: seq<Key> := COMMAND_LINE_OPTIONS_SCHEMA_LOW + COMMAND_LINE_OPTIONS_SCHEMA_MID
      + COMMAND_LINE_OPTIONS_SCHEMA_HIGH

  function CommandLineOptionsLow(m: CommandLineOptions): seq<Segment> {
    [ IntSeg(1, U64(m.baseId)),
      IntSeg(2, U64(m.concurrency)),
      StringSeg(3, m.configPath),
      StringSeg(4, m.configYaml),
      BoolSeg(5, m.allowUnknownStaticFields),
      StringSeg(6, m.adminAddressPath),
      IntSeg(7, U64(m.localAddressIpVersion)),
      StringSeg(8, m.logLevel),
      StringSeg(9, m.componentLogLevel) ]
  }

  function CommandLineOptionsMid(m: CommandLineOptions): seq<Segment> {
    [ StringSeg(10, m.logFormat),
      StringSeg(11, m.logPath),
      StringSeg(13, m.serviceCluster),
      StringSeg(14, m.serviceNode),
      StringSeg(15, m.serviceZone),
      ChildSeg(16, m.fileFlushInterval),
      ChildSeg(17, m.drainTime),
      ChildSeg(18, m.parentShutdownTime),
      IntSeg(19, U64(m.mode)) ]
  }

  function CommandLineOptionsHigh(m: CommandLineOptions): seq<Segment> {
    [ IntSeg(20, U64(m.maxStats)),
      IntSeg(21, U64(m.maxObjNameLen)),
      BoolSeg(22, m.disableHotRestart),
      BoolSeg(23, m.enableMutexTracing),
      IntSeg(24, U64(m.restartEpoch)),
      BoolSeg(25, m.cpusetThreads),
      BoolSeg(26, m.rejectUnknownDynamicFields),
      BoolSeg(27, m.logFormatEscaped),
      ListSeg(28, m.disabledExtensions) ]
  }

  function CommandLineOptionsSegs(m: CommandLineOptions): seq<Segment> {
    CommandLineOptionsLow(m) + CommandLineOptionsMid(m) + CommandLineOptionsHigh(m)
  }

  lemma CommandLineOptionsLowAt(m: CommandLineOptions)
    ensures |CommandLineOptionsSegs(m)| == 27
    ensures CommandLineOptionsSegs(m)[0] == IntSeg(1, U64(m.baseId))
    ensures CommandLineOptionsSegs(m)[1] == IntSeg(2, U64(m.concurrency))
    ensures CommandLineOptionsSegs(m)[2] == StringSeg(3, m.configPath)
    ensures CommandLineOptionsSegs(m)[3] == StringSeg(4, m.configYaml)
    ensures CommandLineOptionsSegs(m)[4] == BoolSeg(5, m.allowUnknownStaticFields)
    ensures CommandLineOptionsSegs(m)[5] == StringSeg(6, m.adminAddressPath)
    ensures CommandLineOptionsSegs(m)[6] == IntSeg(7, U64(m.localAddressIpVersion))
    ensures CommandLineOptionsSegs(m)[7] == StringSeg(8, m.logLevel)
    ensures CommandLineOptionsSegs(m)[8] == StringSeg(9, m.componentLogLevel)
  {
    hide StringSeg, IntSeg, BoolSeg, ChildSeg, ListSeg;
  }

  lemma CommandLineOptionsMidAt(m: CommandLineOptions)
    ensures |CommandLineOptionsSegs(m)| == 27
    ensures CommandLineOptionsSegs(m)[9] == StringSeg(10, m.logFormat)
    ensures CommandLineOptionsSegs(m)[10] == StringSeg(11, m.logPath)
    ensures CommandLineOptionsSegs(m)[11] == StringSeg(13, m.serviceCluster)
    ensures CommandLineOptionsSegs(m)[12] == StringSeg(14, m.serviceNode)
    ensures CommandLineOptionsSegs(m)[13] == StringSeg(15, m.serviceZone)
    ensures CommandLineOptionsSegs(m)[14] == ChildSeg(16, m.fileFlushInterval)
    ensures CommandLineOptionsSegs(m)[15] == ChildSeg(17, m.drainTime)
    ensures CommandLineOptionsSegs(m)[16] == ChildSeg(18, m.parentShutdownTime)
    ensures CommandLineOptionsSegs(m)[17] == IntSeg(19, U64(m.mode))
  {
    hide StringSeg, IntSeg, BoolSeg, ChildSeg, ListSeg;
  }

  lemma CommandLineOptionsHighAt(m: CommandLineOptions)
    ensures |CommandLineOptionsSegs(m)| == 27
    ensures CommandLineOptionsSegs(m)[18] == IntSeg(20, U64(m.maxStats))
    ensures CommandLineOptionsSegs(m)[19] == IntSeg(21, U64(m.maxObjNameLen))
    ensures CommandLineOptionsSegs(m)[20] == BoolSeg(22, m.disableHotRestart)
    ensures CommandLineOptionsSegs(m)[21] == BoolSeg(23, m.enableMutexTracing)
    ensures CommandLineOptionsSegs(m)[22] == IntSeg(24, U64(m.restartEpoch))
    ensures CommandLineOptionsSegs(m)[23] == BoolSeg(25, m.cpusetThreads)
    ensures CommandLineOptionsSegs(m)[24] == BoolSeg(26, m.rejectUnknownDynamicFields)
    ensures CommandLineOptionsSegs(m)[25] == BoolSeg(27, m.logFormatEscaped)
    ensures CommandLineOptionsSegs(m)[26] == ListSeg(28, m.disabledExtensions)
  {
    hide StringSeg, IntSeg, BoolSeg, ChildSeg, ListSeg;
  }

  function EncodeCommandLineOptions(m: CommandLineOptions): bytes {
    Body(CommandLineOptionsSegs(m), 0, m.unknown)
  }

  /** The fields 20 to 28, in front of what comes after them. */
  method MarshalCommandLineOptionsHigh(m: CommandLineOptions, buf: array<byte>, end: nat, ghost t: Task)
    returns (i: nat)
    requires t.segs == CommandLineOptionsSegs(m) && Reached(buf[..], t, end, 27)
    modifies buf
    ensures Reached(buf[..], t, i, 18)
  {
    hide Reached, Counted, Body, VarintBytes, CommandLineOptionsSegs, StringSeg, IntSeg, BoolSeg, ChildSeg, ListSeg;
    CommandLineOptionsHighAt(m);
    i := end;
    TwoByteTag(226, 0xe2, 0x01);
    i := PutStrings(buf, i, [0xe2, 0x01], m.disabledExtensions, 28, t, 26);
    TwoByteTag(216, 0xd8, 0x01);
    i := PutBool(buf, i, [0xd8, 0x01], m.logFormatEscaped, 27, t, 25);
    TwoByteTag(208, 0xd0, 0x01);
    i := PutBool(buf, i, [0xd0, 0x01], m.rejectUnknownDynamicFields, 26, t, 24);
    TwoByteTag(200, 0xc8, 0x01);
    i := PutBool(buf, i, [0xc8, 0x01], m.cpusetThreads, 25, t, 23);
    TwoByteTag(192, 0xc0, 0x01);
    i := PutInt(buf, i, [0xc0, 0x01], U64(m.restartEpoch), 24, t, 22);
    TwoByteTag(184, 0xb8, 0x01);
    i := PutBool(buf, i, [0xb8, 0x01], m.enableMutexTracing, 23, t, 21);
    TwoByteTag(176, 0xb0, 0x01);
    i := PutBool(buf, i, [0xb0, 0x01], m.disableHotRestart, 22, t, 20);
    TwoByteTag(168, 0xa8, 0x01);
    i := PutInt(buf, i, [0xa8, 0x01], U64(m.maxObjNameLen), 21, t, 19);
    TwoByteTag(160, 0xa0, 0x01);
    i := PutInt(buf, i, [0xa0, 0x01], U64(m.maxStats), 20, t, 18);
  }

  /** The fields 10 to 19, in front of what comes after them. */
  method MarshalCommandLineOptionsMid(m: CommandLineOptions, buf: array<byte>, end: nat, ghost t: Task) returns (i: nat)
    requires t.segs == CommandLineOptionsSegs(m) && Reached(buf[..], t, end, 18)
    modifies buf
    ensures Reached(buf[..], t, i, 9)
  {
    hide Reached, Counted, Body, VarintBytes, CommandLineOptionsSegs, StringSeg, IntSeg, BoolSeg, ChildSeg, ListSeg;
    OneByteTags();
    CommandLineOptionsMidAt(m);
    i := end;
    TwoByteTag(152, 0x98, 0x01);
    i := PutInt(buf, i, [0x98, 0x01], U64(m.mode), 19, t, 17);
    TwoByteTag(146, 0x92, 0x01);
    i := PutOpaque(buf, i, [0x92, 0x01], m.parentShutdownTime, 18, t, 16);
    TwoByteTag(138, 0x8a, 0x01);
    i := PutOpaque(buf, i, [0x8a, 0x01], m.drainTime, 17, t, 15);
    TwoByteTag(130, 0x82, 0x01);
    i := PutOpaque(buf, i, [0x82, 0x01], m.fileFlushInterval, 16, t, 14);
    i := PutString(buf, i, [0x7a], m.serviceZone, 15, t, 13);
    i := PutString(buf, i, [0x72], m.serviceNode, 14, t, 12);
    i := PutString(buf, i, [0x6a], m.serviceCluster, 13, t, 11);
    i := PutString(buf, i, [0x5a], m.logPath, 11, t, 10);
    i := PutString(buf, i, [0x52], m.logFormat, 10, t, 9);
  }

  method MarshalCommandLineOptions(p: Ptr<CommandLineOptions>, buf: array<byte>, end: nat) returns (n: nat)
    requires |EncodePtr(EncodeCommandLineOptions, p)| <= end <= buf.Length
    modifies buf
    ensures n == |EncodePtr(EncodeCommandLineOptions, p)|
    ensures Filled(buf[..], old(buf[..]), end - n, EncodePtr(EncodeCommandLineOptions, p))
  {
    hide Reached, Counted, Body, VarintBytes, CommandLineOptionsSegs, StringSeg, IntSeg, BoolSeg, ChildSeg, ListSeg;
    if p.Nil? {
      FillNothing(buf[..], end);
      return 0;
    }
    var m := p.value;
    ghost var t := Task(buf[..], end, CommandLineOptionsSegs(m), m.unknown);
    OneByteTags();
    CommandLineOptionsLowAt(m);
    CommandLineOptionsHighAt(m);
    var i := PutUnknown(buf, m.unknown, end, t);
    i := MarshalCommandLineOptionsHigh(m, buf, i, t);
    i := MarshalCommandLineOptionsMid(m, buf, i, t);
    i := PutString(buf, i, [0x4a], m.componentLogLevel, 9, t, 8);
    i := PutString(buf, i, [0x42], m.logLevel, 8, t, 7);
    i := PutInt(buf, i, [0x38], U64(m.localAddressIpVersion), 7, t, 6);
    i := PutString(buf, i, [0x32], m.adminAddressPath, 6, t, 5);
    i := PutBool(buf, i, [0x28], m.allowUnknownStaticFields, 5, t, 4);
    i := PutString(buf, i, [0x22], m.configYaml, 4, t, 3);
    i := PutString(buf, i, [0x1a], m.configPath, 3, t, 2);
    i := PutInt(buf, i, [0x10], U64(m.concurrency), 2, t, 1);
    i := PutInt(buf, i, [0x08], U64(m.baseId), 1, t, 0);
    Finished(buf[..], t, i);
    n := end - i;
  }

  method SizeCommandLineOptionsMid(m: CommandLineOptions, sofar: nat, ghost t: Task) returns (n: nat)
    requires t.segs == CommandLineOptionsSegs(m)
    ensures Counted(t, sofar, 9) ==> Counted(t, n, 18)
  {
    hide Reached, Counted, Body, VarintBytes, CommandLineOptionsSegs, StringSeg, IntSeg, BoolSeg, ChildSeg, ListSeg;
    OneByteTags();
    CommandLineOptionsMidAt(m);
    n := sofar;
    n := SizeString(n, 1, m.logFormat, 10, t, 9);
    n := SizeString(n, 1, m.logPath, 11, t, 10);
    n := SizeString(n, 1, m.serviceCluster, 13, t, 11);
    n := SizeString(n, 1, m.serviceNode, 14, t, 12);
    n := SizeString(n, 1, m.serviceZone, 15, t, 13);
    TwoByteTag(130, 0x82, 0x01);
    n := SizeOpaque(n, 2, m.fileFlushInterval, 16, t, 14);
    TwoByteTag(138, 0x8a, 0x01);
    n := SizeOpaque(n, 2, m.drainTime, 17, t, 15);
    TwoByteTag(146, 0x92, 0x01);
    n := SizeOpaque(n, 2, m.parentShutdownTime, 18, t, 16);
    TwoByteTag(152, 0x98, 0x01);
    n := SizeInt(n, 2, U64(m.mode), 19, t, 17);
  }

  method SizeCommandLineOptionsHigh(m: CommandLineOptions, sofar: nat, ghost t: Task) returns (n: nat)
    requires t.segs == CommandLineOptionsSegs(m)
    ensures Counted(t, sofar, 18) ==> Counted(t, n, 27)
  {
    hide Reached, Counted, Body, VarintBytes, CommandLineOptionsSegs, StringSeg, IntSeg, BoolSeg, ChildSeg, ListSeg;
    CommandLineOptionsHighAt(m);
    n := sofar;
    TwoByteTag(160, 0xa0, 0x01);
    n := SizeInt(n, 2, U64(m.maxStats), 20, t, 18);
    TwoByteTag(168, 0xa8, 0x01);
    n := SizeInt(n, 2, U64(m.maxObjNameLen), 21, t, 19);
    TwoByteTag(176, 0xb0, 0x01);
    n := SizeBool(n, 3, m.disableHotRestart, 22, t, 20);
    TwoByteTag(184, 0xb8, 0x01);
    n := SizeBool(n, 3, m.enableMutexTracing, 23, t, 21);
    TwoByteTag(192, 0xc0, 0x01);
    n := SizeInt(n, 2, U64(m.restartEpoch), 24, t, 22);
    TwoByteTag(200, 0xc8, 0x01);
    n := SizeBool(n, 3, m.cpusetThreads, 25, t, 23);
    TwoByteTag(208, 0xd0, 0x01);
    n := SizeBool(n, 3, m.rejectUnknownDynamicFields, 26, t, 24);
    TwoByteTag(216, 0xd8, 0x01);
    n := SizeBool(n, 3, m.logFormatEscaped, 27, t, 25);
    TwoByteTag(226, 0xe2, 0x01);
    n := SizeStrings(n, 2, m.disabledExtensions, 28, t, 26);
  }

  method SizeCommandLineOptions(p: Ptr<CommandLineOptions>) returns (n: nat)
    ensures n == |EncodePtr(EncodeCommandLineOptions, p)|
  {
    hide Reached, Counted, Body, VarintBytes, CommandLineOptionsSegs, StringSeg, IntSeg, BoolSeg, ChildSeg, ListSeg;
    if p.Nil? { return 0; }
    var m := p.value;
    ghost var t := Task([], 0, CommandLineOptionsSegs(m), m.unknown);
    OneByteTags();
    CommandLineOptionsLowAt(m);
    CommandLineOptionsHighAt(m);
    n := StartSize(t);
    n := SizeInt(n, 1, U64(m.baseId), 1, t, 0);
    n := SizeInt(n, 1, U64(m.concurrency), 2, t, 1);
    n := SizeString(n, 1, m.configPath, 3, t, 2);
    n := SizeString(n, 1, m.configYaml, 4, t, 3);
    n := SizeBool(n, 2, m.allowUnknownStaticFields, 5, t, 4);
    n := SizeString(n, 1, m.adminAddressPath, 6, t, 5);
    n := SizeInt(n, 1, U64(m.localAddressIpVersion), 7, t, 6);
    n := SizeString(n, 1, m.logLevel, 8, t, 7);
    n := SizeString(n, 1, m.componentLogLevel, 9, t, 8);
    n := SizeCommandLineOptionsMid(m, n, t);
    n := SizeCommandLineOptionsHigh(m, n, t);
    n := SizeUnknown(n, m.unknown, t);
  }

  function DecodeCommandLineOptions(s: bytes): Option<CommandLineOptions> {
    var fs :- Parse(s);
    Some(CommandLineOptions(
      ToUint64(LastInt(Payloads(fs, Key(1, 0)))),
      ToUint32(LastInt(Payloads(fs, Key(2, 0)))),
      LastData(Payloads(fs, Key(3, 2))),
      LastData(Payloads(fs, Key(4, 2))),
      LastInt(Payloads(fs, Key(5, 0))) != 0,
      LastData(Payloads(fs, Key(6, 2))),
      ToInt32(LastInt(Payloads(fs, Key(7, 0)))),
      LastData(Payloads(fs, Key(8, 2))),
      LastData(Payloads(fs, Key(9, 2))),
      LastData(Payloads(fs, Key(10, 2))),
      LastData(Payloads(fs, Key(11, 2))),
      LastData(Payloads(fs, Key(13, 2))),
      LastData(Payloads(fs, Key(14, 2))),
      LastData(Payloads(fs, Key(15, 2))),
      Merged(Payloads(fs, Key(16, 2))),
      Merged(Payloads(fs, Key(17, 2))),
      Merged(Payloads(fs, Key(18, 2))),
      ToInt32(LastInt(Payloads(fs, Key(19, 0)))),
      ToUint64(LastInt(Payloads(fs, Key(20, 0)))),
      ToUint64(LastInt(Payloads(fs, Key(21, 0)))),
      LastInt(Payloads(fs, Key(22, 0))) != 0,
      LastInt(Payloads(fs, Key(23, 0))) != 0,
      ToUint32(LastInt(Payloads(fs, Key(24, 0)))),
      LastInt(Payloads(fs, Key(25, 0))) != 0,
      LastInt(Payloads(fs, Key(26, 0))) != 0,
      LastInt(Payloads(fs, Key(27, 0))) != 0,
      Items(Payloads(fs, Key(28, 2))),
      Unrecognised(fs, COMMAND_LINE_OPTIONS_SCHEMA)))
  }

  function NormalCommandLineOptions(m: CommandLineOptions): CommandLineOptions {
    m
  }

  predicate WellFormedCommandLineOptions(m: CommandLineOptions) {
    && WellFormedUnknown(m.unknown, COMMAND_LINE_OPTIONS_SCHEMA)
  }

  lemma CommandLineOptionsLowShape(m: CommandLineOptions)
    ensures Shaped(CommandLineOptionsLow(m), COMMAND_LINE_OPTIONS_SCHEMA_LOW)
        && Ascending(COMMAND_LINE_OPTIONS_SCHEMA_LOW)
  {
    hide ShapedSegment, StringSeg, IntSeg, BoolSeg, ChildSeg, ListSeg, DoubleSeg;
  }

  lemma CommandLineOptionsMidShape(m: CommandLineOptions)
    ensures Shaped(CommandLineOptionsMid(m), COMMAND_LINE_OPTIONS_SCHEMA_MID)
        && Ascending(COMMAND_LINE_OPTIONS_SCHEMA_MID)
  {
    hide ShapedSegment, StringSeg, IntSeg, BoolSeg, ChildSeg, ListSeg, DoubleSeg;
  }

  lemma CommandLineOptionsHighShape(m: CommandLineOptions)
    ensures Shaped(CommandLineOptionsHigh(m), COMMAND_LINE_OPTIONS_SCHEMA_HIGH)
        && Ascending(COMMAND_LINE_OPTIONS_SCHEMA_HIGH)
  {
    hide ShapedSegment, StringSeg, IntSeg, BoolSeg, ChildSeg, ListSeg, DoubleSeg;
  }

  lemma CommandLineOptionsShape(m: CommandLineOptions)
    ensures Shaped(CommandLineOptionsSegs(m), COMMAND_LINE_OPTIONS_SCHEMA) && Ascending(COMMAND_LINE_OPTIONS_SCHEMA)
  {
    hide ShapedSegment, CommandLineOptionsLow, CommandLineOptionsMid, CommandLineOptionsHigh;
    CommandLineOptionsLowShape(m);
    CommandLineOptionsMidShape(m);
    CommandLineOptionsHighShape(m);
    assert COMMAND_LINE_OPTIONS_SCHEMA_LOW[8].num < COMMAND_LINE_OPTIONS_SCHEMA_MID[0].num
        && COMMAND_LINE_OPTIONS_SCHEMA_MID[8].num < COMMAND_LINE_OPTIONS_SCHEMA_HIGH[0].num;
  }

  lemma CommandLineOptionsLowBack(m: CommandLineOptions, fs: seq<Field>)
    requires Finds(fs, CommandLineOptionsSegs(m), COMMAND_LINE_OPTIONS_SCHEMA)
    ensures ToUint64(LastInt(Payloads(fs, Key(1, 0)))) == m.baseId
    ensures ToUint32(LastInt(Payloads(fs, Key(2, 0)))) == m.concurrency
    ensures LastData(Payloads(fs, Key(3, 2))) == m.configPath
    ensures LastData(Payloads(fs, Key(4, 2))) == m.configYaml
    ensures (LastInt(Payloads(fs, Key(5, 0))) != 0) == m.allowUnknownStaticFields
    ensures LastData(Payloads(fs, Key(6, 2))) == m.adminAddressPath
    ensures ToInt32(LastInt(Payloads(fs, Key(7, 0)))) == m.localAddressIpVersion
    ensures LastData(Payloads(fs, Key(8, 2))) == m.logLevel
    ensures LastData(Payloads(fs, Key(9, 2))) == m.componentLogLevel
  {
    hide Payloads, Items, Merged, LastData, LastInt, U64, CommandLineOptionsSegs, StringSeg, IntSeg, BoolSeg, ChildSeg,
         ListSeg;
    var segs := CommandLineOptionsSegs(m);
    CommandLineOptionsLowAt(m);
    assert Payloads(fs, COMMAND_LINE_OPTIONS_SCHEMA[0]) == segs[0].payloads;
    IntBack(1, m.baseId);
    assert Payloads(fs, COMMAND_LINE_OPTIONS_SCHEMA[1]) == segs[1].payloads;
    IntBack(2, m.concurrency);
    assert Payloads(fs, COMMAND_LINE_OPTIONS_SCHEMA[2]) == segs[2].payloads;
    StringBack(3, m.configPath);
    assert Payloads(fs, COMMAND_LINE_OPTIONS_SCHEMA[3]) == segs[3].payloads;
    StringBack(4, m.configYaml);
    assert Payloads(fs, COMMAND_LINE_OPTIONS_SCHEMA[4]) == segs[4].payloads;
    BoolBack(5, m.allowUnknownStaticFields);
    assert Payloads(fs, COMMAND_LINE_OPTIONS_SCHEMA[5]) == segs[5].payloads;
    StringBack(6, m.adminAddressPath);
    assert Payloads(fs, COMMAND_LINE_OPTIONS_SCHEMA[6]) == segs[6].payloads;
    IntBack(7, m.localAddressIpVersion);
    assert Payloads(fs, COMMAND_LINE_OPTIONS_SCHEMA[7]) == segs[7].payloads;
    StringBack(8, m.logLevel);
    assert Payloads(fs, COMMAND_LINE_OPTIONS_SCHEMA[8]) == segs[8].payloads;
    StringBack(9, m.componentLogLevel);
  }

  lemma CommandLineOptionsMidBack(m: CommandLineOptions, fs: seq<Field>)
    requires Finds(fs, CommandLineOptionsSegs(m), COMMAND_LINE_OPTIONS_SCHEMA)
    ensures LastData(Payloads(fs, Key(10, 2))) == m.logFormat
    ensures LastData(Payloads(fs, Key(11, 2))) == m.logPath
    ensures LastData(Payloads(fs, Key(13, 2))) == m.serviceCluster
    ensures LastData(Payloads(fs, Key(14, 2))) == m.serviceNode
    ensures LastData(Payloads(fs, Key(15, 2))) == m.serviceZone
    ensures Merged(Payloads(fs, Key(16, 2))) == m.fileFlushInterval
    ensures Merged(Payloads(fs, Key(17, 2))) == m.drainTime
    ensures Merged(Payloads(fs, Key(18, 2))) == m.parentShutdownTime
    ensures ToInt32(LastInt(Payloads(fs, Key(19, 0)))) == m.mode
  {
    hide Payloads, Items, Merged, LastData, LastInt, U64, CommandLineOptionsSegs, StringSeg, IntSeg, BoolSeg, ChildSeg,
         ListSeg;
    var segs := CommandLineOptionsSegs(m);
    CommandLineOptionsMidAt(m);
    assert Payloads(fs, COMMAND_LINE_OPTIONS_SCHEMA[9]) == segs[9].payloads;
    StringBack(10, m.logFormat);
    assert Payloads(fs, COMMAND_LINE_OPTIONS_SCHEMA[10]) == segs[10].payloads;
    StringBack(11, m.logPath);
    assert Payloads(fs, COMMAND_LINE_OPTIONS_SCHEMA[11]) == segs[11].payloads;
    StringBack(13, m.serviceCluster);
    assert Payloads(fs, COMMAND_LINE_OPTIONS_SCHEMA[12]) == segs[12].payloads;
    StringBack(14, m.serviceNode);
    assert Payloads(fs, COMMAND_LINE_OPTIONS_SCHEMA[13]) == segs[13].payloads;
    StringBack(15, m.serviceZone);
    assert Payloads(fs, COMMAND_LINE_OPTIONS_SCHEMA[14]) == segs[14].payloads;
    MergedChild(16, m.fileFlushInterval);
    assert Payloads(fs, COMMAND_LINE_OPTIONS_SCHEMA[15]) == segs[15].payloads;
    MergedChild(17, m.drainTime);
    assert Payloads(fs, COMMAND_LINE_OPTIONS_SCHEMA[16]) == segs[16].payloads;
    MergedChild(18, m.parentShutdownTime);
    assert Payloads(fs, COMMAND_LINE_OPTIONS_SCHEMA[17]) == segs[17].payloads;
    IntBack(19, m.mode);
  }

  lemma CommandLineOptionsHighBack(m: CommandLineOptions, fs: seq<Field>)
    requires Finds(fs, CommandLineOptionsSegs(m), COMMAND_LINE_OPTIONS_SCHEMA)
    ensures ToUint64(LastInt(Payloads(fs, Key(20, 0)))) == m.maxStats
    ensures ToUint64(LastInt(Payloads(fs, Key(21, 0)))) == m.maxObjNameLen
    ensures (LastInt(Payloads(fs, Key(22, 0))) != 0) == m.disableHotRestart
    ensures (LastInt(Payloads(fs, Key(23, 0))) != 0) == m.enableMutexTracing
    ensures ToUint32(LastInt(Payloads(fs, Key(24, 0)))) == m.restartEpoch
    ensures (LastInt(Payloads(fs, Key(25, 0))) != 0) == m.cpusetThreads
    ensures (LastInt(Payloads(fs, Key(26, 0))) != 0) == m.rejectUnknownDynamicFields
    ensures (LastInt(Payloads(fs, Key(27, 0))) != 0) == m.logFormatEscaped
    ensures Items(Payloads(fs, Key(28, 2))) == m.disabledExtensions
  {
    hide Payloads, Items, Merged, LastData, LastInt, U64, CommandLineOptionsSegs, StringSeg, IntSeg, BoolSeg, ChildSeg,
         ListSeg;
    var segs := CommandLineOptionsSegs(m);
    CommandLineOptionsHighAt(m);
    assert Payloads(fs, COMMAND_LINE_OPTIONS_SCHEMA[18]) == segs[18].payloads;
    IntBack(20, m.maxStats);
    assert Payloads(fs, COMMAND_LINE_OPTIONS_SCHEMA[19]) == segs[19].payloads;
    IntBack(21, m.maxObjNameLen);
    assert Payloads(fs, COMMAND_LINE_OPTIONS_SCHEMA[20]) == segs[20].payloads;
    BoolBack(22, m.disableHotRestart);
    assert Payloads(fs, COMMAND_LINE_OPTIONS_SCHEMA[21]) == segs[21].payloads;
    BoolBack(23, m.enableMutexTracing);
    assert Payloads(fs, COMMAND_LINE_OPTIONS_SCHEMA[22]) == segs[22].payloads;
    IntBack(24, m.restartEpoch);
    assert Payloads(fs, COMMAND_LINE_OPTIONS_SCHEMA[23]) == segs[23].payloads;
    BoolBack(25, m.cpusetThreads);
    assert Payloads(fs, COMMAND_LINE_OPTIONS_SCHEMA[24]) == segs[24].payloads;
    BoolBack(26, m.rejectUnknownDynamicFields);
    assert Payloads(fs, COMMAND_LINE_OPTIONS_SCHEMA[25]) == segs[25].payloads;
    BoolBack(27, m.logFormatEscaped);
    assert Payloads(fs, COMMAND_LINE_OPTIONS_SCHEMA[26]) == segs[26].payloads;
    ItemsOfList(28, m.disabledExtensions);
  }

  lemma CommandLineOptionsRoundTrip(m: CommandLineOptions)
    requires WellFormedCommandLineOptions(m) && |EncodeCommandLineOptions(m)| < TWO_63
    ensures DecodeCommandLineOptions(EncodeCommandLineOptions(m)) == Some(NormalCommandLineOptions(m))
  {
    hide Parse, Body, Payloads, Unrecognised, ShapedSegment, Items, Merged, LastData, LastInt, U64,
         CommandLineOptionsSegs, Ascending, WellFormedUnknown;
    var segs := CommandLineOptionsSegs(m);
    CommandLineOptionsShape(m);
    ReadMessage(segs, COMMAND_LINE_OPTIONS_SCHEMA, m.unknown);
    var fs := Parse(EncodeCommandLineOptions(m)).value;
    CommandLineOptionsLowBack(m, fs);
    CommandLineOptionsMidBack(m, fs);
    CommandLineOptionsHighBack(m, fs);
  }

  lemma CommandLineOptionsLowLayout(m: CommandLineOptions, fs: seq<Field>)
    requires Finds(fs, CommandLineOptionsSegs(m), COMMAND_LINE_OPTIONS_SCHEMA)
    ensures Payloads(fs, Key(1, 0)) == (if m.baseId != 0 then [Varint(m.baseId)] else [])
    ensures Payloads(fs, Key(2, 0)) == (if m.concurrency != 0 then [Varint(m.concurrency)] else [])
    ensures Payloads(fs, Key(3, 2)) == (if |m.configPath| > 0 then [Bytes(m.configPath)] else [])
    ensures Payloads(fs, Key(4, 2)) == (if |m.configYaml| > 0 then [Bytes(m.configYaml)] else [])
    ensures Payloads(fs, Key(5, 0)) == (if m.allowUnknownStaticFields then [Varint(1)] else [])
    ensures Payloads(fs, Key(6, 2)) == (if |m.adminAddressPath| > 0 then [Bytes(m.adminAddressPath)] else [])
    ensures Payloads(fs, Key(7, 0)) == (if m.localAddressIpVersion == 0 then []
        else [Varint(if m.localAddressIpVersion < 0 then m.localAddressIpVersion + TWO_64
            else m.localAddressIpVersion)])
    ensures Payloads(fs, Key(8, 2)) == (if |m.logLevel| > 0 then [Bytes(m.logLevel)] else [])
    ensures Payloads(fs, Key(9, 2)) == (if |m.componentLogLevel| > 0 then [Bytes(m.componentLogLevel)] else [])
  {
    hide Payloads, Items, CommandLineOptionsSegs;
    var segs := CommandLineOptionsSegs(m);
    CommandLineOptionsLowAt(m);
    assert Payloads(fs, COMMAND_LINE_OPTIONS_SCHEMA[0]) == segs[0].payloads;
    assert Payloads(fs, COMMAND_LINE_OPTIONS_SCHEMA[1]) == segs[1].payloads;
    assert Payloads(fs, COMMAND_LINE_OPTIONS_SCHEMA[2]) == segs[2].payloads;
    assert Payloads(fs, COMMAND_LINE_OPTIONS_SCHEMA[3]) == segs[3].payloads;
    assert Payloads(fs, COMMAND_LINE_OPTIONS_SCHEMA[4]) == segs[4].payloads;
    assert Payloads(fs, COMMAND_LINE_OPTIONS_SCHEMA[5]) == segs[5].payloads;
    assert Payloads(fs, COMMAND_LINE_OPTIONS_SCHEMA[6]) == segs[6].payloads;
    assert Payloads(fs, COMMAND_LINE_OPTIONS_SCHEMA[7]) == segs[7].payloads;
    assert Payloads(fs, COMMAND_LINE_OPTIONS_SCHEMA[8]) == segs[8].payloads;
  }

  lemma CommandLineOptionsMidLayout(m: CommandLineOptions, fs: seq<Field>)
    requires Finds(fs, CommandLineOptionsSegs(m), COMMAND_LINE_OPTIONS_SCHEMA)
    ensures Payloads(fs, Key(10, 2)) == (if |m.logFormat| > 0 then [Bytes(m.logFormat)] else [])
    ensures Payloads(fs, Key(11, 2)) == (if |m.logPath| > 0 then [Bytes(m.logPath)] else [])
    ensures Payloads(fs, Key(13, 2)) == (if |m.serviceCluster| > 0 then [Bytes(m.serviceCluster)] else [])
    ensures Payloads(fs, Key(14, 2)) == (if |m.serviceNode| > 0 then [Bytes(m.serviceNode)] else [])
    ensures Payloads(fs, Key(15, 2)) == (if |m.serviceZone| > 0 then [Bytes(m.serviceZone)] else [])
    ensures Payloads(fs, Key(16, 2)) == (if m.fileFlushInterval.Nil? then [] else [Bytes(m.fileFlushInterval.value)])
    ensures Payloads(fs, Key(17, 2)) == (if m.drainTime.Nil? then [] else [Bytes(m.drainTime.value)])
    ensures Payloads(fs, Key(18, 2)) == (if m.parentShutdownTime.Nil? then [] else [Bytes(m.parentShutdownTime.value)])
    ensures Payloads(fs, Key(19, 0)) == (if m.mode == 0 then []
        else [Varint(if m.mode < 0 then m.mode + TWO_64 else m.mode)])
  {
    hide Payloads, Items, CommandLineOptionsSegs;
    var segs := CommandLineOptionsSegs(m);
    CommandLineOptionsMidAt(m);
    assert Payloads(fs, COMMAND_LINE_OPTIONS_SCHEMA[9]) == segs[9].payloads;
    assert Payloads(fs, COMMAND_LINE_OPTIONS_SCHEMA[10]) == segs[10].payloads;
    assert Payloads(fs, COMMAND_LINE_OPTIONS_SCHEMA[11]) == segs[11].payloads;
    assert Payloads(fs, COMMAND_LINE_OPTIONS_SCHEMA[12]) == segs[12].payloads;
    assert Payloads(fs, COMMAND_LINE_OPTIONS_SCHEMA[13]) == segs[13].payloads;
    assert Payloads(fs, COMMAND_LINE_OPTIONS_SCHEMA[14]) == segs[14].payloads;
    assert Payloads(fs, COMMAND_LINE_OPTIONS_SCHEMA[15]) == segs[15].payloads;
    assert Payloads(fs, COMMAND_LINE_OPTIONS_SCHEMA[16]) == segs[16].payloads;
    assert Payloads(fs, COMMAND_LINE_OPTIONS_SCHEMA[17]) == segs[17].payloads;
  }

  lemma CommandLineOptionsHighLayout(m: CommandLineOptions, fs: seq<Field>)
    requires Finds(fs, CommandLineOptionsSegs(m), COMMAND_LINE_OPTIONS_SCHEMA)
    ensures Payloads(fs, Key(20, 0)) == (if m.maxStats != 0 then [Varint(m.maxStats)] else [])
    ensures Payloads(fs, Key(21, 0)) == (if m.maxObjNameLen != 0 then [Varint(m.maxObjNameLen)] else [])
    ensures Payloads(fs, Key(22, 0)) == (if m.disableHotRestart then [Varint(1)] else [])
    ensures Payloads(fs, Key(23, 0)) == (if m.enableMutexTracing then [Varint(1)] else [])
    ensures Payloads(fs, Key(24, 0)) == (if m.restartEpoch != 0 then [Varint(m.restartEpoch)] else [])
    ensures Payloads(fs, Key(25, 0)) == (if m.cpusetThreads then [Varint(1)] else [])
    ensures Payloads(fs, Key(26, 0)) == (if m.rejectUnknownDynamicFields then [Varint(1)] else [])
    ensures Payloads(fs, Key(27, 0)) == (if m.logFormatEscaped then [Varint(1)] else [])
    ensures Items(Payloads(fs, Key(28, 2))) == m.disabledExtensions
  {
    hide Payloads, Items, CommandLineOptionsSegs;
    var segs := CommandLineOptionsSegs(m);
    CommandLineOptionsHighAt(m);
    assert Payloads(fs, COMMAND_LINE_OPTIONS_SCHEMA[18]) == segs[18].payloads;
    assert Payloads(fs, COMMAND_LINE_OPTIONS_SCHEMA[19]) == segs[19].payloads;
    assert Payloads(fs, COMMAND_LINE_OPTIONS_SCHEMA[20]) == segs[20].payloads;
    assert Payloads(fs, COMMAND_LINE_OPTIONS_SCHEMA[21]) == segs[21].payloads;
    assert Payloads(fs, COMMAND_LINE_OPTIONS_SCHEMA[22]) == segs[22].payloads;
    assert Payloads(fs, COMMAND_LINE_OPTIONS_SCHEMA[23]) == segs[23].payloads;
    assert Payloads(fs, COMMAND_LINE_OPTIONS_SCHEMA[24]) == segs[24].payloads;
    assert Payloads(fs, COMMAND_LINE_OPTIONS_SCHEMA[25]) == segs[25].payloads;
    assert Payloads(fs, COMMAND_LINE_OPTIONS_SCHEMA[26]) == segs[26].payloads;
    ItemsOfList(28, m.disabledExtensions);
  }

  /** Which record carries which field, and when it is there at all. */
  lemma CommandLineOptionsLayout(m: CommandLineOptions)
    requires WellFormedUnknown(m.unknown, COMMAND_LINE_OPTIONS_SCHEMA) && |EncodeCommandLineOptions(m)| < TWO_63
    ensures Parse(EncodeCommandLineOptions(m)).Some?
    ensures var fs := Parse(EncodeCommandLineOptions(m)).value;
            && Payloads(fs, Key(1, 0)) == (if m.baseId != 0 then [Varint(m.baseId)] else [])
            && Payloads(fs, Key(2, 0)) == (if m.concurrency != 0 then [Varint(m.concurrency)] else [])
            && Payloads(fs, Key(3, 2)) == (if |m.configPath| > 0 then [Bytes(m.configPath)] else [])
            && Payloads(fs, Key(4, 2)) == (if |m.configYaml| > 0 then [Bytes(m.configYaml)] else [])
            && Payloads(fs, Key(5, 0)) == (if m.allowUnknownStaticFields then [Varint(1)] else [])
            && Payloads(fs, Key(6, 2)) == (if |m.adminAddressPath| > 0 then [Bytes(m.adminAddressPath)] else [])
            && Payloads(fs, Key(7, 0)) == (if m.localAddressIpVersion == 0 then []
               else [Varint(if m.localAddressIpVersion < 0 then m.localAddressIpVersion + TWO_64
                   else m.localAddressIpVersion)])
            && Payloads(fs, Key(8, 2)) == (if |m.logLevel| > 0 then [Bytes(m.logLevel)] else [])
            && Payloads(fs, Key(9, 2)) == (if |m.componentLogLevel| > 0 then [Bytes(m.componentLogLevel)] else [])
            && Payloads(fs, Key(10, 2)) == (if |m.logFormat| > 0 then [Bytes(m.logFormat)] else [])
            && Payloads(fs, Key(11, 2)) == (if |m.logPath| > 0 then [Bytes(m.logPath)] else [])
            && Payloads(fs, Key(13, 2)) == (if |m.serviceCluster| > 0 then [Bytes(m.serviceCluster)] else [])
            && Payloads(fs, Key(14, 2)) == (if |m.serviceNode| > 0 then [Bytes(m.serviceNode)] else [])
            && Payloads(fs, Key(15, 2)) == (if |m.serviceZone| > 0 then [Bytes(m.serviceZone)] else [])
            && Payloads(fs, Key(16, 2)) == (if m.fileFlushInterval.Nil? then [] else [Bytes(m.fileFlushInterval.value)])
            && Payloads(fs, Key(17, 2)) == (if m.drainTime.Nil? then [] else [Bytes(m.drainTime.value)])
            && Payloads(fs, Key(18, 2)) == (if m.parentShutdownTime.Nil? then []
               else [Bytes(m.parentShutdownTime.value)])
            && Payloads(fs, Key(19, 0)) == (if m.mode == 0 then []
               else [Varint(if m.mode < 0 then m.mode + TWO_64 else m.mode)])
            && Payloads(fs, Key(20, 0)) == (if m.maxStats != 0 then [Varint(m.maxStats)] else [])
            && Payloads(fs, Key(21, 0)) == (if m.maxObjNameLen != 0 then [Varint(m.maxObjNameLen)] else [])
            && Payloads(fs, Key(22, 0)) == (if m.disableHotRestart then [Varint(1)] else [])
            && Payloads(fs, Key(23, 0)) == (if m.enableMutexTracing then [Varint(1)] else [])
            && Payloads(fs, Key(24, 0)) == (if m.restartEpoch != 0 then [Varint(m.restartEpoch)] else [])
            && Payloads(fs, Key(25, 0)) == (if m.cpusetThreads then [Varint(1)] else [])
            && Payloads(fs, Key(26, 0)) == (if m.rejectUnknownDynamicFields then [Varint(1)] else [])
            && Payloads(fs, Key(27, 0)) == (if m.logFormatEscaped then [Varint(1)] else [])
            && Items(Payloads(fs, Key(28, 2))) == m.disabledExtensions
            && Unrecognised(fs, COMMAND_LINE_OPTIONS_SCHEMA) == m.unknown
  {
    hide Parse, Body, Payloads, Unrecognised, ShapedSegment, Items, WellFormedUnknown, Ascending,
         CommandLineOptionsSegs;
    CommandLineOptionsShape(m);
    ReadMessage(CommandLineOptionsSegs(m), COMMAND_LINE_OPTIONS_SCHEMA, m.unknown);
    var fs := Parse(EncodeCommandLineOptions(m)).value;
    CommandLineOptionsLowLayout(m, fs);
    CommandLineOptionsMidLayout(m, fs);
    CommandLineOptionsHighLayout(m, fs);
  }
}
