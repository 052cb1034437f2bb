/**
 The connection path of a Forward Open: the builders that append segments to a byte
 vector, and a reader of segments that shows nothing is lost.
 */
module ConnectionPath {
  import opened Wire

  datatype LogicalKind = ClassId | InstanceId | ConnectionPoint

  datatype ElectronicKey = ElectronicKey(
    vendorId: u16,
    deviceType: u16,
    productCode: u16,
    majorRevision: byte,
    minorRevision: byte,
    compatibility: bool)

  /** One builder call. Data is the configuration data segment behind the built path. */
  datatype Segment =
    | Port(port: u16, link: bytes)
    | Logical(kind: LogicalKind, id: u16)
    | Key(key: ElectronicKey)
    | Data(data: bytes)

  const ELECTRONIC_KEY: byte := 0x34
  const KEY_FORMAT: byte := 0x04
  const DATA_SEGMENT: byte := 0x80
  const MAX_CONFIG_DATA := 510

  function Code8(kind: LogicalKind): byte {
    match kind
    case ClassId => 0x20
    case InstanceId => 0x24
    case ConnectionPoint => 0x2C
  }

  // ---------------------------------------------------------------- builders

  /** ConnectionPath::port: the segment is padded to an even length. */
  method AddPort(path: bytes, port: u16, link: bytes) returns (out: bytes)
    ensures out == path + PortBytes(port, link)
  {
    out := path;
    var extendedPort := port >= 15;
    var extendedLink := |link| != 1;
    var segment: byte := if extendedPort then 0x0F else port;
    if extendedLink {
      segment := segment + 0x10;
    }
    var start := |out|;
    out := out + [segment];
    if extendedLink {
      out := out + [|link| % 0x100];
    }
    if extendedPort {
      out := out + Put16(port);
    }
    out := out + link;
    assert out[start..] == PortHead(port, |link|) + link;
    assert out == path + out[start..];
    if (|out| - start) % 2 != 0 {
      out := out + [0];
    }
  }

  function PortHead(port: u16, linkLen: nat): bytes {
    [(if port >= 15 then 0x0F else port) + (if linkLen != 1 then 0x10 else 0)] +
    (if linkLen != 1 then [linkLen % 0x100] else []) +
    (if port >= 15 then Put16(port) else [])
  }

  function Pad(n: nat): bytes {
    if n % 2 == 0 then [] else [0]
  }

  function PortBytes(port: u16, link: bytes): (b: bytes)
    ensures |b| % 2 == 0
  {
    var b := PortHead(port, |link|) + link;
    b + Pad(|b|)
  }

  /** ConnectionPath::logical: 8 bits when the value fits, a padded 16-bit form otherwise. */
  function LogicalBytes(kind: LogicalKind, id: u16): bytes {
    if id <= 0xFF then [Code8(kind), id] else [Code8(kind) + 1, 0] + Put16(id)
  }

  /** ConnectionPath::electronic_key. */
  function KeyBytes(key: ElectronicKey): bytes {
    [ELECTRONIC_KEY, KEY_FORMAT] + Put16(key.vendorId) + Put16(key.deviceType) + Put16(key.productCode) +
    [key.majorRevision % 0x80 + (if key.compatibility then 0x80 else 0), key.minorRevision]
  }

  /** A simple data segment: its size in words, the data, a pad byte if it is odd. */
  function DataBytes(data: bytes): (b: bytes)
    ensures |b| % 2 == 0
  {
    [DATA_SEGMENT, (|data| + 1) / 2 % 0x100] + data + Pad(|data|)
  }

  function SegmentBytes(s: Segment): (b: bytes)
    ensures |b| % 2 == 0
  {
    match s
    case Port(port, link) => PortBytes(port, link)
    case Logical(kind, id) => LogicalBytes(kind, id)
    case Key(key) => KeyBytes(key)
    case Data(data) => DataBytes(data)
  }

  /** The bytes a chain of builder calls leaves in the path; `then` is concatenation. */
  function PathBytes(segments: seq<Segment>): bytes {
    if segments == [] then [] else SegmentBytes(segments[0]) + PathBytes(segments[1..])
  }

  lemma {:induction false} PathBytesOfThen(a: seq<Segment>, b: seq<Segment>)
    ensures PathBytes(a + b) == PathBytes(a) + PathBytes(b)
  {
    if a == [] {
      assert a + b == b;
    } else {
      assert (a + b)[0] == a[0] && (a + b)[1..] == a[1..] + b;
      PathBytesOfThen(a[1..], b);
    }
  }

  // ---------------------------------------------------------------- reading segments

  /** What a target reads at the front of a path. */
  function ReadSegment(buf: bytes): Option<(Segment, bytes)> {
    if |buf| < 2 then None
    else if buf[0] < 0x20 then ReadPort(buf)
    else if buf[0] == 0x20 then Some((Logical(ClassId, buf[1]), buf[2..]))
    else if buf[0] == 0x24 then Some((Logical(InstanceId, buf[1]), buf[2..]))
    else if buf[0] == 0x2C then Some((Logical(ConnectionPoint, buf[1]), buf[2..]))
    else if buf[0] == 0x21 then ReadLogical16(ClassId, buf)
    else if buf[0] == 0x25 then ReadLogical16(InstanceId, buf)
    else if buf[0] == 0x2D then ReadLogical16(ConnectionPoint, buf)
    else if buf[0] == ELECTRONIC_KEY && buf[1] == KEY_FORMAT && |buf| >= 10 then
      Some((Key(KeyFields(buf[2..])), buf[10..]))
    else if buf[0] == DATA_SEGMENT && |buf| - 2 >= 2 * buf[1] as int then
      Some((Data(buf[2..2 + 2 * buf[1] as int]), buf[2 + 2 * buf[1] as int..]))
    else None
  }

  function KeyFields(b: bytes): ElectronicKey
    requires |b| >= 8
  {
    ElectronicKey(Get16(b), Get16(b[2..]), Get16(b[4..]), b[6] % 0x80, b[7], b[6] >= 0x80)
  }

  function ReadLogical16(kind: LogicalKind, buf: bytes): Option<(Segment, bytes)>
    requires |buf| >= 2
  {
    if |buf| < 4 then None else Some((Logical(kind, Get16(buf[2..])), buf[4..]))
  }

  /** Port segment: low nibble 15 announces a 16-bit port, bit 4 a link length byte. */
  function ReadPort(buf: bytes): Option<(Segment, bytes)>
    requires |buf| >= 2 && buf[0] < 0x20
  {
    var linkLen: nat := if buf[0] >= 0x10 then buf[1] as int else 1;
    var at := if buf[0] >= 0x10 then 2 else 1;
    var extended := buf[0] % 0x10 == 0x0F;
    var link := if extended then at + 2 else at;
    var end := link + linkLen;
    var padded := end + end % 2;
    if |buf| < padded then None
    else
      Some((Port(if extended then Get16(buf[at..]) else buf[0] % 0x10, buf[link..end]), buf[padded..]))
  }

  /** The segment list of a path, if it is one. */
  function Segments(buf: bytes): Option<seq<Segment>>
    decreases |buf|
  {
    if buf == [] then Some([])
    else
      var first := ReadSegment(buf);
      if first.None? || |first.value.1| >= |buf| then None
      else
        var others := Segments(first.value.1);
        if others.None? then None else Some([first.value.0] + others.value)
  }

  // ---------------------------------------------------------------- nothing is lost

  /** What the fields of a segment can hold: a link length byte, a 7-bit major revision,
      a word count byte. */
  predicate Representable(s: Segment) {
    match s
    case Port(_, link) => |link| <= 255
    case Logical(_, _) => true
    case Key(key) => key.majorRevision <= 127
    case Data(data) => |data| % 2 == 0 && |data| <= 510
  }

  lemma PortParts(buf: bytes, head: bytes, link: bytes, pad: bytes, rest: bytes)
    requires buf == head + (link + pad + rest)
    ensures |buf| == |head| + |link| + |pad| + |rest|
    ensures buf[|head|..|head| + |link|] == link && buf[|head| + |link| + |pad|..] == rest
    ensures forall i | 0 <= i < |head| :: buf[i] == head[i]
  {
  }

  lemma ReadSmallPort(port: u16, link: bytes, buf: bytes, rest: bytes)
    requires |link| <= 255 && port < 15
    requires buf == PortHead(port, |link|) + (link + Pad(|PortHead(port, |link|)| + |link|) + rest)
    ensures ReadSegment(buf) == Some((Port(port, link), rest))
  {
    var head := PortHead(port, |link|);
    PortParts(buf, head, link, Pad(|head| + |link|), rest);
  }

  lemma ReadExtendedPort(port: u16, link: bytes, buf: bytes, rest: bytes)
    requires |link| <= 255 && port >= 15
    requires buf == PortHead(port, |link|) + (link + Pad(|PortHead(port, |link|)| + |link|) + rest)
    ensures ReadSegment(buf) == Some((Port(port, link), rest))
  {
    var head := PortHead(port, |link|);
    PortParts(buf, head, link, Pad(|head| + |link|), rest);
    var at := |head| - 2;
    assert buf[at] == head[at] == Put16(port)[0] && buf[at + 1] == head[at + 1] == Put16(port)[1];
    GetPut16(port, []);
    assert Put16(port) + [] == Put16(port);
    assert Get16(buf[at..]) == Get16(Put16(port));
  }

  lemma ReadPortBytes(port: u16, link: bytes, rest: bytes)
    requires |link| <= 255
    ensures ReadSegment(PortBytes(port, link) + rest) == Some((Port(port, link), rest))
    ensures |PortBytes(port, link)| >= 2
  {
    var head := PortHead(port, |link|);
    var buf := PortBytes(port, link) + rest;
    assert buf == head + (link + Pad(|head| + |link|) + rest);
    if port < 15 {
      ReadSmallPort(port, link, buf, rest);
    } else {
      ReadExtendedPort(port, link, buf, rest);
    }
  }

  lemma ReadKeyFields(key: ElectronicKey, b: bytes, last: bytes)
    requires key.majorRevision <= 127
    requires |last| >= 2 && last[0] == key.majorRevision + (if key.compatibility then 0x80 else 0)
    requires last[1] == key.minorRevision
    requires b == Put16(key.vendorId) + (Put16(key.deviceType) + (Put16(key.productCode) + last))
    ensures KeyFields(b) == key
  {
    GetPut16(key.vendorId, Put16(key.deviceType) + (Put16(key.productCode) + last));
    GetPut16(key.deviceType, Put16(key.productCode) + last);
    GetPut16(key.productCode, last);
    assert b[4..] == b[2..][2..] == Put16(key.productCode) + last;
  }

  lemma ReadKeyBytes(key: ElectronicKey, rest: bytes)
    requires key.majorRevision <= 127
    ensures ReadSegment(KeyBytes(key) + rest) == Some((Key(key), rest))
  {
    var buf := KeyBytes(key) + rest;
    var last := [key.majorRevision % 0x80 + (if key.compatibility then 0x80 else 0), key.minorRevision] + rest;
    assert buf[2..] == Put16(key.vendorId) + (Put16(key.deviceType) + (Put16(key.productCode) + last));
    ReadKeyFields(key, buf[2..], last);
    assert buf[10..] == rest;
  }

  lemma ReadLogicalBytes(kind: LogicalKind, id: u16, rest: bytes)
    ensures ReadSegment(LogicalBytes(kind, id) + rest) == Some((Logical(kind, id), rest))
  {
    var buf := LogicalBytes(kind, id) + rest;
    if id <= 0xFF {
      assert buf[2..] == rest;
    } else {
      assert buf[2..] == Put16(id) + rest;
      GetPut16(id, rest);
      assert buf[4..] == rest;
    }
  }

  lemma ReadDataBytes(data: bytes, rest: bytes)
    requires |data| % 2 == 0 && |data| <= 510
    ensures ReadSegment(DataBytes(data) + rest) == Some((Data(data), rest))
  {
    var buf := DataBytes(data) + rest;
    assert buf[2..2 + |data|] == data;
    assert buf[2 + |data|..] == rest;
  }

  lemma ReadSegmentOfBytes(s: Segment, rest: bytes)
    requires Representable(s)
    ensures ReadSegment(SegmentBytes(s) + rest) == Some((s, rest))
    ensures |SegmentBytes(s)| >= 2
  {
    match s
    case Port(port, link) => ReadPortBytes(port, link, rest);
    case Logical(kind, id) => ReadLogicalBytes(kind, id, rest);
    case Key(key) => ReadKeyBytes(key, rest);
    case Data(data) => ReadDataBytes(data, rest);
  }

  lemma OneSegmentMore(first: Segment, buf: bytes, rest: bytes, others: seq<Segment>)
    requires ReadSegment(buf) == Some((first, rest)) && |rest| < |buf|
    requires Segments(rest) == Some(others)
    ensures Segments(buf) == Some([first] + others)
  {
  }

  lemma {:induction false} SegmentsOfBytes(segments: seq<Segment>)
    requires forall i | 0 <= i < |segments| :: Representable(segments[i])
    ensures Segments(PathBytes(segments)) == Some(segments)
  {
    if segments != [] {
      var first, rest := segments[0], PathBytes(segments[1..]);
      ReadSegmentOfBytes(first, rest);
      SegmentsOfBytes(segments[1..]);
      OneSegmentMore(first, SegmentBytes(first) + rest, rest, segments[1..]);
      assert segments == [first] + segments[1..];
    }
  }

  lemma ReadSegmentIsRepresentable(buf: bytes)
    requires ReadSegment(buf).Some?
    ensures Representable(ReadSegment(buf).value.0)
  {
  }

  lemma {:induction false} SegmentsAreRepresentable(buf: bytes)
    requires Segments(buf).Some?
    ensures forall i | 0 <= i < |Segments(buf).value| :: Representable(Segments(buf).value[i])
    decreases |buf|
  {
    if buf != [] {
      ReadSegmentIsRepresentable(buf);
      SegmentsAreRepresentable(ReadSegment(buf).value.1);
    }
  }

  /** A path built by any chain of calls is read back as exactly those calls, if and only
      if every link is at most 255 bytes, every major revision at most 127 and every data
      segment a whole number of at most 255 words. */
  lemma PathIsUniquelyDecodable(segments: seq<Segment>)
    ensures Segments(PathBytes(segments)) == Some(segments)
            <==> forall i | 0 <= i < |segments| :: Representable(segments[i])
  {
    if forall i | 0 <= i < |segments| :: Representable(segments[i]) {
      SegmentsOfBytes(segments);
    } else if Segments(PathBytes(segments)).Some? {
      SegmentsAreRepresentable(PathBytes(segments));
    }
  }

  lemma EvenConcat(a: bytes, b: bytes, all: bytes)
    requires |a| % 2 == 0 && |b| % 2 == 0 && all == a + b
    ensures |all| % 2 == 0
  {
  }

  /** Every chain of builder calls, representable or not, has an even length. */
  lemma {:induction false} PathHasEvenLength(segments: seq<Segment>)
    ensures |PathBytes(segments)| % 2 == 0
  {
    if segments != [] {
      PathHasEvenLength(segments[1..]);
      EvenConcat(SegmentBytes(segments[0]), PathBytes(segments[1..]), PathBytes(segments));
    }
  }

  // ---------------------------------------------------------------- configuration data

  /** The configuration data as sent: cut to 510 bytes, padded to whole words. */
  function ConfigWords(config: bytes): (d: bytes)
    ensures |d| % 2 == 0 && |d| <= 510
  {
    var data := if |config| <= MAX_CONFIG_DATA then config else config[..MAX_CONFIG_DATA];
    data + Pad(|data|)
  }

  function EncodedPathBytes(path: bytes, config: bytes): bytes {
    if config == [] then path else path + SegmentBytes(Data(ConfigWords(config)))
  }

  lemma DataSegmentOf(config: bytes, data: bytes)
    requires data == if |config| <= MAX_CONFIG_DATA then config else config[..MAX_CONFIG_DATA]
    ensures SegmentBytes(Data(ConfigWords(config))) == [DATA_SEGMENT, (|data| + 1) / 2 % 0x100] + data + Pad(|data|)
  {
    assert ConfigWords(config) == data + Pad(|data|);
    assert Pad(|ConfigWords(config)|) == [];
  }

  /** ConnectionConfig::encoded_path. */
  method EncodedPath(path: bytes, config: bytes) returns (out: bytes)
    ensures out == EncodedPathBytes(path, config)
  {
    out := path;
    if config != [] {
      var data := config[..if |config| <= MAX_CONFIG_DATA then |config| else MAX_CONFIG_DATA];
      var words := (|data| + 1) / 2;
      out := out + [DATA_SEGMENT];
      out := out + [words % 0x100];
      out := out + data;
      DataSegmentOf(config, data);
      if words * 2 - |data| == 1 {
        out := out + [0];
      }
    }
  }

  /** The configuration data segment keeps the path even and readable. */
  lemma EncodedPathIsDecodable(segments: seq<Segment>, config: bytes)
    requires forall i | 0 <= i < |segments| :: Representable(segments[i])
    ensures var out := EncodedPathBytes(PathBytes(segments), config);
            && |out| % 2 == 0
            && Segments(out) == Some(segments + (if config == [] then [] else [Data(ConfigWords(config))]))
  {
    var more := if config == [] then [] else [Data(ConfigWords(config))];
    PathBytesOfThen(segments, more);
    assert PathBytes(more) == if config == [] then [] else SegmentBytes(more[0]) + PathBytes([]);
    assert EncodedPathBytes(PathBytes(segments), config) == PathBytes(segments + more);
    PathHasEvenLength(segments + more);
    SegmentsOfBytes(segments + more);
  }
}
