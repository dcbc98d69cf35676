/** The records of the bridge: the order in which their fields are printed, and the order in which
    they are parsed back. */
module SseTypes {
  import opened Prelude
  import opened Model
  import opened SseCodec

  /** The field of a record that is parsed as the `i`th. */
  function Part(v: Value, t: Type, i: nat): (f: Value)
    requires HasType(v, t) && t.TStruct? && i < |t.fields|
    ensures HasType(f, t.fields[i]) && f == v.fields[i]
  {
    v.fields[i]
  }

  function TextValue(s: string): Value {
    Text(s)
  }

  function AsText(v: Value): string
    requires HasType(v, TText)
  {
    v.text
  }

  function OptionValue<T>(o: Option<T>, value: T -> Value): Value {
    match o
    case None => Absent
    case Some(x) => Present(value(x))
  }

  function AsOption<T>(v: Value, item: Type, parsed: Value --> T): Option<T>
    requires HasType(v, TOption(item))
    requires forall x: Value :: HasType(x, item) ==> parsed.requires(x)
  {
    if v.Absent? then None else Some(parsed(v.value))
  }

  lemma TextOption(o: Option<string>)
    ensures HasType(OptionValue(o, TextValue), TOption(TText))
            && AsOption(OptionValue(o, TextValue), TText, AsText) == o
  {}

  lemma TextOptionBack(v: Value)
    requires HasType(v, TOption(TText))
    ensures OptionValue(AsOption(v, TText, AsText), TextValue) == v
  {}

  // ----- Clients

  const NO_FIELDS: Type := TStruct([])
  const DEVICE_TYPE: Type := TEnum([NO_FIELDS, NO_FIELDS, NO_FIELDS, NO_FIELDS, NO_FIELDS])
  const CLIENT_INFO: Type := TStruct([TUuid, TText, TText, TOption(TText), TOption(DEVICE_TYPE), TText])

  function DeviceTypeValue(d: DeviceType): Value {
    var tag := match d
      case Mobile => 0
      case Desktop => 1
      case Web => 2
      case Headless => 3
      case Server => 4;
    Case(tag, Record([]))
  }

  function AsDeviceType(v: Value): DeviceType
    requires HasType(v, DEVICE_TYPE)
  {
    match v.tag
    case 0 => Mobile
    case 1 => Desktop
    case 2 => Web
    case 3 => Headless
    case _ => Server
  }

  lemma DeviceTypeImage(d: DeviceType)
    ensures HasType(DeviceTypeValue(d), DEVICE_TYPE) && AsDeviceType(DeviceTypeValue(d)) == d
  {}

  lemma DeviceTypeOption(o: Option<DeviceType>)
    ensures HasType(OptionValue(o, DeviceTypeValue), TOption(DEVICE_TYPE))
    ensures AsOption(OptionValue(o, DeviceTypeValue), DEVICE_TYPE, AsDeviceType) == o
  {
    if o.Some? {
      DeviceTypeImage(o.value);
    }
  }

  lemma DeviceTypeBack(v: Value)
    requires HasType(v, DEVICE_TYPE)
    ensures DeviceTypeValue(AsDeviceType(v)) == v
  {
    assert HasType(v.payload, NO_FIELDS);
    assert v.payload.fields == [];
  }

  function ClientInfoValue(c: ClientInfo): Value {
    Record([Id(c.id), Text(c.alias), Text(c.version), OptionValue(c.deviceModel, TextValue),
            OptionValue(c.deviceType, DeviceTypeValue), Text(c.token)])
  }

  function AsClientInfo(v: Value): ClientInfo
    requires HasType(v, CLIENT_INFO)
  {
    ClientInfo(Part(v, CLIENT_INFO, 0).id, AsText(Part(v, CLIENT_INFO, 1)), AsText(Part(v, CLIENT_INFO, 2)),
               AsOption(Part(v, CLIENT_INFO, 3), TText, AsText),
               AsOption(Part(v, CLIENT_INFO, 4), DEVICE_TYPE, AsDeviceType),
               AsText(Part(v, CLIENT_INFO, 5)))
  }

  lemma ClientInfoImage(c: ClientInfo)
    ensures HasType(ClientInfoValue(c), CLIENT_INFO) && AsClientInfo(ClientInfoValue(c)) == c
  {
    hide OptionValue, AsOption;
    TextOption(c.deviceModel);
    DeviceTypeOption(c.deviceType);
  }

  lemma ClientInfoBack(v: Value)
    requires HasType(v, CLIENT_INFO)
    ensures ClientInfoValue(AsClientInfo(v)) == v
  {
    hide DeviceTypeValue, AsDeviceType;
    var f := v.fields;
    if f[4].Present? {
      DeviceTypeBack(f[4].value);
    }
    assert ClientInfoValue(AsClientInfo(v)).fields == f;
  }

  // ----- Messages of the signaling server

  const SDP_MESSAGE: Type := TStruct([CLIENT_INFO, TText, TText])
  const HELLO: Type := TStruct([CLIENT_INFO, TVec(CLIENT_INFO)])
  const ONE_PEER: Type := TStruct([CLIENT_INFO])
  const ONE_ID: Type := TStruct([TUuid])
  const ONE_SDP: Type := TStruct([SDP_MESSAGE])
  const ONE_CODE: Type := TStruct([TInt(U16)])
  const SERVER_MESSAGE: Type := TEnum([HELLO, ONE_PEER, ONE_PEER, ONE_ID, ONE_SDP, ONE_SDP, ONE_CODE])

  function SdpMessageValue(m: SdpMessage): Value {
    Record([ClientInfoValue(m.peer), Text(m.sessionId), Text(m.sdp)])
  }

  function AsSdpMessage(v: Value): SdpMessage
    requires HasType(v, SDP_MESSAGE)
  {
    SdpMessage(AsClientInfo(Part(v, SDP_MESSAGE, 0)), AsText(Part(v, SDP_MESSAGE, 1)), AsText(Part(v, SDP_MESSAGE, 2)))
  }

  lemma SdpMessageImage(m: SdpMessage)
    ensures HasType(SdpMessageValue(m), SDP_MESSAGE) && AsSdpMessage(SdpMessageValue(m)) == m
  {
    ClientInfoImage(m.peer);
  }

  lemma SdpMessageBack(v: Value)
    requires HasType(v, SDP_MESSAGE)
    ensures SdpMessageValue(AsSdpMessage(v)) == v
  {
    hide ClientInfoValue, AsClientInfo;
    ClientInfoBack(v.fields[0]);
    assert SdpMessageValue(AsSdpMessage(v)).fields == v.fields;
  }

  function PeerValues(peers: seq<ClientInfo>): (vs: seq<Value>)
    ensures |vs| == |peers| && forall i :: 0 <= i < |vs| ==> vs[i] == ClientInfoValue(peers[i])
  {
    seq(|peers|, i requires 0 <= i < |peers| => ClientInfoValue(peers[i]))
  }

  function AsPeers(vs: seq<Value>): (peers: seq<ClientInfo>)
    requires forall i :: 0 <= i < |vs| ==> HasType(vs[i], CLIENT_INFO)
    ensures |peers| == |vs| && forall i :: 0 <= i < |vs| ==> peers[i] == AsClientInfo(vs[i])
  {
    seq(|vs|, i requires 0 <= i < |vs| => AsClientInfo(vs[i]))
  }

  lemma PeersImage(peers: seq<ClientInfo>)
    ensures forall i :: 0 <= i < |peers| ==> HasType(PeerValues(peers)[i], CLIENT_INFO)
    ensures AsPeers(PeerValues(peers)) == peers
  {
    forall i | 0 <= i < |peers|
      ensures HasType(PeerValues(peers)[i], CLIENT_INFO) && AsClientInfo(PeerValues(peers)[i]) == peers[i]
    {
      ClientInfoImage(peers[i]);
    }
  }

  lemma PeersBack(vs: seq<Value>)
    requires forall i :: 0 <= i < |vs| ==> HasType(vs[i], CLIENT_INFO)
    ensures PeerValues(AsPeers(vs)) == vs
  {
    forall i | 0 <= i < |vs| ensures PeerValues(AsPeers(vs))[i] == vs[i] {
      ClientInfoBack(vs[i]);
    }
  }

  function HelloValue(client: ClientInfo, peers: seq<ClientInfo>): Value {
    Record([ClientInfoValue(client), List(PeerValues(peers))])
  }

  function AsHello(v: Value): (m: ServerMessage)
    requires HasType(v, HELLO)
    ensures m.Hello?
  {
    Hello(AsClientInfo(Part(v, HELLO, 0)), AsPeers(Part(v, HELLO, 1).items))
  }

  lemma HelloImage(client: ClientInfo, peers: seq<ClientInfo>)
    ensures HasType(HelloValue(client, peers), HELLO) && AsHello(HelloValue(client, peers)) == Hello(client, peers)
  {
    ClientInfoImage(client);
    PeersImage(peers);
    assert HasType(List(PeerValues(peers)), TVec(CLIENT_INFO));
  }

  lemma HelloBack(v: Value)
    requires HasType(v, HELLO)
    ensures HelloValue(AsHello(v).client, AsHello(v).peers) == v
  {
    hide ClientInfoValue, AsClientInfo, OptionValue;
    ClientInfoBack(Part(v, HELLO, 0));
    PeersBack(Part(v, HELLO, 1).items);
    assert HelloValue(AsHello(v).client, AsHello(v).peers).fields == v.fields;
  }

  function ServerMessageValue(m: ServerMessage): Value {
    match m
    case Hello(client, peers) => Case(0, HelloValue(client, peers))
    case Join(peer) => Case(1, Record([ClientInfoValue(peer)]))
    case Update(peer) => Case(2, Record([ClientInfoValue(peer)]))
    case Left(peerId) => Case(3, Record([Id(peerId)]))
    case Offer(message) => Case(4, Record([SdpMessageValue(message)]))
    case Answer(message) => Case(5, Record([SdpMessageValue(message)]))
    case Error(code) => Case(6, Record([Number(U16, code)]))
  }

  function AsServerMessage(v: Value): ServerMessage
    requires HasType(v, SERVER_MESSAGE)
  {
    match v.tag
    case 0 => AsHello(v.payload)
    case 1 => Join(AsClientInfo(Part(v.payload, ONE_PEER, 0)))
    case 2 => Update(AsClientInfo(Part(v.payload, ONE_PEER, 0)))
    case 3 => Left(Part(v.payload, ONE_ID, 0).id)
    case 4 => Offer(AsSdpMessage(Part(v.payload, ONE_SDP, 0)))
    case 5 => Answer(AsSdpMessage(Part(v.payload, ONE_SDP, 0)))
    case _ => Error(Part(v.payload, ONE_CODE, 0).number)
  }

  lemma OneField(v: Value, t: Type)
    requires HasType(v, t)
    ensures HasType(Record([v]), TStruct([t])) && Part(Record([v]), TStruct([t]), 0) == v
  {}

  lemma OnlyField(v: Value, t: Type)
    requires HasType(v, TStruct([t]))
    ensures v == Record([Part(v, TStruct([t]), 0)])
  {
    assert v.fields == [v.fields[0]];
  }

  lemma ServerMessageImage(m: ServerMessage)
    ensures HasType(ServerMessageValue(m), SERVER_MESSAGE) && AsServerMessage(ServerMessageValue(m)) == m
  {
    hide ClientInfoValue, AsClientInfo, SdpMessageValue, AsSdpMessage, HelloValue, AsHello, OptionValue;
    match m
    case Hello(client, peers) => HelloImage(client, peers);
    case Join(peer) => ClientInfoImage(peer); OneField(ClientInfoValue(peer), CLIENT_INFO);
    case Update(peer) => ClientInfoImage(peer); OneField(ClientInfoValue(peer), CLIENT_INFO);
    case Left(peerId) => OneField(Id(peerId), TUuid);
    case Offer(message) => SdpMessageImage(message); OneField(SdpMessageValue(message), SDP_MESSAGE);
    case Answer(message) => SdpMessageImage(message); OneField(SdpMessageValue(message), SDP_MESSAGE);
    case Error(code) => OneField(Number(U16, code), TInt(U16));
  }

  lemma ServerMessageBack(v: Value)
    requires HasType(v, SERVER_MESSAGE)
    ensures ServerMessageValue(AsServerMessage(v)) == v
  {
    hide ClientInfoValue, AsClientInfo, SdpMessageValue, AsSdpMessage, HelloValue, AsHello, OptionValue;
    match v.tag {
      case 0 => HelloBack(v.payload);
      case 1 => OnlyField(v.payload, CLIENT_INFO); ClientInfoBack(Part(v.payload, ONE_PEER, 0));
      case 2 => OnlyField(v.payload, CLIENT_INFO); ClientInfoBack(Part(v.payload, ONE_PEER, 0));
      case 3 => OnlyField(v.payload, TUuid);
      case 4 => OnlyField(v.payload, SDP_MESSAGE); SdpMessageBack(Part(v.payload, ONE_SDP, 0));
      case 5 => OnlyField(v.payload, SDP_MESSAGE); SdpMessageBack(Part(v.payload, ONE_SDP, 0));
      case _ => OnlyField(v.payload, TInt(U16));
    }
  }

  function ParseServerMessage(e: Endian, bs: seq<byte>): Read<ServerMessage> {
    match Decode(e, SERVER_MESSAGE, bs)
    case Panic => Panic
    case Got(v, rest) =>
      Parsed(e, SERVER_MESSAGE, bs);
      Got(AsServerMessage(v), rest)
  }

  /** Every message of the signaling server is parsed back as it was, exactly when its lengths fit. */
  lemma ServerMessageRoundTrip(e: Endian, m: ServerMessage, rest: seq<byte>)
    ensures ParseServerMessage(e, Encode(e, ServerMessageValue(m)) + rest) == Got(m, rest)
            <==> Fits(ServerMessageValue(m))
  {
    var bs := Encode(e, ServerMessageValue(m)) + rest;
    ServerMessageImage(m);
    RoundTripExactly(e, SERVER_MESSAGE, ServerMessageValue(m), rest);
    var r := Decode(e, SERVER_MESSAGE, bs);
    if r.Got? {
      Parsed(e, SERVER_MESSAGE, bs);
      ServerMessageBack(r.value);
    }
  }

  // ----- The bytes of a message

  lemma PrintedCons(e: Endian, v: Value, vs: seq<Value>)
    ensures EncodeAll(e, [v] + vs) == Encode(e, v) + EncodeAll(e, vs)
  {
    assert ([v] + vs)[1..] == vs;
  }

  /** The fields of a client in the order in which they are printed. */
  lemma ClientInfoBytes(e: Endian, c: ClientInfo)
    ensures Encode(e, ClientInfoValue(c))
            == Encode(e, Id(c.id)) + (Encode(e, Text(c.alias)) + (Encode(e, Text(c.version))
               + (OptionBytes(e, c.deviceModel) + (DeviceTypeBytes(e, c.deviceType) + Encode(e, Text(c.token))))))
  {
    OneCase(e, c.deviceType);
    TextOptionBytes(e, c.deviceModel);
    RecordBytes(e, ClientInfoValue(c).fields);
    NothingPrinted(e);
    hide Encode, EncodeAll, OptionValue, OptionBytes, DeviceTypeBytes;
    var model, kind := OptionValue(c.deviceModel, TextValue), OptionValue(c.deviceType, DeviceTypeValue);
    assert ClientInfoValue(c).fields
           == [Id(c.id)] + ([Text(c.alias)] + ([Text(c.version)] + ([model] + ([kind] + ([Text(c.token)] + [])))));
    PrintedCons(e, Id(c.id), [Text(c.alias)] + ([Text(c.version)] + ([model] + ([kind] + ([Text(c.token)] + [])))));
    PrintedCons(e, Text(c.alias), [Text(c.version)] + ([model] + ([kind] + ([Text(c.token)] + []))));
    PrintedCons(e, Text(c.version), [model] + ([kind] + ([Text(c.token)] + [])));
    PrintedCons(e, model, [kind] + ([Text(c.token)] + []));
    PrintedCons(e, kind, [Text(c.token)] + []);
    PrintedCons(e, Text(c.token), []);
    assert Encode(e, Text(c.token)) + [] == Encode(e, Text(c.token));
  }

  function OptionBytes(e: Endian, o: Option<string>): seq<byte> {
    if o.None? then [0] else [1] + Encode(e, Text(o.value))
  }

  /** Device types are numbered in the order of their declaration. */
  function DeviceTypeBytes(e: Endian, o: Option<DeviceType>): seq<byte> {
    match o
    case None => [0]
    case Some(Mobile) => [1] + WriteInt(e, I32, 0)
    case Some(Desktop) => [1] + WriteInt(e, I32, 1)
    case Some(Web) => [1] + WriteInt(e, I32, 2)
    case Some(Headless) => [1] + WriteInt(e, I32, 3)
    case Some(Server) => [1] + WriteInt(e, I32, 4)
  }

  lemma OneCase(e: Endian, o: Option<DeviceType>)
    ensures Encode(e, OptionValue(o, DeviceTypeValue)) == DeviceTypeBytes(e, o)
  {
    hide WriteInt;
    if o.Some? {
      var tag := DeviceTypeValue(o.value).tag;
      assert Encode(e, Record([])) == [];
      assert WriteInt(e, I32, tag) + [] == WriteInt(e, I32, tag);
    }
  }

  lemma TextOptionBytes(e: Endian, o: Option<string>)
    ensures Encode(e, OptionValue(o, TextValue)) == OptionBytes(e, o)
  {
    match o
    case None => assert OptionValue(o, TextValue) == Absent;
    case Some(s) => assert OptionValue(o, TextValue) == Present(Text(s));
  }

  lemma RecordBytes(e: Endian, fields: seq<Value>)
    ensures Encode(e, Record(fields)) == EncodeAll(e, fields)
  {}

  lemma NothingPrinted(e: Endian)
    ensures EncodeAll(e, []) == []
  {}

  lemma OneFieldBytes(e: Endian, v: Value)
    ensures Encode(e, Record([v])) == Encode(e, v)
  {
    PrintedCons(e, v, []);
    assert [v] + [] == [v] && Encode(e, v) + [] == Encode(e, v);
  }

  lemma SdpBytes(e: Endian, m: SdpMessage)
    ensures Encode(e, SdpMessageValue(m))
            == Encode(e, ClientInfoValue(m.peer)) + (Encode(e, Text(m.sessionId)) + Encode(e, Text(m.sdp)))
  {
    hide ClientInfoValue;
    var peer := ClientInfoValue(m.peer);
    assert SdpMessageValue(m).fields == [peer] + ([Text(m.sessionId)] + ([Text(m.sdp)] + []));
    PrintedCons(e, peer, [Text(m.sessionId)] + ([Text(m.sdp)] + []));
    PrintedCons(e, Text(m.sessionId), [Text(m.sdp)] + []);
    PrintedCons(e, Text(m.sdp), []);
    assert Encode(e, Text(m.sdp)) + [] == Encode(e, Text(m.sdp));
  }

  /** The variants of a message are numbered in the order of their declaration, and their fields are
      printed in order. */
  function MessageBytes(e: Endian, m: ServerMessage): seq<byte> {
    match m
    case Hello(client, peers) =>
      WriteInt(e, I32, 0) + (Encode(e, ClientInfoValue(client)) + Encode(e, List(PeerValues(peers))))
    case Join(peer) => WriteInt(e, I32, 1) + Encode(e, ClientInfoValue(peer))
    case Update(peer) => WriteInt(e, I32, 2) + Encode(e, ClientInfoValue(peer))
    case Left(peerId) => WriteInt(e, I32, 3) + Encode(e, Id(peerId))
    case Offer(sdp) => WriteInt(e, I32, 4) + Encode(e, SdpMessageValue(sdp))
    case Answer(sdp) => WriteInt(e, I32, 5) + Encode(e, SdpMessageValue(sdp))
    case Error(code) => WriteInt(e, I32, 6) + WriteInt(e, U16, code)
  }

  lemma ServerMessageBytes(e: Endian, m: ServerMessage)
    ensures Encode(e, ServerMessageValue(m)) == MessageBytes(e, m)
  {
    hide WriteInt, ClientInfoValue, SdpMessageValue;
    match m
    case Hello(client, peers) =>
      var first, second := ClientInfoValue(client), List(PeerValues(peers));
      assert HelloValue(client, peers).fields == [first] + ([second] + []);
      PrintedCons(e, first, [second] + []);
      PrintedCons(e, second, []);
      assert Encode(e, second) + [] == Encode(e, second);
    case Join(peer) => OneFieldBytes(e, ClientInfoValue(peer));
    case Update(peer) => OneFieldBytes(e, ClientInfoValue(peer));
    case Left(peerId) => OneFieldBytes(e, Id(peerId));
    case Offer(sdp) => OneFieldBytes(e, SdpMessageValue(sdp));
    case Answer(sdp) => OneFieldBytes(e, SdpMessageValue(sdp));
    case Error(code) => OneFieldBytes(e, Number(U16, code));
  }

  // ----- Files

  const FILE_METADATA: Type := TStruct([TOption(TText), TOption(TText)])
  const FILE_DTO: Type := TStruct([
    TText, TText, TInt(U64), TText, TOption(TText), TOption(TText), TOption(FILE_METADATA)])

  function FileMetadataValue(m: FileMetadata): Value {
    Record([OptionValue(m.modified, TextValue), OptionValue(m.accessed, TextValue)])
  }

  function AsFileMetadata(v: Value): FileMetadata
    requires HasType(v, FILE_METADATA)
  {
    FileMetadata(AsOption(Part(v, FILE_METADATA, 0), TText, AsText), AsOption(Part(v, FILE_METADATA, 1), TText, AsText))
  }

  lemma FileMetadataImage(m: FileMetadata)
    ensures HasType(FileMetadataValue(m), FILE_METADATA) && AsFileMetadata(FileMetadataValue(m)) == m
  {}

  lemma FileMetadataOption(o: Option<FileMetadata>)
    ensures HasType(OptionValue(o, FileMetadataValue), TOption(FILE_METADATA))
    ensures AsOption(OptionValue(o, FileMetadataValue), FILE_METADATA, AsFileMetadata) == o
  {
    if o.Some? {
      FileMetadataImage(o.value);
    }
  }

  lemma FileMetadataBack(v: Value)
    requires HasType(v, FILE_METADATA)
    ensures FileMetadataValue(AsFileMetadata(v)) == v
  {
    assert FileMetadataValue(AsFileMetadata(v)).fields == v.fields;
  }

  function FileDtoValue(f: FileDto): Value {
    Record([Text(f.id), Text(f.fileName), Number(U64, f.size), Text(f.fileType), OptionValue(f.sha256, TextValue),
            OptionValue(f.preview, TextValue), OptionValue(f.metadata, FileMetadataValue)])
  }

  function AsFileDto(v: Value): FileDto
    requires HasType(v, FILE_DTO)
  {
    FileDto(AsText(Part(v, FILE_DTO, 0)), AsText(Part(v, FILE_DTO, 1)), Part(v, FILE_DTO, 2).number,
            AsText(Part(v, FILE_DTO, 3)), AsOption(Part(v, FILE_DTO, 4), TText, AsText),
            AsOption(Part(v, FILE_DTO, 5), TText, AsText),
            AsOption(Part(v, FILE_DTO, 6), FILE_METADATA, AsFileMetadata))
  }

  lemma FileDtoImage(f: FileDto)
    ensures HasType(FileDtoValue(f), FILE_DTO) && AsFileDto(FileDtoValue(f)) == f
  {
    hide OptionValue, AsOption;
    TextOption(f.sha256);
    TextOption(f.preview);
    FileMetadataOption(f.metadata);
  }

  lemma MetadataOptionBack(v: Value)
    requires HasType(v, TOption(FILE_METADATA))
    ensures OptionValue(AsOption(v, FILE_METADATA, AsFileMetadata), FileMetadataValue) == v
  {
    hide FileMetadataValue, AsFileMetadata;
    if v.Present? {
      FileMetadataBack(v.value);
    }
  }

  lemma FileDtoBack(v: Value)
    requires HasType(v, FILE_DTO)
    ensures FileDtoValue(AsFileDto(v)) == v
  {
    MetadataOptionBack(v.fields[6]);
    TextOptionBack(v.fields[4]);
    TextOptionBack(v.fields[5]);
    hide FileMetadataValue, AsFileMetadata, OptionValue, AsOption;
    assert FileDtoValue(AsFileDto(v)).fields == v.fields;
  }

  function MetadataBytes(e: Endian, o: Option<FileMetadata>): seq<byte> {
    match o
    case None => [0]
    case Some(m) => [1] + (OptionBytes(e, m.modified) + OptionBytes(e, m.accessed))
  }

  lemma MetadataPrinted(e: Endian, o: Option<FileMetadata>)
    ensures Encode(e, OptionValue(o, FileMetadataValue)) == MetadataBytes(e, o)
  {
    if o.Some? {
      var a, b := OptionValue(o.value.modified, TextValue), OptionValue(o.value.accessed, TextValue);
      assert FileMetadataValue(o.value).fields == [a] + ([b] + []);
      PrintedCons(e, a, [b] + []);
      PrintedCons(e, b, []);
      assert Encode(e, b) + [] == Encode(e, b);
    }
  }

  /** The fields of a file in the order in which they are printed. */
  lemma FileDtoBytes(e: Endian, f: FileDto)
    ensures Encode(e, FileDtoValue(f))
            == Encode(e, Text(f.id)) + (Encode(e, Text(f.fileName)) + (WriteInt(e, U64, f.size)
               + (Encode(e, Text(f.fileType)) + (OptionBytes(e, f.sha256) + (OptionBytes(e, f.preview)
               + MetadataBytes(e, f.metadata))))))
  {
    TextOptionBytes(e, f.sha256);
    TextOptionBytes(e, f.preview);
    MetadataPrinted(e, f.metadata);
    assert Encode(e, Number(U64, f.size)) == WriteInt(e, U64, f.size);
    RecordBytes(e, FileDtoValue(f).fields);
    hide WriteInt, FileMetadataValue, MetadataBytes, OptionBytes, Encode, EncodeAll, OptionValue;
    NothingPrinted(e);
    var sha256, preview := OptionValue(f.sha256, TextValue), OptionValue(f.preview, TextValue);
    var metadata := OptionValue(f.metadata, FileMetadataValue);
    var rest := [Text(f.fileType)] + ([sha256] + ([preview] + ([metadata] + [])));
    assert FileDtoValue(f).fields == [Text(f.id)] + ([Text(f.fileName)] + ([Number(U64, f.size)] + rest));
    PrintedCons(e, Text(f.id), [Text(f.fileName)] + ([Number(U64, f.size)] + rest));
    PrintedCons(e, Text(f.fileName), [Number(U64, f.size)] + rest);
    PrintedCons(e, Number(U64, f.size), rest);
    PrintedCons(e, Text(f.fileType), [sha256] + ([preview] + ([metadata] + [])));
    PrintedCons(e, sha256, [preview] + ([metadata] + []));
    PrintedCons(e, preview, [metadata] + []);
    PrintedCons(e, metadata, []);
    assert Encode(e, metadata) + [] == Encode(e, metadata);
  }

  function FileValues(files: seq<FileDto>): (vs: seq<Value>)
    ensures |vs| == |files| && forall i :: 0 <= i < |vs| ==> vs[i] == FileDtoValue(files[i])
  {
    seq(|files|, i requires 0 <= i < |files| => FileDtoValue(files[i]))
  }

  function AsFiles(vs: seq<Value>): (files: seq<FileDto>)
    requires forall i :: 0 <= i < |vs| ==> HasType(vs[i], FILE_DTO)
    ensures |files| == |vs| && forall i :: 0 <= i < |vs| ==> files[i] == AsFileDto(vs[i])
  {
    seq(|vs|, i requires 0 <= i < |vs| => AsFileDto(vs[i]))
  }

  function ParseFiles(e: Endian, bs: seq<byte>): Read<seq<FileDto>> {
    match Decode(e, TVec(FILE_DTO), bs)
    case Panic => Panic
    case Got(v, rest) =>
      Parsed(e, TVec(FILE_DTO), bs);
      Got(AsFiles(v.items), rest)
  }

  lemma FilesImage(files: seq<FileDto>)
    ensures HasType(List(FileValues(files)), TVec(FILE_DTO)) && AsFiles(FileValues(files)) == files
  {
    forall i | 0 <= i < |files|
      ensures HasType(FileValues(files)[i], FILE_DTO) && AsFileDto(FileValues(files)[i]) == files[i]
    {
      FileDtoImage(files[i]);
    }
  }

  lemma FilesBack(vs: seq<Value>)
    requires forall i :: 0 <= i < |vs| ==> HasType(vs[i], FILE_DTO)
    ensures FileValues(AsFiles(vs)) == vs
  {
    forall i | 0 <= i < |vs| ensures FileValues(AsFiles(vs))[i] == vs[i] {
      FileDtoBack(vs[i]);
    }
  }

  /** A file list crosses the bridge as it was, exactly when its lengths fit. */
  lemma FilesRoundTrip(e: Endian, files: seq<FileDto>, rest: seq<byte>)
    ensures ParseFiles(e, Encode(e, List(FileValues(files))) + rest) == Got(files, rest)
            <==> Fits(List(FileValues(files)))
  {
    var v := List(FileValues(files));
    var bs := Encode(e, v) + rest;
    FilesImage(files);
    RoundTripExactly(e, TVec(FILE_DTO), v, rest);
    var r := Decode(e, TVec(FILE_DTO), bs);
    if r.Got? {
      Parsed(e, TVec(FILE_DTO), bs);
      FilesBack(r.value.items);
    }
  }
}
