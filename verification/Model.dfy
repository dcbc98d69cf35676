/** The records exchanged with the signaling server and between peers. */
module Model {
  import opened Prelude

  type Uuid = id: seq<byte> | |id| == 16 witness seq(16, _ => 0)

  datatype DeviceType = Mobile | Desktop | Web | Headless | Server

  datatype ClientInfoWithoutId = ClientInfoWithoutId(
    alias: string, version: string, deviceModel: Option<string>, deviceType: Option<DeviceType>, token: string)

  datatype ClientInfo = ClientInfo(
    id: Uuid, alias: string, version: string, deviceModel: Option<string>, deviceType: Option<DeviceType>,
    token: string)
  {
    function WithoutId(): ClientInfoWithoutId {
      ClientInfoWithoutId(alias, version, deviceModel, deviceType, token)
    }
  }

  /** `ClientInfo::from`. */
  function WithId(info: ClientInfoWithoutId, id: Uuid): ClientInfo {
    ClientInfo(id, info.alias, info.version, info.deviceModel, info.deviceType, info.token)
  }

  lemma InfoRoundTrip(info: ClientInfoWithoutId, id: Uuid, full: ClientInfo)
    ensures var c := WithId(info, id);
            && c.id == id && c.alias == info.alias && c.version == info.version && c.deviceModel == info.deviceModel
            && c.deviceType == info.deviceType && c.token == info.token
    ensures WithId(info, id).WithoutId() == info
    ensures WithId(full.WithoutId(), full.id) == full
  {}

  datatype SdpMessage = SdpMessage(peer: ClientInfo, sessionId: string, sdp: string)

  /** What the server sends. The peers of a `Hello` are listed in the order of a hash map. */
  datatype ServerMessage =
    | Hello(client: ClientInfo, peers: seq<ClientInfo>)
    | Join(peer: ClientInfo)
    | Update(peer: ClientInfo)
    | Left(peerId: Uuid)
    | Offer(message: SdpMessage)
    | Answer(message: SdpMessage)
    | Error(code: u16)

  datatype FileMetadata = FileMetadata(modified: Option<string>, accessed: Option<string>)

  datatype FileDto = FileDto(
    id: string, fileName: string, size: u64, fileType: string,
    sha256: Option<string>, preview: Option<string>, metadata: Option<FileMetadata>)
}
