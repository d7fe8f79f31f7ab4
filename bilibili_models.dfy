/** The decoded BiliBili API payloads, as kotlinx-serialization produces them. */
module BiliBiliModels {
  import opened Wrappers

  datatype BiliBiliCategoryData = BiliBiliCategoryData(id: string, name: string, list: seq<BiliBiliSubCategoryData>)

  datatype BiliBiliSubCategoryData = BiliBiliSubCategoryData(id: string, name: string, parentId: string, pic: Option<string>)

  datatype BiliBiliRoomListData = BiliBiliRoomListData(list: seq<BiliBiliRoomItemData>, hasMore: int)

  datatype BiliBiliRoomItemData = BiliBiliRoomItemData(roomid: int, title: string, cover: string, uname: string, online: int)

  datatype BiliBiliRoomInfoData = BiliBiliRoomInfoData(roomInfo: BiliBiliRoomInfo, anchorInfo: Option<BiliBiliAnchorInfo>)

  datatype BiliBiliRoomInfo = BiliBiliRoomInfo(
    roomId: int,
    shortId: int,
    uid: int,
    title: string,
    cover: string,
    liveStatus: int,
    online: int,
    description: Option<string>,
    liveTime: Option<string>)

  datatype BiliBiliAnchorInfo = BiliBiliAnchorInfo(baseInfo: BiliBiliBaseInfo)

  datatype BiliBiliBaseInfo = BiliBiliBaseInfo(uname: string, face: string)

  datatype BiliBiliPlayInfoData = BiliBiliPlayInfoData(playurlInfo: BiliBiliPlayUrlInfo)

  datatype BiliBiliPlayUrlInfo = BiliBiliPlayUrlInfo(playurl: BiliBiliPlayUrl)

  datatype BiliBiliPlayUrl = BiliBiliPlayUrl(qualityDescriptions: seq<BiliBiliQualityDesc>, stream: seq<BiliBiliStream>)

  datatype BiliBiliQualityDesc = BiliBiliQualityDesc(qn: int, desc: string)

  datatype BiliBiliStream = BiliBiliStream(protocol: string, format: seq<BiliBiliFormat>)

  datatype BiliBiliFormat = BiliBiliFormat(formatName: string, codec: seq<BiliBiliCodec>)

  datatype BiliBiliCodec = BiliBiliCodec(codecName: string, baseUrl: string, urlInfo: seq<BiliBiliUrlInfo>, acceptQn: Option<seq<int>>)

  datatype BiliBiliUrlInfo = BiliBiliUrlInfo(host: string, extra: string)

  datatype BiliBiliSearchRoomData = BiliBiliSearchRoomData(result: Option<BiliBiliSearchResult>)

  datatype BiliBiliSearchResult = BiliBiliSearchResult(liveRoom: Option<seq<BiliBiliSearchRoomItem>>)

  datatype BiliBiliSearchRoomItem = BiliBiliSearchRoomItem(roomid: int, title: string, cover: string, uname: string, online: int)

  datatype BiliBiliBuvidData = BiliBiliBuvidData(b3: Option<string>, b4: Option<string>)
}
