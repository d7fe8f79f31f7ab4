/**
 * The platform-independent records the adapters return: room details, list
 * items, categories, play qualities and play URLs. They carry no behaviour.
 */
module LiveModel {
  import opened Wrappers

  datatype LiveRoomDetail = LiveRoomDetail(
    roomId: string,
    title: string,
    cover: string,
    userName: string,
    userAvatar: string,
    online: int,
    introduction: Option<string>,
    notice: Option<string>,
    status: bool,
    data: Option<string>,
    danmakuData: Option<string>,
    url: string,
    isRecord: bool,
    showTime: Option<string>)

  datatype LivePlayQuality = LivePlayQuality(quality: string, data: Option<string>, sort: int)

  datatype LivePlayUrl = LivePlayUrl(urls: seq<string>, headers: Option<map<string, string>>)

  datatype LiveRoomItem = LiveRoomItem(roomId: string, title: string, cover: string, userName: string, online: int)

  datatype LiveSubCategory = LiveSubCategory(id: string, name: string, parentId: string, pic: Option<string>)

  datatype LiveCategory = LiveCategory(id: string, name: string, children: seq<LiveSubCategory>)

  datatype LiveCategoryResult = LiveCategoryResult(hasMore: bool, items: seq<LiveRoomItem>)

  datatype LiveSearchRoomResult = LiveSearchRoomResult(hasMore: bool, items: seq<LiveRoomItem>)

  datatype LiveAnchorItem = LiveAnchorItem(roomId: string, userName: string, avatar: string, followers: int, isLive: bool)

  datatype LiveSearchAnchorResult = LiveSearchAnchorResult(hasMore: bool, items: seq<LiveAnchorItem>)
}
