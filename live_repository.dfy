/**
 * The repository the screens talk to: it looks the platform adapter up by site
 * id and wraps every call, so that an unknown id or an adapter exception comes
 * back as a failed result instead of being thrown.
 *
 * Only the BiliBili adapter is registered; the other listed platforms have none.
 */
module LiveRepository {
  import opened Wrappers
  import opened Errors
  import opened LiveModel
  import opened BiliBiliModels
  import opened BiliBiliApi
  import Site = BiliBiliSite

  datatype SiteModel = SiteModel(id: string, name: string)

  /** The registered adapters: the BiliBili one is the only one. */
  datatype Adapter = BiliBiliAdapter

  /** The `sites` map. */
  function Sites(): map<string, Adapter> {
    map[Site.Id := BiliBiliAdapter]
  }

  /** `getSite(siteId)`: the registered adapter, or `IllegalArgumentException("Unknown site: …")`. */
  function GetSite(siteId: string): (r: Result<Adapter, Exception>)
    ensures r.Success? <==> siteId == "bilibili"
    ensures r.Failure? ==> r.error == IllegalArgument("Unknown site: " + siteId)
  {
    if siteId in Sites() then Success(Sites()[siteId]) else Failure(IllegalArgument("Unknown site: " + siteId))
  }

  /** `getAllSites()`: the platforms offered, registered or not. */
  function GetAllSites(): (r: seq<SiteModel>)
    ensures |r| == 4
    ensures r[0].id == "bilibili" && r[1].id == "douyu" && r[2].id == "huya" && r[3].id == "douyin"
  {
    [SiteModel("bilibili", "哔哩哔哩"), SiteModel("douyu", "斗鱼直播"), SiteModel("huya", "虎牙直播"), SiteModel("douyin", "抖音直播")]
  }

  /** Of the four platforms offered, only the first has an adapter; the other three always fail. */
  lemma ListedButUnregistered()
    ensures GetSite(GetAllSites()[0].id).Success?
    ensures forall i :: 1 <= i < |GetAllSites()| ==> GetSite(GetAllSites()[i].id).Failure?
  {
    assert "douyu" != "bilibili" && "huya" != "bilibili" && "douyin" != "bilibili";
  }

  /** `runCatching { getSite(siteId).<operation>(…) }`: a lookup failure, or what the adapter produced. */
  function Dispatch<T>(siteId: string, call: Result<T, Exception>): (r: Result<T, Exception>)
    ensures siteId == "bilibili" ==> r == call
    ensures siteId != "bilibili" ==> r == Failure(IllegalArgument("Unknown site: " + siteId))
  {
    match GetSite(siteId)
    case Failure(e) => Failure(e)
    case Success(BiliBiliAdapter) => call
  }

  function GetCategories(siteId: string, fetched: Fetched<seq<BiliBiliCategoryData>>): Result<seq<LiveCategory>, Exception> {
    Dispatch(siteId, Site.GetCategories(fetched))
  }

  function GetRecommendRooms(siteId: string, page: int, fetched: Fetched<BiliBiliRoomListData>): Result<LiveCategoryResult, Exception> {
    Dispatch(siteId, Site.GetRecommendRooms(page, fetched))
  }

  function GetCategoryRooms(siteId: string, category: LiveSubCategory, page: int, fetched: Fetched<BiliBiliRoomListData>): Result<LiveCategoryResult, Exception> {
    Dispatch(siteId, Site.GetCategoryRooms(category, page, fetched))
  }

  function SearchRooms(siteId: string, keyword: string, page: int, fetched: Fetched<BiliBiliSearchRoomData>): Result<LiveSearchRoomResult, Exception> {
    Dispatch(siteId, Site.SearchRooms(keyword, page, fetched))
  }

  function GetRoomDetail(siteId: string, roomId: string, fetched: Fetched<BiliBiliRoomInfoData>): Result<LiveRoomDetail, Exception> {
    Dispatch(siteId, Site.GetRoomDetail(roomId, fetched))
  }

  function GetPlayQualities(siteId: string, detail: LiveRoomDetail, fetched: Fetched<BiliBiliPlayInfoData>): Result<seq<LivePlayQuality>, Exception> {
    Dispatch(siteId, Site.GetPlayQualities(detail, fetched))
  }

  /** `getLiveStatus`: the adapter swallows its own exceptions, so only the lookup can fail. */
  function GetLiveStatus(siteId: string, roomId: string, fetched: Fetched<BiliBiliRoomInfoData>): Result<bool, Exception> {
    Dispatch(siteId, Success(Site.GetLiveStatus(roomId, fetched)))
  }

  /** `getPlayUrls`: the adapter's URL collection runs only when the lookup succeeds. */
  method GetPlayUrls(siteId: string, detail: LiveRoomDetail, quality: LivePlayQuality, fetched: Fetched<BiliBiliPlayInfoData>)
    returns (r: Result<LivePlayUrl, Exception>)
    ensures r == Dispatch(siteId, Site.PlayUrls(fetched))
  {
    var site := GetSite(siteId);
    if site.Failure? {
      return Failure(site.error);
    }
    r := Site.GetPlayUrls(detail, quality, fetched);
  }

  /**
   * Nothing is thrown: for an unknown id every operation fails with the lookup
   * error; for "bilibili" every operation yields what the adapter yields, a thrown
   * exception included.
   */
  lemma RepositoryDispatch(siteId: string, page: int, keyword: string, roomId: string, category: LiveSubCategory,
      detail: LiveRoomDetail, categories: Fetched<seq<BiliBiliCategoryData>>, rooms: Fetched<BiliBiliRoomListData>,
      search: Fetched<BiliBiliSearchRoomData>, info: Fetched<BiliBiliRoomInfoData>, play: Fetched<BiliBiliPlayInfoData>)
    ensures siteId != "bilibili" ==>
      var e := IllegalArgument("Unknown site: " + siteId);
      GetCategories(siteId, categories) == Failure(e) && GetRecommendRooms(siteId, page, rooms) == Failure(e)
      && GetCategoryRooms(siteId, category, page, rooms) == Failure(e) && SearchRooms(siteId, keyword, page, search) == Failure(e)
      && GetRoomDetail(siteId, roomId, info) == Failure(e) && GetPlayQualities(siteId, detail, play) == Failure(e)
      && GetLiveStatus(siteId, roomId, info) == Failure(e)
    ensures siteId == "bilibili" ==>
      GetCategories(siteId, categories) == Site.GetCategories(categories)
      && GetRecommendRooms(siteId, page, rooms) == Site.GetRecommendRooms(page, rooms)
      && GetCategoryRooms(siteId, category, page, rooms) == Site.GetCategoryRooms(category, page, rooms)
      && SearchRooms(siteId, keyword, page, search) == Site.SearchRooms(keyword, page, search)
      && GetRoomDetail(siteId, roomId, info) == Site.GetRoomDetail(roomId, info)
      && GetPlayQualities(siteId, detail, play) == Site.GetPlayQualities(detail, play)
      && GetLiveStatus(siteId, roomId, info) == Success(Site.GetLiveStatus(roomId, info))
  {
  }
}
