/**
 * The BiliBili adapter: it turns decoded API payloads into the platform-independent
 * records, composes the request headers from the device fingerprint and the
 * session cookie, and orders the play URLs with mcdn hosts last.
 *
 * Every API call is a parameter: what `apiService` returned (a decoded response)
 * or threw. Request parameters are not modelled.
 */
module BiliBiliSite {
  import opened Wrappers
  import opened Errors
  import opened Text
  import opened Seqs
  import opened LiveModel
  import opened LiveMessages
  import opened BiliBiliModels
  import opened BiliBiliApi
  import DanmakuClient

  const Id := "bilibili"
  const Name := "哔哩哔哩直播"
  const UserAgent := "Mozilla/5.0 (Windows NT 10.0; Win64; x64) AppleWebKit/537.36 (KHTML, like Gecko) Chrome/126.0.0.0 Safari/537.36 Edg/126.0.0.0"
  const Referer := "https://live.bilibili.com/"
  const RoomUrlPrefix := "https://live.bilibili.com/"
  const PlayReferer := "https://live.bilibili.com"
  const UnknownQuality := "未知清晰度"
  const CoverSuffix := "@400w.jpg"
  const PicSuffix := "@100w.png"

  // ---------------------------------------------------------------------------
  // Request headers and the device fingerprint

  /** The fingerprint cookie `buvid3=…;buvid4=…;`. */
  function BuvidCookie(buvid3: string, buvid4: string): string {
    "buvid3=" + buvid3 + ";buvid4=" + buvid4 + ";"
  }

  /** The `cookie` header `getHeaders` sends for a session cookie and a fingerprint. */
  function CookieValue(cookie: string, buvid3: string, buvid4: string): string {
    if cookie == "" then BuvidCookie(buvid3, buvid4)
    else if Contains(cookie, "buvid3") then cookie
    else cookie + ";" + BuvidCookie(buvid3, buvid4)
  }

  /**
   * The cookie header always names a `buvid3`, always starts with the session
   * cookie, and carries the fingerprint at its end unless the session cookie
   * already has one.
   */
  lemma CookieCarriesBuvid(cookie: string, buvid3: string, buvid4: string)
    ensures Contains(CookieValue(cookie, buvid3, buvid4), "buvid3")
    ensures cookie <= CookieValue(cookie, buvid3, buvid4)
    ensures !Contains(cookie, "buvid3") ==>
      var v := CookieValue(cookie, buvid3, buvid4);
      |v| >= |BuvidCookie(buvid3, buvid4)| && v[|v| - |BuvidCookie(buvid3, buvid4)|..] == BuvidCookie(buvid3, buvid4)
  {
    var v, fp := CookieValue(cookie, buvid3, buvid4), BuvidCookie(buvid3, buvid4);
    assert fp[..6] == "buvid3";
    if cookie == "" {
      assert OccursAt(v, "buvid3", 0);
      ContainsMeans(v, "buvid3");
    } else if !Contains(cookie, "buvid3") {
      assert v == cookie + ";" + fp;
      assert v[|cookie| + 1..|cookie| + 7] == fp[..6];
      assert OccursAt(v, "buvid3", |cookie| + 1);
      ContainsMeans(v, "buvid3");
      assert v[|v| - |fp|..] == fp;
    }
  }

  /** The headers `getHeaders` returns: user agent, referer and the cookie. */
  function Headers(cookie: string, buvid3: string, buvid4: string): (r: map<string, string>)
    ensures r.Keys == {"user-agent", "referer", "cookie"}
    ensures r["user-agent"] == UserAgent && r["referer"] == Referer
    ensures Contains(r["cookie"], "buvid3")
  {
    CookieCarriesBuvid(cookie, buvid3, buvid4);
    map["user-agent" := UserAgent, "referer" := Referer, "cookie" := CookieValue(cookie, buvid3, buvid4)]
  }

  /**
   * The fingerprint after `getBuvidInfo`, from what `apiService.getBuvid()` gave:
   * a success stores `b3`/`b4` (empty when absent); an exception, including the
   * one `getOrThrow` raises for a success without data, resets both; a non-zero
   * code leaves both as they were.
   */
  function BuvidAfterFetch(fetched: Fetched<BiliBiliBuvidData>, buvid3: string, buvid4: string): (r: (string, string))
    ensures fetched.Failure? ==> r == ("", "")
    ensures fetched.Success? && !fetched.value.IsSuccess() ==> r == (buvid3, buvid4)
    ensures fetched.Success? && fetched.value.IsSuccess() ==>
      match fetched.value.data
      case None => r == ("", "")
      case Some(d) => r == (d.b3.GetOr(""), d.b4.GetOr(""))
  {
    match fetched
    case Failure(_) => ("", "")
    case Success(resp) =>
      if !resp.IsSuccess() then (buvid3, buvid4)
      else
        match resp.GetOrThrow()
        case Failure(_) => ("", "")
        case Success(d) => (d.b3.GetOr(""), d.b4.GetOr(""))
  }

  // ---------------------------------------------------------------------------
  // List mapping

  function CoverUrl(cover: string): string {
    cover + CoverSuffix
  }

  /** The text before `suffix`, when `s` ends with it. */
  function StripSuffix(s: string, suffix: string): (r: Option<string>)
    ensures r.Some? ==> r.value + suffix == s
  {
    if |suffix| <= |s| && s[|s| - |suffix|..] == suffix then Some(s[..|s| - |suffix|]) else None
  }

  lemma StripAppended(s: string, suffix: string)
    ensures StripSuffix(s + suffix, suffix) == Some(s)
  {
    var t := s + suffix;
    assert t[|t| - |suffix|..] == suffix && t[..|t| - |suffix|] == s;
  }

  /** The fields every room list entry is made from. */
  datatype RoomFields = RoomFields(roomid: int, title: string, cover: string, uname: string, online: int)

  /** One `LiveRoomItem` as every list mapper builds it: decimal room id, resized cover. */
  function RoomItem(f: RoomFields): LiveRoomItem {
    LiveRoomItem(Decimal(f.roomid), f.title, CoverUrl(f.cover), f.uname, f.online)
  }

  /** The fields read back from a mapped item: the room id parsed, the cover suffix stripped. */
  function RoomFieldsOf(item: LiveRoomItem): Option<RoomFields> {
    match (ParseInt(item.roomId, 10), StripSuffix(item.cover, CoverSuffix))
    case (Some(id), Some(cover)) => Some(RoomFields(id, item.title, cover, item.userName, item.online))
    case _ => None
  }

  /** Mapping a room loses nothing: the API fields can be read back from the item. */
  lemma RoomItemRoundTrip(f: RoomFields)
    ensures RoomFieldsOf(RoomItem(f)) == Some(f)
  {
    ParseIntToString(f.roomid, 10);
    StripAppended(f.cover, CoverSuffix);
  }

  function MapRoomItem(item: BiliBiliRoomItemData): LiveRoomItem {
    RoomItem(RoomFields(item.roomid, item.title, item.cover, item.uname, item.online))
  }

  function MapSearchItem(item: BiliBiliSearchRoomItem): LiveRoomItem {
    RoomItem(RoomFields(item.roomid, item.title, item.cover, item.uname, item.online))
  }

  function MapSubCategory(sub: BiliBiliSubCategoryData): LiveSubCategory {
    LiveSubCategory(sub.id, sub.name, sub.parentId, if sub.pic.Some? then Some(sub.pic.value + PicSuffix) else None)
  }

  /** A sub-category keeps its ids and name; its picture, when present, is the resized one. */
  lemma SubCategoryRoundTrip(sub: BiliBiliSubCategoryData)
    ensures var c := MapSubCategory(sub);
      c.id == sub.id && c.name == sub.name && c.parentId == sub.parentId
      && (c.pic.Some? <==> sub.pic.Some?)
      && (c.pic.Some? ==> StripSuffix(c.pic.value, PicSuffix) == Some(sub.pic.value))
  {
    if sub.pic.Some? {
      StripAppended(sub.pic.value, PicSuffix);
    }
  }

  function MapCategory(c: BiliBiliCategoryData): (r: LiveCategory)
    ensures r.id == c.id && r.name == c.name && |r.children| == |c.list|
    ensures forall j :: 0 <= j < |c.list| ==> r.children[j] == MapSubCategory(c.list[j])
  {
    LiveCategory(c.id, c.name, seq(|c.list|, j requires 0 <= j < |c.list| => MapSubCategory(c.list[j])))
  }

  /** `getCategories()`: every category and sub-category, in the order the API lists them. */
  function GetCategories(fetched: Fetched<seq<BiliBiliCategoryData>>): (r: Result<seq<LiveCategory>, Exception>)
    ensures r.Success? <==> Unwrap(fetched).Success?
    ensures r.Failure? ==> r.error == Unwrap(fetched).error
    ensures r.Success? ==>
      |r.value| == |Unwrap(fetched).value|
      && forall i :: 0 <= i < |r.value| ==> r.value[i] == MapCategory(Unwrap(fetched).value[i])
  {
    match Unwrap(fetched)
    case Failure(e) => Failure(e)
    case Success(data) => Success(seq(|data|, i requires 0 <= i < |data| => MapCategory(data[i])))
  }

  /** The rooms of a search response; a missing result or room list is an empty list. */
  function SearchItems(data: BiliBiliSearchRoomData): (r: seq<LiveRoomItem>)
    ensures data.result.None? || data.result.value.liveRoom.None? ==> r == []
    ensures data.result.Some? && data.result.value.liveRoom.Some? ==>
      var items := data.result.value.liveRoom.value;
      |r| == |items| && forall i :: 0 <= i < |items| ==> r[i] == MapSearchItem(items[i])
  {
    match data.result
    case None => []
    case Some(res) =>
      match res.liveRoom
      case None => []
      case Some(items) => seq(|items|, i requires 0 <= i < |items| => MapSearchItem(items[i]))
  }

  /** `searchRooms(keyword, page)`: more pages are announced whenever this one is non-empty. */
  function SearchRooms(keyword: string, page: int, fetched: Fetched<BiliBiliSearchRoomData>): (r: Result<LiveSearchRoomResult, Exception>)
    ensures r.Success? <==> Unwrap(fetched).Success?
    ensures r.Failure? ==> r.error == Unwrap(fetched).error
    ensures r.Success? ==> r.value.items == SearchItems(Unwrap(fetched).value) && (r.value.hasMore <==> r.value.items != [])
  {
    match Unwrap(fetched)
    case Failure(e) => Failure(e)
    case Success(data) =>
      var rooms := SearchItems(data);
      Success(LiveSearchRoomResult(rooms != [], rooms))
  }

  /** `searchAnchors`: this platform has no anchor search. */
  function SearchAnchors(keyword: string, page: int): (r: LiveSearchAnchorResult)
    ensures !r.hasMore && r.items == []
  {
    LiveSearchAnchorResult(false, [])
  }

  function MapRoomList(list: seq<BiliBiliRoomItemData>): (r: seq<LiveRoomItem>)
    ensures |r| == |list| && forall i :: 0 <= i < |list| ==> r[i] == MapRoomItem(list[i])
  {
    seq(|list|, i requires 0 <= i < |list| => MapRoomItem(list[i]))
  }

  /** `getCategoryRooms(category, page)`: more pages exactly when the API's `has_more` is 1. */
  function GetCategoryRooms(category: LiveSubCategory, page: int, fetched: Fetched<BiliBiliRoomListData>): (r: Result<LiveCategoryResult, Exception>)
    ensures r.Success? <==> Unwrap(fetched).Success?
    ensures r.Failure? ==> r.error == Unwrap(fetched).error
    ensures r.Success? ==>
      r.value.items == MapRoomList(Unwrap(fetched).value.list)
      && (r.value.hasMore <==> Unwrap(fetched).value.hasMore == 1)
  {
    match Unwrap(fetched)
    case Failure(e) => Failure(e)
    case Success(data) => Success(LiveCategoryResult(data.hasMore == 1, MapRoomList(data.list)))
  }

  /** `getRecommendRooms(page)`: more pages whenever this one is non-empty; `has_more` is ignored. */
  function GetRecommendRooms(page: int, fetched: Fetched<BiliBiliRoomListData>): (r: Result<LiveCategoryResult, Exception>)
    ensures r.Success? <==> Unwrap(fetched).Success?
    ensures r.Failure? ==> r.error == Unwrap(fetched).error
    ensures r.Success? ==>
      r.value.items == MapRoomList(Unwrap(fetched).value.list)
      && (r.value.hasMore <==> Unwrap(fetched).value.list != [])
  {
    match Unwrap(fetched)
    case Failure(e) => Failure(e)
    case Success(data) => Success(LiveCategoryResult(data.list != [], MapRoomList(data.list)))
  }

  // ---------------------------------------------------------------------------
  // Room detail and live status

  /** The detail record `getRoomDetail(roomId)` builds from the room info. */
  function RoomDetail(roomId: string, data: BiliBiliRoomInfoData): LiveRoomDetail {
    var info := data.roomInfo;
    LiveRoomDetail(
      Decimal(info.roomId), info.title, info.cover,
      if data.anchorInfo.Some? then data.anchorInfo.value.baseInfo.uname else "",
      if data.anchorInfo.Some? then data.anchorInfo.value.baseInfo.face else "",
      info.online, info.description, None, info.liveStatus == 1,
      Some(Decimal(info.roomId)), None, RoomUrlPrefix + roomId, false, info.liveTime)
  }

  /** `getRoomDetail(roomId)`. */
  function GetRoomDetail(roomId: string, fetched: Fetched<BiliBiliRoomInfoData>): (r: Result<LiveRoomDetail, Exception>)
    ensures r.Success? <==> Unwrap(fetched).Success?
    ensures r.Failure? ==> r.error == Unwrap(fetched).error
    ensures r.Success? ==> r.value == RoomDetail(roomId, Unwrap(fetched).value)
  {
    match Unwrap(fetched)
    case Failure(e) => Failure(e)
    case Success(data) => Success(RoomDetail(roomId, data))
  }

  /**
   * What a room detail means: live exactly when `live_status` is 1; the real
   * room id (which may differ from the requested, short one) is both the room id
   * and the danmaku data, and parses back; the page URL is built from the
   * requested id; a missing anchor gives empty name and avatar.
   */
  lemma RoomDetailMeaning(roomId: string, data: BiliBiliRoomInfoData)
    ensures var d := RoomDetail(roomId, data);
      (d.status <==> data.roomInfo.liveStatus == 1)
      && d.data == Some(d.roomId) && ParseInt(d.roomId, 10) == Some(data.roomInfo.roomId)
      && d.url == RoomUrlPrefix + roomId
      && (data.anchorInfo.None? ==> d.userName == "" && d.userAvatar == "")
      && d.notice.None? && d.danmakuData.None? && !d.isRecord
  {
    ParseIntToString(data.roomInfo.roomId, 10);
  }

  /** `getLiveStatus(roomId)`: any exception reads as "not live". */
  function GetLiveStatus(roomId: string, fetched: Fetched<BiliBiliRoomInfoData>): bool {
    match GetRoomDetail(roomId, fetched)
    case Success(detail) => detail.status
    case Failure(_) => false
  }

  /** A room is reported live exactly when the call succeeded with code 0, carried data, and `live_status` 1. */
  lemma LiveStatusMeaning(roomId: string, fetched: Fetched<BiliBiliRoomInfoData>)
    ensures GetLiveStatus(roomId, fetched) <==>
      fetched.Success? && fetched.value.code == 0 && fetched.value.data.Some?
      && fetched.value.data.value.roomInfo.liveStatus == 1
  {
  }

  /** `getSuperChatMessages`: not available on this platform. */
  function GetSuperChatMessages(roomId: string): (r: seq<LiveSuperChatMessage>)
    ensures r == []
  {
    []
  }

  // ---------------------------------------------------------------------------
  // Play qualities

  /** `associate { it.qn to it.desc }`: a later description of the same `qn` replaces an earlier one. */
  function QualityMap(descs: seq<BiliBiliQualityDesc>): (m: map<int, string>)
    ensures forall i :: 0 <= i < |descs| ==> descs[i].qn in m
    ensures forall qn :: qn in m ==> exists i :: 0 <= i < |descs| && descs[i].qn == qn
    decreases |descs|
  {
    if descs == [] then map[]
    else
      var last := descs[|descs| - 1];
      var m := QualityMap(descs[..|descs| - 1]);
      assert forall i :: 0 <= i < |descs| - 1 ==> descs[..|descs| - 1][i] == descs[i];
      m[last.qn := last.desc]
  }

  /** The label of a `qn` is the description of its last occurrence. */
  lemma {:induction false} QualityMapLastWins(descs: seq<BiliBiliQualityDesc>, i: nat)
    requires i < |descs|
    requires forall j :: i < j < |descs| ==> descs[j].qn != descs[i].qn
    ensures QualityMap(descs)[descs[i].qn] == descs[i].desc
    decreases |descs|
  {
    if i < |descs| - 1 {
      var init := descs[..|descs| - 1];
      assert init[i] == descs[i];
      QualityMapLastWins(init, i);
    }
  }

  /** The `accept_qn` list of the first codec of the first format of the first stream, or nothing. */
  function AcceptQn(playurl: BiliBiliPlayUrl): (r: seq<int>)
    ensures playurl.stream == [] || playurl.stream[0].format == [] || playurl.stream[0].format[0].codec == [] ==> r == []
    ensures playurl.stream != [] && playurl.stream[0].format != [] && playurl.stream[0].format[0].codec != [] ==>
      r == playurl.stream[0].format[0].codec[0].acceptQn.GetOr([])
  {
    if playurl.stream == [] then []
    else if playurl.stream[0].format == [] then []
    else if playurl.stream[0].format[0].codec == [] then []
    else playurl.stream[0].format[0].codec[0].acceptQn.GetOr([])
  }

  /** The quality for one `qn`: its label, its number as text, and the number as sort key. */
  function Quality(labels: map<int, string>, qn: int): LivePlayQuality {
    LivePlayQuality(if qn in labels then labels[qn] else UnknownQuality, Some(Decimal(qn)), qn)
  }

  predicate SortedDescending(qs: seq<LivePlayQuality>) {
    forall i, j :: 0 <= i < j < |qs| ==> qs[i].sort >= qs[j].sort
  }

  /** Put `q` before the first element whose key is not larger: the step of a stable descending sort. */
  function Insert(q: LivePlayQuality, qs: seq<LivePlayQuality>): seq<LivePlayQuality>
    decreases |qs|
  {
    if qs == [] || q.sort >= qs[0].sort then [q] + qs else [qs[0]] + Insert(q, qs[1..])
  }

  /** `sortedByDescending { it.sort }`, stable: an insertion sort from the back. */
  function SortDescending(qs: seq<LivePlayQuality>): seq<LivePlayQuality>
    decreases |qs|
  {
    if qs == [] then [] else Insert(qs[0], SortDescending(qs[1..]))
  }

  /** An element no smaller than every key of a sorted list can go in front of it. */
  lemma ConsSorted(x: LivePlayQuality, qs: seq<LivePlayQuality>)
    requires SortedDescending(qs)
    requires forall k :: 0 <= k < |qs| ==> qs[k].sort <= x.sort
    ensures SortedDescending([x] + qs)
  {
    var r := [x] + qs;
    forall i, j | 0 <= i < j < |r|
      ensures r[i].sort >= r[j].sort
    {
      if i > 0 {
        assert r[i] == qs[i - 1] && r[j] == qs[j - 1];
      }
    }
  }

  /** Inserting into a sorted list keeps it sorted and adds exactly the one element. */
  lemma {:induction false} InsertSorts(q: LivePlayQuality, qs: seq<LivePlayQuality>)
    requires SortedDescending(qs)
    ensures SortedDescending(Insert(q, qs))
    ensures multiset(Insert(q, qs)) == multiset(qs) + multiset{q}
    decreases |qs|
  {
    if qs == [] || q.sort >= qs[0].sort {
      ConsSorted(q, qs);
    } else {
      var head, tail := qs[0], qs[1..];
      var rest := Insert(q, tail);
      assert Insert(q, qs) == [head] + rest;
      assert qs == [head] + tail;
      InsertSorts(q, tail);
      forall k | 0 <= k < |rest|
        ensures rest[k].sort <= head.sort
      {
        assert rest[k] in multiset(rest);
        if rest[k] != q {
          assert rest[k] in multiset(tail);
          var j :| 0 <= j < |tail| && tail[j] == rest[k];
          assert qs[j + 1] == tail[j];
        }
      }
      ConsSorted(head, rest);
    }
  }

  /** The sort yields a descending permutation of its input. */
  lemma {:induction false} SortDescendingSorts(qs: seq<LivePlayQuality>)
    ensures SortedDescending(SortDescending(qs))
    ensures multiset(SortDescending(qs)) == multiset(qs)
    decreases |qs|
  {
    if qs != [] {
      SortDescendingSorts(qs[1..]);
      InsertSorts(qs[0], SortDescending(qs[1..]));
      assert qs == [qs[0]] + qs[1..];
    }
  }

  /** The qualities before sorting: one per accepted `qn`, in the API's order. */
  function Qualities(playurl: BiliBiliPlayUrl): (r: seq<LivePlayQuality>)
    ensures |r| == |AcceptQn(playurl)|
    ensures forall i :: 0 <= i < |r| ==> r[i] == Quality(QualityMap(playurl.qualityDescriptions), AcceptQn(playurl)[i])
  {
    var labels, qns := QualityMap(playurl.qualityDescriptions), AcceptQn(playurl);
    seq(|qns|, i requires 0 <= i < |qns| => Quality(labels, qns[i]))
  }

  /** `getPlayQualities(detail)`. */
  function GetPlayQualities(detail: LiveRoomDetail, fetched: Fetched<BiliBiliPlayInfoData>): (r: Result<seq<LivePlayQuality>, Exception>)
    ensures r.Success? <==> Unwrap(fetched).Success?
    ensures r.Failure? ==> r.error == Unwrap(fetched).error
    ensures r.Success? ==>
      var playurl := Unwrap(fetched).value.playurlInfo.playurl;
      SortedDescending(r.value) && multiset(r.value) == multiset(Qualities(playurl))
  {
    match Unwrap(fetched)
    case Failure(e) => Failure(e)
    case Success(data) =>
      SortDescendingSorts(Qualities(data.playurlInfo.playurl));
      Success(SortDescending(Qualities(data.playurlInfo.playurl)))
  }

  /**
   * Each quality is labelled from the descriptions (or as unknown), carries its
   * number as text and as sort key, and comes from the accepted list; every
   * accepted number has its quality.
   */
  lemma PlayQualitiesMeaning(playurl: BiliBiliPlayUrl)
    ensures var r := SortDescending(Qualities(playurl));
      var labels := QualityMap(playurl.qualityDescriptions);
      |r| == |AcceptQn(playurl)|
      && (forall q :: q in r ==>
            q.sort in AcceptQn(playurl) && q == Quality(labels, q.sort) && q.data == Some(Decimal(q.sort)))
      && (forall qn :: qn in AcceptQn(playurl) ==> Quality(labels, qn) in r)
  {
    var r, qs := SortDescending(Qualities(playurl)), Qualities(playurl);
    var labels := QualityMap(playurl.qualityDescriptions);
    SortDescendingSorts(qs);
    assert |r| == |multiset(r)| == |multiset(qs)| == |qs|;
    forall q | q in r
      ensures q.sort in AcceptQn(playurl) && q == Quality(labels, q.sort)
    {
      assert q in multiset(qs);
      var i :| 0 <= i < |qs| && qs[i] == q;
    }
    forall qn | qn in AcceptQn(playurl)
      ensures Quality(labels, qn) in r
    {
      var i :| 0 <= i < |AcceptQn(playurl)| && AcceptQn(playurl)[i] == qn;
      assert qs[i] in multiset(r);
    }
  }

  // ---------------------------------------------------------------------------
  // Play URLs

  /** The URLs of one codec: `host + base_url + extra` for each of its `url_info`. */
  function CodecUrls(codec: BiliBiliCodec): seq<string> {
    ConcatMap(codec.urlInfo, (u: BiliBiliUrlInfo) => [u.host + codec.baseUrl + u.extra])
  }

  function FormatUrls(format: BiliBiliFormat): seq<string> {
    ConcatMap(format.codec, CodecUrls)
  }

  function StreamUrls(stream: BiliBiliStream): seq<string> {
    ConcatMap(stream.format, FormatUrls)
  }

  /** Every candidate URL, in stream, format, codec, `url_info` order. */
  function FlattenUrls(streams: seq<BiliBiliStream>): seq<string> {
    ConcatMap(streams, StreamUrls)
  }

  /** One URL per `url_info`, whatever the nesting: the flattening loses and invents no entry. */
  function UrlCount(streams: seq<BiliBiliStream>): nat
    decreases |streams|
  {
    if streams == [] then 0 else StreamCount(streams[0]) + UrlCount(streams[1..])
  }

  function StreamCount(stream: BiliBiliStream): nat {
    FormatCount(stream.format)
  }

  function FormatCount(formats: seq<BiliBiliFormat>): nat
    decreases |formats|
  {
    if formats == [] then 0 else CodecCount(formats[0].codec) + FormatCount(formats[1..])
  }

  function CodecCount(codecs: seq<BiliBiliCodec>): nat
    decreases |codecs|
  {
    if codecs == [] then 0 else |codecs[0].urlInfo| + CodecCount(codecs[1..])
  }

  lemma {:induction false} CodecUrlsLength(codec: BiliBiliCodec, n: nat)
    requires n <= |codec.urlInfo|
    ensures |ConcatMap(codec.urlInfo[..n], (u: BiliBiliUrlInfo) => [u.host + codec.baseUrl + u.extra])| == n
  {
    if n > 0 {
      CodecUrlsLength(codec, n - 1);
      assert codec.urlInfo[..n][..n - 1] == codec.urlInfo[..n - 1];
    }
  }

  lemma {:induction false} CodecCountLength(codecs: seq<BiliBiliCodec>)
    ensures |ConcatMap(codecs, CodecUrls)| == CodecCount(codecs)
    decreases |codecs|
  {
    if codecs != [] {
      CodecCountLength(codecs[1..]);
      assert codecs == [codecs[0]] + codecs[1..];
      ConcatMapAppend([codecs[0]], codecs[1..], CodecUrls);
      assert [codecs[0]][..0] == [];
      CodecUrlsLength(codecs[0], |codecs[0].urlInfo|);
      assert codecs[0].urlInfo[..|codecs[0].urlInfo|] == codecs[0].urlInfo;
    }
  }

  lemma {:induction false} FormatCountLength(formats: seq<BiliBiliFormat>)
    ensures |ConcatMap(formats, FormatUrls)| == FormatCount(formats)
    decreases |formats|
  {
    if formats != [] {
      FormatCountLength(formats[1..]);
      assert formats == [formats[0]] + formats[1..];
      ConcatMapAppend([formats[0]], formats[1..], FormatUrls);
      assert [formats[0]][..0] == [];
      CodecCountLength(formats[0].codec);
    }
  }

  /** The candidate list has exactly one entry per `url_info`. */
  lemma {:induction false} FlattenUrlsLength(streams: seq<BiliBiliStream>)
    ensures |FlattenUrls(streams)| == UrlCount(streams)
    decreases |streams|
  {
    if streams != [] {
      FlattenUrlsLength(streams[1..]);
      assert streams == [streams[0]] + streams[1..];
      ConcatMapAppend([streams[0]], streams[1..], StreamUrls);
      assert [streams[0]][..0] == [];
      FormatCountLength(streams[0].format);
    }
  }

  predicate IsMcdn(url: string) {
    Contains(url, "mcdn")
  }

  /**
   * What `sortWith` leaves: the comparator ranks mcdn URLs after all others and
   * calls every other pair equal, and the sort is stable, so the result is the
   * other URLs in order, then the mcdn ones in order.
   */
  function McdnLast(urls: seq<string>): seq<string> {
    Partition(urls, IsMcdn)
  }

  /** The ordering is a permutation of the candidates. */
  lemma McdnLastPermutes(urls: seq<string>)
    ensures multiset(McdnLast(urls)) == multiset(urls)
  {
    PartitionPermutes(urls, IsMcdn);
  }

  /** No mcdn URL comes before one that is not, and the order within each group is kept. */
  lemma McdnLastSorts(urls: seq<string>)
    ensures forall i, j :: 0 <= i < j < |McdnLast(urls)| ==> !(IsMcdn(McdnLast(urls)[i]) && !IsMcdn(McdnLast(urls)[j]))
    ensures Filter(McdnLast(urls), IsMcdn) == Filter(urls, IsMcdn)
    ensures Filter(McdnLast(urls), Not(IsMcdn)) == Filter(urls, Not(IsMcdn))
  {
    PartitionSorts(urls, IsMcdn);
  }

  /**
   * `McdnLast` is the only stable reordering that puts mcdn last: any list that
   * is so ordered and keeps each group's order equals it.
   */
  lemma McdnLastUnique(urls: seq<string>, s: seq<string>)
    requires PartitionedBy(s, IsMcdn)
    requires Filter(s, IsMcdn) == Filter(urls, IsMcdn)
    requires Filter(s, Not(IsMcdn)) == Filter(urls, Not(IsMcdn))
    ensures s == McdnLast(urls)
  {
    PartitionUnique(urls, s, IsMcdn);
  }

  /** The headers every play URL is fetched with. */
  function PlayHeaders(): map<string, string> {
    map["referer" := PlayReferer, "user-agent" := UserAgent]
  }

  /** What `getPlayUrls(detail, quality)` returns. */
  function PlayUrls(fetched: Fetched<BiliBiliPlayInfoData>): Result<LivePlayUrl, Exception> {
    match Unwrap(fetched)
    case Failure(e) => Failure(e)
    case Success(data) => Success(LivePlayUrl(McdnLast(FlattenUrls(data.playurlInfo.playurl.stream)), Some(PlayHeaders())))
  }

  /** The innermost `forEach`: one URL per `url_info` of the codec. */
  method AddCodecUrls(urls: seq<string>, codec: BiliBiliCodec) returns (out: seq<string>)
    ensures out == urls + CodecUrls(codec)
  {
    out := urls;
    var baseUrl := codec.baseUrl;
    var k := 0;
    while k < |codec.urlInfo|
      invariant 0 <= k <= |codec.urlInfo|
      invariant out == urls + ConcatMap(codec.urlInfo[..k], (u: BiliBiliUrlInfo) => [u.host + codec.baseUrl + u.extra])
    {
      var urlInfo := codec.urlInfo[k];
      ConcatMapStep(urls, codec.urlInfo, k, (u: BiliBiliUrlInfo) => [u.host + codec.baseUrl + u.extra]);
      out := out + [urlInfo.host + baseUrl + urlInfo.extra];
      k := k + 1;
    }
    assert codec.urlInfo[..k] == codec.urlInfo;
  }

  method AddFormatUrls(urls: seq<string>, format: BiliBiliFormat) returns (out: seq<string>)
    ensures out == urls + FormatUrls(format)
  {
    out := urls;
    var k := 0;
    while k < |format.codec|
      invariant 0 <= k <= |format.codec|
      invariant out == urls + ConcatMap(format.codec[..k], CodecUrls)
    {
      ConcatMapStep(urls, format.codec, k, CodecUrls);
      out := AddCodecUrls(out, format.codec[k]);
      k := k + 1;
    }
    assert format.codec[..k] == format.codec;
  }

  method AddStreamUrls(urls: seq<string>, stream: BiliBiliStream) returns (out: seq<string>)
    ensures out == urls + StreamUrls(stream)
  {
    out := urls;
    var k := 0;
    while k < |stream.format|
      invariant 0 <= k <= |stream.format|
      invariant out == urls + ConcatMap(stream.format[..k], FormatUrls)
    {
      ConcatMapStep(urls, stream.format, k, FormatUrls);
      out := AddFormatUrls(out, stream.format[k]);
      k := k + 1;
    }
    assert stream.format[..k] == stream.format;
  }

  /** The nested `forEach` loops of `getPlayUrls` that fill `urls`. */
  method CollectUrls(streams: seq<BiliBiliStream>) returns (urls: seq<string>)
    ensures urls == FlattenUrls(streams)
  {
    urls := [];
    var k := 0;
    while k < |streams|
      invariant 0 <= k <= |streams|
      invariant urls == ConcatMap(streams[..k], StreamUrls)
    {
      ConcatMapStep([], streams, k, StreamUrls);
      assert [] + ConcatMap(streams[..k], StreamUrls) == urls;
      assert [] + ConcatMap(streams[..k + 1], StreamUrls) == ConcatMap(streams[..k + 1], StreamUrls);
      urls := AddStreamUrls(urls, streams[k]);
      k := k + 1;
    }
    assert streams[..k] == streams;
  }

  /** `getPlayUrls(detail, quality)`: collect, put mcdn last, attach the playback headers. */
  method GetPlayUrls(detail: LiveRoomDetail, quality: LivePlayQuality, fetched: Fetched<BiliBiliPlayInfoData>)
    returns (r: Result<LivePlayUrl, Exception>)
    ensures r == PlayUrls(fetched)
  {
    var response := Unwrap(fetched);
    if response.Failure? {
      return Failure(response.error);
    }
    var urls := CollectUrls(response.value.playurlInfo.playurl.stream);
    urls := McdnLast(urls);
    r := Success(LivePlayUrl(urls, Some(PlayHeaders())));
  }

  // ---------------------------------------------------------------------------
  // The adapter object

  class BiliBiliSite {
    var buvid3: string
    var buvid4: string
    var cookie: string

    constructor ()
      ensures buvid3 == "" && buvid4 == "" && cookie == ""
    {
      buvid3 := "";
      buvid4 := "";
      cookie := "";
    }

    /** `getDanmaku()`: a fresh, unconnected chat client. */
    method GetDanmaku() returns (d: DanmakuClient.BiliBiliDanmaku)
      ensures fresh(d)
      ensures d.webSocketClient.None? && !d.heartbeatJob
    {
      d := new DanmakuClient.BiliBiliDanmaku();
    }

    /** `getBuvidInfo()`, given what `apiService.getBuvid()` returned or threw. */
    method GetBuvidInfo(fetched: Fetched<BiliBiliBuvidData>)
      modifies this
      ensures (buvid3, buvid4) == BuvidAfterFetch(fetched, old(buvid3), old(buvid4))
      ensures cookie == old(cookie)
    {
      match fetched
      case Failure(_) =>
        buvid3, buvid4 := "", "";
      case Success(response) =>
        if response.IsSuccess() {
          match response.GetOrThrow()
          case Failure(_) =>
            buvid3, buvid4 := "", "";
          case Success(data) =>
            buvid3, buvid4 := data.b3.GetOr(""), data.b4.GetOr("");
        }
    }

    /** `getHeaders()`: fetch the fingerprint only while `buvid3` is empty, then compose the headers. */
    method GetHeaders(fetched: Fetched<BiliBiliBuvidData>) returns (headers: map<string, string>)
      modifies this
      ensures old(buvid3) != "" ==> buvid3 == old(buvid3) && buvid4 == old(buvid4)
      ensures old(buvid3) == "" ==> (buvid3, buvid4) == BuvidAfterFetch(fetched, old(buvid3), old(buvid4))
      ensures cookie == old(cookie)
      ensures headers == Headers(cookie, buvid3, buvid4)
    {
      if buvid3 == "" {
        GetBuvidInfo(fetched);
      }
      headers := Headers(cookie, buvid3, buvid4);
    }
  }
}
