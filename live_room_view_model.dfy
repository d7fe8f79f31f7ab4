/**
 * The live-room screen's view model: an immutable UI-state record that each
 * repository result replaces with an updated copy, and a danmaku buffer that
 * keeps the last 100 messages.
 *
 * The repository calls run in coroutines; here each one is split into the
 * request the view model launches and the method that applies its result, so a
 * caller drives the sequence detail, then qualities, then play URLs.
 */
module LiveRoom {
  import opened Wrappers
  import opened Errors
  import opened Seqs
  import opened LiveModel
  import opened LiveMessages

  /** The most danmaku messages the buffer holds. */
  const MaxMessages: nat := 100

  datatype LiveRoomUiState = LiveRoomUiState(
    roomDetail: Option<LiveRoomDetail>,
    isLoading: bool,
    error: Option<string>,
    isLive: bool,
    qualities: seq<LivePlayQuality>,
    selectedQuality: Option<LivePlayQuality>,
    playUrl: string,
    playHeaders: Option<map<string, string>>,
    showDanmaku: bool,
    showControls: bool,
    isPlaying: bool)

  /** `LiveRoomUiState()` with every default. */
  const InitialState := LiveRoomUiState(None, false, None, false, [], None, "", None, true, true, false)

  /** The start of `loadRoomDetail`: loading, with any earlier error cleared. */
  function LoadingStarted(s: LiveRoomUiState): (r: LiveRoomUiState)
    ensures r.isLoading && r.error.None?
    ensures r.(isLoading := s.isLoading, error := s.error) == s
  {
    s.(isLoading := true, error := None)
  }

  /**
   * The end of `loadRoomDetail`. Loading stops either way; a success records the
   * detail and its live status and, when live, asks for the qualities of that
   * detail; a failure shows the exception's message, or "Failed to load room"
   * when it has none, and keeps the detail shown before.
   */
  function DetailLoaded(s: LiveRoomUiState, result: Result<LiveRoomDetail, Exception>): (r: (LiveRoomUiState, Option<LiveRoomDetail>))
    ensures !r.0.isLoading
    ensures r.1.Some? <==> result.Success? && result.value.status
    ensures r.1.Some? ==> r.0.roomDetail == r.1 && r.0.isLive
    ensures result.Success? ==>
      r.0 == s.(roomDetail := Some(result.value), isLoading := false, isLive := result.value.status)
    ensures result.Failure? ==>
      r.0 == s.(error := Some(result.error.Message().GetOr("Failed to load room")), isLoading := false)
  {
    match result
    case Success(detail) =>
      (s.(roomDetail := Some(detail), isLoading := false, isLive := detail.status), if detail.status then Some(detail) else None)
    case Failure(e) =>
      (s.(error := Some(e.Message().GetOr("Failed to load room")), isLoading := false), None)
  }

  /**
   * The end of `loadPlayQualities`. A success lists the qualities, selects the
   * first one (none for an empty list) and asks for that quality's URLs, and for
   * no other; a failure only sets the error, whose text shows a missing message
   * as "null".
   */
  function QualitiesLoaded(s: LiveRoomUiState, result: Result<seq<LivePlayQuality>, Exception>): (r: (LiveRoomUiState, Option<LivePlayQuality>))
    ensures r.1.Some? <==> result.Success? && result.value != []
    ensures r.1.Some? ==> r.1.value == result.value[0]
    ensures result.Success? ==> r.0 == s.(qualities := result.value, selectedQuality := r.1)
    ensures result.Failure? ==>
      r.0 == s.(error := Some("Failed to load qualities: " + result.error.Message().GetOr("null"))) && r.1.None?
  {
    match result
    case Success(qualities) =>
      (s.(qualities := qualities, selectedQuality := FirstOrNull(qualities)), FirstOrNull(qualities))
    case Failure(e) =>
      (s.(error := Some("Failed to load qualities: " + e.Message().GetOr("null"))), None)
  }

  /**
   * The end of `loadPlayUrls(detail, quality)`. A success plays the first URL
   * ("" when there is none) with the returned headers and marks `quality` as
   * selected; a failure only sets the error.
   */
  function PlayUrlsLoaded(s: LiveRoomUiState, quality: LivePlayQuality, result: Result<LivePlayUrl, Exception>): (r: LiveRoomUiState)
    ensures result.Success? ==>
      && r.selectedQuality == Some(quality)
      && r.playHeaders == result.value.headers
      && (if result.value.urls == [] then r.playUrl == "" else r.playUrl == result.value.urls[0])
      && r.(playUrl := s.playUrl, playHeaders := s.playHeaders, selectedQuality := s.selectedQuality) == s
    ensures result.Failure? ==> r == s.(error := Some("Failed to load play URL: " + result.error.Message().GetOr("null")))
  {
    match result
    case Success(playUrl) =>
      s.(playUrl := FirstOrNull(playUrl.urls).GetOr(""), playHeaders := playUrl.headers, selectedQuality := Some(quality))
    case Failure(e) =>
      s.(error := Some("Failed to load play URL: " + e.Message().GetOr("null")))
  }

  /** `toggleDanmaku`: flips `showDanmaku` and nothing else, so toggling twice restores the state. */
  function DanmakuToggled(s: LiveRoomUiState): (r: LiveRoomUiState)
    ensures r.showDanmaku == !s.showDanmaku
    ensures r.(showDanmaku := s.showDanmaku) == s
  {
    s.(showDanmaku := !s.showDanmaku)
  }

  /** `toggleControls`: flips `showControls` and nothing else, so toggling twice restores the state. */
  function ControlsToggled(s: LiveRoomUiState): (r: LiveRoomUiState)
    ensures r.showControls == !s.showControls
    ensures r.(showControls := s.showControls) == s
  {
    s.(showControls := !s.showControls)
  }

  /**
   * `(messages + message).takeLast(100)`: never more than 100 messages, the new
   * one last, and the old buffer kept whole while it had room.
   */
  function AddMessage(msgs: seq<LiveMessage>, m: LiveMessage): (r: seq<LiveMessage>)
    ensures 0 < |r| <= MaxMessages
    ensures r[|r| - 1] == m
    ensures |msgs| < MaxMessages ==> r == msgs + [m]
    ensures |msgs| >= MaxMessages ==> |r| == MaxMessages && r[..|r| - 1] == msgs[|msgs| - (MaxMessages - 1)..]
  {
    var all := msgs + [m];
    var r := TakeLast(all, MaxMessages);
    assert r[|r| - 1] == all[|all| - 1];
    r
  }

  /** The buffer after adding `ms` one at a time, oldest first. */
  function AddAll(msgs: seq<LiveMessage>, ms: seq<LiveMessage>): seq<LiveMessage>
    decreases |ms|
  {
    if ms == [] then msgs else AddMessage(AddAll(msgs, ms[..|ms| - 1]), ms[|ms| - 1])
  }

  /** However many messages arrive, the buffer holds exactly the last 100 of them all. */
  lemma {:induction false} AddAllKeepsLast(msgs: seq<LiveMessage>, ms: seq<LiveMessage>)
    requires |msgs| <= MaxMessages
    ensures AddAll(msgs, ms) == TakeLast(msgs + ms, MaxMessages)
    decreases |ms|
  {
    if ms == [] {
      assert msgs + ms == msgs;
    } else {
      var init, m := ms[..|ms| - 1], ms[|ms| - 1];
      AddAllKeepsLast(msgs, init);
      assert msgs + ms == (msgs + init) + [m];
      TakeLastSnoc(msgs + init, m, MaxMessages);
    }
  }

  /** What `loadPlayUrls` is launched with. */
  datatype PlayUrlsRequest = PlayUrlsRequest(detail: LiveRoomDetail, quality: LivePlayQuality)

  class LiveRoomViewModel {
    const siteId: string
    const roomId: string
    var uiState: LiveRoomUiState
    var messages: seq<LiveMessage>

    /** The `init` block starts loading the room detail straight away. */
    constructor (siteId: string, roomId: string)
      ensures this.siteId == siteId && this.roomId == roomId
      ensures uiState == LoadingStarted(InitialState) && messages == []
    {
      this.siteId := siteId;
      this.roomId := roomId;
      uiState := InitialState;
      messages := [];
      new;
      LoadRoomDetail();
    }

    /** `loadRoomDetail`, up to the repository call. */
    method LoadRoomDetail()
      modifies this
      ensures uiState == LoadingStarted(old(uiState)) && messages == old(messages)
    {
      uiState := LoadingStarted(uiState);
    }

    /** `refresh()`: load the room detail again. */
    method Refresh()
      modifies this
      ensures uiState == LoadingStarted(old(uiState)) && messages == old(messages)
    {
      LoadRoomDetail();
    }

    /** The detail arrived; the result is the detail whose qualities to load next, if any. */
    method OnRoomDetail(result: Result<LiveRoomDetail, Exception>) returns (loadQualitiesFor: Option<LiveRoomDetail>)
      modifies this
      ensures (uiState, loadQualitiesFor) == DetailLoaded(old(uiState), result) && messages == old(messages)
    {
      var next := DetailLoaded(uiState, result);
      uiState := next.0;
      loadQualitiesFor := next.1;
    }

    /** The qualities for `detail` arrived; the result is the URL request to launch next, if any. */
    method OnPlayQualities(detail: LiveRoomDetail, result: Result<seq<LivePlayQuality>, Exception>)
      returns (loadUrlsFor: Option<PlayUrlsRequest>)
      modifies this
      ensures uiState == QualitiesLoaded(old(uiState), result).0 && messages == old(messages)
      ensures loadUrlsFor.Some? <==> QualitiesLoaded(old(uiState), result).1.Some?
      ensures loadUrlsFor.Some? ==> loadUrlsFor.value == PlayUrlsRequest(detail, QualitiesLoaded(old(uiState), result).1.value)
    {
      var next := QualitiesLoaded(uiState, result);
      uiState := next.0;
      loadUrlsFor := if next.1.Some? then Some(PlayUrlsRequest(detail, next.1.value)) else None;
    }

    /** The play URLs for `request` arrived. */
    method OnPlayUrls(request: PlayUrlsRequest, result: Result<LivePlayUrl, Exception>)
      modifies this
      ensures uiState == PlayUrlsLoaded(old(uiState), request.quality, result) && messages == old(messages)
    {
      uiState := PlayUrlsLoaded(uiState, request.quality, result);
    }

    /** `selectQuality(quality)`: reloads the URLs for the shown detail; with no detail it does nothing. */
    function SelectQuality(quality: LivePlayQuality): (r: Option<PlayUrlsRequest>)
      reads this
      ensures r.None? <==> uiState.roomDetail.None?
      ensures r.Some? ==> r.value == PlayUrlsRequest(uiState.roomDetail.value, quality)
    {
      match uiState.roomDetail
      case None => None
      case Some(detail) => Some(PlayUrlsRequest(detail, quality))
    }

    method ToggleDanmaku()
      modifies this
      ensures uiState == DanmakuToggled(old(uiState)) && messages == old(messages)
    {
      uiState := DanmakuToggled(uiState);
    }

    method ToggleControls()
      modifies this
      ensures uiState == ControlsToggled(old(uiState)) && messages == old(messages)
    {
      uiState := ControlsToggled(uiState);
    }

    /** `addDanmakuMessage(message)`. */
    method AddDanmakuMessage(message: LiveMessage)
      modifies this
      ensures messages == AddMessage(old(messages), message) && uiState == old(uiState)
    {
      messages := AddMessage(messages, message);
    }
  }

  /**
   * A live room whose detail, qualities and URLs all load ends up live, not
   * loading, without an error, on the first quality and playing its first URL.
   */
  lemma {:induction false} HappyPath(s: LiveRoomUiState, detail: LiveRoomDetail, qualities: seq<LivePlayQuality>, url: LivePlayUrl)
    requires detail.status && qualities != [] && url.urls != []
    ensures
      var (s1, next1) := DetailLoaded(LoadingStarted(s), Success(detail));
      var (s2, next2) := QualitiesLoaded(s1, Success(qualities));
      var s3 := PlayUrlsLoaded(s2, next2.value, Success(url));
      && next1 == Some(detail)
      && next2 == Some(qualities[0])
      && s3.roomDetail == Some(detail) && s3.isLive && !s3.isLoading && s3.error.None?
      && s3.qualities == qualities && s3.selectedQuality == Some(qualities[0])
      && s3.playUrl == url.urls[0] && s3.playHeaders == url.headers
  {
  }
}
