/**
 * The navigation routes: one fixed route per screen, and the two parameterised
 * routes that put a site id and a room or category id after the screen's route.
 */
module Navigation {
  import opened Wrappers
  import opened Text

  datatype Screen =
    | Home | Category | Follow | Mine
    | LiveRoom | Search | History | Settings | CategoryDetail | Account
    | DanmakuSettings | PlaySettings | AppStyleSettings | FollowSettings | AutoExitSettings | OtherSettings
    | Sync | LocalSync | RemoteSync

  /** The screen a route names, if any. */
  function ScreenAt(route: string): Option<Screen> {
    match route
    case "home" => Some(Home)
    case "category" => Some(Category)
    case "follow" => Some(Follow)
    case "mine" => Some(Mine)
    case "live_room" => Some(LiveRoom)
    case "search" => Some(Search)
    case "history" => Some(History)
    case "settings" => Some(Settings)
    case "category_detail" => Some(CategoryDetail)
    case "account" => Some(Account)
    case "danmaku_settings" => Some(DanmakuSettings)
    case "play_settings" => Some(PlaySettings)
    case "app_style_settings" => Some(AppStyleSettings)
    case "follow_settings" => Some(FollowSettings)
    case "auto_exit_settings" => Some(AutoExitSettings)
    case "other_settings" => Some(OtherSettings)
    case "sync" => Some(Sync)
    case "local_sync" => Some(LocalSync)
    case "remote_sync" => Some(RemoteSync)
    case _ => None
  }

  /** `route`: each screen's route leads back to that screen alone, and none holds a '/'. */
  function Route(s: Screen): (route: string)
    ensures ScreenAt(route) == Some(s)
    ensures '/' !in route
  {
    match s
    case Home => "home"
    case Category => "category"
    case Follow => "follow"
    case Mine => "mine"
    case LiveRoom => "live_room"
    case Search => "search"
    case History => "history"
    case Settings => "settings"
    case CategoryDetail => "category_detail"
    case Account => "account"
    case DanmakuSettings => "danmaku_settings"
    case PlaySettings => "play_settings"
    case AppStyleSettings => "app_style_settings"
    case FollowSettings => "follow_settings"
    case AutoExitSettings => "auto_exit_settings"
    case OtherSettings => "other_settings"
    case Sync => "sync"
    case LocalSync => "local_sync"
    case RemoteSync => "remote_sync"
  }

  /** No two screens share a route. */
  lemma {:induction false} RoutesDistinct(s: Screen, t: Screen)
    requires s != t
    ensures Route(s) != Route(t)
  {
    var rs, rt := Route(s), Route(t);
    assert ScreenAt(rs) == Some(s);
    assert ScreenAt(rt) == Some(t);
  }

  /** `"${route}/$a/$b"`. */
  function WithTwoParameters(route: string, a: string, b: string): string {
    route + "/" + a + "/" + b
  }

  /** `LiveRoom.buildRoute(siteId, roomId)`. */
  function BuildLiveRoomRoute(siteId: string, roomId: string): string {
    WithTwoParameters(Route(LiveRoom), siteId, roomId)
  }

  /** `CategoryDetail.buildRoute(siteId, categoryId)`. */
  function BuildCategoryDetailRoute(siteId: string, categoryId: string): string {
    WithTwoParameters(Route(CategoryDetail), siteId, categoryId)
  }

  /** Splitting a route with two parameters at '/' gives the route and both values back, when neither holds a '/'. */
  lemma {:induction false} TwoParametersSplit(route: string, a: string, b: string)
    requires '/' !in route && '/' !in a && '/' !in b
    ensures Split(WithTwoParameters(route, a, b), '/') == [route, a, b]
  {
    assert WithTwoParameters(route, a, b) == route + ['/'] + (a + ['/'] + b);
    SplitAtSep(route, '/', a + ['/'] + b);
    SplitAtSep(a, '/', b);
    SplitNoSep(b, '/');
  }

  /** The live-room route carries the screen, the site and the room as its three segments. */
  lemma LiveRoomRouteSplits(siteId: string, roomId: string)
    requires '/' !in siteId && '/' !in roomId
    ensures Split(BuildLiveRoomRoute(siteId, roomId), '/') == ["live_room", siteId, roomId]
    ensures ScreenAt(Split(BuildLiveRoomRoute(siteId, roomId), '/')[0]) == Some(LiveRoom)
  {
    TwoParametersSplit(Route(LiveRoom), siteId, roomId);
  }

  /** The category-detail route carries the screen, the site and the category as its three segments. */
  lemma CategoryDetailRouteSplits(siteId: string, categoryId: string)
    requires '/' !in siteId && '/' !in categoryId
    ensures Split(BuildCategoryDetailRoute(siteId, categoryId), '/') == ["category_detail", siteId, categoryId]
    ensures ScreenAt(Split(BuildCategoryDetailRoute(siteId, categoryId), '/')[0]) == Some(CategoryDetail)
  {
    TwoParametersSplit(Route(CategoryDetail), siteId, categoryId);
  }
}
