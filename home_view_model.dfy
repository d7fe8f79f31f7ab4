/**
 * The home screen's view model: the list of platforms, the selected one, and
 * the recommended rooms loaded for it.
 *
 * As in the live-room view model, each coroutine is split into the step the view
 * model takes when it starts (here a `LoadStep`, naming the site whose rooms to
 * fetch) and the method that applies the answer.
 */
module Home {
  import opened Wrappers
  import opened Errors
  import opened Seqs
  import opened LiveModel
  import Repo = LiveRepository
  import Prefs = Preferences

  datatype SiteInfo = SiteInfo(id: string, name: string)

  datatype HomeUiState = HomeUiState(
    selectedSiteIndex: int,
    rooms: seq<LiveRoomItem>,
    isLoading: bool,
    error: Option<string>,
    hasMore: bool)

  /** `HomeUiState()` with every default. */
  const InitialState := HomeUiState(0, [], false, None, false)

  /** `siteModels.map { SiteInfo(it.id, it.name) }`. */
  function SiteInfos(models: seq<Repo.SiteModel>): (r: seq<SiteInfo>)
    ensures |r| == |models|
    ensures forall i :: 0 <= i < |r| ==> r[i].id == models[i].id && r[i].name == models[i].name
  {
    seq(|models|, i requires 0 <= i < |models| => SiteInfo(models[i].id, models[i].name))
  }

  /** What `loadRooms` does with the sites it sees and the selected index. */
  datatype LoadStep =
    | Skip
      /** `currentSites[selectedIndex]` threw. */
    | Crash(e: Exception)
    | Fetch(siteId: string)

  /**
   * The guards of `loadRooms`: nothing happens with no sites or an index past the
   * end; a negative index is not guarded, and the list read throws; otherwise the
   * selected site's rooms are fetched.
   */
  function RoomsLoadStep(sites: seq<SiteInfo>, index: int): (r: LoadStep)
    ensures r.Skip? <==> sites == [] || index >= |sites|
    ensures r.Crash? <==> sites != [] && index < 0
    ensures r.Crash? ==> r.e == IndexOutOfBounds(index, |sites|)
    ensures r.Fetch? <==> 0 <= index < |sites|
    ensures r.Fetch? ==> r.siteId == sites[index].id
  {
    if sites == [] then Skip
    else if index >= |sites| then Skip
    else if index < 0 then Crash(IndexOutOfBounds(index, |sites|))
    else Fetch(sites[index].id)
  }

  /** The start of the fetch: loading, with any earlier error cleared. */
  function RoomsLoadingStarted(s: HomeUiState): (r: HomeUiState)
    ensures r.isLoading && r.error.None?
    ensures r.(isLoading := s.isLoading, error := s.error) == s
  {
    s.(isLoading := true, error := None)
  }

  /**
   * The end of the fetch. Loading stops either way; a success shows the rooms
   * and whether there are more; a failure shows the message, or "Unknown error"
   * when it has none, and keeps the rooms shown before.
   */
  function RoomsLoaded(s: HomeUiState, result: Result<LiveCategoryResult, Exception>): (r: HomeUiState)
    ensures !r.isLoading && r.selectedSiteIndex == s.selectedSiteIndex
    ensures result.Success? ==>
      r.rooms == result.value.items && r.hasMore == result.value.hasMore && r.error == s.error
    ensures result.Failure? ==>
      r.error == Some(result.error.Message().GetOr("Unknown error")) && r.rooms == s.rooms && r.hasMore == s.hasMore
  {
    match result
    case Success(page) => s.(rooms := page.items, isLoading := false, hasMore := page.hasMore)
    case Failure(e) => s.(error := Some(e.Message().GetOr("Unknown error")), isLoading := false)
  }

  /** The ids of a site list, in order. */
  function Ids(sites: seq<SiteInfo>): (r: seq<string>)
    ensures |r| == |sites| && forall i :: 0 <= i < |r| ==> r[i] == sites[i].id
  {
    seq(|sites|, i requires 0 <= i < |sites| => sites[i].id)
  }

  /** `sites.find { it.id == id }`: the first site with that id. */
  function Find(sites: seq<SiteInfo>, id: string): (r: Option<SiteInfo>)
    ensures r.Some? ==> r.value.id == id
    decreases |sites|
  {
    if sites == [] then None
    else if sites[0].id == id then Some(sites[0])
    else Find(sites[1..], id)
  }

  /** `find` fails exactly when no site has the id. */
  lemma {:induction false} FindFails(sites: seq<SiteInfo>, id: string)
    ensures Find(sites, id).None? <==> id !in Ids(sites)
    decreases |sites|
  {
    if sites != [] {
      assert Ids(sites) == [sites[0].id] + Ids(sites[1..]);
      if sites[0].id != id {
        FindFails(sites[1..], id);
      }
    }
  }

  /** What `find` returns is the first site with the id. */
  lemma {:induction false} FindFirst(sites: seq<SiteInfo>, id: string)
    requires Find(sites, id).Some?
    ensures exists k :: 0 <= k < |sites| && sites[k] == Find(sites, id).value && forall j :: 0 <= j < k ==> sites[j].id != id
    decreases |sites|
  {
    if sites[0].id == id {
      assert sites[0] == Find(sites, id).value;
    } else {
      var tail := sites[1..];
      FindFirst(tail, id);
      var k :| 0 <= k < |tail| && tail[k] == Find(tail, id).value && forall j :: 0 <= j < k ==> tail[j].id != id;
      assert sites[k + 1] == Find(sites, id).value;
      assert forall j :: 1 <= j < k + 1 ==> sites[j] == tail[j - 1];
    }
  }

  /** Whether a preference id names one of the current sites. */
  function KnownIn(sites: seq<SiteInfo>): string -> bool {
    (id: string) => id in Ids(sites)
  }

  /** `sortedIds.mapNotNull { id -> currentSites.find { it.id == id } }`. */
  function Reorder(current: seq<SiteInfo>, sortedIds: seq<string>): seq<SiteInfo>
    decreases |sortedIds|
  {
    if sortedIds == [] then []
    else
      var init := Reorder(current, sortedIds[..|sortedIds| - 1]);
      match Find(current, sortedIds[|sortedIds| - 1])
      case None => init
      case Some(site) => init + [site]
  }

  /**
   * The reordered list follows the preference: its ids are the preference's ids
   * with the unknown ones skipped, and each entry is one of the current sites.
   */
  lemma {:induction false} ReorderFollowsPreference(current: seq<SiteInfo>, sortedIds: seq<string>)
    ensures Ids(Reorder(current, sortedIds)) == Filter(sortedIds, KnownIn(current))
    ensures forall i :: 0 <= i < |Reorder(current, sortedIds)| ==> Reorder(current, sortedIds)[i] in current
    decreases |sortedIds|
  {
    if sortedIds != [] {
      var init, id := sortedIds[..|sortedIds| - 1], sortedIds[|sortedIds| - 1];
      ReorderFollowsPreference(current, init);
      var prev := Reorder(current, init);
      assert KnownIn(current)(id) == (id in Ids(current));
      FindFails(current, id);
      match Find(current, id)
      case None =>
      case Some(site) =>
        FindFirst(current, id);
        var r := prev + [site];
        assert Ids(r) == Ids(prev) + [id];
        assert forall i :: 0 <= i < |prev| ==> r[i] == prev[i];
    }
  }

  /** No two sites share an id. */
  predicate UniqueIds(sites: seq<SiteInfo>) {
    forall i, j :: 0 <= i < j < |sites| ==> sites[i].id != sites[j].id
  }

  /** With distinct ids, `find` by a site's own id finds that site. */
  lemma {:induction false} FindOwnId(sites: seq<SiteInfo>, k: nat)
    requires UniqueIds(sites) && k < |sites|
    ensures Find(sites, sites[k].id) == Some(sites[k])
    decreases k
  {
    if k > 0 {
      var tail := sites[1..];
      assert UniqueIds(tail);
      assert tail[k - 1] == sites[k];
      FindOwnId(tail, k - 1);
    }
  }

  /** A known last id adds its site after the reordering of the ids before it. */
  lemma ReorderSnoc(current: seq<SiteInfo>, ids: seq<string>, site: SiteInfo)
    requires ids != [] && Find(current, ids[|ids| - 1]) == Some(site)
    ensures Reorder(current, ids) == Reorder(current, ids[..|ids| - 1]) + [site]
  {
  }

  /** Ordering distinct sites by (a prefix of) their own ids leaves them as they are. */
  lemma {:induction false} ReorderByOwnIds(current: seq<SiteInfo>, ids: seq<string>)
    requires UniqueIds(current) && |ids| <= |current|
    requires forall i :: 0 <= i < |ids| ==> ids[i] == current[i].id
    ensures Reorder(current, ids) == current[..|ids|]
    decreases |ids|
  {
    if ids != [] {
      var n := |ids|;
      ReorderByOwnIds(current, ids[..n - 1]);
      FindOwnId(current, n - 1);
      ReorderSnoc(current, ids, current[n - 1]);
      assert current[..n] == current[..n - 1] + [current[n - 1]];
    }
  }

  /**
   * The `collectLatest` body of `loadSiteOrder`: with no sites nothing changes;
   * otherwise the reordered list replaces them, unless no preference id is known.
   */
  function ApplySiteOrder(current: seq<SiteInfo>, sortedIds: seq<string>): (r: seq<SiteInfo>)
    ensures current == [] ==> r == []
    ensures current != [] ==> r != []
    ensures r == current || r == Reorder(current, sortedIds)
    ensures current != [] && Reorder(current, sortedIds) != [] ==> r == Reorder(current, sortedIds)
  {
    if current == [] then current
    else
      var sorted := Reorder(current, sortedIds);
      if sorted != [] then sorted else current
  }

  /**
   * What `loadSiteOrder` leaves in place: the current sites when there are none or
   * no preference id names one of them; otherwise exactly the known preference ids,
   * in the preference's order, each resolved to a current site.
   */
  lemma ApplySiteOrderMeaning(current: seq<SiteInfo>, sortedIds: seq<string>)
    ensures current == [] || Filter(sortedIds, KnownIn(current)) == [] ==> ApplySiteOrder(current, sortedIds) == current
    ensures current != [] && Filter(sortedIds, KnownIn(current)) != [] ==>
      Ids(ApplySiteOrder(current, sortedIds)) == Filter(sortedIds, KnownIn(current)) &&
      forall i :: 0 <= i < |ApplySiteOrder(current, sortedIds)| ==> ApplySiteOrder(current, sortedIds)[i] in current
  {
    ReorderFollowsPreference(current, sortedIds);
    assert |Ids(Reorder(current, sortedIds))| == |Reorder(current, sortedIds)|;
  }

  /** The platforms the repository offers have distinct ids, and the first is the one that is registered. */
  lemma AllSitesInfo()
    ensures UniqueIds(SiteInfos(Repo.GetAllSites()))
    ensures Ids(SiteInfos(Repo.GetAllSites())) == ["bilibili", "douyu", "huya", "douyin"]
    ensures RoomsLoadStep(SiteInfos(Repo.GetAllSites()), InitialState.selectedSiteIndex) == Fetch("bilibili")
  {
    var sites := SiteInfos(Repo.GetAllSites());
    assert sites[0].id == "bilibili" && sites[1].id == "douyu" && sites[2].id == "huya" && sites[3].id == "douyin";
  }

  /** With no site order stored, reordering the repository's platforms by the preference keeps their order. */
  lemma DefaultPreferenceKeepsOrder(prefs: Prefs.Store)
    requires Prefs.KeyName(Prefs.SiteSort) !in prefs
    ensures Prefs.ReadSiteSort(prefs).Success?
    ensures ApplySiteOrder(SiteInfos(Repo.GetAllSites()), Prefs.ReadSiteSort(prefs).value) == SiteInfos(Repo.GetAllSites())
  {
    var sites := SiteInfos(Repo.GetAllSites());
    Prefs.DefaultSiteOrder(prefs);
    AllSitesInfo();
    var ids := Prefs.ReadSiteSort(prefs).value;
    assert ids == Ids(sites);
    ReorderByOwnIds(sites, ids);
    assert sites[..|ids|] == sites;
    assert Reorder(sites, ids) == sites;
  }

  class HomeViewModel {
    var uiState: HomeUiState
    var sites: seq<SiteInfo>

    /** The view model before its `init` block's `loadSites` has heard from the repository. */
    constructor ()
      ensures uiState == InitialState && sites == []
    {
      uiState := InitialState;
      sites := [];
    }

    /** `loadRooms`, up to the repository call. */
    method LoadRooms() returns (step: LoadStep)
      modifies this
      ensures step == RoomsLoadStep(sites, old(uiState).selectedSiteIndex) && sites == old(sites)
      ensures uiState == if step.Fetch? then RoomsLoadingStarted(old(uiState)) else old(uiState)
    {
      step := RoomsLoadStep(sites, uiState.selectedSiteIndex);
      if step.Fetch? {
        uiState := RoomsLoadingStarted(uiState);
      }
    }

    /** `loadSites`: the sites as `SiteInfo`s, then a room load when there is at least one. */
    method LoadSites(models: seq<Repo.SiteModel>) returns (step: LoadStep)
      modifies this
      ensures sites == SiteInfos(models)
      ensures models == [] ==> step == Skip && uiState == old(uiState)
      ensures models != [] ==> step == RoomsLoadStep(sites, old(uiState).selectedSiteIndex)
      ensures uiState == if step.Fetch? then RoomsLoadingStarted(old(uiState)) else old(uiState)
    {
      sites := SiteInfos(models);
      step := Skip;
      if sites != [] {
        step := LoadRooms();
      }
    }

    /** `selectSite(index)`: records the index, then attempts a room load for it. */
    method SelectSite(index: int) returns (step: LoadStep)
      modifies this
      ensures step == RoomsLoadStep(sites, index) && sites == old(sites)
      ensures var selected := old(uiState).(selectedSiteIndex := index);
        uiState == if step.Fetch? then RoomsLoadingStarted(selected) else selected
    {
      uiState := uiState.(selectedSiteIndex := index);
      step := LoadRooms();
    }

    /** `refresh()`. */
    method Refresh() returns (step: LoadStep)
      modifies this
      ensures step == RoomsLoadStep(sites, old(uiState).selectedSiteIndex) && sites == old(sites)
      ensures uiState == if step.Fetch? then RoomsLoadingStarted(old(uiState)) else old(uiState)
    {
      step := LoadRooms();
    }

    /** The recommended rooms arrived. */
    method OnRecommendRooms(result: Result<LiveCategoryResult, Exception>)
      modifies this
      ensures uiState == RoomsLoaded(old(uiState), result) && sites == old(sites)
    {
      uiState := RoomsLoaded(uiState, result);
    }

    /** One value of the `siteSort` flow reaching `loadSiteOrder`. */
    method LoadSiteOrder(sortedIds: seq<string>)
      modifies this
      ensures sites == ApplySiteOrder(old(sites), sortedIds) && uiState == old(uiState)
    {
      if sites == [] {
        return;
      }
      var sorted := Reorder(sites, sortedIds);
      if sorted != [] {
        sites := sorted;
      }
    }
  }
}
