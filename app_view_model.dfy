/**
 * The application view model: the navigation tab, the place or cluster the
 * map has open, the AR switch, the network filter, the event search query and
 * the dynamic lists of places and events, together with the callbacks that
 * update them and the two views derived from them (the selected place and the
 * searched event feed).
 *
 * Each callback is one transition of `Reduce`; the class `ViewModel` holds the
 * same state in fields and its methods perform exactly those transitions.
 * React applies the setters of one callback together, so each callback is one
 * atomic step here. The 500 ms timer at the end of `publishEvent` is its own
 * step, `CompletePublish`.
 */
module AppViewModel {
  import opened Types
  import opened Text

  // ---------------------------------------------------------------------------
  // State and actions
  // ---------------------------------------------------------------------------

  /** `NetworkFilterType`: the category selector of the connection network on the map. */
  datatype NetworkFilter = ALL | CYBER | NATURE | CULTURE | ENTERTAINMENT

  datatype ViewState = ViewState(
    currentTab: NavTab,
    selectedPlaceId: Option<string>,
    selectedCluster: Option<seq<Place>>,
    searchQuery: string,
    arMode: bool,
    networkFilter: NetworkFilter,
    places: seq<Place>,
    events: seq<Event>)

  /** The state the hook starts in; the lists start as the mock data. */
  function Initial(mockPlaces: seq<Place>, mockEvents: seq<Event>): ViewState {
    ViewState(MAP, None, None, "", false, ALL, mockPlaces, mockEvents)
  }

  datatype ContentType = VIDEO | IMAGE | AUDIO | DOCUMENT

  function ContentTypeName(t: ContentType): string {
    match t
    case VIDEO => "VIDEO"
    case IMAGE => "IMAGE"
    case AUDIO => "AUDIO"
    case DOCUMENT => "DOCUMENT"
  }

  /** The form handed to `publishEvent`. */
  datatype PublishForm = PublishForm(
    title: string,
    description: string,
    category: string,
    schedule: string,
    contentType: ContentType)

  /**
   * One callback of the view model. `Publish` carries the value `Date.now()`
   * returned and the two values `Math.random()` returned; `CompletePublish` is
   * the timer that selects the new place 500 ms later.
   */
  datatype Action =
    | TabChange(tab: NavTab)
    | SelectPlace(id: Option<string>)
    | SelectCluster(cluster: Option<seq<Place>>)
    | ToggleAr
    | ToggleFilter(filter: NetworkFilter)
    | FilterEvents(query: string)
    | Publish(form: PublishForm, now: nat, randomLat: real, randomLng: real)
    | CompletePublish(newId: string)

  /** JavaScript truthiness of a `string | null`: null and "" are false. */
  predicate Truthy(id: Option<string>) {
    id.Some? && id.value != ""
  }

  // ---------------------------------------------------------------------------
  // publishEvent: the new place and the new event
  // ---------------------------------------------------------------------------

  /** The id `new_<timestamp>` shared by the new place and the new event. */
  function PublishId(now: nat): string {
    "new_" + Decimal(now)
  }

  function ImageUrl(id: string): string {
    "https://picsum.photos/seed/" + id + "/600/400"
  }

  /** The coordinate jitter around Paris, from a `Math.random()` draw. */
  function JitterLat(random: real): real { 48.8566 + (random - 0.5) * 0.05 }

  function JitterLng(random: real): real { 2.3522 + (random - 0.5) * 0.05 }

  /** The schedule counts as live when its lowercase form includes "live" or "now". */
  predicate IsLiveSchedule(schedule: string) {
    Contains(ToLower(schedule), "live") || Contains(ToLower(schedule), "now")
  }

  /** The place a publication adds to the map: the form's fields, the Paris jitter and the full rating. */
  function NewPlace(form: PublishForm, id: string, randomLat: real, randomLng: real): (r: Place)
    ensures r.id == id && r.name == form.title && r.description == form.description
    ensures |r.address| == |"Custom Location • "| + |form.schedule|
    ensures IsPrefix("Custom Location • ", r.address) && r.address[|"Custom Location • "|..] == form.schedule
    ensures r.category == Entertainment && r.rating == 5.0
    ensures |r.tags| == 3 && r.tags[0] == "User Content" && r.tags[2] == form.category
    ensures 0.0 <= randomLat < 1.0 ==> 48.8316 <= r.coordinates.lat < 48.8816
    ensures 0.0 <= randomLng < 1.0 ==> 2.3272 <= r.coordinates.lng < 2.3772
  {
    Place(
      id, form.title, "Custom Location • " + form.schedule, form.description, Entertainment,
      Coordinates(JitterLat(randomLat), JitterLng(randomLng)),
      "0 km (You)", ImageUrl(id), 5.0,
      ["User Content", ContentTypeName(form.contentType), form.category])
  }

  /** The event a publication adds to the feed: live and "Just Started" exactly when the schedule says so. */
  function NewEvent(form: PublishForm, id: string): (r: Event)
    ensures r.id == id && r.title == form.title && r.category == form.category
    ensures r.locationName == "My Current Location"
    ensures r.status == LIVE <==> IsLiveSchedule(form.schedule)
    ensures r.startTime == (if r.status == LIVE then "Just Started" else form.schedule)
    ensures forall lat, lng :: r.imageUrl == NewPlace(form, id, lat, lng).imageUrl
  {
    var live := IsLiveSchedule(form.schedule);
    Event(
      id, form.title, "My Current Location", "0 km",
      if live then "Just Started" else form.schedule,
      if live then LIVE else UPCOMING,
      ImageUrl(id), form.category)
  }

  // ---------------------------------------------------------------------------
  // Transitions
  // ---------------------------------------------------------------------------

  /**
   * The state after one callback. Each field is changed only by the callbacks
   * that set it; publishing adds exactly one place at the end and one event at
   * the head.
   */
  function Reduce(s: ViewState, a: Action): (r: ViewState)
    ensures !a.Publish? ==> r.places == s.places && r.events == s.events
    ensures a.Publish? ==> |r.places| == |s.places| + 1 && r.places[..|s.places|] == s.places
    ensures a.Publish? ==> |r.events| == |s.events| + 1 && r.events[1..] == s.events
    ensures r.arMode != s.arMode <==> a.ToggleAr?
    ensures r.networkFilter != s.networkFilter ==> a.ToggleFilter?
    ensures r.searchQuery != s.searchQuery ==> a.FilterEvents?
    ensures r.currentTab != s.currentTab ==> a.TabChange? || a.Publish?
    ensures r.selectedPlaceId != s.selectedPlaceId ==> a.TabChange? || a.SelectPlace? || a.SelectCluster? || a.CompletePublish?
    ensures r.selectedCluster != s.selectedCluster ==> a.TabChange? || a.SelectPlace? || a.SelectCluster?
  {
    match a
    case TabChange(tab) =>
      if tab != MAP then s.(currentTab := tab, selectedPlaceId := None, selectedCluster := None)
      else s.(currentTab := tab)
    case SelectPlace(id) =>
      if Truthy(id) then s.(selectedPlaceId := id, selectedCluster := None)
      else s.(selectedPlaceId := id)
    case SelectCluster(cluster) =>
      if cluster.Some? then s.(selectedCluster := cluster, selectedPlaceId := None)
      else s.(selectedCluster := cluster)
    case ToggleAr => s.(arMode := !s.arMode)
    case ToggleFilter(filter) => s.(networkFilter := filter)
    case FilterEvents(query) => s.(searchQuery := query)
    case Publish(form, now, rLat, rLng) =>
      var id := PublishId(now);
      s.(places := s.places + [NewPlace(form, id, rLat, rLng)],
         events := [NewEvent(form, id)] + s.events,
         currentTab := MAP)
    case CompletePublish(newId) => s.(selectedPlaceId := Some(newId))
  }

  /** The state after a sequence of callbacks, first to last. */
  function Run(s: ViewState, acts: seq<Action>): ViewState
    decreases |acts|
  {
    if acts == [] then s else Run(Reduce(s, acts[0]), acts[1..])
  }

  // ---------------------------------------------------------------------------
  // Derived views
  // ---------------------------------------------------------------------------

  /** The index of the first place with the given id. */
  function FindIndex(ps: seq<Place>, id: string): (r: Option<nat>)
    ensures r.Some? ==> r.value < |ps| && ps[r.value].id == id
    ensures r.Some? ==> forall k :: 0 <= k < r.value ==> ps[k].id != id
    ensures r.None? ==> forall k :: 0 <= k < |ps| ==> ps[k].id != id
    decreases |ps|
  {
    if ps == [] then None
    else if ps[0].id == id then Some(0)
    else match FindIndex(ps[1..], id)
      case None => None
      case Some(i) => Some(i + 1)
  }

  /** `places.find(p => p.id === selectedPlaceId) || null`. */
  function FindPlace(ps: seq<Place>, selected: Option<string>): (r: Option<Place>)
    ensures r.Some? <==> selected.Some? && exists k :: 0 <= k < |ps| && ps[k].id == selected.value
    ensures r.Some? ==> exists i :: 0 <= i < |ps| && ps[i] == r.value && r.value.id == selected.value
                                   && forall k :: 0 <= k < i ==> ps[k].id != selected.value
  {
    match selected
    case None => None
    case Some(id) =>
      match FindIndex(ps, id)
      case None => None
      case Some(i) => Some(ps[i])
  }

  function SelectedPlace(s: ViewState): Option<Place> {
    FindPlace(s.places, s.selectedPlaceId)
  }

  /** An event matches when its lowercased title or location includes the lowercased query. */
  predicate Matches(e: Event, query: string) {
    Contains(ToLower(e.title), ToLower(query)) || Contains(ToLower(e.locationName), ToLower(query))
  }

  /** `events.filter(...)` with the search query. */
  function FilterEventsBy(evs: seq<Event>, query: string): (r: seq<Event>)
    ensures |r| <= |evs|
    ensures forall e :: e in r <==> e in evs && Matches(e, query)
    decreases |evs|
  {
    if evs == [] then []
    else (if Matches(evs[0], query) then [evs[0]] else []) + FilterEventsBy(evs[1..], query)
  }

  function ExposedEvents(s: ViewState): seq<Event> {
    FilterEventsBy(s.events, s.searchQuery)
  }

  // ---------------------------------------------------------------------------
  // Selection rules
  // ---------------------------------------------------------------------------

  /** The map never shows a selected place and an open cluster list together. */
  predicate Exclusive(s: ViewState) {
    !(Truthy(s.selectedPlaceId) && s.selectedCluster.Some?)
  }

  /** A truthy id selects that place and closes the cluster; any other id only replaces the selection. */
  lemma SelectPlaceRule(s: ViewState, id: Option<string>)
    ensures var r := Reduce(s, SelectPlace(id));
      && r.selectedPlaceId == id
      && (Truthy(id) ==> r.selectedCluster == None)
      && (!Truthy(id) ==> r.selectedCluster == s.selectedCluster)
      && r.(selectedPlaceId := s.selectedPlaceId, selectedCluster := s.selectedCluster) == s
  {
  }

  /** A list (even an empty one) opens and clears the place; null only closes the list. */
  lemma SelectClusterRule(s: ViewState, cluster: Option<seq<Place>>)
    ensures var r := Reduce(s, SelectCluster(cluster));
      && r.selectedCluster == cluster
      && (cluster.Some? ==> r.selectedPlaceId == None)
      && (cluster.None? ==> r.selectedPlaceId == s.selectedPlaceId)
      && r.(selectedPlaceId := s.selectedPlaceId, selectedCluster := s.selectedCluster) == s
  {
  }

  /** Leaving the map closes both selections; switching to the map keeps them. */
  lemma TabChangeRule(s: ViewState, tab: NavTab)
    ensures var r := Reduce(s, TabChange(tab));
      && r.currentTab == tab
      && (tab != MAP ==> r.selectedPlaceId == None && r.selectedCluster == None && SelectedPlace(r) == None)
      && (tab == MAP ==> r.selectedPlaceId == s.selectedPlaceId && r.selectedCluster == s.selectedCluster)
      && r.(currentTab := s.currentTab, selectedPlaceId := s.selectedPlaceId, selectedCluster := s.selectedCluster) == s
  {
  }

  /** The two toggles and the search box each change their one field. */
  lemma SettingsRule(s: ViewState, f: NetworkFilter, q: string)
    ensures Reduce(s, ToggleAr).(arMode := s.arMode) == s && Reduce(s, ToggleAr).arMode != s.arMode
    ensures Reduce(s, ToggleFilter(f)) == s.(networkFilter := f)
    ensures Reduce(s, FilterEvents(q)) == s.(searchQuery := q)
  {
  }

  /** Toggling AR mode twice restores the state. */
  lemma ToggleArTwice(s: ViewState)
    ensures Reduce(Reduce(s, ToggleAr), ToggleAr) == s
  {
  }

  /** Every callback but the AR toggle and publishing has the same effect when repeated. */
  lemma RepeatIsIdempotent(s: ViewState, a: Action)
    requires !a.ToggleAr? && !a.Publish?
    ensures Reduce(Reduce(s, a), a) == Reduce(s, a)
  {
  }

  /** Every step except the delayed selection of a published place keeps the exclusion. */
  lemma ReduceKeepsExclusive(s: ViewState, a: Action)
    requires Exclusive(s)
    requires !a.CompletePublish?
    ensures Exclusive(Reduce(s, a))
  {
  }

  /** The delayed selection keeps the exclusion exactly when no cluster list is open. */
  lemma CompletePublishExclusive(s: ViewState, now: nat)
    ensures Exclusive(Reduce(s, CompletePublish(PublishId(now)))) <==> s.selectedCluster.None?
  {
    assert PublishId(now)[0] == 'n';
  }

  /** Any run of callbacks without a delayed selection keeps the exclusion. */
  lemma {:induction false} RunKeepsExclusive(s: ViewState, acts: seq<Action>)
    requires Exclusive(s)
    requires forall k :: 0 <= k < |acts| ==> !acts[k].CompletePublish?
    ensures Exclusive(Run(s, acts))
    decreases |acts|
  {
    if acts != [] {
      ReduceKeepsExclusive(s, acts[0]);
      assert forall k :: 0 <= k < |acts| - 1 ==> acts[1..][k] == acts[k + 1];
      RunKeepsExclusive(Reduce(s, acts[0]), acts[1..]);
    }
  }

  /** The exclusion holds in every state reached from the initial one by such runs. */
  lemma ReachableExclusive(mockPlaces: seq<Place>, mockEvents: seq<Event>, acts: seq<Action>)
    requires forall k :: 0 <= k < |acts| ==> !acts[k].CompletePublish?
    ensures Exclusive(Run(Initial(mockPlaces, mockEvents), acts))
  {
    RunKeepsExclusive(Initial(mockPlaces, mockEvents), acts);
  }

  /** Opening a cluster within 500 ms of publishing ends with both a place and a cluster selected. */
  lemma ClusterDuringPublishDelay(s: ViewState, form: PublishForm, now: nat, rLat: real, rLng: real, c: seq<Place>)
    ensures var r := Run(s, [Publish(form, now, rLat, rLng), SelectCluster(Some(c)), CompletePublish(PublishId(now))]);
      r.selectedPlaceId == Some(PublishId(now)) && r.selectedCluster == Some(c) && !Exclusive(r)
  {
    var acts := [Publish(form, now, rLat, rLng), SelectCluster(Some(c)), CompletePublish(PublishId(now))];
    var s1 := Reduce(s, acts[0]);
    var s2 := Reduce(s1, acts[1]);
    var s3 := Reduce(s2, acts[2]);
    assert acts[1..][1..][1..] == [];
    assert Run(s, acts) == Run(s1, acts[1..]) == Run(s2, acts[1..][1..]) == Run(s3, []);
    assert PublishId(now)[0] == 'n';
  }

  /** Exclusion stated on non-null values does not hold: `selectPlace("")` keeps an open cluster. */
  lemma EmptyIdKeepsCluster(s: ViewState)
    requires s.selectedCluster.Some?
    ensures var r := Reduce(s, SelectPlace(Some("")));
      r.selectedPlaceId.Some? && r.selectedCluster.Some? && Exclusive(r)
  {
  }

  // ---------------------------------------------------------------------------
  // Publishing
  // ---------------------------------------------------------------------------

  /** The new place goes to the end of the list, the new event to the top of the feed, and the map opens. */
  lemma PublishRule(s: ViewState, form: PublishForm, now: nat, rLat: real, rLng: real)
    ensures var r := Reduce(s, Publish(form, now, rLat, rLng));
      && |r.places| == |s.places| + 1 && r.places[..|s.places|] == s.places
      && |r.events| == |s.events| + 1 && r.events[1..] == s.events
      && r.places[|s.places|].id == r.events[0].id == PublishId(now)
      && r.places[|s.places|].imageUrl == r.events[0].imageUrl
      && r.places[|s.places|].name == r.events[0].title == form.title
      && r.currentTab == MAP
      && r.(places := s.places, events := s.events, currentTab := s.currentTab) == s
  {
  }

  /** Two publications at different times get different ids. */
  lemma PublishIdsDiffer(t1: nat, t2: nat)
    requires t1 != t2
    ensures PublishId(t1) != PublishId(t2)
  {
    assert PublishId(t1)[4..] == Decimal(t1);
    assert PublishId(t2)[4..] == Decimal(t2);
    DecimalInjective(t1, t2);
  }

  /** The jittered position stays within 0.025 degrees of the Paris anchor. */
  lemma JitterBounds(rLat: real, rLng: real)
    requires 0.0 <= rLat < 1.0 && 0.0 <= rLng < 1.0
    ensures 48.8316 <= JitterLat(rLat) < 48.8816
    ensures 2.3272 <= JitterLng(rLng) < 2.3772
  {
  }

  /** The new event is live, with start "Just Started", exactly when the schedule says so; otherwise it is upcoming at the schedule. */
  lemma PublishedStatus(form: PublishForm, id: string)
    ensures NewEvent(form, id).status == LIVE <==> IsLiveSchedule(form.schedule)
    ensures NewEvent(form, id).status == LIVE ==> NewEvent(form, id).startTime == "Just Started"
    ensures NewEvent(form, id).status != LIVE ==>
      NewEvent(form, id).status == UPCOMING && NewEvent(form, id).startTime == form.schedule
  {
  }

  /** The liveness test ignores letter case. */
  lemma LiveIgnoresCase(schedule: string)
    ensures IsLiveSchedule(ToUpper(schedule)) == IsLiveSchedule(schedule)
  {
    ToLowerOfUpper(schedule);
  }

  /** The test is a substring match: "Unknown" counts as live because it includes "now". */
  lemma UnknownCountsAsLive()
    ensures IsLiveSchedule("Unknown")
  {
    var low := ToLower("Unknown");
    assert low == "unknown";
    assert OccursAt(low, "now", 3);
    ContainsIffOccurs(low, "now");
  }

  /** A schedule with no letter l or n in either case, such as a date, is upcoming at that schedule. */
  lemma WithoutLiveLettersIsUpcoming(schedule: string)
    requires forall i :: 0 <= i < |schedule| ==>
      schedule[i] != 'l' && schedule[i] != 'L' && schedule[i] != 'n' && schedule[i] != 'N'
    ensures !IsLiveSchedule(schedule)
  {
    var low := ToLower(schedule);
    assert forall i :: 0 <= i < |low| ==> low[i] != 'l' && low[i] != 'n';
    MissingFirstCharNotContained(low, "live");
    MissingFirstCharNotContained(low, "now");
  }

  /** Once the timer fires, the selected place is the published one (when its id is new). */
  lemma PublishThenSelect(s: ViewState, form: PublishForm, now: nat, rLat: real, rLng: real)
    requires forall k :: 0 <= k < |s.places| ==> s.places[k].id != PublishId(now)
    ensures var r := Reduce(Reduce(s, Publish(form, now, rLat, rLng)), CompletePublish(PublishId(now)));
      SelectedPlace(r) == Some(NewPlace(form, PublishId(now), rLat, rLng))
  {
    var np := NewPlace(form, PublishId(now), rLat, rLng);
    var ps := s.places + [np];
    assert ps[|s.places|] == np;
    var i := FindIndex(ps, PublishId(now));
    assert i == Some(|s.places|);
  }

  // ---------------------------------------------------------------------------
  // Search
  // ---------------------------------------------------------------------------

  /** Filtering distributes over concatenation, so the feed keeps its order. */
  lemma {:induction false} FilterAppend(a: seq<Event>, b: seq<Event>, q: string)
    ensures FilterEventsBy(a + b, q) == FilterEventsBy(a, q) + FilterEventsBy(b, q)
    decreases |a|
  {
    if a == [] {
      assert a + b == b;
    } else {
      assert (a + b)[1..] == a[1..] + b;
      FilterAppend(a[1..], b, q);
    }
  }

  /** Filtering twice with the same query is filtering once. */
  lemma {:induction false} FilterIdempotent(evs: seq<Event>, q: string)
    ensures FilterEventsBy(FilterEventsBy(evs, q), q) == FilterEventsBy(evs, q)
    decreases |evs|
  {
    if evs != [] {
      var head := if Matches(evs[0], q) then [evs[0]] else [];
      FilterAppend(head, FilterEventsBy(evs[1..], q), q);
      FilterIdempotent(evs[1..], q);
      if Matches(evs[0], q) {
        assert FilterEventsBy([evs[0]], q) == [evs[0]] + FilterEventsBy([], q);
      }
    }
  }

  /** An empty search shows the whole feed. */
  lemma {:induction false} EmptyQueryKeepsAll(evs: seq<Event>)
    ensures FilterEventsBy(evs, "") == evs
    decreases |evs|
  {
    if evs != [] {
      assert ToLower("") == "";
      ContainsEmpty(ToLower(evs[0].title));
      EmptyQueryKeepsAll(evs[1..]);
    }
  }

  /** The search ignores the letter case of the query. */
  lemma {:induction false} QueryIgnoresCase(evs: seq<Event>, q: string)
    ensures FilterEventsBy(evs, ToUpper(q)) == FilterEventsBy(evs, q)
    decreases |evs|
  {
    ToLowerOfUpper(q);
    if evs != [] {
      QueryIgnoresCase(evs[1..], q);
    }
  }

  /** A query typed in lowercase finds the same events as the query itself. */
  lemma {:induction false} QueryLowercasedSame(evs: seq<Event>, q: string)
    ensures FilterEventsBy(evs, ToLower(q)) == FilterEventsBy(evs, q)
    decreases |evs|
  {
    ToLowerIdempotent(q);
    if evs != [] {
      QueryLowercasedSame(evs[1..], q);
    }
  }

  /** The new event is searchable like any other: it heads the feed exactly when it matches. */
  lemma PublishedEventInFeed(s: ViewState, form: PublishForm, now: nat, rLat: real, rLng: real)
    ensures var r := Reduce(s, Publish(form, now, rLat, rLng));
      ExposedEvents(r) ==
        (if Matches(NewEvent(form, PublishId(now)), s.searchQuery) then [NewEvent(form, PublishId(now))] else [])
        + ExposedEvents(s)
  {
    var e := NewEvent(form, PublishId(now));
    var r := Reduce(s, Publish(form, now, rLat, rLng));
    assert r.events == [e] + s.events && r.searchQuery == s.searchQuery;
    FilterAppend([e], s.events, s.searchQuery);
    assert FilterEventsBy([e], s.searchQuery) == (if Matches(e, s.searchQuery) then [e] else []) + FilterEventsBy([], s.searchQuery);
  }

  // ---------------------------------------------------------------------------
  // The hook as an object
  // ---------------------------------------------------------------------------

  /** The hook's state variables, updated in place by its callbacks. */
  class ViewModel {
    var currentTab: NavTab
    var selectedPlaceId: Option<string>
    var selectedCluster: Option<seq<Place>>
    var searchQuery: string
    var arMode: bool
    var networkFilter: NetworkFilter
    var places: seq<Place>
    var events: seq<Event>

    function State(): ViewState
      reads this
    {
      ViewState(currentTab, selectedPlaceId, selectedCluster, searchQuery, arMode, networkFilter, places, events)
    }

    constructor (mockPlaces: seq<Place>, mockEvents: seq<Event>)
      ensures State() == Initial(mockPlaces, mockEvents)
      ensures Exclusive(State())
    {
      currentTab := MAP;
      selectedPlaceId := None;
      selectedCluster := None;
      searchQuery := "";
      arMode := false;
      networkFilter := ALL;
      places := mockPlaces;
      events := mockEvents;
    }

    method HandleTabChange(tab: NavTab)
      modifies this
      ensures State() == Reduce(old(State()), TabChange(tab))
    {
      currentTab := tab;
      if tab != MAP {
        selectedPlaceId := None;
        selectedCluster := None;
      }
    }

    method SelectPlace(id: Option<string>)
      modifies this
      ensures State() == Reduce(old(State()), Action.SelectPlace(id))
    {
      selectedPlaceId := id;
      if id.Some? && id.value != "" {
        selectedCluster := None;
      }
    }

    method SelectCluster(cluster: Option<seq<Place>>)
      modifies this
      ensures State() == Reduce(old(State()), Action.SelectCluster(cluster))
    {
      selectedCluster := cluster;
      if cluster.Some? {
        selectedPlaceId := None;
      }
    }

    method ToggleArMode()
      modifies this
      ensures State() == Reduce(old(State()), ToggleAr)
    {
      arMode := !arMode;
    }

    method ToggleNetworkFilter(filter: NetworkFilter)
      modifies this
      ensures State() == Reduce(old(State()), ToggleFilter(filter))
    {
      networkFilter := filter;
    }

    method FilterEvents(query: string)
      modifies this
      ensures State() == Reduce(old(State()), Action.FilterEvents(query))
    {
      searchQuery := query;
    }

    /** Publishes the form; returns the id the 500 ms timer will select. */
    method PublishEvent(form: PublishForm, now: nat, randomLat: real, randomLng: real) returns (pendingId: string)
      modifies this
      ensures State() == Reduce(old(State()), Publish(form, now, randomLat, randomLng))
      ensures pendingId == PublishId(now)
    {
      pendingId := "new_" + Decimal(now);
      var newPlace := NewPlace(form, pendingId, randomLat, randomLng);
      var newEvent := NewEvent(form, pendingId);
      places := places + [newPlace];
      events := [newEvent] + events;
      currentTab := MAP;
    }

    /** The timer callback of `publishEvent`. */
    method CompletePublish(id: string)
      modifies this
      ensures State() == Reduce(old(State()), Action.CompletePublish(id))
    {
      selectedPlaceId := Some(id);
    }
  }
}
