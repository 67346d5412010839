# Holographic map and AR viewer: a verified model of its core logic

The application shows places of interest on a rotating holographic globe. It
also offers a feed of events, a form that publishes a new event, and an AR
screen that floats markers in front of the camera. This project models the
three pieces of the application that hold real logic. It proves what they promise.

- **Globe clustering** (`holographic_globe.dfy`, `clustering_reference.dfy`).
  - Each place is projected from latitude and longitude onto a sphere of radius 2.05.
  - One greedy pass with a set of processed ids turns every unprocessed place into a seed.
  - The seed absorbs every other unprocessed place whose projected distance is strictly below 0.15.
  - Each group becomes a single pin or a cluster badge.
  - The pass is an imperative method with nested loops (`ClusterMarkers`). It is proved equal to a
    tail-recursive specification that mirrors the loops.
  - For all inputs, it is proved to partition the ids of the places into well-formed markers.
  - For places with distinct ids, it is also proved equal to a front-recursive reference (`Greedy`).
  - Through that reference, the members are shown to be a permutation of the input. The order of
    seeds and of members follows the input.
  - Scenario lemmas pin down the strict threshold, the merge that only compares to the seed, the
    dependence on input order, and what happens to a repeated id.
  - The pins and badges of the scene, and what a click on each reports, are a function of the
    markers. At most one pin is ever highlighted.
- **The application view model** (`app_view_model.dfy`).
  - The state is the tab, the selected place id, the open cluster list, the search query, the AR
    switch, the network filter, and the lists of places and events.
  - Every callback is one transition of `Reduce`. The class `ViewModel` keeps the same state in
    fields, and each of its methods performs exactly that transition.
  - A truthy place id and an open cluster list exclude each other. This holds along every run of
    callbacks from the initial state.
  - The one exception is the delayed selection that follows a publication. An if-and-only-if lemma
    gives exactly when it breaks the exclusion, and a three-step run shows it happening.
  - Two views are derived: the selected place and the searched feed.
  - Publishing is specified field by field: the new place, the new event, their shared id, a live
    or upcoming status, and the position jitter.
- **The AR screen** (`ar_view.dfy`).
  - Each marker is a class whose per-frame method records the camera distance. The marker becomes
    far only beyond 12, and its scale is reset to 1 in both tiers.
  - Exactly one representation, the card or the beacon, is shown at a time.
  - The layout of the markers is proved: one per place, in order, on a plane, with strictly
    increasing radii.
  - The compass normalisation is brought into [0, 360). The far label and the distance readout are
    also modelled.

Shared pieces:
- `types.dfy` holds the records of the application.
- `geometry.dfy` holds points and the `MathHost`. This value carries the host's `Math.sin`,
  `Math.cos` and `Vector3.distanceTo` as arbitrary functions, so every property proved holds
  whatever they compute.
- `text.dfy` holds lowercase and uppercase conversion, substring search and decimal rendering.

Points where the code's behaviour is easy to misread:

- **AR tier.** The tier test is `dist > 12`, so a marker at exactly 12 is near
  (`ARView.ARMarker.Frame`).
- **Repeated ids.** Clustering keeps a set of processed ids, so a place whose id repeats an earlier
  one gets no marker at all (`RepeatedIdIsDropped`). For all inputs the partition is stated over
  ids. As a multiset it holds under distinct ids.
- **Selection exclusion: empty id.** The cluster is cleared only for a truthy id, so
  `selectPlace("")` keeps an open cluster list (`EmptyIdKeepsCluster`).
- **Selection exclusion: delayed select.** The delayed selection after publishing does not clear
  the cluster either (`ClusterDuringPublishDelay`). The exclusion is stated on a truthy id.

## Model

| member | source | states |
|---|---|---|
| HolographicGlobe.Project | components/3d/HolographicGlobe.tsx:41-48 | the point lies in the meridian plane of its longitude, and its height is radius·cos of the polar angle whatever the longitude |
| HolographicGlobe.ProjectAxisDistance | components/3d/HolographicGlobe.tsx:44-45 | the point's distance from the polar axis is radius·sin of the polar angle, scaled by the host's cos² + sin² at the azimuth |
| HolographicGlobe.ProjectOnSphere | components/3d/HolographicGlobe.tsx:41-48 | when sin² + cos² = 1 at both angles, the projected point lies on the sphere of the given radius |
| HolographicGlobe.ProjectHalfTurn | components/3d/HolographicGlobe.tsx:41-48 | adding 180° of longitude negates x and z and keeps y, given that sin and cos change sign over a half turn |
| HolographicGlobe.ProjectNorthPole | components/3d/HolographicGlobe.tsx:41-48 | at latitude 90 every longitude projects to (0, r, 0) |
| HolographicGlobe.ClusterMarkers | components/3d/HolographicGlobe.tsx:208-250 | the nested-loop pass returns the markers of its specification and those markers partition the input |
| HolographicGlobe.MarkersPartition | components/3d/HolographicGlobe.tsx:208-250 | for every input: each marker is well formed (a single iff one member, first member is the seed, id `cluster-`+seed id or the seed id, position the seed's projection at 2.05, every other member strictly within 0.15 of the seed and with another id); no more markers than places; member ids distinct; member ids equal the input ids; members come from the input |
| HolographicGlobe.RenderMarkers | components/3d/HolographicGlobe.tsx:262-284 | one view per marker in order, a pin exactly for a single; key and position from the marker; a pin is selected iff the selected id equals its place id and its click reports that id; a badge counts the members and its click reports the member list |
| HolographicGlobe.AtMostOnePinSelected | components/3d/HolographicGlobe.tsx:262-284 | for every input and selection, no two pins of the globe are highlighted |
| ClusteringReference.Near | components/3d/HolographicGlobe.tsx:225-230 | the places strictly within the threshold of the seed, no more than given |
| ClusteringReference.Far | components/3d/HolographicGlobe.tsx:225-230 | the places at or beyond the threshold of the seed, no more than given |
| ClusteringReference.MarkersAreGreedy | components/3d/HolographicGlobe.tsx:208-250 | for places with distinct ids the pass equals first-contact greedy grouping: seed plus its near places, then the far remainder |
| ClusteringReference.MarkersArePermutation | components/3d/HolographicGlobe.tsx:208-250 | for places with distinct ids, the members of all markers are a permutation of the input |
| ClusteringReference.MarkersKeepOrder | components/3d/HolographicGlobe.tsx:213-231 | for places with distinct ids, each group is a subsequence of the input and the seeds appear in input order |
| ClusteringReference.MarkersFirstContact | components/3d/HolographicGlobe.tsx:213-231 | the first place seeds the first group, which holds exactly the places within 0.15 of it; the remaining markers are the grouping of the places outside the threshold |
| ClusteringReference.NoPlacesNoMarkers | components/3d/HolographicGlobe.tsx:208-250 | no places give no markers |
| ClusteringReference.OnePlaceOneSingle | components/3d/HolographicGlobe.tsx:233-247 | one place gives exactly one single at its own projection |
| ClusteringReference.ThresholdIsStrict | components/3d/HolographicGlobe.tsx:211-227 | two places exactly 0.15 apart stay two singles; closer than that, they form one cluster named after the first |
| ClusteringReference.TwoCloseOneFar | components/3d/HolographicGlobe.tsx:208-250 | two places within 0.1 and a third more than 1 away give one cluster of two and one single |
| ClusteringReference.ClusterNotTransitive | components/3d/HolographicGlobe.tsx:221-231 | two places near the seed but not near each other both join the seed's cluster |
| ClusteringReference.GroupingDependsOnOrder | components/3d/HolographicGlobe.tsx:213-231 | the same three places group differently when the input order changes |
| ClusteringReference.RepeatedIdIsDropped | components/3d/HolographicGlobe.tsx:214-222 | a second place with an id already seen gets no marker |
| Text.ToUpper | views/ARView.tsx:201 | same length, each ASCII lowercase letter raised and every other character kept |
| Text.ToLower | viewmodels/useAppViewModel.ts:114-117 | same length, each character lowered |
| Text.ToLowerOfUpper | viewmodels/useAppViewModel.ts:88 | lowering an uppercased string is lowering the string |
| Text.ContainsIffOccurs | viewmodels/useAppViewModel.ts:114-117 | `includes` holds iff the pattern occurs at some position |
| Text.DecimalRoundTrip | viewmodels/useAppViewModel.ts:66 | reading back the decimal rendering of a timestamp gives the timestamp |
| AppViewModel.FindPlace | viewmodels/useAppViewModel.ts:20 | a place is found iff an id is selected and some place has it; the result is the first place with that id |
| AppViewModel.FilterEventsBy | viewmodels/useAppViewModel.ts:114-117 | an event is kept iff its lowercased title or location includes the lowercased query |
| AppViewModel.FilterAppend | viewmodels/useAppViewModel.ts:114-117 | filtering distributes over concatenation, so the feed keeps its order |
| AppViewModel.FilterIdempotent | viewmodels/useAppViewModel.ts:114-117 | filtering twice equals filtering once |
| AppViewModel.EmptyQueryKeepsAll | viewmodels/useAppViewModel.ts:114-117 | an empty query keeps every event |
| AppViewModel.QueryLowercasedSame | viewmodels/useAppViewModel.ts:114-117 | a query lowercased beforehand selects the same events |
| AppViewModel.QueryIgnoresCase | viewmodels/useAppViewModel.ts:114-117 | an uppercased query selects the same events |
| AppViewModel.Reduce | viewmodels/useAppViewModel.ts:22-111 | one callback's transition: each field changes only under the callbacks that set it, the AR flag changes exactly on its toggle, and publishing adds exactly one place at the end and one event at the head, leaving the rest of both lists |
| AppViewModel.SelectPlaceRule | viewmodels/useAppViewModel.ts:30-36 | the id is stored; a truthy id closes the cluster list, null or "" leaves it; nothing else changes |
| AppViewModel.SelectClusterRule | viewmodels/useAppViewModel.ts:38-44 | the list is stored; any list (even empty) clears the place, null leaves it; nothing else changes |
| AppViewModel.TabChangeRule | viewmodels/useAppViewModel.ts:22-28 | the tab is stored; a non-map tab clears both selections so no place is selected; the map tab keeps them; nothing else changes |
| AppViewModel.SettingsRule | viewmodels/useAppViewModel.ts:46-56 | the AR toggle flips only the AR switch; the filter and the query change only their own field |
| AppViewModel.ToggleArTwice | viewmodels/useAppViewModel.ts:46-48 | toggling AR twice restores the state |
| AppViewModel.RepeatIsIdempotent | viewmodels/useAppViewModel.ts:22-56 | repeating any callback other than the AR toggle and publishing changes nothing more |
| AppViewModel.ReduceKeepsExclusive | viewmodels/useAppViewModel.ts:22-56 | every callback keeps "not a truthy place id and an open cluster list at once" |
| AppViewModel.RunKeepsExclusive | viewmodels/useAppViewModel.ts:9-112 | any run of callbacks without the delayed selection keeps the exclusion |
| AppViewModel.ReachableExclusive | viewmodels/useAppViewModel.ts:9-18 | the exclusion holds in every state reached from the initial state by such runs |
| AppViewModel.CompletePublishExclusive | viewmodels/useAppViewModel.ts:111 | the delayed selection keeps the exclusion iff no cluster list is open |
| AppViewModel.ClusterDuringPublishDelay | viewmodels/useAppViewModel.ts:105-111 | publishing, opening a cluster and then the timer leaves both the new id and the cluster selected |
| AppViewModel.EmptyIdKeepsCluster | viewmodels/useAppViewModel.ts:30-36 | `selectPlace("")` stores a non-null id while an open cluster list stays open |
| AppViewModel.NewPlace | viewmodels/useAppViewModel.ts:74-86 | the published place carries the given id, the form's title, description and category, the address `Custom Location • <schedule>`, the Entertainment category and rating 5, and coordinates within 0.025 of (48.8566, 2.3522) for draws in [0, 1) |
| AppViewModel.NewEvent | viewmodels/useAppViewModel.ts:88-102 | the published event carries the given id, title and category, is live exactly when the lowercased schedule includes live or now, starts "Just Started" when live and at the schedule otherwise, and shares the place's image |
| AppViewModel.PublishRule | viewmodels/useAppViewModel.ts:66-109 | the new place is appended and the new event prepended, both with id `new_<timestamp>` and the same image and title; the tab becomes the map; nothing else changes |
| AppViewModel.PublishIdsDiffer | viewmodels/useAppViewModel.ts:66 | publications at different timestamps get different ids |
| AppViewModel.JitterBounds | viewmodels/useAppViewModel.ts:71-72 | for random draws in [0, 1) the new place lies within 0.025 degrees of (48.8566, 2.3522) |
| AppViewModel.PublishedStatus | viewmodels/useAppViewModel.ts:88-102 | the new event is live iff the lowercased schedule includes "live" or "now", then starting "Just Started"; otherwise upcoming at the schedule |
| AppViewModel.LiveIgnoresCase | viewmodels/useAppViewModel.ts:88 | an uppercased schedule has the same status |
| AppViewModel.UnknownCountsAsLive | viewmodels/useAppViewModel.ts:88 | the schedule "Unknown" counts as live because it includes "now" |
| AppViewModel.WithoutLiveLettersIsUpcoming | viewmodels/useAppViewModel.ts:88-90 | a schedule without the letters l and n, such as a date, is upcoming |
| AppViewModel.PublishThenSelect | viewmodels/useAppViewModel.ts:105-111 | when the new id is fresh, after the timer the selected place is the published place |
| AppViewModel.PublishedEventInFeed | viewmodels/useAppViewModel.ts:105-117 | after publishing, the feed is the new event (if it matches the query) followed by the previous feed |
| AppViewModel.ViewModel.constructor | viewmodels/useAppViewModel.ts:9-18 | the hook starts on the map, nothing selected, empty query, AR off, filter ALL, with the given lists |
| AppViewModel.ViewModel.HandleTabChange | viewmodels/useAppViewModel.ts:22-28 | the fields change as the tab transition says |
| AppViewModel.ViewModel.SelectPlace | viewmodels/useAppViewModel.ts:30-36 | the fields change as the place-selection transition says |
| AppViewModel.ViewModel.SelectCluster | viewmodels/useAppViewModel.ts:38-44 | the fields change as the cluster-selection transition says |
| AppViewModel.ViewModel.ToggleArMode | viewmodels/useAppViewModel.ts:46-48 | the fields change as the AR toggle says |
| AppViewModel.ViewModel.ToggleNetworkFilter | viewmodels/useAppViewModel.ts:50-52 | the fields change as the filter transition says |
| AppViewModel.ViewModel.FilterEvents | viewmodels/useAppViewModel.ts:54-56 | the fields change as the query transition says |
| AppViewModel.ViewModel.PublishEvent | viewmodels/useAppViewModel.ts:59-109 | the fields change as publishing says; returns the id the timer will select |
| AppViewModel.ViewModel.CompletePublish | viewmodels/useAppViewModel.ts:111 | the timer stores the published id and nothing else |
| ARView.ARMarker.constructor | views/ARView.tsx:65-66 | a marker starts at distance 0 in the far tier, showing the beacon, at unit scale |
| ARView.ARMarker.Shown | views/ARView.tsx:101-184 | exactly one representation is shown: the card iff near, the beacon iff far |
| ARView.ARMarker.SetPosition | views/ARView.tsx:662-666 | a re-render moves the mounted marker to its new layout position and keeps distance, tier, scale and what is shown until the next frame |
| ARView.ARMarker.Frame | views/ARView.tsx:69-89 | once mounted, the camera distance is stored, the tier is far iff the distance exceeds 12 (so 12 is near) and the scale is 1 whatever the tier; before that nothing changes |
| ARView.ArLayout | views/ARView.tsx:448-463 | one marker per place, in order, carrying the place |
| ARView.LayoutRadiiIncrease | views/ARView.tsx:451-452 | later markers have strictly larger base radius and strictly smaller z |
| ARView.LayoutOnPlane | views/ARView.tsx:451-459 | every marker has y = 0 and z = simulated distance − base radius |
| ARView.BearingsSpanTurn | views/ARView.tsx:450 | bearings start at 0, stay in [0, 2π) and are evenly spaced |
| ARView.LayoutLateralBound | views/ARView.tsx:456-460 | with a sine in [-1, 1], a marker stands at most its base radius to the side |
| ARView.SliderShiftsAlongZ | views/ARView.tsx:452-459 | changing the simulated distance moves every marker along z by the change and nothing else |
| ARView.CompassHeading | views/ARView.tsx:227-234 | the heading is the input or the input plus 360; for inputs in [-360, 360) it is in [0, 360), and it equals a non-negative input; the offset is heading/360 × 100, the shift offset × 20, within [0, 100) and [0, 2000) |
| ARView.FarLabel | views/ARView.tsx:201 | at most 12 uppercased characters of the name followed by "..." |
| ARView.ShortNameShownWhole | views/ARView.tsx:201 | a name of at most 12 characters appears whole, uppercased |
| ARView.LabelIgnoresTail | views/ARView.tsx:201 | characters after the twelfth never reach the label |
| ARView.LabelOfUppercased | views/ARView.tsx:201 | uppercasing the name first gives the same label |
| ARView.Round | views/ARView.tsx:206 | `Math.round` of a non-negative distance is within half a unit of it |
| ARView.DistanceLabel | views/ARView.tsx:206 | the readout is the decimal digits of the rounded distance, with no leading zero, followed by "m" |

## Left out

- Trigonometry and distance: `Math.sin`, `Math.cos` and `Vector3.distanceTo` are fields of a
  `MathHost`, not computed. `atan2` and `radToDeg` are replaced by the heading they produce, the
  input of `CompassHeading`.
- Floating point: numbers are reals. Rounding error, NaN and infinities are not modelled.
- Text.ToLower and Text.ToUpper: only ASCII letters change case; JavaScript's full Unicode case
  mapping is not modelled.
- ARView.FarLabel: the slice is taken over characters, not UTF-16 code units.
- React scheduling: the setters of one callback take effect together as one step. The frame
  callback stores the new tier at once, rather than at the next render.
- The scale test in `ARView.ARMarker.Frame` reads the previous tier, as the closure does. Since
  both branches set the same scale, this does not matter.
- Timers, device APIs and randomness: `Date.now()` and the two `Math.random()` draws are
  parameters of `Publish`. The 500 ms timer is the separate step `CompletePublish`. The 150 ms
  click delay, toasts and flashes of the AR screen are not modelled. Camera and orientation
  permission flows are not modelled.
- The `useFrame` orientation (`lookAt`), the pulse animations, the compass DOM transform string,
  all JSX markup and styling are left out.
- Connection arcs and route loops: the globe scene modelled here contains no arc-building code,
  so there is nothing to model them on.
- The presentational views and the shell are not part of this model: they forward clicks and
  switch on the tab.
- The mock places and events are not part of this model. The initial lists are parameters of
  `Initial` and of the `ViewModel` constructor.
