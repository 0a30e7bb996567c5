# Warehouse management front end: verified model of its decision logic

This project models the parts of the warehouse management web front end that decide
something. The rest of the front end only lays out markup.

- **Zone list controller** (`ZoneManagement.tsx`). It keeps four pieces of view state:
  grid or list view, sort column, sort direction and search text. It shows the zone
  catalogue filtered by a case-insensitive search over name, matricule and type, then
  sorted by the chosen column with the browser's stable array sort. It also picks a
  header arrow for each column and a colour band for each zone's saturation bar.
- **Dashboard shell** (`DashboardLayout.tsx`):
  - the sidebar navigation list and title icon, chosen by dashboard type with an admin
    fallback;
  - sidebar highlighting, which matches a link's page and every page below it;
  - the mobile drawer and collapse toggles.
- **Top bar** (`Navbar.tsx`):
  - exact-match link highlighting;
  - the "Dashboards" dropdown, highlighted when one of its links is;
  - the mobile menu flag, which a route change closes;
  - the `scrolled` flag, set past 10 pixels.
- **Overview cards** (`OverviewCards.tsx`): the trend row, the trend arrow and its colour,
  and the card set for each dashboard type.
- **Button** (`custom-button.tsx`): prop defaults, the effective `disabled` attribute, the
  spinner, and which side the icon appears on.

Modules, one file each:

- `Wrappers`: `Option`.
- `Strings`: ASCII lower-casing, `includes`, `startsWith`, and a three-way lexicographic
  compare standing in for `localeCompare`.
- `Zones`: the zone record, the catalogue, the search predicate and the comparator.
- `StableSort`: a generic stable insertion sort driven by a comparator callback, with
  proofs that it:
  - returns a permutation of its input;
  - is in comparator order;
  - keeps equal-comparing elements in input order;
  - is the only output with these properties.
- `ZoneSort`: the zone comparator plugged into `StableSort`.
- `ZoneManagement`: the filter, the displayed list, the sort toggle, the indicators and
  the controller class.
- `ZoneScenarios`: the catalogue worked through concrete sorts and searches.
- `DashboardLayout`, `Navbar`, `OverviewCards` and `CustomButton`: one module per
  component.

The view modes are `grid` and `list`. The comparator returns `localeCompare`'s result or
a difference of numbers, and a descending sort swaps its operands; it does not negate the
result.

The constant tables (the zone catalogue, the four sidebar lists, the four card sets) have
no rows of their own: the rows of the lemmas about them cite their lines.

The sort field ranges over every key of the zone record, as `keyof Zone` allows. Keys
other than name, type, matricule, weight capacity and saturation compare every pair as
equal.

## Model

| member | source | states |
|---|---|---|
| Strings.ToLower | src/components/dashboard/ZoneManagement.tsx:149-152 | the folded string has the same length and no upper-case ASCII letter; `ToLowerCaseInsensitive` says which strings fold alike, and `ToLowerIdempotent` that folding twice is folding once |
| Strings.LowerCharSameIff | src/components/dashboard/ZoneManagement.tsx:149-152 | two characters fold to the same character exactly when they are equal or one is the ASCII capital of the other |
| Strings.ToLowerCaseInsensitive | src/components/dashboard/ZoneManagement.tsx:149-152 | two strings fold to the same text exactly when they have the same length and differ only in the case of ASCII letters |
| Strings.ToLowerIdempotent | src/components/dashboard/ZoneManagement.tsx:149-152 | lower-casing keeps the length, leaves no upper-case ASCII letter, and a second lower-casing changes nothing |
| Strings.Includes | src/components/dashboard/ZoneManagement.tsx:150-152 | a string that starts with the searched text includes it |
| Strings.IncludesIff | src/components/dashboard/ZoneManagement.tsx:150-152 | `includes` holds exactly when the searched text occurs at some position of the string |
| Strings.IncludesNeedsFirstChar | src/components/dashboard/ZoneManagement.tsx:150-152 | non-empty text whose first character is absent from a string is not included in it |
| Strings.LexCompare | src/components/dashboard/ZoneManagement.tsx:158-161 | the three-way compare returns -1, 0 or 1 |
| Strings.LexCompareZeroIff | src/components/dashboard/ZoneManagement.tsx:158-161 | the compare is 0 exactly when the strings are equal |
| Strings.LexCompareAntisymmetric | src/components/dashboard/ZoneManagement.tsx:158-161 | swapping the operands negates the result |
| Strings.LexCompareTransitive | src/components/dashboard/ZoneManagement.tsx:158-161 | "no later than" is transitive |
| Strings.LexCompareNegativeIff | src/components/dashboard/ZoneManagement.tsx:158-161 | the compare is negative exactly when the first string is a proper prefix of the second, or is smaller at the first differing position |
| Zones.Matches | src/components/dashboard/ZoneManagement.tsx:149-152 | the empty query matches, and so does a query the folded name starts with; `MatchesIff` gives the full characterisation |
| Zones.MatchesIff | src/components/dashboard/ZoneManagement.tsx:148-153 | a zone passes the search exactly when the lower-cased query occurs in the lower-cased name, matricule or type label |
| Zones.MatchesEmptyQuery | src/components/dashboard/ZoneManagement.tsx:148-153 | the empty query matches every zone |
| Zones.MatchesCaseInsensitive | src/components/dashboard/ZoneManagement.tsx:148-153 | queries that differ only in the case of their letters match the same zones |
| Zones.MatchesIgnoresQueryCase | src/components/dashboard/ZoneManagement.tsx:148-153 | lower-casing the query first changes nothing |
| Zones.Compare | src/components/dashboard/ZoneManagement.tsx:154-173 | a text compare is -1, 0 or 1; a numeric compare is 0 exactly on equal values; any other field gives 0; the lemmas below give the direction of each column, antisymmetry, transitivity and the descending negation |
| Zones.CompareZeroIff | src/components/dashboard/ZoneManagement.tsx:154-173 | two zones compare equal exactly when they agree on the folded text or the number of the sort field; any other field compares every pair as equal |
| Zones.DescendingNegatesAscending | src/components/dashboard/ZoneManagement.tsx:155-170 | swapping the operands for `desc` makes the descending compare the exact negation of the ascending one |
| Zones.CompareAntisymmetric | src/components/dashboard/ZoneManagement.tsx:154-173 | swapping the two zones negates the compare, in either direction |
| Zones.CompareTransitive | src/components/dashboard/ZoneManagement.tsx:154-173 | "sorts no later than" is transitive, in either direction |
| Zones.NumericCompareMeansLess | src/components/dashboard/ZoneManagement.tsx:163-170 | for weight capacity and saturation, the ascending compare is negative exactly when the first zone's value is smaller, and the descending compare exactly when it is larger |
| Zones.TextCompareMeansLexLess | src/components/dashboard/ZoneManagement.tsx:155-162 | for a text field, the ascending compare is negative exactly when the folded value of the first zone is lexicographically smaller |
| StableSort.WithKeyMember | src/components/dashboard/ZoneManagement.tsx:154 | the class of a key holds exactly the elements with that key |
| StableSort.SortPermutation | src/components/dashboard/ZoneManagement.tsx:154 | sorting returns a permutation of its input |
| StableSort.InsertPermutation | src/components/dashboard/ZoneManagement.tsx:154 | one insertion step adds exactly one copy of the inserted element |
| StableSort.SortSorted | src/components/dashboard/ZoneManagement.tsx:154 | with a consistent comparator, every pair of output positions is in comparator order |
| StableSort.SortStable | src/components/dashboard/ZoneManagement.tsx:154 | elements that compare equal keep the order they had in the input |
| StableSort.SortUnique | src/components/dashboard/ZoneManagement.tsx:154 | any sequence in comparator order that keeps each class of equal elements in input order is the sort's output, so any stable sort gives the same list |
| StableSort.SortFlippedIsReversed | src/components/dashboard/ZoneManagement.tsx:154 | when no two elements compare equal, sorting with the flipped comparator gives the reversed output |
| StableSort.SortAllEqualKeepsOrder | src/components/dashboard/ZoneManagement.tsx:172 | a comparator that returns 0 for every pair leaves the input as it is |
| StableSort.Reverse | src/components/dashboard/ZoneManagement.tsx:154 | the reversal has the same length, with position i holding the element at the mirrored position |
| ZoneSort.SortZones | src/components/dashboard/ZoneManagement.tsx:154-173 | sorting keeps the number of zones; `SortZonesOrdered` and `SortZonesUnique` give permutation, order, stability and uniqueness |
| ZoneSort.ZoneComparatorConsistent | src/components/dashboard/ZoneManagement.tsx:154-173 | the zone comparator is a total preorder whose ties are exactly the zones with equal sort keys |
| ZoneSort.SortZonesOrdered | src/components/dashboard/ZoneManagement.tsx:154-173 | the sorted zones are a permutation of the input, in comparator order, with ties in input order |
| ZoneSort.SortZonesUnique | src/components/dashboard/ZoneManagement.tsx:154-173 | the sorted zones are the only list with those properties |
| ZoneSort.DescendingIsReversedAscending | src/components/dashboard/ZoneManagement.tsx:155-170 | when no two zones share the sort key, the descending list is the ascending list reversed |
| ZoneSort.UnsortableFieldKeepsOrder | src/components/dashboard/ZoneManagement.tsx:172 | sorting by a field that is neither text nor numeric leaves the filtered list in catalogue order |
| ZoneManagement.FilterZones | src/components/dashboard/ZoneManagement.tsx:148-153 | the filtered list is no longer than the catalogue; the `Filter` lemmas below characterise its members, counts and order |
| ZoneManagement.FilterMembers | src/components/dashboard/ZoneManagement.tsx:148-153 | a zone is in the filtered list exactly when it is in the catalogue and passes the search |
| ZoneManagement.FilterCount | src/components/dashboard/ZoneManagement.tsx:148-153 | the filter keeps every copy of a matching zone and drops every copy of the others, so it never duplicates a zone |
| ZoneManagement.FilterSubsequence | src/components/dashboard/ZoneManagement.tsx:148-153 | the filtered list is a subsequence of the catalogue |
| ZoneManagement.FilterEmptyQuery | src/components/dashboard/ZoneManagement.tsx:148-153 | an empty search keeps the whole catalogue |
| ZoneManagement.FilterCaseInsensitive | src/components/dashboard/ZoneManagement.tsx:148-153 | search texts that differ only in the case of their letters give the same filtered list |
| ZoneManagement.FilterNoMatch | src/components/dashboard/ZoneManagement.tsx:148-153 | a search no zone passes gives the empty list |
| ZoneManagement.FilterIgnoresQueryCase | src/components/dashboard/ZoneManagement.tsx:148-153 | lower-casing the search text before filtering changes nothing |
| ZoneManagement.VisibleZones | src/components/dashboard/ZoneManagement.tsx:148-173 | the displayed list is never longer than the catalogue, and an empty search shows as many zones as the catalogue holds; `VisibleZonesSpec` gives contents and order |
| ZoneManagement.VisibleZonesSpec | src/components/dashboard/ZoneManagement.tsx:148-173 | the displayed list holds each matching catalogue zone as often as the catalogue does and nothing else, in comparator order, with ties in catalogue order |
| ZoneManagement.NextSort | src/components/dashboard/ZoneManagement.tsx:139-146 | after a header click the clicked column is the sort column; the direction is ascending unless the column was already sorted ascending |
| ZoneManagement.NextSortTwiceRestores | src/components/dashboard/ZoneManagement.tsx:139-146 | two clicks on the sorted column restore the sort |
| ZoneManagement.NextSortNewColumnTwice | src/components/dashboard/ZoneManagement.tsx:139-146 | two clicks on another column sort it descending |
| ZoneManagement.SortIcon | src/components/dashboard/ZoneManagement.tsx:181-185 | an unsorted column shows the neutral arrow; the sorted column shows up when ascending and down when descending |
| ZoneManagement.ClickedColumnShowsArrow | src/components/dashboard/ZoneManagement.tsx:139-146 | after a header click, exactly the clicked column shows a direction arrow |
| ZoneManagement.SaturationColor | src/components/dashboard/ZoneManagement.tsx:175-179 | green exactly below 50, yellow exactly from 50 up to but not including 80, red exactly from 80 up |
| ZoneManagement.SaturationColorMonotone | src/components/dashboard/ZoneManagement.tsx:175-179 | a fuller zone never gets a milder colour |
| ZoneManagement.ZoneListController.constructor | src/components/dashboard/ZoneManagement.tsx:46-49 | the screen starts in grid view, sorted by name ascending, with no search text |
| ZoneManagement.ZoneListController.HandleSort | src/components/dashboard/ZoneManagement.tsx:139-146 | a header click moves the sort as `NextSort` says and leaves the view mode and search text alone |
| ZoneManagement.ZoneListController.SetSearchQuery | src/components/dashboard/ZoneManagement.tsx:225 | typing replaces the search text and nothing else |
| ZoneManagement.ZoneListController.SetViewMode | src/components/dashboard/ZoneManagement.tsx:231-241 | the grid and list buttons set the view mode and nothing else |
| ZoneScenarios.SaturationAscending | src/components/dashboard/ZoneManagement.tsx:52-137 | sorting the catalogue by saturation ascending gives Zone B, Heavy Items, Zone A, Cold Storage |
| ZoneScenarios.SaturationDescending | src/components/dashboard/ZoneManagement.tsx:52-137 | by saturation descending: Cold Storage, Zone A, Heavy Items, Zone B |
| ZoneScenarios.NameAscending | src/components/dashboard/ZoneManagement.tsx:52-137 | the list as first shown, by name ascending: Cold Storage, Heavy Items, Zone A, Zone B |
| ZoneScenarios.NameDescending | src/components/dashboard/ZoneManagement.tsx:52-137 | by name descending: Zone B, Zone A, Heavy Items, Cold Storage |
| ZoneScenarios.DistinctSaturations | src/components/dashboard/ZoneManagement.tsx:52-137 | no two catalogue zones share a saturation |
| ZoneScenarios.DistinctNames | src/components/dashboard/ZoneManagement.tsx:52-137 | no two catalogue zones share a lower-cased name |
| ZoneScenarios.SearchZone | src/components/dashboard/ZoneManagement.tsx:52-137 | searching "zone" keeps Zone A and Zone B, in catalogue order |
| ZoneScenarios.SearchZoneDisplayed | src/components/dashboard/ZoneManagement.tsx:52-173 | searching "zone" with the initial name-ascending sort displays Zone A, then Zone B |
| ZoneScenarios.SearchZoneUpperCase | src/components/dashboard/ZoneManagement.tsx:52-153 | searching "ZONE" keeps Zone A and Zone B, as searching "zone" does |
| ZoneScenarios.SearchNothing | src/components/dashboard/ZoneManagement.tsx:52-137 | searching "xyz123" shows an empty list |
| DashboardLayout.IsActive | src/components/layout/DashboardLayout.tsx:98-100 | a link is highlighted on its own page, and only on pages whose path starts with the link; `IsActiveIff` gives the full characterisation |
| DashboardLayout.IsActiveIff | src/components/layout/DashboardLayout.tsx:98-100 | a sidebar link is highlighted exactly when the path is the link followed by nothing or by a "/" and possibly more |
| DashboardLayout.IsActiveTransitive | src/components/layout/DashboardLayout.tsx:98-100 | if the path highlights a link whose own target highlights a second link, the path highlights the second link too |
| DashboardLayout.AdminZonesHighlightsBoth | src/components/layout/DashboardLayout.tsx:46-47 | on /admin/zones both the /admin and the /admin/zones items are highlighted |
| DashboardLayout.SlashBoundaryRequired | src/components/layout/DashboardLayout.tsx:98-100 | /administrator does not highlight /admin |
| DashboardLayout.GetNavigation | src/components/layout/DashboardLayout.tsx:81-94 | a known dashboard type gets a list that starts at its own root "/" + type; any other value gets the admin list |
| DashboardLayout.GetDashboardIcon | src/components/layout/DashboardLayout.tsx:102-115 | the dashboard icon is shown exactly for the admin type and for unknown types |
| DashboardLayout.AdminUnderRoot | src/components/layout/DashboardLayout.tsx:45-53 | the admin list starts with its dashboard root, which is highlighted on every item's page |
| DashboardLayout.ModeratorUnderRoot | src/components/layout/DashboardLayout.tsx:55-62 | the same for the moderator list |
| DashboardLayout.DriverUnderRoot | src/components/layout/DashboardLayout.tsx:64-70 | the same for the driver list |
| DashboardLayout.ClientUnderRoot | src/components/layout/DashboardLayout.tsx:72-79 | the same for the client list |
| DashboardLayout.NavigationUnderRoot | src/components/layout/DashboardLayout.tsx:81-94 | every dashboard type gets a list whose root is highlighted on all its items; an unknown type gets the admin list |
| DashboardLayout.NavigationsDistinct | src/components/layout/DashboardLayout.tsx:45-79 | the four navigation lists are pairwise different |
| DashboardLayout.IconAgreesWithNavigation | src/components/layout/DashboardLayout.tsx:102-115 | the title icon and the navigation list follow the same case split: each icon goes with exactly one list, the admin fallback included |
| DashboardLayout.Sidebar.constructor | src/components/layout/DashboardLayout.tsx:41-42 | the drawer starts closed and the sidebar expanded |
| DashboardLayout.Sidebar.OpenSidebar | src/components/layout/DashboardLayout.tsx:249 | the menu button opens the drawer and leaves the collapse state alone |
| DashboardLayout.Sidebar.CloseSidebar | src/components/layout/DashboardLayout.tsx:128 | the backdrop (and the close button at line 148) closes the drawer whatever its state, so closing twice is closing once |
| DashboardLayout.Sidebar.ToggleCollapsed | src/components/layout/DashboardLayout.tsx:190 | the collapse button negates `collapsed` and leaves the drawer alone |
| Navbar.IsActive | src/components/layout/Navbar.tsx:45-47 | wherever the bar highlights a link, the sidebar's prefix rule would highlight it too |
| Navbar.AnyChildActive | src/components/layout/Navbar.tsx:101 | a dropdown with no links is never highlighted |
| Navbar.AnyChildActiveIff | src/components/layout/Navbar.tsx:101 | the dropdown is highlighted exactly when the current path equals one of its links |
| Navbar.EntryHighlighted | src/components/layout/Navbar.tsx:101 | a plain entry is highlighted exactly on its own page; a highlighted dropdown has links |
| Navbar.DashboardsHighlight | src/components/layout/Navbar.tsx:31-43 | "Dashboards" is highlighted exactly on /admin, /moderator, /driver and /client, and not on /admin/zones |
| Navbar.ExactIsStricterThanPrefix | src/components/layout/Navbar.tsx:45-47 | wherever the bar highlights a link, the sidebar rule highlights it too, but not the other way round |
| Navbar.OnScroll | src/components/layout/Navbar.tsx:14-19 | the new flag is "offset above 10", and the state is written exactly when that differs from the old flag |
| Navbar.OnScrollIdempotent | src/components/layout/Navbar.tsx:14-19 | a second scroll event at the same offset writes nothing |
| Navbar.NavbarState.constructor | src/components/layout/Navbar.tsx:9-10 | the menu starts closed and the bar unscrolled |
| Navbar.NavbarState.ToggleMenu | src/components/layout/Navbar.tsx:149 | the menu button negates `isOpen` |
| Navbar.NavbarState.ChangeLocation | src/components/layout/Navbar.tsx:27-29 | a change of path closes the menu; staying on the same path does not |
| Navbar.NavbarState.HandleScroll | src/components/layout/Navbar.tsx:14-19 | the handler's new flag and write decision are those of `OnScroll` |
| OverviewCards.GetTrendColor | src/components/dashboard/OverviewCards.tsx:38-48 | green exactly for an upward trend, red exactly for a downward one |
| OverviewCards.GetTrendIcon | src/components/dashboard/OverviewCards.tsx:26-36 | the icon has the colour `GetTrendColor` gives the text |
| OverviewCards.TrendIconAgreesWithColor | src/components/dashboard/OverviewCards.tsx:26-48 | the icon has the text's colour; up is green, down is red, and neutral or absent is a grey sideways arrow |
| OverviewCards.ShowsTrendRow | src/components/dashboard/OverviewCards.tsx:63 | the row needs both a trend and a trend text, and an empty text hides it |
| OverviewCards.RenderTrendRow | src/components/dashboard/OverviewCards.tsx:63-71 | the row is rendered exactly when a trend and a non-empty trend text are present; it shows that text, and its icon has the text's colour |
| OverviewCards.GetCards | src/components/dashboard/OverviewCards.tsx:243-256 | every dashboard type gets four cards; an unknown type gets the admin set; `CardsAgreeWithNavigation` says which set each type gets |
| OverviewCards.CardsAgreeWithNavigation | src/components/dashboard/OverviewCards.tsx:243-256 | the card set and the sidebar list follow the same case split: each card set goes with exactly one navigation list, so moderator, driver and client each get their own cards and an unknown type gets the admin ones |
| OverviewCards.AdminCardsWellFormed | src/components/dashboard/OverviewCards.tsx:87-124 | four admin cards, each showing its trend row, with delays 0 to 3 |
| OverviewCards.ModeratorCardsWellFormed | src/components/dashboard/OverviewCards.tsx:126-163 | the same for the moderator cards |
| OverviewCards.DriverCardsWellFormed | src/components/dashboard/OverviewCards.tsx:165-202 | the same for the driver cards |
| OverviewCards.ClientCardsWellFormed | src/components/dashboard/OverviewCards.tsx:204-241 | the same for the client cards |
| OverviewCards.GetCardsWellFormed | src/components/dashboard/OverviewCards.tsx:243-256 | every dashboard type gets four cards that all render a trend row; an unknown type gets the admin set |
| CustomButton.Resolve | src/components/ui/custom-button.tsx:17-21 | a loading flag left out means not loading, and a button with no props resolves to primary, md, not loading, icon left |
| CustomButton.ResolveDefaults | src/components/ui/custom-button.tsx:17-21 | props left out become primary, md, not loading and icon on the left; passed props are kept |
| CustomButton.AsWrittenDisabled | src/components/ui/custom-button.tsx:47-49 | the attribute as written agrees with the corrected one when `disabled` is left out or the button is not loading |
| CustomButton.LoadingButtonCanBeEnabled | src/components/ui/custom-button.tsx:47-49 | as written, a loading button passed `disabled={false}` or an explicit `undefined` is enabled |
| CustomButton.IntendedDisabled | src/components/ui/custom-button.tsx:47 | the corrected attribute disables every loading button, and with `disabled` left out it is exactly the loading flag |
| CustomButton.LoadingIsDisabled | src/components/ui/custom-button.tsx:47 | with the corrected attribute, a loading button is always disabled; an idle one is disabled exactly when `disabled={true}` is passed |
| CustomButton.IntendedDiffersOnlyWhenLoading | src/components/ui/custom-button.tsx:47-49 | the written and the corrected attribute differ exactly on a loading button passed `disabled` as false or undefined |
| CustomButton.Render | src/components/ui/custom-button.tsx:47-63 | spinner exactly when loading; left icon exactly with an icon, left placement and no loading; right icon exactly with an icon and right placement; disabled as corrected |
| CustomButton.IconOnOneSide | src/components/ui/custom-button.tsx:55-63 | the icon never appears on both sides |
| CustomButton.LoadingHidesOnlyLeftIcon | src/components/ui/custom-button.tsx:51-63 | loading shows the spinner, hides a left icon and leaves a right icon in place; with the corrected attribute it disables the button, while the attribute as written leaves it enabled exactly when `disabled` is passed as false or undefined |
| CustomButton.DefaultButton | src/components/ui/custom-button.tsx:17-21 | a button with no props is a medium primary button, enabled, without spinner or icon |

## Left out

- Rendering is not modelled: markup, Tailwind class strings merged by `cn`, framer-motion
  variants and delays, and the icons' pixel sizes. Icons are enumerations; a React icon
  node is reduced to "a truthy icon was passed".
- React's state plumbing is not modelled. State setters are direct field assignments,
  effects are the methods that react to their dependency, and re-rendering is the
  controller's `Visible` and `Icon` functions.
- The scroll listener is neither registered nor removed. `HandleScroll` takes the offset as
  a parameter, and `window.scrollY` is a `real`.
- Collation: `localeCompare` is modelled as lexicographic order by code point, and
  `toLowerCase` as an ASCII case fold. Full locale collation and Unicode case mapping are
  not modelled.
- Zones.Compare: the model returns -1, 0 or 1 where `localeCompare` may return any number
  of the same sign; the sort only reads the sign.
- Numbers: `toLocaleString` formatting is not modelled. Weight capacity and saturation are
  integers, and NaN or non-finite values are not modelled.
- Sort algorithm: the engine's sort algorithm is not modelled. `StableSort.Sort` is an
  insertion sort, and `StableSort.SortUnique` shows that every stable sort with the same
  comparator returns the same list.
- The Add, Edit and Delete buttons on the zone screen and the sidebar's Logout entry have
  no handlers, so there is nothing to model.
- The `title` prop of the dashboard shell and the unused `children` field of a sidebar item
  are not modelled.
- CustomButton.Render: the model renders the corrected `disabled` attribute
  (`IntendedDisabled`). The attribute as written is `AsWrittenDisabled`; see Findings.
- CustomButton: `className`, `children`, `ref` forwarding and the other native button
  attributes only pass through, so they are not modelled.
- The landing page, footer, page transition, card wrapper and admin charts page are not
  part of this model. They hold markup, animation, chart data and date formatting only.

## Findings

| source | as written | input that shows it | evidently intended | confidence | as-written member | corrected member |
|---|---|---|---|---|---|---|
| src/components/ui/custom-button.tsx:47-49 | the remaining props are spread after `disabled={isLoading \|\| props.disabled}`, so a passed `disabled` replaces the computed value | `isLoading` true with `disabled={false}` (or `disabled={undefined}`): the button shows its spinner yet stays clickable | disabled whenever the button is loading, as the computed expression says | medium, not executed | CustomButton.LoadingButtonCanBeEnabled | CustomButton.LoadingIsDisabled |
