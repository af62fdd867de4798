# A verified model of the portfolio site's view logic

The site is a single-page personal portfolio. It is built from a few view components that
turn JSON data into markup. This project models the logic those components decide for
themselves, and proves what that logic promises:

- **Theme** (`theme.dfy`), for `src/utils/theme.ts`. The `ThemeManager` class chooses light
  or dark at start-up: the stored choice if there is one, otherwise the system preference.
  It toggles or sets the theme, records every explicit choice, and follows system-preference
  changes only while no choice is on record. The browser's storage entry, the media query
  and the document's `data-theme` attribute are fields of the class.
- **Changelog** (`weekorder.dfy`, `changelog.dfy`), for `src/components/Changelog.ts`. The
  view sorts the caller's entry array in place: week descending, stable. It keeps a set of
  expanded week keys. A click on a week header toggles exactly that key and re-renders. A
  re-render never clears the set. Sections are records (week, open or not, task count,
  tasks), not markup.
- **Projects** (`projects.dfy`), for `src/components/Projects.ts`. The view has an
  all/hobby/personal filter, three filter buttons with exactly one active, and one card per
  shown project.
- **Contact links** (`links.dfy`, `personalinfo.dfy`, `footer.dfy`), for
  `renderContacts` in `src/components/PersonalInfo.ts` and `renderSocialLinks` in
  `src/components/Footer.ts`. Each builds the list of links from the optional contact
  fields, in a fixed order and only for truthy fields. The URL rules are functions of their
  own:
  - `mailto:` and `tel:` prefixes;
  - `https://t.me/` with the first `@` removed;
  - `https://` added unless the value already starts with `http`.

`types.dfy` holds the records the modelled views read (contacts, project, changelog task
and entry, from `src/types/index.ts`) and two helpers: JavaScript
truthiness of an optional string field (`Truthy`: present and not empty) and an
order-preserving subsequence predicate.

Some modelling choices:

- Markup is replaced by records that keep the decisions the markup encodes: which links,
  in which order, with which `href` and text; which card shows an image or a placeholder;
  which button is active; which section is open.
- `localeCompare` is modelled as plain lexicographic order on characters (`WeekOrder.Below`).
  For the fixed-width `YYYY-MM-DD` week keys this is calendar order.
- `Array.prototype.sort` is modelled as a stable in-place insertion sort on an `array`. It
  is specified by the pure function `WeekOrder.SortByWeek`.
- There is no month grouping: the code renders one section per week entry and sorts by
  the `week` string alone. `Changelog.ExampleWeeks` sorts three weekly entries into three
  sections, newest first.
- The stored theme is read back with an unchecked cast, so it can be any string.
  `Theme.ThemeState.current` is therefore a `string`, and toggling an unexpected value gives
  `"light"`, as the code does. Only `setTheme` takes the two-literal type `ThemeName`.

## Model

| member | source | states |
|---|---|---|
| Theme.SystemTheme | src/utils/theme.ts:9 | the system theme is "dark" exactly when the media query matches |
| Theme.Toggled | src/utils/theme.ts:28 | the toggle gives "dark" exactly from "light", and always differs from a proper theme |
| Theme.InitialTheme | src/utils/theme.ts:8-10 | at start-up the current theme is the stored value when it is truthy, otherwise the system theme; storage is not written |
| Theme.AttributeMirrorsCurrent | src/utils/theme.ts:12-18 | the constructor, toggle and set leave the document attribute equal to the current theme, and a system change keeps that |
| Theme.AttributeMirrorsAfterSystemChanges | src/utils/theme.ts:15-20 | any run of system changes keeps the attribute equal to the current theme |
| Theme.ToggleRecordsChoice | src/utils/theme.ts:27-31 | toggling writes the new theme to storage, which makes it an explicit choice |
| Theme.Init | src/utils/theme.ts:8-12 | the start-up state keeps the stored value and the media-query flag, takes the stored value as theme when it is truthy and the system theme otherwise, and applies it to the attribute |
| Theme.Toggle | src/utils/theme.ts:27-31 | a toggle leaves a choice on record equal to the new theme, applies it, keeps the system flag, and always changes a proper theme |
| Theme.Set | src/utils/theme.ts:33-37 | setting makes the given theme current, stored and applied, and keeps the system flag |
| Theme.SystemChange | src/utils/theme.ts:15-19 | a media-query change always updates the system flag and never the storage; with a stored choice theme and attribute stay, without one the theme becomes the system theme and is applied |
| Theme.ToggleTwice | src/utils/theme.ts:27-31 | two toggles from light or dark restore the theme, now stored, with the system flag untouched |
| Theme.SetIdempotent | src/utils/theme.ts:33-37 | setting a theme makes it current and stored; setting it again changes nothing |
| Theme.ChoiceIgnoresSystem | src/utils/theme.ts:15-20 | once a choice is stored, no sequence of system changes alters the theme, the storage or the attribute |
| Theme.UnchosenFollowsSystem | src/utils/theme.ts:15-20 | with nothing stored, the theme is the one the last system change asks for, and nothing gets stored |
| Theme.ToggleFromSystemDefault | src/utils/theme.ts:8-31 | from an empty storage, a toggle gives the opposite of the system theme; later system changes no longer move it |
| Theme.ThemeManager.constructor | src/utils/theme.ts:6-12 | the object starts in the state `Init` describes, with the attribute applied |
| Theme.ThemeManager.GetTheme | src/utils/theme.ts:23-25 | returns the current theme and changes nothing |
| Theme.ThemeManager.ApplyTheme | src/utils/theme.ts:39-42 | sets the attribute and the current theme to the given theme, nothing else |
| Theme.ThemeManager.ToggleTheme | src/utils/theme.ts:27-31 | the new state is `Toggle` of the old one, and the attribute invariant holds |
| Theme.ThemeManager.SetTheme | src/utils/theme.ts:33-37 | the new state is `Set` of the old one, and the attribute invariant holds |
| Theme.ThemeManager.OnSystemChange | src/utils/theme.ts:15-19 | the new state is `SystemChange` of the old one: the theme follows the event only when nothing is stored |
| WeekOrder.Below | src/components/Changelog.ts:18 | the definition of the key order used by the comparator, character by character with a proper prefix first; it carries no contract of its own, and its laws are the `WeekOrder.Below*` lemmas below |
| WeekOrder.BelowProperPrefix | src/components/Changelog.ts:18 | a proper prefix of a key sorts before it |
| WeekOrder.BelowIrreflexive | src/components/Changelog.ts:18 | no week key sorts before itself |
| WeekOrder.BelowAsymmetric | src/components/Changelog.ts:18 | two keys are never each before the other |
| WeekOrder.BelowTransitive | src/components/Changelog.ts:18 | the key order is transitive |
| WeekOrder.BelowTotal | src/components/Changelog.ts:18 | two different keys are always ordered one way or the other |
| WeekOrder.BelowAtFirstDifference | src/components/Changelog.ts:18 | the first differing character decides the key order |
| WeekOrder.NotBelowTransitive | src/components/Changelog.ts:18 | "not before" is transitive and composes with "before" |
| WeekOrder.Insert | src/components/Changelog.ts:18 | placing one more entry into the sorted list adds exactly one element |
| WeekOrder.SortByWeek | src/components/Changelog.ts:18 | the reference sort keeps the number of entries (its order, permutation and stability are the lemmas below) |
| WeekOrder.SortByWeekSorted | src/components/Changelog.ts:18 | the sorted entries have non-increasing weeks |
| WeekOrder.SortByWeekPermutes | src/components/Changelog.ts:18 | sorting loses and duplicates no entry (multiset equality) |
| WeekOrder.SortByWeekStable | src/components/Changelog.ts:18 | entries of the same week keep their input order |
| WeekOrder.InsertSorted | src/components/Changelog.ts:18 | inserting into a sorted list keeps it sorted |
| WeekOrder.InsertMultiset | src/components/Changelog.ts:18 | inserting adds exactly the one entry |
| WeekOrder.InsertWithWeek | src/components/Changelog.ts:18 | an inserted entry lands after every earlier entry of its week |
| WeekOrder.InsertAt | src/components/Changelog.ts:18 | in a sorted list, the entry lands after every entry not before it and ahead of the run of entries before it |
| Changelog.RenderOrder | src/components/Changelog.ts:17-19 | what `render` stores is sorted week descending, a permutation of the input, and stable per week |
| Changelog.ExampleWeekKeys | src/components/Changelog.ts:18 | the keys 2024-02-26, 2024-03-04 and 2024-03-11 compare in calendar order |
| Changelog.SortThree | src/components/Changelog.ts:18 | three entries whose newest week is in the middle and oldest is last sort as middle, first, last |
| Changelog.ExampleWeeks | src/components/Changelog.ts:17-23 | three weekly entries given out of order come out newest first, and render as three sections with the weeks 2024-03-11, 2024-03-04, 2024-02-26 in that order |
| Changelog.ShiftInto | src/components/Changelog.ts:18 | the shifting loop moves each entry just before `a[i]` whose week is below its own one place right, stops at the first that is not, and drops `a[i]` into the gap |
| Changelog.InsertLast | src/components/Changelog.ts:18 | one in-place step moves the next entry into the sorted prefix, as `Insert` does, and leaves the rest of the array alone |
| Changelog.SortEntriesByWeek | src/components/Changelog.ts:18 | the array is sorted in place into exactly `SortByWeek` of its old contents |
| Changelog.RenderTask | src/components/Changelog.ts:59-73 | a task shows its title and description, and its category tag exactly when the category is truthy |
| Changelog.RenderTasks | src/components/Changelog.ts:41 | one rendered task per task, in order |
| Changelog.RenderEntry | src/components/Changelog.ts:38-57 | a section shows its week, is open exactly when the week is in the expanded set, and counts its tasks |
| Changelog.Sections | src/components/Changelog.ts:23 | one section per stored entry, in stored order |
| Changelog.ToggleWeek | src/components/Changelog.ts:100-104 | a click adds the week when absent and removes it when present; no other week changes |
| Changelog.ToggleWeekTwice | src/components/Changelog.ts:100-104 | two clicks on the same header restore the expanded set |
| Changelog.InitiallyCollapsed | src/components/Changelog.ts:7 | before any click every section is closed |
| Changelog.ToggleAffectsOnlyItsWeek | src/components/Changelog.ts:98-105 | a click on week w flips exactly the sections whose week is w |
| Changelog.SectionShowsTasksInOrder | src/components/Changelog.ts:41-47 | the header count is the number of tasks, and the k-th shown task is the k-th task rendered: same title and description, category shown exactly when truthy and then unchanged |
| Changelog.ChangelogView.constructor | src/components/Changelog.ts:6-7 | the view starts with no entries and an empty expanded set |
| Changelog.ChangelogView.RenderContent | src/components/Changelog.ts:22-36 | the content is the sections of the stored entries under the current expanded set |
| Changelog.ChangelogView.Render | src/components/Changelog.ts:17-19 | the caller's array is sorted in place, stored and rendered; the expanded set is kept |
| Changelog.ChangelogView.ClickHeader | src/components/Changelog.ts:97-106 | a truthy week key is toggled and the view re-rendered; a missing or empty key changes nothing, content included |
| Projects.Keep | src/components/Projects.ts:53 | filtering by type keeps only projects of that type, never more than the input |
| Projects.Filtered | src/components/Projects.ts:49-54 | the "all" filter returns the list unchanged; a type filter returns only that type |
| Projects.KeepIsSubsequence | src/components/Projects.ts:53 | a type filter keeps the original order |
| Projects.KeepExact | src/components/Projects.ts:53 | a type filter keeps every project of that type as often as it occurs, and no other |
| Projects.KeepPartition | src/components/Projects.ts:53 | the hobby and personal filters together account for every project |
| Projects.FilteredIsSubsequence | src/components/Projects.ts:49-54 | every filter's result is an order-preserving subsequence of the stored list |
| Projects.Buttons | src/components/Projects.ts:29-39 | three buttons carrying the filters all, personal and hobby in that order; a button is active exactly when its filter is the current one |
| Projects.ExactlyOneActive | src/components/Projects.ts:29-39 | exactly one button is active, the one for the current filter |
| Projects.RenderProject | src/components/Projects.ts:56-84 | a card shows the image if it is truthy, else the title's first character (empty for an empty title); the link only when it is truthy; one tag per technology |
| Projects.RenderPage | src/components/Projects.ts:22-47 | the page's buttons are `Buttons` of the current filter (so exactly one is active), and its cards are one rendered card per filtered project, in order; hence three buttons, at most one card per stored project, a card for every project under "all", and each card renders a stored project of the filter's type |
| Projects.RenderCards | src/components/Projects.ts:24 | one card per shown project, in order |
| Projects.ProjectsView.constructor | src/components/Projects.ts:6-7 | the view starts with no projects and the "all" filter |
| Projects.ProjectsView.GetFilteredProjects | src/components/Projects.ts:49-54 | returns the filtered list, unchanged under "all" and an ordered subsequence otherwise; changes nothing |
| Projects.ProjectsView.RenderContent | src/components/Projects.ts:22-47 | the content is the buttons and cards for the stored list under the current filter |
| Projects.ProjectsView.Render | src/components/Projects.ts:17-20 | stores the list and re-renders, keeping the current filter |
| Projects.ProjectsView.ClickFilter | src/components/Projects.ts:89-93 | a filter click sets the filter and re-renders with the list unchanged |
| Projects.ClickTwice | src/components/Projects.ts:89-93 | repeating a filter click leaves the view as one click does |
| Links.PresentChannels | src/components/PersonalInfo.ts:46-97 | a channel is listed exactly when it is in the order and its field is truthy |
| Links.PresentChannelsInOrder | src/components/PersonalInfo.ts:46-97 | the listed channels keep the fixed order |
| Links.CountPresent | src/components/PersonalInfo.ts:46-97 | there are never more listed channels than channels tried |
| Links.PresentChannelsCount | src/components/PersonalInfo.ts:46-97 | the number of links is the number of truthy fields |
| Links.WebUrl | src/components/Footer.ts:37 | the profile URL is the value itself exactly when it starts with "http", and otherwise is "https://" followed by the value |
| Links.WebUrlShape | src/components/PersonalInfo.ts:77 | the profile URL starts with "http" and ends with the field value; it is the value unchanged exactly when that starts with "http", and otherwise starts with "https://" and continues with the whole value |
| Links.WebUrlIdempotent | src/components/PersonalInfo.ts:87 | normalising a profile URL twice gives the same URL as once |
| Links.StripFirstAt | src/components/PersonalInfo.ts:69 | `replace('@', '')` leaves a handle without '@' unchanged and otherwise removes one character |
| Links.StripFirstAtRemovesFirst | src/components/PersonalInfo.ts:69 | it removes exactly the first '@' |
| Links.StripFirstAtMultiset | src/components/PersonalInfo.ts:69 | it removes one '@' and no other character |
| Links.TelegramUrl | src/components/Footer.ts:56 | the Telegram link is "https://t.me/" followed by the handle without its first '@' |
| Links.TelegramUrlIgnoresLeadingAt | src/components/Footer.ts:56 | "@name" and "name" give the same Telegram link |
| Links.MailtoUrl | src/components/Footer.ts:64 | the email link is "mailto:" followed by the address |
| Links.TelUrl | src/components/PersonalInfo.ts:60 | the phone link is "tel:" followed by the number |
| PersonalInfo.Item | src/components/PersonalInfo.ts:49-94 | the pushed link for a present field is a link of that field's channel |
| PersonalInfo.Step | src/components/PersonalInfo.ts:49-94 | a field contributes one link when it is truthy and none otherwise |
| PersonalInfo.ItemsFor | src/components/PersonalInfo.ts:46-97 | the list for a run of channels has at most one link per channel |
| PersonalInfo.ItemShape | src/components/PersonalInfo.ts:49-94 | each link's target and its text per channel: raw value for email, phone and Telegram, fixed labels for GitHub and LinkedIn |
| PersonalInfo.ItemsForChannels | src/components/PersonalInfo.ts:46-97 | the list holds one link per truthy channel, in order |
| PersonalInfo.ContactListShape | src/components/PersonalInfo.ts:46-97 | the links follow the order email, phone, telegram, github, linkedin; a channel appears exactly when truthy; at most five links |
| PersonalInfo.NoContactsNoLinks | src/components/PersonalInfo.ts:96 | with no truthy field the list is empty, which joins to the empty string |
| PersonalInfo.ItemsForAppend | src/components/PersonalInfo.ts:46-97 | trying one more channel appends its link exactly when its field is truthy |
| PersonalInfo.RenderContacts | src/components/PersonalInfo.ts:46-97 | the `if`-and-`push` sequence builds exactly the specified contact list |
| Footer.Item | src/components/Footer.ts:36-68 | the pushed footer link for a present field is a link of that field's channel |
| Footer.Step | src/components/Footer.ts:36-68 | a field contributes one footer link when it is truthy and none otherwise |
| Footer.ItemsFor | src/components/Footer.ts:33-71 | the footer list for a run of channels has at most one link per channel |
| Footer.ItemShape | src/components/Footer.ts:36-68 | each footer link's target, with the fixed labels GitHub, LinkedIn, Telegram and Email |
| Footer.ItemsForChannels | src/components/Footer.ts:33-71 | the footer holds one link per truthy channel, in order |
| Footer.SocialListShape | src/components/Footer.ts:33-71 | the links follow the order github, linkedin, telegram, email; a channel appears exactly when truthy and is not the phone; at most four links |
| Footer.NoSocialLinks | src/components/Footer.ts:33-71 | without a truthy GitHub, LinkedIn, Telegram or email field the footer is empty, whatever the phone holds |
| Footer.ItemsForAppend | src/components/Footer.ts:33-71 | trying one more channel appends its link exactly when its field is truthy |
| Footer.RenderSocialLinks | src/components/Footer.ts:33-71 | the `if`-and-`push` sequence builds exactly the specified footer list |

## Left out

- Markup, CSS class names, icons and `innerHTML` assignment are not modelled. A view's
  container content is a record (`Section`, `Page`, `ContactLink`) that keeps what the
  markup decides.
- The "container not found" error in the `Changelog` and `Projects` constructors is not
  modelled: it depends on the DOM lookup.
- Event-listener attachment after each render is not modelled. A click is modelled as a
  direct call (`ClickHeader`, `ClickFilter`).
- `formatWeek` in `Changelog.ts` is not modelled: it uses `Date` arithmetic and Russian
  locale formatting. A section keeps its raw week key.
- `localeCompare` is modelled as lexicographic character order, not locale collation.
- Changelog.ChangelogView.Render: the view keeps a copy of the sorted sequence, not an
  alias of the caller's array. Later outside changes to that array are not seen.
- Projects.ProjectsView.Render keeps the stored list as a value, not as an alias of the
  caller's array.
- Projects.ProjectsView.ClickFilter: the `data-filter` attribute is cast to the filter type
  without validation. The model takes an already valid `Filter`.
- `localStorage` and `matchMedia` are fields of `Theme.ThemeManager` (`stored`,
  `systemDark`). Reading and writing storage, subscribing to the media query and setting
  the DOM attribute are plain field updates.
- `Header.ts`, `Experience.ts`, `main.ts`, `dataLoader.ts` and `vite.config.ts` are not part
  of this model: they do layout, data loading and build configuration.
- Projects.RenderProject: Dafny strings are sequences of Unicode code points, so the
  placeholder is the title's first code point. `title.charAt(0)` returns the first UTF-16
  code unit, and the two differ when a title starts with a character outside the Basic
  Multilingual Plane (an emoji, for example).
- Changelog.ChangelogView.constructor and Projects.ProjectsView.constructor set `content` to
  the rendering of the empty state so that `Valid()` holds from the start. The source
  constructors render nothing: the container keeps its static markup until the first
  `render` call.
