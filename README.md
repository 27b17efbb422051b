# Character-roster viewer: view state and render pipeline

This project models the logic core of a single-page character-roster viewer
(`script.js`). The viewer keeps two pieces of view state, the current language
(initially `"ko"`) and the current page (initially `"home"`), together with two
loaded data sets: the roster of character records and the translation table
(language code to key/string map). Every language change or navigation
overwrites one of the two state fields and re-renders. A render:

- returns without writing anything when the translation table has no entry
  for the current language;
- otherwise rebuilds the four-entry navigation menu, marking the entry of the
  current page as active;
- then renders exactly one of the pages home, characters, guide and tierlist
  into the content region, and leaves that region untouched for any other page
  identifier.

The characters page groups the roster into the sections WS, SE and MB. The tier
list is a 4×3 grid: tiers S+, S, A+, A by positions WS, SE, MB. Tier and grade
labels are turned into style-class suffixes by replacing the first `+` with
`plus`, and for grades also the first `-` with `minus`.

The markup is modelled as structured values, not HTML text. Each field holds
what the template shows: a looked-up string, an image file name, or a
style-class suffix. Modules:

- `Texts` (texts.dfy): `Option`, the translation-table types and key lookup.
- `Sanitize` (sanitize.dfy): first-occurrence replacement, `TierClass`, `GradeClass`.
- `Roster` (roster.dfy): the character record, the fixed position and tier
  lists, and the two filters with their membership and order lemmas.
- `Pages` (pages.dfy): the menu and page values, the specification functions
  of each page, and the loop-built renderers proved against them.
- `Orchestrator` (app.dfy): the class `App` holding the view state, the data
  and the two output regions, with `Load`, `Render`, `ChangeLang` and `NavigateTo`.
  `RenderOutcome` gives the screen after a render as a function, and the
  lemmas about it cover the guard, the dispatch and navigation. Two client
  methods replay sessions against the class contracts:
  `UnknownLanguageSession` (switching to a language without strings leaves
  the screen as it was) and `LanguageChosenWhileLoading` (a language chosen
  before the data arrives is the one the first render uses).

`render` tests `translations[currentLang]` for falsiness. Table entries are
objects, so the model tests whether the language is a key of the table.

## Model

| member | source | states |
|---|---|---|
| `Orchestrator.App.constructor` | script.js:1-4 | at start-up the language is "ko", the page is "home", roster and table are empty, and nothing has been rendered |
| `Orchestrator.App.Load` | script.js:13-15 | both documents are stored unchanged, language and page keep whatever value events gave them while loading, and the screen is that of one render of this state |
| `Orchestrator.App.Render` | script.js:65-138 | the new menu and content equal `RenderOutcome` of the current state and the previous screen; only the two regions change |
| `Orchestrator.App.ChangeLang` | script.js:41-44 | the language becomes `l`, the page and the loaded data are unchanged, and the screen is that of a render in the new state |
| `Orchestrator.App.NavigateTo` | script.js:46-53 | the page becomes `p`, the language and the loaded data are unchanged, and the screen is that of a render in the new state |
| `Orchestrator.RenderOutcome` | script.js:65-137 | the screen after one render, as a function of the state and the previous screen: with strings for the language the menu is rebuilt; without them, or for an unknown page, the content is the previous content (the guard and dispatch lemmas below state the rest) |
| `Orchestrator.StaticPagesIndependent` | script.js:88-134 | the home and guide screens are the same whatever the roster and whatever was shown before; only the language's strings matter |
| `Orchestrator.PageView` | script.js:88-137 | a page has content exactly when it is one of home, characters, guide, tierlist |
| `Orchestrator.RenderGuard` | script.js:66-67 | with no strings for the current language, a render leaves menu and content exactly as they were |
| `Orchestrator.RenderDispatch` | script.js:65-137 | with strings for the language, the menu is always rebuilt; each known page gets its own page content; an unknown page leaves the content region as it was |
| `Orchestrator.RenderIdempotent` | script.js:65-137 | rendering the same state twice gives the same screen as rendering it once |
| `Orchestrator.NavigateBackRestores` | script.js:41-53 | visiting any page and then a known page gives the same screen as going to the known page directly: no state of the visited page survives |
| `Pages.HomePage` | script.js:88-104 | the home content: welcome, description, two update notes and the tip, each the string of its key |
| `Pages.GuidePage` | script.js:122-134 | the guide content: title, role title, the three role descriptions and the usage tip, each the string of its key |
| `Pages.CharactersPage` | script.js:105-121 | the characters content always has one section per position; `CharactersPageShape` gives each section's order and cards |
| `Pages.TierListPage` | script.js:140-159 | the tier-list content always has four column headers and one row per tier; `TierListShape` gives the rows and cells |
| `Pages.NavMenu` | script.js:73-79 | four entries in the order home, characters, guide, tierlist, with labels `nav_home`, `nav_chars`, `nav_guide`, `nav_tierlist`; an entry is active iff its page is the current page |
| `Pages.NavMenuActive` | script.js:73-79 | at most one entry is active, and one is exactly when the current page is one of the four known pages |
| `Pages.CharactersPageShape` | script.js:105-121 | exactly three sections in the order WS, SE, MB, each present even when empty; section k shows one card per roster record of position k, in roster order, with its image and its name in the current language |
| `Pages.BuildCharactersPage` | script.js:105-121 | the section-by-section, card-by-card loops produce exactly the characters page |
| `Pages.BuildTierList` | script.js:140-159 | the row, cell and card loops produce exactly the tier-list page |
| `Pages.TierListShape` | script.js:140-159 | four rows S+, S, A+, A with label class from the tier; three cells WS, SE, MB in each, present even when empty; cell (t, p) shows one card per record of tier t and position p, in roster order, with card class from the tier and grade class from the grade |
| `Pages.TierListOneRecord` | script.js:140-159 | a roster of one WS record of tier S and grade A+ puts one card, with grade class `Aplus`, in cell (S, WS) and leaves the other eleven cells empty |
| `Roster.WithPosition` | script.js:112 | every record of a section is a roster record of that position; `WithPositionCount` and `FilterAppend` fix its contents and order |
| `Roster.InCell` | script.js:149 | every record of a cell is a roster record of that tier and position; `InCellCount` and `FilterAppend` fix its contents and order |
| `Roster.Filter` | script.js:112 | the filtered sequence is no longer than the roster and holds only roster records that satisfy the predicate |
| `Roster.FilterAppend` | script.js:112 | filtering a concatenation concatenates the filtered parts, so the filter keeps roster order |
| `Roster.FilterCount` | script.js:112 | a record occurs in the filtered sequence as often as in the roster if it satisfies the predicate, and not at all otherwise |
| `Roster.WithPositionCount` | script.js:112 | the section of position p holds every roster record of position p as often as the roster does, and no other record |
| `Roster.InCellCount` | script.js:149 | the cell (t, p) holds every roster record of tier t and position p as often as the roster does, and no other record |
| `Roster.SectionsPartition` | script.js:107-119 | a roster record is in the section of position k iff its position is k; it is in some section iff its position is WS, SE or MB; it is never in two sections |
| `Roster.ListsDistinct` | script.js:141-142 | the fixed tier list and position list have no repeated entry |
| `Roster.CellMembership` | script.js:149 | a roster record is in cell (t, p) iff its tier is t and its position is p |
| `Roster.CellsPartition` | script.js:141-157 | a roster record is in some grid cell iff both its tier and its position are listed, and it is never in two cells |
| `Sanitize.ReplaceFirst` | script.js:146 | `replace` with a one-character pattern: a string without the character is unchanged, and otherwise the length changes by the replacement's length minus one; `ReplaceFirstSpec` says which character is replaced |
| `Sanitize.TierClass` | script.js:146 | a tier without `+` is its own class, and one with `+` grows by three characters; `TierClassCounts` and `FirstOccurrenceOnly` say that only the first `+` becomes `plus` |
| `Sanitize.GradeClass` | script.js:150 | a grade without `+` and `-` is its own class; `GradeClassCounts` and `GradeClassSafe` say that the first `+` and the first `-` become words |
| `Texts.Lookup` | script.js:75-78 | a lookup finds nothing exactly when the key is missing; used for `texts.<key>` and `char.name[currentLang]` |
| `Sanitize.IndexOf` | script.js:146 | the index found holds the character, and no earlier index does |
| `Sanitize.ReplaceFirstSpec` | script.js:146 | without the pattern character the string is unchanged; otherwise only its first occurrence is replaced and everything before and after it is kept |
| `Sanitize.ReplaceFirstMultiset` | script.js:146 | after the replacement the string has one fewer pattern character plus the characters of the replacement, or is unchanged when the pattern is absent |
| `Sanitize.ReplaceFirstCount` | script.js:146 | for any character, its count after the replacement: one fewer of the pattern character plus the replacement's own count, or unchanged when the pattern is absent |
| `Sanitize.TierClassCounts` | script.js:146 | the tier class has one fewer `+` than the tier (none if the tier has none) and as many `-` as the tier |
| `Sanitize.GradeClassCounts` | script.js:150 | the grade class has one fewer `+` and one fewer `-` than the grade, for each character the grade contains |
| `Sanitize.GradeClassSafe` | script.js:150 | the grade class is free of `+` and `-` iff the grade has at most one of each |
| `Sanitize.SanitiseExamples` | script.js:146-151 | "A+" gives "Aplus", "B-" gives "Bminus", "A" stays "A"; tiers "S+" and "A+" give "Splus" and "Aplus"; "S" and "A" stay unchanged |
| `Sanitize.FirstOccurrenceOnly` | script.js:146-151 | only the first occurrence is rewritten ("S++" gives "Splus+", "A--" gives "Aminus-"), and a tier keeps its `-` ("B-" stays "B-") |

## Left out

- Loading (`initApp`, script.js:6-19): the two fetches, the JSON parsing and the failure message are network I/O and asynchronous. `App.Load` stands for the successful path, where both responses were ok and the first render follows; the failure path is not modelled, nor is the wait itself (events before `Load` are ordinary calls on the object).
- Sidebar toggling, the document-level outside-click listener and the automatic close in `navigateTo` when the viewport is at most 768 wide (script.js:23-39, 49-52): these are DOM class changes and viewport queries.
- The highlight position update and its timer (`updateHighlight`, `setTimeout`, script.js:56-63, 82): these are layout measurement and timer deferral.
- The active class on the language buttons (script.js:84-85): this is DOM class manipulation only.
- The HTML text, the inline styles, the image directory prefix and the placeholder fallback in `onerror` (script.js:89-158): these are presentation only. The model keeps the image file name, the looked-up texts and the class suffixes.
- The printed form of a missing translation key or a missing name (JavaScript would show `undefined`): the model keeps such lookups as `None`.
- Inherited object members as language codes: `translations[currentLang]` is also truthy for a code such as `toString` or `constructor`, so the source passes its guard, rewrites the menu with `undefined` labels and renders the page; the model treats such a code as any other code that is not a key of the table and leaves the screen as it was. No control of the viewer passes such a code.
- Malformed roster records: a record without a `name` object, or with a `grade` that is not a string, makes `render` throw partway through (script.js:115, 150, 152), after the menu has already been rewritten and before the content region is; the `Character` type rules both out, so the model does not capture that half-written screen.
- Replacement patterns longer than one character: the modelled pattern is a single character, which is all the source uses (`'+'` and `'-'`); longer string patterns are not modelled.
