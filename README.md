# University dashboard components in Dafny

This project models the state and logic of six React components of a
university web dashboard (`University_App_Dashboard/src/components`):

- **Notifications page**: a list of notifications, a category tab and the unread badges. There are three actions: mark all read, mark one read, and dismiss.
- **Search overlay**: a fixed catalog that a case-insensitive substring query filters. The results are grouped by type (Course, Faculty, Program, Page). The query box is overwritten by typing, the clear button, the suggestions and closing the overlay.
- **Academics page**: the program-level filter over the nine seed programs, and the two-letter initials of the faculty spotlight.
- **Admissions page**: the FAQ accordion, where at most one card is open.
- **Contact section**: the five-field form, its loading and submitted flags, and the simulated send timer.
- **Account page**: three parts:
  - the notification switches, a map from option id to on/off;
  - the profile record, with its edit, save and cancel flags and the save-banner timer;
  - the privacy switches, whose change handler does nothing.

Pure logic is written as functions and lemmas. Component state that the source updates through `useState` setters is a `class`, with one method per handler. A timer that the source starts with `setTimeout` becomes an explicit event method. That method may only be called while the timer is pending.

Files:
- `wrappers.dfy`: `Option`.
- `seqs.dfy`: `Array.prototype.filter` and its laws.
- `text.dfy`: ASCII lower-casing, JavaScript `trim`, `includes`, and `split`/`join`.
- `notifications.dfy`, `search.dfy`, `academics.dfy`, `admissions.dfy`, `contact.dfy`, `account.dfy`: one module per component.

Where the code and the written description of the application disagree, the model follows the code:
- The seed data holds one unread financial notification (id 2), not two.
- The search lower-cases the query as well as the title and subtitle.

## Model

| member | source | states |
|---|---|---|
| Seqs.Filter | University_App_Dashboard/src/components/NotificationsPage.tsx:140 | `filter` keeps exactly the elements that pass the predicate and is never longer than its input |
| Seqs.FilterCount | University_App_Dashboard/src/components/NotificationsPage.tsx:140 | `filter` keeps every occurrence of a passing element and none of the others (multiset) |
| Seqs.FilterIsSubseq | University_App_Dashboard/src/components/NotificationsPage.tsx:140 | `filter` keeps the original order |
| Seqs.FilterKeepsAll | University_App_Dashboard/src/components/NotificationsPage.tsx:153 | a filter that every element passes returns its input unchanged |
| Seqs.FilterAppend | University_App_Dashboard/src/components/NotificationsPage.tsx:140 | filtering distributes over concatenation |
| Seqs.FilterPrefix | University_App_Dashboard/src/components/NotificationsPage.tsx:142 | a passing run followed by a failing run filters to the passing run |
| Seqs.FilterNone | University_App_Dashboard/src/components/SearchOverlay.tsx:39-43 | a filter no element passes is empty |
| Seqs.FilterSingle | University_App_Dashboard/src/components/SearchOverlay.tsx:39-43 | without duplicates, a filter exactly one element passes yields that element alone |
| Seqs.FilterIdempotent | University_App_Dashboard/src/components/SearchOverlay.tsx:156 | filtering twice by one predicate is filtering once |
| Seqs.FilterCongruent | University_App_Dashboard/src/components/SearchOverlay.tsx:39-43 | predicates that agree on the elements filter alike |
| Seqs.NoDuplicatesTail | University_App_Dashboard/src/components/SearchOverlay.tsx:13-24 | a list without duplicates has a head absent from its tail and a tail without duplicates |
| Seqs.FilterNoDuplicates | University_App_Dashboard/src/components/SearchOverlay.tsx:39-43 | filtering a list without duplicates gives one without duplicates |
| Text.LowerStr | University_App_Dashboard/src/components/SearchOverlay.tsx:41-42 | `toLowerCase` keeps the length and lower-cases each character |
| Text.LowerStrIdempotent | University_App_Dashboard/src/components/SearchOverlay.tsx:41-42 | lower-casing twice is lower-casing once |
| Text.Lower | University_App_Dashboard/src/components/SearchOverlay.tsx:41-42 | `toLowerCase` on one character: an ASCII capital becomes its small letter and every other character is kept (no contract of its own; `LowerStr` states it per position) |
| Text.TrimStart | University_App_Dashboard/src/components/SearchOverlay.tsx:38 | drops exactly the leading white space: the result is a suffix and starts with a non-space character |
| Text.TrimEnd | University_App_Dashboard/src/components/SearchOverlay.tsx:38 | drops exactly the trailing white space: the result is a prefix and ends with a non-space character |
| Text.Trim | University_App_Dashboard/src/components/SearchOverlay.tsx:38 | `trim()` as `TrimEnd` after `TrimStart` (no contract of its own; the two halves carry it) |
| Text.IsBlank | University_App_Dashboard/src/components/SearchOverlay.tsx:38 | the negation of `query.trim().length > 0` (no contract of its own; `BlankIffAllSpace` characterises it) |
| Text.BlankIffAllSpace | University_App_Dashboard/src/components/SearchOverlay.tsx:38 | `query.trim().length > 0` fails exactly when every character is white space |
| Text.BlankIgnoresCase | University_App_Dashboard/src/components/SearchOverlay.tsx:38-42 | lower-casing does not change whether a query is blank |
| Text.MissingPair | University_App_Dashboard/src/components/SearchOverlay.tsx:41-42 | a two-character piece of the needle that the text never contains rules out `includes` |
| Text.LowerMissingPair | University_App_Dashboard/src/components/SearchOverlay.tsx:41-42 | the same after both sides are lower-cased |
| Text.LowerMissingChar | University_App_Dashboard/src/components/SearchOverlay.tsx:41-42 | a needle character that the lower-cased text lacks rules out `includes` |
| Text.Contains | University_App_Dashboard/src/components/SearchOverlay.tsx:41-42 | `includes`: the needle occurs at some position of the text (a definition; `MissingPair`, `LowerMissingChar` and `ContainsTail` are its laws) |
| Text.ContainsTail | University_App_Dashboard/src/components/SearchOverlay.tsx:41-42 | a text that includes a needle includes the needle's tail |
| Text.Split | University_App_Dashboard/src/components/AcademicsPage.tsx:332 | `split(" ")` gives at least one word and no word holds the separator |
| Text.Join | University_App_Dashboard/src/components/AcademicsPage.tsx:332 | `join(sep)`: the words with the separator between each two (no contract of its own; `JoinSplit` ties it to `Split`) |
| Text.JoinSplit | University_App_Dashboard/src/components/AcademicsPage.tsx:332 | joining the split words with the separator gives back the text |
| Notifications.Ids | University_App_Dashboard/src/components/NotificationsPage.tsx:34-125 | the ids of the list, position by position |
| Notifications.Filtered | University_App_Dashboard/src/components/NotificationsPage.tsx:139-140 | the "all" tab shows the whole list; any other tab shows exactly the notifications of its type |
| Notifications.FilteredIsExactView | University_App_Dashboard/src/components/NotificationsPage.tsx:139-140 | a tab's view keeps the list's order and every occurrence of its type (multiset) |
| Notifications.AllMarkedRead | University_App_Dashboard/src/components/NotificationsPage.tsx:144-145 | every notification becomes read and nothing else about it changes |
| Notifications.MarkedRead | University_App_Dashboard/src/components/NotificationsPage.tsx:147-150 | the notification with the given id becomes read; all others and all other fields are unchanged |
| Notifications.Without | University_App_Dashboard/src/components/NotificationsPage.tsx:152-153 | the list keeps exactly the notifications whose id differs |
| Notifications.UnreadCount | University_App_Dashboard/src/components/NotificationsPage.tsx:142 | the number of unread notifications (no contract of its own; `TabCountZeroIff` with the "all" tab bounds it and says when it is 0) |
| Notifications.TabCount | University_App_Dashboard/src/components/NotificationsPage.tsx:192-195 | the badge of a tab: unread records of the whole list under "all", unread records of the tab's type otherwise (laws in `TabCountZeroIff`, `TabCountIsUnreadInView`, `CategoryBadgesSum`) |
| Notifications.TabCountZeroIff | University_App_Dashboard/src/components/NotificationsPage.tsx:192-195 | a badge is at most the list length, and it is 0 exactly when every record under its tab is read |
| Notifications.MarkAllOffered | University_App_Dashboard/src/components/NotificationsPage.tsx:176 | the "Mark all as read" button is shown while the unread count is positive (`MarkAllOfferedIff` restates it over the records) |
| Notifications.MarkReadOffered | University_App_Dashboard/src/components/NotificationsPage.tsx:273 | a card offers "Mark as read" while its record is unread |
| Notifications.MarkedReadNotOffered | University_App_Dashboard/src/components/NotificationsPage.tsx:273 | after marking an id read, no card with that id offers "Mark as read" |
| Notifications.WithoutIsExact | University_App_Dashboard/src/components/NotificationsPage.tsx:152-153 | dismissing keeps order and every occurrence of the other ids (multiset) |
| Notifications.UnreadCons | University_App_Dashboard/src/components/NotificationsPage.tsx:142 | the unread count adds one for each unread head |
| Notifications.TabCountCons | University_App_Dashboard/src/components/NotificationsPage.tsx:192-195 | the tab count adds one for each unread head of the tab's type |
| Notifications.FilteredCons | University_App_Dashboard/src/components/NotificationsPage.tsx:139-140 | the tab view keeps the head when it has the tab's type |
| Notifications.MarkAllOfferedIff | University_App_Dashboard/src/components/NotificationsPage.tsx:176 | the "Mark all as read" button is shown exactly when some notification is unread |
| Notifications.AllMarkedReadClearsBadges | University_App_Dashboard/src/components/NotificationsPage.tsx:144-145 | after marking all read, every badge is 0 and the button disappears |
| Notifications.AllMarkedReadIdempotent | University_App_Dashboard/src/components/NotificationsPage.tsx:144-145 | marking all read twice equals once, and ids are kept |
| Notifications.MarkedReadAbsent | University_App_Dashboard/src/components/NotificationsPage.tsx:147-150 | marking an absent id changes nothing |
| Notifications.MarkedReadIdempotent | University_App_Dashboard/src/components/NotificationsPage.tsx:147-150 | marking the same id twice equals once |
| Notifications.MarkedReadCons | University_App_Dashboard/src/components/NotificationsPage.tsx:147-150 | marking read works head first, then the tail |
| Notifications.MarkedReadUnreadCount | University_App_Dashboard/src/components/NotificationsPage.tsx:142-150 | with unique ids, marking one read lowers the unread count by one if it was unread, else leaves it |
| Notifications.WithoutAbsent | University_App_Dashboard/src/components/NotificationsPage.tsx:152-153 | dismissing an absent id changes nothing |
| Notifications.DismissThenMarkRead | University_App_Dashboard/src/components/NotificationsPage.tsx:147-153 | after dismissing an id, marking it read changes nothing |
| Notifications.WithoutIdempotent | University_App_Dashboard/src/components/NotificationsPage.tsx:152-153 | dismissing the same id twice equals once |
| Notifications.WithoutUniqueIds | University_App_Dashboard/src/components/NotificationsPage.tsx:152-153 | dismissing keeps the ids unique |
| Notifications.TabCountIsUnreadInView | University_App_Dashboard/src/components/NotificationsPage.tsx:192-195 | a tab's badge is the unread count of that tab's view |
| Notifications.CategoryBadgesSum | University_App_Dashboard/src/components/NotificationsPage.tsx:192-195 | the four category badges add up to the "all" badge |
| Notifications.InitialIds | University_App_Dashboard/src/components/NotificationsPage.tsx:34-125 | the seed ids are 1 to 8 and unique |
| Notifications.NumberedUnique | University_App_Dashboard/src/components/NotificationsPage.tsx:34-125 | a list numbered 1, 2, … has unique ids |
| Notifications.UniqueIdsDistinct | University_App_Dashboard/src/components/NotificationsPage.tsx:34-125 | unique ids make the notifications distinct |
| Notifications.InitialUnreadCount | University_App_Dashboard/src/components/NotificationsPage.tsx:34-125 | the page opens with 3 unread |
| Notifications.InitialUnreadIds | University_App_Dashboard/src/components/NotificationsPage.tsx:34-125 | exactly ids 1, 2 and 3 start unread |
| Notifications.InitialFinancialBadge | University_App_Dashboard/src/components/NotificationsPage.tsx:34-125 | the Financial badge starts at 1 |
| Notifications.InitialAllBadge | University_App_Dashboard/src/components/NotificationsPage.tsx:34-125 | the All badge starts at 3 |
| Notifications.NotificationsPage.constructor | University_App_Dashboard/src/components/NotificationsPage.tsx:136-137 | the page opens on the "all" tab with the seed list |
| Notifications.NotificationsPage.View | University_App_Dashboard/src/components/NotificationsPage.tsx:139-140 | the cards shown: the current list under the selected tab |
| Notifications.NotificationsPage.Badge | University_App_Dashboard/src/components/NotificationsPage.tsx:192-195 | the badge of a tab for the current list, whichever tab is selected |
| Notifications.NotificationsPage.SetActive | University_App_Dashboard/src/components/NotificationsPage.tsx:199 | a tab click selects that tab and leaves the list alone |
| Notifications.NotificationsPage.MarkAllRead | University_App_Dashboard/src/components/NotificationsPage.tsx:144-145 | the list becomes all read, the tab is kept, and the unread count is 0 |
| Notifications.NotificationsPage.MarkRead | University_App_Dashboard/src/components/NotificationsPage.tsx:147-150 | the list becomes the marked list and unique ids are kept |
| Notifications.NotificationsPage.DeleteNotif | University_App_Dashboard/src/components/NotificationsPage.tsx:152-153 | the list loses that id and unique ids are kept |
| Search.Results | University_App_Dashboard/src/components/SearchOverlay.tsx:38-44 | a blank query gives no results; otherwise the results are exactly the catalog entries whose title or subtitle includes the query, ignoring case |
| Search.Matches | University_App_Dashboard/src/components/SearchOverlay.tsx:40-42 | an entry matches when its title or its subtitle includes the query, both lower-cased |
| Search.TextMatches | University_App_Dashboard/src/components/SearchOverlay.tsx:41-42 | `text.toLowerCase().includes(query.toLowerCase())` |
| Search.GroupsIn | University_App_Dashboard/src/components/SearchOverlay.tsx:155-157 | each group has a listed kind and holds exactly the non-empty filter of that kind |
| Search.OfKind | University_App_Dashboard/src/components/SearchOverlay.tsx:156 | the results of one type, in order (a filter; `Seqs.Filter` carries its contract) |
| Search.GroupFor | University_App_Dashboard/src/components/SearchOverlay.tsx:156-157 | the group of one type, or nothing when that type has no results |
| Search.Grouped | University_App_Dashboard/src/components/SearchOverlay.tsx:155-157 | grouping in the order Course, Faculty, Program, Page (its laws are `GroupsIn`, `GroupsInOrder` and `GroupedPermutes`) |
| Search.Display | University_App_Dashboard/src/components/SearchOverlay.tsx:103-157 | suggestions exactly for a blank query; "No results" echoing the query exactly when nothing matches; otherwise the non-empty grouped results |
| Search.CatalogKinds | University_App_Dashboard/src/components/SearchOverlay.tsx:13-24 | every catalog entry is a Course, Faculty, Program or Page |
| Search.CatalogDistinct | University_App_Dashboard/src/components/SearchOverlay.tsx:13-24 | the catalog has no duplicate entries |
| Search.ResultsOrderedDistinct | University_App_Dashboard/src/components/SearchOverlay.tsx:38-44 | results keep catalog order and hold no duplicates |
| Search.ResultsIgnoreCase | University_App_Dashboard/src/components/SearchOverlay.tsx:41-42 | queries that lower-case alike give the same results |
| Search.ResultsRefilter | University_App_Dashboard/src/components/SearchOverlay.tsx:38-44 | for every query, blank or not, filtering the results again by the query changes nothing |
| Search.GroupsInOrder | University_App_Dashboard/src/components/SearchOverlay.tsx:155 | groups appear in the order of the kind list |
| Search.GroupsCoverKinds | University_App_Dashboard/src/components/SearchOverlay.tsx:155-157 | the grouped entries are exactly the results of the listed kinds (multiset) |
| Search.GroupedIsPermutation | University_App_Dashboard/src/components/SearchOverlay.tsx:155-157 | over the catalog, grouping loses and duplicates no result |
| Search.GroupedPermutes | University_App_Dashboard/src/components/SearchOverlay.tsx:155-157 | the same for any list of known kinds |
| Search.GroupOrderDistinct | University_App_Dashboard/src/components/SearchOverlay.tsx:155 | the four group kinds are distinct |
| Search.IntroToCsTitle | University_App_Dashboard/src/components/SearchOverlay.tsx:14 | the title misses "calc" and includes "computer science" |
| Search.IntroToCsSubtitle | University_App_Dashboard/src/components/SearchOverlay.tsx:14 | the subtitle misses "calc" |
| Search.CalculusText | University_App_Dashboard/src/components/SearchOverlay.tsx:15 | the title includes "calc"; neither text includes "computer science" or " calc" |
| Search.ChemistryTitle | University_App_Dashboard/src/components/SearchOverlay.tsx:16 | the title misses both queries |
| Search.ChemistrySubtitle | University_App_Dashboard/src/components/SearchOverlay.tsx:16 | the subtitle misses both queries |
| Search.EvansText | University_App_Dashboard/src/components/SearchOverlay.tsx:17 | misses "calc"; the subtitle includes "computer science" |
| Search.CarterText | University_App_Dashboard/src/components/SearchOverlay.tsx:18 | misses both queries |
| Search.BscText | University_App_Dashboard/src/components/SearchOverlay.tsx:19 | misses "calc"; the title includes "computer science" |
| Search.MbaText | University_App_Dashboard/src/components/SearchOverlay.tsx:20 | misses both queries |
| Search.AdmissionsText | University_App_Dashboard/src/components/SearchOverlay.tsx:21 | misses both queries |
| Search.FinancialAidTitle | University_App_Dashboard/src/components/SearchOverlay.tsx:22 | the title misses both queries |
| Search.FinancialAidSubtitle | University_App_Dashboard/src/components/SearchOverlay.tsx:22 | the subtitle misses both queries |
| Search.CampusMapText | University_App_Dashboard/src/components/SearchOverlay.tsx:23 | misses both queries |
| Search.MissesLonger | University_App_Dashboard/src/components/SearchOverlay.tsx:41-42 | an entry that misses the query without its first character misses the whole query |
| Search.CalcMatches | University_App_Dashboard/src/components/SearchOverlay.tsx:14-23 | "calc" matches Calculus III and no other entry |
| Search.ComputerScienceMatches | University_App_Dashboard/src/components/SearchOverlay.tsx:14-23 | "computer science" matches exactly the intro course, Dr. Evans and the BSc |
| Search.LettersNotBlank | University_App_Dashboard/src/components/SearchOverlay.tsx:38 | a query ending in a lower-case letter is not blank |
| Search.SingleResult | University_App_Dashboard/src/components/SearchOverlay.tsx:38-44 | a query exactly one distinct entry matches has that entry as its only result |
| Search.GroupsInFour | University_App_Dashboard/src/components/SearchOverlay.tsx:155-157 | grouping by four kinds is the four groups in order |
| Search.GroupedOneCourse | University_App_Dashboard/src/components/SearchOverlay.tsx:155-157 | a single course forms one "Course" group |
| Search.OfKindThree | University_App_Dashboard/src/components/SearchOverlay.tsx:156 | a course, a faculty member and a program split one per kind |
| Search.GroupedThreeKinds | University_App_Dashboard/src/components/SearchOverlay.tsx:155-157 | those three form the Course, Faculty and Program groups in that order |
| Search.CalcMembers | University_App_Dashboard/src/components/SearchOverlay.tsx:13-24 | Calculus III is the one catalog entry matching "calc" |
| Search.CalcQuery | University_App_Dashboard/src/components/SearchOverlay.tsx:38-44 | "calc" gives [Calculus III] under a single Course heading |
| Search.ComputerScienceMembers | University_App_Dashboard/src/components/SearchOverlay.tsx:13-24 | a catalog entry matches "computer science" iff it is one of the three |
| Search.ThreeResults | University_App_Dashboard/src/components/SearchOverlay.tsx:38-44 | a query matching exactly three entries has exactly those as results |
| Search.FlattenThree | University_App_Dashboard/src/components/SearchOverlay.tsx:155-157 | three groups show their entries one group after another |
| Search.ThreeKindsShown | University_App_Dashboard/src/components/SearchOverlay.tsx:38-44 | three matches of three kinds show as one result in each of three groups |
| Search.ComputerScienceQuery | University_App_Dashboard/src/components/SearchOverlay.tsx:38-44 | "computer science" gives the three entries, under Course, Faculty and Program |
| Search.UntrimmedMisses | University_App_Dashboard/src/components/SearchOverlay.tsx:39-43 | " calc" with its space matches nothing, because matching does not trim |
| Search.UntrimmedQuery | University_App_Dashboard/src/components/SearchOverlay.tsx:38-44 | " calc" shows "No results" |
| Search.CapitalNotBlank | University_App_Dashboard/src/components/SearchOverlay.tsx:26-27 | a text starting with a capital letter is not blank |
| Search.RecentNotBlank | University_App_Dashboard/src/components/SearchOverlay.tsx:26 | no recent search is blank |
| Search.TrendingNotBlank | University_App_Dashboard/src/components/SearchOverlay.tsx:27 | no trending item is blank |
| Search.SuggestionsNotBlank | University_App_Dashboard/src/components/SearchOverlay.tsx:26-27 | no suggestion is blank |
| Search.SearchOverlay.constructor | University_App_Dashboard/src/components/SearchOverlay.tsx:35 | the query starts empty |
| Search.SearchOverlay.Shown | University_App_Dashboard/src/components/SearchOverlay.tsx:103-157 | the panel under the input is `Display` of the catalog and the current query |
| Search.SearchOverlay.Input | University_App_Dashboard/src/components/SearchOverlay.tsx:81 | typing sets the query to the input's value |
| Search.SearchOverlay.Clear | University_App_Dashboard/src/components/SearchOverlay.tsx:85-88 | clearing empties the query and the suggestions come back |
| Search.SearchOverlay.PickSuggestion | University_App_Dashboard/src/components/SearchOverlay.tsx:103-132 | picking a suggestion sets the query to it and the suggestions give way |
| Search.SearchOverlay.OpenChanged | University_App_Dashboard/src/components/SearchOverlay.tsx:46-52 | closing empties the query; opening keeps it |
| Academics.Filtered | University_App_Dashboard/src/components/AcademicsPage.tsx:82 | "all" shows every program; any other level shows exactly the programs of that level |
| Academics.FilteredIsExactView | University_App_Dashboard/src/components/AcademicsPage.tsx:82 | a level's view keeps order and every occurrence of its programs (multiset) |
| Academics.LevelViewsPartition | University_App_Dashboard/src/components/AcademicsPage.tsx:35-45 | over programs of real levels, the three level views cover the list, never overlap, and their sizes add up to its length |
| Academics.FilteredIsOfLevel | University_App_Dashboard/src/components/AcademicsPage.tsx:82 | a level's view equals the index-based unfolding of the filter used for the seed views |
| Academics.FilterFromIsOfLevel | University_App_Dashboard/src/components/AcademicsPage.tsx:82 | the same from any starting index |
| Academics.SeedLevelsHold | University_App_Dashboard/src/components/AcademicsPage.tsx:35-45 | the seed programs have the levels listed in the source |
| Academics.SeedLevelsNoAll | University_App_Dashboard/src/components/AcademicsPage.tsx:35-45 | no seed program has the level "all" |
| Academics.UndergraduateOfSeed | University_App_Dashboard/src/components/AcademicsPage.tsx:35-45 | the undergraduate view is programs 1, 2, 4 and 6 |
| Academics.GraduateOfSeed | University_App_Dashboard/src/components/AcademicsPage.tsx:35-45 | the graduate view is programs 3, 5 and 8 |
| Academics.OnlineOfSeed | University_App_Dashboard/src/components/AcademicsPage.tsx:35-45 | the online view is programs 7 and 9 |
| Academics.SeedViews | University_App_Dashboard/src/components/AcademicsPage.tsx:35-45 | the three level views of the seed list, exactly |
| Academics.SeedViewSizes | University_App_Dashboard/src/components/AcademicsPage.tsx:35-45 | the page opens showing 9 programs; the level views hold 4, 3 and 2 and together cover the list |
| Academics.Heads | University_App_Dashboard/src/components/AcademicsPage.tsx:332 | `map((n) => n[0]).join("")` yields at most one character per word |
| Academics.WordStarts | University_App_Dashboard/src/components/AcademicsPage.tsx:332 | the word starts are characters of the name and never a space |
| Academics.Take | University_App_Dashboard/src/components/AcademicsPage.tsx:332 | `slice(0, n)` is the prefix of length min(n, length) |
| Academics.Initials | University_App_Dashboard/src/components/AcademicsPage.tsx:332 | the initials are the first two word starts of the name: at most two characters, none a space |
| Academics.HeadsOfSplit | University_App_Dashboard/src/components/AcademicsPage.tsx:332 | the first letters of the split words are exactly the word starts, and empty words add nothing |
| Academics.WordStartsPrefix | University_App_Dashboard/src/components/AcademicsPage.tsx:332 | the word starts of a beginning of a text begin the text's word starts |
| Academics.InitialsFromHead | University_App_Dashboard/src/components/AcademicsPage.tsx:332 | two word starts at the head of a name are its initials |
| Academics.WordStartsAppend | University_App_Dashboard/src/components/AcademicsPage.tsx:332 | the word starts of two texts in a row are those of the first followed by those of the second, which starts a word exactly when the first is empty or ends in a space |
| Academics.WordStartsOneWord | University_App_Dashboard/src/components/AcademicsPage.tsx:332 | a text without spaces has its first character as its only word start when it starts a word, and none otherwise |
| Academics.TitleInitials | University_App_Dashboard/src/components/AcademicsPage.tsx:332 | a name made of a one-word title, a space and a word starting with `c` has initials "title[0] c": titles count as words |
| Academics.FacultyInitials | University_App_Dashboard/src/components/AcademicsPage.tsx:332 | the four faculty cards (lines 73-76) show "DS", "PJ", "DP" and "PL" |
| Admissions.Toggled | University_App_Dashboard/src/components/AdmissionsPage.tsx:379 | a click closes everything exactly when the card was open, and otherwise opens that card |
| Admissions.ToggledTwice | University_App_Dashboard/src/components/AdmissionsPage.tsx:379 | two clicks on one card: an open card is open again, a closed one leaves every card closed |
| Admissions.AnswersFrom | University_App_Dashboard/src/components/AdmissionsPage.tsx:372-392 | from a position on, the cards render the open card's answer if it lies there, else nothing |
| Admissions.AnswersShown | University_App_Dashboard/src/components/AdmissionsPage.tsx:388 | at most one answer is shown, it is there exactly when the open index names a card, and it is that card's answer |
| Admissions.FaqAccordion.constructor | University_App_Dashboard/src/components/AdmissionsPage.tsx:144 | the page opens with every card closed and no answer shown |
| Admissions.FaqAccordion.Shown | University_App_Dashboard/src/components/AdmissionsPage.tsx:388 | the answers on screen for the current open index |
| Admissions.FaqAccordion.Click | University_App_Dashboard/src/components/AdmissionsPage.tsx:379 | the open index follows the click rule; clicking the open card hides every answer, any other shows just its answer |
| Contact.Set | University_App_Dashboard/src/components/ContactSection.tsx:72 | the named field takes the value and the other four keep theirs |
| Contact.FieldsDetermineForm | University_App_Dashboard/src/components/ContactSection.tsx:59-65 | forms equal field by field are equal |
| Contact.SetLaws | University_App_Dashboard/src/components/ContactSection.tsx:72 | writing a field's own value changes nothing; a second write replaces the first |
| Contact.EmptyFormFields | University_App_Dashboard/src/components/ContactSection.tsx:59-65 | every field of the empty form is "" |
| Contact.ContactForm.constructor | University_App_Dashboard/src/components/ContactSection.tsx:59-67 | the form starts empty, not loading, not submitted |
| Contact.ContactForm.FormShown | University_App_Dashboard/src/components/ContactSection.tsx:172 | the form is on screen until a message has been sent |
| Contact.ContactForm.SubmitEnabled | University_App_Dashboard/src/components/ContactSection.tsx:286 | the submit button is disabled while sending |
| Contact.ContactForm.SendingShowsForm | University_App_Dashboard/src/components/ContactSection.tsx:172 | in every reachable state, while a message is being sent the form stays shown with its button disabled, so the confirmation never shows during a send |
| Contact.ContactForm.HandleChange | University_App_Dashboard/src/components/ContactSection.tsx:69-73 | one field changes; the flags are kept |
| Contact.ContactForm.HandleSubmit | University_App_Dashboard/src/components/ContactSection.tsx:75-77 | sending starts, the button disables, and the form keeps its contents |
| Contact.ContactForm.TimerFires | University_App_Dashboard/src/components/ContactSection.tsx:78-81 | sending stops, the message counts as sent, and the form is replaced by the confirmation |
| Contact.ContactForm.HandleReset | University_App_Dashboard/src/components/ContactSection.tsx:84-87 | the form comes back empty and shown; `loading` is untouched |
| Account.Toggle | University_App_Dashboard/src/components/AccountPage.tsx:54 | a switch click reports the opposite of the switch's value |
| Account.ToggleTwice | University_App_Dashboard/src/components/AccountPage.tsx:54 | two clicks on a switch report the value it started with |
| Account.Entries | University_App_Dashboard/src/components/AccountPage.tsx:89 | one id/default pair per option, in order |
| Account.FromEntries | University_App_Dashboard/src/components/AccountPage.tsx:89 | `Object.fromEntries` has exactly the entries' keys |
| Account.FromEntriesLast | University_App_Dashboard/src/components/AccountPage.tsx:89 | a key maps to the value of its last entry |
| Account.Ids | University_App_Dashboard/src/components/AccountPage.tsx:34-42 | the option ids, position by position |
| Account.SettingsFromOptions | University_App_Dashboard/src/components/AccountPage.tsx:88-90 | with distinct ids, the initial map has exactly the option ids as keys and each maps to its default |
| Account.OptionIdsDistinct | University_App_Dashboard/src/components/AccountPage.tsx:34-42 | the seven option ids are distinct and are the listed id set |
| Account.InitialSettingsDefaults | University_App_Dashboard/src/components/AccountPage.tsx:34-42 | the page opens with a switch per option: events and news off, the other five on |
| Account.WithSetting | University_App_Dashboard/src/components/AccountPage.tsx:430-432 | the key takes the value, every other key keeps its own, and no other key appears |
| Account.ClickTwiceRestores | University_App_Dashboard/src/components/AccountPage.tsx:430-432 | clicking the same switch twice gives back the starting map |
| Account.SetField | University_App_Dashboard/src/components/AccountPage.tsx:242-246 | the edited field takes the value; the other editable fields and the academic fields keep theirs |
| Account.FieldsDetermineProfile | University_App_Dashboard/src/components/AccountPage.tsx:75-86 | profiles equal on every field are equal |
| Account.SetFieldLaws | University_App_Dashboard/src/components/AccountPage.tsx:242-246 | writing a field's value back changes nothing; a second edit replaces the first; edits of different fields commute |
| Account.PrivacyShown | University_App_Dashboard/src/components/AccountPage.tsx:496-527 | each privacy switch shows its listed value |
| Account.AccountPage.constructor | University_App_Dashboard/src/components/AccountPage.tsx:70-90 | the page opens with the default switches and the seed profile, not editing, with no banner |
| Account.AccountPage.ClickNotif | University_App_Dashboard/src/components/AccountPage.tsx:430-432 | only the clicked option's switch flips; the other switches and the key set are unchanged |
| Account.AccountPage.StartEdit | University_App_Dashboard/src/components/AccountPage.tsx:190 | "Edit Profile" enables the inputs and changes nothing else |
| Account.AccountPage.Input | University_App_Dashboard/src/components/AccountPage.tsx:242-248 | while editing, typing changes only that field; a disabled input changes nothing |
| Account.AccountPage.Save | University_App_Dashboard/src/components/AccountPage.tsx:92-96 | the banner goes up, editing ends, the profile is kept as edited, and a banner timer starts |
| Account.AccountPage.SaveTimerFires | University_App_Dashboard/src/components/AccountPage.tsx:95 | a pending banner timer fires and takes the banner down |
| Account.AccountPage.Cancel | University_App_Dashboard/src/components/AccountPage.tsx:199-201 | editing ends and the typed edits are kept, not reverted |
| Account.AccountPage.ClickPrivacy | University_App_Dashboard/src/components/AccountPage.tsx:496-532 | a privacy switch click reaches a handler that does nothing, so the switches still show off, off, on, off |

## Left out

- JSX rendering, CSS classes, icons, images and colours are presentational only. The icon and colour fields are dropped from the records.
- The other components of the dashboard are not part of this model.
- Timers are not clocks here:
  - the contact form's 1.2 s send timer and the account page's 3 s banner timer are explicit event methods;
  - the search overlay's 50 ms focus timer is left out with focus handling.
- The overlay's window `keydown` listener is represented only by its effect: closing through `OpenChanged(false)`.
- Search.Results: lower-casing covers ASCII letters only, not the full Unicode `toLowerCase`.
- Notifications: the navigation bar's fixed unread badge (`MOCK_UNREAD` in `Navigation.tsx`) is not part of this model and is not tied to this page's list.
- Account: the active tab and the two password-visibility flags are left out. They only select what is drawn.
- Account: the "Save Preferences" button and the delivery-method cards have no handler or state.
- Account: the security tab's password inputs hold no component state, and its "Update Password" button has no handler; neither is modelled.
- Contact.ContactForm.HandleSubmit: the browser's `required` and email-format checks that run before submit are not modelled.
- Contact.ContactForm.HandleSubmit: sending always succeeds, as the simulated timer does.
- Contact: the department `select` options are not enforced on the field value.
- Contact: the message length counter is display only.
- Academics: the filter buttons' labels are display only; the filter is the `ProgramLevel` value.
- Account.AccountPage.Input: a disabled input delivers no change event, so the method leaves the profile as it was rather than reaching the handler.
