# mcp-desk: a Dafny model of the dashboard's state logic

mcp-desk is an Electron desktop dashboard. Its renderer holds a chat page, a settings page and a
set of widgets. This project models the state logic of those components as pure Dafny functions
over immutable records, and proves properties about them:

- `ChatStore` models the chat page. It covers the list of chats, the current chat id, the input
  box, and the per-chat tool switches. It models creating and deleting chats, editing titles,
  sending a message, deriving a title from a first message, the tools badge, and saving the
  chats to storage and loading them back.
- `Contributions` models the GitHub activity widget. It covers the colour level of a day, the
  current and longest streaks, the star, fork and contribution totals, the week grid, the month
  labels above the grid, and the five-minute cache.
- `Weather` maps WMO weather codes to a condition label, and a label to an icon.
- `Todos` models the to-do widget's add, toggle and remove.
- `Settings` models the settings record and its default. It covers editing one field of a photo
  or a song, adding and removing songs, and the avatar initials.
- `Playlist` models the music widget: cyclic skipping, the once-a-second tick, and the "m:ss"
  time display.
- `Carousel` models the photo carousel: cyclic slides locked during an animation, the dots, and
  each slide's offset.
- `Cyclic` holds the wrap-around step arithmetic that the music widget and the carousel share.
- `Text`, `Seqs` and `Wrappers` are shared helpers. `Text` holds JavaScript's `trim`,
  `split`, `join`, `toString` and `padStart` as they are used here, and `Seqs` holds
  `filter` and sums.

Each React state update becomes a function from the old state to the new one. Values the
components read from the clock (`Date.now()` ids and timestamps), from local storage or from the
network become parameters.

## Model

| member | source | states |
|---|---|---|
| Text.Trim | src/renderer/src/components/pages/ChatPage.tsx:107 | the result is the input with a leading and a trailing whitespace run removed, and neither end is whitespace; it is empty exactly when the input is all whitespace |
| Text.TrimIdempotent | src/renderer/src/components/pages/ChatPage.tsx:155-159 | trimming an already trimmed string changes nothing |
| Text.SplitOn | src/renderer/src/components/pages/ChatPage.tsx:107 | `split(' ')` yields at least one piece, and no piece contains the separator |
| Text.SplitJoin | src/renderer/src/components/pages/SettingsPage.tsx:195 | joining the pieces of a split with the same separator gives back the original string |
| Text.SplitPair | src/renderer/src/components/widgets/MusicWidget.tsx:180 | two separator-free strings joined by one separator split into exactly those two |
| Text.Decimal | src/renderer/src/components/widgets/MusicWidget.tsx:180 | `toString` of a non-negative integer is a non-empty run of digits with no leading zero |
| Text.DecimalRoundTrip | src/renderer/src/components/widgets/MusicWidget.tsx:180 | reading the decimal text back gives the number |
| Text.DecimalOfParse | src/renderer/src/components/widgets/MusicWidget.tsx:180 | a digit string without a leading zero is the `toString` of the number it reads as, so decimal text is unique |
| Text.PadStart2 | src/renderer/src/components/widgets/MusicWidget.tsx:180 | `padStart(2, '0')` keeps the string as its suffix and fills in front with zeros up to length two |
| Seqs.Filter | src/renderer/src/components/widgets/TodoWidget.tsx:53 | every kept element passes the test and came from the input, and every input element that passes is kept |
| Seqs.FilterAppend | src/renderer/src/components/widgets/TodoWidget.tsx:53 | filtering a concatenation filters each part: survivors keep their relative order |
| ChatStore.PackTitle | src/renderer/src/components/pages/ChatPage.tsx:110-116 | the packing loop only extends the title, and a title of at most 26 characters stays within 26 |
| ChatStore.GenerateChatTitle | src/renderer/src/components/pages/ChatPage.tsx:106-119 | a generated title ends in "...", is at most 29 characters long, and is just "..." when the first word alone is longer than 25 characters |
| ChatStore.TitleIsGreedyPrefix | src/renderer/src/components/pages/ChatPage.tsx:106-119 | the part before "..." joins the trimmed message's first k words with single spaces, where k is where the greedy scan stops: every earlier word fits in 25 characters, not counting the joining spaces, and word k does not |
| ChatStore.LoadChats | src/renderer/src/components/pages/ChatPage.tsx:72-82 | nothing stored gives no chats; each stored chat keeps its id, title, messages, creation time and editing flag, and a chat stored without tools gets the four default tools, all disabled |
| ChatStore.LoadStoreRoundTrip | src/renderer/src/components/pages/ChatPage.tsx:72-82 | saving the chats and loading them again gives back the same chats |
| ChatStore.LoadedDefaultsAreDisabled | src/renderer/src/components/pages/ChatPage.tsx:44-69 | a chat loaded without tools has four tools and none enabled |
| ChatStore.InitialPage | src/renderer/src/components/pages/ChatPage.tsx:72-90 | the start-up page holds the loaded chats and exactly the stored current id, or "" when none is stored, with an empty input and the sidebar closed |
| ChatStore.CreateNewChat | src/renderer/src/components/pages/ChatPage.tsx:121-132 | the new chat goes first, with the given id, the title "New Chat", no messages and the four default tools, all disabled; its creation time is the given clock reading and it is not being edited; it becomes current and the sidebar closes; the other chats follow unchanged |
| ChatStore.RemoveChat | src/renderer/src/components/pages/ChatPage.tsx:135 | the survivors are exactly the chats whose id differs from the deleted one |
| ChatStore.RemoveChatAppend | src/renderer/src/components/pages/ChatPage.tsx:135 | deletion keeps the survivors in their order |
| ChatStore.DeleteChat | src/renderer/src/components/pages/ChatPage.tsx:134-139 | as written: the chat list loses the deleted id; when the deleted chat was current, the new current id is the first id of the list before deletion |
| ChatStore.DeleteChatLeavesDanglingId | src/renderer/src/components/pages/ChatPage.tsx:134-139 | deleting current chat "a" from [a, b] leaves the current id "a", which no longer names a chat |
| ChatStore.DeleteChatSelectingSurvivor | src/renderer/src/components/pages/ChatPage.tsx:134-139 | corrected deletion: the same list, and a current id that names a chat still stays valid afterwards |
| ChatStore.CreateThenDelete | src/renderer/src/components/pages/ChatPage.tsx:121-139 | creating a chat under an unused id and deleting it restores the chat list |
| ChatStore.StartEditingTitle | src/renderer/src/components/pages/ChatPage.tsx:141-152 | exactly the chats with the given id show the title editor; nothing else changes |
| ChatStore.EditingIsExclusive | src/renderer/src/components/pages/ChatPage.tsx:141-152 | with distinct ids, at most one chat is being edited |
| ChatStore.FinishEditingTitle | src/renderer/src/components/pages/ChatPage.tsx:154-168 | every editor closes; the chosen chats take the trimmed new title unless it is blank; nothing else changes |
| ChatStore.EditingFlagIsTransient | src/renderer/src/components/pages/ChatPage.tsx:141-168 | finishing an edit erases every trace of having opened the editor |
| ChatStore.FinishWithoutChange | src/renderer/src/components/pages/ChatPage.tsx:163-167 | a blank title, or the title the chat already has, only closes the editors |
| ChatStore.SendMessage | src/renderer/src/components/pages/ChatPage.tsx:170-194 | a blank input or no current chat changes nothing; otherwise the input clears, the current id and the sidebar stay, and the current chat alone gains the trimmed user message; a chat with no messages is retitled from it |
| ChatStore.FirstMessageNamesChat | src/renderer/src/components/pages/ChatPage.tsx:185-187 | the first message of a chat gives it the title generated from the message |
| ChatStore.SendAddsOneMessage | src/renderer/src/components/pages/ChatPage.tsx:170-194 | with distinct ids, sending adds exactly one message across all chats |
| ChatStore.FlipTool | src/renderer/src/components/pages/ChatPage.tsx:218-231 | only the enabled flags of tools with the given id flip; the tools and their order stay |
| ChatStore.SetAllTools | src/renderer/src/components/pages/ChatPage.tsx:233-257 | every tool ends with the same flag; the tools and their order stay |
| ChatStore.ToggleTool | src/renderer/src/components/pages/ChatPage.tsx:218-231 | only the current chat's tool list changes, by flipping the given tool |
| ChatStore.ToggleToolInvolution | src/renderer/src/components/pages/ChatPage.tsx:218-231 | toggling the same tool twice restores the page |
| ChatStore.EnableAllTools | src/renderer/src/components/pages/ChatPage.tsx:233-244 | the current chat's tools are all enabled; other chats are untouched |
| ChatStore.DisableAllTools | src/renderer/src/components/pages/ChatPage.tsx:246-257 | the current chat's tools are all disabled; other chats are untouched |
| ChatStore.BulkToolsIdempotent | src/renderer/src/components/pages/ChatPage.tsx:233-257 | each bulk action is idempotent, and after two of them only the later one shows |
| ChatStore.EnabledCountBounds | src/renderer/src/components/pages/ChatPage.tsx:386-389 | the badge count lies between 0 and the number of tools, with both ends reached by all-disabled and all-enabled lists |
| ChatStore.BulkToolsBadge | src/renderer/src/components/pages/ChatPage.tsx:233-257 | after "enable all" the badge shows every tool; after "disable all" it shows none |
| ChatStore.ToggleMovesBadgeByOne | src/renderer/src/components/pages/ChatPage.tsx:218-231 | with distinct tool ids, toggling one tool moves the badge count up or down by exactly one, in the direction of its new flag |
| Contributions.CeilDiv | src/renderer/src/components/widgets/GitHubWidget.tsx:84 | `Math.ceil(a / b)` is the least r with b * r >= a |
| Contributions.Level | src/renderer/src/components/widgets/GitHubWidget.tsx:84 | the level is at most 4, and it is 0 exactly for a day without contributions |
| Contributions.LevelByThresholds | src/renderer/src/components/widgets/GitHubWidget.tsx:84 | the level counts the thresholds 1, 6, 11 and 16 that the day reaches |
| Contributions.LevelMonotone | src/renderer/src/components/widgets/GitHubWidget.tsx:84 | more contributions never give a lower level |
| Contributions.StreakStep | src/renderer/src/components/widgets/GitHubWidget.tsx:93-101 | one day of the streak loop never lowers the longest streak and keeps the running and current streaks at most the longest |
| Contributions.ScanFromEnd | src/renderer/src/components/widgets/GitHubWidget.tsx:90-102 | after the loop, the current streak is at most the longest, the longest is at most the number of days, and the running streak is at most the longest |
| Contributions.LeadingRun | src/renderer/src/components/widgets/GitHubWidget.tsx:90-102 | the run at the head of the list is no longer than the list |
| Contributions.LeadingRunIsMaximal | src/renderer/src/components/widgets/GitHubWidget.tsx:90-102 | that run consists of days with contributions, and no longer run starts at the head |
| Contributions.ScanFromEndComputes | src/renderer/src/components/widgets/GitHubWidget.tsx:90-102 | over the day list, oldest first, the reversed loop ends with temp holding the run at the oldest end, longest holding the longest run of days with contributions, and current equal to longest |
| Contributions.ComputeStreaks | src/renderer/src/components/widgets/GitHubWidget.tsx:90-102 | as written: the longest streak is the longest run, and the current streak always equals it |
| Contributions.CurrentStreakAsWrittenIsLongest | src/renderer/src/components/widgets/GitHubWidget.tsx:90-102 | for days [1, 1, 0, 1] the loop reports a current streak of 2, though the run ending on the last day has length 1 |
| Contributions.TrailingRun | src/renderer/src/components/widgets/GitHubWidget.tsx:90-102 | the run ending on the most recent day holds only days with contributions and cannot be extended backwards |
| Contributions.ComputeStreaksEndingToday | src/renderer/src/components/widgets/GitHubWidget.tsx:90-102 | corrected: the longest streak is the longest run, and the current streak is the maximal run ending on the most recent day, never longer than the longest |
| Contributions.Total | src/renderer/src/components/widgets/GitHubWidget.tsx:105 | the reduce loop totals the counts, and no single day exceeds the total |
| Contributions.RepoTotals | src/renderer/src/components/widgets/GitHubWidget.tsx:87-88 | the two reduce loops give the sums of the stars and of the forks |
| Contributions.Weeks | src/renderer/src/components/widgets/GitHubWidget.tsx:183-190 | the grid has ceil(n / 7) weeks, of 1 to 7 days, all but the last full |
| Contributions.WeeksFlatten | src/renderer/src/components/widgets/GitHubWidget.tsx:183-190 | laid end to end, the weeks are exactly the days |
| Contributions.WeekContents | src/renderer/src/components/widgets/GitHubWidget.tsx:186-187 | week w is the slice of days starting at 7w |
| Contributions.DayInWeek | src/renderer/src/components/widgets/GitHubWidget.tsx:186-187 | day d is drawn in week d / 7 at row d % 7 |
| Contributions.WeeksKeepTotal | src/renderer/src/components/widgets/GitHubWidget.tsx:183-190 | the week totals add up to the day total |
| Contributions.MonthStarts | src/renderer/src/components/widgets/GitHubWidget.tsx:163-173 | every listed day starts a new month label |
| Contributions.MonthStartsSorted | src/renderer/src/components/widgets/GitHubWidget.tsx:163-173 | the month-start days are strictly increasing |
| Contributions.MonthStartsComplete | src/renderer/src/components/widgets/GitHubWidget.tsx:163-173 | every day whose month differs from the day before, and day 0, is listed |
| Contributions.WeeksBeforeStep | src/renderer/src/components/widgets/GitHubWidget.tsx:175-177 | the week counter goes up on visiting a day exactly when its index is a multiple of 7 |
| Contributions.ScanLabels | src/renderer/src/components/widgets/GitHubWidget.tsx:163-178 | from a given day on, the loop emits at most one label per remaining day, none to the left of the current week counter's column |
| Contributions.MonthLabels | src/renderer/src/components/widgets/GitHubWidget.tsx:155-181 | the labels are exactly one per month start, in order, each naming its month and placed at 13 times the week counter at that day |
| Contributions.ScanLabelsComputes | src/renderer/src/components/widgets/GitHubWidget.tsx:155-181 | the label loop yields one label per month start, named after its month and placed at 13 times the counter value at that day |
| Contributions.LabelsForElements | src/renderer/src/components/widgets/GitHubWidget.tsx:169-172 | label k carries the name of the month starting at the k-th start day, and that day's position |
| Contributions.LabelsAppend | src/renderer/src/components/widgets/GitHubWidget.tsx:163-178 | labelling two runs of start days in turn labels their concatenation |
| Contributions.PositionsMonotone | src/renderer/src/components/widgets/GitHubWidget.tsx:171 | label positions are multiples of 13 and never decrease along the days |
| Contributions.MonthLabelsAsWritten | src/renderer/src/components/widgets/GitHubWidget.tsx:155-181 | as written, a month starting on day d is labelled at 13 * ceil(d / 7); the labels are multiples of 13 in left-to-right order |
| Contributions.MonthLabelsTwoDayExample | src/renderer/src/components/widgets/GitHubWidget.tsx:155-190 | with January on day 0 and February on day 1, both days are drawn in week column 0, January is labelled at 0 and February at 13 |
| Contributions.LabelsSitOverFirstColumnInMonth | src/renderer/src/components/widgets/GitHubWidget.tsx:163-177 | each label sits over the first week column whose first day is on or after the first day of its month |
| Contributions.CachedData | src/renderer/src/components/widgets/GitHubWidget.tsx:42-51 | the cached data is used exactly when an entry exists that is less than five minutes old |
| Contributions.FreshnessWindow | src/renderer/src/components/widgets/GitHubWidget.tsx:33 | `IsFresh` holds up to 299999 ms after writing and fails from 300000 ms on, and once it fails it never holds again |
| Contributions.PlanFetch | src/renderer/src/components/widgets/GitHubWidget.tsx:55-67 | a refresh does nothing without a user name; it uses the cache exactly when the name is given and the entry is fresh; otherwise it downloads |
| Weather.GetCondition | src/renderer/src/components/widgets/WeatherWidget.tsx:83-91 | code 0 is clear; 51-57 is drizzle, 61-67 rain, 71-77 snow and 95-99 thunderstorm, each exactly; every other code is clouds |
| Weather.LowerChar | src/renderer/src/components/widgets/WeatherWidget.tsx:96 | lower-casing maps each ASCII capital to its own lower-case letter (code point plus 32) and leaves every other character alone |
| Weather.ToLower | src/renderer/src/components/widgets/WeatherWidget.tsx:96 | lower-casing is character by character and keeps the length |
| Weather.WeatherIcon | src/renderer/src/components/widgets/WeatherWidget.tsx:93-112 | each of the icons for clear, rain, thunderstorm, snow and drizzle is chosen exactly when the lower-cased label is that word; the cloud icon is chosen exactly when it is none of those five |
| Weather.IconsDistinguishConditions | src/renderer/src/components/widgets/WeatherWidget.tsx:93-112 | two conditions get the same icon exactly when they are the same condition |
| Weather.IconIgnoresCase | src/renderer/src/components/widgets/WeatherWidget.tsx:96 | the icon does not depend on letter case |
| Weather.UnknownLabelIsCloud | src/renderer/src/components/widgets/WeatherWidget.tsx:109-110 | text that is none of the six labels, ignoring case, gets the cloud icon, the same one as "clouds" |
| Weather.CodeToIcon | src/renderer/src/components/widgets/WeatherWidget.tsx:59 | from code to icon: the sun exactly for code 0, and the drizzle, rain, snow and lightning clouds exactly inside their bands |
| Todos.StartingListHasDistinctIds | src/renderer/src/components/widgets/TodoWidget.tsx:17-22 | the four starting items have distinct ids, and toggling "1" reopens the only finished one, leaving every item open |
| Todos.AddTodo | src/renderer/src/components/widgets/TodoWidget.tsx:26-42 | a blank input changes nothing; otherwise the trimmed text is appended as an open item and the input clears |
| Todos.ToggleTodo | src/renderer/src/components/widgets/TodoWidget.tsx:44-50 | exactly the items with the given id change, and only in their completed flag |
| Todos.ToggleTodoTwice | src/renderer/src/components/widgets/TodoWidget.tsx:44-50 | toggling twice restores the list |
| Todos.RemoveTodo | src/renderer/src/components/widgets/TodoWidget.tsx:52-60 | exactly the items with other ids survive |
| Todos.AddThenRemove | src/renderer/src/components/widgets/TodoWidget.tsx:26-60 | adding an item under an unused id and removing that id restores the list |
| Todos.RemoveKeepsOrder | src/renderer/src/components/widgets/TodoWidget.tsx:53 | removal keeps the survivors in order |
| Settings.LoadSettings | src/renderer/src/components/pages/SettingsPage.tsx:36-61 | with nothing saved, the settings hold one song and six carousel photos; otherwise they are the saved record |
| Settings.DefaultsDriveTheWidgets | src/renderer/src/components/layout/Dashboard.tsx:122-126 | the default songs and photos, handed to the music widget and the carousel, make the player render with its skip buttons disabled and let the carousel advance from photo 0 to photo 1 |
| Settings.SetPhotoField | src/renderer/src/components/pages/SettingsPage.tsx:105 | the chosen field takes the value and the other field keeps its value |
| Settings.SetSongField | src/renderer/src/components/pages/SettingsPage.tsx:113 | the chosen field takes the value and the other fields keep theirs |
| Settings.HandlePhotoChange | src/renderer/src/components/pages/SettingsPage.tsx:102-108 | an index outside the list changes nothing; otherwise only that photo's chosen field changes |
| Settings.HandleSongChange | src/renderer/src/components/pages/SettingsPage.tsx:110-116 | an index outside the list changes nothing; otherwise only that song's chosen field changes |
| Settings.PhotoChangeLastWriteWins | src/renderer/src/components/pages/SettingsPage.tsx:102-108 | rewriting a field's current value changes nothing, and of two writes to a field the later wins |
| Settings.SongChangeLastWriteWins | src/renderer/src/components/pages/SettingsPage.tsx:110-116 | rewriting a field's current value changes nothing, and of two writes to a field the later wins |
| Settings.AddSong | src/renderer/src/components/pages/SettingsPage.tsx:118-123 | a blank song is appended and nothing else changes |
| Settings.DropIndex | src/renderer/src/components/pages/SettingsPage.tsx:128 | filtering out one position drops one element when it is valid and none otherwise |
| Settings.DropIndexSplices | src/renderer/src/components/pages/SettingsPage.tsx:128 | filtering out a valid position splices the list around it; any other index keeps the list |
| Settings.RemoveSong | src/renderer/src/components/pages/SettingsPage.tsx:125-130 | the song at a valid index is spliced out; any other index changes nothing |
| Settings.AddThenRemoveSong | src/renderer/src/components/pages/SettingsPage.tsx:118-130 | removing the song just added restores the settings |
| Settings.Initials | src/renderer/src/components/pages/SettingsPage.tsx:195 | the initials contain no space |
| Settings.InitialsAreWordStarts | src/renderer/src/components/pages/SettingsPage.tsx:195 | the initials are exactly the name's characters that begin a word, that is, non-space characters at the start or after a space |
| Cyclic.Succ | src/renderer/src/components/widgets/MusicWidget.tsx:80 | a step forward on a ring of n stays on the ring, moves to the next position, and wraps from the last to 0 |
| Cyclic.Pred | src/renderer/src/components/widgets/MusicWidget.tsx:93 | a step back stays on the ring, moves to the previous position, and wraps from 0 to the last |
| Cyclic.PredSuccInverse | src/renderer/src/components/widgets/PhotoCarouselWidget.tsx:45-52 | on the ring, a step back undoes a step forward and vice versa |
| Cyclic.SuccNMoves | src/renderer/src/components/widgets/MusicWidget.tsx:80 | k steps forward from position i land on (i + k) mod n |
| Cyclic.FullTurn | src/renderer/src/components/widgets/MusicWidget.tsx:80 | n steps forward come back to the start |
| Playlist.NextSong | src/renderer/src/components/widgets/MusicWidget.tsx:79-90 | the index advances by one, wrapping from the last song to the first; it stays in range; the time resets to 0 and the playing flag is kept |
| Playlist.PrevSong | src/renderer/src/components/widgets/MusicWidget.tsx:92-103 | the index goes back by one, wrapping from the first song to the last; it stays in range; the time resets to 0 and the playing flag is kept |
| Playlist.SkipsAreInverse | src/renderer/src/components/widgets/MusicWidget.tsx:80-93 | back after forward, or forward after back, returns to the same song |
| Playlist.SkipForwardCycles | src/renderer/src/components/widgets/MusicWidget.tsx:79-90 | t forward skips move t places round the playlist, and n skips return to the start |
| Playlist.SingleSongRestarts | src/renderer/src/components/widgets/MusicWidget.tsx:240-267 | with one song the skip buttons are disabled, and a skip only restarts the song |
| Playlist.Tick | src/renderer/src/components/widgets/MusicWidget.tsx:160-175 | the display follows the audio time until the track's duration is reached, and then the player skips to the next song |
| Playlist.TickStaysUntilTrackEnds | src/renderer/src/components/widgets/MusicWidget.tsx:160-175 | a tick before the duration keeps the song and shows the audio time; a tick at or past it is one skip forward; the index stays on the playlist and the playing flag is kept |
| Playlist.FormatTime | src/renderer/src/components/widgets/MusicWidget.tsx:177-181 | the display is digits, a colon and exactly two more digits; the minutes have no leading zero and read as s / 60, and the two digits read as s % 60 |
| Playlist.FormatTimeRoundTrip | src/renderer/src/components/widgets/MusicWidget.tsx:177-181 | reading the display back, accepting only minutes without leading zeros and seconds 00 to 59, gives the number of seconds |
| Playlist.ParseTimeOnlyDisplays | src/renderer/src/components/widgets/MusicWidget.tsx:177-181 | every string that reads back as a number of seconds is exactly the display of that number, so each time has one display |
| Playlist.DisplayOfFields | src/renderer/src/components/widgets/MusicWidget.tsx:177-181 | minutes without a leading zero, a colon and a two-digit field below 60 are the display of the time they stand for |
| Playlist.TwoDigitsArePadded | src/renderer/src/components/widgets/MusicWidget.tsx:180 | any two digits are `padStart(2, '0')` of the number they read as |
| Playlist.SeventyFiveSeconds | src/renderer/src/components/widgets/MusicWidget.tsx:177-181 | 75 seconds are shown as "1:15" |
| Playlist.NonDisplaysRejected | src/renderer/src/components/widgets/MusicWidget.tsx:177-181 | "0:75" and "01:15" are not displays of any time |
| Carousel.NextSlide | src/renderer/src/components/widgets/PhotoCarouselWidget.tsx:42-47 | during an animation nothing changes; otherwise the index advances with wrap-around, stays in range, and the animation starts |
| Carousel.PrevSlide | src/renderer/src/components/widgets/PhotoCarouselWidget.tsx:49-54 | during an animation nothing changes; otherwise the index goes back with wrap-around, stays in range, and the animation starts |
| Carousel.TransitionEnd | src/renderer/src/components/widgets/PhotoCarouselWidget.tsx:56-58 | the animation lock clears and the slide stays |
| Carousel.SelectDot | src/renderer/src/components/widgets/PhotoCarouselWidget.tsx:116 | clicking a dot leaves the animation lock as it was |
| Carousel.ArrowsLockedWhileAnimating | src/renderer/src/components/widgets/PhotoCarouselWidget.tsx:43-50 | a second arrow press before the animation ends has no effect |
| Carousel.ForwardThenBackRestores | src/renderer/src/components/widgets/PhotoCarouselWidget.tsx:42-58 | with two or more photos, forward and back, each followed by the end of the animation, return the carousel to its state, in either order |
| Carousel.SinglePhotoLocksArrows | src/renderer/src/components/widgets/PhotoCarouselWidget.tsx:42-58 | with one photo an arrow press takes the lock without moving any slide, so no animation ends and every later arrow press does nothing |
| Carousel.ArrowsStayOnDots | src/renderer/src/components/widgets/PhotoCarouselWidget.tsx:42-54 | the arrows only produce indices that have a dot, and one dot is highlighted |
| Carousel.DotShowsItsSlide | src/renderer/src/components/widgets/PhotoCarouselWidget.tsx:67-116 | after clicking dot k, slide k alone has offset 0 and dot k alone is highlighted; the other slides sit whole widths away |
| Carousel.SlideOffset | src/renderer/src/components/widgets/PhotoCarouselWidget.tsx:72 | every offset is a multiple of 100 percent; it is zero exactly for the current slide and positive exactly for the slides after it |
| Carousel.OffsetsAreEvenlySpaced | src/renderer/src/components/widgets/PhotoCarouselWidget.tsx:72 | exactly the current slide has offset 0; neighbouring slides are 100% apart; slides before the current one are to the left |

## Left out

- Storage, the network and the clock are not modelled. Local storage reads arrive as already-parsed `Option` values, the contents of storage writes are modelled by `ChatStore.StoreChat`, and ids and timestamps from `Date.now()` are parameters. The fetches behind the weather, GitHub and model-list panels are left out, and so is the geolocation lookup.
- The simulated assistant reply that `sendMessage` schedules a second later is left out because it is timer-driven. `ChatStore.SendMessage` models only the user half.
- Toasts, focus handling, scrolling, the sidebar toggle and every presentational component are left out: they are rendering only.
- Audio playback, volume, the play/pause toggle, the visualiser canvas and the visibility observers of the music widget and the carousel are left out: they are browser APIs.
- The carousel's five-second auto-advance is left out. Its interval is set up again only when the visibility or the index changes, so each timer keeps the `nextSlide` of the render that set it up. After an automatic or arrow step that render already has the arrows locked, so that timer never advances. A dot click changes the index without locking, so the timer set up after it makes one more automatic step before it goes inert; scrolling the widget out of view and back sets up a fresh timer in the same way. `Carousel.NextSlide` models the arrow button only.
- Settings edits to plain text fields (name, location, user name, key, model) and `handleSave` are left out: they are single field assignments and a storage write.
- Weather.ToLower: only ASCII capitals are lowered. The six labels are ASCII, so the icon choice for them is unaffected.
- Settings.Initials: takes the first Dafny character (a Unicode scalar value) of each word, where `n[0]` takes the first UTF-16 code unit. For a word starting outside the Basic Multilingual Plane the source yields a lone surrogate and the model the whole character.
- ChatStore.GenerateChatTitle: lengths count Dafny characters (Unicode scalar values), where JavaScript counts UTF-16 code units. The two disagree only for characters outside the Basic Multilingual Plane.
- Playlist.Tick: the audio element's times are fractional seconds. The model uses whole seconds, and `Playlist.FormatTime` takes the whole seconds that `Math.floor` produces.
- Playlist.NextSong: requires a non-empty playlist. The widget renders a placeholder with no controls for an empty one, so the skip functions are never reached then. The same holds for `Playlist.PrevSong` and `Playlist.Tick`.
- Carousel.NextSlide: requires at least one photo. With none, the source computes `% 0` and the index becomes NaN, which the model does not represent. In that case no slides or dots are drawn, but the two arrows are, and a click on one sets the index to NaN and locks the arrows for good, since no slide ends a transition. The same holds for `Carousel.PrevSlide`. With exactly one photo the index stays 0, no slide moves and the arrows also lock for good; `Carousel.SinglePhotoLocksArrows` states that case, and `Carousel.ForwardThenBackRestores` is stated for two or more photos.
- Contributions: the date parsing (`new Date(day.date).getMonth()`) is given as a month number per day, and the level-to-colour mapping is left out because it is styling only.

## Findings

| source | as written | input that shows it | evidently intended | confidence | as-written member | corrected member |
|---|---|---|---|---|---|---|
| src/renderer/src/components/widgets/GitHubWidget.tsx:90-102 | the current streak is raised whenever it is one below the running streak, so it follows every run up to the longest one | daily counts [1, 1, 0, 1], oldest first: the current streak is reported as 2 | the current streak is the run of days with contributions ending on the most recent day, which is 1 here | high, not executed | Contributions.ComputeStreaks, Contributions.CurrentStreakAsWrittenIsLongest | Contributions.ComputeStreaksEndingToday |
| src/renderer/src/components/pages/ChatPage.tsx:134-139 | when the current chat is deleted, the new current id is read from the list before the deletion | chats [a, b] with a current; delete a: the current id stays "a" | the first chat that survives the deletion becomes current | high, not executed | ChatStore.DeleteChat, ChatStore.DeleteChatLeavesDanglingId | ChatStore.DeleteChatSelectingSurvivor |
