# Tab Sentry background logic in Dafny

This project models the background script `bg.js` of Tab Sentry, a browser extension
that watches open tabs, keeps a list of recently closed tabs, and, when more than three
tabs are open, counts down on the toolbar badge and then closes the tab that has been
inactive longest. The script is split into these modules:

- `History`: the persisted `closedTabs` list. Saving a tab filters out older entries
  with the same URL, puts the new entry in front, and keeps the first 20.
- `Selection`: the loop that picks the tab to close. It skips tabs with no URL, pinned
  tabs and whitelisted hosts. It then keeps the tab whose `lastActive` is strictly the
  smallest, starting from the current time.
- `Background.Sentry`: one class holding the script's global state. That is
  `lastActive`, `tabUrls`, the stored history, `countdown`, `closingInProgress`, whether
  the one-second timer is armed, and the badge. Its methods are the event handlers,
  `saveClosedTab`, `startCountdownAndClose`, one firing of its timer, the heartbeat
  alarm, and `RunCountdown`, which runs one whole countdown from start to the last
  firing.
- `Normalize`: `normalizeUrl`, which nothing in the script calls. It works over a parsed
  URL record (hostname, ordered query parameters, everything else).
- `Text`, `Sequences`, `Options`: `String.prototype.includes`; removing every matching
  element (shared by `closedTabs.filter` and `searchParams.delete`) with the "keeps
  relative order" relation; and an optional value.

Chrome API calls become parameters or results:
- the tabs a query returns and the active tab of a focused window are parameters;
- `Date.now()` is an integer `now`;
- `new URL(...)` is a parameter `hostOf` (or `parse`) that returns no value on a parse
  failure;
- `tabs.remove` is the tab id that `Tick` returns.

The history timestamp (an ISO string in the source) is the integer clock value at the
moment of saving.

Source behaviours modelled as written:
- The close path calls `saveClosedTab(oldestTab.url)` (bg.js:153) with a URL where a tab
  id is expected. `tabUrls` only has properties named after tab ids, so the lookup misses
  and the call records nothing. `Key.UrlKey` models this. History for a closed tab comes
  only from `tabs.onRemoved` (bg.js:104-107).
- The heartbeat counts the tabs of all windows (bg.js:169). The close step counts and
  scans only the current window (bg.js:134). `OnAlarm` takes the first count and `Tick`
  the second list.
- `lastActive[tab.id] || Date.now()` treats a missing entry and a stored `0` alike as
  the current time. Such a tab is never chosen, because the comparison is strict.
  The source reads the clock again at bg.js:144. The model uses one `now` for both
  reads. This assumes the clock does not step back during the loop; if it did, an
  untracked tab could win at bg.js:145.
- If a considered tab's URL does not parse, `new URL` throws inside the timer callback.
  The timer has already been cleared by then. So the callback stops with
  `closingInProgress` still set. Every later start is then ignored for as long as the
  background script keeps its module variables. A restart of the extension's service
  worker resets them, and the model does not cover restarts. `Tick` and `SelectVictim`
  model this through `HostParseError`.
- `tabs.onUpdated` falls back to the hostname only when the title is empty. An
  unparsable URL at that point throws, and nothing is recorded.
- `lastActive` entries are never removed when a tab closes.

## Model

| member | source | states |
|---|---|---|
| Text.ContainsAt | bg.js:142 | `includes` holds exactly when some slice of the hostname equals the whitelist string |
| Sequences.RemoveAll | bg.js:91 | removing the matching entries never makes the list longer |
| Sequences.RemoveAllContents | bg.js:91 | the filter removes every matching element and keeps every other element, as many times as it appeared |
| Sequences.RemoveAllKeepsOrder | bg.js:91 | the elements that survive the filter keep their relative order |
| Sequences.RemoveAllAbsent | bg.js:91 | filtering a list with no matching element leaves it unchanged |
| History.WithoutDropsUrl | bg.js:91 | no surviving entry has the filtered URL |
| History.WithoutUnique | bg.js:91 | filtering keeps URLs pairwise distinct |
| History.PushEntry | bg.js:91-99 | after a save the new entry is at index 0 and the list has between 1 and 20 entries |
| History.PushEntryUrlOnce | bg.js:91-99 | after a save the saved URL appears exactly once, at the front |
| History.PushEntryDropsOldest | bg.js:91-99 | the cap only cuts the tail of the filtered old list; below 20 entries nothing with another URL is lost |
| History.PushEntryKeepsOrder | bg.js:91-99 | the entries after the new one keep their relative order from the old list |
| History.PushEntryPreservesUnique | bg.js:91-99 | a history with distinct URLs still has distinct URLs after a save |
| History.PushEntrySameUrlTwice | bg.js:89-99 | two saves of one URL in a row give the same list as the second save alone |
| Selection.ScanMeaning | bg.js:136-149 | the loop fails exactly when a considered tab's URL does not parse. Otherwise its victim is a candidate (has a URL, not pinned, host matches no whitelist entry), active strictly before `now`, no later than any candidate, and strictly earlier than every candidate before it. With no victim, no candidate was active before `now` |
| Selection.ScanFailureSticks | bg.js:141 | once a URL fails to parse, the rest of the loop does not run |
| Selection.UntrackedNeverChosen | bg.js:137-145 | with one clock reading for the whole loop, a tab with no recorded activity, or a recorded 0, is never chosen |
| Selection.SelectVictim | bg.js:136-149 | the loop computes the scan. Its victim is the strict oldest candidate, first on ties, and it fails exactly on an unparsable URL |
| Normalize.GetFirst | bg.js:55-58 | `searchParams.get` returns a value exactly when the name occurs, and returns the first such value |
| Normalize.NormalizeUrlStripsTracking | bg.js:50-72 | an unparsable input comes back unchanged. Any parsed URL outside the YouTube case becomes the serialisation of a URL with the same host and other components, no `utm_source`/`utm_medium`/`utm_campaign`, and every other parameter kept as often and in the same order |
| Normalize.DeleteContents | bg.js:64-66 | `searchParams.delete` removes exactly the pairs with that name and keeps the others, in order |
| Normalize.StrippedContents | bg.js:63-68 | stripping leaves no `utm_source`/`utm_medium`/`utm_campaign`, keeps every other parameter in order, and keeps the host and other components |
| Normalize.StrippedIdempotent | bg.js:63-66 | stripping twice equals stripping once |
| Normalize.YouTubeVariantsCollapse | bg.js:54-61 | YouTube URLs with the same first `v` and `list` normalise to the same string |
| Background.Sentry.constructor | bg.js:25-26 | the script starts with empty maps, no cycle running, and the stored history. The stored history must have distinct URLs; this holds because bg.js:99 is the only writer of `closedTabs`, and every list it writes is a `PushEntry` result |
| Background.Sentry.OnUpdated | bg.js:28-35 | a completed load records URL and title, or the hostname when the title is empty. Other statuses and unparsable fallbacks change nothing |
| Background.Sentry.OnActivated | bg.js:38-40 | activation stamps the tab with the current time |
| Background.Sentry.OnFocusChanged | bg.js:43-47 | focusing a window stamps its active tab. Focus to no window, or no active tab, changes nothing |
| Background.Sentry.SaveClosedTab | bg.js:77-102 | an unknown tab, a missing URL or an internal page leaves the history unchanged. Otherwise the history becomes `PushEntry` of the old history and the new entry. URLs stay unique |
| Background.Sentry.OnRemoved | bg.js:104-107 | a closed tab is recorded in the history, and its `tabUrls` entry is then deleted |
| Background.Sentry.Start | bg.js:122-127 | while a cycle is in progress nothing changes. Otherwise the guard is taken, the count is set to 5 and the timer is armed |
| Background.Sentry.Tick | bg.js:127-163 | above 0 a firing only shows and decrements the count. At 0 it disarms the timer. With more than 3 tabs it returns the strict oldest candidate for closing, and never more than one. It then clears the badge and releases the guard, except after a URL parse failure, which leaves the guard taken. History, `lastActive` and `tabUrls` do not change |
| Background.Sentry.OnAlarm | bg.js:167-177 | the heartbeat starts a countdown only when more than 3 tabs are open and no cycle is running, and leaves the badge as it was. Otherwise nothing changes |
| Background.Sentry.RunCountdown | bg.js:127-163 | with no other event during it, a countdown fires exactly six times. It removes exactly the oldest candidate of the last firing's window when that window holds more than 3 tabs, and nothing otherwise. It ends with the guard released, the badge empty and the count at -1, except after a URL parse failure in that scan, which leaves the guard taken and the badge and count at 0 |

## Left out

- Installing the heartbeat alarm (every 0.25 minutes, bg.js:7-10) and the one-second `setInterval` period: only the order of firings is modelled, through `Tick`/`RunCountdown` and `OnAlarm`.
- The `notify` ping handler (bg.js:14-20) and all `console.log` output: diagnostics only.
- The red badge colour (bg.js:129): cosmetic; only the badge text is modelled.
- `CLOSE_INTERVAL_MINUTES` (bg.js:115): declared but never used.
- Selection.UntrackedNeverChosen: the second clock read at bg.js:144 is taken equal to the first at bg.js:137. A wall clock set back between them, which would let an untracked tab be chosen, is not modelled.
- Background.Sentry.RunCountdown: covers a countdown with no other events between firings. Interleaved activation, focus and load events are modelled by calling their handlers between `Tick` calls, not inside this method.
- Interleaving at `await` points (storage reads and writes, tab queries): each handler and each timer firing runs to completion in the model.
- URL parsing and serialisation (`new URL`, `hostname`, `searchParams`, `toString`), including percent-encoding: given as functions.
- `popup.js` and `settings.js`: user interface. `settings.js` writes a `settings` record that `bg.js` never reads. The lock, restore and delete messages the popup sends have no handler in `bg.js`.
