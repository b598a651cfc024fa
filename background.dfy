/**
 * The background script's state and event handlers: tab tracking, the closed-tab
 * history write, and the countdown that closes the oldest tab. Chrome API results
 * (tab lists, the clock, URL parsing) are parameters; the tab to remove is returned.
 */
module Background {
  import opened Options
  import opened History
  import opened Selection

  /** What `tabUrls` remembers of a tab. */
  datatype TabInfo = TabInfo(url: string, title: string)

  /**
   * The argument of `saveClosedTab`, used as a property name of `tabUrls`: a tab id, or
   * a URL string. Every property of `tabUrls` is named after a tab id, and a URL is never
   * such a name, so a URL key never finds anything.
   */
  datatype Key = TabKey(id: int) | UrlKey(url: string)

  /** The toolbar badge text: empty, or the countdown value. */
  datatype Badge = Blank | Shows(count: int)

  const CountdownSeconds: nat := 5
  const ThresholdCount: nat := 3
  /** `chrome.windows.WINDOW_ID_NONE`. */
  const WindowIdNone: int := -1

  /** `tabUrls[key]`, `undefined` when absent; a URL key never finds anything (bg.js:153). */
  function Lookup(tabUrls: map<int, TabInfo>, key: Key): Option<TabInfo> {
    match key
    case TabKey(id) => if id in tabUrls then Some(tabUrls[id]) else None
    case UrlKey(_) => None
  }

  /**
   * The history entry that `saveClosedTab(key)` would write at time `now`, if any: unknown
   * keys, empty URLs and internal pages are rejected.
   */
  function ToRecord(tabUrls: map<int, TabInfo>, key: Key, now: int): Option<Entry> {
    match Lookup(tabUrls, key)
    case None => None
    case Some(info) =>
      if info.url == "" || IsInternal(info.url) then None
      else Some(Entry(info.url, info.title, now))
  }

  /** The tab the loop removes, when the loop ended without an exception and chose one. */
  function VictimId(tabs: seq<Tab>, o: Outcome): Option<int> {
    if o.Oldest? && o.victim.Some? && o.victim.value < |tabs| then Some(tabs[o.victim.value].id) else None
  }

  /**
   * The tab a firing at zero removes: with more than 3 tabs in the window, the victim of
   * the selection loop, if it chose one without an exception; otherwise none.
   */
  function ClosedAtZero(tabs: seq<Tab>, lastActive: map<int, int>, now: int,
                        hostOf: string -> Option<string>): Option<int> {
    if |tabs| > ThresholdCount then VictimId(tabs, Scan(tabs, |tabs|, lastActive, now, hostOf)) else None
  }

  class Sentry {
    /** tabId -> time of the last activation or window focus. */
    var lastActive: map<int, int>
    /** tabId -> URL and title at the last completed load. */
    var tabUrls: map<int, TabInfo>
    /** The persisted `closedTabs` list. */
    var closedTabs: seq<Entry>
    var countdown: int
    var closingInProgress: bool
    /** The one-second `setInterval` of the current countdown is armed. */
    var ticking: bool
    var badge: Badge

    /**
     * The timer runs only inside a cycle and counts from 5 down to 0; outside a cycle the
     * badge is empty; the history never holds two entries for one URL.
     */
    ghost predicate Valid()
      reads this
    {
      && (ticking ==> closingInProgress && 0 <= countdown <= CountdownSeconds)
      && (!closingInProgress ==> badge == Blank)
      && UniqueUrls(closedTabs)
    }

    /** The script's start: empty maps and no cycle; `stored` is what `closedTabs` holds. */
    constructor (stored: seq<Entry>)
      requires UniqueUrls(stored)
      ensures Valid()
      ensures lastActive == map[] && tabUrls == map[] && closedTabs == stored
      ensures countdown == 0 && !closingInProgress && !ticking && badge == Blank
    {
      lastActive := map[];
      tabUrls := map[];
      closedTabs := stored;
      countdown := 0;
      closingInProgress := false;
      ticking := false;
      badge := Blank;
    }

    /**
     * `tabs.onUpdated`: on a completed load remember the URL and the title, or the
     * hostname when the title is empty; an unparsable URL there throws and nothing changes.
     */
    method OnUpdated(tabId: int, status: string, url: string, title: string, hostOf: string -> Option<string>)
      requires Valid()
      modifies this`tabUrls
      ensures Valid()
      ensures status != "complete" ==> tabUrls == old(tabUrls)
      ensures status == "complete" && title != "" ==> tabUrls == old(tabUrls)[tabId := TabInfo(url, title)]
      ensures status == "complete" && title == "" ==>
        tabUrls == if hostOf(url).Some? then old(tabUrls)[tabId := TabInfo(url, hostOf(url).value)] else old(tabUrls)
    {
      if status == "complete" {
        if title != "" {
          tabUrls := tabUrls[tabId := TabInfo(url, title)];
        } else {
          var host := hostOf(url);
          if host.Some? {
            tabUrls := tabUrls[tabId := TabInfo(url, host.value)];
          }
        }
      }
    }

    /** `tabs.onActivated`: the activated tab was active now. */
    method OnActivated(tabId: int, now: int)
      requires Valid()
      modifies this`lastActive
      ensures Valid()
      ensures lastActive == old(lastActive)[tabId := now]
    {
      lastActive := lastActive[tabId := now];
    }

    /**
     * `windows.onFocusChanged`: the focused window's active tab (the query's answer, if
     * any) was active now; losing focus to no window changes nothing.
     */
    method OnFocusChanged(windowId: int, activeTab: Option<int>, now: int)
      requires Valid()
      modifies this`lastActive
      ensures Valid()
      ensures windowId == WindowIdNone || activeTab.None? ==> lastActive == old(lastActive)
      ensures windowId != WindowIdNone && activeTab.Some? ==> lastActive == old(lastActive)[activeTab.value := now]
    {
      if windowId == WindowIdNone {
        return;
      }
      if activeTab.Some? {
        lastActive := lastActive[activeTab.value := now];
      }
    }

    /**
     * `saveClosedTab(key)`: nothing happens for an unknown key, a missing URL or an
     * internal page; otherwise the stored list gets the entry in front, loses any older
     * entry for that URL and is cut to 20.
     */
    method SaveClosedTab(key: Key, now: int)
      requires Valid()
      modifies this`closedTabs
      ensures Valid()
      ensures ToRecord(tabUrls, key, now).None? ==> closedTabs == old(closedTabs)
      ensures ToRecord(tabUrls, key, now).Some? ==> closedTabs == PushEntry(old(closedTabs), ToRecord(tabUrls, key, now).value)
    {
      var tabData := Lookup(tabUrls, key);
      if tabData.None? || tabData.value.url == "" {
        return;
      }
      var url, title := tabData.value.url, tabData.value.title;
      if IsInternal(url) {
        return;
      }
      var filtered := Without(closedTabs, url);
      filtered := [Entry(url, title, now)] + filtered;
      PushEntryPreservesUnique(closedTabs, Entry(url, title, now));
      closedTabs := filtered[..if |filtered| < MaxClosed then |filtered| else MaxClosed];
    }

    /** `tabs.onRemoved`: record the tab in the history, then forget its URL. */
    method OnRemoved(tabId: int, now: int)
      requires Valid()
      modifies this`closedTabs, this`tabUrls
      ensures Valid()
      ensures closedTabs == match ToRecord(old(tabUrls), TabKey(tabId), now)
        case None => old(closedTabs)
        case Some(e) => PushEntry(old(closedTabs), e)
      ensures tabUrls == old(tabUrls) - {tabId}
    {
      SaveClosedTab(TabKey(tabId), now);
      tabUrls := tabUrls - {tabId};
    }

    /**
     * `startCountdownAndClose`: ignored while a cycle is in progress; otherwise claims
     * the guard, sets the count to 5 and arms the one-second timer.
     */
    method Start()
      requires Valid()
      modifies this
      ensures Valid()
      ensures old(closingInProgress) ==> unchanged(this)
      ensures !old(closingInProgress) ==> closingInProgress && ticking && countdown == CountdownSeconds
      ensures badge == old(badge) && lastActive == old(lastActive)
      ensures tabUrls == old(tabUrls) && closedTabs == old(closedTabs)
    {
      if closingInProgress {
        return;
      }
      closingInProgress := true;
      countdown := CountdownSeconds;
      ticking := true;
    }

    /**
     * One firing of the timer. It shows the count; at a count above 0 it only counts
     * down. At 0 it disarms the timer and, when the current window (`tabs`) holds more
     * than 3 tabs, closes the oldest candidate; then it clears the badge and releases
     * the guard. A URL that fails to parse throws out of the loop after the timer is
     * disarmed, leaving the guard taken. The history call on the victim passes its URL
     * as the key and so records nothing; the returned tab id is what `tabs.remove` gets.
     */
    method Tick(tabs: seq<Tab>, now: int, hostOf: string -> Option<string>) returns (removed: Option<int>)
      requires Valid() && ticking
      modifies this
      ensures Valid()
      ensures lastActive == old(lastActive) && tabUrls == old(tabUrls) && closedTabs == old(closedTabs)
      ensures old(countdown) > 0 ==>
        && removed.None? && ticking && closingInProgress
        && countdown == old(countdown) - 1 && badge == Shows(old(countdown))
      ensures old(countdown) <= 0 ==> !ticking && removed == ClosedAtZero(tabs, lastActive, now, hostOf)
      ensures old(countdown) <= 0 && |tabs| > ThresholdCount && HasBadUrl(tabs, |tabs|, hostOf) ==>
        && removed.None? && closingInProgress
        && countdown == old(countdown) && badge == Shows(old(countdown))
      ensures old(countdown) <= 0 && !(|tabs| > ThresholdCount && HasBadUrl(tabs, |tabs|, hostOf)) ==>
        && !closingInProgress && badge == Blank && countdown == old(countdown) - 1
    {
      removed := None;
      badge := Shows(countdown);
      if countdown <= 0 {
        ticking := false;
        if |tabs| > ThresholdCount {
          var outcome := SelectVictim(tabs, lastActive, now, hostOf);
          if outcome.HostParseError? {
            return;
          }
          if outcome.victim.Some? {
            var oldestTab := tabs[outcome.victim.value];
            SaveClosedTab(UrlKey(oldestTab.url), now);
            removed := Some(oldestTab.id);
          }
        }
        badge := Blank;
        closingInProgress := false;
      }
      countdown := countdown - 1;
    }

    /**
     * The heartbeat alarm: given the number of tabs open in all windows, starts a
     * countdown when it is above 3; other alarms are ignored.
     */
    method OnAlarm(name: string, openTabs: nat)
      requires Valid()
      modifies this
      ensures Valid()
      ensures name != "heartbeat" || openTabs <= ThresholdCount || old(closingInProgress) ==> unchanged(this)
      ensures name == "heartbeat" && openTabs > ThresholdCount && !old(closingInProgress) ==>
        closingInProgress && ticking && countdown == CountdownSeconds && badge == old(badge)
      ensures lastActive == old(lastActive) && tabUrls == old(tabUrls) && closedTabs == old(closedTabs)
    {
      if name != "heartbeat" {
        return;
      }
      if openTabs > ThresholdCount {
        Start();
      }
    }

    /**
     * A whole countdown with no other event in between: the timer fires once per second,
     * the `k`-th firing seeing the window `views[k]` at time `clock[k]`, until it disarms
     * itself. It fires exactly six times and removes exactly the tab the last firing
     * chooses (none when that window holds 3 tabs or fewer). It ends with the guard
     * released, the badge empty and the count at -1, unless that last firing hit an
     * unparsable URL, which leaves the guard taken and the badge and count at 0.
     * Activation, focus or load events during a countdown are modelled by calling their
     * handlers between `Tick`s.
     */
    method RunCountdown(views: seq<seq<Tab>>, clock: seq<int>, hostOf: string -> Option<string>)
      returns (fired: nat, removed: seq<int>)
      requires Valid() && ticking && countdown == CountdownSeconds
      requires |views| == |clock| == CountdownSeconds + 1
      modifies this
      ensures Valid() && !ticking
      ensures fired == CountdownSeconds + 1
      ensures |removed| <= 1
      ensures var last := ClosedAtZero(views[CountdownSeconds], lastActive, clock[CountdownSeconds], hostOf);
        removed == if last.Some? then [last.value] else []
      ensures var view := views[CountdownSeconds];
        if |view| > ThresholdCount && HasBadUrl(view, |view|, hostOf)
        then closingInProgress && badge == Shows(0) && countdown == 0
        else !closingInProgress && badge == Blank && countdown == -1
      ensures lastActive == old(lastActive) && tabUrls == old(tabUrls) && closedTabs == old(closedTabs)
    {
      fired, removed := 0, [];
      while ticking
        invariant Valid()
        invariant fired <= CountdownSeconds + 1
        invariant ticking ==> countdown == CountdownSeconds - fired
        invariant !ticking ==> fired == CountdownSeconds + 1
        invariant ticking ==> removed == []
        invariant |removed| <= 1
        invariant !ticking ==>
          var last := ClosedAtZero(views[CountdownSeconds], lastActive, clock[CountdownSeconds], hostOf);
          removed == if last.Some? then [last.value] else []
        invariant !ticking ==>
          var view := views[CountdownSeconds];
          if |view| > ThresholdCount && HasBadUrl(view, |view|, hostOf)
          then closingInProgress && badge == Shows(0) && countdown == 0
          else !closingInProgress && badge == Blank && countdown == -1
        invariant lastActive == old(lastActive) && tabUrls == old(tabUrls) && closedTabs == old(closedTabs)
        decreases CountdownSeconds + 1 - fired
      {
        var r := Tick(views[fired], clock[fired], hostOf);
        if r.Some? {
          removed := [r.value];
        }
        fired := fired + 1;
      }
    }
  }
}
