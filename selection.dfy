/**
 * Choosing the tab to close when the countdown reaches zero: the loop over the
 * current window's tabs that keeps the running oldest `lastActive` value.
 */
module Selection {
  import opened Options
  import opened Text

  /** The fields of a `chrome.tabs.Tab` the loop reads; `url == ""` is a tab without a URL. */
  datatype Tab = Tab(id: int, url: string, pinned: bool)

  /** Hostnames that are never closed when they contain one of these strings. */
  const Whitelist: seq<string> := ["google.com", "surveymonkey.com", "docs.google.com"]

  predicate Whitelisted(domain: string) {
    exists k | 0 <= k < |Whitelist| :: Contains(domain, Whitelist[k])
  }

  /**
   * `lastActive[id] || now`: a missing entry, or a stored 0 (falsy), counts as the
   * current time.
   */
  function LastSeen(lastActive: map<int, int>, id: int, now: int): int {
    if id in lastActive && lastActive[id] != 0 then lastActive[id] else now
  }

  /** A tab the loop does not skip before parsing its URL: it has a URL and is not pinned. */
  predicate Considered(t: Tab) {
    t.url != "" && !t.pinned
  }

  /** A tab that may be closed: considered, its URL parses, and its host is not whitelisted. */
  predicate Candidate(t: Tab, hostOf: string -> Option<string>) {
    Considered(t) && hostOf(t.url).Some? && !Whitelisted(hostOf(t.url).value)
  }

  /**
   * What the loop ends with: the index of the chosen tab (if any) and the running
   * minimum, or the exception thrown by `new URL(...)` on an unparsable URL.
   */
  datatype Outcome = Oldest(victim: Option<nat>, oldestTime: int) | HostParseError

  /** One loop iteration on `tabs[i]`, from the running state `(victim, oldestTime)`. */
  function Step(tabs: seq<Tab>, i: nat, victim: Option<nat>, oldestTime: int,
                lastActive: map<int, int>, now: int, hostOf: string -> Option<string>): Outcome
    requires i < |tabs|
  {
    var tab := tabs[i];
    if !Considered(tab) then Oldest(victim, oldestTime)
    else match hostOf(tab.url)
      case None => HostParseError
      case Some(domain) =>
        if Whitelisted(domain) then Oldest(victim, oldestTime)
        else if LastSeen(lastActive, tab.id, now) < oldestTime
        then Oldest(Some(i), LastSeen(lastActive, tab.id, now))
        else Oldest(victim, oldestTime)
  }

  /** The loop's state after the first `n` tabs; the running minimum starts at `now`. */
  function Scan(tabs: seq<Tab>, n: nat, lastActive: map<int, int>, now: int,
                hostOf: string -> Option<string>): Outcome
    requires n <= |tabs|
  {
    if n == 0 then Oldest(None, now)
    else match Scan(tabs, n - 1, lastActive, now, hostOf)
      case HostParseError => HostParseError
      case Oldest(victim, oldestTime) => Step(tabs, n - 1, victim, oldestTime, lastActive, now, hostOf)
  }

  /**
   * Tab `k` is the victim among the first `n` tabs with time `t`: a candidate whose
   * activity is strictly before `now`, no later than any candidate's, and strictly
   * earlier than every candidate before it (the first one wins a tie).
   */
  ghost predicate IsOldest(tabs: seq<Tab>, n: nat, k: nat, t: int,
                           lastActive: map<int, int>, now: int, hostOf: string -> Option<string>)
    requires n <= |tabs|
  {
    && k < n
    && Candidate(tabs[k], hostOf)
    && t == LastSeen(lastActive, tabs[k].id, now)
    && t < now
    && (forall j :: 0 <= j < n && Candidate(tabs[j], hostOf) ==> t <= LastSeen(lastActive, tabs[j].id, now))
    && (forall j :: 0 <= j < k && Candidate(tabs[j], hostOf) ==> t < LastSeen(lastActive, tabs[j].id, now))
  }

  /** No candidate among the first `n` tabs was active strictly before `now`. */
  ghost predicate NoneOlder(tabs: seq<Tab>, n: nat, lastActive: map<int, int>, now: int,
                            hostOf: string -> Option<string>)
    requires n <= |tabs|
  {
    forall j :: 0 <= j < n && Candidate(tabs[j], hostOf) ==> now <= LastSeen(lastActive, tabs[j].id, now)
  }

  /** Some considered tab among the first `n` has a URL that does not parse. */
  ghost predicate HasBadUrl(tabs: seq<Tab>, n: nat, hostOf: string -> Option<string>)
    requires n <= |tabs|
  {
    exists j :: 0 <= j < n && Considered(tabs[j]) && hostOf(tabs[j].url).None?
  }

  /**
   * What the scan of the first `n` tabs means: it fails exactly when a considered tab's
   * URL does not parse; otherwise it names the strict oldest candidate (first on ties),
   * or nobody when no candidate was active before `now`.
   */
  lemma {:induction false} ScanMeaning(tabs: seq<Tab>, n: nat, lastActive: map<int, int>, now: int,
                                       hostOf: string -> Option<string>)
    requires n <= |tabs|
    ensures Scan(tabs, n, lastActive, now, hostOf).HostParseError? <==> HasBadUrl(tabs, n, hostOf)
    ensures match Scan(tabs, n, lastActive, now, hostOf)
      case HostParseError => true
      case Oldest(None, t) => t == now && NoneOlder(tabs, n, lastActive, now, hostOf)
      case Oldest(Some(k), t) => IsOldest(tabs, n, k, t, lastActive, now, hostOf)
  {
    if n > 0 {
      ScanMeaning(tabs, n - 1, lastActive, now, hostOf);
      var prev := Scan(tabs, n - 1, lastActive, now, hostOf);
      if prev.HostParseError? {
        var j :| 0 <= j < n - 1 && Considered(tabs[j]) && hostOf(tabs[j].url).None?;
        assert 0 <= j < n && Considered(tabs[j]) && hostOf(tabs[j].url).None?;
      } else if Considered(tabs[n - 1]) && hostOf(tabs[n - 1].url).None? {
        assert HasBadUrl(tabs, n, hostOf);
      } else {
        assert !HasBadUrl(tabs, n, hostOf) by {
          forall j | 0 <= j < n && Considered(tabs[j]) ensures hostOf(tabs[j].url).Some? {
            if j < n - 1 {
              assert !HasBadUrl(tabs, n - 1, hostOf);
            }
          }
        }
      }
    }
  }

  /** Once a URL failed to parse, scanning further tabs keeps the failure. */
  lemma {:induction false} ScanFailureSticks(tabs: seq<Tab>, m: nat, n: nat, lastActive: map<int, int>,
                                             now: int, hostOf: string -> Option<string>)
    requires m <= n <= |tabs|
    requires Scan(tabs, m, lastActive, now, hostOf).HostParseError?
    ensures Scan(tabs, n, lastActive, now, hostOf).HostParseError?
    decreases n - m
  {
    if m < n {
      ScanFailureSticks(tabs, m + 1, n, lastActive, now, hostOf);
    }
  }

  /** A tab with no recorded activity (or a recorded 0) is never chosen. */
  lemma UntrackedNeverChosen(tabs: seq<Tab>, lastActive: map<int, int>, now: int,
                      hostOf: string -> Option<string>, k: nat)
    requires k < |tabs|
    requires tabs[k].id !in lastActive || lastActive[tabs[k].id] == 0
    ensures forall t :: Scan(tabs, |tabs|, lastActive, now, hostOf) != Oldest(Some(k), t)
  {
    ScanMeaning(tabs, |tabs|, lastActive, now, hostOf);
  }

  /** The selection loop (bg.js:136-149), with the index of the chosen tab as its result. */
  method SelectVictim(tabs: seq<Tab>, lastActive: map<int, int>, now: int,
                      hostOf: string -> Option<string>) returns (r: Outcome)
    ensures r == Scan(tabs, |tabs|, lastActive, now, hostOf)
    ensures r.HostParseError? <==> HasBadUrl(tabs, |tabs|, hostOf)
    ensures r.Oldest? && r.victim.Some? ==> IsOldest(tabs, |tabs|, r.victim.value, r.oldestTime, lastActive, now, hostOf)
    ensures r.Oldest? && r.victim.None? ==> NoneOlder(tabs, |tabs|, lastActive, now, hostOf)
  {
    ScanMeaning(tabs, |tabs|, lastActive, now, hostOf);
    var oldestTab: Option<nat> := None;
    var oldestTime := now;
    for i := 0 to |tabs|
      invariant Scan(tabs, i, lastActive, now, hostOf) == Oldest(oldestTab, oldestTime)
    {
      var tab := tabs[i];
      if tab.url == "" || tab.pinned {
        continue;
      }
      var domain := hostOf(tab.url);
      if domain.None? {
        ScanFailureSticks(tabs, i + 1, |tabs|, lastActive, now, hostOf);
        return HostParseError;
      }
      if Whitelisted(domain.value) {
        continue;
      }
      var last := LastSeen(lastActive, tab.id, now);
      if last < oldestTime {
        oldestTime := last;
        oldestTab := Some(i);
      }
    }
    r := Oldest(oldestTab, oldestTime);
  }
}
