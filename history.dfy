/**
 * The closed-tab history kept in `chrome.storage.local` under `closedTabs`:
 * newest first, at most one entry per URL, at most `MaxClosed` entries.
 */
module History {
  import opened Sequences

  /** One stored record. `time` stands for the ISO timestamp string of the save. */
  datatype Entry = Entry(url: string, title: string, time: int)

  /** The cap applied by `slice(0, 20)`. */
  const MaxClosed: nat := 20

  /** Browser-internal pages that are never recorded. */
  predicate IsInternal(url: string) {
    "chrome://" <= url || "edge://" <= url || "about:" <= url
  }

  /** The test the filter negates: the entry is for `url`. */
  function UrlIs(url: string): Entry -> bool {
    (e: Entry) => e.url == url
  }

  /** `closedTabs.filter(t => t.url !== url)`. */
  function Without(s: seq<Entry>, url: string): seq<Entry> {
    RemoveAll(s, UrlIs(url))
  }

  /** The stored list after saving `e`: drop `e.url`, put `e` in front, keep the first 20. */
  function PushEntry(closed: seq<Entry>, e: Entry): (r: seq<Entry>)
    ensures 1 <= |r| <= MaxClosed && r[0] == e
  {
    var filtered := [e] + Without(closed, e.url);
    filtered[..if |filtered| < MaxClosed then |filtered| else MaxClosed]
  }

  /** No two stored entries share a URL. */
  ghost predicate UniqueUrls(s: seq<Entry>) {
    forall i, j :: 0 <= i < j < |s| ==> s[i].url != s[j].url
  }

  /** Every entry that survives the filter has a different URL. */
  lemma {:induction false} WithoutDropsUrl(s: seq<Entry>, url: string)
    ensures forall k :: 0 <= k < |Without(s, url)| ==> Without(s, url)[k].url != url
  {
    RemoveAllContents(s, UrlIs(url));
    forall k | 0 <= k < |Without(s, url)| ensures Without(s, url)[k].url != url {
      assert Without(s, url)[k] in multiset(Without(s, url));
    }
  }

  /** Filtering keeps URLs unique. */
  lemma {:induction false} WithoutUnique(s: seq<Entry>, url: string)
    requires UniqueUrls(s)
    ensures UniqueUrls(Without(s, url))
  {
    if s != [] {
      WithoutUnique(s[1..], url);
      if s[0].url != url {
        var w := Without(s[1..], url);
        RemoveAllContents(s[1..], UrlIs(url));
        forall k | 0 <= k < |w| ensures w[k].url != s[0].url {
          assert w[k] in multiset(w);
          assert w[k] in s[1..];
        }
      }
    }
  }

  /** After a save the saved URL is at the front and nowhere else. */
  lemma PushEntryUrlOnce(closed: seq<Entry>, e: Entry)
    ensures PushEntry(closed, e)[0].url == e.url
    ensures forall k :: 1 <= k < |PushEntry(closed, e)| ==> PushEntry(closed, e)[k].url != e.url
  {
    WithoutDropsUrl(closed, e.url);
    var r := PushEntry(closed, e);
    forall k | 1 <= k < |r| ensures r[k].url != e.url {
      assert r[k] == Without(closed, e.url)[k - 1];
    }
  }

  /**
   * The cap only cuts the tail: the list after a save is the new entry followed by a
   * front part of the filtered old list, and it is cut only when it would exceed 20.
   * When the old list held fewer than 20 entries, no entry with another URL is lost.
   */
  lemma PushEntryDropsOldest(closed: seq<Entry>, e: Entry)
    ensures var w := Without(closed, e.url);
      && PushEntry(closed, e)[1..] == w[..|PushEntry(closed, e)| - 1]
      && (|PushEntry(closed, e)| < MaxClosed ==> PushEntry(closed, e)[1..] == w)
    ensures |closed| < MaxClosed ==>
      forall x: Entry :: x.url != e.url ==> multiset(PushEntry(closed, e))[x] == multiset(closed)[x]
  {
    var w := Without(closed, e.url);
    var r := PushEntry(closed, e);
    assert r[1..] == w[..|r| - 1];
    if |closed| < MaxClosed {
      assert r == [e] + w;
      RemoveAllContents(closed, UrlIs(e.url));
    }
  }

  /** Entries other than the new one keep their relative order from before the save. */
  lemma PushEntryKeepsOrder(closed: seq<Entry>, e: Entry)
    ensures Subsequence(PushEntry(closed, e)[1..], closed)
  {
    var w := Without(closed, e.url);
    var r := PushEntry(closed, e);
    RemoveAllKeepsOrder(closed, UrlIs(e.url));
    SubsequencePrefix(w, closed, |r| - 1);
    assert r[1..] == w[..|r| - 1];
  }

  /** Saving keeps the history free of duplicate URLs. */
  lemma PushEntryPreservesUnique(closed: seq<Entry>, e: Entry)
    requires UniqueUrls(closed)
    ensures UniqueUrls(PushEntry(closed, e))
  {
    var w := Without(closed, e.url);
    var r := PushEntry(closed, e);
    WithoutUnique(closed, e.url);
    PushEntryUrlOnce(closed, e);
    forall i, j | 0 <= i < j < |r| ensures r[i].url != r[j].url {
      if i > 0 {
        assert r[i] == w[i - 1] && r[j] == w[j - 1];
      }
    }
  }

  /**
   * Saving the same URL twice in a row leaves one entry for it, the later one, in front:
   * the result is as if only the second save had happened.
   */
  lemma PushEntrySameUrlTwice(closed: seq<Entry>, e1: Entry, e2: Entry)
    requires e1.url == e2.url
    ensures PushEntry(PushEntry(closed, e1), e2) == PushEntry(closed, e2)
  {
    var url := e1.url;
    var w := Without(closed, url);
    var first := PushEntry(closed, e1);
    var k := |first| - 1;
    PushEntryDropsOldest(closed, e1);
    WithoutDropsUrl(closed, url);
    assert first == [e1] + w[..k];
    assert Without(first, url) == Without(w[..k], url) by {
      assert first[1..] == w[..k];
    }
    RemoveAllAbsent(w[..k], UrlIs(url));
    assert PushEntry(first, e2) == [e2] + w[..k];
  }
}
