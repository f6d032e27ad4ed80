/**
 * `LookupUpdate`: is a security bulletin newer than the base image? The feed
 * arrives already parsed: the instants of its items' `pubDate`, in feed
 * order, or None when fetching, parsing the XML or reading a date failed.
 * Any failure answers "update due" (fail-open).
 */
module UpdateFeed {
  import opened Common

  /** Some item is strictly later than `created`. */
  function AnyLater(created: nat, items: seq<nat>): bool
  {
    if items == [] then false
    else created < items[0] || AnyLater(created, items[1..])
  }

  /**
   * The answer of `LookupUpdate`: true on a malformed creation date, on a
   * feed failure and on an empty channel (`latest_item` is None there and
   * reading it raises); otherwise whether some item is later.
   */
  function UpdateDue(created: Option<nat>, feed: Option<seq<nat>>): bool
  {
    if created.None? || feed.None? || feed.value == [] then true
    else AnyLater(created.value, feed.value)
  }

  lemma {:induction false} AnyLaterMeans(created: nat, items: seq<nat>)
    ensures AnyLater(created, items) <==> exists i :: 0 <= i < |items| && created < items[i]
  {
    if items != [] {
      AnyLaterMeans(created, items[1..]);
      if exists i :: 0 <= i < |items| && created < items[i] {
        var i :| 0 <= i < |items| && created < items[i];
        if i > 0 { assert items[1..][i - 1] == items[i]; }
      }
    }
  }

  /** The oracle says "no update" only for a readable, non-empty feed with nothing later. */
  lemma NoUpdateMeans(created: Option<nat>, feed: Option<seq<nat>>)
    ensures !UpdateDue(created, feed) <==>
              created.Some? && feed.Some? && |feed.value| > 0
              && forall i :: 0 <= i < |feed.value| ==> feed.value[i] <= created.value
  {
    if created.Some? && feed.Some? {
      AnyLaterMeans(created.value, feed.value);
    }
  }

  /** An image at least as old as one that needs an update needs one too. */
  lemma OlderImageStillDue(older: nat, newer: nat, feed: Option<seq<nat>>)
    requires older <= newer
    requires UpdateDue(Some(newer), feed)
    ensures UpdateDue(Some(older), feed)
  {
    NoUpdateMeans(Some(newer), feed);
    NoUpdateMeans(Some(older), feed);
  }

  /** The publication order of the feed does not matter: only which instants it holds. */
  lemma FeedOrderIrrelevant(created: Option<nat>, feed: seq<nat>, other: seq<nat>)
    requires multiset(feed) == multiset(other)
    ensures UpdateDue(created, Some(feed)) == UpdateDue(created, Some(other))
  {
    NoUpdateMeans(created, Some(feed));
    NoUpdateMeans(created, Some(other));
    assert |feed| == |multiset(feed)| == |multiset(other)| == |other|;
    forall i | 0 <= i < |feed| ensures feed[i] in multiset(other) {
      assert feed[i] in multiset(feed);
    }
    forall i | 0 <= i < |other| ensures other[i] in multiset(feed) {
      assert other[i] in multiset(other);
    }
  }

  /**
   * `LookupUpdate(ami_creationdate)`: scans the items in feed order and
   * returns true at the first one later than the image.
   */
  method LookupUpdate(created: Option<nat>, feed: Option<seq<nat>>) returns (due: bool)
    ensures due == UpdateDue(created, feed)
    ensures !due <==> created.Some? && feed.Some? && |feed.value| > 0
                      && forall i :: 0 <= i < |feed.value| ==> feed.value[i] <= created.value
  {
    NoUpdateMeans(created, feed);
    if created.None? || feed.None? || feed.value == [] {
      return true;
    }
    var creation, items := created.value, feed.value;
    for i := 0 to |items|
      invariant forall j :: 0 <= j < i ==> items[j] <= creation
    {
      if creation < items[i] {
        return true;
      }
    }
    return false;
  }
}
