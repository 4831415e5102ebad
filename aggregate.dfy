/**
 * `get_combined_events`: the Wikidata events followed by the encyclopedia events, with every
 * event whose label was already seen dropped. Only exact labels are compared and nothing is
 * sorted.
 */
module Aggregate {
  import opened Wrappers
  import opened Events

  /** The labels that occur in a list of events. */
  function LabelSet(events: seq<Event>): set<string>
  {
    set k | 0 <= k < |events| :: events[k].title
  }

  /** The index of the first event with a given label. */
  function FirstIndex(events: seq<Event>, title: string): (i: nat)
    requires title in LabelSet(events)
    ensures i < |events| && events[i].title == title
    ensures forall j :: 0 <= j < i ==> events[j].title != title
    decreases |events|
  {
    if events[0].title == title then 0
    else
      assert title in LabelSet(events[1..]) by {
        var k :| 0 <= k < |events| && events[k].title == title;
        assert events[1..][k - 1] == events[k];
      }
      1 + FirstIndex(events[1..], title)
  }

  /** No two events share a label. */
  predicate DistinctTitles(events: seq<Event>)
  {
    forall i, j :: 0 <= i < j < |events| ==> events[i].title != events[j].title
  }

  /** What the loop over `wikidata_events + wikipedia_events` appends to `all_events`. */
  function Merged(events: seq<Event>): seq<Event>
    decreases |events|
  {
    if events == [] then []
    else
      var before := Merged(events[..|events| - 1]);
      var e := events[|events| - 1];
      if e.title in LabelSet(before) then before else before + [e]
  }

  lemma LabelSetAppend(a: seq<Event>, e: Event)
    ensures LabelSet(a + [e]) == LabelSet(a) + {e.title}
  {
    var s := a + [e];
    forall t | t in LabelSet(s) ensures t in LabelSet(a) + {e.title} {
      var k :| 0 <= k < |s| && s[k].title == t;
      if k < |a| {
        assert a[k] == s[k];
      }
    }
    forall t | t in LabelSet(a) ensures t in LabelSet(s) {
      var k :| 0 <= k < |a| && a[k].title == t;
      assert s[k] == a[k];
    }
    assert s[|a|] == e;
  }

  /** The merged list has exactly the labels of its input. */
  lemma {:induction false} MergedLabels(events: seq<Event>)
    ensures LabelSet(Merged(events)) == LabelSet(events)
    decreases |events|
  {
    if events != [] {
      var n := |events| - 1;
      MergedLabels(events[..n]);
      assert events == events[..n] + [events[n]];
      LabelSetAppend(events[..n], events[n]);
      LabelSetAppend(Merged(events[..n]), events[n]);
    }
  }

  /** No two events of the merged list share a label. */
  lemma {:induction false} MergedDistinct(events: seq<Event>)
    ensures DistinctTitles(Merged(events))
    decreases |events|
  {
    if events != [] {
      var n := |events| - 1;
      var before := Merged(events[..n]);
      MergedDistinct(events[..n]);
      if events[n].title !in LabelSet(before) {
        var m := before + [events[n]];
        assert Merged(events) == m;
        forall i, j | 0 <= i < j < |m| ensures m[i].title != m[j].title {
          if j == |before| {
            assert m[i] == before[i] && m[j] == events[n];
            assert before[i].title in LabelSet(before);
            assert m[i].title != m[j].title;
          } else {
            assert m[i] == before[i] && m[j] == before[j];
            assert m[i].title != m[j].title;
          }
        }
      }
    }
  }

  /** A first index within a prefix is the first index in the whole list. */
  lemma FirstIndexOfPrefix(a: seq<Event>, e: Event, title: string)
    requires title in LabelSet(a)
    ensures title in LabelSet(a + [e]) && FirstIndex(a + [e], title) == FirstIndex(a, title)
  {
    LabelSetAppend(a, e);
    var s := a + [e];
    var i := FirstIndex(a, title);
    assert s[i] == a[i];
    assert forall j :: 0 <= j < i ==> s[j] == a[j];
  }

  /**
   * Every merged event is the first event of the input with its label, and the merged list
   * keeps the input order of those first events.
   */
  lemma {:induction false} MergedKeepsFirstOccurrences(events: seq<Event>)
    ensures var m := Merged(events);
            forall k :: 0 <= k < |m| ==> m[k].title in LabelSet(events) && m[k] == events[FirstIndex(events, m[k].title)]
    ensures var m := Merged(events);
            forall k1, k2 :: 0 <= k1 < k2 < |m| && m[k1].title in LabelSet(events) && m[k2].title in LabelSet(events) ==>
              FirstIndex(events, m[k1].title) < FirstIndex(events, m[k2].title)
    decreases |events|
  {
    if events != [] {
      var n := |events| - 1;
      var front, e := events[..n], events[n];
      assert events == front + [e];
      var before := Merged(front);
      MergedKeepsFirstOccurrences(front);
      MergedLabels(front);
      LabelSetAppend(front, e);
      var m := Merged(events);
      forall k | 0 <= k < |before| ensures before[k].title in LabelSet(events) && FirstIndex(events, before[k].title) == FirstIndex(front, before[k].title) {
        FirstIndexOfPrefix(front, e, before[k].title);
      }
      forall k | 0 <= k < |before| ensures before[k] == events[FirstIndex(events, before[k].title)] {
        assert events[FirstIndex(front, before[k].title)] == front[FirstIndex(front, before[k].title)];
      }
      if e.title !in LabelSet(before) {
        assert e.title !in LabelSet(front);
        assert FirstIndex(events, e.title) == n;
        assert m == before + [e];
        forall k | 0 <= k < |m| ensures m[k].title in LabelSet(events) && m[k] == events[FirstIndex(events, m[k].title)] {
          if k < |before| {
            assert m[k] == before[k];
          }
        }
      }
    }
  }

  /** The Wikidata events come first: the merge of the first list is a prefix of the merge of both. */
  lemma {:induction false} MergedPrefix(a: seq<Event>, b: seq<Event>)
    ensures |Merged(a)| <= |Merged(a + b)| && Merged(a + b)[..|Merged(a)|] == Merged(a)
    decreases |b|
  {
    if b == [] {
      assert a + b == a;
    } else {
      var n := |b| - 1;
      assert (a + b)[..|a + b| - 1] == a + b[..n];
      MergedPrefix(a, b[..n]);
    }
  }

  /** A list with distinct labels is merged into itself. */
  lemma {:induction false} MergedDistinctList(events: seq<Event>)
    requires DistinctTitles(events)
    ensures Merged(events) == events
    decreases |events|
  {
    if events != [] {
      var n := |events| - 1;
      MergedDistinctList(events[..n]);
      assert events[n].title !in LabelSet(events[..n]);
    }
  }

  /** The merge loop of `get_combined_events`, with its `seen_titles` set. */
  method MergeEvents(events: seq<Event>) returns (all: seq<Event>)
    ensures all == Merged(events)
  {
    all := [];
    var seen: set<string> := {};
    var i := 0;
    while i < |events|
      invariant 0 <= i <= |events|
      invariant all == Merged(events[..i])
      invariant seen == LabelSet(all)
    {
      assert events[..i + 1][..i] == events[..i];
      var event := events[i];
      if event.title !in seen {
        LabelSetAppend(all, event);
        seen := seen + {event.title};
        all := all + [event];
      }
      i := i + 1;
    }
    assert events[..i] == events;
  }

  /**
   * `get_combined_events`: nothing when the city has no id, otherwise the merge of the two
   * sources' events, Wikidata first.
   */
  method GetCombinedEvents(cityId: Option<string>, wikidataEvents: seq<Event>, wikipediaEvents: seq<Event>)
    returns (events: seq<Event>)
    ensures !IsTruthy(cityId) ==> events == []
    ensures IsTruthy(cityId) ==> events == Merged(wikidataEvents + wikipediaEvents)
  {
    if !IsTruthy(cityId) {
      return [];
    }
    events := MergeEvents(wikidataEvents + wikipediaEvents);
  }
}
