/** The greedy payload batcher: `batchSerializedEvents` (TypeScript) and `batch_events`
    (Python). Serialized events are packed, left to right, into size-bounded payloads:
    an event joins the payload being filled when that payload is still empty or when
    the event fits; otherwise it starts a new payload. Events are never split or
    reordered, and an event longer than the limit still gets a payload of its own. */
module Batching {
  import opened Sequences

  /** The grouping of events into payloads, for the events already seen. The last group
      is the payload still being filled; before any event it is the empty payload `''`
      that the source starts from. Each event adds at most one group. */
  function Groups(events: seq<string>, limit: int): (groups: seq<seq<string>>)
    ensures |groups| >= 1
    decreases |events|
  {
    if |events| == 0 then [[]]
    else AddEvent(Groups(events[..|events| - 1], limit), events[|events| - 1], limit)
  }

  /** One step of the loop: append `event` to the payload being filled, or start a new one.
      At most one group is added. */
  function AddEvent(groups: seq<seq<string>>, event: string, limit: int): (next: seq<seq<string>>)
    requires |groups| >= 1
  {
    var current := groups[|groups| - 1];
    if |Flatten(current)| == 0 || |event| + |Flatten(current)| <= limit
    then groups[..|groups| - 1] + [current + [event]]
    else groups + [[event]]
  }

  /** Read in order, the groups after a step hold what they held before, followed by `event`. */
  lemma AddEventAppends(groups: seq<seq<string>>, event: string, limit: int)
    requires |groups| >= 1
    ensures Flatten(AddEvent(groups, event, limit)) == Flatten(groups) + [event]
  {
    var current := groups[|groups| - 1];
    if |Flatten(current)| == 0 || |event| + |Flatten(current)| <= limit {
      AppendToCurrent(groups, event, limit);
    } else {
      StartNewGroup(groups, event, limit);
    }
  }

  /** The step that adds `event` to the payload being filled. */
  lemma AppendToCurrent(groups: seq<seq<string>>, event: string, limit: int)
    requires |groups| >= 1
    requires var current := groups[|groups| - 1];
      |Flatten(current)| == 0 || |event| + |Flatten(current)| <= limit
    ensures Flatten(AddEvent(groups, event, limit)) == Flatten(groups) + [event]
  {
    var m := |groups| - 1;
    var current, before := groups[m], groups[..m];
    assert AddEvent(groups, event, limit) == before + [current + [event]];
    assert before + [current] == groups;
    FlattenSnoc(before, current + [event]);
    FlattenSnoc(before, current);
  }

  /** The step that starts a new payload with `event`. */
  lemma StartNewGroup(groups: seq<seq<string>>, event: string, limit: int)
    requires |groups| >= 1
    requires var current := groups[|groups| - 1];
      !(|Flatten(current)| == 0 || |event| + |Flatten(current)| <= limit)
    ensures Flatten(AddEvent(groups, event, limit)) == Flatten(groups) + [event]
  {
    FlattenSnoc(groups, [event]);
  }

  /** The text of each group: the payload strings the batcher returns. */
  function Payloads(groups: seq<seq<string>>): (payloads: seq<string>)
    ensures |payloads| == |groups|
  {
    seq(|groups|, i requires 0 <= i < |groups| => Flatten(groups[i]))
  }

  /** The payloads built from `events` with size limit `limit`: none exactly when there are
      no events, otherwise one per group. */
  function Batches(events: seq<string>, limit: int): (batches: seq<string>)
    ensures |batches| == 0 <==> |events| == 0
    ensures |events| > 0 ==> |batches| == |Groups(events, limit)|
  {
    if |events| == 0 then [] else Payloads(Groups(events, limit))
  }

  /** `batchSerializedEvents` / `batch_events`: the loop that overwrites the last batch
      or pushes a new one. */
  method BatchSerializedEvents(serializedEvents: seq<string>, batchSize: int) returns (batches: seq<string>)
    ensures batches == Batches(serializedEvents, batchSize)
    ensures Flatten(batches) == Flatten(serializedEvents)
    ensures |serializedEvents| == 0 <==> |batches| == 0
    ensures |batches| <= |serializedEvents|
  {
    if |serializedEvents| == 0 {
      return [];
    }
    batches := [""];
    ghost var groups: seq<seq<string>> := [[]];
    for i := 0 to |serializedEvents|
      invariant groups == Groups(serializedEvents[..i], batchSize)
      invariant batches == Payloads(groups)
    {
      var serializedEvent := serializedEvents[i];
      var currentBatch := batches[|batches| - 1];
      var potentialSize := |serializedEvent| + |currentBatch|;
      if |currentBatch| == 0 || potentialSize <= batchSize {
        batches := batches[|batches| - 1 := currentBatch + serializedEvent];
      } else {
        batches := batches + [serializedEvent];
      }
      PayloadsAddEvent(groups, serializedEvent, batchSize);
      groups := AddEvent(groups, serializedEvent, batchSize);
      assert serializedEvents[..i + 1][..i] == serializedEvents[..i];
    }
    assert serializedEvents[..|serializedEvents|] == serializedEvents;
    BatchesPreserveContent(serializedEvents, batchSize);
    BatchCount(serializedEvents, batchSize);
  }

  /** What one step of the loop does to the payload strings. */
  lemma PayloadsAddEvent(groups: seq<seq<string>>, event: string, limit: int)
    requires |groups| >= 1
    ensures var p := Payloads(groups); var current := p[|p| - 1];
      Payloads(AddEvent(groups, event, limit)) ==
        if |current| == 0 || |event| + |current| <= limit
        then p[|p| - 1 := current + event]
        else p + [event]
  {
    var n := |groups|;
    var last := groups[n - 1];
    var p := Payloads(groups);
    var next := AddEvent(groups, event, limit);
    if |p[n - 1]| == 0 || |event| + |p[n - 1]| <= limit {
      assert (last + [event])[..|last|] == last;
      assert Flatten(last + [event]) == p[n - 1] + event;
      assert |next| == n;
      forall i | 0 <= i < n
        ensures Payloads(next)[i] == p[n - 1 := p[n - 1] + event][i]
      {
        if i < n - 1 {
          assert next[i] == groups[i];
        }
      }
    } else {
      assert next == groups + [[event]];
      assert Flatten([event]) == event by {
        assert [event][..0] == [];
      }
      forall i | 0 <= i < n + 1
        ensures Payloads(next)[i] == (p + [event])[i]
      {
      }
    }
  }

  // ---------------------------------------------------------------------------
  // Properties of the grouping

  /** Read in order, the groups are exactly the events: nothing lost, duplicated or reordered. */
  lemma {:induction false} GroupsPartition(events: seq<string>, limit: int)
    ensures Flatten(Groups(events, limit)) == events
    decreases |events|
  {
    if |events| > 0 {
      var n := |events| - 1;
      var prev := Groups(events[..n], limit);
      calc {
        Flatten(Groups(events, limit));
        Flatten(AddEvent(prev, events[n], limit));
        { AddEventAppends(prev, events[n], limit); }
        Flatten(prev) + [events[n]];
        { GroupsPartition(events[..n], limit); }
        events[..n] + [events[n]];
        events;
      }
    }
  }

  /** Every group after the first is non-empty, the first is non-empty once an event has
      been seen, and there are never more groups than events. */
  lemma {:induction false} GroupsShape(events: seq<string>, limit: int)
    ensures forall i :: 0 < i < |Groups(events, limit)| ==> |Groups(events, limit)[i]| > 0
    ensures |events| > 0 ==> |Groups(events, limit)[0]| > 0 && |Groups(events, limit)| <= |events|
    decreases |events|
  {
    if |events| > 0 {
      GroupsShape(events[..|events| - 1], limit);
    }
  }

  /** Greedy: every payload but the last was closed only because the first event of the
      next payload would not fit into it. */
  lemma {:induction false} GroupsGreedy(events: seq<string>, limit: int)
    ensures forall i :: 0 < i < |Groups(events, limit)| ==>
      |Groups(events, limit)[i]| > 0 &&
      |Flatten(Groups(events, limit)[i - 1])| + |Groups(events, limit)[i][0]| > limit
    decreases |events|
  {
    if |events| > 0 {
      var n := |events| - 1;
      GroupsGreedy(events[..n], limit);
      GroupsShape(events[..n], limit);
      AddEventGreedy(Groups(events[..n], limit), events[n], limit);
    }
  }

  /** One loop step keeps the groups greedy. */
  lemma AddEventGreedy(gs: seq<seq<string>>, event: string, limit: int)
    requires |gs| >= 1
    requires forall i :: 0 < i < |gs| ==> |gs[i]| > 0 && |Flatten(gs[i - 1])| + |gs[i][0]| > limit
    ensures var next := AddEvent(gs, event, limit);
      forall i :: 0 < i < |next| ==> |next[i]| > 0 && |Flatten(next[i - 1])| + |next[i][0]| > limit
  {
    var m := |gs| - 1;
    var current := gs[m];
    var next := AddEvent(gs, event, limit);
    if |Flatten(current)| == 0 || |event| + |Flatten(current)| <= limit {
      assert next == gs[..m] + [current + [event]];
      forall i | 0 < i < |next|
        ensures |next[i]| > 0 && |Flatten(next[i - 1])| + |next[i][0]| > limit
      {
        assert next[i - 1] == gs[i - 1];
        if i < m {
          assert next[i] == gs[i];
        } else {
          assert next[i] == current + [event];
          assert next[i][0] == gs[i][0];
        }
      }
    } else {
      assert next == gs + [[event]];
      forall i | 0 < i < |next|
        ensures |next[i]| > 0 && |Flatten(next[i - 1])| + |next[i][0]| > limit
      {
        if i < |gs| {
          assert next[i] == gs[i] && next[i - 1] == gs[i - 1];
        } else {
          assert next[i] == [event] && next[i - 1] == current;
        }
      }
    }
  }

  /** Every event placed in a group is one of the input events. */
  lemma {:induction false} GroupsHoldEvents(events: seq<string>, limit: int, i: nat, j: nat)
    requires i < |Groups(events, limit)| && j < |Groups(events, limit)[i]|
    ensures Groups(events, limit)[i][j] in events
    decreases |events|
  {
    if |events| > 0 {
      var n := |events| - 1;
      var gs := Groups(events[..n], limit);
      var next := Groups(events, limit);
      if i < |gs| && j < |gs[i]| {
        assert next[i][j] == gs[i][j];
        GroupsHoldEvents(events[..n], limit, i, j);
      } else {
        assert next[i][j] == events[n];
      }
    }
  }

  /** With non-empty events (serialized JSON is never empty), a group over the limit holds
      exactly one event. */
  lemma {:induction false} GroupsBounded(events: seq<string>, limit: int)
    requires forall k :: 0 <= k < |events| ==> |events[k]| > 0
    ensures |events| > 0 ==> forall i :: 0 <= i < |Groups(events, limit)| ==>
      |Flatten(Groups(events, limit)[i])| <= limit || |Groups(events, limit)[i]| == 1
  {
    if |events| > 0 {
      GroupsWithinLimit(events, limit);
      GroupsShape(events, limit);
    }
  }

  /** The invariant behind `GroupsBounded`, which also holds before any event: every group
      is within the limit or holds at most one event. */
  lemma {:induction false} GroupsWithinLimit(events: seq<string>, limit: int)
    requires forall k :: 0 <= k < |events| ==> |events[k]| > 0
    ensures forall i :: 0 <= i < |Groups(events, limit)| ==>
      |Flatten(Groups(events, limit)[i])| <= limit || |Groups(events, limit)[i]| <= 1
    decreases |events|
  {
    if |events| > 0 {
      var n := |events| - 1;
      var prefix := events[..n];
      var gs := Groups(prefix, limit);
      GroupsWithinLimit(prefix, limit);
      var current := gs[|gs| - 1];
      if |current| > 0 {
        var k := |current| - 1;
        GroupsHoldEvents(prefix, limit, |gs| - 1, k);
        assert |current[k]| > 0;
        FlattenSnoc(current[..k], current[k]);
        assert current[..k] + [current[k]] == current;
      }
      assert Groups(events, limit) == AddEvent(gs, events[n], limit);
      AddEventBounded(gs, events[n], limit);
    }
  }

  /** One loop step keeps every group within the limit or at most one event long, given
      that a non-empty payload being filled has non-empty text. */
  lemma AddEventBounded(gs: seq<seq<string>>, event: string, limit: int)
    requires |gs| >= 1
    requires |gs[|gs| - 1]| > 0 ==> |Flatten(gs[|gs| - 1])| > 0
    requires forall i :: 0 <= i < |gs| ==> |Flatten(gs[i])| <= limit || |gs[i]| <= 1
    ensures forall i :: 0 <= i < |AddEvent(gs, event, limit)| ==>
      |Flatten(AddEvent(gs, event, limit)[i])| <= limit || |AddEvent(gs, event, limit)[i]| <= 1
  {
    var m := |gs| - 1;
    var current := gs[m];
    var next := AddEvent(gs, event, limit);
    if |Flatten(current)| == 0 || |event| + |Flatten(current)| <= limit {
      assert next == gs[..m] + [current + [event]];
      FlattenSnoc(current, event);
      forall i | 0 <= i < |next|
        ensures |Flatten(next[i])| <= limit || |next[i]| <= 1
      {
        if i < m {
          assert next[i] == gs[i];
        } else if |Flatten(current)| == 0 {
          assert current == [];
          assert next[i] == [event];
        } else {
          assert next[i] == current + [event];
        }
      }
    } else {
      assert next == gs + [[event]];
      forall i | 0 <= i < |next|
        ensures |Flatten(next[i])| <= limit || |next[i]| <= 1
      {
        if i < |gs| {
          assert next[i] == gs[i];
        } else {
          assert next[i] == [event];
        }
      }
    }
  }

  // ---------------------------------------------------------------------------
  // Properties of the payloads

  lemma {:induction false} PayloadsFlatten(groups: seq<seq<string>>)
    ensures Flatten(Payloads(groups)) == Flatten(Flatten(groups))
    decreases |groups|
  {
    if |groups| > 0 {
      var n := |groups| - 1;
      PayloadsFlatten(groups[..n]);
      assert Payloads(groups)[..n] == Payloads(groups[..n]);
      FlattenAppend(Flatten(groups[..n]), groups[n]);
    }
  }

  /** Concatenating the payloads in order gives the concatenation of the events in order. */
  lemma BatchesPreserveContent(events: seq<string>, limit: int)
    ensures Flatten(Batches(events, limit)) == Flatten(events)
  {
    if |events| > 0 {
      PayloadsFlatten(Groups(events, limit));
      GroupsPartition(events, limit);
    }
  }

  /** No events give no payloads; otherwise there is at least one payload and never more
      payloads than events. */
  lemma BatchCount(events: seq<string>, limit: int)
    ensures |events| == 0 ==> Batches(events, limit) == []
    ensures |events| > 0 ==> 1 <= |Batches(events, limit)| <= |events|
  {
    GroupsShape(events, limit);
  }

  /** With non-empty events, every payload is within the limit unless it is a single event,
      which is then kept whole rather than rejected. */
  lemma BatchesWithinLimit(events: seq<string>, limit: int)
    requires forall k :: 0 <= k < |events| ==> |events[k]| > 0
    ensures var batches := Batches(events, limit); var gs := Groups(events, limit);
      forall i :: 0 <= i < |batches| ==> |batches[i]| <= limit || (|gs[i]| == 1 && batches[i] == gs[i][0])
  {
    var gs := Groups(events, limit);
    GroupsBounded(events, limit);
    forall i | 0 <= i < |gs| && |gs[i]| == 1
      ensures Flatten(gs[i]) == gs[i][0]
    {
      assert gs[i][..0] == [];
    }
  }

  /** Greedy packing: each payload after the first begins with an event that did not fit
      into the payload before it. With non-empty events this also means that no two
      neighbouring payloads could have been merged. */
  lemma BatchesGreedy(events: seq<string>, limit: int)
    ensures var batches := Batches(events, limit); var gs := Groups(events, limit);
      forall i :: 0 < i < |batches| ==>
        && |gs[i]| > 0
        && |gs[i][0]| <= |batches[i]| && batches[i][..|gs[i][0]|] == gs[i][0]
        && |batches[i - 1]| + |gs[i][0]| > limit
    ensures var batches := Batches(events, limit);
      forall i :: 0 < i < |batches| ==> |batches[i - 1]| + |batches[i]| > limit
  {
    var gs := Groups(events, limit);
    var batches := Batches(events, limit);
    GroupsGreedy(events, limit);
    if |events| > 0 {
      assert batches == Payloads(gs);
      forall i | 0 < i < |batches|
        ensures && |gs[i]| > 0
                && |gs[i][0]| <= |batches[i]| && batches[i][..|gs[i][0]|] == gs[i][0]
                && |batches[i - 1]| + |gs[i][0]| > limit
      {
        assert |gs[i]| > 0 && |Flatten(gs[i - 1])| + |gs[i][0]| > limit;
        FlattenStartsWithFirst(gs[i]);
        assert batches[i] == Flatten(gs[i]) && batches[i - 1] == Flatten(gs[i - 1]);
      }
    }
  }

  /** A single event becomes a single payload, whatever its size. */
  lemma OversizedSingleton(event: string, limit: int)
    ensures Batches([event], limit) == [event]
  {
    FirstEvent(event, limit);
    assert Flatten([event]) == event by {
      assert [event][..0] == [];
    }
    assert Payloads([[event]])[0] == event;
  }

  /** The first event always goes into the initially empty payload. */
  lemma FirstEvent(event: string, limit: int)
    ensures Groups([event], limit) == [[event]]
  {
    var start: seq<seq<string>> := [[]];
    assert [event][..0] == [];
    assert start[0] == [];
    assert Flatten(start[0]) == [];
    assert start[0] + [event] == [event];
    assert start[..0] == [];
  }

  lemma GroupsSnoc(events: seq<string>, event: string, limit: int)
    ensures Groups(events + [event], limit) == AddEvent(Groups(events, limit), event, limit)
  {
    assert (events + [event])[..|events|] == events;
  }

  // Worked examples from the batching tests, with limit 3, one loop step per lemma. The
  // events are parameters of the stated lengths (the tests use "a" and "aaaa").

  lemma TwoSmallEvents(a: string)
    requires |a| == 1
    ensures Groups([a, a], 3) == [[a, a]]
  {
    FlattenSmall(a, a, a);
    FirstEvent(a, 3);
    GroupsSnoc([a], a, 3);
    assert [a] + [a] == [a, a];
    assert [[a]][..0] == [];
  }

  lemma ThreeSmallEvents(a: string)
    requires |a| == 1
    ensures Groups([a, a, a], 3) == [[a, a, a]]
  {
    FlattenSmall(a, a, a);
    TwoSmallEvents(a);
    GroupsSnoc([a, a], a, 3);
    assert [a, a] + [a] == [a, a, a];
    assert [[a, a]][..0] == [];
  }

  /** Four one-character events with limit 3 overflow into a second payload. */
  lemma OverflowExample(a: string)
    requires |a| == 1
    ensures Batches(Repeat(a, 4), 3) == [a + a + a, a]
  {
    UniformSmallEvents(a, 1, 1);
    assert Repeat(a, 3) == [a, a, a];
    assert Repeat([a, a, a], 1) == [[a, a, a]];
    assert Repeat(a, 1) == [a];
    FlattenSmall(a, a, a);
    assert Groups(Repeat(a, 4), 3) == [[a, a, a], [a]];
  }

  lemma BigThenSmall(big: string, a: string)
    requires |big| == 4 && |a| == 1
    ensures Groups([big, a], 3) == [[big], [a]]
  {
    var start: seq<seq<string>> := [[big]];
    FlattenSmall(big, a, a);
    assert AddEvent(start, a, 3) == start + [[a]];
    FirstEvent(big, 3);
    GroupsSnoc([big], a, 3);
    assert [big] + [a] == [big, a];
  }

  lemma BigThenTwoSmall(big: string, a: string)
    requires |big| == 4 && |a| == 1
    ensures Groups([big, a, a], 3) == [[big], [a, a]]
  {
    FlattenSmall(a, a, a);
    BigThenSmall(big, a);
    GroupsSnoc([big, a], a, 3);
    assert [big, a] + [a] == [big, a, a];
    assert [[big], [a]][..1] == [[big]];
    assert [a] + [a] == [a, a];
  }

  /** An oversized first event keeps its own payload; the small events after it share the next one. */
  lemma OversizedFirstExample(big: string, a: string)
    requires |big| == 4 && |a| == 1
    ensures Batches([big, a, a, a], 3) == [big, a + a + a]
  {
    FlattenSmall(a, a, a);
    FlattenSmall(big, a, a);
    BigThenTwoSmall(big, a);
    GroupsSnoc([big, a, a], a, 3);
    assert [big, a, a] + [a] == [big, a, a, a];
    assert [[big], [a, a]][..1] == [[big]];
    assert [a, a] + [a] == [a, a, a];
    assert Groups([big, a, a, a], 3) == [[big], [a, a, a]];
  }

  /** `n` copies of `x`. */
  function Repeat<T>(x: T, n: nat): (r: seq<T>)
    ensures |r| == n && forall i :: 0 <= i < n ==> r[i] == x
  {
    seq(n, _ => x)
  }

  lemma {:induction false} FlattenRepeatLength(a: string, n: nat)
    ensures |Flatten(Repeat(a, n))| == n * |a|
    decreases n
  {
    if n > 0 {
      FlattenRepeatLength(a, n - 1);
      assert Repeat(a, n)[..n - 1] == Repeat(a, n - 1);
    }
  }

  /** One step over uniform one-character events with limit 3: a payload of fewer than
      three events takes the next one; a full payload is closed. */
  lemma UniformStep(a: string, q: nat, r: nat)
    requires |a| == 1 && 1 <= r <= 3
    ensures AddEvent(Repeat([a, a, a], q) + [Repeat(a, r)], a, 3)
            == if r < 3 then Repeat([a, a, a], q) + [Repeat(a, r + 1)] else Repeat([a, a, a], q + 1) + [[a]]
  {
    var gs := Repeat([a, a, a], q) + [Repeat(a, r)];
    assert gs[|gs| - 1] == Repeat(a, r);
    assert gs[..|gs| - 1] == Repeat([a, a, a], q);
    FlattenRepeatLength(a, r);
    if r < 3 {
      assert Repeat(a, r) + [a] == Repeat(a, r + 1);
    } else {
      assert Repeat(a, 3) == [a, a, a];
      assert Repeat([a, a, a], q) + [[a, a, a]] == Repeat([a, a, a], q + 1);
    }
  }

  /** Adding one more one-character event is one step of the loop. */
  lemma RepeatSnoc(a: string, n: nat)
    requires n >= 1
    ensures Groups(Repeat(a, n), 3) == AddEvent(Groups(Repeat(a, n - 1), 3), a, 3)
  {
    assert Repeat(a, n - 1) + [a] == Repeat(a, n);
    GroupsSnoc(Repeat(a, n - 1), a, 3);
  }

  /** `3 * q + r` one-character events with limit 3 fill `q` payloads of three events and
      leave the last `r` (one to three) in the payload being filled. */
  lemma {:induction false} UniformSmallEvents(a: string, q: nat, r: nat)
    requires |a| == 1 && 1 <= r <= 3
    ensures Groups(Repeat(a, 3 * q + r), 3) == Repeat([a, a, a], q) + [Repeat(a, r)]
    decreases 3 * q + r
  {
    if q == 0 && r == 1 {
      assert Repeat(a, 1) == [a];
      FirstEvent(a, 3);
      assert Repeat([a, a, a], 0) == [];
    } else if r > 1 {
      UniformSmallEvents(a, q, r - 1);
      UniformGrow(a, q, r);
    } else {
      UniformSmallEvents(a, q - 1, 3);
      UniformClose(a, q - 1);
    }
  }

  /** The payload being filled takes one more event while it holds fewer than three. */
  lemma UniformGrow(a: string, q: nat, r: nat)
    requires |a| == 1 && 1 < r <= 3
    requires Groups(Repeat(a, 3 * q + r - 1), 3) == Repeat([a, a, a], q) + [Repeat(a, r - 1)]
    ensures Groups(Repeat(a, 3 * q + r), 3) == Repeat([a, a, a], q) + [Repeat(a, r)]
  {
    var n := 3 * q + r;
    var prev := Groups(Repeat(a, n - 1), 3);
    RepeatSnoc(a, n);
    assert Groups(Repeat(a, n), 3) == AddEvent(prev, a, 3);
    UniformStep(a, q, r - 1);
  }

  /** A full payload of three is closed and the next event starts a new one. */
  lemma UniformClose(a: string, p: nat)
    requires |a| == 1
    requires Groups(Repeat(a, 3 * p + 3), 3) == Repeat([a, a, a], p) + [Repeat(a, 3)]
    ensures Groups(Repeat(a, 3 * p + 4), 3) == Repeat([a, a, a], p + 1) + [Repeat(a, 1)]
  {
    var n := 3 * p + 4;
    var prev := Groups(Repeat(a, n - 1), 3);
    RepeatSnoc(a, n);
    assert Groups(Repeat(a, n), 3) == AddEvent(prev, a, 3);
    UniformStep(a, p, 3);
    assert Repeat(a, 1) == [a];
  }

  /** Nine one-character events with limit 3 give three payloads of three. */
  lemma NineSmallEvents(a: string)
    requires |a| == 1
    ensures Batches(Repeat(a, 9), 3) == [a + a + a, a + a + a, a + a + a]
  {
    UniformSmallEvents(a, 2, 3);
    assert Repeat(a, 3) == [a, a, a];
    assert Repeat([a, a, a], 2) == [[a, a, a], [a, a, a]];
    FlattenSmall(a, a, a);
    assert Groups(Repeat(a, 9), 3) == [[a, a, a], [a, a, a], [a, a, a]];
  }
}
