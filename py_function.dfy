/** The Python function (__init__.py). It batches like the TypeScript version (with the
    limit fixed by a module constant), sends each payload once with no retry, and backs
    up failures to two byte blobs: on a pre-push error the raw message bodies joined by a
    newline byte, otherwise the failed payloads joined by newlines. */
module PyFunction {
  import opened Wrappers
  import opened Sequences
  import opened Environment
  import opened Batching
  import opened Retry
  import opened Reconcile
  import HecFunction

  /** The largest payload `batch_events` builds, unless one event alone is larger. */
  const SplunkBatchMaxSizeBytes: int := 1000000

  /** `batch_events`: the same greedy packing as `batchSerializedEvents`, at the module limit. */
  method BatchEvents(splunkEvents: seq<string>) returns (batches: seq<string>)
    ensures batches == Batches(splunkEvents, SplunkBatchMaxSizeBytes)
    ensures Flatten(batches) == Flatten(splunkEvents)
    ensures |batches| == 0 <==> |splunkEvents| == 0
  {
    batches := BatchSerializedEvents(splunkEvents, SplunkBatchMaxSizeBytes);
  }

  /** `push_to_hec` raises unless `response.ok`, which the `requests` library defines as a
      status below 400 or from 600 on; a request that gets no response raises as well. */
  /** A 2xx answer is accepted, and every answer the TypeScript client would retry is
      refused. */
  predicate PyPushFails(a: Attempt)
    ensures IsSuccess(a) ==> !PyPushFails(a)
    ensures IsRetryableError(a) ==> PyPushFails(a)
  {
    a.RequestError? || 400 <= a.status < 600
  }

  /** How the two versions judge a single answer beyond that: for a transport error, a
      2xx, 4xx or 5xx status they agree. They part on 1xx, 3xx and out-of-range statuses,
      which only the Python version accepts. */
  lemma PushVerdicts(a: Attempt)
    ensures a.RequestError? || 200 <= a.status < 300 || 400 <= a.status < 600 ==> (PyPushFails(a) <==> !IsSuccess(a))
    ensures !PyPushFails(Response(302)) && Conclude(Response(302), 1) != Delivered
  {
  }

  /** `get_source`: any missing setting raises, so there is no source at all. */
  function PyGetSource(config: Config): (source: Option<string>)
    ensures source.Some? <==> config.region.Some? && config.eventHubNamespace.Some? && config.eventHubName.Some?
    ensures source.Some? ==>
      source.value == Join(["azure", config.region.value, config.eventHubNamespace.value, config.eventHubName.value], ':')
  {
    if config.region.None? || config.eventHubNamespace.None? || config.eventHubName.None? then None
    else Some(FormatSource(config.region.value, config.eventHubNamespace.value, config.eventHubName.value))
  }

  /** When every part is configured the two versions stamp the same source; otherwise
      only the TypeScript version produces one, from placeholders. */
  lemma SourcesAgree(config: Config)
    ensures PyGetSource(config).Some? ==> PyGetSource(config).value == HecFunction.GetSource(config)
    ensures PyGetSource(config).None? ==> HecFunction.GetSource(config) != ""
  {
  }

  // ---------------------------------------------------------------------------
  // The invocation

  /** An output binding (`func.Out`): unset until `set` is called. */
  class OutputBlob<T> {
    var value: Option<seq<T>>

    constructor ()
      ensures value == None
    {
      value := None;
    }

    method Set(v: seq<T>)
      modifies this
      ensures value == Some(v)
    {
      value := Some(v);
    }
  }

  const Newline: byte := 10

  /** The body of every message, in order. */
  function Bodies(events: seq<EventHubMessage>): (bodies: seq<seq<byte>>)
    ensures |bodies| == |events|
    ensures forall i :: 0 <= i < |events| ==> bodies[i] == events[i].body
  {
    seq(|events|, i requires 0 <= i < |events| => events[i].body)
  }

  /** `handle_prepush_exception`: collect every message body and write them, joined by a
      newline byte, to the blob; the blob is written even when there are no messages. */
  method HandlePrepushException(events: seq<EventHubMessage>, outputBlob: OutputBlob<byte>)
    modifies outputBlob
    ensures outputBlob.value == Some(Join(Bodies(events), Newline))
  {
    var eventBodyList: seq<seq<byte>> := [];
    for i := 0 to |events|
      invariant |eventBodyList| == i
      invariant forall k :: 0 <= k < i ==> eventBodyList[k] == events[k].body
    {
      eventBodyList := eventBodyList + [events[i].body];
    }
    assert eventBodyList == Bodies(events);
    outputBlob.Set(Join(eventBodyList, Newline));
  }

  /** The raw backup reads back as the message bodies, one per line, when there is at
      least one message and no body contains a newline byte. */
  lemma PrepushBackupRoundTrip(events: seq<EventHubMessage>)
    requires |events| > 0
    requires forall i :: 0 <= i < |events| ==> Newline !in events[i].body
    ensures Split(Join(Bodies(events), Newline), Newline) == Bodies(events)
  {
    SplitJoin(Bodies(events), Newline);
  }

  /** `handle_push_exceptions`: nothing without failures, otherwise the failures newline-joined. */
  method HandlePushExceptions(failedRequests: seq<string>, outputBlob: OutputBlob<char>)
    modifies outputBlob
    ensures outputBlob.value == if failedRequests == [] then old(outputBlob.value) else SendBlob(failedRequests)
  {
    if |failedRequests| == 0 {
      return;
    }
    outputBlob.Set(Join(failedRequests, '\n'));
  }

  /** For each of `count` payloads, whether its single request failed. */
  function PyFailures(collector: nat -> Attempt, count: nat): (failed: seq<bool>)
    ensures |failed| == count
    ensures forall i :: 0 <= i < count ==> (failed[i] <==> PyPushFails(collector(i)))
  {
    seq(count, i requires 0 <= i => PyPushFails(collector(i)))
  }

  /** The delivery loop of `main`: one request per payload, failures kept in order. */
  method PushPayloads(payloads: seq<string>, collector: nat -> Attempt) returns (failedPayloads: seq<string>)
    ensures failedPayloads == Select(payloads, PyFailures(collector, |payloads|))
  {
    ghost var failures := PyFailures(collector, |payloads|);
    failedPayloads := [];
    for i := 0 to |payloads|
      invariant failedPayloads == Select(payloads[..i], failures[..i])
    {
      if PyPushFails(collector(i)) {
        failedPayloads := failedPayloads + [payloads[i]];
      }
      assert payloads[..i + 1][..i] == payloads[..i];
      assert failures[..i + 1][..i] == failures[..i];
    }
    assert payloads[..|payloads|] == payloads;
    assert failures[..|payloads|] == failures;
  }

  /** True when `main` gets past its `try` block: both HEC settings are set and
      `build_payloads` returns (`serialized` is present). Only then are the URL and the
      authorization header built. */
  predicate ReachesDelivery(config: Config, serialized: Option<seq<string>>)
    ensures ReachesDelivery(config, serialized) <==>
      HecFunction.GetHecParams(config).Success? && serialized.Some?
  {
    config.hecUrl.Some? && config.hecToken.Some? && serialized.Some?
  }

  /** The two blobs as an invocation leaves them. */
  datatype PyBackup = PyBackup(failedParse: Option<seq<byte>>, failedSend: Option<string>)

  /** What one invocation writes, starting from unset blobs. A send-failure blob is only
      written after a complete delivery phase in which some request failed. */
  function PyOutcome(config: Config, events: seq<EventHubMessage>, serialized: Option<seq<string>>,
                     collector: nat -> Attempt): (backup: PyBackup)
    ensures backup.failedSend.Some? ==>
      && ReachesDelivery(config, serialized)
      && backup.failedParse == None
      && exists i :: 0 <= i < |Batches(serialized.value, SplunkBatchMaxSizeBytes)| && PyPushFails(collector(i))
  {
    if !ReachesDelivery(config, serialized) then PyBackup(Some(Join(Bodies(events), Newline)), None)
    else
      var payloads := Batches(serialized.value, SplunkBatchMaxSizeBytes);
      var failures := PyFailures(collector, |payloads|);
      SelectEmptyIff(payloads, failures);
      PyBackup(None, SendBlob(Select(payloads, failures)))
  }

  /** `main`. `serialized` is the result of mapping and serializing the events (None when
      `to_splunk_events` or `json.dumps` raises, including a `get_source` failure), and
      `collector(i)` the answer to the request for payload `i`. */
  method HandleEvents(events: seq<EventHubMessage>, failedParseEventsOutputBlob: OutputBlob<byte>,
                      failedSendEventsOutputBlob: OutputBlob<char>, config: Config,
                      serialized: Option<seq<string>>, collector: nat -> Attempt)
    modifies failedParseEventsOutputBlob, failedSendEventsOutputBlob
    ensures !ReachesDelivery(config, serialized) ==>
      && failedParseEventsOutputBlob.value == Some(Join(Bodies(events), Newline))
      && failedSendEventsOutputBlob.value == old(failedSendEventsOutputBlob.value)
    ensures ReachesDelivery(config, serialized) ==>
      var payloads := Batches(serialized.value, SplunkBatchMaxSizeBytes);
      var failed := Select(payloads, PyFailures(collector, |payloads|));
      && failedParseEventsOutputBlob.value == old(failedParseEventsOutputBlob.value)
      && failedSendEventsOutputBlob.value == if failed == [] then old(failedSendEventsOutputBlob.value) else SendBlob(failed)
    ensures old(failedParseEventsOutputBlob.value) == None && old(failedSendEventsOutputBlob.value) == None ==>
      PyBackup(failedParseEventsOutputBlob.value, failedSendEventsOutputBlob.value)
        == PyOutcome(config, events, serialized, collector)
  {
    if !ReachesDelivery(config, serialized) {
      HandlePrepushException(events, failedParseEventsOutputBlob);
      return;
    }
    var payloads := BatchEvents(serialized.value);
    var failedPayloads := PushPayloads(payloads, collector);
    HandlePushExceptions(failedPayloads, failedSendEventsOutputBlob);
  }

  // ---------------------------------------------------------------------------
  // Properties of an invocation

  /** The backups are exclusive; the raw backup is written exactly on a pre-push error. */
  lemma PyBackupsExclusive(config: Config, events: seq<EventHubMessage>, serialized: Option<seq<string>>,
                           collector: nat -> Attempt)
    ensures var b := PyOutcome(config, events, serialized, collector);
      && !(b.failedParse.Some? && b.failedSend.Some?)
      && (b.failedParse.Some? <==> !ReachesDelivery(config, serialized))
  {
  }

  /** After the delivery phase the send blob is written exactly when some payload failed,
      and it reads back as the failed payloads in order. */
  lemma PySendFailuresAreTheFailedPayloads(config: Config, events: seq<EventHubMessage>,
                                           serialized: seq<string>, collector: nat -> Attempt)
    requires ReachesDelivery(config, Some(serialized))
    requires forall k :: 0 <= k < |serialized| ==> '\n' !in serialized[k]
    ensures var payloads := Batches(serialized, SplunkBatchMaxSizeBytes);
      var b := PyOutcome(config, events, Some(serialized), collector);
      && b.failedParse == None
      && (b.failedSend == None <==> forall i :: 0 <= i < |payloads| ==> !PyPushFails(collector(i)))
      && (b.failedSend.Some? ==> Split(b.failedSend.value, '\n') == Select(payloads, PyFailures(collector, |payloads|)))
  {
    var payloads := Batches(serialized, SplunkBatchMaxSizeBytes);
    var failures := PyFailures(collector, |payloads|);
    SelectEmptyIff(payloads, failures);
    HecFunction.NoNewlineInPayloads(serialized, SplunkBatchMaxSizeBytes);
    var failed := Select(payloads, failures);
    SelectAtPositions(payloads, failures);
    forall j | 0 <= j < |failed| ensures '\n' !in failed[j] {
      assert failed[j] == payloads[Positions(failures)[j]];
    }
    SendBlobRoundTrip(failed);
  }

  /** Without a batch-size setting both versions build the same payloads from the same events. */
  lemma SamePayloadsByDefault(config: Config, serialized: seq<string>)
    requires config.batchMaxSizeBytes.None?
    ensures HecFunction.HecPayloads(config, serialized) == Batches(serialized, SplunkBatchMaxSizeBytes)
  {
  }
}
