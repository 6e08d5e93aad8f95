/** The TypeScript function (index.ts): settings lookups, the source string, and the
    invocation driver. One invocation builds the payloads, reads the HEC settings,
    computes the request timeout, creates the client and then pushes the payloads one
    after another; the payloads whose push failed go, newline-joined, to the
    send-failure blob. Any error before the first push instead stores the message array
    the function was given in the parse-failure blob. */
module HecFunction {
  import opened Wrappers
  import opened Sequences
  import opened Environment
  import opened Batching
  import opened Retry
  import opened Timeout
  import opened Reconcile

  const DefaultSplunkBatchMaxSizeBytes: int := 1000000

  /** The limit `buildHecPayloads` passes to the batcher: `batchSize || DEFAULT`, so an
      unset, unparsable or zero setting falls back to the default; any other number,
      negative ones included, is used as it is. */
  function BatchSize(setting: Option<int>): (size: int)
    ensures size != 0
    ensures setting.Some? && setting.value != 0 ==> size == setting.value
    ensures setting.None? || setting == Some(0) ==> size == DefaultSplunkBatchMaxSizeBytes
  {
    if setting.Some? && setting.value != 0 then setting.value else DefaultSplunkBatchMaxSizeBytes
  }

  datatype HecParams = HecParams(hecUrl: string, hecToken: string)

  datatype ConfigError = HecUrlUndefined | HecTokenUndefined

  /** `getHecParams`: both settings are required; the URL is checked first. */
  function GetHecParams(config: Config): (r: Result<HecParams, ConfigError>)
    ensures r.Success? <==> config.hecUrl.Some? && config.hecToken.Some?
    ensures r.Success? ==> r.value == HecParams(config.hecUrl.value, config.hecToken.value)
    ensures config.hecUrl.None? ==> r == Failure(HecUrlUndefined)
    ensures config.hecUrl.Some? && config.hecToken.None? ==> r == Failure(HecTokenUndefined)
  {
    if config.hecUrl.None? then Failure(HecUrlUndefined)
    else if config.hecToken.None? then Failure(HecTokenUndefined)
    else Success(HecParams(config.hecUrl.value, config.hecToken.value))
  }

  /** `getSource`: every missing part is replaced by a placeholder, so a source is always produced. */
  function GetSource(config: Config): (source: string)
    ensures source == Join(["azure",
                            config.region.GetOr("unknown-region"),
                            config.eventHubNamespace.GetOr("unknown-namespace"),
                            config.eventHubName.GetOr("unknown-eventhub")], ':')
  {
    FormatSource(config.region.GetOr("unknown-region"),
                 config.eventHubNamespace.GetOr("unknown-namespace"),
                 config.eventHubName.GetOr("unknown-eventhub"))
  }

  // ---------------------------------------------------------------------------
  // The invocation

  /** The output bindings of the function: the two backup blobs, unset until written. */
  class Bindings {
    var failedParseEventsOutputBlob: Option<seq<EventHubMessage>>
    var failedSendEventsOutputBlob: Option<string>

    constructor ()
      ensures failedParseEventsOutputBlob == None && failedSendEventsOutputBlob == None
    {
      failedParseEventsOutputBlob := None;
      failedSendEventsOutputBlob := None;
    }

    /** `handleGlobalError`: store the message array the function was given in the
        parse-failure blob. */
    method HandleGlobalError(eventHubMessages: seq<EventHubMessage>)
      modifies this
      ensures failedParseEventsOutputBlob == Some(eventHubMessages)
      ensures failedSendEventsOutputBlob == old(failedSendEventsOutputBlob)
    {
      failedParseEventsOutputBlob := Some(eventHubMessages);
    }

    /** `handlePushErrors`: nothing to do without failures; otherwise write them newline-joined. */
    method HandlePushErrors(failedPayloads: seq<string>)
      modifies this
      ensures failedSendEventsOutputBlob ==
        if failedPayloads == [] then old(failedSendEventsOutputBlob) else SendBlob(failedPayloads)
      ensures failedParseEventsOutputBlob == old(failedParseEventsOutputBlob)
    {
      if |failedPayloads| == 0 {
        return;
      }
      failedSendEventsOutputBlob := Some(Join(failedPayloads, '\n'));
    }
  }

  /** The answers the collector gives to the requests for payload `i`. */
  function AnswersFor(collector: (nat, nat) -> Attempt, i: nat): (answers: seq<Attempt>)
    ensures |answers| == MaxRetries + 1
  {
    seq(MaxRetries + 1, j requires 0 <= j => collector(i, j))
  }

  /** For each of `count` payloads, whether its push failed. */
  function Failures(collector: (nat, nat) -> Attempt, count: nat): (failed: seq<bool>)
    ensures |failed| == count
    ensures forall i :: 0 <= i < count ==> (failed[i] <==> Push(AnswersFor(collector, i)) != Delivered)
  {
    seq(count, i requires 0 <= i => Push(AnswersFor(collector, i)) != Delivered)
  }

  /** The delivery loop of the driver: push every payload in turn, with retries, and
      collect the payloads whose push failed, in their original order. */
  method PushPayloads(payloads: seq<string>, collector: (nat, nat) -> Attempt, exponentialDelay: nat -> real)
    returns (failedPayloads: seq<string>)
    ensures failedPayloads == Select(payloads, Failures(collector, |payloads|))
  {
    ghost var failures := Failures(collector, |payloads|);
    failedPayloads := [];
    for i := 0 to |payloads|
      invariant failedPayloads == Select(payloads[..i], failures[..i])
    {
      var requests, outcome, delays := PushToHec(AnswersFor(collector, i), exponentialDelay);
      if outcome != Delivered {
        failedPayloads := failedPayloads + [payloads[i]];
      }
      assert payloads[..i + 1][..i] == payloads[..i];
      assert failures[..i + 1][..i] == failures[..i];
    }
    assert payloads[..|payloads|] == payloads;
    assert failures[..|payloads|] == failures;
  }

  /** True when nothing goes wrong before the first push: the events map and serialize
      (`serialized` is present), both HEC settings are set, and the client is created. */
  predicate ReachesDelivery(config: Config, serialized: Option<seq<string>>, clientCreated: bool)
    ensures ReachesDelivery(config, serialized, clientCreated) <==>
      serialized.Some? && config.hecUrl.Some? && config.hecToken.Some? && clientCreated
  {
    serialized.Some? && GetHecParams(config).Success? && clientCreated
  }

  /** The payloads built from the serialized events, at the configured batch size. */
  function HecPayloads(config: Config, serialized: seq<string>): (payloads: seq<string>)
    ensures Flatten(payloads) == Flatten(serialized)
    ensures |payloads| == 0 <==> |serialized| == 0
  {
    BatchesPreserveContent(serialized, BatchSize(config.batchMaxSizeBytes));
    Batches(serialized, BatchSize(config.batchMaxSizeBytes))
  }

  /** The two blobs as an invocation leaves them. */
  datatype Backup = Backup(failedParse: Option<seq<EventHubMessage>>, failedSend: Option<string>)

  /** What one invocation writes, starting from unset bindings. A send-failure blob is
      only written after a complete delivery phase in which some payload failed. */
  function Outcome(config: Config, eventHubMessages: seq<EventHubMessage>, serialized: Option<seq<string>>,
                   clientCreated: bool, collector: (nat, nat) -> Attempt): (backup: Backup)
    ensures backup.failedSend.Some? ==>
      && ReachesDelivery(config, serialized, clientCreated)
      && backup.failedParse == None
      && exists i :: 0 <= i < |HecPayloads(config, serialized.value)| && Push(AnswersFor(collector, i)) != Delivered
  {
    if !ReachesDelivery(config, serialized, clientCreated) then Backup(Some(eventHubMessages), None)
    else
      var payloads := HecPayloads(config, serialized.value);
      var failures := Failures(collector, |payloads|);
      SelectEmptyIff(payloads, failures);
      Backup(None, SendBlob(Select(payloads, failures)))
  }

  /** `azureMonitorLogsProcessorFunc`. The parts the model leaves abstract are inputs:
      `serialized` is the result of mapping and serializing the messages (None when that
      throws), `clientCreated` whether creating the HTTP client succeeded, `timeToBuild`
      the measured build time, and `collector(i, j)` the answer to request `j` of payload `i`.
      Returns the request timeout when the delivery phase is reached. */
  method Invoke(bindings: Bindings, config: Config, eventHubMessages: seq<EventHubMessage>,
                serialized: Option<seq<string>>, clientCreated: bool, timeToBuild: real,
                collector: (nat, nat) -> Attempt, exponentialDelay: nat -> real)
    returns (timeout: Option<real>)
    modifies bindings
    ensures !ReachesDelivery(config, serialized, clientCreated) ==>
      && timeout == None
      && bindings.failedParseEventsOutputBlob == Some(eventHubMessages)
      && bindings.failedSendEventsOutputBlob == old(bindings.failedSendEventsOutputBlob)
    ensures ReachesDelivery(config, serialized, clientCreated) ==>
      var payloads := HecPayloads(config, serialized.value);
      var failed := Select(payloads, Failures(collector, |payloads|));
      && timeout == Some(RequestTimeout(timeToBuild, |payloads|))
      && bindings.failedParseEventsOutputBlob == old(bindings.failedParseEventsOutputBlob)
      && bindings.failedSendEventsOutputBlob ==
           if failed == [] then old(bindings.failedSendEventsOutputBlob) else SendBlob(failed)
    ensures old(bindings.failedParseEventsOutputBlob) == None && old(bindings.failedSendEventsOutputBlob) == None ==>
      Backup(bindings.failedParseEventsOutputBlob, bindings.failedSendEventsOutputBlob)
        == Outcome(config, eventHubMessages, serialized, clientCreated, collector)
  {
    if serialized.None? {
      bindings.HandleGlobalError(eventHubMessages);
      return None;
    }
    var payloads := BatchSerializedEvents(serialized.value, BatchSize(config.batchMaxSizeBytes));
    var hecParams := GetHecParams(config);
    if hecParams.Failure? {
      bindings.HandleGlobalError(eventHubMessages);
      return None;
    }
    var requestTimeout := RequestTimeout(timeToBuild, |payloads|);
    if !clientCreated {
      bindings.HandleGlobalError(eventHubMessages);
      return None;
    }
    timeout := Some(requestTimeout);
    var failedPayloads := PushPayloads(payloads, collector, exponentialDelay);
    bindings.HandlePushErrors(failedPayloads);
  }

  // ---------------------------------------------------------------------------
  // Properties of an invocation

  /** The two backups are exclusive: a pre-push error stores the message array and nothing
      else; otherwise the message array is never stored. */
  lemma BackupsExclusive(config: Config, eventHubMessages: seq<EventHubMessage>, serialized: Option<seq<string>>,
                         clientCreated: bool, collector: (nat, nat) -> Attempt)
    ensures var b := Outcome(config, eventHubMessages, serialized, clientCreated, collector);
      && !(b.failedParse.Some? && b.failedSend.Some?)
      && (b.failedParse.Some? <==> !ReachesDelivery(config, serialized, clientCreated))
      && (b.failedParse.Some? ==> b.failedParse.value == eventHubMessages)
  {
  }

  /** A missing HEC URL is a pre-push error, whatever else happens. */
  lemma MissingUrlBacksUpInput(config: Config, eventHubMessages: seq<EventHubMessage>, serialized: Option<seq<string>>,
                               clientCreated: bool, collector: (nat, nat) -> Attempt)
    requires config.hecUrl.None?
    ensures Outcome(config, eventHubMessages, serialized, clientCreated, collector)
            == Backup(Some(eventHubMessages), None)
  {
  }

  /** After a complete delivery phase, the send-failure blob is written exactly when some
      payload failed, and it reads back as the failed payloads in their original order. */
  lemma SendFailuresAreTheFailedPayloads(config: Config, eventHubMessages: seq<EventHubMessage>,
                                         serialized: seq<string>, collector: (nat, nat) -> Attempt)
    requires ReachesDelivery(config, Some(serialized), true)
    requires forall k :: 0 <= k < |serialized| ==> '\n' !in serialized[k]
    ensures var payloads := HecPayloads(config, serialized);
      var failures := Failures(collector, |payloads|);
      var b := Outcome(config, eventHubMessages, Some(serialized), true, collector);
      && b.failedParse == None
      && (b.failedSend == None <==> forall i :: 0 <= i < |payloads| ==> Push(AnswersFor(collector, i)) == Delivered)
      && (b.failedSend.Some? ==> Split(b.failedSend.value, '\n') == Select(payloads, failures))
  {
    var payloads := HecPayloads(config, serialized);
    var failures := Failures(collector, |payloads|);
    SelectEmptyIff(payloads, failures);
    NoNewlineInPayloads(serialized, BatchSize(config.batchMaxSizeBytes));
    var failed := Select(payloads, failures);
    SelectAtPositions(payloads, failures);
    forall j | 0 <= j < |failed| ensures '\n' !in failed[j] {
      assert failed[j] == payloads[Positions(failures)[j]];
    }
    SendBlobRoundTrip(failed);
  }

  /** Payloads built from newline-free events contain no newline. */
  lemma NoNewlineInPayloads(events: seq<string>, limit: int)
    requires forall k :: 0 <= k < |events| ==> '\n' !in events[k]
    ensures forall i :: 0 <= i < |Batches(events, limit)| ==> '\n' !in Batches(events, limit)[i]
  {
    if |events| > 0 {
      var gs := Groups(events, limit);
      forall i | 0 <= i < |gs| ensures '\n' !in Flatten(gs[i]) {
        forall j | 0 <= j < |gs[i]| ensures '\n' !in gs[i][j] {
          GroupsHoldEvents(events, limit, i, j);
        }
        FlattenAvoids(gs[i], '\n');
      }
    }
  }

  /** Two payloads of which only the second fails: the blob holds the second payload alone. */
  lemma SecondOfTwoFails(payloads: seq<string>, failures: seq<bool>)
    requires |payloads| == 2 && failures == [false, true]
    ensures SendBlob(Select(payloads, failures)) == Some(payloads[1])
  {
    assert payloads[..1][..0] == [];
    assert Select(payloads[..1], failures[..1]) == [];
    assert Select(payloads, failures) == [payloads[1]];
  }
}
