/** What one invocation receives from its surroundings: the settings that both versions
    read from the process environment, held as one immutable record, and the raw EventHub
    messages. Also the `source` string both versions stamp on every event. */
module Environment {
  import opened Wrappers
  import opened Sequences

  newtype byte = x: int | 0 <= x < 256

  /** One raw EventHub message; `body` is what `get_body()` returns. */
  datatype EventHubMessage = EventHubMessage(body: seq<byte>)

  /** The settings, each absent when the variable is unset. */
  datatype Config = Config(
    hecUrl: Option<string>,
    hecToken: Option<string>,
    /** `parseInt(SPLUNK_BATCH_MAX_SIZE_BYTES)`; None when unset or not a number. */
    batchMaxSizeBytes: Option<int>,
    region: Option<string>,
    /** The namespace captured from the `Endpoint=sb://<namespace>.servicebus.windows.net`
        part of `EventHubConnection`; None when unset or when the pattern does not match. */
    eventHubNamespace: Option<string>,
    eventHubName: Option<string>)

  /** `azure:<region>:<namespace>:<eventhub>`. */
  function FormatSource(region: string, namespace: string, eventHub: string): (source: string)
    ensures source == Join(["azure", region, namespace, eventHub], ':')
  {
    JoinOfFour("azure", region, namespace, eventHub);
    "azure:" + region + ":" + namespace + ":" + eventHub
  }

  lemma JoinOfFour(a: string, b: string, c: string, d: string)
    ensures Join([a, b, c, d], ':') == a + ":" + b + ":" + c + ":" + d
  {
    var cd := c + ":" + d;
    var bcd := b + ":" + cd;
    assert Join([c, d], ':') == cd by {
      assert Join([d], ':') == d;
      JoinCons(c, [d], ':');
      assert [c] + [d] == [c, d];
    }
    assert Join([b, c, d], ':') == bcd by {
      JoinCons(b, [c, d], ':');
      assert [b] + [c, d] == [b, c, d];
    }
    assert Join([a, b, c, d], ':') == a + ":" + bcd by {
      JoinCons(a, [b, c, d], ':');
      assert [a] + [b, c, d] == [a, b, c, d];
    }
  }

  /** The source string can be read back: its colon-separated fields are the constant
      "azure" and the three parts, provided no part contains a colon. */
  lemma SourceFields(region: string, namespace: string, eventHub: string)
    requires ':' !in region && ':' !in namespace && ':' !in eventHub
    ensures Split(FormatSource(region, namespace, eventHub), ':') == ["azure", region, namespace, eventHub]
  {
    var parts := ["azure", region, namespace, eventHub];
    forall i | 0 <= i < |parts| ensures ':' !in parts[i] {
      assert i == 0 ==> parts[i] == "azure";
    }
    SplitJoin(parts, ':');
  }
}
