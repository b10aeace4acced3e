/** Names of the broker's exchanges, queues and routing keys.

    Work requests go to per-service queues named after the service; results,
    events and status updates for one tale go to keys and queues that end in
    the tale id's N form. The web side listens with "prefix.*" filters, where
    `*` stands for exactly one dot-free word. */
module Topology {
  import opened Text
  import opened Guids
  import opened Services

  const WorkExchange: string := "work"
  const EventExchange: string := "events"

  const CommandResultQueue: string := "command-result"
  const EventsQueue: string := "events"
  const StatusUpdateQueue: string := "status"

  const CancelWorkRoutingKey: string := "cancel-work"

  /** A string with no upper-case ASCII letter. */
  predicate NoUpper(s: string) {
    forall i :: 0 <= i < |s| ==> !('A' <= s[i] <= 'Z')
  }

  lemma LowerIdentity(s: string)
    requires NoUpper(s)
    ensures Lower(s) == s
  {
  }

  /** `WorkQueue(svc)`: "work-" and the lower-cased service name. */
  function WorkQueue(svc: ServiceId): (q: string)
    ensures StartsWith(q, "work-") && NoUpper(q)
  {
    "work-" + Lower(ServiceName(svc))
  }

  /** `WorkRoutingKey(svc)`: built exactly like the queue name, so a request routed
      with it lands in that service's work queue. */
  function WorkRoutingKey(svc: ServiceId): (k: string)
    ensures k == WorkQueue(svc)
  {
    "work-" + Lower(ServiceName(svc))
  }

  /** Different services have different work queues. */
  lemma WorkQueueInjective(a: ServiceId, b: ServiceId)
    ensures WorkQueue(a) == WorkQueue(b) ==> a == b
  {
    if WorkQueue(a) == WorkQueue(b) {
      var na, nb := ServiceName(a), ServiceName(b);
      assert Lower(na) == WorkQueue(a)[5..] && Lower(nb) == WorkQueue(b)[5..];
      assert |na| == |nb| && LowerChar(na[0]) == LowerChar(nb[0]);
      ServiceNameShape(a, b);
    }
  }

  /** The services' names differ in length or in their first letter, whatever its case. */
  lemma ServiceNameShape(a: ServiceId, b: ServiceId)
    requires |ServiceName(a)| == |ServiceName(b)| && LowerChar(ServiceName(a)[0]) == LowerChar(ServiceName(b)[0])
    ensures a == b
  {
  }

  // --------------------------------------------------------- tale-specific

  /** The four per-tale routing-key families. */
  datatype TaleChannel = ProcessCommandResult | ExecuteCommandResult | Event | StatusUpdate

  function ChannelPrefix(c: TaleChannel): (p: string)
    ensures NoUpper(p) && !Contains(p, '.')
  {
    match c
    case ProcessCommandResult => "commandprocess-result"
    case ExecuteCommandResult => "commandexecute-result"
    case Event => "event"
    case StatusUpdate => "status-update"
  }

  /** The per-tale routing keys: the family prefix, '.', and the tale id's N form, lower-cased. */
  function TaleRoutingKey(c: TaleChannel, taleId: Guid): (k: string)
    ensures k == ChannelPrefix(c) + "." + N(taleId)
  {
    var raw := ChannelPrefix(c) + "." + N(taleId);
    NShape(taleId);
    assert NoUpper(raw) by {
      forall i | 0 <= i < |raw| ensures !('A' <= raw[i] <= 'Z') {
        if i > |ChannelPrefix(c)| {
          assert raw[i] == N(taleId)[i - |ChannelPrefix(c)| - 1];
        }
      }
    }
    LowerIdentity(raw);
    Lower(raw)
  }

  /** The web side's filter for a family: "prefix.*". */
  function RoutingKeyFilter(c: TaleChannel): string {
    ChannelPrefix(c) + ".*"
  }

  /** Topic matching for a filter that ends in ".*": the key is the filter's
      prefix, a '.', and one word without dots. */
  predicate MatchesFilter(filter: string, key: string)
    requires |filter| >= 2 && filter[|filter| - 2..] == ".*"
  {
    var prefix := filter[..|filter| - 1];
    StartsWith(key, prefix) && !Contains(key[|prefix|..], '.')
  }

  /** Every per-tale key matches its family's filter, because the N form has no dot. */
  lemma TaleKeyMatchesFilter(c: TaleChannel, taleId: Guid)
    ensures MatchesFilter(RoutingKeyFilter(c), TaleRoutingKey(c, taleId))
  {
    var f := RoutingKeyFilter(c);
    var k := TaleRoutingKey(c, taleId);
    var p := ChannelPrefix(c) + ".";
    assert f[..|f| - 1] == p;
    assert k[..|p|] == p;
    assert k[|p|..] == N(taleId);
    NShape(taleId);
  }

  /** A key of one family never matches another family's filter. */
  lemma FamiliesDoNotOverlap(c: TaleChannel, d: TaleChannel, taleId: Guid)
    requires c != d
    ensures !MatchesFilter(RoutingKeyFilter(d), TaleRoutingKey(c, taleId))
  {
    var k := TaleRoutingKey(c, taleId);
    var pc := ChannelPrefix(c) + ".";
    var pd := ChannelPrefix(d) + ".";
    assert RoutingKeyFilter(d)[..|RoutingKeyFilter(d)| - 1] == pd;
    assert k[..|pc|] == pc;
    // the prefixes differ at index 0, or (the two "command..." ones) at index 7
    assert k[0] == pc[0];
    if |pc| > 7 {
      assert k[7] == pc[7];
    }
  }

  /** Different tales get different keys in the same family. */
  lemma TaleRoutingKeyInjective(c: TaleChannel, a: Guid, b: Guid)
    ensures TaleRoutingKey(c, a) == TaleRoutingKey(c, b) ==> a == b
  {
    var n := |ChannelPrefix(c)| + 1;
    assert TaleRoutingKey(c, a)[n..] == N(a);
    assert TaleRoutingKey(c, b)[n..] == N(b);
    NInjective(a, b);
  }

  /** The per-tale queues for the desktop client. */
  datatype TaleQueue = CommandResultTaleQueue | EventsTaleQueue | StatusUpdateTaleQueue

  function QueueBase(q: TaleQueue): (b: string)
    ensures NoUpper(b)
  {
    match q
    case CommandResultTaleQueue => CommandResultQueue
    case EventsTaleQueue => EventsQueue
    case StatusUpdateTaleQueue => StatusUpdateQueue
  }

  /** The per-tale queue names use the same id format as the per-tale keys. */
  function TaleQueueName(q: TaleQueue, taleId: Guid): (name: string)
    ensures name == QueueBase(q) + "." + N(taleId)
  {
    var raw := QueueBase(q) + "." + N(taleId);
    NShape(taleId);
    assert NoUpper(raw) by {
      forall i | 0 <= i < |raw| ensures !('A' <= raw[i] <= 'Z') {
        if i > |QueueBase(q)| {
          assert raw[i] == N(taleId)[i - |QueueBase(q)| - 1];
        }
      }
    }
    LowerIdentity(raw);
    Lower(raw)
  }
}
