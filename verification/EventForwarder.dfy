/** The forwarder: batching, retry, and draining the durable queue. */
module EventForwarder {
  import opened Values
  import opened ForwardedEvents
  import opened DurableQueue

  const BATCH_SIZE := 10

  /** 2xx, 4xx, or anything else including a network error. */
  datatype Response = Accepted | Rejected | Unavailable

  datatype Outcome = Delivered | ClientError | RetryLater

  /** The first answer that is not a reason to retry decides; after `attempts` failures the batch waits. */
  function OutcomeOf(respond: nat -> Response, attempts: nat): Outcome {
    if attempts == 0 then RetryLater
    else
      var before := OutcomeOf(respond, attempts - 1);
      if !before.RetryLater? then before
      else match respond(attempts - 1)
        case Accepted => Delivered
        case Rejected => ClientError
        case Unavailable => RetryLater
  }

  /** A batch waits exactly when every attempt failed; otherwise the first answer that came through decides. */
  lemma {:induction false} FirstAnswerDecides(respond: nat -> Response, attempts: nat)
    ensures OutcomeOf(respond, attempts).RetryLater? <==> forall a :: 0 <= a < attempts ==> respond(a).Unavailable?
    ensures !OutcomeOf(respond, attempts).RetryLater? ==>
              exists a :: 0 <= a < attempts
                          && respond(a) == (if OutcomeOf(respond, attempts).Delivered? then Accepted else Rejected)
                          && forall b :: 0 <= b < a ==> respond(b).Unavailable?
  {
    if attempts > 0 { FirstAnswerDecides(respond, attempts - 1); }
  }

  method PostEventsWithRetry(respond: nat -> Response, delays: nat) returns (outcome: Outcome)
    ensures outcome == OutcomeOf(respond, delays + 1)
  {
    for attempt := 0 to delays + 1
      invariant OutcomeOf(respond, attempt).RetryLater?
    {
      var response := respond(attempt);
      if response.Accepted? {
        OutcomeIsFinal(respond, attempt + 1, delays + 1);
        return Delivered;
      }
      if response.Rejected? {
        OutcomeIsFinal(respond, attempt + 1, delays + 1);
        return ClientError;
      }
    }
    outcome := RetryLater;
  }

  lemma {:induction false} OutcomeIsFinal(respond: nat -> Response, some: nat, all: nat)
    requires some <= all && !OutcomeOf(respond, some).RetryLater?
    ensures OutcomeOf(respond, all) == OutcomeOf(respond, some)
    decreases all
  {
    if some < all { OutcomeIsFinal(respond, some, all - 1); }
  }

  /** What the endpoint answers to the a-th attempt at the i-th pending batch. */
  type Network = (nat, nat) -> Response

  function Attempts(network: Network, i: nat): nat -> Response {
    (a: nat) => network(i, a)
  }

  function BatchOutcome(network: Network, delays: nat, i: nat): Outcome {
    OutcomeOf(Attempts(network, i), delays + 1)
  }

  /** The first pending batch that has to wait, from the i-th on; n when none has to. */
  function FirstStuck(network: Network, delays: nat, i: nat, n: nat): (k: nat)
    requires i <= n
    ensures i <= k <= n && (k < n ==> BatchOutcome(network, delays, k).RetryLater?)
    ensures forall j :: i <= j < k ==> !BatchOutcome(network, delays, j).RetryLater?
    decreases n - i
  {
    if i == n || BatchOutcome(network, delays, i).RetryLater? then i else FirstStuck(network, delays, i + 1, n)
  }

  /** Post the pending batches in order, up to the first that has to wait. */
  method PostInOrder(pending: seq<Batch>, network: Network, delays: nat) returns (firstFailedIdx: int)
    ensures firstFailedIdx == -1 <==> FirstStuck(network, delays, 0, |pending|) == |pending|
    ensures firstFailedIdx != -1 ==> firstFailedIdx == FirstStuck(network, delays, 0, |pending|)
  {
    for i := 0 to |pending|
      invariant FirstStuck(network, delays, 0, |pending|) == FirstStuck(network, delays, i, |pending|)
    {
      var result := PostEventsWithRetry(Attempts(network, i), delays);
      if result == RetryLater { return i; }
    }
    firstFailedIdx := -1;
  }

  /** Post what is pending; keep the first batch that has to wait and everything after it. */
  method DrainQueue(queue: EventQueue, network: Network, delays: nat) returns (resolved: seq<Batch>)
    requires Faithful(queue.codec)
    modifies queue
    ensures var pending := old(queue.Contents());
            var k := FirstStuck(network, delays, 0, |pending|);
            resolved == pending[..k] && queue.Contents() == pending[k..]
    ensures old(queue.Contents()) == [] ==> queue.file == old(queue.file)
    ensures old(queue.Contents()) != [] || Whole(old(queue.FileText())) ==> Whole(queue.FileText())
  {
    var pending := queue.PeekAll();
    if |pending| == 0 { return []; }
    var firstFailedIdx := PostInOrder(pending, network, delays);
    if firstFailedIdx == -1 {
      resolved := pending;
      queue.Clear();
    } else {
      resolved := pending[..firstFailedIdx];
      queue.Retain(pending[firstFailedIdx..]);
    }
  }

  /** An empty batch is never written to the queue. */
  function AsBatch(events: Batch): seq<Batch> {
    if events == [] then [] else [events]
  }

  /** The queue file's text once the batch is on disk. */
  function Persisted(codec: Codec, text: string, batch: Batch): string {
    if batch == [] then text else text + (codec.encode(batch) + "\n")
  }

  /** On a file of finished lines this adds the batch; `AppendToUnfinishedLine` says what it does on any other. */
  lemma PersistedAddsTheBatch(codec: Codec, text: string, batch: Batch)
    requires Faithful(codec) && Whole(text)
    ensures Whole(Persisted(codec, text, batch)) && Peek(codec, Persisted(codec, text, batch)) == Peek(codec, text) + AsBatch(batch)
  {
    hide Peek, Whole;
    if batch != [] { AppendAddsTheBatch(codec, text, batch); }
  }

  /** Every batch goes to disk before it is sent. */
  method PersistAndDrain(queue: EventQueue, toSend: Batch, network: Network, delays: nat) returns (resolved: seq<Batch>)
    requires Faithful(queue.codec)
    modifies queue
    ensures var pending := Peek(queue.codec, Persisted(queue.codec, old(queue.FileText()), toSend));
            resolved + queue.Contents() == pending && |resolved| == FirstStuck(network, delays, 0, |pending|)
    ensures Whole(Persisted(queue.codec, old(queue.FileText()), toSend)) ==> Whole(queue.FileText())
  {
    hide Peek, Whole, FirstStuck;
    if |toSend| > 0 {
      queue.Enqueue(toSend);
    }
    ghost var pending := queue.Contents();
    assert queue.FileText() == Persisted(queue.codec, old(queue.FileText()), toSend);
    resolved := DrainQueue(queue, network, delays);
    TakeAndDrop(pending, |resolved|);
  }

  lemma TakeAndDrop(pending: seq<Batch>, k: nat)
    requires k <= |pending|
    ensures pending[..k] + pending[k..] == pending
  {
  }

  class LaravelForwarder {
    const queue: EventQueue?
    const delays: nat
    var batch: Batch
    var flushTimer: bool
    var seenForwardedMessageIds: set<string>

    constructor (queue: EventQueue?, delays: nat)
      ensures this.queue == queue && this.delays == delays
      ensures batch == [] && !flushTimer && seenForwardedMessageIds == {} && Valid()
    {
      this.queue, this.delays := queue, delays;
      batch, flushTimer, seenForwardedMessageIds := [], false, {};
    }

    /** No event waits in memory without a timer that will flush it, and never a full batch of ten. */
    ghost predicate Valid()
      reads this
    {
      |batch| < 10 && (batch != [] <==> flushTimer)
    }

    method DedupUsageByMessageId(entry: Entry) returns (deduped: Entry)
      modifies this`seenForwardedMessageIds
      ensures deduped == Dedup(old(seenForwardedMessageIds), entry)
      ensures seenForwardedMessageIds == SeenAfter(old(seenForwardedMessageIds), entry)
    {
      deduped := entry;
      if !entry.AssistantEntry? || entry.usage == Undefined { return; }
      if !Truthy(entry.messageId) { return; }
      if entry.messageId.value in seenForwardedMessageIds {
        return entry.(usage := Undefined);
      }
      seenForwardedMessageIds := seenForwardedMessageIds + {entry.messageId.value};
    }

    /** Persist the batch, then drain; without a queue, send it once and forget it. */
    method DrainAndSend(network: Network) returns (resolved: seq<Batch>)
      requires queue != null ==> Faithful(queue.codec)
      modifies this`batch, this`flushTimer, queue
      ensures Valid() && batch == [] && !flushTimer
      ensures queue == null ==> resolved == if BatchOutcome(network, delays, 0).RetryLater? then [] else AsBatch(old(batch))
      ensures queue != null ==>
                var pending := Peek(queue.codec, Persisted(queue.codec, old(queue.FileText()), old(batch)));
                resolved + queue.Contents() == pending && |resolved| == FirstStuck(network, delays, 0, |pending|)
      ensures queue != null && Whole(old(queue.FileText())) ==>
                && Whole(queue.FileText())
                && resolved + queue.Contents() == old(queue.Contents()) + AsBatch(old(batch))
    {
      hide Peek, Whole, FirstStuck;
      flushTimer := false;
      var toSend := batch;
      batch := [];
      if queue != null {
        if Whole(queue.FileText()) { PersistedAddsTheBatch(queue.codec, queue.FileText(), toSend); }
        resolved := PersistAndDrain(queue, toSend, network, delays);
        return;
      }
      if |toSend| == 0 { return []; }
      var result := PostEventsWithRetry(Attempts(network, 0), delays);
      resolved := if result.RetryLater? then [] else [toSend];
    }

    /** Hold events back until there are ten of them; a full batch is drained at once. */
    method Hold(events: seq<Event>, network: Network) returns (resolved: seq<Batch>)
      requires Valid() && (queue != null ==> Faithful(queue.codec))
      modifies this`batch, this`flushTimer, queue
      ensures Valid()
      ensures |old(batch) + events| < 10 ==> batch == old(batch) + events && resolved == []
      ensures |old(batch) + events| < 10 && queue != null ==> queue.file == old(queue.file)
      ensures |old(batch) + events| >= 10 ==> batch == []
      ensures |old(batch) + events| >= 10 && queue != null ==>
                resolved + queue.Contents() == Peek(queue.codec, Persisted(queue.codec, old(queue.FileText()), old(batch) + events))
      ensures |old(batch) + events| >= 10 && queue != null && Whole(old(queue.FileText())) ==>
                && Whole(queue.FileText())
                && resolved + queue.Contents() == old(queue.Contents()) + [old(batch) + events]
    {
      hide Peek, Whole, FirstStuck;
      resolved := [];
      if |events| == 0 {
        assert batch + events == batch;
        return;
      }
      batch := batch + events;
      if |batch| >= BATCH_SIZE {
        resolved := DrainAndSend(network);
      } else {
        flushTimer := true;
      }
    }

    /** Take in one entry: its events, with a usage forwarded before taken out, join the batch. */
    method Consume(entry: Entry, network: Network) returns (resolved: seq<Batch>)
      requires Valid() && (queue != null ==> Faithful(queue.codec))
      modifies this, queue
      ensures Valid()
      ensures seenForwardedMessageIds == SeenAfter(old(seenForwardedMessageIds), entry)
      ensures var held := old(batch) + MapEntry(Dedup(old(seenForwardedMessageIds), entry));
              && batch == (if |held| < 10 then held else [])
              && (queue != null && |held| < 10 ==> queue.file == old(queue.file) && resolved == [])
              && (queue != null && |held| >= 10 ==>
                    resolved + queue.Contents() == Peek(queue.codec, Persisted(queue.codec, old(queue.FileText()), held)))
              && (queue != null && Whole(old(queue.FileText())) ==>
                    && Whole(queue.FileText())
                    && resolved + queue.Contents() == old(queue.Contents()) + (if |held| < 10 then [] else [held]))
    {
      hide Peek, Whole, FirstStuck;
      var deduped := DedupUsageByMessageId(entry);
      resolved := Hold(MapEntry(deduped), network);
    }
  }
}
