/** The server-sent-event hub: at most one registered emitter per job id,
    each open or already closed (successfully or with an error) until a
    removal drops its key; the emitters no longer registered, which their
    callbacks still hold; and the log of every signal delivered to an
    emitter. Transport failure of a send is an input: `None` when the event
    goes through, or the I/O error the emitter raised. The callbacks are
    separate operations, run by whoever models the container. */
module SseNotification {
  import opened Wrappers
  import opened Jobs

  /** An emitter's idle timeout: five minutes, in milliseconds. */
  const EmitterTimeoutMillis: nat := 5 * 60 * 1000

  /** What an emitter is doing. */
  datatype ChannelState = Open | Closed | ClosedWithError(cause: Exception)

  /** One `SseEmitter`: its serial number, in the order the hub made
      emitters, and what it is doing. */
  datatype Emitter = Emitter(serial: nat, state: ChannelState)

  /** What a subscriber sees on its emitter, in order. */
  datatype Signal =
    | Sent(emitter: nat, jobId: string, name: string, data: Job)
    | CompletedSignal(emitter: nat, jobId: string)
    | ErroredSignal(emitter: nat, jobId: string, cause: Exception)

  /** `channels` is the `emitters` map: the emitter registered for each job
      id. An emitter leaves the map when a removal drops its key or a later
      subscription to the same job replaces it, but the callbacks it
      registered still hold it, so `dropped` keeps the state of every such
      emitter. `created` counts the emitters made so far. */
  datatype Hub = Hub(channels: map<string, Emitter>, dropped: map<nat, ChannelState>, created: nat, log: seq<Signal>)

  const EmptyHub: Hub := Hub(map[], map[], 0, [])

  /** Every emitter the hub knows was made by it, and each is registered
      under one job or dropped, never both. */
  predicate Valid(h: Hub) {
    && (forall id :: id in h.channels ==> h.channels[id].serial < h.created && h.channels[id].serial !in h.dropped)
    && (forall e :: e in h.dropped ==> e < h.created)
    && (forall a, b :: a in h.channels && b in h.channels && a != b ==> h.channels[a].serial != h.channels[b].serial)
  }

  /** The message of the error a subscriber to an already failed job gets. */
  const NoFailureMessage: string := "Job failed with no specific message"

  /** The result carried by the synthetic event sent for an unknown job. */
  const AwaitingMessage: string := "Awaiting job processing..."

  /** `emitters.remove(jobId)`: the key goes, whichever emitter it held; that
      emitter keeps its state among the dropped ones. */
  function Unmap(h: Hub, jobId: string): (r: Hub)
    ensures jobId !in r.channels
    ensures forall id :: id != jobId ==> (id in r.channels <==> id in h.channels)
    ensures forall id :: id != jobId && id in h.channels ==> r.channels[id] == h.channels[id]
    ensures jobId in h.channels ==> r.dropped == h.dropped[h.channels[jobId].serial := h.channels[jobId].state]
    ensures jobId !in h.channels ==> r.dropped == h.dropped
    ensures r.created == h.created && r.log == h.log
  {
    if jobId in h.channels
    then Hub(h.channels - {jobId}, h.dropped[h.channels[jobId].serial := h.channels[jobId].state], h.created, h.log)
    else h
  }

  /** `determineEventNameFromStatus`. */
  function EventName(status: JobStatus): (name: string)
    ensures name == "pending" <==> status == Pending
    ensures name == "progress" <==> status == Processing
    ensures name == "complete" <==> status == Completed
    ensures name == "error" <==> status == Failed
    ensures name == "statusUpdate" <==> status !in {Pending, Processing, Completed, Failed}
  {
    match status
    case Pending => "pending"
    case Processing => "progress"
    case Completed => "complete"
    case Failed => "error"
    case _ => "statusUpdate"
  }

  /** `sendEvent`. With no emitter registered for the job nothing happens.
      An open emitter gets the event, or, when the transport fails, the key
      is removed and the emitter closed with that I/O error. An emitter that
      is closed but still registered receives nothing. */
  function SendEvent(h: Hub, jobId: string, name: string, data: Job, failure: Option<Exception>): (r: Hub)
    ensures jobId !in h.channels ==> r == h
    ensures jobId in h.channels && h.channels[jobId].state == Open && failure.None? ==>
      r == h.(log := h.log + [Sent(h.channels[jobId].serial, jobId, name, data)])
    ensures jobId in h.channels && h.channels[jobId].state == Open && failure.Some? ==>
      && jobId !in r.channels
      && r.dropped == h.dropped[h.channels[jobId].serial := ClosedWithError(failure.value)]
      && r.log == h.log + [ErroredSignal(h.channels[jobId].serial, jobId, failure.value)]
    ensures forall id :: id != jobId ==> (id in r.channels <==> id in h.channels)
    ensures forall id :: id != jobId && id in h.channels ==> r.channels[id] == h.channels[id]
    ensures r.created == h.created && h.log <= r.log
  {
    if jobId !in h.channels || h.channels[jobId].state != Open then h
    else
      var e := h.channels[jobId];
      if failure.None? then h.(log := h.log + [Sent(e.serial, jobId, name, data)])
      else
        var removed := Unmap(h, jobId);
        removed.(dropped := removed.dropped[e.serial := ClosedWithError(failure.value)],
                 log := removed.log + [ErroredSignal(e.serial, jobId, failure.value)])
  }

  /** `completeStream`: completes the registered emitter, if any. Completing
      an emitter that already finished has no effect. */
  function CompleteStream(h: Hub, jobId: string): (r: Hub)
    ensures jobId in h.channels && h.channels[jobId].state == Open ==>
      var e := h.channels[jobId];
      r == h.(channels := h.channels[jobId := Emitter(e.serial, Closed)], log := h.log + [CompletedSignal(e.serial, jobId)])
    ensures !(jobId in h.channels && h.channels[jobId].state == Open) ==> r == h
    ensures jobId in r.channels ==> r.channels[jobId].state != Open
  {
    if jobId in h.channels && h.channels[jobId].state == Open then
      var e := h.channels[jobId];
      h.(channels := h.channels[jobId := Emitter(e.serial, Closed)], log := h.log + [CompletedSignal(e.serial, jobId)])
    else h
  }

  /** `errorStream`: completes the registered emitter, if any, with `cause`. */
  function ErrorStream(h: Hub, jobId: string, cause: Exception): (r: Hub)
    ensures jobId in h.channels && h.channels[jobId].state == Open ==>
      var e := h.channels[jobId];
      r == h.(channels := h.channels[jobId := Emitter(e.serial, ClosedWithError(cause))],
              log := h.log + [ErroredSignal(e.serial, jobId, cause)])
    ensures !(jobId in h.channels && h.channels[jobId].state == Open) ==> r == h
    ensures jobId in r.channels ==> r.channels[jobId].state != Open
  {
    if jobId in h.channels && h.channels[jobId].state == Open then
      var e := h.channels[jobId];
      h.(channels := h.channels[jobId := Emitter(e.serial, ClosedWithError(cause))],
         log := h.log + [ErroredSignal(e.serial, jobId, cause)])
    else h
  }

  /** The `onCompletion` and `onError` callbacks: they remove the job's key,
      whichever emitter it holds by then. */
  function OnCompletion(h: Hub, jobId: string): (r: Hub)
    ensures jobId !in r.channels
    ensures r.log == h.log
    ensures forall id :: id != jobId ==> (id in r.channels <==> id in h.channels)
  {
    Unmap(h, jobId)
  }

  /** The state of the emitter a callback captured: the registered one's
      when the job's key still holds it, otherwise the state it was dropped
      with. */
  function CapturedState(h: Hub, jobId: string, serial: nat): (r: Option<ChannelState>)
    ensures jobId in h.channels && h.channels[jobId].serial == serial ==> r == Some(h.channels[jobId].state)
    ensures !(jobId in h.channels && h.channels[jobId].serial == serial) ==>
      (r.Some? <==> serial in h.dropped) && (r.Some? ==> r.value == h.dropped[serial])
  {
    if jobId in h.channels && h.channels[jobId].serial == serial then Some(h.channels[jobId].state)
    else if serial in h.dropped then Some(h.dropped[serial])
    else None
  }

  /** The `onTimeout` callback of emitter `serial`, run once
      `EmitterTimeoutMillis` pass idle: remove the job's key, whichever
      emitter it holds by then, and complete the emitter the callback
      captured. */
  function OnTimeout(h: Hub, jobId: string, serial: nat): (r: Hub)
    ensures jobId !in r.channels
    ensures forall id :: id != jobId ==> (id in r.channels <==> id in h.channels)
    ensures CapturedState(h, jobId, serial) == Some(Open) ==>
      r.log == h.log + [CompletedSignal(serial, jobId)] && serial in r.dropped && r.dropped[serial] == Closed
    ensures CapturedState(h, jobId, serial) != Some(Open) ==> r.log == h.log
    ensures jobId in h.channels && h.channels[jobId].serial != serial ==>
      var current := h.channels[jobId];
      current.serial in r.dropped && r.dropped[current.serial] == current.state
  {
    var captured := CapturedState(h, jobId, serial);
    var removed := Unmap(h, jobId);
    if captured == Some(Open)
    then removed.(dropped := removed.dropped[serial := Closed], log := removed.log + [CompletedSignal(serial, jobId)])
    else removed
  }

  /** `emitters.put(jobId, new SseEmitter(...))`: emitter number `created`
      takes the job's key; an emitter it replaces keeps its state among the
      dropped ones. */
  function Register(h: Hub, jobId: string): (r: Hub)
    ensures jobId in r.channels && r.channels[jobId] == Emitter(h.created, Open)
    ensures forall id :: id != jobId ==> (id in r.channels <==> id in h.channels)
    ensures forall id :: id != jobId && id in h.channels ==> r.channels[id] == h.channels[id]
    ensures r.dropped == Unmap(h, jobId).dropped
    ensures r.created == h.created + 1 && r.log == h.log
  {
    var previous := Unmap(h, jobId);
    previous.(channels := previous.channels[jobId := Emitter(h.created, Open)], created := h.created + 1)
  }

  /** Registering keeps the hub well formed. */
  lemma RegisterKeepsValid(h: Hub, jobId: string)
    requires Valid(h)
    ensures Valid(Register(h, jobId))
  {
    UnmapKeepsValid(h, jobId);
    var r := Register(h, jobId);
    forall id | id in r.channels
      ensures r.channels[id].serial < r.created && r.channels[id].serial !in r.dropped
    {
      if id != jobId {
        assert r.channels[id] == Unmap(h, jobId).channels[id];
      }
    }
  }

  /** `subscribe`: makes emitter number `created`, registers it for the job
      in place of any earlier one (which is neither completed nor told),
      then replays the job's current record from `store` under its event
      name. A completed job's emitter is then completed; a failed job's is
      closed with an error carrying the stored result. An unknown job gets
      one synthetic pending event and stays open. */
  function Subscribe(h: Hub, store: Store, jobId: string, failure: Option<Exception>): (r: Hub)
    ensures forall id :: id != jobId ==> (id in r.channels <==> id in h.channels)
    ensures forall id :: id != jobId && id in h.channels ==> r.channels[id] == h.channels[id]
    ensures h.log <= r.log
    ensures r.created == h.created + 1
    ensures jobId in r.channels ==> r.channels[jobId].serial == h.created
  {
    var registered := Register(h, jobId);
    if jobId in store then
      var job := store[jobId];
      var sent := SendEvent(registered, jobId, EventName(job.status), job, failure);
      if job.status == Completed then CompleteStream(sent, jobId)
      else if job.status == Failed then ErrorStream(sent, jobId, Runtime(job.result.GetOr(NoFailureMessage)))
      else sent
    else
      SendEvent(registered, jobId, "pending", Job(jobId, Pending, Some(AwaitingMessage)), failure)
  }

  /** What a successful subscription delivers to the new emitter, by the
      job's current state: exactly one `complete` event then closure for a
      completed job; exactly one `error` event then an error closure for a
      failed one; one event under the mapped name with the emitter left
      open for a job in progress; one synthetic `pending` event for an
      unknown job. An emitter it replaces keeps its state and is told
      nothing. */
  lemma SubscribeReplay(h: Hub, store: Store, jobId: string)
    ensures var r := Subscribe(h, store, jobId, None);
      var e := h.created;
      && jobId in r.channels && r.channels[jobId].serial == e
      && (jobId in h.channels ==> r.dropped == h.dropped[h.channels[jobId].serial := h.channels[jobId].state])
      && (jobId !in h.channels ==> r.dropped == h.dropped)
      && (jobId in store && store[jobId].status == Completed ==>
            && r.log == h.log + [Sent(e, jobId, "complete", store[jobId]), CompletedSignal(e, jobId)]
            && r.channels[jobId].state == Closed)
      && (jobId in store && store[jobId].status == Failed ==>
            var cause := Runtime(store[jobId].result.GetOr(NoFailureMessage));
            && r.log == h.log + [Sent(e, jobId, "error", store[jobId]), ErroredSignal(e, jobId, cause)]
            && r.channels[jobId].state == ClosedWithError(cause))
      && (jobId in store && !IsTerminal(store[jobId].status) ==>
            && r.log == h.log + [Sent(e, jobId, EventName(store[jobId].status), store[jobId])]
            && r.channels[jobId].state == Open)
      && (jobId !in store ==>
            && r.log == h.log + [Sent(e, jobId, "pending", Job(jobId, Pending, Some(AwaitingMessage)))]
            && r.channels[jobId].state == Open)
  {
  }

  /** When the replayed event cannot be delivered the key is gone and the
      new emitter sees only the transport error, whatever the job's state. */
  lemma SubscribeTransportFailure(h: Hub, store: Store, jobId: string, failure: Exception)
    ensures var r := Subscribe(h, store, jobId, Some(failure));
      && jobId !in r.channels
      && h.created in r.dropped && r.dropped[h.created] == ClosedWithError(failure)
      && r.log == h.log + [ErroredSignal(h.created, jobId, failure)]
  {
  }

  /** A client that reconnects replaces its job's emitter. When the replaced
      emitter then times out, its callback removes the job's key, which now
      holds the new emitter, and completes the old one. The new emitter is
      left open but unregistered, so no later event reaches it. */
  lemma StaleTimeoutOrphansCurrent(h: Hub, store: Store, jobId: string)
    requires jobId in store && !IsTerminal(store[jobId].status)
    ensures var first := Subscribe(h, store, jobId, None);
      var second := Subscribe(first, store, jobId, None);
      var r := OnTimeout(second, jobId, h.created);
      && jobId !in r.channels
      && r.log == second.log + [CompletedSignal(h.created, jobId)]
      && h.created + 1 in r.dropped && r.dropped[h.created + 1] == Open
      && forall name, data, failure :: SendEvent(r, jobId, name, data, failure) == r
  {
    var first := Subscribe(h, store, jobId, None);
    SubscribeReplay(h, store, jobId);
    SubscribeReplay(first, store, jobId);
  }

  /** The timeout of the emitter that is still registered frees the key and
      completes that emitter, once. */
  lemma CurrentTimeoutCompletes(h: Hub, jobId: string)
    requires jobId in h.channels && h.channels[jobId].state == Open
    ensures var r := OnTimeout(h, jobId, h.channels[jobId].serial);
      && jobId !in r.channels
      && r.log == h.log + [CompletedSignal(h.channels[jobId].serial, jobId)]
  {
  }

  /** Subscribing keeps the hub well formed: the new emitter's number is
      one no emitter had before. */
  lemma SubscribeKeepsValid(h: Hub, store: Store, jobId: string, failure: Option<Exception>)
    requires Valid(h)
    ensures Valid(Subscribe(h, store, jobId, failure))
  {
    var registered := Register(h, jobId);
    RegisterKeepsValid(h, jobId);
    if jobId in store {
      var job := store[jobId];
      var sent := SendEvent(registered, jobId, EventName(job.status), job, failure);
      SendEventKeepsValid(registered, jobId, EventName(job.status), job, failure);
      CloseKeepsValid(sent, jobId, Runtime(job.result.GetOr(NoFailureMessage)));
    } else {
      SendEventKeepsValid(registered, jobId, "pending", Job(jobId, Pending, Some(AwaitingMessage)), failure);
    }
  }

  /** Removing a key keeps the hub well formed. */
  lemma UnmapKeepsValid(h: Hub, jobId: string)
    requires Valid(h)
    ensures Valid(Unmap(h, jobId))
  {
    var r := Unmap(h, jobId);
    if jobId in h.channels {
      forall id | id in r.channels
        ensures r.channels[id].serial < r.created && r.channels[id].serial !in r.dropped
      {
        assert r.channels[id] == h.channels[id];
        assert h.channels[id].serial != h.channels[jobId].serial;
      }
    }
  }

  /** Sending keeps the hub well formed. */
  lemma SendEventKeepsValid(h: Hub, jobId: string, name: string, data: Job, failure: Option<Exception>)
    requires Valid(h)
    ensures Valid(SendEvent(h, jobId, name, data, failure))
  {
    UnmapKeepsValid(h, jobId);
  }

  /** Completing or erroring the registered emitter keeps the hub well
      formed. */
  lemma CloseKeepsValid(h: Hub, jobId: string, cause: Exception)
    requires Valid(h)
    ensures Valid(CompleteStream(h, jobId))
    ensures Valid(ErrorStream(h, jobId, cause))
  {
    if jobId in h.channels && h.channels[jobId].state == Open {
      var e := h.channels[jobId];
      forall st: ChannelState
        ensures Valid(h.(channels := h.channels[jobId := Emitter(e.serial, st)]))
      {
        var c := h.channels[jobId := Emitter(e.serial, st)];
        assert forall id :: id in c ==> c[id].serial == h.channels[id].serial;
      }
      assert CompleteStream(h, jobId).channels == h.channels[jobId := Emitter(e.serial, Closed)];
      assert ErrorStream(h, jobId, cause).channels == h.channels[jobId := Emitter(e.serial, ClosedWithError(cause))];
    }
  }

  /** The removal callbacks keep the hub well formed, provided the timeout
      callback belongs to an emitter of this hub that no other job holds. */
  lemma CallbacksKeepValid(h: Hub, jobId: string, serial: nat)
    requires Valid(h)
    requires serial < h.created
    requires forall id :: id in h.channels && id != jobId ==> h.channels[id].serial != serial
    ensures Valid(OnCompletion(h, jobId))
    ensures Valid(OnTimeout(h, jobId, serial))
  {
    UnmapKeepsValid(h, jobId);
  }
}
