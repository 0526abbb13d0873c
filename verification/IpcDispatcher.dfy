/** The shared state of the subprocess IPC dispatcher, and the critical sections
    that read and write it under the mutex. Channels are numbered in the order they
    are made; channel 0 belongs to the startup probe. */
module IpcDispatcher {
  import opened Wrappers

  const STARTUP := "__startup__"

  /** The part of an adapter response that the dispatcher itself looks at, with the
      rest of the envelope as inert text. */
  datatype Response = Response(requestId: string, status: string, text: string, error: string)

  const RESET_REPLY := Response("", "", "", "subprocess reset")
  const TERMINATED_REPLY := Response("", "", "", "subprocess terminated")

  datatype RegisterError = RuntimeClosed | RuntimeUnavailable(reason: string)

  /** Everything the mutex protects, and the content of every reply channel (each has
      capacity one). */
  datatype Core = Core(
    pending: map<string, nat>,
    chans: seq<seq<Response>>,
    closed: bool,
    stdinOpen: bool,
    demuxErr: Option<string>)
  {
    ghost predicate Valid() {
      forall id :: id in pending ==> pending[id] < |chans|
    }
  }

  /** Every channel in `targets` that is empty receives `reply`; a full one is skipped. */
  function OfferAll(chans: seq<seq<Response>>, targets: set<nat>, reply: Response): (r: seq<seq<Response>>)
    ensures |r| == |chans|
    ensures forall i :: 0 <= i < |chans| && i !in targets ==> r[i] == chans[i]
    ensures forall i :: 0 <= i < |chans| && i in targets ==> r[i] == if chans[i] == [] then [reply] else chans[i]
  {
    seq(|chans|, i requires 0 <= i < |chans| => if i in targets && chans[i] == [] then [reply] else chans[i])
  }

  /** Registration: refused once closed or once the reader has failed. */
  function RegisterCore(core: Core, id: string): (Core, Option<RegisterError>) {
    var made := core.(chans := core.chans + [[]]);
    if core.closed then (made, Some(RuntimeClosed))
    else if core.demuxErr.Some? then (made, Some(RuntimeUnavailable(core.demuxErr.value)))
    else (made.(pending := core.pending[id := |core.chans|]), None)
  }

  function DeregisterCore(core: Core, id: string): Core {
    core.(pending := core.pending - {id})
  }

  /** All pending callers are released with `reply`, and the first failure is kept. */
  function DrainCore(core: Core, reply: Response, reason: string): Core {
    core.(
      pending := map[],
      chans := OfferAll(core.chans, core.pending.Values, reply),
      demuxErr := if core.demuxErr.None? then Some(reason) else core.demuxErr)
  }

  /** What the demultiplexer does with one decoded line. */
  datatype Route = ToChannel(ch: nat, bare: bool) | Drop | Unsynchronized

  function RouteCore(core: Core, resp: Response): (Core, Route) {
    if resp.requestId == "" then
      if STARTUP in core.pending then
        (DeregisterCore(core, STARTUP), ToChannel(core.pending[STARTUP], true))
      else (core, Unsynchronized)
    else if resp.requestId in core.pending then
      (DeregisterCore(core, resp.requestId), ToChannel(core.pending[resp.requestId], false))
    else (core, Drop)
  }

  function SendCore(core: Core, ch: nat, resp: Response): Core
    requires ch < |core.chans|
  {
    core.(chans := OfferAll(core.chans, {ch}, resp))
  }

  function CloseCore(core: Core): Core {
    if core.closed then core else core.(closed := true, stdinOpen := false)
  }

  /** The content of a channel before and after a non-blocking send. */
  predicate Offered(before: seq<Response>, after: seq<Response>, reply: Response) {
    after == if before == [] then [reply] else before
  }

  class Dispatcher {
    var pending: map<string, nat>
    var chans: seq<seq<Response>>
    var closed: bool
    var stdinOpen: bool
    var demuxErr: Option<string>

    ghost function View(): Core
      reads this
    {
      Core(pending, chans, closed, stdinOpen, demuxErr)
    }

    ghost predicate Valid()
      reads this
    {
      View().Valid()
    }

    /** The startup correlation is registered before any reader can exist. */
    constructor ()
      ensures Valid()
      ensures View() == Core(map[STARTUP := 0], [[]], false, true, None)
    {
      pending, chans := map[STARTUP := 0], [[]];
      closed, stdinOpen, demuxErr := false, true, None;
    }

    /** The critical section at the head of SendRequest. */
    method Register(id: string) returns (ch: nat, err: Option<RegisterError>)
      requires Valid()
      modifies this
      ensures Valid() && ch == |old(chans)|
      ensures (View(), err) == RegisterCore(old(View()), id)
    {
      ch := |chans|;
      chans := chans + [[]];
      if closed {
        return ch, Some(RuntimeClosed);
      }
      if demuxErr.Some? {
        return ch, Some(RuntimeUnavailable(demuxErr.value));
      }
      pending := pending[id := ch];
      err := None;
    }

    method Deregister(id: string)
      requires Valid()
      modifies this`pending
      ensures Valid() && View() == DeregisterCore(old(View()), id)
    {
      pending := pending - {id};
    }

    /** The loop shared by the reset and the reader's exit. Map iteration order is
        arbitrary, and the outcome does not depend on it. */
    method ReleasePending(reply: Response)
      requires Valid()
      modifies this`pending, this`chans
      ensures Valid() && pending == map[]
      ensures chans == OfferAll(old(chans), old(pending.Values), reply)
    {
      while pending != map[]
        invariant Valid() && |chans| == |old(chans)|
        invariant pending.Keys <= old(pending.Keys)
        invariant forall id :: id in pending ==> pending[id] == old(pending)[id]
        invariant forall i :: 0 <= i < |chans| ==>
                                chans[i] == old(chans)[i] || (i in old(pending.Values) && Offered(old(chans)[i], chans[i], reply))
        invariant forall id :: id in old(pending) && id !in pending ==>
                                 Offered(old(chans)[old(pending)[id]], chans[old(pending)[id]], reply)
        decreases pending.Keys
      {
        var id :| id in pending;
        var ch := pending[id];
        if chans[ch] == [] {
          chans := chans[ch := [reply]];
        }
        pending := pending - {id};
      }
    }

    /** Records a protocol-lifetime failure and releases every pending caller. */
    method MarkUncertain(reason: string)
      requires Valid()
      modifies this
      ensures Valid() && View() == DrainCore(old(View()), RESET_REPLY, reason)
    {
      if demuxErr.None? {
        demuxErr := Some(reason);
      }
      ReleasePending(RESET_REPLY);
    }

    /** The deferred cleanup that runs when the reader returns. */
    method DemuxCleanup(reason: string)
      requires Valid()
      modifies this
      ensures Valid() && View() == DrainCore(old(View()), TERMINATED_REPLY, reason)
    {
      ReleasePending(TERMINATED_REPLY);
      if demuxErr.None? {
        demuxErr := Some(reason);
      }
    }

    /** The reader's lookup: the entry is removed before the reply is sent. */
    method RouteReply(resp: Response) returns (route: Route)
      requires Valid()
      modifies this`pending
      ensures Valid() && (View(), route) == RouteCore(old(View()), resp)
      ensures route.ToChannel? ==> route.ch < |chans|
    {
      if resp.requestId == "" {
        if STARTUP in pending {
          route := ToChannel(pending[STARTUP], true);
          pending := pending - {STARTUP};
          return;
        }
        return Unsynchronized;
      }
      if resp.requestId !in pending {
        return Drop;
      }
      route := ToChannel(pending[resp.requestId], false);
      pending := pending - {resp.requestId};
    }

    /** The send that follows a lookup, outside the mutex. */
    method Send(ch: nat, resp: Response)
      requires Valid() && ch < |chans|
      modifies this`chans
      ensures Valid() && View() == SendCore(old(View()), ch, resp)
    {
      if chans[ch] == [] {
        chans := chans[ch := [resp]];
      }
    }

    /** The head of Close; only the call that finds the dispatcher open proceeds. */
    method BeginClose() returns (first: bool)
      requires Valid()
      modifies this`closed, this`stdinOpen
      ensures Valid() && first == !old(closed) && View() == CloseCore(old(View()))
    {
      if closed {
        return false;
      }
      closed, stdinOpen := true, false;
      first := true;
    }
  }
}
