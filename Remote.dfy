/**
 * `RemoteProperty` (static/script.js): a locally cached value refreshed from the
 * server, with one fetch in flight at a time, a minimum interval between fetches
 * and a queue of callbacks waiting for the next value.
 *
 * The functions the constructor receives (checker, parser, change, startCallback)
 * are not modelled as code: what the property does with them is recorded as
 * events in the ghost log `events`, and the parsed result of a fetch is the
 * argument of `SetValue`.
 */
module Remote {

  /** Identifies one callback function handed to `getRemote`. */
  type CallbackId = nat

  /** An argument of `getRemote`: functions are queued, anything else is ignored. */
  datatype Arg = Function(id: CallbackId) | NonFunction

  /** What the property does to the outside world. */
  datatype Event<T> =
    | FetchStarted(stale: T)                  // startCallback(this.value)
    | CheckerInvoked                          // checker(this.setValue.bind(this))
    | Changed(value: T)                       // change(this.value)
    | Notified(callback: CallbackId, value: T)

  /** The callbacks among the arguments of one `getRemote` call, in argument order. */
  function Queued(args: seq<Arg>): (ids: seq<CallbackId>)
    ensures |ids| <= |args|
    ensures forall id :: id in ids <==> Function(id) in args
  {
    if args == [] then []
    else
      var last := args[|args| - 1];
      assert args == args[..|args| - 1] + [last];
      Queued(args[..|args| - 1]) + (if last.Function? then [last.id] else [])
  }

  /** The loop pushes as it goes: the callbacks of two stretches of arguments are queued one after the other. */
  lemma {:induction false} QueuedAppend(a: seq<Arg>, b: seq<Arg>)
    ensures Queued(a + b) == Queued(a) + Queued(b)
    decreases |b|
  {
    if b == [] {
      assert a + b == a;
    } else {
      var init := b[..|b| - 1];
      assert (a + b)[..|a + b| - 1] == a + init;
      QueuedAppend(a, init);
    }
  }

  /** A function argument is queued once, every time it occurs; anything else is not queued. */
  lemma QueuedOne(id: CallbackId)
    ensures Queued([Function(id)]) == [id]
    ensures Queued([NonFunction]) == []
    ensures Queued([Function(id), Function(id)]) == [id, id]
  {
    QueuedAppend([Function(id)], [Function(id)]);
  }

  /** Notifying the queue `ids` with `v`, last registered first (`callbacks.pop()`). */
  function NotifyLifo<T>(ids: seq<CallbackId>, v: T): seq<Event<T>>
  {
    if ids == [] then [] else [Notified(ids[|ids| - 1], v)] + NotifyLifo(ids[..|ids| - 1], v)
  }

  /** Draining notifies every queued callback exactly once, in reverse registration order. */
  lemma {:induction false} NotifyLifoOrder<T>(ids: seq<CallbackId>, v: T, k: nat)
    requires k < |ids|
    ensures |NotifyLifo(ids, v)| == |ids|
    ensures NotifyLifo(ids, v)[k] == Notified(ids[|ids| - 1 - k], v)
  {
    if k > 0 {
      NotifyLifoOrder(ids[..|ids| - 1], v, k - 1);
    } else {
      NotifyLifoLength(ids[..|ids| - 1], v);
    }
  }

  lemma {:induction false} NotifyLifoLength<T>(ids: seq<CallbackId>, v: T)
    ensures |NotifyLifo(ids, v)| == |ids|
  {
    if ids != [] {
      NotifyLifoLength(ids[..|ids| - 1], v);
    }
  }

  class RemoteProperty<T(==)> {
    var value: T
    /** Set when a fetch starts; nothing in the source ever clears it again. */
    var gettingRemote: bool
    /** When the last fetch started. */
    var lastCall: int
    /** Minimum time between two fetches (`limit ? limit : 0`). */
    const limit: int
    /** Callbacks waiting for the next value, in registration order. */
    var callbacks: seq<CallbackId>
    ghost var events: seq<Event<T>>

    /**
     * `new RemoteProperty(initValue, …, limit, …, getRemote, initCallback)`:
     * either fetches at once with `initCallback` queued, or hands it the initial
     * value directly.
     */
    constructor (initValue: T, limit: int, getRemote: bool, initCallback: CallbackId, now: int)
      ensures this.limit == limit && value == initValue
      ensures !getRemote || limit > now ==>
                !gettingRemote && lastCall == 0 && callbacks == []
                && events == [Notified(initCallback, initValue)]
      ensures getRemote && limit <= now ==>
                gettingRemote && lastCall == now && callbacks == [initCallback]
                && events == [FetchStarted(initValue), CheckerInvoked]
    {
      this.limit := limit;
      value := initValue;
      gettingRemote := false;
      lastCall := 0;
      callbacks := [];
      events := [];
      new;
      if getRemote {
        var _ := GetRemote([Function(initCallback)], now);
      } else {
        events := events + [Notified(initCallback, value)];
      }
    }

    /**
     * `getRemote(...callbacks)` at time `now`: queues the function arguments;
     * then, unless a fetch is already in flight, either serves the cached value
     * (within `limit` of the last fetch) or starts a fetch. `started` tells which.
     */
    method GetRemote(args: seq<Arg>, now: int) returns (started: bool)
      modifies this
      ensures value == old(value)
      ensures started <==> !old(gettingRemote) && old(lastCall) + limit <= now
      ensures old(gettingRemote) ==>
                gettingRemote && lastCall == old(lastCall) && callbacks == old(callbacks) + Queued(args)
                && events == old(events)
      ensures !old(gettingRemote) && old(lastCall) + limit > now ==>
                !gettingRemote && lastCall == old(lastCall) && callbacks == []
                && events == old(events) + NotifyLifo(old(callbacks) + Queued(args), value)
      ensures started ==>
                gettingRemote && lastCall == now && callbacks == old(callbacks) + Queued(args)
                && events == old(events) + [FetchStarted(value), CheckerInvoked]
    {
      var ii := 0;
      while ii < |args|
        invariant 0 <= ii <= |args|
        invariant callbacks == old(callbacks) + Queued(args[..ii])
        invariant value == old(value) && gettingRemote == old(gettingRemote) && lastCall == old(lastCall)
        invariant events == old(events)
      {
        assert args[..ii + 1][..ii] == args[..ii];
        if args[ii].Function? {
          callbacks := callbacks + [args[ii].id];
        }
        ii := ii + 1;
      }
      assert args[..|args|] == args;
      started := false;
      if !gettingRemote {
        if lastCall + limit > now {
          RunCallbacks();
        } else {
          lastCall := now;
          gettingRemote := true;
          events := events + [FetchStarted(value)];
          events := events + [CheckerInvoked];
          started := true;
        }
      }
    }

    /**
     * The fetch has completed with the parsed value `parsed`: it replaces the
     * cached value, `change` runs when the value differs, and the queue is
     * drained. The in-flight flag is left as it was.
     */
    method SetValue(parsed: T)
      modifies this
      ensures value == parsed && callbacks == []
      ensures gettingRemote == old(gettingRemote) && lastCall == old(lastCall)
      ensures events == old(events) + (if parsed != old(value) then [Changed(parsed)] else [])
                        + NotifyLifo(old(callbacks), parsed)
    {
      var oldValue := value;
      value := parsed;
      if value != oldValue {
        events := events + [Changed(value)];
      }
      RunCallbacks();
    }

    /** `runCallbacks()`: pops and calls every queued callback with the current value. */
    method RunCallbacks()
      modifies this
      ensures callbacks == [] && events == old(events) + NotifyLifo(old(callbacks), value)
      ensures value == old(value) && gettingRemote == old(gettingRemote) && lastCall == old(lastCall)
    {
      while |callbacks| > 0
        invariant events + NotifyLifo(callbacks, value) == old(events) + NotifyLifo(old(callbacks), value)
        invariant value == old(value) && gettingRemote == old(gettingRemote) && lastCall == old(lastCall)
        decreases |callbacks|
      {
        var id := callbacks[|callbacks| - 1];
        callbacks := callbacks[..|callbacks| - 1];
        events := events + [Notified(id, value)];
      }
    }
  }

  /**
   * Two requests within the limit share one fetch, and because the completed
   * fetch leaves `gettingRemote` set, a request made after the limit has passed
   * does not fetch again either: it only waits in the queue.
   */
  method FetchesOnce() returns (fetches: nat)
    ensures fetches == 1
  {
    var p := new RemoteProperty<int>(0, 1000, false, 0, 5000);
    var first := p.GetRemote([Function(1)], 5000);
    var second := p.GetRemote([Function(2)], 5500);
    p.SetValue(7);
    var third := p.GetRemote([Function(3)], 7000);
    assert p.callbacks == [3];
    fetches := (if first then 1 else 0) + (if second then 1 else 0) + (if third then 1 else 0);
  }
}
