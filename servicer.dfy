/**
 * The shared scheduler service (CommunicationServicer): one running poller
 * and a registry of periodic timers keyed by guid.
 */
module Servicer {
  import opened Wrappers
  import opened Transport

  /** A 128-bit globally unique identifier. */
  newtype Guid = x: int | 0 <= x < 0x1_0000_0000_0000_0000_0000_0000_0000_0000

  /** A time span in ticks of 100 nanoseconds. */
  type TimeSpanTicks = int

  const TicksPerMillisecond: int := 10000

  /**
   * The whole milliseconds of a time span, truncated toward zero as the
   * integer cast of TotalMilliseconds does.
   */
  function TruncatedMilliseconds(ticks: TimeSpanTicks): (ms: int)
    ensures ticks >= 0 ==> 0 <= ms * TicksPerMillisecond <= ticks < (ms + 1) * TicksPerMillisecond
    ensures ticks < 0 ==> (ms - 1) * TicksPerMillisecond < ticks <= ms * TicksPerMillisecond <= 0
  {
    if ticks >= 0 then ticks / TicksPerMillisecond
    else -((-ticks) / TicksPerMillisecond)
  }

  /** A periodic callback: its own timer, enabled, with the owner's handler subscribed, attached to the poller. */
  class TimerCallbackInfo {
    const poller: Poller
    const timer: NetTimer

    constructor (frequency: TimeSpanTicks, poller: Poller)
      modifies poller
      ensures this.poller == poller && fresh(timer)
      ensures timer.enabled && timer.subscribed && timer.intervalMs == TruncatedMilliseconds(frequency)
      ensures poller.attached == old(poller.attached) + {timer}
      ensures poller.running == old(poller.running) && poller.disposed == old(poller.disposed)
    {
      var t := new NetTimer(TruncatedMilliseconds(frequency));
      t.SetEnable(true);
      t.SetSubscribed(true);
      this.poller, timer := poller, t;
      new;
      poller.Add(t);
    }

    /** The Enable setter: turning a disabled timer on restarts its countdown. */
    method ToggleEnabled(enabled: bool)
      modifies timer
      ensures timer.enabled == enabled
      ensures timer.intervalMs == old(timer.intervalMs) && timer.subscribed == old(timer.subscribed)
      ensures timer.restarts == if enabled && !old(timer.enabled) then old(timer.restarts) + 1 else old(timer.restarts)
    {
      timer.SetEnable(enabled);
    }

    /** A new interval; an enabled timer's countdown restarts with it. */
    method UpdateFrequency(newFrequency: TimeSpanTicks)
      modifies timer
      ensures timer.intervalMs == TruncatedMilliseconds(newFrequency)
      ensures timer.enabled == old(timer.enabled) && timer.subscribed == old(timer.subscribed)
      ensures timer.restarts == if timer.enabled then old(timer.restarts) + 1 else old(timer.restarts)
    {
      timer.SetInterval(TruncatedMilliseconds(newFrequency));
    }

    /** Unsubscribes the handler and detaches the timer from the poller. */
    method Dispose()
      modifies timer, poller
      ensures !timer.subscribed && timer.enabled == old(timer.enabled)
      ensures timer.intervalMs == old(timer.intervalMs)
      ensures poller.attached == old(poller.attached) - {timer}
      ensures poller.running == old(poller.running) && poller.disposed == old(poller.disposed)
    {
      timer.SetSubscribed(false);
      poller.Remove(timer);
    }
  }

  const DefaultDescription: string := "CommunicationServicer"

  class CommunicationServicer {
    const poller: Poller
    const description: string
    var callbacks: map<Guid, TimerCallbackInfo>

    /** Every registered callback runs on this servicer's poller. */
    ghost predicate Valid()
      reads this, callbacks.Values
    {
      forall g :: g in callbacks ==> callbacks[g].poller == poller
    }

    /** The timers of the registered callbacks. */
    ghost function Timers(): set<NetTimer>
      reads this, callbacks.Values
    {
      set g | g in callbacks :: callbacks[g].timer
    }

    /** Creates and starts the poller; a null description falls back to the class name. */
    constructor (description: Option<string>)
      ensures Valid() && callbacks == map[] && fresh(poller)
      ensures this.description == if description.Some? then description.value else DefaultDescription
      ensures poller.running && !poller.disposed && poller.attached == {}
    {
      this.description := if description.Some? then description.value else DefaultDescription;
      callbacks := map[];
      poller := new Poller();
      new;
      poller.RunAsync();
    }

    /**
     * Registers a callback under `guid` (the freshly generated identifier
     * the source obtains from the platform) with a new enabled timer on the
     * poller. Every other entry stays as it was.
     */
    method AddTimerCallbackOnServicerThread(callbackFrequency: TimeSpanTicks, guid: Guid) returns (key: Guid)
      requires Valid()
      modifies this, poller
      ensures Valid() && key == guid
      ensures callbacks.Keys == old(callbacks.Keys) + {guid}
      ensures forall g :: g in old(callbacks) && g != guid ==> callbacks[g] == old(callbacks[g])
      ensures fresh(callbacks[guid]) && fresh(callbacks[guid].timer)
      ensures callbacks[guid].timer.enabled && callbacks[guid].timer.subscribed
      ensures callbacks[guid].timer.intervalMs == TruncatedMilliseconds(callbackFrequency)
      ensures poller.attached == old(poller.attached) + {callbacks[guid].timer}
      ensures poller.running == old(poller.running) && poller.disposed == old(poller.disposed)
    {
      var info := new TimerCallbackInfo(callbackFrequency, poller);
      callbacks := callbacks[guid := info];
      key := guid;
    }

    /**
     * Removes the entry for `guid` and disposes it; a guid that is not
     * registered changes nothing.
     */
    method DisposeTimer(guid: Guid)
      requires Valid()
      modifies this, poller, if guid in callbacks then {callbacks[guid].timer} else {}
      ensures Valid()
      ensures callbacks == old(callbacks) - {guid}
      ensures guid in old(callbacks) ==>
        !old(callbacks[guid]).timer.subscribed && poller.attached == old(poller.attached) - {old(callbacks[guid]).timer}
      ensures guid !in old(callbacks) ==> poller.attached == old(poller.attached)
      ensures poller.running == old(poller.running) && poller.disposed == old(poller.disposed)
    {
      if guid in callbacks {
        var info := callbacks[guid];
        callbacks := callbacks - {guid};
        info.Dispose();
      }
    }

    /**
     * Disposes every registered callback (detaching its timer), then the
     * poller. The registry itself is not cleared.
     */
    method Dispose()
      requires Valid()
      modifies poller, Timers()
      ensures callbacks == old(callbacks)
      ensures forall g :: g in callbacks ==> !callbacks[g].timer.subscribed
      ensures poller.attached == old(poller.attached) - old(Timers())
      ensures poller.disposed && !poller.running
    {
      var remaining := callbacks.Keys;
      while remaining != {}
        invariant remaining <= callbacks.Keys
        invariant forall g :: g in callbacks && g !in remaining ==> !callbacks[g].timer.subscribed
        invariant poller.attached == old(poller.attached) - (set g | g in callbacks && g !in remaining :: callbacks[g].timer)
        decreases |remaining|
      {
        var g :| g in remaining;
        callbacks[g].Dispose();
        remaining := remaining - {g};
      }
      poller.Dispose();
    }
  }
}
