/**
 * The process-wide purchase-event listener registry of src/macos.rs
 * (`LISTENERS`): a lazily created map from event name to the channels
 * registered for it, keyed by channel id. `Iap::register_listener` and
 * `Iap::remove_listener` edit it; `trigger`, called by the Swift side on
 * transaction updates, sends a payload to every channel of one event.
 *
 * The `OnceLock` is the `initialized` flag; the `RwLock` around the map is
 * always acquired, so the lock-poisoning errors never arise here.
 */
module Listeners {
  import opened Wrappers
  import opened Errors
  import opened Bridge

  /** A channel id (`u32`). */
  newtype u32 = x: int | 0 <= x < 0x1_0000_0000

  /**
   * A `tauri::ipc::Channel<String>`: `delivered` logs the payloads that
   * reached the webview; a send fails, and delivers nothing, once the
   * receiving side is gone (`open` is false).
   */
  class Channel {
    const id: u32
    var open: bool
    ghost var delivered: seq<string>

    constructor (id: u32)
      ensures this.id == id && open && delivered == []
    {
      this.id := id;
      open := true;
      delivered := [];
    }

    /** `Channel::send`. */
    method Send(payload: string) returns (ok: bool)
      modifies this
      ensures open == old(open) && ok == open
      ensures delivered == old(delivered) + (if ok then [payload] else [])
    {
      ok := open;
      if ok {
        delivered := delivered + [payload];
      }
    }
  }

  type EventMap = map<string, map<u32, Channel>>

  /** Every channel is stored under its own id, as `insert(handler.id(), handler)` does. */
  ghost predicate KeyedById(m: EventMap) {
    forall e, k | e in m && k in m[e] :: m[e][k].id == k
  }

  /** The channels a trigger of `event` sends to. */
  function Recipients(m: EventMap, event: string): set<Channel> {
    if event in m then m[event].Values else {}
  }

  /** The channels under `event`, empty when the event has no entry (`entry(event).or_default()`). */
  function ChannelsOf(m: EventMap, event: string): map<u32, Channel> {
    if event in m then m[event] else map[]
  }

  /** `entry(event).or_default().insert(handler.id(), handler)`. */
  function WithListener(m: EventMap, event: string, handler: Channel): EventMap {
    m[event := ChannelsOf(m, event)[handler.id := handler]]
  }

  /** `if let Some(channels) = get_mut(event) { channels.remove(id) }`. */
  function WithoutListener(m: EventMap, event: string, id: u32): EventMap {
    if event in m then m[event := m[event] - {id}] else m
  }

  /** The rejection `remove_listener` gives before the registry exists. */
  function NotInitialized(): (e: Error)
    ensures Text(e) == "Listeners not initialized"
  {
    Rejected("Listeners not initialized")
  }

  class Registry {
    var initialized: bool
    var listeners: EventMap

    ghost predicate Valid()
      reads this
    {
      && (!initialized ==> listeners == map[])
      && KeyedById(listeners)
    }

    /** `OnceLock::new()`: nothing is created until first use. */
    constructor ()
      ensures Valid() && !initialized && listeners == map[]
    {
      initialized := false;
      listeners := map[];
    }

    /**
     * `LISTENERS.get_or_init(..)`, as `init` calls it: creates an empty map
     * the first time and never clears an existing one.
     */
    method GetOrInit()
      requires Valid()
      modifies this
      ensures Valid() && initialized
      ensures listeners == old(listeners)
    {
      initialized := true;
    }

    /**
     * `Iap::register_listener`: creates the registry if needed, creates an
     * empty inner map for a new event and stores `handler` under its id,
     * replacing any channel with that id under `event`.
     */
    method RegisterListener(event: string, handler: Channel) returns (r: Result<(), Error>)
      requires Valid()
      modifies this
      ensures Valid() && initialized
      ensures r == Success(())
      ensures listeners == WithListener(old(listeners), event, handler)
    {
      GetOrInit();
      var channels := ChannelsOf(listeners, event);
      listeners := listeners[event := channels[handler.id := handler]];
      r := Success(());
    }

    /**
     * `Iap::remove_listener`: fails before the registry exists; otherwise
     * drops `id` under `event`, and is a no-op for an unknown event or id.
     */
    method RemoveListener(event: string, id: u32) returns (r: Result<(), Error>)
      requires Valid()
      modifies this
      ensures Valid()
      ensures !old(initialized) ==> r == Failure(NotInitialized()) && unchanged(this)
      ensures old(initialized) ==> r == Success(()) && initialized &&
                                   listeners == WithoutListener(old(listeners), event, id)
    {
      if !initialized {
        return Failure(NotInitialized());
      }
      if event in listeners {
        listeners := listeners[event := listeners[event] - {id}];
      }
      r := Success(());
    }

    /**
     * `trigger`: fails before the registry exists; otherwise sends
     * `payload` once to each channel registered under exactly `event`,
     * ignores failed sends, and leaves the registry as it was.
     */
    method Trigger(event: string, payload: string) returns (r: FfiResult<()>)
      requires Valid()
      modifies Recipients(listeners, event)
      ensures initialized == old(initialized) && listeners == old(listeners)
      ensures !initialized ==> r == FfiErr("Listeners not initialized")
      ensures initialized ==> r == FfiOk(())
      ensures forall c | c in Recipients(listeners, event) ::
                c.open == old(c.open) &&
                c.delivered == old(c.delivered) + (if c.open then [payload] else [])
      ensures forall e, k | e in listeners && k in listeners[e] && listeners[e][k] !in Recipients(listeners, event) ::
                listeners[e][k].delivered == old(listeners[e][k].delivered)
    {
      if !initialized {
        return FfiErr("Listeners not initialized");
      }
      if event in listeners {
        var channels := listeners[event];
        var pending := channels.Keys;
        while pending != {}
          invariant pending <= channels.Keys
          invariant forall k | k in channels && k !in pending ::
                      channels[k].open == old(channels[k].open) &&
                      channels[k].delivered == old(channels[k].delivered) + (if channels[k].open then [payload] else [])
          invariant forall k | k in pending :: channels[k].open == old(channels[k].open) &&
                                              channels[k].delivered == old(channels[k].delivered)
          decreases pending
        {
          var k :| k in pending;
          var _ := channels[k].Send(payload);
          pending := pending - {k};
        }
      }
      r := FfiOk(());
    }
  }

  /**
   * A channel whose registration completed before a trigger of its event
   * receives that trigger's payload, if it is still open.
   */
  method RegisterThenTrigger(registry: Registry, event: string, handler: Channel, payload: string)
    returns (r: FfiResult<()>)
    requires registry.Valid()
    modifies registry, Recipients(WithListener(registry.listeners, event, handler), event)
    ensures registry.Valid() && r == FfiOk(())
    ensures handler.delivered == old(handler.delivered) + (if handler.open then [payload] else [])
  {
    var _ := registry.RegisterListener(event, handler);
    RegisteredChannelReceives(old(registry.listeners), event, handler);
    r := registry.Trigger(event, payload);
  }

  /**
   * A channel removed from an event before a trigger of that event receives
   * nothing from it.
   */
  method RemoveThenTrigger(registry: Registry, event: string, channel: Channel, payload: string)
    returns (r: FfiResult<()>)
    requires registry.Valid()
    modifies registry, Recipients(registry.listeners, event)
    ensures registry.Valid()
    ensures channel.delivered == old(channel.delivered)
  {
    var _ := registry.RemoveListener(event, channel.id);
    RemovedChannelDoesNotReceive(old(registry.listeners), event, channel.id);
    r := registry.Trigger(event, payload);
  }

  // What the registry's edits mean for later triggers.

  /** A channel registered under `event` is among the recipients of the next trigger of `event`. */
  lemma RegisteredChannelReceives(m: EventMap, event: string, handler: Channel)
    ensures handler in Recipients(WithListener(m, event, handler), event)
  {
    var inner := ChannelsOf(m, event)[handler.id := handler];
    assert inner[handler.id] == handler;
  }

  /** After removal, no recipient of `event` has the removed id. */
  lemma RemovedChannelDoesNotReceive(m: EventMap, event: string, id: u32)
    requires KeyedById(m)
    ensures forall c | c in Recipients(WithoutListener(m, event, id), event) :: c.id != id
  {
    forall c | c in Recipients(WithoutListener(m, event, id), event) ensures c.id != id {
      var inner := m[event] - {id};
      var k :| k in inner && inner[k] == c;
      assert m[event][k] == c;
    }
  }

  /** Registering and removing under one event leave every other event's recipients as they were. */
  lemma OtherEventsUnaffected(m: EventMap, event: string, other: string, handler: Channel, id: u32)
    requires other != event
    ensures Recipients(WithListener(m, event, handler), other) == Recipients(m, other)
    ensures Recipients(WithoutListener(m, event, id), other) == Recipients(m, other)
  {
  }

  /** Registering a second channel with the same id under the same event replaces the first. */
  lemma ReRegisterReplaces(m: EventMap, event: string, first: Channel, second: Channel)
    requires first.id == second.id
    ensures WithListener(WithListener(m, event, first), event, second) == WithListener(m, event, second)
  {
    var inner := ChannelsOf(m, event);
    assert ChannelsOf(WithListener(m, event, first), event) == inner[first.id := first];
    var once: map<u32, Channel> := inner[first.id := first];
    assert once[second.id := second] == inner[second.id := second];
  }

  /**
   * Registering a new channel and removing it again restores the map, except
   * that a new event keeps its key with an empty inner map.
   */
  lemma RegisterThenRemove(m: EventMap, event: string, handler: Channel)
    requires event !in m || handler.id !in m[event]
    ensures WithoutListener(WithListener(m, event, handler), event, handler.id)
         == if event in m then m else m[event := map[]]
  {
    var inner := ChannelsOf(m, event);
    assert inner[handler.id := handler] - {handler.id} == inner;
  }

  /** Both edits keep every channel stored under its own id. */
  lemma EditsKeepKeys(m: EventMap, event: string, handler: Channel, id: u32)
    requires KeyedById(m)
    ensures KeyedById(WithListener(m, event, handler))
    ensures KeyedById(WithoutListener(m, event, id))
  {
  }
}
