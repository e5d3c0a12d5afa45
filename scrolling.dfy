/**
 * The `Scroller` class (dist/app.js:114-174): settings defaults in the
 * constructor and the start/stop/toggle state machine over the interval
 * handle. Scrolling itself is the zenscroll library's and is not modelled.
 */
module Scrolling {
  import opened Wrappers

  /**
   * The host's interval timers: `setInterval` hands out an id never used
   * before, `clearInterval` cancels one, and an undefined id is ignored.
   */
  class Timers {
    var nextId: nat
    var active: map<nat, real>  // id of each live interval -> its period in milliseconds

    ghost predicate Valid()
      reads this
    {
      forall id :: id in active ==> id < nextId
    }

    constructor ()
      ensures Valid() && active == map[]
    {
      nextId := 1;
      active := map[];
    }

    method SetInterval(period: real) returns (id: nat)
      requires Valid()
      modifies this
      ensures Valid()
      ensures old(nextId) <= id < nextId
      ensures id !in old(active) && active == old(active)[id := period]
    {
      id := nextId;
      nextId := nextId + 1;
      active := active[id := period];
    }

    method ClearInterval(id: Option<nat>)
      requires Valid()
      modifies this
      ensures Valid()
      ensures nextId == old(nextId)
      ensures active == if id.Some? then old(active) - {id.value} else old(active)
    {
      if id.Some? {
        active := active - {id.value};
      }
    }
  }

  /** The two sizes of the scrolled element that the constructor reads. */
  datatype Element = Element(clientHeight: real, offsetHeight: real)

  /** The settings object; `None` is a field left undefined. */
  datatype Settings = Settings(
    pageSize: Option<real>,
    interval: Option<real>,
    direction: Option<string>,
    offset: Option<real>,
    duration: Option<real>)

  /** The object used when no settings argument is passed. */
  const DefaultSettings := Settings(None, Some(12.5), Some("vertical"), Some(0.0), Some(785.0))

  /** A number is falsy when undefined or zero (NaN is not modelled). */
  predicate Truthy(x: Option<real>)
  {
    x.Some? && x.value != 0.0
  }

  /** `x || fallback` on a number. */
  function Or(x: Option<real>, fallback: real): real
  {
    if Truthy(x) then x.value else fallback
  }

  /** The fields the constructor computes. */
  datatype Config = Config(pageSize: real, maxHeight: real, dur: real, interval: real, dir: string)

  /** The constructor's defaulting (dist/app.js:116-130). */
  function Configure(el: Element, settings: Option<Settings>): (c: Config)
    ensures var s := if settings.Some? then settings.value else DefaultSettings;
      && (Truthy(s.pageSize) ==> c.pageSize == s.pageSize.value)
      && (!Truthy(s.pageSize) ==> c.pageSize == el.clientHeight)
      && c.maxHeight == el.offsetHeight
      && (Truthy(s.duration) ==> c.dur == s.duration.value)
      && (!Truthy(s.duration) ==> c.dur == 785.0)
      && (Truthy(s.interval) ==> c.interval == s.interval.value)
      && (!Truthy(s.interval) ==> c.interval == 3.0)
      && (c.dir == "Top" <==> s.direction == Some("vertical"))
      && (c.dir == "Top" || c.dir == "Left")
    ensures c.dur != 0.0 && c.interval != 0.0
  {
    var s := match settings case Some(v) => v case None => DefaultSettings;
    Config(
      Or(s.pageSize, el.clientHeight),
      el.offsetHeight,
      Or(s.duration, 785.0),
      Or(s.interval, 3.0),
      if s.direction == Some("vertical") then "Top" else "Left")
  }

  /** Without a settings argument: the page is the element's height, 785 ms, every 12.5 s, vertical. */
  lemma ConfigureWithoutSettings(el: Element)
    ensures Configure(el, None) == Config(el.clientHeight, el.offsetHeight, 785.0, 12.5, "Top")
  {
  }

  /**
   * A settings object replaces the default object as a whole, so fields it
   * leaves out take the per-field defaults. `setup` passes only a page size
   * and an interval: its scroller gets 785 ms and the direction 'Left', and
   * a falsy interval becomes 3 s rather than the default object's 12.5 s.
   */
  lemma ConfigurePartialSettings(el: Element, pageSize: Option<real>, interval: Option<real>)
    ensures var c := Configure(el, Some(Settings(pageSize, interval, None, None, None)));
      c.dir == "Left" && c.dur == 785.0 && (!Truthy(interval) ==> c.interval == 3.0)
  {
  }

  class Scroller {
    const el: Element
    const timers: Timers
    var pageSize: real
    var maxHeight: real
    var dur: real
    var interval: real
    var dir: string
    var handler: Option<nat>  // `_int_handler`

    ghost predicate Valid()
      reads this, timers
    {
      timers.Valid() && interval != 0.0 && (handler.Some? ==> handler.value in timers.active)
    }

    predicate Running()
      reads this
    {
      handler.Some?
    }

    function Configuration(): Config
      reads this
    {
      Config(pageSize, maxHeight, dur, interval, dir)
    }

    /** `new Scroller(el, settings)`; the initial `scroll(0)` is zenscroll's and is left out. */
    constructor (el: Element, settings: Option<Settings>, timers: Timers)
      requires timers.Valid()
      ensures Valid()
      ensures this.el == el && this.timers == timers
      ensures Configuration() == Configure(el, settings)
      ensures !Running()
    {
      this.el := el;
      this.timers := timers;
      var c := Configure(el, settings);
      pageSize := c.pageSize;
      maxHeight := c.maxHeight;
      dur := c.dur;
      interval := c.interval;
      dir := c.dir;
      handler := None;
    }

    /** `start`: a new interval of `interval` seconds; a previous one, if any, is not cleared. */
    method Start()
      requires Valid()
      modifies this`handler, timers
      ensures Valid() && Running()
      ensures handler.value !in old(timers.active) && handler.value >= old(timers.nextId)
      ensures timers.active == old(timers.active)[handler.value := interval * 1000.0]
      ensures timers.active[handler.value] != 0.0
    {
      var id := timers.SetInterval(interval * 1000.0);
      handler := Some(id);
    }

    /** `stop`: clears the current interval, if any, and forgets the handle. */
    method Stop()
      requires Valid()
      modifies this`handler, timers
      ensures Valid() && !Running() && timers.nextId == old(timers.nextId)
      ensures timers.active == if old(handler).Some? then old(timers.active) - {old(handler).value}
                               else old(timers.active)
    {
      timers.ClearInterval(handler);
      handler := None;
    }

    /** `toggle`: stops a running scroller, starts a stopped one. */
    method Toggle()
      requires Valid()
      modifies this`handler, timers
      ensures Valid()
      ensures Running() == !old(Running())
      ensures old(Running()) ==>
        (timers.active == old(timers.active) - {old(handler).value} && timers.nextId == old(timers.nextId))
      ensures !old(Running()) ==>
        (handler.value !in old(timers.active) && handler.value >= old(timers.nextId) &&
         timers.active == old(timers.active)[handler.value := interval * 1000.0])
    {
      if handler != None {
        Stop();
      } else {
        Start();
      }
    }
  }

  /**
   * Toggling twice returns to the original running status. A stopped
   * scroller ends with the same live intervals; a running one ends with its
   * interval replaced by a fresh one of the same period.
   */
  method ToggleTwice(s: Scroller)
    requires s.Valid()
    modifies s`handler, s.timers
    ensures s.Valid()
    ensures s.Running() == old(s.Running())
    ensures !old(s.Running()) ==> s.timers.active == old(s.timers.active)
    ensures old(s.Running()) ==>
      (s.handler.value !in old(s.timers.active) &&
       s.timers.active == (old(s.timers.active) - {old(s.handler).value})[s.handler.value := s.interval * 1000.0])
  {
    s.Toggle();
    s.Toggle();
  }

  /** Calling `start` twice leaves two live intervals, of which only the second is tracked. */
  method StartTwiceLeaks(s: Scroller)
    requires s.Valid() && !s.Running()
    modifies s`handler, s.timers
    ensures s.Running()
    ensures exists id :: id in s.timers.active && id !in old(s.timers.active) && Some(id) != s.handler
  {
    s.Start();
    var first := s.handler.value;
    s.Start();
    assert first in s.timers.active && first !in old(s.timers.active);
  }
}
