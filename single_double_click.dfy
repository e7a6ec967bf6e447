/**
 * The `singleOrDoubleClick` binding: clicks on an element are counted while a timer runs; when the
 * timer fires, one click calls the single-click handler and more than one the double-click
 * handler. The timer firing is an explicit event here.
 */
module SingleDoubleClick {
  import opened Wrappers

  const DefaultDelay: int := 250

  /**
   * A value the binding may call, known by its identity, and whether calling it returns normally.
   * It does not when the call throws: a handler that throws, or a value that is not a function at
   * all (`null` included, since only `undefined` skips the call).
   */
  datatype Handler = Handler(id: nat, completes: bool)

  /**
   * The value the binding is given: an object with `click`, `dblclick` and `delay` properties, or
   * any other value, which is taken as the single-click handler itself. A function counts as an
   * object, so such a value is `undefined` (`None`) or a value that cannot be called.
   */
  datatype BindingValue =
    | ObjectBinding(click: Option<Handler>, dblclick: Option<Handler>, delay: Option<int>)
    | PlainBinding(value: Option<nat>)

  datatype Config = Config(single: Option<Handler>, double: Option<Handler>, delay: int)

  /** The configuration `init` derives from the binding value; a zero delay is falsy and so replaced. */
  function Configure(v: BindingValue): (c: Config)
    ensures c.delay == DefaultDelay <==> !(v.ObjectBinding? && v.delay.Some? && v.delay.value != 0 && v.delay.value != DefaultDelay)
    ensures v.ObjectBinding? && v.delay.Some? && v.delay.value != 0 ==> c.delay == v.delay.value
    ensures v.PlainBinding? ==> c.double == None && (c.single.Some? <==> v.value.Some?)
    ensures v.PlainBinding? && v.value.Some? ==> c.single == Some(Handler(v.value.value, false))
    ensures v.ObjectBinding? ==> c.single == v.click && c.double == v.dblclick
  {
    match v
    case ObjectBinding(click, dblclick, delay) =>
      Config(click, dblclick, if delay.Some? && delay.value != 0 then delay.value else DefaultDelay)
    case PlainBinding(value) =>
      Config(if value.Some? then Some(Handler(value.value, false)) else None, None, DefaultDelay)
  }

  /** The element's `user-select` style: as the page left it, `none`, or `auto`. */
  datatype UserSelect = Unstyled | NoneSelect | AutoSelect

  /** A click, with the text selection the page held at that moment. */
  datatype ClickEvent = ClickEvent(id: nat, textSelection: string)

  /** A handler call, with the id of the click event it is passed; a call that throws is logged too. */
  datatype Call = Call(handler: Handler, event: nat)

  /**
   * The binding's state: the click counter, the click whose timer is pending (none when no timer
   * runs), the `user-select` style, the delays passed to `setTimeout` and the handler calls made.
   */
  datatype ClickState = ClickState(
    clicks: nat,
    pending: Option<nat>,
    userSelect: UserSelect,
    scheduled: seq<int>,
    calls: seq<Call>)

  /** A timer runs exactly while clicks are being counted, and text selection is off meanwhile. */
  predicate Consistent(s: ClickState)
  {
    (s.pending.Some? <==> s.clicks > 0) && (s.pending.Some? ==> s.userSelect == NoneSelect)
  }

  predicate Idle(s: ClickState)
  {
    s.clicks == 0 && s.pending.None?
  }

  /** The counter stays positive with no timer left to reset it: the binding no longer answers clicks. */
  predicate Stuck(s: ClickState)
  {
    s.clicks > 0 && s.pending.None?
  }

  /** Calling the chosen handler, if there is one, returns normally. */
  predicate Returns(h: Option<Handler>)
  {
    h.None? || h.value.completes
  }

  /** A click: ignored under a text selection; the first of a window turns selection off and starts the timer. */
  function OnClick(c: Config, s: ClickState, ev: ClickEvent): (r: ClickState)
  {
    if ev.textSelection != "" then s
    else if s.clicks + 1 == 1 then
      s.(clicks := 1, userSelect := NoneSelect, pending := Some(ev.id), scheduled := s.scheduled + [c.delay])
    else
      s.(clicks := s.clicks + 1)
  }

  /** The handler the timer picks: single for exactly one click, double otherwise. */
  function Chosen(c: Config, clicks: nat): (h: Option<Handler>)
  {
    if clicks == 1 then c.single else c.double
  }

  /**
   * The timer firing: selection back on, the chosen handler called if defined, then the counter
   * reset. A call that throws leaves the callback before the reset, so the counter keeps its value.
   */
  function OnTimer(c: Config, s: ClickState): (r: ClickState)
    requires s.pending.Some?
  {
    var h := Chosen(c, s.clicks);
    var fired := s.(userSelect := AutoSelect,
                    calls := s.calls + (if h.Some? then [Call(h.value, s.pending.value)] else []),
                    pending := None);
    if Returns(h) then fired.(clicks := 0) else fired
  }

  /** The clicks of a sequence of events, in order. */
  function OnClicks(c: Config, s: ClickState, evs: seq<ClickEvent>): (r: ClickState)
    decreases |evs|
  {
    if evs == [] then s else OnClicks(c, OnClick(c, s, evs[0]), evs[1..])
  }

  predicate NoTextSelection(evs: seq<ClickEvent>)
  {
    forall i :: 0 <= i < |evs| ==> evs[i].textSelection == ""
  }

  /**
   * A click keeps the binding consistent. The timer leaves it idle when the chosen handler returns,
   * and stuck when the handler throws.
   */
  lemma StepsPreserveConsistency(c: Config, s: ClickState, ev: ClickEvent)
    requires Consistent(s)
    ensures Consistent(OnClick(c, s, ev))
    ensures s.pending.Some? && Returns(Chosen(c, s.clicks)) ==> Consistent(OnTimer(c, s)) && Idle(OnTimer(c, s))
    ensures s.pending.Some? && !Returns(Chosen(c, s.clicks)) ==> Stuck(OnTimer(c, s))
  {
  }

  /** A click while the page holds a text selection changes nothing. */
  lemma ClickUnderTextSelectionIgnored(c: Config, s: ClickState, ev: ClickEvent)
    requires ev.textSelection != ""
    ensures OnClick(c, s, ev) == s
  {
  }

  /**
   * Only the click that takes the counter from 0 to 1 starts a timer and turns text selection off;
   * a later click before the timer fires only counts.
   */
  lemma ClickScheduling(c: Config, s: ClickState, ev: ClickEvent)
    requires Consistent(s) && ev.textSelection == ""
    ensures var t := OnClick(c, s, ev);
      t.clicks == s.clicks + 1 && t.calls == s.calls &&
      (s.clicks == 0 ==> t.pending == Some(ev.id) && t.userSelect == NoneSelect && t.scheduled == s.scheduled + [c.delay]) &&
      (s.clicks > 0 ==> t == s.(clicks := s.clicks + 1))
  {
  }

  /**
   * When the timer fires, at most one handler runs: the single one iff the counter is exactly 1,
   * none when the chosen one is undefined. Selection goes back to `auto` either way; the counter
   * returns to 0 only when the call, if any, returns.
   */
  lemma TimerFiring(c: Config, s: ClickState)
    requires s.pending.Some?
    ensures var t := OnTimer(c, s);
      t.clicks == (if Returns(Chosen(c, s.clicks)) then 0 else s.clicks) &&
      t.pending.None? && t.userSelect == AutoSelect && t.scheduled == s.scheduled &&
      |t.calls| <= |s.calls| + 1 && t.calls[..|s.calls|] == s.calls &&
      (|t.calls| == |s.calls| + 1 <==> Chosen(c, s.clicks).Some?) &&
      (s.clicks == 1 && c.single.Some? ==> t.calls[|s.calls|].handler == c.single.value) &&
      (s.clicks != 1 && c.double.Some? ==> t.calls[|s.calls|].handler == c.double.value)
  {
  }

  /** Clicks after the first only raise the counter. */
  lemma {:induction false} LaterClicksOnlyCount(c: Config, s: ClickState, evs: seq<ClickEvent>)
    requires s.clicks > 0 && NoTextSelection(evs)
    ensures OnClicks(c, s, evs) == s.(clicks := s.clicks + |evs|)
    decreases |evs|
  {
    if evs != [] {
      LaterClicksOnlyCount(c, OnClick(c, s, evs[0]), evs[1..]);
    }
  }

  /**
   * A stuck binding stays stuck: every later click only raises the counter, which never again
   * reaches 1, so no timer is scheduled and no handler is called.
   */
  lemma {:induction false} StuckStaysStuck(c: Config, s: ClickState, evs: seq<ClickEvent>)
    requires Stuck(s)
    ensures Stuck(OnClicks(c, s, evs))
    ensures OnClicks(c, s, evs).scheduled == s.scheduled && OnClicks(c, s, evs).calls == s.calls
    decreases |evs|
  {
    if evs != [] {
      StuckStaysStuck(c, OnClick(c, s, evs[0]), evs[1..]);
    }
  }

  /**
   * A value that is neither an object nor `undefined` is called on a single click and throws, so
   * the first single click leaves the binding stuck.
   */
  lemma PlainValueGetsStuck(id: nat, s: ClickState, ev: ClickEvent)
    requires Idle(s) && ev.textSelection == ""
    ensures var c := Configure(PlainBinding(Some(id)));
      Stuck(OnTimer(c, OnClick(c, s, ev)))
  {
  }

  /**
   * One click window from idle: any number n >= 1 of clicks followed by the timer schedules exactly
   * one timer and calls the single handler iff n == 1 and the double one otherwise, each with the
   * first click's event. Text selection is back on; the binding is idle if the call returned and
   * stuck if it threw.
   */
  lemma {:induction false} ClickWindow(c: Config, s: ClickState, evs: seq<ClickEvent>)
    requires Idle(s) && evs != [] && NoTextSelection(evs)
    ensures OnClicks(c, s, evs).pending == Some(evs[0].id)
    ensures var t := OnTimer(c, OnClicks(c, s, evs));
      var h := if |evs| == 1 then c.single else c.double;
      (Returns(h) ==> Idle(t)) && (!Returns(h) ==> Stuck(t)) && t.userSelect == AutoSelect &&
      t.scheduled == s.scheduled + [c.delay] &&
      t.calls == s.calls + (if h.Some? then [Call(h.value, evs[0].id)] else [])
  {
    var first := OnClick(c, s, evs[0]);
    LaterClicksOnlyCount(c, first, evs[1..]);
  }

  /** An element bound with `singleOrDoubleClick`. */
  class SingleOrDoubleClickBinding {
    const config: Config
    var clicks: nat
    var pending: Option<nat>
    var userSelect: UserSelect
    var scheduled: seq<int>
    var calls: seq<Call>

    function State(): (r: ClickState)
      reads this
    {
      ClickState(clicks, pending, userSelect, scheduled, calls)
    }

    ghost predicate Valid()
      reads this
    {
      Consistent(State()) || Stuck(State())
    }

    /** `init`: derive the configuration from the binding value; nothing has been clicked yet. */
    constructor (value: BindingValue)
      ensures Valid() && config == Configure(value)
      ensures State() == ClickState(0, None, Unstyled, [], [])
    {
      config := Configure(value);
      clicks, pending, userSelect, scheduled, calls := 0, None, Unstyled, [], [];
    }

    method Click(ev: ClickEvent)
      requires Valid()
      modifies this
      ensures Valid()
      ensures State() == OnClick(config, old(State()), ev)
    {
      if ev.textSelection != "" {
        return;
      }
      clicks := clicks + 1;
      if clicks == 1 {
        userSelect := NoneSelect;
        pending := Some(ev.id);
        scheduled := scheduled + [config.delay];
      }
    }

    /**
     * The callback given to `setTimeout`; it can only run while a timer is pending. After a call that
     * throws the binding is stuck, and `Click` only counts from then on.
     */
    method TimerFires()
      requires Valid() && pending.Some?
      modifies this
      ensures Valid()
      ensures State() == OnTimer(config, old(State()))
    {
      userSelect := AutoSelect;
      var event := pending.value;
      pending := None;
      var handler := if clicks == 1 then config.single else config.double;
      if handler.Some? {
        calls := calls + [Call(handler.value, event)];
        if !handler.value.completes {
          // The call throws: the rest of the callback, the reset, never runs.
          return;
        }
      }
      clicks := 0;
    }
  }
}
