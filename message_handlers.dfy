/** The window procedure's dispatch table: a DefaultMap from message
    identifier to handler whose default is the handler that passes the
    message to the default window procedure. */
module MessageHandlers {
  import opened Options
  import opened DefaultMaps
  import opened DeviceEvents

  /** Window message identifiers (winuser.h). */
  const WmDestroy: nat := 0x0002
  const WmClose: nat := 0x0010
  const WmDeviceChange: nat := 0x0219

  /** The four handlers the program defines. */
  datatype Handler = DefaultHandler | DeviceChangeHandler | CloseHandler | DestroyHandler

  /** What running a handler does to the window besides printing. */
  datatype Effect = NoEffect | DestroyWindow | PostQuitMessage

  /** What a handler answers: the default window procedure's answer, or 0. */
  datatype Reply = DefaultProcessing | Zero

  datatype Outcome = Outcome(reply: Reply, effect: Effect, notice: Option<Notice>)

  /** Running a handler on a message's WPARAM and broadcast. */
  function Run(h: Handler, wParam: nat, b: Broadcast): Outcome {
    match h
    case DefaultHandler => Outcome(DefaultProcessing, NoEffect, None)
    case DeviceChangeHandler => Outcome(DefaultProcessing, NoEffect, OnDeviceChange(wParam, b))
    case CloseHandler => Outcome(Zero, DestroyWindow, None)
    case DestroyHandler => Outcome(Zero, PostQuitMessage, None)
  }

  /** The routing the program means to set up: three messages have their own
      handler, every other message goes to the default one. */
  function Route(msg: nat): Handler {
    if msg == WmDeviceChange then DeviceChangeHandler
    else if msg == WmClose then CloseHandler
    else if msg == WmDestroy then DestroyHandler
    else DefaultHandler
  }

  /** Under that routing, a close request destroys the window, a destroy
      posts the quit message, a device change is described by the
      device-change handler, and nothing else has an effect or is answered
      other than by the default window procedure. */
  lemma RouteOutcome(msg: nat, wParam: nat, b: Broadcast)
    ensures Run(Route(msg), wParam, b).effect == DestroyWindow <==> msg == WmClose
    ensures Run(Route(msg), wParam, b).effect == PostQuitMessage <==> msg == WmDestroy
    ensures Run(Route(msg), wParam, b).reply == Zero <==> msg == WmClose || msg == WmDestroy
    ensures Run(Route(msg), wParam, b).notice ==
              if msg == WmDeviceChange then OnDeviceChange(wParam, b) else None
  {
  }

  /** initMessageHandlers: binds the device-change, close and destroy
      messages, in that order. Bindings already present are kept, so running
      it a second time changes nothing. */
  method InitMessageHandlers(handlers: DefaultMap<nat, Handler>)
    modifies handlers
    ensures handlers.defaultValue == old(handlers.defaultValue)
    ensures handlers.bindings ==
              Insert(Insert(Insert(old(handlers.bindings), WmDeviceChange, DeviceChangeHandler),
                            WmClose, CloseHandler), WmDestroy, DestroyHandler)
    ensures forall msg :: msg in old(handlers.bindings) ==>
              handlers.Lookup(msg) == old(handlers.bindings)[msg]
    ensures old(handlers.bindings) == map[] ==>
              forall msg :: handlers.Lookup(msg) ==
                if Route(msg) == DefaultHandler then old(handlers.defaultValue) else Route(msg)
  {
    handlers.Set(WmDeviceChange, DeviceChangeHandler);
    handlers.Set(WmClose, CloseHandler);
    handlers.Set(WmDestroy, DestroyHandler);
  }

  /** The table as the program builds it at start-up: declared with the
      default handler, then initialised. It then routes every message as
      Route says. */
  method StartMessageHandlers() returns (handlers: DefaultMap<nat, Handler>)
    ensures fresh(handlers)
    ensures forall msg :: handlers.Lookup(msg) == Route(msg)
  {
    handlers := new DefaultMap(DefaultHandler);
    InitMessageHandlers(handlers);
  }

  /** windowHandler: looks the message up in the table and runs the handler
      found there; the lookup leaves the table as it was. */
  method WindowHandler(handlers: DefaultMap<nat, Handler>, msg: nat, wParam: nat, b: Broadcast)
    returns (outcome: Outcome)
    ensures outcome == Run(handlers.Lookup(msg), wParam, b)
  {
    var handler := handlers.Get(msg);
    outcome := Run(handler, wParam, b);
  }
}
