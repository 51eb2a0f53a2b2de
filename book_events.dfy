/** The registry of a book's own events (Book.js:2153-2174, 2201-2208, 2242-2254).
    `addEventListener` splits its event string at spaces and registers every
    book-event name it finds; `removeEventListener` drops a name's registrations, or
    only those of one handler; `#executeBookEvent` calls the book's `on<event>`
    property first and then every handler registered for the event, in
    registration order. Names that are not book events go to jQuery-bound DOM
    listeners, which are not part of this model. */
module BookEvents {
  import opened Wrappers
  import opened JsStrings

  /** `#bookEvents` (Book.js:74) */
  const BookEventNames: seq<string> :=
    ["bookreset", "pagechange", "bookend", "bookresize", "entereink", "enterscroll", "bookstart", "visible", "hidden"]

  /** A handler function, by identity. */
  type HandlerId = nat

  type Registration = (string, HandlerId)

  /** The registrations `addEventListener(names joined by " ", h)` appends. */
  function Registered(names: seq<string>, h: HandlerId): (r: seq<Registration>)
    ensures forall i :: 0 <= i < |r| ==> r[i].1 == h && r[i].0 in BookEventNames && r[i].0 in names
  {
    if names == [] then []
    else
      var last := names[|names| - 1];
      Registered(names[..|names| - 1], h) + if last in BookEventNames then [(last, h)] else []
  }

  /** Whether `removeEventListener(name, h)` drops the registration `p`. */
  predicate Drops(p: Registration, name: string, h: Option<HandlerId>) {
    p.0 == name && (h.None? || p.1 == h.value)
  }

  /** `#eventHandlers.filter(...)` for one name; a name that is not a book event drops
      nothing. */
  function Without(hs: seq<Registration>, name: string, h: Option<HandlerId>): (r: seq<Registration>)
    ensures |r| <= |hs|
    ensures forall i :: 0 <= i < |r| ==> r[i] in hs && (name in BookEventNames ==> !Drops(r[i], name, h))
    ensures forall i :: 0 <= i < |hs| ==> (hs[i] in r || (name in BookEventNames && Drops(hs[i], name, h)))
  {
    if hs == [] then []
    else
      var last := hs[|hs| - 1];
      var init := Without(hs[..|hs| - 1], name, h);
      if name in BookEventNames && Drops(last, name, h) then init else init + [last]
  }

  /** Every name of the list removed in turn. */
  function WithoutAll(hs: seq<Registration>, names: seq<string>, h: Option<HandlerId>): seq<Registration> {
    if names == [] then hs
    else Without(WithoutAll(hs, names[..|names| - 1], h), names[|names| - 1], h)
  }

  /** The handlers registered for `event`, in registration order. */
  function HandlersFor(hs: seq<Registration>, event: string): (r: seq<HandlerId>)
    ensures |r| <= |hs|
    ensures forall i :: 0 <= i < |r| ==> (event, r[i]) in hs
  {
    if hs == [] then []
    else
      var last := hs[|hs| - 1];
      HandlersFor(hs[..|hs| - 1], event) + if last.0 == event then [last.1] else []
  }

  lemma {:induction false} HandlersForAppend(hs: seq<Registration>, more: seq<Registration>, event: string)
    ensures HandlersFor(hs + more, event) == HandlersFor(hs, event) + HandlersFor(more, event)
    decreases |more|
  {
    if more == [] {
      assert hs + more == hs;
    } else {
      var init := more[..|more| - 1];
      HandlersForAppend(hs, init, event);
      assert (hs + more)[..|hs + more| - 1] == hs + init;
    }
  }

  /** `h` with every copy of `x` taken out. */
  function Remove(s: seq<HandlerId>, x: HandlerId): seq<HandlerId> {
    if s == [] then []
    else Remove(s[..|s| - 1], x) + if s[|s| - 1] == x then [] else [s[|s| - 1]]
  }

  /** One step of `Without`, spelled out. */
  lemma WithoutStep(hs: seq<Registration>, name: string, h: Option<HandlerId>)
    requires hs != [] && name in BookEventNames
    ensures var last := hs[|hs| - 1];
      Without(hs, name, h) == Without(hs[..|hs| - 1], name, h) + if Drops(last, name, h) then [] else [last]
  {
  }

  /** Removing a book event's registrations leaves the handlers of every other
      event as they were. */
  lemma {:induction false} HandlersAfterRemoveOther(hs: seq<Registration>, name: string, h: Option<HandlerId>, event: string)
    requires name in BookEventNames && event != name
    ensures HandlersFor(Without(hs, name, h), event) == HandlersFor(hs, event)
    decreases |hs|
  {
    if hs != [] {
      var init := hs[..|hs| - 1];
      var last := hs[|hs| - 1];
      HandlersAfterRemoveOther(init, name, h, event);
      WithoutStep(hs, name, h);
      HandlersForAppend(Without(init, name, h), if Drops(last, name, h) then [] else [last], event);
    }
  }

  /** Removing a book event without naming a handler leaves it no handler. */
  lemma {:induction false} HandlersAfterRemoveAll(hs: seq<Registration>, name: string)
    requires name in BookEventNames
    ensures HandlersFor(Without(hs, name, None), name) == []
    decreases |hs|
  {
    if hs != [] {
      var init := hs[..|hs| - 1];
      var last := hs[|hs| - 1];
      HandlersAfterRemoveAll(init, name);
      WithoutStep(hs, name, None);
      HandlersForAppend(Without(init, name, None), if Drops(last, name, None) then [] else [last], name);
    }
  }

  /** Removing one handler from a book event takes exactly that handler out of
      the event's handlers, keeping the order of the others. */
  lemma {:induction false} HandlersAfterRemoveOne(hs: seq<Registration>, name: string, h: HandlerId)
    requires name in BookEventNames
    ensures HandlersFor(Without(hs, name, Some(h)), name) == Remove(HandlersFor(hs, name), h)
    decreases |hs|
  {
    if hs != [] {
      var init := hs[..|hs| - 1];
      var last := hs[|hs| - 1];
      HandlersAfterRemoveOne(init, name, h);
      WithoutStep(hs, name, Some(h));
      HandlersForAppend(Without(init, name, Some(h)), if Drops(last, name, Some(h)) then [] else [last], name);
      var before := HandlersFor(init, name);
      if last.0 == name {
        assert HandlersFor(hs, name) == before + [last.1];
        assert (before + [last.1])[..|before|] == before;
      } else {
        assert HandlersFor(hs, name) == before;
      }
    }
  }

  /** Registering `h` for a book event and removing that handler from the event
      again leaves the registry as removing it alone does; when `h` was not
      registered for it, that is the registry before. */
  lemma {:induction false} AddThenRemove(hs: seq<Registration>, name: string, h: HandlerId)
    requires name in BookEventNames
    ensures Without(hs + [(name, h)], name, Some(h)) == Without(hs, name, Some(h))
    ensures (name, h) !in hs ==> Without(hs, name, Some(h)) == hs
  {
    assert (hs + [(name, h)])[..|hs|] == hs;
    if (name, h) !in hs {
      WithoutNothing(hs, name, h);
    }
  }

  lemma {:induction false} WithoutNothing(hs: seq<Registration>, name: string, h: HandlerId)
    requires (name, h) !in hs
    ensures Without(hs, name, Some(h)) == hs
    decreases |hs|
  {
    if hs != [] {
      var init := hs[..|hs| - 1];
      assert forall p :: p in init ==> p in hs;
      WithoutNothing(init, name, h);
      assert hs[|hs| - 1] in hs;
      assert init + [hs[|hs| - 1]] == hs;
    }
  }

  /** A single book-event name registers exactly once. */
  lemma RegisterOne(name: string, h: HandlerId)
    requires name in BookEventNames && ' ' !in name
    ensures Registered(Split(name, ' '), h) == [(name, h)]
  {
    assert Split(name, ' ') == [name];
    assert [name][..0] == [];
  }

  /** A book's event registry. */
  class EventRegistry {
    var handlers: seq<Registration>

    constructor()
      ensures handlers == []
    {
      handlers := [];
    }

    /** `addEventListener(event, handler)` */
    method AddEventListener(event: string, h: HandlerId)
      modifies this
      ensures handlers == old(handlers) + Registered(Split(event, ' '), h)
    {
      var events := Split(event, ' ');
      var i := 0;
      while i < |events|
        invariant 0 <= i <= |events|
        invariant handlers == old(handlers) + Registered(events[..i], h)
      {
        assert events[..i + 1][..i] == events[..i];
        if events[i] in BookEventNames {
          handlers := handlers + [(events[i], h)];
        }
        i := i + 1;
      }
      assert events[..i] == events;
    }

    /** `removeEventListener(event, handler)`; an empty or missing `event` only
        detaches the DOM listeners. */
    method RemoveEventListener(event: string, h: Option<HandlerId>)
      modifies this
      ensures event == "" ==> handlers == old(handlers)
      ensures event != "" ==> handlers == WithoutAll(old(handlers), Split(event, ' '), h)
    {
      if event == "" {
        return;
      }
      var events := Split(event, ' ');
      var i := 0;
      while i < |events|
        invariant 0 <= i <= |events|
        invariant handlers == WithoutAll(old(handlers), events[..i], h)
      {
        assert events[..i + 1][..i] == events[..i];
        assert WithoutAll(old(handlers), events[..i + 1], h) == Without(WithoutAll(old(handlers), events[..i], h), events[i], h);
        handlers := Without(handlers, events[i], h);
        i := i + 1;
      }
      assert events[..i] == events;
    }

    /** `#executeBookEvent(event)`: the handlers called, in order; `onProperty` is the
        book's `on<event>` property, if set. */
    method ExecuteBookEvent(event: string, onProperty: Option<HandlerId>) returns (called: seq<HandlerId>)
      ensures called == (if onProperty.Some? then [onProperty.value] else []) + HandlersFor(handlers, event)
    {
      called := if onProperty.Some? then [onProperty.value] else [];
      ghost var first := called;
      var i := 0;
      while i < |handlers|
        invariant 0 <= i <= |handlers|
        invariant called == first + HandlersFor(handlers[..i], event)
      {
        assert handlers[..i + 1][..i] == handlers[..i];
        if handlers[i].0 == event {
          called := called + [handlers[i].1];
        }
        i := i + 1;
      }
      assert handlers[..i] == handlers;
    }
  }
}
