/**
 * Pointer-event normalisation (pointer.js).
 *
 * A raw mouse event or touch event becomes a `PointerFrame`: the pointers the
 * event concerns, each with an id and a position, plus the state of the
 * control key. Positions are the event's client coordinates, passed through
 * unchanged; no element offset is subtracted.
 */
module PointerEvents {
  import opened Wrappers
  import opened Decimal

  /** The two-element `[x, y]` array of the source. */
  datatype Position = Position(x: int, y: int)

  datatype Pointer = Pointer(id: string, position: Position)

  datatype PointerFrame = PointerFrame(pointers: seq<Pointer>, ctrlDown: bool)

  /** The fields of a DOM mouse event that the normaliser reads. */
  datatype MouseEvent = MouseEvent(clientX: int, clientY: int, ctrlKey: bool)

  /** One touch contact: its platform identifier and client coordinates. */
  datatype Touch = Touch(identifier: nat, clientX: int, clientY: int)

  /**
   * A DOM touch event: every active contact (`touches`), the contacts whose
   * state changed in this event (`changedTouches`), and the control key.
   */
  datatype TouchEvent = TouchEvent(touches: seq<Touch>, changedTouches: seq<Touch>, ctrlKey: bool)

  /** The id every mouse pointer carries. */
  const MouseId: string := "mouse"

  // ---------------------------------------------------------------- mouse

  function ParseMouseEvent(e: MouseEvent): PointerFrame {
    PointerFrame([Pointer(MouseId, Position(e.clientX, e.clientY))], e.ctrlKey)
  }

  /** Reads a mouse event back out of a frame; `None` unless the frame is a single mouse pointer. */
  function MouseEventOf(f: PointerFrame): (r: Option<MouseEvent>)
    ensures r.Some? <==> |f.pointers| == 1 && f.pointers[0].id == MouseId
  {
    if |f.pointers| == 1 && f.pointers[0].id == MouseId then
      Some(MouseEvent(f.pointers[0].position.x, f.pointers[0].position.y, f.ctrlDown))
    else
      None
  }

  /**
   * A mouse frame holds exactly one pointer, with id "mouse", at the event's
   * client position, and copies the control key; and it loses nothing:
   * `MouseEventOf` recovers the event from exactly the frame `ParseMouseEvent` gives.
   */
  lemma MouseFrameRoundTrip(e: MouseEvent, f: PointerFrame)
    ensures |ParseMouseEvent(e).pointers| == 1
    ensures ParseMouseEvent(e).pointers[0].id == MouseId
    ensures ParseMouseEvent(e).pointers[0].position == Position(e.clientX, e.clientY)
    ensures ParseMouseEvent(e).ctrlDown == e.ctrlKey
    ensures MouseEventOf(f) == Some(e) <==> ParseMouseEvent(e) == f
  {
  }

  // ---------------------------------------------------------------- touch

  function ParseTouch(t: Touch): Pointer {
    Pointer(NatToString(t.identifier), Position(t.clientX, t.clientY))
  }

  /** Reads a touch back out of a pointer; `None` when the id is not a canonical decimal number. */
  function TouchOf(p: Pointer): (r: Option<Touch>)
    ensures r.Some? <==> IsCanonical(p.id)
  {
    match ParseNat(p.id)
    case None => None
    case Some(n) => Some(Touch(n, p.position.x, p.position.y))
  }

  /**
   * A touch pointer's id is the decimal rendering of the identifier and its
   * position the client coordinates; `TouchOf` inverts `ParseTouch` exactly.
   */
  lemma TouchPointerRoundTrip(t: Touch, p: Pointer)
    ensures ParseTouch(t).id == NatToString(t.identifier)
    ensures ParseTouch(t).position == Position(t.clientX, t.clientY)
    ensures TouchOf(p) == Some(t) <==> ParseTouch(t) == p
  {
    ParseNatIsInverse(t.identifier, p.id);
  }

  /** A touch pointer's id is non-empty and never the mouse id. */
  lemma TouchIdIsNotMouse(t: Touch)
    ensures |ParseTouch(t).id| >= 1
    ensures ParseTouch(t).id != MouseId
  {
  }

  /** Two touches give the same pointer exactly when they are the same touch. */
  lemma ParseTouchInjective(t: Touch, u: Touch)
    ensures ParseTouch(t) == ParseTouch(u) <==> t == u
    ensures ParseTouch(t).id == ParseTouch(u).id <==> t.identifier == u.identifier
  {
    NatToStringInjective(t.identifier, u.identifier);
  }

  /** What `parseTouchEvent` promises of its frame. */
  predicate IsTouchFrameOf(e: TouchEvent, f: PointerFrame) {
    && |f.pointers| == |e.changedTouches|
    && (forall i :: 0 <= i < |f.pointers| ==> f.pointers[i] == ParseTouch(e.changedTouches[i]))
    && f.ctrlDown == e.ctrlKey
  }

  /**
   * One pointer per changed touch, in input order, none dropped and none
   * added; the control key is copied.
   */
  method ParseTouchEvent(e: TouchEvent) returns (f: PointerFrame)
    ensures |f.pointers| == |e.changedTouches|
    ensures forall i :: 0 <= i < |f.pointers| ==> f.pointers[i] == ParseTouch(e.changedTouches[i])
    ensures f.ctrlDown == e.ctrlKey
  {
    var pointers: seq<Pointer> := [];
    for k := 0 to |e.changedTouches|
      invariant |pointers| == k
      invariant forall i :: 0 <= i < k ==> pointers[i] == ParseTouch(e.changedTouches[i])
    {
      pointers := pointers + [ParseTouch(e.changedTouches[k])];
    }
    f := PointerFrame(pointers, e.ctrlKey);
  }

  predicate DistinctIds(ps: seq<Pointer>) {
    forall i, j :: 0 <= i < j < |ps| ==> ps[i].id != ps[j].id
  }

  predicate DistinctIdentifiers(ts: seq<Touch>) {
    forall i, j :: 0 <= i < j < |ts| ==> ts[i].identifier != ts[j].identifier
  }

  /**
   * A touch frame's ids are pairwise distinct exactly when the changed
   * touches' identifiers are, and none of them is the mouse id.
   */
  lemma TouchFrameIds(e: TouchEvent, f: PointerFrame)
    requires IsTouchFrameOf(e, f)
    ensures DistinctIds(f.pointers) <==> DistinctIdentifiers(e.changedTouches)
    ensures forall i :: 0 <= i < |f.pointers| ==> |f.pointers[i].id| >= 1 && f.pointers[i].id != MouseId
  {
    var ts := e.changedTouches;
    forall i, j | 0 <= i < j < |ts|
      ensures f.pointers[i].id == f.pointers[j].id <==> ts[i].identifier == ts[j].identifier
    {
      ParseTouchInjective(ts[i], ts[j]);
    }
    forall i | 0 <= i < |f.pointers|
      ensures |f.pointers[i].id| >= 1 && f.pointers[i].id != MouseId
    {
      TouchIdIsNotMouse(ts[i]);
    }
  }

  /**
   * Two touch frames are equal exactly when their events agree on the changed
   * touches and the control key: the frame ignores the other active touches
   * and loses nothing of the changed ones.
   */
  lemma TouchFrameDependsOnChangedTouches(e: TouchEvent, f: PointerFrame, d: TouchEvent, g: PointerFrame)
    requires IsTouchFrameOf(e, f) && IsTouchFrameOf(d, g)
    ensures f == g <==> e.changedTouches == d.changedTouches && e.ctrlKey == d.ctrlKey
  {
    if f == g {
      forall i | 0 <= i < |e.changedTouches|
        ensures e.changedTouches[i] == d.changedTouches[i]
      {
        ParseTouchInjective(e.changedTouches[i], d.changedTouches[i]);
      }
    }
    if e.changedTouches == d.changedTouches && e.ctrlKey == d.ctrlKey {
      assert f.pointers == g.pointers;
    }
  }

  /** Every pointer of a touch frame reads back as the changed touch it came from. */
  lemma TouchFrameRecoversTouches(e: TouchEvent, f: PointerFrame)
    requires IsTouchFrameOf(e, f)
    ensures forall i :: 0 <= i < |f.pointers| ==> TouchOf(f.pointers[i]) == Some(e.changedTouches[i])
  {
    forall i | 0 <= i < |f.pointers|
      ensures TouchOf(f.pointers[i]) == Some(e.changedTouches[i])
    {
      TouchPointerRoundTrip(e.changedTouches[i], f.pointers[i]);
    }
  }
}
