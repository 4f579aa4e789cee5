/**
 * The event map `okCancelEvents` installs on an inline text input: it listens
 * to `keyup`, `keydown` and `focusout` and turns each event into a call of
 * the field's `ok` callback, of its `cancel` callback, or of neither.
 */
module EditEvents {

  /** The three DOM event types the map is registered for. */
  datatype EventKind = KeyUp | KeyDown | FocusOut

  const EscapeKey: int := 27
  const EnterKey: int := 13

  /** Which callback one event invokes; `Ok` carries the text it is given. */
  datatype Outcome = Ok(text: string) | Cancel | Ignore

  /** Escape pressed down. */
  predicate IsEscape(kind: EventKind, which: int)
  {
    kind == KeyDown && which == EscapeKey
  }

  /** Enter released, or the input losing focus. */
  predicate IsSubmit(kind: EventKind, which: int)
  {
    (kind == KeyUp && which == EnterKey) || kind == FocusOut
  }

  /**
   * The handler of the event map for an event of type `kind` with key code
   * `which` on an input whose current text is `value`.
   */
  function Classify(kind: EventKind, which: int, value: string): (o: Outcome)
    // escape cancels, whatever the text
    ensures IsEscape(kind, which) ==> o == Cancel
    // ok is called exactly on a submit with non-empty text, and with that text
    ensures o.Ok? <==> IsSubmit(kind, which) && value != ""
    ensures o.Ok? ==> o.text == value && o.text != ""
    // a submit of the empty text cancels
    ensures o == Cancel <==> IsEscape(kind, which) || (IsSubmit(kind, which) && value == "")
    // every other event calls neither callback
    ensures o == Ignore <==> !IsEscape(kind, which) && !IsSubmit(kind, which)
  {
    if kind == KeyDown && which == EscapeKey then Cancel
    else if (kind == KeyUp && which == EnterKey) || kind == FocusOut then
      if value != "" then Ok(value) else Cancel
    else Ignore
  }
}
