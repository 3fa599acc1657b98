/** The button handler of the form UI (ui_framework/form_handler_button.py):
    how a button is drawn, and the key loop that ends on tab, resize,
    newline or carriage return and presses an enabled button on the
    latter two. Keys arrive as a sequence instead of from `getch`. */
module FormButton {
  import opened Wrappers
  import opened Text

  /** `curses.KEY_RESIZE` (octal 0632 in ncurses). */
  const KeyResize: int := 410
  /** `curses.ascii.TAB`, `NL` and `CR`. */
  const Tab: int := 9
  const Newline: int := 10
  const CarriageReturn: int := 13
  /** `curses.A_STANDOUT` (bit 16 in ncurses). */
  const Standout: int := 0x1_0000
  /** The colour a disabled button is drawn in. */
  const DisabledColor: int := 8

  /** The parts of a `FieldButton` the handler reads and writes. */
  datatype Field = Field(text: string, color: int, disabled: bool, pressed: bool)

  /** A `CursesLinePart`: column, text, colour and attribute. */
  datatype LinePart = LinePart(column: int, text: string, color: int, decoration: int)

  datatype FormError = RuntimeError | IndexError

  /** `populate`: the one line part the button is drawn with. Without UI
      colour the text is upper-cased inside brackets. */
  function Populate(field: Option<Field>, uiColor: bool): (r: Result<LinePart, FormError>)
    ensures r.Failure? <==> field.None?
    ensures r.Failure? ==> r.error == RuntimeError
    ensures r.Success? ==> r.value.column == 0 && r.value.decoration == Standout
    ensures r.Success? ==> (r.value.color == DisabledColor || r.value.color == field.value.color)
    ensures r.Success? && field.value.disabled ==> r.value.color == DisabledColor
    ensures r.Success? && !field.value.disabled ==> r.value.color == field.value.color
    ensures r.Success? && uiColor ==> r.value.text == field.value.text
    ensures r.Success? && !uiColor ==>
              && |r.value.text| == |field.value.text| + 2
              && r.value.text[0] == '[' && r.value.text[|r.value.text| - 1] == ']'
              && r.value.text[1..|r.value.text| - 1] == Upper(field.value.text)
  {
    match field
    case None => Failure(RuntimeError)
    case Some(f) =>
      var color := if f.disabled then DisabledColor else f.color;
      var text := if !uiColor then "[" + Upper(f.text) + "]" else f.text;
      Success(LinePart(0, text, color, Standout))
  }

  /** Being pressed does not change how a button is drawn. */
  lemma PopulateIgnoresPressed(f: Field, pressed: bool, uiColor: bool)
    ensures Populate(Some(f.(pressed := pressed)), uiColor) == Populate(Some(f), uiColor)
  {
  }

  /** Python's `form_fields[idx]`: a negative index counts from the end. */
  function Resolve(idx: int, n: nat): (r: Option<nat>)
    ensures r.Some? <==> -(n as int) <= idx < n
    ensures r.Some? ==> r.value < n && (r.value == idx || r.value == idx + n)
  {
    if 0 <= idx < n then Some(idx)
    else if -(n as int) <= idx < 0 then Some(idx + n)
    else None
  }

  /** A key that ends the loop. */
  predicate EndsLoop(key: int) {
    key == KeyResize || key == Tab || key == Newline || key == CarriageReturn
  }

  /** A key that ends the loop and presses an enabled button. */
  predicate Presses(key: int) {
    key == Newline || key == CarriageReturn
  }

  /** The result of `handle`: the field (updated), the key that ended the
      loop, the list of fields (the field is updated in place there too),
      and what `populate` drew. `Waiting` is a loop still blocked in
      `getch` when the keys run out. */
  datatype Handled =
    | Handled(field: Field, key: int, fields: seq<Field>, drawn: LinePart)
    | Waiting(fields: seq<Field>, drawn: LinePart)

  /** The `getch` loop: the position of the first key that ends it, or
      `None` when no key does. */
  method AwaitEndKey(keys: seq<int>) returns (at: Option<nat>)
    ensures at.None? ==> forall j :: 0 <= j < |keys| ==> !EndsLoop(keys[j])
    ensures at.Some? ==>
              at.value < |keys| && EndsLoop(keys[at.value])
              && forall j :: 0 <= j < at.value ==> !EndsLoop(keys[j])
  {
    var j := 0;
    while j < |keys|
      invariant 0 <= j <= |keys|
      invariant forall k :: 0 <= k < j ==> !EndsLoop(keys[k])
    {
      var key := keys[j];
      if key in [KeyResize, Tab] {
        return Some(j);
      }
      if key in [Newline, CarriageReturn] {
        return Some(j);
      }
      j := j + 1;
    }
    return None;
  }

  /** The field after the key that ended the loop: newline and carriage
      return press it unless it is disabled. */
  function AfterKey(field: Field, key: int): (f: Field)
    ensures f.text == field.text && f.color == field.color && f.disabled == field.disabled
    ensures f.pressed <==> field.pressed || (Presses(key) && !field.disabled)
  {
    if Presses(key) && !field.disabled then field.(pressed := true) else field
  }

  /** `handle`. */
  method Handle(idx: int, fields: seq<Field>, keys: seq<int>, uiColor: bool) returns (r: Result<Handled, FormError>)
    ensures r.Failure? <==> Resolve(idx, |fields|).None?
    ensures r.Failure? ==> r.error == IndexError
    ensures r.Success? ==>
              var i := Resolve(idx, |fields|).value;
              r.value.drawn == Populate(Some(fields[i]), uiColor).value
    ensures r.Success? && r.value.Waiting? ==>
              r.value.fields == fields && forall j :: 0 <= j < |keys| ==> !EndsLoop(keys[j])
    ensures r.Success? && r.value.Handled? ==>
              var i := Resolve(idx, |fields|).value;
              && EndsLoop(r.value.key)
              && (exists j :: 0 <= j < |keys| && keys[j] == r.value.key
                               && forall k :: 0 <= k < j ==> !EndsLoop(keys[k]))
              && r.value.field == AfterKey(fields[i], r.value.key)
              && r.value.fields == fields[i := r.value.field]
  {
    var resolved := Resolve(idx, |fields|);
    if resolved.None? {
      return Failure(IndexError);
    }
    var i := resolved.value;
    var field := fields[i];
    var drawn := Populate(Some(field), uiColor);
    var at := AwaitEndKey(keys);
    if at.None? {
      return Success(Waiting(fields, drawn.value));
    }
    var key := keys[at.value];
    field := AfterKey(field, key);
    return Success(Handled(field, key, fields[i := field], drawn.value));
  }

  /** A disabled button is never pressed by its handler, and tab or resize
      never press any button. */
  lemma HandleNeverPresses(f: Field, key: int)
    requires f.disabled || !Presses(key)
    ensures AfterKey(f, key) == f
  {
  }
}
