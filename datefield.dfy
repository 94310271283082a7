/**
 * The client-side date field of the web toolkit (`CubaDateFieldWidget`):
 * clamping a date into its optional range, autofilling "__" placeholders of
 * a partly typed date from today's formatted date, and the edit/revert rule
 * run when the text changes.
 *
 * Dates are integers (instants); the date service's parsing and formatting are
 * functions passed in, with parsing giving None where the service throws.
 */
module DateField {
  import opened Wrappers
  import opened JavaStrings

  // ---------------------------------------------------------------------------
  // Range clamping

  predicate InRange(date: int, rangeStart: Option<int>, rangeEnd: Option<int>) {
    (rangeStart.Some? ==> rangeStart.value <= date) && (rangeEnd.Some? ==> date <= rangeEnd.value)
  }

  /** `adjustDateByRange`: the start bound is checked first, then the end bound. */
  function AdjustDateByRange(date: int, rangeStart: Option<int>, rangeEnd: Option<int>): (r: int)
    ensures r == date || Some(r) == rangeStart || Some(r) == rangeEnd
    ensures InRange(date, rangeStart, rangeEnd) ==> r == date
    ensures rangeStart.Some? && rangeEnd.Some? && rangeStart.value <= rangeEnd.value ==>
      rangeStart.value <= r <= rangeEnd.value
    ensures rangeStart.Some? && rangeStart.value > date ==> r == rangeStart.value
    ensures rangeEnd.Some? && rangeEnd.value < date && (rangeStart.None? || rangeStart.value <= date) ==>
      r == rangeEnd.value
  {
    if rangeStart.None? && rangeEnd.None? then date
    else if rangeStart.Some? && date < rangeStart.value then rangeStart.value
    else if rangeEnd.Some? && date > rangeEnd.value then rangeEnd.value
    else date
  }

  /** Clamping a clamped date into a consistent range changes nothing. */
  lemma AdjustIsIdempotent(date: int, rangeStart: Option<int>, rangeEnd: Option<int>)
    requires rangeStart.Some? && rangeEnd.Some? ==> rangeStart.value <= rangeEnd.value
    ensures var once := AdjustDateByRange(date, rangeStart, rangeEnd);
            AdjustDateByRange(once, rangeStart, rangeEnd) == once
  {
  }

  /** `parseRangeString`: null or "" clear the bound; anything else is parsed as yyyy-MM-dd. */
  function ParseRangeString(dateStr: Option<string>, parse: string -> Option<int>): (r: Result<Option<int>, FillError>)
    ensures IsEmpty(dateStr) ==> r == Ok(None)
    ensures !IsEmpty(dateStr) ==> (r.Ok? <==> parse(dateStr.value).Some?)
    ensures !IsEmpty(dateStr) && r.Ok? ==> r.value == parse(dateStr.value)
  {
    if IsEmpty(dateStr) then Ok(None)
    else
      match parse(dateStr.value)
      case None => Err(UnparsableDate)
      case Some(d) => Ok(Some(d))
  }

  // ---------------------------------------------------------------------------
  // Autofill

  datatype FillError =
    | DateTooShort      // `dateString.substring(index, index + 2)` out of bounds
    | UnparsableDate    // the date service throws while parsing

  /** A "__" pair starts at index `i` of `s`. */
  predicate PairAt(s: string, i: int) {
    0 <= i && i + 1 < |s| && s[i] == '_' && s[i + 1] == '_'
  }

  function Prepend(prefix: string, rest: Option<string>): Option<string> {
    match rest
    case None => None
    case Some(s) => Some(prefix + s)
  }

  /**
   * `value[i..]` with its "__" pairs, taken left to right, replaced by the
   * characters of `dateString` at the same index; None when a pair lies
   * beyond the end of `dateString`.
   */
  function FillFrom(value: string, dateString: string, i: nat): Option<string>
    requires i <= |value|
    decreases |value| - i
  {
    if i + 2 > |value| then Some(value[i..])
    else if PairAt(value, i) then
      if i + 2 <= |dateString| then Prepend(dateString[i..i + 2], FillFrom(value, dateString, i + 2)) else None
    else Prepend([value[i]], FillFrom(value, dateString, i + 1))
  }

  function Filled(value: string, dateString: string): Option<string> {
    FillFrom(value, dateString, 0)
  }

  /** No pair starts in `[lo, hi)`, so the fill copies that stretch. */
  lemma {:induction false} FillSkipsNoPair(value: string, dateString: string, lo: nat, hi: nat)
    requires lo <= hi <= |value|
    requires forall j :: lo <= j < hi ==> !PairAt(value, j)
    ensures FillFrom(value, dateString, lo) == Prepend(value[lo..hi], FillFrom(value, dateString, hi))
    decreases hi - lo
  {
    if lo < hi {
      FillSkipsNoPair(value, dateString, lo + 1, hi);
      if lo + 2 > |value| {
        assert hi == |value| && value[lo..] == value[lo..hi] + value[hi..];
      } else {
        assert value[lo..hi] == [value[lo]] + value[lo + 1..hi];
        PrependPrepend([value[lo]], value[lo + 1..hi], FillFrom(value, dateString, hi));
      }
    } else {
      assert value[lo..hi] == [];
      PrependEmpty(FillFrom(value, dateString, hi));
    }
  }

  lemma PrependEmpty(rest: Option<string>)
    ensures Prepend([], rest) == rest
  {
    if rest.Some? {
      assert [] + rest.value == rest.value;
    }
  }

  /**
   * The filled text has the value's length, changes only '_' characters, puts
   * the date's character at each changed index, and keeps no "__" pair.
   */
  lemma {:induction false} FilledShape(value: string, dateString: string, i: nat)
    requires i <= |value| && '_' !in dateString
    requires FillFrom(value, dateString, i).Some?
    ensures var r := FillFrom(value, dateString, i).value;
      |r| == |value| - i &&
      (forall k :: 0 <= k < |r| ==> r[k] == value[i + k] || (value[i + k] == '_' && i + k < |dateString| && r[k] == dateString[i + k])) &&
      (forall k :: 0 <= k < |r| ==> !PairAt(r, k))
    decreases |value| - i
  {
    if i + 2 <= |value| {
      var r := FillFrom(value, dateString, i).value;
      if PairAt(value, i) {
        FilledShape(value, dateString, i + 2);
        var rest := FillFrom(value, dateString, i + 2).value;
        assert r == dateString[i..i + 2] + rest;
        assert dateString[i] in dateString && dateString[i + 1] in dateString;
        assert forall k :: 0 <= k < |r| ==> !PairAt(r, k) by {
          forall k | 0 <= k < |r|
            ensures !PairAt(r, k)
          {
            if k >= 2 {
              assert !PairAt(rest, k - 2);
            }
          }
        }
      } else {
        FilledShape(value, dateString, i + 1);
        var rest := FillFrom(value, dateString, i + 1).value;
        assert r == [value[i]] + rest;
        assert forall k :: 0 <= k < |r| ==> !PairAt(r, k) by {
          forall k | 0 <= k < |r|
            ensures !PairAt(r, k)
          {
            if k >= 1 {
              assert !PairAt(rest, k - 1);
            } else if |rest| > 0 {
              assert r[1] == rest[0];
            }
          }
        }
      }
    }
  }

  /** A date string at least as long as the value always suffices; a failure means it is shorter. */
  lemma {:induction false} FilledFailsOnlyWhenDateIsShort(value: string, dateString: string, i: nat)
    requires i <= |value|
    ensures FillFrom(value, dateString, i).None? ==> |dateString| < |value|
    decreases |value| - i
  {
    if i + 2 <= |value| {
      if PairAt(value, i) {
        FilledFailsOnlyWhenDateIsShort(value, dateString, i + 2);
      } else {
        FilledFailsOnlyWhenDateIsShort(value, dateString, i + 1);
      }
    }
  }

  /**
   * One turn of the loop: the first "__" of the builder is the next pair of the
   * value; either the date is too short for it, or replacing it keeps the
   * loop's invariant with the replaced pair added to the done prefix.
   */
  lemma FillStep(value: string, dateString: string, builder: string, p: nat, index: int)
    requires '_' !in dateString
    requires p <= |builder| == |value| && builder[p..] == value[p..]
    requires Filled(value, dateString) == Prepend(builder[..p], FillFrom(value, dateString, p))
    requires index == IndexOf(builder, "__") && index != -1 && p <= index
    ensures index + 2 <= |value| && PairAt(value, index)
    ensures index + 2 > |dateString| ==> Filled(value, dateString) == None
    ensures index + 2 <= |dateString| ==>
              var after := builder[..index] + dateString[index..index + 2] + builder[index + 2..];
              |after| == |value| && after[index + 2..] == value[index + 2..] &&
              Filled(value, dateString) == Prepend(after[..index + 2], FillFrom(value, dateString, index + 2)) &&
              forall j :: 0 <= j < index + 2 ==> !OccursAt(after, "__", j)
  {
    NoPairBeforeIndex(builder, value, p, index);
    FillSkipsNoPair(value, dateString, p, index);
    assert builder[index..index + 2] == "__";
    assert builder[index] == builder[index..index + 2][0] && builder[index + 1] == builder[index..index + 2][1];
    assert value[index] == builder[p..][index - p] && value[index + 1] == builder[p..][index + 1 - p];
    assert PairAt(value, index);
    if index + 2 <= |dateString| {
      var chunk := dateString[index..index + 2];
      assert chunk[0] == dateString[index] && chunk[1] == dateString[index + 1];
      assert chunk[0] in dateString && chunk[1] in dateString;
      var after := builder[..index] + chunk + builder[index + 2..];
      assert after[..index + 2] == builder[..p] + value[p..index] + chunk by {
        assert builder[..index] == builder[..p] + builder[p..index];
        assert builder[p..index] == value[p..index];
      }
      PrependPrepend(builder[..p], value[p..index], Prepend(chunk, FillFrom(value, dateString, index + 2)));
      PrependPrepend(builder[..p] + value[p..index], chunk, FillFrom(value, dateString, index + 2));
      NoPairAfterReplacement(builder, after, index);
    }
  }

  /**
   * The StringBuilder loop of `fillValue`: replace the first "__" by the date's
   * characters at that index until none is left. `dateString` holds no '_',
   * which is what makes the loop end.
   */
  method FillPlaceholders(value: string, dateString: string) returns (r: Option<string>)
    requires '_' !in dateString
    ensures r == Filled(value, dateString)
  {
    var builder := value;
    var index := IndexOf(builder, "__");
    ghost var p := 0;
    PrependEmpty(Filled(value, dateString));
    while index != -1
      invariant 0 <= p <= |builder| == |value|
      invariant builder[p..] == value[p..]
      invariant Filled(value, dateString) == Prepend(builder[..p], FillFrom(value, dateString, p))
      invariant index == IndexOf(builder, "__")
      invariant index == -1 || p <= index
      decreases |builder| - p
    {
      FillStep(value, dateString, builder, p, index);
      if index + 2 > |dateString| {
        return None;
      }
      builder := builder[..index] + dateString[index..index + 2] + builder[index + 2..];
      p := index + 2;
      index := IndexOf(builder, "__");
    }
    NoPairBeforeIndex(builder, value, p, |value|);
    FillSkipsNoPair(value, dateString, p, |value|);
    assert FillFrom(value, dateString, |value|) == Some([]);
    assert value[p..|value|] + [] == value[p..];
    assert builder == builder[..p] + value[p..];
    r := Some(builder);
  }

  lemma PrependPrepend(a: string, b: string, rest: Option<string>)
    ensures Prepend(a, Prepend(b, rest)) == Prepend(a + b, rest)
  {
    if rest.Some? {
      assert a + (b + rest.value) == (a + b) + rest.value;
    }
  }

  /** Where the builder still equals the value, no occurrence found by indexOf means no pair. */
  lemma NoPairBeforeIndex(builder: string, value: string, p: nat, index: int)
    requires p <= |builder| == |value| && builder[p..] == value[p..]
    requires index == -1 || p <= index
    requires forall j :: 0 <= j && (index == -1 || j < index) ==> !OccursAt(builder, "__", j)
    ensures forall j :: p <= j && (index == -1 || j < index) ==> !PairAt(value, j)
  {
    forall j | p <= j && (index == -1 || j < index)
      ensures !PairAt(value, j)
    {
      assert !OccursAt(builder, "__", j);
      if j + 1 < |value| {
        assert builder[j] == builder[p..][j - p] && builder[j + 1] == builder[p..][j + 1 - p];
        assert value[j] == value[p..][j - p] && value[j + 1] == value[p..][j + 1 - p];
        assert builder[j..j + 2] == [builder[j], builder[j + 1]];
      }
    }
  }

  /** Replacing the first pair by two characters other than '_' leaves no pair up to them. */
  lemma NoPairAfterReplacement(before: string, after: string, index: nat)
    requires index + 2 <= |before| == |after|
    requires forall j :: 0 <= j < index ==> !OccursAt(before, "__", j)
    requires after[..index] == before[..index] && after[index] != '_' && after[index + 1] != '_'
    ensures forall j :: 0 <= j < index + 2 ==> !OccursAt(after, "__", j)
  {
    forall j | 0 <= j < index + 2
      ensures !OccursAt(after, "__", j)
    {
      if j + 1 < index {
        assert !OccursAt(before, "__", j);
        assert after[j] == after[..index][j] && after[j + 1] == after[..index][j + 1];
        assert before[j] == before[..index][j] && before[j + 1] == before[..index][j + 1];
        assert after[j..j + 2] == [after[j], after[j + 1]];
        assert before[j..j + 2] == [before[j], before[j + 1]];
      } else if j + 2 <= |after| {
        assert after[j..j + 2] == [after[j], after[j + 1]];
      }
    }
  }

  /** `fillValue` only touches text that ends, but does not start, with "__". */
  predicate FillApplies(value: string) {
    !StartsWith(value, "__") && EndsWith(value, "__")
  }

  /** `adjustFilledValue`: the filled text stays when its date is in range, else the clamped date is formatted. */
  function AdjustFilledValue(value: string, parse: string -> Option<int>, format: int -> string,
                             rangeStart: Option<int>, rangeEnd: Option<int>): (r: Result<string, FillError>)
    ensures r.Err? <==> parse(value).None?
    ensures r.Ok? && InRange(parse(value).value, rangeStart, rangeEnd) ==> r.value == value
    ensures r.Ok? && r.value != value ==>
      r.value == format(AdjustDateByRange(parse(value).value, rangeStart, rangeEnd))
  {
    match parse(value)
    case None => Err(UnparsableDate)
    case Some(date) =>
      var adjusted := AdjustDateByRange(date, rangeStart, rangeEnd);
      Ok(if date == adjusted then value else format(adjusted))
  }

  /** The text `fillValue` returns: autofilled from today's date, then clamped into the range. */
  function FillValueSpec(value: string, dateString: string, parse: string -> Option<int>, format: int -> string,
                         rangeStart: Option<int>, rangeEnd: Option<int>): Result<string, FillError> {
    if !FillApplies(value) then Ok(value)
    else
      match Filled(value, dateString)
      case None => Err(DateTooShort)
      case Some(filled) => AdjustFilledValue(filled, parse, format, rangeStart, rangeEnd)
  }

  /**
   * What `fillValue` promises: text it does not apply to comes back as it is;
   * otherwise a long enough date string fills every pair, and a filled date
   * inside the range is returned as filled.
   */
  lemma FillValueOutcome(value: string, dateString: string, parse: string -> Option<int>, format: int -> string,
                         rangeStart: Option<int>, rangeEnd: Option<int>)
    requires '_' !in dateString
    ensures !FillApplies(value) ==> FillValueSpec(value, dateString, parse, format, rangeStart, rangeEnd) == Ok(value)
    ensures FillApplies(value) && |dateString| >= |value| ==>
      var filled := Filled(value, dateString);
      filled.Some? && |filled.value| == |value| && (forall k :: 0 <= k < |value| ==> !PairAt(filled.value, k)) &&
      (parse(filled.value).Some? && InRange(parse(filled.value).value, rangeStart, rangeEnd) ==>
        FillValueSpec(value, dateString, parse, format, rangeStart, rangeEnd) == Ok(filled.value))
  {
    FilledFailsOnlyWhenDateIsShort(value, dateString, 0);
    if Filled(value, dateString).Some? {
      FilledShape(value, dateString, 0);
    }
  }

  /** The check `validateText` makes once the text field holds `t`. */
  predicate Accepts(t: string, nullRepresentation: string, maskValid: string -> bool, parse: string -> Option<int>) {
    t == nullRepresentation || (maskValid(t) && parse(t).Some?)
  }

  // ---------------------------------------------------------------------------
  // The widget

  class DateFieldWidget {
    const nullRepresentation: string
    /** The text of the masked text box. */
    var text: Option<string>
    var valueBeforeEdit: Option<string>
    var autofill: bool
    var dateRangeStart: Option<int>
    var dateRangeEnd: Option<int>
    /** The tab index the widget was configured with. */
    var tabIndex: int
    /** The tab index of the inner text box. */
    var implTabIndex: int
    var readonly: bool
    /** The `c-datefield-empty` style name is present. */
    var emptyStyle: bool
    /** How many change events have been sent to the server. */
    var changeEvents: nat

    constructor(nullRepresentation: string, text: Option<string>, emptyStyle: bool)
      ensures this.nullRepresentation == nullRepresentation && this.text == text && this.emptyStyle == emptyStyle
      ensures valueBeforeEdit.None? && !autofill && dateRangeStart.None? && dateRangeEnd.None?
      ensures tabIndex == 0 && implTabIndex == 0 && !readonly && changeEvents == 0
    {
      this.nullRepresentation := nullRepresentation;
      this.text := text;
      this.emptyStyle := emptyStyle;
      valueBeforeEdit := None;
      autofill := false;
      dateRangeStart := None;
      dateRangeEnd := None;
      tabIndex := 0;
      implTabIndex := 0;
      readonly := false;
      changeEvents := 0;
    }

    /** `setReadonly`: a read-only field leaves the tab order, and an editable one gets its tab index back. */
    method SetReadonly(readonly: bool)
      modifies this
      ensures this.readonly == readonly
      ensures implTabIndex == if readonly then -1 else tabIndex
      ensures unchanged(`text, `valueBeforeEdit, `autofill, `dateRangeStart, `dateRangeEnd, `tabIndex,
                        `emptyStyle, `changeEvents)
    {
      this.readonly := readonly;
      implTabIndex := if readonly then -1 else tabIndex;
    }

    method UpdateTabIndex(tabIndex: int)
      modifies `tabIndex
      ensures this.tabIndex == tabIndex
    {
      this.tabIndex := tabIndex;
    }

    method SetAutofill(autofill: bool)
      modifies `autofill
      ensures this.autofill == autofill
    {
      this.autofill := autofill;
    }

    /** `setDateRangeStart`: the bound is parsed first, so a failing parse leaves the old bound. */
    method SetDateRangeStart(rangeStart: Option<string>, parse: string -> Option<int>) returns (r: Result<(), FillError>)
      modifies `dateRangeStart
      ensures var parsed := ParseRangeString(rangeStart, parse);
        (parsed.Ok? ==> r == Ok(()) && dateRangeStart == parsed.value) &&
        (parsed.Err? ==> r == Err(parsed.error) && dateRangeStart == old(dateRangeStart))
    {
      var parsed := ParseRangeString(rangeStart, parse);
      if parsed.Err? {
        return Err(parsed.error);
      }
      dateRangeStart := parsed.value;
      return Ok(());
    }

    method SetDateRangeEnd(rangeEnd: Option<string>, parse: string -> Option<int>) returns (r: Result<(), FillError>)
      modifies `dateRangeEnd
      ensures var parsed := ParseRangeString(rangeEnd, parse);
        (parsed.Ok? ==> r == Ok(()) && dateRangeEnd == parsed.value) &&
        (parsed.Err? ==> r == Err(parsed.error) && dateRangeEnd == old(dateRangeEnd))
    {
      var parsed := ParseRangeString(rangeEnd, parse);
      if parsed.Err? {
        return Err(parsed.error);
      }
      dateRangeEnd := parsed.value;
      return Ok(());
    }

    /**
     * `validateText` of the inner masked field: the null representation always
     * passes; otherwise the mask check must pass and the date service must parse
     * the text box's current text (not the argument).
     */
    function ValidateText(t: string, maskValid: string -> bool, parse: string -> Option<int>): (r: bool)
      reads this
      ensures t == nullRepresentation ==> r
      ensures text == Some(t) ==> (r <==> Accepts(t, nullRepresentation, maskValid, parse))
    {
      t == nullRepresentation || (maskValid(t) && text.Some? && parse(text.value).Some?)
    }

    /** `fillValue`: the loop, the range adjustment, and `setText` of the result when it applies. */
    method FillValue(value: string, dateString: string, parse: string -> Option<int>, format: int -> string)
      returns (r: Result<string, FillError>)
      requires '_' !in dateString
      modifies `text
      ensures r == FillValueSpec(value, dateString, parse, format, dateRangeStart, dateRangeEnd)
      ensures text == if r.Ok? && FillApplies(value) then Some(r.value) else old(text)
    {
      if !FillApplies(value) {
        return Ok(value);
      }
      var filled := FillPlaceholders(value, dateString);
      if filled.None? {
        return Err(DateTooShort);
      }
      r := AdjustFilledValue(filled.value, parse, format, dateRangeStart, dateRangeEnd);
      if r.Ok? {
        text := Some(r.value);
      }
    }

    /**
     * `valueChange`: an edited text is autofilled when enabled, then either
     * accepted, becoming the value before edit and firing a change event, or
     * reverted to the value before edit.
     */
    method ValueChange(dateString: string, maskValid: string -> bool, parse: string -> Option<int>,
                       format: int -> string) returns (r: Result<(), FillError>)
      requires '_' !in dateString
      modifies this
      ensures old(text).None? || old(text) == old(valueBeforeEdit) ==> r == Ok(()) && unchanged(this)
      ensures old(text).Some? && old(text) != old(valueBeforeEdit) ==>
        var typed := old(text).value;
        var filled := if old(autofill) then FillValueSpec(typed, dateString, parse, format, dateRangeStart, dateRangeEnd)
                      else Ok(typed);
        (filled.Err? ==> r == Err(filled.error) && unchanged(this)) &&
        (filled.Ok? && Accepts(filled.value, nullRepresentation, maskValid, parse) ==>
          r == Ok(()) && text == Some(filled.value) && valueBeforeEdit == Some(filled.value) &&
          changeEvents == old(changeEvents) + 1 &&
          emptyStyle == (old(emptyStyle) && filled.value == nullRepresentation)) &&
        (filled.Ok? && !Accepts(filled.value, nullRepresentation, maskValid, parse) ==>
          r == Ok(()) && text == old(valueBeforeEdit) && valueBeforeEdit == old(valueBeforeEdit) &&
          changeEvents == old(changeEvents) && emptyStyle == old(emptyStyle))
      ensures unchanged(`autofill, `dateRangeStart, `dateRangeEnd, `tabIndex, `implTabIndex, `readonly)
      ensures r.Ok? && old(text).Some? ==> text == valueBeforeEdit
    {
      var newText := text;
      if newText.None? || newText == valueBeforeEdit {
        return Ok(());
      }
      var t := newText.value;
      if autofill {
        var filled := FillValue(t, dateString, parse, format);
        if filled.Err? {
          return Err(filled.error);
        }
        t := filled.value;
      }
      if ValidateText(t, maskValid, parse) {
        if t != nullRepresentation {
          emptyStyle := false;
        }
        changeEvents := changeEvents + 1;
        valueBeforeEdit := Some(t);
      } else {
        text := valueBeforeEdit;
      }
      return Ok(());
    }
  }
}
