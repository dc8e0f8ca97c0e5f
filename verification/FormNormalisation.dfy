/**
 Correlating submitted form values with the form: which submissions are accepted, and in which order
 the values come back (`packages/protocol/src/index.ts`, lines 2704-2858).
 */
module FormNormalisation {
  import opened Wrappers

  const USER_INPUT_TEXT_MAX_CHARS: nat := 10000

  /** A finite number, as every number that the value schema lets through. */
  datatype Value =
    | Text(text: string)
    | Number(number: real)
    | Flag(flag: bool)
    | Selection(options: seq<string>)

  datatype Kind =
    | TextControl(minLength: Option<nat>, maxLength: Option<nat>)
    | NumberControl(min: Option<real>, max: Option<real>, integer: bool)
    | BooleanControl
    | ChoiceControl(optionIds: set<string>, multiple: bool, minSelections: Option<nat>, maxSelections: Option<nat>)

  datatype Control = Control(id: string, required: bool, kind: Kind)

  datatype Submitted = Submitted(id: string, value: Value)

  /** Where an issue was found: a submitted value, one of its selections, its id, or the whole form. */
  datatype Issue =
    | BadValue(index: nat)
    | BadSelection(index: nat, selection: nat)
    | BadId(index: nat)
    | Missing(control: string)

  function OrElse<T>(option: Option<T>, default: T): T {
    if option.Some? then option.value else default
  }

  function Max(a: nat, b: nat): nat {
    if a > b then a else b
  }

  // ---------------------------------------------------------------------------------------------
  // What the form promises
  // ---------------------------------------------------------------------------------------------

  predicate Distinct(options: seq<string>) {
    forall i, j :: 0 <= i < j < |options| ==> options[i] != options[j]
  }

  /** A value that the control allows. */
  predicate Allowed(control: Control, value: Value) {
    match control.kind
    case TextControl(minLength, maxLength) =>
      value.Text?
      && Max(OrElse(minLength, 0), if control.required then 1 else 0) <= |value.text| <= OrElse(maxLength, USER_INPUT_TEXT_MAX_CHARS)
    case NumberControl(min, max, integer) =>
      value.Number?
      && (integer ==> value.number == value.number.Floor as real)
      && (min.Some? ==> min.value <= value.number) && (max.Some? ==> value.number <= max.value)
    case BooleanControl => value.Flag?
    case ChoiceControl(optionIds, multiple, minSelections, maxSelections) =>
      if multiple then
        value.Selection? && Distinct(value.options) && (forall i :: 0 <= i < |value.options| ==> value.options[i] in optionIds)
        && Max(OrElse(minSelections, 0), if control.required then 1 else 0) <= |value.options| <= OrElse(maxSelections, |optionIds|)
      else
        value.Text? && value.text in optionIds
  }

  predicate RequiresValue(control: Control) {
    control.required || (control.kind.ChoiceControl? && OrElse(control.kind.minSelections, 0) > 0)
  }

  /** The position of the control with the given id, or the number of controls if there is none. */
  function PositionOf(form: seq<Control>, id: string): (position: nat)
    ensures position <= |form| && (position < |form| ==> form[position].id == id)
    ensures forall i :: 0 <= i < position ==> form[i].id != id
  {
    if form == [] then 0 else if form[0].id == id then 0 else 1 + PositionOf(form[1..], id)
  }

  predicate UniqueControls(form: seq<Control>) {
    forall i, j :: 0 <= i < j < |form| ==> form[i].id != form[j].id
  }

  predicate Knows(form: seq<Control>, id: string) {
    PositionOf(form, id) < |form|
  }

  predicate UniqueIds(values: seq<Submitted>) {
    forall i, j :: 0 <= i < j < |values| ==> values[i].id != values[j].id
  }

  predicate Submits(values: seq<Submitted>, id: string) {
    exists i :: 0 <= i < |values| && values[i].id == id
  }

  /** Ids are unique and known, values allowed, and nothing required is missing. */
  ghost predicate Acceptable(form: seq<Control>, values: seq<Submitted>) {
    && UniqueIds(values)
    && (forall i :: 0 <= i < |values| ==> Knows(form, values[i].id) && Allowed(form[PositionOf(form, values[i].id)], values[i].value))
    && (forall k :: 0 <= k < |form| && RequiresValue(form[k]) ==> Submits(values, form[k].id))
  }

  // ---------------------------------------------------------------------------------------------
  // The validators
  // ---------------------------------------------------------------------------------------------

  /** `validateUserInputTextValue` and the validators of numbers, booleans and single choices. */
  function ValueIssues(control: Control, value: Value, index: nat): (issues: seq<Issue>)
    requires !(control.kind.ChoiceControl? && control.kind.multiple)
  {
    match control.kind
    case TextControl(minLength, maxLength) =>
      if !value.Text? then [BadValue(index)]
      else
        (if |value.text| < Max(OrElse(minLength, 0), if control.required then 1 else 0) then [BadValue(index)] else [])
        + (if |value.text| > OrElse(maxLength, USER_INPUT_TEXT_MAX_CHARS) then [BadValue(index)] else [])
    case NumberControl(min, max, integer) =>
      if !value.Number? then [BadValue(index)]
      else
        (if integer && value.number != value.number.Floor as real then [BadValue(index)] else [])
        + (if min.Some? && value.number < min.value then [BadValue(index)] else [])
        + (if max.Some? && value.number > max.value then [BadValue(index)] else [])
    case BooleanControl => if value.Flag? then [] else [BadValue(index)]
    case ChoiceControl(optionIds, _, _, _) =>
      if !value.Text? then [BadValue(index)] else if value.text !in optionIds then [BadValue(index)] else []
  }

  /** The validator of multiple choices, with its set of selected options. */
  method SelectionIssues(control: Control, value: Value, index: nat) returns (issues: seq<Issue>)
    requires control.kind.ChoiceControl? && control.kind.multiple
    ensures issues == [] <==> Allowed(control, value)
  {
    if !value.Selection? {
      return [BadValue(index)];
    }
    var options, optionIds := value.options, control.kind.optionIds;
    issues := [];
    var selected: set<string> := {};
    for i := 0 to |options|
      invariant forall option :: option in selected <==> option in options[..i]
      invariant issues == [] <==> Distinct(options[..i]) && forall k :: 0 <= k < i ==> options[k] in optionIds
    {
      DistinctGrows(options, i);
      if options[i] in selected {
        issues := issues + [BadSelection(index, i)];
      }
      selected := selected + {options[i]};
      if options[i] !in optionIds {
        issues := issues + [BadSelection(index, i)];
      }
    }
    assert options[..|options|] == options;
    if |options| < Max(OrElse(control.kind.minSelections, 0), if control.required then 1 else 0) {
      issues := issues + [BadValue(index)];
    }
    if |options| > OrElse(control.kind.maxSelections, |optionIds|) {
      issues := issues + [BadValue(index)];
    }
  }

  lemma DistinctGrows(options: seq<string>, i: nat)
    requires i < |options|
    ensures Distinct(options[..i + 1]) <==> Distinct(options[..i]) && options[i] !in options[..i]
    ensures options[..i + 1] == options[..i] + [options[i]]
  {
    var before, after := options[..i], options[..i + 1];
    assert after == before + [options[i]];
    if Distinct(after) {
      forall k | 0 <= k < i ensures before[k] != options[i] {
        assert after[k] != after[i];
      }
    }
  }

  method IssuesOf(control: Control, value: Value, index: nat) returns (issues: seq<Issue>)
    ensures issues == [] <==> Allowed(control, value)
  {
    if control.kind.ChoiceControl? && control.kind.multiple {
      issues := SelectionIssues(control, value, index);
    } else {
      issues := ValueIssues(control, value, index);
    }
  }

  // ---------------------------------------------------------------------------------------------
  // Normalisation
  // ---------------------------------------------------------------------------------------------

  /** The value submitted for an id; the last one, as in a map built from the values. */
  function Lookup(values: seq<Submitted>, id: string): Option<Submitted> {
    if values == [] then None
    else if values[|values| - 1].id == id then Some(values[|values| - 1])
    else Lookup(values[..|values| - 1], id)
  }

  /** The submitted values in the order of the form. */
  function InFormOrder(form: seq<Control>, values: seq<Submitted>): seq<Submitted> {
    if form == [] then []
    else
      var value := Lookup(values, form[|form| - 1].id);
      InFormOrder(form[..|form| - 1], values) + if value.Some? then [value.value] else []
  }

  ghost function Normalised(form: seq<Control>, values: seq<Submitted>): Option<seq<Submitted>> {
    if Acceptable(form, values) then Some(InFormOrder(form, values)) else None
  }

  /** The loop over the submitted values, with the set of ids submitted so far. */
  method CheckValues(form: seq<Control>, values: seq<Submitted>) returns (issues: seq<Issue>, submittedIds: set<string>)
    ensures forall id :: id in submittedIds <==> Submits(values, id)
    ensures issues == [] <==>
            && UniqueIds(values)
            && (forall i :: 0 <= i < |values| ==>
                  Knows(form, values[i].id) && Allowed(form[PositionOf(form, values[i].id)], values[i].value))
  {
    issues, submittedIds := [], {};
    for index := 0 to |values|
      invariant forall id :: id in submittedIds <==> exists i :: 0 <= i < index && values[i].id == id
      invariant issues == [] <==>
                && (forall i, j :: 0 <= i < j < index ==> values[i].id != values[j].id)
                && (forall i :: 0 <= i < index ==>
                      Knows(form, values[i].id) && Allowed(form[PositionOf(form, values[i].id)], values[i].value))
    {
      var submitted := values[index];
      if submitted.id in submittedIds {
        issues := issues + [BadId(index)];
        continue;
      }
      submittedIds := submittedIds + {submitted.id};
      var position := PositionOf(form, submitted.id);
      if position == |form| {
        issues := issues + [BadId(index)];
        continue;
      }
      var more := IssuesOf(form[position], submitted.value, index);
      issues := issues + more;
    }
  }

  /** The loop over the controls that require a value. */
  method CheckMissing(form: seq<Control>, values: seq<Submitted>, submittedIds: set<string>) returns (issues: seq<Issue>)
    requires forall id :: id in submittedIds <==> Submits(values, id)
    ensures issues == [] <==> forall k :: 0 <= k < |form| && RequiresValue(form[k]) ==> Submits(values, form[k].id)
  {
    issues := [];
    for k := 0 to |form|
      invariant issues == [] <==> forall l :: 0 <= l < k && RequiresValue(form[l]) ==> Submits(values, form[l].id)
    {
      if RequiresValue(form[k]) && form[k].id !in submittedIds {
        issues := issues + [Missing(form[k].id)];
      }
    }
  }

  /** `normalizeUserInputResultForForm`, for a submitted result. */
  method NormalizeForForm(form: seq<Control>, values: seq<Submitted>) returns (result: Result<seq<Submitted>, seq<Issue>>)
    ensures result.Ok? <==> Acceptable(form, values)
    ensures result.Ok? ==> Normalised(form, values) == Some(result.value)
    ensures result.Err? ==> result.error != []
  {
    var issues, submittedIds := CheckValues(form, values);
    var missing := CheckMissing(form, values, submittedIds);
    if issues + missing != [] {
      return Err(issues + missing);
    }
    var ordered: seq<Submitted> := [];
    for k := 0 to |form|
      invariant ordered == InFormOrder(form[..k], values)
    {
      assert form[..k + 1][..k] == form[..k];
      var value := Lookup(values, form[k].id);
      if value.Some? {
        ordered := ordered + [value.value];
      }
    }
    assert form[..|form|] == form;
    return Ok(ordered);
  }

  // ---------------------------------------------------------------------------------------------
  // Main results
  // ---------------------------------------------------------------------------------------------

  lemma {:induction false} LookupSpec(values: seq<Submitted>, id: string)
    ensures Lookup(values, id).Some? <==> Submits(values, id)
    ensures Lookup(values, id).Some? ==> Lookup(values, id).value in values && Lookup(values, id).value.id == id
  {
    if values != [] && values[|values| - 1].id != id {
      LookupSpec(values[..|values| - 1], id);
    }
  }

  /** With unique ids, looking up an id finds the one value submitted for it. */
  lemma LookupIsMembership(values: seq<Submitted>, s: Submitted)
    requires UniqueIds(values)
    ensures Lookup(values, s.id) == Some(s) <==> s in values
  {
    LookupSpec(values, s.id);
    if s in values {
      var i :| 0 <= i < |values| && values[i] == s;
      var found := Lookup(values, s.id).value;
      var j :| 0 <= j < |values| && values[j] == found;
    }
  }

  ghost predicate SameValues(a: seq<Submitted>, b: seq<Submitted>) {
    forall s :: s in a <==> s in b
  }

  lemma SameLookup(a: seq<Submitted>, b: seq<Submitted>, id: string)
    requires UniqueIds(a) && UniqueIds(b) && SameValues(a, b)
    ensures Lookup(a, id) == Lookup(b, id)
  {
    LookupSpec(a, id);
    LookupSpec(b, id);
    if Lookup(a, id).Some? {
      LookupIsMembership(b, Lookup(a, id).value);
    } else if Lookup(b, id).Some? {
      LookupIsMembership(a, Lookup(b, id).value);
    }
  }

  lemma {:induction false} SameOrder(form: seq<Control>, a: seq<Submitted>, b: seq<Submitted>)
    requires UniqueIds(a) && UniqueIds(b) && SameValues(a, b)
    ensures InFormOrder(form, a) == InFormOrder(form, b)
  {
    if form != [] {
      SameOrder(form[..|form| - 1], a, b);
      SameLookup(a, b, form[|form| - 1].id);
    }
  }

  lemma SameAcceptance(form: seq<Control>, a: seq<Submitted>, b: seq<Submitted>)
    requires UniqueIds(b) && SameValues(a, b) && Acceptable(form, a)
    ensures Acceptable(form, b)
  {
    forall i | 0 <= i < |b| ensures Knows(form, b[i].id) && Allowed(form[PositionOf(form, b[i].id)], b[i].value) {
      assert b[i] in a;
    }
    forall k | 0 <= k < |form| && RequiresValue(form[k]) ensures Submits(b, form[k].id) {
      assert Submits(a, form[k].id);
      var i :| 0 <= i < |a| && a[i].id == form[k].id;
      assert a[i] in b;
    }
  }

  lemma {:induction false} OnceEach(values: seq<Submitted>, s: Submitted)
    requires UniqueIds(values)
    ensures multiset(values)[s] <= 1
  {
    if values != [] {
      var init, last := values[..|values| - 1], values[|values| - 1];
      assert values == init + [last];
      OnceEach(init, s);
      assert forall i :: 0 <= i < |init| ==> init[i].id != last.id;
    }
  }

  lemma TwiceIfRepeated(values: seq<Submitted>, i: nat, j: nat)
    requires i < j < |values| && values[i] == values[j]
    ensures multiset(values)[values[i]] >= 2
  {
    var front, back := values[..j], values[j..];
    assert values == front + back;
    assert multiset(values) == multiset(front) + multiset(back);
    assert front[i] in multiset(front) && back[0] in multiset(back);
  }

  /** Reordering a submission keeps its ids unique. */
  lemma PermutedIdsAreUnique(a: seq<Submitted>, b: seq<Submitted>)
    requires UniqueIds(a) && multiset(a) == multiset(b)
    ensures UniqueIds(b) && SameValues(a, b)
  {
    forall s ensures s in a <==> s in b {
      assert s in multiset(a) <==> s in multiset(b);
    }
    forall i, j | 0 <= i < j < |b| ensures b[i].id != b[j].id {
      OnceEach(a, b[i]);
      if b[i] == b[j] {
        TwiceIfRepeated(b, i, j);
      } else if b[i].id == b[j].id {
        assert b[i] in a && b[j] in a;
        LookupIsMembership(a, b[i]);
        LookupIsMembership(a, b[j]);
      }
    }
  }

  /** The order in which values are submitted plays no part: neither in what is accepted nor in what comes back. */
  lemma OrderOfSubmissionIsIrrelevant(form: seq<Control>, a: seq<Submitted>, b: seq<Submitted>)
    requires multiset(a) == multiset(b)
    ensures Normalised(form, a) == Normalised(form, b)
  {
    if Acceptable(form, a) {
      PermutedIdsAreUnique(a, b);
      SameAcceptance(form, a, b);
      SameOrder(form, a, b);
    } else if Acceptable(form, b) {
      PermutedIdsAreUnique(b, a);
      SameAcceptance(form, b, a);
    }
  }

  lemma {:induction false} InFormOrderSpec(form: seq<Control>, values: seq<Submitted>)
    ensures forall s :: s in InFormOrder(form, values) <==>
              Lookup(values, s.id) == Some(s) && exists k :: 0 <= k < |form| && form[k].id == s.id
    ensures UniqueControls(form) ==> UniqueIds(InFormOrder(form, values))
  {
    if form != [] {
      var init, last := form[..|form| - 1], form[|form| - 1];
      InFormOrderSpec(init, values);
      LookupSpec(values, last.id);
      var before, value := InFormOrder(init, values), Lookup(values, last.id);
      var after := InFormOrder(form, values);
      assert after == before + if value.Some? then [value.value] else [];
      forall s ensures s in after <==> Lookup(values, s.id) == Some(s) && exists k :: 0 <= k < |form| && form[k].id == s.id {
        assert s in after <==> s in before || value == Some(s);
        assert (exists k :: 0 <= k < |form| && form[k].id == s.id) <==>
               (exists k :: 0 <= k < |init| && init[k].id == s.id) || last.id == s.id by {
          assert forall k :: 0 <= k < |init| ==> init[k] == form[k];
        }
      }
      if UniqueControls(form) {
        assert forall s :: s in before ==> s.id != last.id;
        assert forall i :: 0 <= i < |before| ==> before[i] in before;
      }
    }
  }

  /** Whatever is accepted comes back completely: the same pairs of id and value, each once. */
  lemma NothingIsLost(form: seq<Control>, values: seq<Submitted>)
    requires UniqueControls(form) && Acceptable(form, values)
    ensures SameValues(InFormOrder(form, values), values) && UniqueIds(InFormOrder(form, values))
    ensures multiset(InFormOrder(form, values)) == multiset(values)
  {
    var ordered := InFormOrder(form, values);
    InFormOrderSpec(form, values);
    forall s ensures s in ordered <==> s in values {
      LookupIsMembership(values, s);
      if s in values {
        var i :| 0 <= i < |values| && values[i] == s;
        assert Knows(form, values[i].id);
        assert form[PositionOf(form, s.id)].id == s.id;
      }
    }
    forall s ensures multiset(ordered)[s] == multiset(values)[s] {
      OnceEach(ordered, s);
      OnceEach(values, s);
      assert s in multiset(ordered) <==> s in ordered;
      assert s in multiset(values) <==> s in values;
    }
  }

  /** What comes back stands in the order of the form. */
  lemma {:induction false} ComesBackInFormOrder(form: seq<Control>, values: seq<Submitted>, i: nat, j: nat)
    requires UniqueControls(form) && i < j < |InFormOrder(form, values)|
    ensures PositionOf(form, InFormOrder(form, values)[i].id) < PositionOf(form, InFormOrder(form, values)[j].id)
  {
    var init, last := form[..|form| - 1], form[|form| - 1];
    var before, ordered := InFormOrder(init, values), InFormOrder(form, values);
    LookupSpec(values, last.id);
    KnownToInit(form, values, i);
    if j < |before| {
      KnownToInit(form, values, j);
      ComesBackInFormOrder(init, values, i, j);
    } else {
      PositionIs(form, |form| - 1);
    }
  }

  lemma PositionIs(form: seq<Control>, k: nat)
    requires UniqueControls(form) && k < |form|
    ensures PositionOf(form, form[k].id) == k
  {
  }

  lemma KnownToInit(form: seq<Control>, values: seq<Submitted>, i: nat)
    requires UniqueControls(form) && form != [] && i < |InFormOrder(form[..|form| - 1], values)|
    ensures var s := InFormOrder(form[..|form| - 1], values)[i];
            PositionOf(form, s.id) == PositionOf(form[..|form| - 1], s.id) < |form| - 1
  {
    var init := form[..|form| - 1];
    var s := InFormOrder(init, values)[i];
    InFormOrderSpec(init, values);
    assert s in InFormOrder(init, values);
    var k :| 0 <= k < |init| && init[k].id == s.id;
    PositionIs(init, k);
    PositionIs(form, k);
  }

  /** Normalising what came back changes nothing. */
  lemma NormalisingTwice(form: seq<Control>, values: seq<Submitted>)
    requires UniqueControls(form) && Normalised(form, values).Some?
    ensures Normalised(form, Normalised(form, values).value) == Normalised(form, values)
  {
    NothingIsLost(form, values);
    OrderOfSubmissionIsIrrelevant(form, InFormOrder(form, values), values);
  }
}
