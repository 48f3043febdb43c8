/**
 * The "Add Chef" form: the record of form values is flattened into multipart
 * entries on submit, the cuisine checkboxes add and remove names from a list,
 * and a declared schema says which records are valid.
 */
module ChefModal {
  import opened Wrappers
  import Text
  import Json
  import Seqs

  datatype File = File(name: string, size: nat)

  /** A value of the form record. */
  datatype FormValue =
    | FileValue(file: File)
    | ArrayValue(items: seq<string>)
    | TextValue(s: string)
    | Boolean(b: bool)
    | Numeric(n: int)
    | Null
    | Undefined

  /** One appended part of the multipart body. */
  datatype Entry = FileEntry(key: string, file: File) | TextEntry(key: string, text: string)

  /** The form record: its keys in the order `for...in` visits them. */
  type Record = seq<(string, FormValue)>

  predicate Kept(v: FormValue) {
    !v.Null? && !v.Undefined?
  }

  /** `String(value)` for the values that are neither files, arrays, null nor undefined. */
  function StringOf(v: FormValue): string
    requires v.TextValue? || v.Boolean? || v.Numeric?
  {
    match v
    case TextValue(s) => s
    case Boolean(b) => if b then "true" else "false"
    case Numeric(n) => Text.Decimal(n)
  }

  /**
   * What the loop appends for one key: a file as is, an array as its JSON text,
   * nothing for null or undefined, and any other value as its string.
   */
  function EntryFor(key: string, v: FormValue): (r: Option<Entry>)
    ensures r.Some? <==> Kept(v)
    ensures r.Some? ==> r.value.key == key
    ensures v.FileValue? ==> r == Some(FileEntry(key, v.file))
    ensures v.ArrayValue? ==> r.Some? && r.value.TextEntry? && Json.ReadStringArray(r.value.text) == Some(v.items)
    ensures v.TextValue? ==> r == Some(TextEntry(key, v.s))
    ensures v.Boolean? ==> r == Some(TextEntry(key, if v.b then "true" else "false"))
    ensures v.Numeric? ==> r.Some? && r.value.TextEntry? && Text.ToNumber(r.value.text) == Text.Int(v.n)
  {
    match v
    case FileValue(f) => Some(FileEntry(key, f))
    case ArrayValue(items) =>
      Json.StringifyRoundTrip(items);
      Some(TextEntry(key, Json.Stringify(items)))
    case TextValue(_) => Some(TextEntry(key, StringOf(v)))
    case Boolean(_) => Some(TextEntry(key, StringOf(v)))
    case Numeric(n) =>
      Text.NumberOfDecimal(n);
      Some(TextEntry(key, StringOf(v)))
    case Null => None
    case Undefined => None
  }

  /** The entries for a record, in the order of its keys. */
  function Flatten(rec: Record): seq<Entry>
    decreases |rec|
  {
    if rec == [] then []
    else
      var last := rec[|rec| - 1];
      Flatten(rec[..|rec| - 1]) + match EntryFor(last.0, last.1) case Some(e) => [e] case None => []
  }

  /** `for (const key in data) { ... formData.append(key, ...) }`. */
  method BuildFormData(rec: Record) returns (entries: seq<Entry>)
    ensures entries == Flatten(rec)
  {
    entries := [];
    var i := 0;
    while i < |rec|
      invariant 0 <= i <= |rec|
      invariant entries == Flatten(rec[..i])
    {
      var (key, value) := rec[i];
      assert rec[..i + 1][..i] == rec[..i];
      match value {
      case FileValue(f) =>
        entries := entries + [FileEntry(key, f)];
      case ArrayValue(items) =>
        entries := entries + [TextEntry(key, Json.Stringify(items))];
      case Null =>
      case Undefined =>
      case _ =>
        entries := entries + [TextEntry(key, StringOf(value))];
      }
      i := i + 1;
    }
    assert rec[..|rec|] == rec;
  }

  /**
   * `idx` lists, increasing, the positions of `rec` whose keys gave the
   * entries `es`, one entry each.
   */
  ghost predicate EntriesAt(es: seq<Entry>, rec: Record, idx: seq<int>) {
    && |idx| == |es|
    && (forall k :: 0 <= k < |idx| ==>
          0 <= idx[k] < |rec| && EntryFor(rec[idx[k]].0, rec[idx[k]].1) == Some(es[k]))
    && (forall k, l :: 0 <= k < l < |idx| ==> idx[k] < idx[l])
  }

  lemma ExtendEntries(es: seq<Entry>, rec: Record, idx: seq<int>, e: Option<Entry>)
    requires rec != [] && EntriesAt(es, rec[..|rec| - 1], idx)
    requires e == EntryFor(rec[|rec| - 1].0, rec[|rec| - 1].1)
    ensures e.None? ==> EntriesAt(es, rec, idx)
    ensures e.Some? ==> EntriesAt(es + [e.value], rec, idx + [|rec| - 1])
  {
    var n := |rec| - 1;
    assert forall k :: 0 <= k < |idx| ==> rec[..n][idx[k]] == rec[idx[k]];
  }

  /**
   * The entries correspond, in order, to the record's keys whose value is
   * neither null nor undefined: `idx` lists those positions, increasing, and
   * the entry at `k` is the one for the key at `idx[k]`.
   */
  lemma {:induction false} FlattenSelects(rec: Record) returns (idx: seq<int>)
    ensures EntriesAt(Flatten(rec), rec, idx)
    ensures forall i :: 0 <= i < |rec| ==> (i in idx <==> Kept(rec[i].1))
    decreases |rec|
  {
    if rec == [] {
      idx := [];
    } else {
      var n := |rec| - 1;
      var init := rec[..n];
      var before := FlattenSelects(init);
      var e := EntryFor(rec[n].0, rec[n].1);
      ExtendEntries(Flatten(init), rec, before, e);
      idx := if e.Some? then before + [n] else before;
      forall i | 0 <= i < |rec|
        ensures i in idx <==> Kept(rec[i].1)
      {
        if i < n {
          assert init[i] == rec[i];
        }
      }
    }
  }

  /** With distinct keys, no key gets two entries. */
  lemma FlattenKeysDistinct(rec: Record)
    requires forall i, j :: 0 <= i < j < |rec| ==> rec[i].0 != rec[j].0
    ensures forall k, l :: 0 <= k < l < |Flatten(rec)| ==> Flatten(rec)[k].key != Flatten(rec)[l].key
  {
    var idx := FlattenSelects(rec);
    forall k, l | 0 <= k < l < |Flatten(rec)|
      ensures Flatten(rec)[k].key != Flatten(rec)[l].key
    {
      assert Flatten(rec)[k].key == rec[idx[k]].0;
      assert Flatten(rec)[l].key == rec[idx[l]].0;
    }
  }

  /** `false` is not dropped: it is sent as the text "false". */
  lemma FalseIsSent(key: string)
    ensures EntryFor(key, Boolean(false)) == Some(TextEntry(key, "false"))
    ensures Flatten([(key, Boolean(false))]) == [TextEntry(key, "false")]
  {
  }

  // ---------------------------------------------------------------- form state

  /**
   * `field.onChange(v)`: the record with `key` now holding `v`, every other key
   * as before; a key the record did not have is added at the end.
   */
  function SetField(rec: Record, key: string, v: FormValue): (r: Record)
    ensures Get(r, key) == v
    ensures forall k :: k != key ==> Get(r, k) == Get(rec, k)
    ensures |r| == |rec| || |r| == |rec| + 1
    decreases |rec|
  {
    if rec == [] then [(key, v)]
    else if rec[0].0 == key then [(key, v)] + rec[1..]
    else [rec[0]] + SetField(rec[1..], key, v)
  }

  /** How the request to create the chef ended. */
  datatype Outcome =
    | Created
    | Refused(serverMessage: Option<string>)
    | Failed(reason: string)

  const DefaultFailure := "Failed to create chef"

  /**
   * `err.message`: for a refusal, the server's message when it sent a non-empty
   * one and the default text otherwise; for a failed request, its own message.
   */
  function FailureMessage(o: Outcome): (m: string)
    requires !o.Created?
    ensures o.Refused? && o.serverMessage.Some? && o.serverMessage.value != [] ==> m == o.serverMessage.value
    ensures o.Refused? && (o.serverMessage.None? || o.serverMessage.value == []) ==> m == DefaultFailure
    ensures o.Failed? ==> m == o.reason
  {
    match o
    case Refused(msg) => if msg.Some? && msg.value != [] then msg.value else DefaultFailure
    case Failed(msg) => msg
  }

  /** A refusal always leaves a non-empty error, so the alert is shown when the dialog opens again. */
  lemma RefusalShown(o: Outcome)
    requires o.Refused?
    ensures FailureMessage(o) != []
  {
  }

  /** The "Add Chef" dialog: whether it is open, the submit state, the error and the form's values. */
  class ChefDialog {
    var isOpen: bool
    var isLoading: bool
    var error: string
    var values: Record

    constructor ()
      ensures !isOpen && !isLoading && error == [] && values == DefaultValues
    {
      isOpen := false;
      isLoading := false;
      error := [];
      values := DefaultValues;
    }

    /** The trigger button or the dialog's own close. */
    method SetOpen(open: bool)
      modifies this`isOpen
      ensures isOpen == open
    {
      isOpen := open;
    }

    /** A text input, a select or a yes/no checkbox changed its field. */
    method Change(key: string, v: FormValue)
      modifies this`values
      ensures values == SetField(old(values), key, v)
    {
      values := SetField(values, key, v);
    }

    /** The file input: its first file, or undefined when the list of chosen files is empty. */
    method ChooseFiles(files: seq<File>)
      modifies this`values
      ensures values == SetField(old(values), "profilePicture", if files == [] then Undefined else FileValue(files[0]))
      ensures files != [] ==> Get(values, "profilePicture") == FileValue(files[0])
    {
      var v := if files == [] then Undefined else FileValue(files[0]);
      values := SetField(values, "profilePicture", v);
    }

    /** The box of one cuisine changed; the field holds a list, as it does from the start. */
    method ToggleCuisineBox(cuisine: string, checked: bool)
      requires Get(values, "cuisines").ArrayValue?
      modifies this`values
      ensures values == SetField(old(values), "cuisines",
                                 ArrayValue(ToggleCuisine(Get(old(values), "cuisines").items, cuisine, checked)))
    {
      var items := Get(values, "cuisines").items;
      values := SetField(values, "cuisines", ArrayValue(ToggleCuisine(items, cuisine, checked)));
    }

    /**
     * Submitting sends the entries of the current values. Whatever happens the
     * dialog ends closed and not loading; a created chef resets the form and
     * leaves no error, any other outcome keeps the values and records its message.
     */
    method Submit(outcome: Outcome) returns (entries: seq<Entry>)
      modifies this`isLoading, this`isOpen, this`error, this`values
      ensures entries == Flatten(old(values))
      ensures !isOpen && !isLoading
      ensures outcome.Created? ==> error == [] && values == DefaultValues
      ensures !outcome.Created? ==> error == FailureMessage(outcome) && values == old(values)
    {
      isLoading := true;
      error := [];
      entries := BuildFormData(values);
      if outcome.Created? {
        isOpen := false;
        values := DefaultValues;
      } else {
        error := FailureMessage(outcome);
      }
      isLoading := false;
      isOpen := false;
    }
  }

  // ---------------------------------------------------------------- cuisines

  const Cuisines: seq<string> := [
    "North Indian", "South Indian", "Chinese", "Mexican", "Continental",
    "Thai", "Japanese", "Turkish", "Lebanese", "Gujarati"]

  const Cities: seq<string> := ["Mumbai", "Delhi", "Bangalore", "Chennai", "Kolkata"]

  /** A cuisine's box is ticked when the list includes it. */
  predicate CuisineChecked(value: seq<string>, cuisine: string) {
    cuisine in value
  }

  /** The list after the box of `cuisine` changes to `checked`. */
  function ToggleCuisine(value: seq<string>, cuisine: string, checked: bool): seq<string> {
    if checked then value + [cuisine] else Seqs.Filter(value, (x: string) => x != cuisine)
  }

  /** Ticking a box appends its cuisine and leaves the earlier entries as they were. */
  lemma CheckAppends(value: seq<string>, cuisine: string)
    ensures |ToggleCuisine(value, cuisine, true)| == |value| + 1
    ensures ToggleCuisine(value, cuisine, true)[..|value|] == value
    ensures ToggleCuisine(value, cuisine, true)[|value|] == cuisine
    ensures CuisineChecked(ToggleCuisine(value, cuisine, true), cuisine)
  {
    assert (value + [cuisine])[..|value|] == value;
  }

  /**
   * Clearing a box removes every occurrence of its cuisine and keeps every other
   * entry, in order: `idx` lists the kept positions, increasing.
   */
  lemma UncheckRemovesAll(value: seq<string>, cuisine: string) returns (idx: seq<int>)
    ensures !CuisineChecked(ToggleCuisine(value, cuisine, false), cuisine)
    ensures Seqs.SelectedAt(ToggleCuisine(value, cuisine, false), value, idx)
    ensures forall i :: 0 <= i < |value| ==> (i in idx <==> value[i] != cuisine)
  {
    idx := Seqs.FilterSelects(value, (x: string) => x != cuisine);
  }

  /** Ticking a cuisine that was not listed and clearing it again restores the list. */
  lemma CheckThenUncheck(value: seq<string>, cuisine: string)
    requires !CuisineChecked(value, cuisine)
    ensures ToggleCuisine(ToggleCuisine(value, cuisine, true), cuisine, false) == value
  {
    var p := (x: string) => x != cuisine;
    Seqs.FilterAppend(value, [cuisine], p);
    Seqs.FilterAll(value, p);
    assert Seqs.Filter([cuisine], p) == [];
  }

  // ---------------------------------------------------------------- schema

  /** `data[key]`: the value of the first entry for `key`, undefined when there is none. */
  function Get(rec: Record, key: string): (v: FormValue)
    ensures v != Undefined ==> exists i :: 0 <= i < |rec| && rec[i] == (key, v)
    decreases |rec|
  {
    if rec == [] then Undefined else if rec[0].0 == key then rec[0].1 else Get(rec[1..], key)
  }

  /** `string().required()`: a string that is not empty. */
  predicate RequiredText(v: FormValue) {
    v.TextValue? && v.s != []
  }

  /** `string().oneOf(options).required()`. */
  predicate OneOf(v: FormValue, options: set<string>) {
    RequiredText(v) && v.s in options
  }

  /** `boolean().required()`. */
  predicate RequiredBoolean(v: FormValue) {
    v.Boolean?
  }

  /** `array().of(string()).min(1)`: absent, or a list with at least one entry. */
  predicate NonEmptyListOrAbsent(v: FormValue) {
    v.Undefined? || (v.ArrayValue? && |v.items| >= 1)
  }

  /** `number().positive().required()`: a number above zero, or text that reads as one. */
  predicate PositiveNumber(v: FormValue) {
    (v.Numeric? && v.n > 0)
    || (v.TextValue? && Text.ToNumber(v.s).Int? && Text.ToNumber(v.s).value > 0)
  }

  const Genders: set<string> := {"male", "female", "other"}
  const TravelModes: set<string> := {"metro", "bike"}

  /** The declared validation schema of the form. */
  predicate SchemaAccepts(rec: Record) {
    && RequiredText(Get(rec, "name"))
    && OneOf(Get(rec, "gender"), Genders)
    && Kept(Get(rec, "profilePicture"))
    && RequiredBoolean(Get(rec, "canCook"))
    && NonEmptyListOrAbsent(Get(rec, "previousWorkplace"))
    && RequiredBoolean(Get(rec, "readyForHomeKitchen"))
    && NonEmptyListOrAbsent(Get(rec, "preferredCities"))
    && RequiredText(Get(rec, "currentCity"))
    && RequiredText(Get(rec, "currentArea"))
    && NonEmptyListOrAbsent(Get(rec, "cuisines"))
    && OneOf(Get(rec, "travelMode"), TravelModes)
    && RequiredBoolean(Get(rec, "cooksNonVeg"))
    && RequiredText(Get(rec, "readingLanguage"))
    && RequiredText(Get(rec, "experienceYears"))
    && PositiveNumber(Get(rec, "currentSalary"))
  }

  /** The salary value is the number `n`, or text that reads as `n`. */
  predicate SalaryIs(v: FormValue, n: int) {
    v == Numeric(n) || (v.TextValue? && Text.ToNumber(v.s) == Text.Int(n))
  }

  /**
   * An accepted record has a gender among male, female and other, a travel mode
   * of metro or bike, a positive salary, and no empty list of previous
   * workplaces, preferred cities or cuisines.
   */
  lemma AcceptedRecord(rec: Record)
    requires SchemaAccepts(rec)
    ensures Get(rec, "gender").TextValue? && Get(rec, "gender").s in Genders
    ensures Get(rec, "travelMode").TextValue? && Get(rec, "travelMode").s in TravelModes
    ensures Get(rec, "previousWorkplace") != ArrayValue([])
    ensures Get(rec, "preferredCities") != ArrayValue([])
    ensures Get(rec, "cuisines") != ArrayValue([])
    ensures exists n :: SalaryIs(Get(rec, "currentSalary"), n) && n > 0
  {
    var v := Get(rec, "currentSalary");
    if v.Numeric? {
      assert SalaryIs(v, v.n);
    } else {
      assert SalaryIs(v, Text.ToNumber(v.s).value);
    }
  }

  /** The record the form starts from. */
  const DefaultValues: Record := [
    ("name", TextValue("")),
    ("gender", Undefined),
    ("profilePicture", Undefined),
    ("resume", Undefined),
    ("characterCertificate", Undefined),
    ("canCook", Boolean(false)),
    ("previousWorkplace", ArrayValue([])),
    ("readyForHomeKitchen", Boolean(false)),
    ("preferredCities", ArrayValue([])),
    ("currentCity", TextValue("")),
    ("currentArea", TextValue("")),
    ("cuisines", ArrayValue([])),
    ("travelMode", Undefined),
    ("cooksNonVeg", Boolean(false)),
    ("readingLanguage", TextValue("")),
    ("experienceYears", TextValue("")),
    ("currentSalary", Numeric(0)),
    ("PhoneNo", Numeric(0))]

  /**
   * The form has no input for the previous workplaces or the salary, so every
   * record it submits keeps their defaults, and the schema rejects each one.
   */
  lemma DefaultListRejected(rec: Record)
    requires Get(rec, "previousWorkplace") == ArrayValue([]) || Get(rec, "currentSalary") == Numeric(0)
    ensures !SchemaAccepts(rec)
  {
  }

  /** The first key equal to `rec[i].0` is at `i`. */
  lemma {:induction false} GetFirst(rec: Record, i: int)
    requires 0 <= i < |rec|
    requires forall j :: 0 <= j < i ==> rec[j].0 != rec[i].0
    ensures Get(rec, rec[i].0) == rec[i].1
    decreases i
  {
    if i > 0 {
      GetFirst(rec[1..], i - 1);
    }
  }

  /** The starting record is itself rejected. */
  lemma DefaultsRejected()
    ensures Get(DefaultValues, "previousWorkplace") == ArrayValue([])
    ensures !SchemaAccepts(DefaultValues)
  {
    GetFirst(DefaultValues, 6);
    DefaultListRejected(DefaultValues);
  }

  /** The keys the dialog has an input for. */
  const InputKeys: set<string> := {
    "name", "gender", "profilePicture", "currentCity", "PhoneNo", "currentArea",
    "cuisines", "experienceYears", "travelMode", "canCook", "cooksNonVeg"}

  /** No input key is as long as "previousWorkplace". */
  lemma InputKeysShort()
    ensures forall k :: k in InputKeys ==> |k| < |"previousWorkplace"|
  {
  }

  /** The record after a sequence of field changes. */
  function SetAll(rec: Record, changes: seq<(string, FormValue)>): Record
    decreases |changes|
  {
    if changes == [] then rec else SetAll(SetField(rec, changes[0].0, changes[0].1), changes[1..])
  }

  /** Changes to other keys leave the value of `key` as it was. */
  lemma {:induction false} SetAllKeeps(rec: Record, changes: seq<(string, FormValue)>, key: string)
    requires forall i :: 0 <= i < |changes| ==> changes[i].0 != key
    ensures Get(SetAll(rec, changes), key) == Get(rec, key)
    decreases |changes|
  {
    if changes != [] {
      SetAllKeeps(SetField(rec, changes[0].0, changes[0].1), changes[1..], key);
    }
  }

  /** Changes through the dialog's inputs keep an empty list of previous workplaces, which the schema rejects. */
  lemma InputsKeepRejected(rec: Record, changes: seq<(string, FormValue)>)
    requires Get(rec, "previousWorkplace") == ArrayValue([])
    requires forall i :: 0 <= i < |changes| ==> changes[i].0 in InputKeys
    ensures !SchemaAccepts(SetAll(rec, changes))
  {
    InputKeysShort();
    SetAllKeeps(rec, changes, "previousWorkplace");
    DefaultListRejected(SetAll(rec, changes));
  }

  /**
   * Whatever the user enters in the dialog's inputs, the previous workplaces
   * keep their empty default, so the schema rejects every record the dialog
   * can hold.
   */
  lemma InputsNeverSatisfySchema(changes: seq<(string, FormValue)>)
    requires forall i :: 0 <= i < |changes| ==> changes[i].0 in InputKeys
    ensures !SchemaAccepts(SetAll(DefaultValues, changes))
  {
    DefaultsRejected();
    InputsKeepRejected(DefaultValues, changes);
  }
}
