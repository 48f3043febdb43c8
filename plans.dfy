/**
 * The meal plans page: a plan form whose fields are read back into a plan
 * record on submit (the features text split on commas and trimmed, the four
 * price and count fields read as numbers), the choice between updating and
 * creating, and the dialogs' state around a save.
 */
module Plans {
  import opened Wrappers
  import Text

  datatype Plan = Plan(
    id: string,
    planType: string,
    description: string,
    features: seq<string>,
    morningPrice: int,
    eveningPrice: int,
    servesUpto: int,
    extraPersonCharge: int)

  /** One value of the record sent to the server. */
  datatype PlanValue = Features(items: seq<string>) | Numeric(number: Text.Number) | Raw(text: string)

  const FeaturesKey := "features"

  /** The four fields read as numbers. */
  const NumericKeys: set<string> := {"morningPrice", "eveningPrice", "servesUpto", "extraPersonCharge"}

  /** The features text: split on ',' and each piece trimmed. */
  function ParseFeatures(v: string): seq<string> {
    Text.SplitTrim(v, ',')
  }

  /** There is one feature more than there are commas, and none has white space at its ends. */
  lemma ParseFeaturesShape(v: string)
    ensures |ParseFeatures(v)| == Text.Count(v, ',') + 1
    ensures forall i :: 0 <= i < |ParseFeatures(v)| ==> Text.Trimmed(ParseFeatures(v)[i])
  {
    Text.SplitTrimPieces(v, ',');
  }

  /** A field of the form as the record stores it. */
  function ParseField(key: string, value: string): (r: PlanValue)
    ensures r.Features? <==> key == FeaturesKey
    ensures r.Features? ==> r.items == ParseFeatures(value)
    ensures r.Numeric? <==> key in NumericKeys
    ensures r.Numeric? ==> r.number == Text.ToNumber(value)
    ensures r.Raw? ==> r.text == value
  {
    if key == FeaturesKey then Features(ParseFeatures(value))
    else if key in NumericKeys then Numeric(Text.ToNumber(value))
    else Raw(value)
  }

  /** The record after storing the form's entries in order, a later entry overwriting an earlier one. */
  function PlanData(entries: seq<(string, string)>): map<string, PlanValue>
    decreases |entries|
  {
    if entries == [] then map[]
    else
      var last := entries[|entries| - 1];
      PlanData(entries[..|entries| - 1])[last.0 := ParseField(last.0, last.1)]
  }

  /** `formData.forEach((value, key) => { planData[key] = ... })`. */
  method BuildPlanData(entries: seq<(string, string)>) returns (data: map<string, PlanValue>)
    ensures data == PlanData(entries)
  {
    data := map[];
    var i := 0;
    while i < |entries|
      invariant 0 <= i <= |entries|
      invariant data == PlanData(entries[..i])
    {
      var (key, value) := entries[i];
      assert entries[..i + 1][..i] == entries[..i];
      data := data[key := ParseField(key, value)];
      i := i + 1;
    }
    assert entries[..|entries|] == entries;
  }

  /** The record has exactly the keys of the entries. */
  lemma {:induction false} PlanDataKeys(entries: seq<(string, string)>)
    ensures PlanData(entries).Keys == set i | 0 <= i < |entries| :: entries[i].0
    decreases |entries|
  {
    if entries != [] {
      var init := entries[..|entries| - 1];
      PlanDataKeys(init);
      assert forall i :: 0 <= i < |init| ==> init[i] == entries[i];
    }
  }

  /** Each key holds the parse of its last entry. */
  lemma {:induction false} PlanDataLastWins(entries: seq<(string, string)>, i: int)
    requires 0 <= i < |entries|
    requires forall j :: i < j < |entries| ==> entries[j].0 != entries[i].0
    ensures entries[i].0 in PlanData(entries)
    ensures PlanData(entries)[entries[i].0] == ParseField(entries[i].0, entries[i].1)
    decreases |entries|
  {
    var init := entries[..|entries| - 1];
    if i < |entries| - 1 {
      assert init[i] == entries[i];
      PlanDataLastWins(init, i);
    }
  }

  // ---------------------------------------------------------------- the form

  /** `String(n)` for the number inputs' default values. */
  function NumberText(n: int): string {
    Text.Decimal(n)
  }

  /** The entries of the plan form, in field order, as filled in for `p`. */
  function FormEntries(p: Plan): seq<(string, string)> {
    [ ("type", p.planType),
      ("description", p.description),
      (FeaturesKey, Text.Join(p.features, ", ")),
      ("morningPrice", NumberText(p.morningPrice)),
      ("eveningPrice", NumberText(p.eveningPrice)),
      ("servesUpto", NumberText(p.servesUpto)),
      ("extraPersonCharge", NumberText(p.extraPersonCharge)) ]
  }

  /**
   * The features the form shows, joined with ", ", read back as the same list
   * when it is non-empty and no feature holds a comma or surrounding white space.
   */
  lemma FeaturesRoundTrip(fs: seq<string>)
    requires fs != []
    requires forall i :: 0 <= i < |fs| ==> ',' !in fs[i] && Text.Trimmed(fs[i])
    ensures ParseFeatures(Text.Join(fs, ", ")) == fs
  {
    Text.SplitTrimJoin(fs, ',');
  }

  /** The unchanged edit form's record has one key per field. */
  lemma EditUnchangedKeys(p: Plan)
    ensures PlanData(FormEntries(p)).Keys == {"type", "description", FeaturesKey} + NumericKeys
  {
    var e := FormEntries(p);
    PlanDataKeys(e);
    assert (set i | 0 <= i < |e| :: e[i].0) == {"type", "description", FeaturesKey} + NumericKeys by {
      assert e[0].0 == "type" && e[1].0 == "description" && e[2].0 == FeaturesKey;
      assert e[3].0 == "morningPrice" && e[4].0 == "eveningPrice";
      assert e[5].0 == "servesUpto" && e[6].0 == "extraPersonCharge";
    }
  }

  /** Submitting the edit form unchanged sends the plan's own fields back. */
  lemma EditUnchangedRoundTrip(p: Plan)
    requires p.features != []
    requires forall i :: 0 <= i < |p.features| ==> ',' !in p.features[i] && Text.Trimmed(p.features[i])
    ensures var d := PlanData(FormEntries(p));
      && d.Keys == {"type", "description", FeaturesKey} + NumericKeys
      && d["type"] == Raw(p.planType) && d["description"] == Raw(p.description)
      && d[FeaturesKey] == Features(p.features)
      && d["morningPrice"] == Numeric(Text.Int(p.morningPrice))
      && d["eveningPrice"] == Numeric(Text.Int(p.eveningPrice))
      && d["servesUpto"] == Numeric(Text.Int(p.servesUpto))
      && d["extraPersonCharge"] == Numeric(Text.Int(p.extraPersonCharge))
  {
    var e := FormEntries(p);
    EditUnchangedKeys(p);
    PlanDataLastWins(e, 0);
    PlanDataLastWins(e, 1);
    PlanDataLastWins(e, 2);
    PlanDataLastWins(e, 3);
    PlanDataLastWins(e, 4);
    PlanDataLastWins(e, 5);
    PlanDataLastWins(e, 6);
    FeaturesRoundTrip(p.features);
    Text.NumberOfDecimal(p.morningPrice);
    Text.NumberOfDecimal(p.eveningPrice);
    Text.NumberOfDecimal(p.servesUpto);
    Text.NumberOfDecimal(p.extraPersonCharge);
  }

  // ---------------------------------------------------------------- saving

  datatype Request = Create(data: map<string, PlanValue>) | Update(id: string, data: map<string, PlanValue>)

  /** The choice as the submit handler makes it: update whenever a plan is being edited. */
  function ChooseRequestAsWritten(currentPlan: Option<Plan>, data: map<string, PlanValue>): (r: Request)
    ensures r.Update? <==> currentPlan.Some?
    ensures r.Update? ==> r.id == currentPlan.value.id
    ensures r.data == data
  {
    match currentPlan
    case Some(p) => Update(p.id, data)
    case None => Create(data)
  }

  /** The two forms on the page: "Add Plan" in the add dialog, "Update Plan" in the edit dialog. */
  datatype Form = AddForm | EditForm

  /**
   * The choice by the form that was submitted: the edit form updates the plan it
   * shows, the add form creates.
   */
  function ChooseRequest(form: Form, currentPlan: Option<Plan>, data: map<string, PlanValue>): (r: Request)
    ensures r.Update? <==> form == EditForm && currentPlan.Some?
    ensures r.Update? ==> r.id == currentPlan.value.id
    ensures r.data == data
  {
    if form == EditForm && currentPlan.Some? then Update(currentPlan.value.id, data) else Create(data)
  }

  /** For the edit form the two choices agree. */
  lemma EditFormChoicesAgree(currentPlan: Option<Plan>, data: map<string, PlanValue>)
    ensures ChooseRequest(EditForm, currentPlan, data) == ChooseRequestAsWritten(currentPlan, data)
  {
  }

  /** The state of the plans page. */
  class PlansPage {
    var plans: seq<Plan>
    var isAddModalOpen: bool
    var isEditModalOpen: bool
    var currentPlan: Option<Plan>

    constructor ()
      ensures plans == [] && !isAddModalOpen && !isEditModalOpen && currentPlan == None
    {
      plans := [];
      isAddModalOpen := false;
      isEditModalOpen := false;
      currentPlan := None;
    }

    /** The pencil button of a row. */
    method EditClicked(p: Plan)
      modifies this`currentPlan, this`isEditModalOpen
      ensures currentPlan == Some(p) && isEditModalOpen
    {
      currentPlan := Some(p);
      isEditModalOpen := true;
    }

    /** The add dialog opened or closed by its trigger or its close button. */
    method SetAddOpen(open: bool)
      modifies this`isAddModalOpen
      ensures isAddModalOpen == open
    {
      isAddModalOpen := open;
    }

    /** The edit dialog closed (or opened) by the dialog itself; the plan being edited stays. */
    method SetEditOpen(open: bool)
      modifies this`isEditModalOpen
      ensures isEditModalOpen == open
    {
      isEditModalOpen := open;
    }

    /** A fetch of the plans answered. */
    method Loaded(ps: seq<Plan>)
      modifies this`plans
      ensures plans == ps
    {
      plans := ps;
    }

    /**
     * Corrected: the choice between update and create is `ChooseRequest`,
     * which also asks which form was submitted; `ChooseRequestAsWritten` is
     * the handler's own test. Submitting `form` with the given entries: the
     * request to send, and, when
     * the server accepted it, both dialogs closed and no plan being edited.
     * A rejected save changes nothing.
     */
    method Submit(form: Form, entries: seq<(string, string)>, saved: bool) returns (req: Request)
      modifies this`isAddModalOpen, this`isEditModalOpen, this`currentPlan
      ensures req == ChooseRequest(form, old(currentPlan), PlanData(entries))
      ensures saved ==> !isAddModalOpen && !isEditModalOpen && currentPlan == None
      ensures !saved ==> isAddModalOpen == old(isAddModalOpen) && isEditModalOpen == old(isEditModalOpen)
                         && currentPlan == old(currentPlan)
    {
      var data := BuildPlanData(entries);
      req := ChooseRequest(form, currentPlan, data);
      if saved {
        isAddModalOpen := false;
        isEditModalOpen := false;
        currentPlan := None;
      }
    }
  }

  /**
   * Closing the edit dialog without saving keeps the plan being edited, so a
   * plan then entered in the add dialog is sent as an update of that plan.
   */
  method AddAfterCancelledEdit(p: Plan, entries: seq<(string, string)>) returns (asWritten: Request, intended: Request)
    ensures asWritten == Update(p.id, PlanData(entries))
    ensures intended == Create(PlanData(entries))
  {
    var page := new PlansPage();
    page.EditClicked(p);
    page.SetEditOpen(false);
    page.SetAddOpen(true);
    asWritten := ChooseRequestAsWritten(page.currentPlan, PlanData(entries));
    intended := page.Submit(AddForm, entries, true);
  }
}
