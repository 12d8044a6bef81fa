/** The edit-profile form (src/app/components/EditProfileForm.tsx): its validation schema,
    its tab labels and section selection, and what submitting sends and does to the tab. */
module EditProfileForm {
  import opened Wrappers
  import opened Documents

  /** The four panels of the profile components. */
  datatype Section = Basic | Additional | Spouse | Preferences

  /** Reference layout: the section a tab index designates, given the marital status. The
      spouse panel takes index 2 only for a married user, and otherwise index 2 shows the
      preferences. */
  function SectionFor(tab: nat, maritalStatus: string): Section
    requires tab < 4
  {
    match tab
    case 0 => Basic
    case 1 => Additional
    case 2 => if maritalStatus == "Married" then Spouse else Preferences
    case 3 => Preferences
  }

  /** The label each section's tab carries. */
  function LabelOf(s: Section): string {
    match s
    case Basic => "Basic Details"
    case Additional => "Additional Details"
    case Spouse => "Spouse Details"
    case Preferences => "Personal Preferences"
  }

  /** The tab labels the form renders, in order; the spouse tab only when the watched
      marital status is "Married". Each label names the section its index shows. */
  function TabLabels(maritalStatus: string): (labels: seq<string>)
    ensures "Spouse Details" in labels <==> maritalStatus == "Married"
    ensures |labels| == if maritalStatus == "Married" then 4 else 3
    ensures forall i :: 0 <= i < |labels| ==> labels[i] == LabelOf(SectionFor(i, maritalStatus))
  {
    ["Basic Details", "Additional Details"]
      + (if maritalStatus == "Married" then ["Spouse Details"] else [])
      + ["Personal Preferences"]
  }

  /** The sections rendered for the current tab, each by its own guard in the form. For
      every tab from 0 to 3 exactly one is rendered, the one the reference layout names;
      any other tab value renders none. */
  function SectionsShown(tab: int, maritalStatus: string): (shown: set<Section>)
    ensures 0 <= tab < 4 ==> shown == {SectionFor(tab, maritalStatus)}
    ensures tab < 0 || 4 <= tab ==> shown == {}
  {
    (if tab == 0 then {Basic} else {})
      + (if tab == 1 then {Additional} else {})
      + (if tab == 2 && maritalStatus == "Married" then {Spouse} else {})
      + (if tab == 3 || (tab == 2 && maritalStatus != "Married") then {Preferences} else {})
  }

  /** What validation takes from outside the form: the current year and the year JavaScript's
      `Date` reads from a `dob` string (both for the age rule), and the email test of the
      validation library. */
  datatype Context = Context(currentYear: int, yearOf: string -> int, isEmail: string -> bool)

  /** One rule of the schema, on one field. */
  datatype Rule =
    | Required(field: string, message: string)
    | EmailFormat(field: string)
    | MinAge(field: string, years: int, message: string)

  /** The schema, rule by rule in declaration order. */
  const Schema: seq<Rule> := [
    Required("salutation", "Salutation is required"),
    Required("firstName", "First name is required"),
    Required("lastName", "Last name is required"),
    EmailFormat("email"),
    Required("email", "Email is required"),
    Required("postalCode", "Postal code is required"),
    Required("dob", "Date of birth is required"),
    MinAge("dob", 17, "You must be at least 17 years old")
  ]

  /** The fields of the form's data, `ProfileFormData`. */
  const FormFields: set<string> := {"salutation", "firstName", "lastName", "email", "homeAddress", "country",
    "postalCode", "dob", "gender", "maritalStatus", "spouseSalutation", "spouseFirstName", "spouseLastName",
    "hobbies", "sports", "music", "movies"}

  const RequiredFields: set<string> := {"salutation", "firstName", "lastName", "email", "postalCode", "dob"}

  /** Whether `values` pass one rule. An empty value is left to `Required`; the age is the
      difference of the two years, month and day playing no part. */
  predicate Passes(rule: Rule, values: Fields, ctx: Context)
    ensures rule.Required? ==> (Passes(rule, values, ctx) <==> Get(values, rule.field) != "")
    ensures rule.EmailFormat? ==>
      (Passes(rule, values, ctx) <==> Get(values, rule.field) == "" || ctx.isEmail(Get(values, rule.field)))
    ensures rule.MinAge? ==>
      (Passes(rule, values, ctx) <==> ctx.currentYear - ctx.yearOf(Get(values, rule.field)) >= rule.years)
  {
    match rule
    case Required(f, _) => Get(values, f) != ""
    case EmailFormat(f) => Get(values, f) == "" || ctx.isEmail(Get(values, f))
    case MinAge(f, years, _) => ctx.currentYear - ctx.yearOf(Get(values, f)) >= years
  }

  /** The fields that carry an error after validating `values` against `rules`. */
  function InvalidFields(rules: seq<Rule>, values: Fields, ctx: Context): (bad: set<string>)
    ensures forall f :: f in bad <==> exists i :: 0 <= i < |rules| && rules[i].field == f && !Passes(rules[i], values, ctx)
    decreases |rules|
  {
    if |rules| == 0 then {}
    else
      var rest := InvalidFields(rules[1..], values, ctx);
      assert forall i :: 1 <= i < |rules| ==> rules[i] == rules[1..][i - 1];
      if Passes(rules[0], values, ctx) then rest else {rules[0].field} + rest
  }

  /** The schema's rules all pass exactly when the six required fields are filled, the
      email passes the email test, and the current year minus the birth year is at least 17. */
  lemma SchemaMeaning(values: Fields, ctx: Context)
    ensures (forall i :: 0 <= i < |Schema| ==> Passes(Schema[i], values, ctx)) <==>
      && (forall f :: f in RequiredFields ==> Get(values, f) != "")
      && ctx.isEmail(Get(values, "email"))
      && ctx.currentYear - ctx.yearOf(Get(values, "dob")) >= 17
  {
    EachRule(values, ctx);
    var filled := Get(values, "salutation") != "" && Get(values, "firstName") != "" && Get(values, "lastName") != ""
      && Get(values, "email") != "" && Get(values, "postalCode") != "" && Get(values, "dob") != "";
    if filled {
      forall f | f in RequiredFields
        ensures Get(values, f) != ""
      {
        assert f == "salutation" || f == "firstName" || f == "lastName" || f == "email" || f == "postalCode" || f == "dob";
      }
    } else {
      assert exists f :: f in RequiredFields && Get(values, f) == "" by {
        if Get(values, "salutation") == "" { assert "salutation" in RequiredFields; }
        else if Get(values, "firstName") == "" { assert "firstName" in RequiredFields; }
        else if Get(values, "lastName") == "" { assert "lastName" in RequiredFields; }
        else if Get(values, "email") == "" { assert "email" in RequiredFields; }
        else if Get(values, "postalCode") == "" { assert "postalCode" in RequiredFields; }
        else { assert "dob" in RequiredFields; }
      }
    }
  }

  /** The schema's rules one by one. */
  lemma EachRule(values: Fields, ctx: Context)
    ensures (forall i :: 0 <= i < |Schema| ==> Passes(Schema[i], values, ctx)) <==>
      && Get(values, "salutation") != "" && Get(values, "firstName") != "" && Get(values, "lastName") != ""
      && (Get(values, "email") == "" || ctx.isEmail(Get(values, "email"))) && Get(values, "email") != ""
      && Get(values, "postalCode") != "" && Get(values, "dob") != ""
      && ctx.currentYear - ctx.yearOf(Get(values, "dob")) >= 17
  {
    var each := Passes(Schema[0], values, ctx) && Passes(Schema[1], values, ctx) && Passes(Schema[2], values, ctx)
      && Passes(Schema[3], values, ctx) && Passes(Schema[4], values, ctx) && Passes(Schema[5], values, ctx)
      && Passes(Schema[6], values, ctx) && Passes(Schema[7], values, ctx);
    if each {
      forall i | 0 <= i < |Schema|
        ensures Passes(Schema[i], values, ctx)
      {
        assert i in {0, 1, 2, 3, 4, 5, 6, 7};
      }
    }
  }

  /** No field has an error exactly when every rule passes. */
  lemma NoErrorsIffAllPass(rules: seq<Rule>, values: Fields, ctx: Context)
    ensures InvalidFields(rules, values, ctx) == {} <==> forall i :: 0 <= i < |rules| ==> Passes(rules[i], values, ctx)
  {
    var bad := InvalidFields(rules, values, ctx);
    if bad != {} {
      var f :| f in bad;
    }
  }

  /** The submit button is enabled exactly when the form is valid: the six required fields
      are filled, the email passes the email test, and the current year minus the birth
      year is at least 17. */
  function SubmitEnabled(values: Fields, ctx: Context): (enabled: bool)
    ensures enabled <==>
      && (forall f :: f in RequiredFields ==> Get(values, f) != "")
      && ctx.isEmail(Get(values, "email"))
      && ctx.currentYear - ctx.yearOf(Get(values, "dob")) >= 17
  {
    NoErrorsIffAllPass(Schema, values, ctx);
    SchemaMeaning(values, ctx);
    InvalidFields(Schema, values, ctx) == {}
  }

  /** The entries the submit loop appends, in key order: one text entry per field whose
      value is truthy (non-empty). */
  function TruthyEntries(values: Fields): (entries: seq<FormEntry>)
    ensures |entries| <= |values|
    ensures forall e :: e in entries <==>
      exists i :: 0 <= i < |values| && values[i].1 != "" && e == FormEntry(values[i].0, Text(values[i].1))
    ensures DistinctKeys(values) ==> forall i, j :: 0 <= i < j < |entries| ==> entries[i].key != entries[j].key
    decreases |values|
  {
    if |values| == 0 then []
    else
      var init, last := values[..|values| - 1], values[|values| - 1];
      assert forall i :: 0 <= i < |init| ==> init[i] == values[i];
      var front := TruthyEntries(init);
      assert forall e :: e in front ==> exists i :: 0 <= i < |init| && e.key == init[i].0;
      front + (if last.1 != "" then [FormEntry(last.0, Text(last.1))] else [])
  }

  /** For an object's values the body is exactly the non-empty fields: the server's
      `Object.fromEntries` of it has a key exactly when its value is non-empty, holding
      that value as text. */
  lemma TruthyEntriesFromEntries(values: Fields)
    requires DistinctKeys(values)
    ensures forall k :: k in FromEntries(TruthyEntries(values)) <==> Get(values, k) != ""
    ensures forall k :: k in FromEntries(TruthyEntries(values)) ==>
      FromEntries(TruthyEntries(values))[k] == Scalar(Text(Get(values, k)))
  {
    var entries := TruthyEntries(values);
    forall k | k in FromEntries(entries)
      ensures Get(values, k) != "" && FromEntries(entries)[k] == Scalar(Text(Get(values, k)))
    {
      var i :| 0 <= i < |entries| && entries[i].key == k;
      SentKeyHoldsValue(values, i);
    }
    forall k | Get(values, k) != ""
      ensures k in FromEntries(entries)
    {
      assert FormEntry(k, Text(Get(values, k))) in entries;
    }
  }

  /** The key of a sent entry reads, on the server, as the field's value. */
  lemma SentKeyHoldsValue(values: Fields, i: nat)
    requires DistinctKeys(values) && i < |TruthyEntries(values)|
    ensures var e := TruthyEntries(values)[i];
      Get(values, e.key) != "" && e.value == Text(Get(values, e.key)) &&
      FromEntries(TruthyEntries(values))[e.key] == Scalar(e.value)
  {
    var entries := TruthyEntries(values);
    assert entries[i] in entries;
    var a :| 0 <= a < |values| && values[a].1 != "" && entries[i] == FormEntry(values[a].0, Text(values[a].1));
    GetDistinct(values, a);
  }

  /** How the save request ended, as far as the form looks at it. */
  datatype SaveOutcome =
    | Replied(success: bool)   // the JSON reply's `success` field
    | Threw                    // the request or the JSON decoding threw

  /** The form's state: the selected tab and the chosen avatar file. */
  class EditForm {
    var tab: int
    var avatarFile: Option<Upload>

    constructor ()
      ensures tab == 0 && avatarFile.None?
    {
      tab := 0;
      avatarFile := None;
    }

    /** The tab bar's `onChange`. */
    method SelectTab(newVal: int)
      modifies this
      ensures tab == newVal && avatarFile == old(avatarFile)
    {
      tab := newVal;
    }

    /** The file input's `onChange`: the first selected file, if any, replaces the choice. */
    method ChooseFile(files: seq<Upload>)
      modifies this
      ensures avatarFile == if |files| > 0 then Some(files[0]) else old(avatarFile)
      ensures tab == old(tab)
    {
      if |files| > 0 {
        avatarFile := Some(files[0]);
      }
    }

    /** The body `onSubmit` builds: the truthy fields in key order, then the avatar file
        under `avatar` when one was chosen. */
    method BuildFormData(values: Fields) returns (formData: seq<FormEntry>)
      ensures formData == TruthyEntries(values) +
        (if avatarFile.Some? then [FormEntry("avatar", File(avatarFile.value))] else [])
    {
      formData := [];
      var i := 0;
      while i < |values|
        invariant 0 <= i <= |values|
        invariant formData == TruthyEntries(values[..i])
      {
        assert values[..i + 1][..i] == values[..i];
        if values[i].1 != "" {
          formData := formData + [FormEntry(values[i].0, Text(values[i].1))];
        }
        i := i + 1;
      }
      assert values[..|values|] == values;
      if avatarFile.Some? {
        formData := formData + [FormEntry("avatar", File(avatarFile.value))];
      }
    }

    /** `onSubmit`: builds the body, and once the reply reports success moves to the next
        tab, but never past index 3. */
    method OnSubmit(values: Fields, outcome: SaveOutcome) returns (formData: seq<FormEntry>)
      modifies this
      ensures formData == TruthyEntries(values) +
        (if avatarFile.Some? then [FormEntry("avatar", File(avatarFile.value))] else [])
      ensures avatarFile == old(avatarFile)
      ensures tab == if outcome == Replied(true) then (if old(tab) + 1 < 3 then old(tab) + 1 else 3) else old(tab)
    {
      formData := BuildFormData(values);
      if outcome.Replied? && outcome.success {
        tab := if tab + 1 < 3 then tab + 1 else 3;
      }
    }
  }
}
