/** The read-only profile page (src/app/components/Profile.tsx): which tabs it lists, the
    avatar or initials it shows, and which fields each panel displays. */
module ProfileView {
  import opened Wrappers
  import opened Documents
  import opened EditProfileForm

  const AllTabs: seq<string> := ["Basic Details", "Additional Details", "Spouse Details", "Personal Preferences"]

  /** The `visibleTabs` filter condition. */
  predicate KeepTab(tab: string, maritalStatus: string) {
    tab != "Spouse Details" || maritalStatus == "Married"
  }

  /** `tabs.filter(...)`: the tabs that pass, in their order. */
  function FilterTabs(tabs: seq<string>, maritalStatus: string): (kept: seq<string>)
    ensures |kept| <= |tabs|
    ensures forall i :: 0 <= i < |kept| ==> KeepTab(kept[i], maritalStatus)
    decreases |tabs|
  {
    if |tabs| == 0 then []
    else (if KeepTab(tabs[0], maritalStatus) then [tabs[0]] else []) + FilterTabs(tabs[1..], maritalStatus)
  }

  /** The filter keeps exactly the tabs that pass the condition. */
  lemma {:induction false} FilterTabsMembers(tabs: seq<string>, maritalStatus: string)
    ensures forall t :: t in FilterTabs(tabs, maritalStatus) <==> t in tabs && KeepTab(t, maritalStatus)
    decreases |tabs|
  {
    if |tabs| > 0 {
      FilterTabsMembers(tabs[1..], maritalStatus);
      assert tabs == [tabs[0]] + tabs[1..];
    }
  }

  /** The listed tabs: all four for a married user; otherwise the same list with
      "Spouse Details" taken out and the order kept. They are the edit form's labels. */
  function VisibleTabs(maritalStatus: string): (tabs: seq<string>)
    ensures |tabs| == if maritalStatus == "Married" then 4 else 3
    ensures tabs == if maritalStatus == "Married" then AllTabs else AllTabs[..2] + AllTabs[3..]
    ensures tabs == TabLabels(maritalStatus)
  {
    FilterAllTabs(maritalStatus);
    FilterTabs(AllTabs, maritalStatus)
  }

  /** The filter over the four tabs, one tab at a time. */
  lemma FilterAllTabs(maritalStatus: string)
    ensures FilterTabs(AllTabs, maritalStatus) ==
      ["Basic Details", "Additional Details"]
      + (if maritalStatus == "Married" then ["Spouse Details"] else [])
      + ["Personal Preferences"]
  {
    var t1, t2, t3 := AllTabs[1..], AllTabs[2..], AllTabs[3..];
    assert t1[1..] == t2 && t2[1..] == t3 && t3[1..] == [];
    var married := maritalStatus == "Married";
    if married {
      assert FilterTabs(t2, maritalStatus) == t2;
      assert FilterTabs(AllTabs, maritalStatus) == AllTabs;
    } else {
      assert FilterTabs(t2, maritalStatus) == t3;
    }
  }

  /** The initials: first letters of first and last name when both are present, else "?". */
  function Initials(firstName: string, lastName: string): (r: string)
    ensures r == "?" <==> firstName == "" || lastName == ""
    ensures r != "?" ==> firstName != "" && lastName != "" && r == [firstName[0], lastName[0]]
  {
    if firstName != "" && lastName != "" then [firstName[0]] + [lastName[0]] else "?"
  }

  /** The avatar: an image source and, inside it, a text shown when there is no image. */
  datatype Avatar = Avatar(src: Option<string>, content: Option<string>)

  /** The avatar of a profile: its stored path as the image when not empty, and the
      initials exactly when there is no image. */
  function AvatarOf(profile: Fields): (a: Avatar)
    ensures a.src.Some? <==> Get(profile, "avatar") != ""
    ensures a.src.Some? ==> a.src.value == Get(profile, "avatar")
    ensures a.content.Some? <==> a.src.None?
    ensures a.content.Some? ==> a.content.value == Initials(Get(profile, "firstName"), Get(profile, "lastName"))
  {
    var initials := Initials(Get(profile, "firstName"), Get(profile, "lastName"));
    var src := if Get(profile, "avatar") != "" then Some(Get(profile, "avatar")) else None;
    Avatar(src, if src.None? then Some(initials) else None)
  }

  /** `value || '—'`. */
  function OrDash(v: string): (shown: string)
    ensures shown != ""
    ensures v != "" ==> shown == v
    ensures v == "" ==> shown == "—"
  {
    if v != "" then v else "—"
  }

  /** A displayed field: its caption, the profile key it reads, and whether an empty value
      falls back to '—'. */
  datatype FieldSpec = FieldSpec(caption: string, field: string, dashed: bool)

  /** The fields each panel shows, in order. */
  function Layout(s: Section): seq<FieldSpec> {
    match s
    case Basic => [FieldSpec("Salutation", "salutation", false), FieldSpec("First Name", "firstName", false),
                   FieldSpec("Last Name", "lastName", false), FieldSpec("Email Address", "email", false)]
    case Additional => [FieldSpec("Home Address", "homeAddress", true), FieldSpec("Country", "country", true),
                        FieldSpec("Postal Code", "postalCode", false), FieldSpec("Date of Birth", "dob", false),
                        FieldSpec("Gender", "gender", true), FieldSpec("Marital Status", "maritalStatus", true)]
    case Spouse => [FieldSpec("Spouse Salutation", "spouseSalutation", true),
                    FieldSpec("Spouse First Name", "spouseFirstName", true),
                    FieldSpec("Spouse Last Name", "spouseLastName", true)]
    case Preferences => [FieldSpec("Hobbies", "hobbies", true), FieldSpec("Favorite Sports", "sports", true),
                         FieldSpec("Preferred Music Genres", "music", true),
                         FieldSpec("Preferred Movies/TV Shows", "movies", true)]
  }

  /** The fields whose empty value is displayed as '—': every optional profile field. */
  const DashedFields: set<string> := {"homeAddress", "country", "gender", "maritalStatus",
    "spouseSalutation", "spouseFirstName", "spouseLastName", "hobbies", "sports", "music", "movies"}

  datatype Row = Row(caption: string, field: string, text: string)

  /** The rows of a panel: one per field in the layout's order; a dashed field shows '—'
      when empty, any other field its value as it is. */
  function Rows(profile: Fields, specs: seq<FieldSpec>): (rows: seq<Row>)
    ensures |rows| == |specs|
    ensures forall i :: 0 <= i < |specs| ==>
      && rows[i].caption == specs[i].caption && rows[i].field == specs[i].field
      && rows[i].text == (if specs[i].dashed then OrDash(Get(profile, specs[i].field)) else Get(profile, specs[i].field))
    decreases |specs|
  {
    if |specs| == 0 then []
    else
      var s := specs[0];
      [Row(s.caption, s.field, if s.dashed then OrDash(Get(profile, s.field)) else Get(profile, s.field))]
        + Rows(profile, specs[1..])
  }

  /** In every panel the fields that fall back to '—' are exactly the optional ones. */
  lemma DashedExactlyOptional(s: Section)
    ensures forall i :: 0 <= i < |Layout(s)| ==> (Layout(s)[i].dashed <==> Layout(s)[i].field in DashedFields)
  {
    match s
    case Basic =>
    case Additional =>
    case Spouse =>
    case Preferences =>
  }

  /** Each panel shows fields of the form's data, none twice, and falls back to '—' on
      exactly the fields the schema does not require. */
  lemma LayoutFields(s: Section)
    ensures var specs := Layout(s);
      && (forall i :: 0 <= i < |specs| ==> specs[i].field in FormFields)
      && (forall i, j :: 0 <= i < j < |specs| ==> specs[i].field != specs[j].field)
      && (forall i :: 0 <= i < |specs| ==> (specs[i].dashed <==> specs[i].field !in RequiredFields))
  {
    match s
    case Basic =>
    case Additional =>
    case Spouse =>
    case Preferences =>
  }

  /** Every field of the form's data appears on some panel. */
  lemma EveryFieldShown()
    ensures forall f :: f in FormFields ==> exists s: Section, i :: 0 <= i < |Layout(s)| && Layout(s)[i].field == f
  {
    var b, a, sp, pr := Layout(Basic), Layout(Additional), Layout(Spouse), Layout(Preferences);
    assert b[0].field == "salutation" && b[1].field == "firstName" && b[2].field == "lastName" && b[3].field == "email";
    assert a[0].field == "homeAddress" && a[1].field == "country" && a[2].field == "postalCode"
      && a[3].field == "dob" && a[4].field == "gender" && a[5].field == "maritalStatus";
    assert sp[0].field == "spouseSalutation" && sp[1].field == "spouseFirstName" && sp[2].field == "spouseLastName";
    assert pr[0].field == "hobbies" && pr[1].field == "sports" && pr[2].field == "music" && pr[3].field == "movies";
  }

  /** Two different panels never show the same field, so with `Layout`'s own distinctness
      every field appears at exactly one place. */
  lemma PanelsDisjoint(s: Section, t: Section)
    requires s != t
    ensures forall i, j :: 0 <= i < |Layout(s)| && 0 <= j < |Layout(t)| ==> Layout(s)[i].field != Layout(t)[j].field
  {
  }

  /** An empty optional field reads '—', and a required one is shown as stored. */
  lemma EmptyOptionalShowsDash(profile: Fields, s: Section)
    ensures forall r :: r in Rows(profile, Layout(s)) && r.field in DashedFields && Get(profile, r.field) == "" ==> r.text == "—"
    ensures forall r :: r in Rows(profile, Layout(s)) && r.field !in DashedFields ==> r.text == Get(profile, r.field)
  {
    var specs := Layout(s);
    var rows := Rows(profile, specs);
    DashedExactlyOptional(s);
    forall r | r in rows
      ensures r.field in DashedFields && Get(profile, r.field) == "" ==> r.text == "—"
      ensures r.field !in DashedFields ==> r.text == Get(profile, r.field)
    {
      var i :| 0 <= i < |rows| && rows[i] == r;
      assert specs[i].dashed <==> specs[i].field in DashedFields;
    }
  }

  /** One rendered panel; only the basic panel holds the avatar. */
  datatype Panel = Panel(section: Section, avatar: Option<Avatar>, rows: seq<Row>)

  function PanelFor(profile: Fields, s: Section): Panel {
    Panel(s, if s == Basic then Some(AvatarOf(profile)) else None, Rows(profile, Layout(s)))
  }

  /** The sections whose guards hold for the active tab, in the page's order. Each guard
      is the edit form's, so they are the sections the edit form shows. */
  function PanelSections(activeTab: int, maritalStatus: string): (secs: seq<Section>)
    ensures forall x :: x in secs <==> x in SectionsShown(activeTab, maritalStatus)
    ensures |secs| == |SectionsShown(activeTab, maritalStatus)|
  {
    var married := maritalStatus == "Married";
    (if activeTab == 0 then [Basic] else [])
      + (if activeTab == 1 then [Additional] else [])
      + (if activeTab == 2 && married then [Spouse] else [])
      + (if activeTab == 3 || (activeTab == 2 && !married) then [Preferences] else [])
  }

  datatype Screen = NotFound(message: string) | Page(tabs: seq<string>, panels: seq<Panel>)

  /** The page once loading has finished: "Profile not found." for a null profile;
      otherwise the visible tabs and one panel per section the active tab selects, which
      are the sections the edit form shows for the same tab and marital status. */
  function Render(profile: Option<Fields>, activeTab: int): (screen: Screen)
    ensures profile.None? ==> screen == NotFound("Profile not found.")
    ensures profile.Some? ==> screen.Page?
    ensures profile.Some? ==> screen.tabs == VisibleTabs(Get(profile.value, "maritalStatus"))
    ensures profile.Some? ==>
      var shown := SectionsShown(activeTab, Get(profile.value, "maritalStatus"));
      && |screen.panels| == |shown|
      && forall i :: 0 <= i < |screen.panels| ==>
           screen.panels[i].section in shown && screen.panels[i] == PanelFor(profile.value, screen.panels[i].section)
  {
    if profile.None? then NotFound("Profile not found.")
    else
      var p := profile.value;
      var secs := PanelSections(activeTab, Get(p, "maritalStatus"));
      Page(VisibleTabs(Get(p, "maritalStatus")), seq(|secs|, i requires 0 <= i < |secs| => PanelFor(p, secs[i])))
  }
}
