/**
  The navigation and class/division selection logic of the student
  registration form: the six tabs in their fixed order, the derived list of
  divisions for the selected class, and the event handlers that update the
  form's state. The form's rendering, its data fetching and its validation
  library are outside this model; where a handler consults the validator, the
  validator's verdict is a parameter.
 */
module StudentForm {
  import opened Wrappers
  import opened Regex

  // ---------------------------------------------------------------------------
  // Tabs
  // ---------------------------------------------------------------------------

  datatype Tab = Personal | Family | Academic | Other | Address | Bank

  /** The order in which the Next and Previous buttons walk the tabs. */
  const TabOrder: seq<Tab> := [Personal, Family, Academic, Other, Address, Bank]

  function TabIndex(t: Tab): (i: nat)
    ensures i < |TabOrder| && TabOrder[i] == t
  {
    match t
    case Personal => 0
    case Family => 1
    case Academic => 2
    case Other => 3
    case Address => 4
    case Bank => 5
  }

  /** The tab `handleNextTab` moves to: one step forward, and "bank" stays put. */
  function NextTab(t: Tab): (r: Tab)
    ensures t == Bank ==> r == Bank
    ensures t != Bank ==> TabIndex(r) == TabIndex(t) + 1
  {
    if t == Personal then Family
    else if t == Family then Academic
    else if t == Academic then Other
    else if t == Other then Address
    else if t == Address then Bank
    else t
  }

  /** The tab `handlePreviousTab` moves to: one step back, and "personal" stays put. */
  function PreviousTab(t: Tab): (r: Tab)
    ensures t == Personal ==> r == Personal
    ensures t != Personal ==> TabIndex(r) + 1 == TabIndex(t)
  {
    if t == Family then Personal
    else if t == Academic then Family
    else if t == Other then Academic
    else if t == Address then Other
    else if t == Bank then Address
    else t
  }

  /** Next then Previous returns to the start, on every tab but the last. */
  lemma PreviousUndoesNext(t: Tab)
    requires t != Bank
    ensures PreviousTab(NextTab(t)) == t
  {
  }

  /** Previous then Next returns to the start, on every tab but the first. */
  lemma NextUndoesPrevious(t: Tab)
    requires t != Personal
    ensures NextTab(PreviousTab(t)) == t
  {
  }

  /** `k` presses of Next. */
  function NextTimes(t: Tab, k: nat): Tab
    decreases k
  {
    if k == 0 then t else NextTimes(NextTab(t), k - 1)
  }

  /** Pressing Next `k` times walks `k` tabs without skipping any, and stops at "bank". */
  lemma {:induction false} NextTimesIndex(t: Tab, k: nat)
    ensures TabIndex(NextTimes(t, k)) == if TabIndex(t) + k < 5 then TabIndex(t) + k else 5
    decreases k
  {
    if k > 0 {
      NextTimesIndex(NextTab(t), k - 1);
    }
  }

  // ---------------------------------------------------------------------------
  // Reference data: classes and their divisions
  // ---------------------------------------------------------------------------

  /** A division of a class (its `id` is what the division picker submits). */
  datatype Division = Division(id: nat, division: string, aliases: Option<string>)

  /** A class of the school; `classNumber` is the field the source calls `class`. */
  datatype AcademicClass = AcademicClass(classNumber: nat, divisions: seq<Division>)

  function DigitChar(d: nat): (c: char)
    requires d < 10
    ensures IsAsciiDigit(c)
  {
    ('0' as int + d) as char
  }

  /** `n.toString()` for a non-negative integer: its decimal digits, without leading zeros. */
  function NatToString(n: nat): (r: string)
    ensures |r| >= 1
    ensures forall i :: 0 <= i < |r| ==> IsAsciiDigit(r[i])
    ensures (r[0] == '0') == (n == 0)
    ensures n >= 10 ==> |r| >= 2
    decreases n
  {
    if n < 10 then [DigitChar(n)] else NatToString(n / 10) + [DigitChar(n % 10)]
  }

  /** Different numbers print differently, so comparing `toString()` values compares the numbers. */
  lemma {:induction false} NatToStringInjective(n: nat, m: nat)
    requires NatToString(n) == NatToString(m)
    ensures n == m
    decreases n
  {
    var r := NatToString(n);
    if n >= 10 && m >= 10 {
      var a, b := NatToString(n / 10), NatToString(m / 10);
      assert r == a + [DigitChar(n % 10)] && r == b + [DigitChar(m % 10)];
      assert DigitChar(n % 10) == r[|r| - 1] == DigitChar(m % 10);
      assert a == r[..|r| - 1] == b;
      NatToStringInjective(n / 10, m / 10);
    }
  }

  /** `cls.class.toString()`, the value the class picker offers and compares with. */
  function ClassKey(c: AcademicClass): string {
    NatToString(c.classNumber)
  }

  /** `div.id.toString()`, the value the division picker offers and compares with. */
  function DivisionKey(d: Division): string {
    NatToString(d.id)
  }

  /** The index of the first element whose key is `v`, or `|xs|` when there is none. */
  function FirstMatch<T>(xs: seq<T>, key: T -> string, v: string): (i: nat)
    ensures i <= |xs|
    ensures forall j :: 0 <= j < i ==> key(xs[j]) != v
    ensures i < |xs| ==> key(xs[i]) == v
    decreases |xs|
  {
    if xs == [] then 0
    else if key(xs[0]) == v then 0
    else 1 + FirstMatch(xs[1..], key, v)
  }

  /** `availableDivisions`: JavaScript distinguishes `null` (nothing to look up) from `undefined` (no class matched). */
  datatype ClassLookup = Null | Undefined | Found(cls: AcademicClass)

  /**
    `availableDivisions`: null while the class list is absent or no class is
    selected; otherwise the first class whose `class.toString()` equals the
    selection, or undefined when none does.
   */
  function AvailableDivisions(classes: Option<seq<AcademicClass>>, selectedClass: string): (r: ClassLookup)
    ensures r.Null? <==> classes.None? || selectedClass == ""
    ensures r.Undefined?
        <==> (classes.Some? && selectedClass != "" && forall c :: c in classes.value ==> ClassKey(c) != selectedClass)
    ensures r.Found? ==>
        && classes.Some?
        && ClassKey(r.cls) == selectedClass
        && exists i :: 0 <= i < |classes.value| && classes.value[i] == r.cls
             && forall j :: 0 <= j < i ==> ClassKey(classes.value[j]) != selectedClass
  {
    if classes.Some? && selectedClass != "" then
      var cs := classes.value;
      var i := FirstMatch(cs, ClassKey, selectedClass);
      if i < |cs| then Found(cs[i]) else Undefined
    else Null
  }

  /**
    The `find` in `handleDivisionChange`: the first division of the available
    class whose `id.toString()` equals `v`; none when there is no available
    class or no division matches.
   */
  function FindDivision(available: ClassLookup, v: string): (r: Option<Division>)
    ensures !available.Found? ==> r.None?
    ensures available.Found? ==> (r.None? <==> forall d :: d in available.cls.divisions ==> DivisionKey(d) != v)
    ensures r.Some? ==>
        && available.Found?
        && DivisionKey(r.value) == v
        && exists i :: 0 <= i < |available.cls.divisions| && available.cls.divisions[i] == r.value
             && forall j :: 0 <= j < i ==> DivisionKey(available.cls.divisions[j]) != v
  {
    if available.Found? then
      var ds := available.cls.divisions;
      var i := FirstMatch(ds, DivisionKey, v);
      if i < |ds| then Some(ds[i]) else None
    else None
  }

  /** No two classes share a class number. */
  predicate DistinctClassNumbers(cs: seq<AcademicClass>) {
    forall j, k :: 0 <= j < |cs| && 0 <= k < |cs| && cs[j].classNumber == cs[k].classNumber ==> j == k
  }

  /** No two divisions of a class share an id. */
  predicate DistinctDivisionIds(ds: seq<Division>) {
    forall j, k :: 0 <= j < |ds| && 0 <= k < |ds| && ds[j].id == ds[k].id ==> j == k
  }

  /** With distinct class numbers, selecting a class's own key finds exactly that class. */
  lemma SelectingClassFindsIt(cs: seq<AcademicClass>, i: nat)
    requires DistinctClassNumbers(cs) && i < |cs|
    ensures AvailableDivisions(Some(cs), ClassKey(cs[i])) == Found(cs[i])
  {
    var r := AvailableDivisions(Some(cs), ClassKey(cs[i]));
    assert !r.Undefined?;
    var j :| 0 <= j < |cs| && cs[j] == r.cls;
    NatToStringInjective(cs[j].classNumber, cs[i].classNumber);
  }

  /** With distinct ids, picking a division's own key records exactly that division. */
  lemma PickingDivisionFindsIt(c: AcademicClass, k: nat)
    requires DistinctDivisionIds(c.divisions) && k < |c.divisions|
    ensures FindDivision(Found(c), DivisionKey(c.divisions[k])) == Some(c.divisions[k])
  {
    var r := FindDivision(Found(c), DivisionKey(c.divisions[k]));
    assert !r.None?;
    var j :| 0 <= j < |c.divisions| && c.divisions[j] == r.value;
    NatToStringInjective(c.divisions[j].id, c.divisions[k].id);
  }

  /** The values the class picker offers: the key of every class that has at least one division. */
  function OfferedClasses(cs: seq<AcademicClass>): (r: seq<string>)
    ensures forall v :: v in r <==> exists c :: c in cs && |c.divisions| > 0 && ClassKey(c) == v
    decreases |cs|
  {
    if cs == [] then []
    else
      var rest := OfferedClasses(cs[1..]);
      assert forall c :: c in cs <==> c == cs[0] || c in cs[1..];
      if |cs[0].divisions| > 0 then [ClassKey(cs[0])] + rest else rest
  }

  /** With distinct class numbers, every class the picker offers leads to a non-empty division list. */
  lemma OfferedClassHasDivisions(cs: seq<AcademicClass>, v: string)
    requires DistinctClassNumbers(cs)
    requires v in OfferedClasses(cs)
    ensures AvailableDivisions(Some(cs), v).Found?
    ensures |AvailableDivisions(Some(cs), v).cls.divisions| > 0
  {
    var c :| c in cs && |c.divisions| > 0 && ClassKey(c) == v;
    var i :| 0 <= i < |cs| && cs[i] == c;
    SelectingClassFindsIt(cs, i);
  }

  // ---------------------------------------------------------------------------
  // The form's state and its handlers
  // ---------------------------------------------------------------------------

  datatype FormType = Create | Update | View

  /** A form field's value: text, or `undefined` for the fields that start unset. */
  datatype FormValue = Text(s: string) | Unset

  /** The form's default values, key by key. */
  const DefaultValues: map<string, FormValue> := map[
    "first_name" := Text(""), "middle_name" := Text(""), "last_name" := Text(""),
    "first_name_in_guj" := Text(""), "middle_name_in_guj" := Text(""), "last_name_in_guj" := Text(""),
    "gender" := Text("Male"), "birth_date" := Text(""), "birth_place" := Text(""),
    "birth_place_in_guj" := Text(""), "aadhar_no" := Unset, "aadhar_dise_no" := Unset,
    "father_name" := Text(""), "father_name_in_guj" := Text(""), "mother_name" := Text(""),
    "mother_name_in_guj" := Text(""), "primary_mobile" := Unset, "secondary_mobile" := Unset,
    "gr_no" := Unset, "roll_number" := Unset, "admission_date" := Text(""), "admission_std" := Unset,
    "class" := Text(""), "division" := Text(""), "privious_school" := Text(""),
    "privious_school_in_guj" := Text(""),
    "religiion" := Text(""), "religiion_in_guj" := Text(""), "caste" := Text(""),
    "caste_in_guj" := Text(""), "category" := Text("OPEN"),
    "address" := Text(""), "district" := Text(""), "city" := Text(""), "state" := Text(""),
    "postal_code" := Text(""),
    "bank_name" := Text(""), "account_no" := Unset, "IFSC_code" := Text("")
  ]

  /** The defaults the form starts from: gender "Male", category "OPEN", no class and no division. */
  lemma FormDefaults()
    ensures "gender" in DefaultValues && DefaultValues["gender"] == Text("Male")
    ensures "category" in DefaultValues && DefaultValues["category"] == Text("OPEN")
    ensures "class" in DefaultValues && DefaultValues["class"] == Text("")
    ensures "division" in DefaultValues && DefaultValues["division"] == Text("")
  {
  }

  /**
    The form's state: the active tab, the selected class and division, and
    the field values. The model takes the class list and the form type as
    fixed for the life of the state.
   */
  class StudentFormState {
    const classes: Option<seq<AcademicClass>>
    const formType: FormType
    var activeTab: Tab
    var selectedClass: string
    var selectedDivision: Option<Division>
    var values: map<string, FormValue>

    /** A recorded division belongs to the class that is currently selected. */
    predicate DivisionConsistent()
      reads this
    {
      var available := AvailableDivisions(classes, selectedClass);
      selectedDivision.Some? ==> available.Found? && selectedDivision.value in available.cls.divisions
    }

    /** The division picker is disabled until a class is selected. */
    predicate DivisionPickerDisabled()
      reads this
    {
      selectedClass == ""
    }

    constructor (classes: Option<seq<AcademicClass>>, formType: FormType)
      ensures this.classes == classes && this.formType == formType
      ensures activeTab == Personal && selectedClass == "" && selectedDivision == None
      ensures values == DefaultValues
      ensures DivisionConsistent()
    {
      this.classes := classes;
      this.formType := formType;
      activeTab := Personal;
      selectedClass := "";
      selectedDivision := None;
      values := DefaultValues;
    }

    /** `form.setValue(name, value)`, also what a field's `onChange` does. */
    method SetValue(name: string, value: FormValue)
      modifies this`values
      ensures values == old(values)[name := value]
    {
      values := values[name := value];
    }

    /** Choosing a class: record it, forget the division, and clear the division field. */
    method HandleClassChange(value: string)
      modifies this`selectedClass, this`selectedDivision, this`values
      ensures selectedClass == value && selectedDivision == None
      ensures values == old(values)["division" := Text("")]
      ensures DivisionConsistent()
    {
      selectedClass := value;
      selectedDivision := None;
      SetValue("division", Text(""));
    }

    /** Choosing a division: record the available class's division whose id prints as `value`, if any. */
    method HandleDivisionChange(value: string)
      modifies this`selectedDivision
      ensures selectedDivision == FindDivision(AvailableDivisions(classes, selectedClass), value)
      ensures DivisionConsistent()
    {
      var selectedDiv := FindDivision(AvailableDivisions(classes, selectedClass), value);
      selectedDivision := selectedDiv;
    }

    /**
      The Next button. On "personal" the personal-section check runs (its verdict is
      `personalCheckSucceeds`) and its flag is returned here only to show it is
      never consulted: the tab advances one step whatever the verdict.
     */
    method HandleNextTab(personalCheckSucceeds: bool) returns (isValidToChangeTab: bool)
      modifies this`activeTab
      ensures activeTab == NextTab(old(activeTab))
      ensures isValidToChangeTab == (old(activeTab) == Personal && personalCheckSucceeds)
      ensures DivisionConsistent() == old(DivisionConsistent())
    {
      isValidToChangeTab := false;
      if activeTab == Personal {
        isValidToChangeTab := personalCheckSucceeds;
      }

      if activeTab == Personal { activeTab := Family; }
      else if activeTab == Family { activeTab := Academic; }
      else if activeTab == Academic { activeTab := Other; }
      else if activeTab == Other { activeTab := Address; }
      else if activeTab == Address { activeTab := Bank; }
    }

    /** The Previous button: one step back, never re-validating. */
    method HandlePreviousTab()
      modifies this`activeTab
      ensures activeTab == PreviousTab(old(activeTab))
      ensures DivisionConsistent() == old(DivisionConsistent())
    {
      if activeTab == Family { activeTab := Personal; }
      else if activeTab == Academic { activeTab := Family; }
      else if activeTab == Other { activeTab := Academic; }
      else if activeTab == Address { activeTab := Other; }
      else if activeTab == Bank { activeTab := Address; }
    }

    /** Clicking a tab's trigger selects that tab directly. */
    method SetTab(t: Tab)
      modifies this`activeTab
      ensures activeTab == t
      ensures DivisionConsistent() == old(DivisionConsistent())
    {
      activeTab := t;
    }

    /** The class picker: its field takes the value, then `handleClassChange` runs. */
    method PickClass(value: string)
      modifies this`selectedClass, this`selectedDivision, this`values
      ensures selectedClass == value && selectedDivision == None
      ensures values == old(values)["class" := Text(value)]["division" := Text("")]
      ensures DivisionConsistent()
    {
      SetValue("class", Text(value));
      HandleClassChange(value);
    }

    /** The division picker, enabled only once a class is selected: its field takes the value, then `handleDivisionChange` runs. */
    method PickDivision(value: string)
      requires !DivisionPickerDisabled()
      modifies this`selectedDivision, this`values
      ensures values == old(values)["division" := Text(value)]
      ensures selectedDivision == FindDivision(AvailableDivisions(classes, selectedClass), value)
      ensures DivisionConsistent()
    {
      SetValue("division", Text(value));
      HandleDivisionChange(value);
    }

    /** The submit handler: each of its three branches is empty, so submitting changes nothing. */
    method HandleSubmit(submitted: map<string, FormValue>)
      ensures unchanged(this)
    {
      if formType == Create {
      } else if formType == Update {
      } else {
      }
    }
  }

  /**
    Two class choices in a row: class 5 with division A (id 1), then class 6
    with divisions A (id 2) and B (id 3). The second choice clears the division
    even though a division named "A" exists in both classes.
   */
  method ClassChangeScenario() {
    var a5 := Division(1, "A", None);
    var a6, b6 := Division(2, "A", None), Division(3, "B", None);
    var c5, c6 := AcademicClass(5, [a5]), AcademicClass(6, [a6, b6]);
    var form := new StudentFormState(Some([c5, c6]), Create);
    assert ClassKey(c5) == "5" && ClassKey(c6) == "6" && DivisionKey(a5) == "1";
    form.PickClass("5");
    assert AvailableDivisions(form.classes, "5") == Found(c5);
    form.PickDivision("1");
    assert form.selectedDivision == Some(a5);
    form.PickClass("6");
    assert form.selectedDivision == None && form.values["division"] == Text("");
  }

  /** From "personal" the Next button moves to "family" even when the personal check fails. */
  method NextIgnoresFailedCheckScenario() {
    var form := new StudentFormState(None, Create);
    var flag := form.HandleNextTab(false);
    assert !flag && form.activeTab == Family;
  }
}
