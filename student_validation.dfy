/**
  The student-registration schemas: one shape per form section (personal
  details, admission details, address, bank details) and `studentFormSchema`,
  their merge. Each field's rule is written exactly as declared, checks in
  declaration order; the lemmas restate each rule as a plain condition on the
  field's string.
 */
module StudentValidation {
  import opened Wrappers
  import opened Regex
  import opened Schema

  // ---------------------------------------------------------------------------
  // Character classes and patterns of the schemas
  // ---------------------------------------------------------------------------

  /** `[A-Za-z\s]` */
  const LettersSpace: CharClass := [Range('A', 'Z'), Range('a', 'z'), Space]
  /** `\d` */
  const Digit: CharClass := [Range('0', '9')]
  /** `[6-9]` */
  const MobileLead: CharClass := [Range('6', '9')]
  /** `[A-Za-z0-9\s]` */
  const AlnumSpace: CharClass := [Range('A', 'Z'), Range('a', 'z'), Range('0', '9'), Space]
  /** `[A-Za-z0-9\s,.-]` */
  const AddressChars: CharClass :=
    [Range('A', 'Z'), Range('a', 'z'), Range('0', '9'), Space, Range(',', ','), Range('.', '.'), Range('-', '-')]
  /** `[A-Z]` */
  const Upper: CharClass := [Range('A', 'Z')]
  /** the literal `0` */
  const Zero: CharClass := [Range('0', '0')]
  /** `[A-Z0-9]` */
  const UpperDigit: CharClass := [Range('A', 'Z'), Range('0', '9')]

  /** `^[A-Za-z\s]+$` */
  const LettersPattern: Pattern := [Atom(LettersSpace, Plus)]
  /** `^\d{12}$` */
  const AadharPattern: Pattern := [Atom(Digit, Exactly(12))]
  /** `^[6-9]\d{9}$` */
  const MobilePattern: Pattern := [Atom(MobileLead, Exactly(1)), Atom(Digit, Exactly(9))]
  /** `^[A-Za-z0-9\s]+$` */
  const SchoolPattern: Pattern := [Atom(AlnumSpace, Plus)]
  /** `^[A-Za-z0-9\s,.-]*$` */
  const AddressPattern: Pattern := [Atom(AddressChars, Star)]
  /** `^\d{6}$` */
  const PostalPattern: Pattern := [Atom(Digit, Exactly(6))]
  /** `^\d+$` */
  const DigitsPattern: Pattern := [Atom(Digit, Plus)]
  /** `^[A-Z]{4}0[A-Z0-9]{6}$` */
  const IfscPattern: Pattern := [Atom(Upper, Exactly(4)), Atom(Zero, Exactly(1)), Atom(UpperDigit, Exactly(6))]

  // ---------------------------------------------------------------------------
  // Field rules
  // ---------------------------------------------------------------------------

  const NameRule: Rule := StringRule([Min(5), Max(20), Regex(LettersPattern)])
  const AadharDiseRule: Rule := StringRule([Length(12), Regex(AadharPattern)])
  const BirthPlaceRule: Rule := StringRule([Min(3), Max(15), Regex(LettersPattern)])
  const ReligionRule: Rule := StringRule([Min(3), Max(7), Regex(LettersPattern)])
  const CasteRule: Rule := StringRule([Max(4), Regex(LettersPattern)])
  /** the `*_in_guj` fields: `z.string().min(2)` */
  const GujaratiRule: Rule := StringRule([Min(2)])
  const CategoryRule: Rule := EnumRule(["ST", "SC", "OBC", "OPEN"])

  const AdmissionDateRule: Rule := StringRule([])
  const AdmissionStdRule: Rule := EnumRule(["1", "2", "3", "4", "5", "6", "7", "8", "9", "10", "11", "12"])
  const DivisionRule: Rule := EnumRule(["A", "B", "C", "D", "E", "F", "G", "H"])
  const MobileRule: Rule := StringRule([Regex(MobilePattern)])
  const PreviousSchoolRule: Rule := RefineNullOr(NullableRule(StringRule([Max(25)])), SchoolPattern)
  const PreviousSchoolGujRule: Rule := NullableRule(StringRule([]))

  const AddressRule: Rule := StringRule([Min(5), Max(50), Regex(AddressPattern)])
  const DistrictRule: Rule := StringRule([Min(3), Regex(LettersPattern)])
  /** `city` and `state` carry the same checks. */
  const CityStateRule: Rule := StringRule([Min(5), Max(20), Regex(LettersPattern)])
  const PostalCodeRule: Rule := StringRule([Length(6), Regex(PostalPattern)])

  const BankNameRule: Rule := StringRule([Min(5), Max(15), Regex(LettersPattern)])
  const AccountNoRule: Rule := StringRule([Min(9), Max(15), Regex(DigitsPattern)])
  const IfscRule: Rule := StringRule([Length(11), Regex(IfscPattern)])

  // ---------------------------------------------------------------------------
  // Field keys
  // ---------------------------------------------------------------------------

  /** The key names the four section schemas declare, as written in the schema source. */
  const DeclaredKeyNames: set<string> := {
    "name", "aadhar_dise_no", "birth_place", "birth_place_in_guj", "religion", "religion_in_guj",
    "caste", "caste_in_guj", "category", "admission_date", "admission_std", "division",
    "mobile_number_2", "previous_school", "previous_school_in_guj", "address", "district", "city",
    "state", "postal_code", "bank_name", "account_no", "IFSC_code"
  }

  /** A key no schema declares. */
  type UndeclaredKey = k: string | k !in DeclaredKeyNames witness ""

  /**
    The keys the four section schemas declare, one constructor each, and
    `Other(key)` for any other key a record may carry (the form's `first_name`,
    `gender`, ...). `KeyName` gives the JavaScript key a field stands for, and
    no two fields stand for the same key (`KeyNameInjective`).
   */
  datatype Field =
    | Name | AadharDiseNo | BirthPlace | BirthPlaceInGuj | Religion | ReligionInGuj
    | Caste | CasteInGuj | Category
    | AdmissionDate | AdmissionStd | Division | MobileNumber2 | PreviousSchool | PreviousSchoolInGuj
    | Address | District | City | State | PostalCode
    | BankName | AccountNo | IfscCode
    | Other(key: UndeclaredKey)

  /** The JavaScript key a field stands for. */
  function KeyName(f: Field): (k: string)
    ensures f.Other? <==> k !in DeclaredKeyNames
  {
    match f
    case Name => "name"
    case AadharDiseNo => "aadhar_dise_no"
    case BirthPlace => "birth_place"
    case BirthPlaceInGuj => "birth_place_in_guj"
    case Religion => "religion"
    case ReligionInGuj => "religion_in_guj"
    case Caste => "caste"
    case CasteInGuj => "caste_in_guj"
    case Category => "category"
    case AdmissionDate => "admission_date"
    case AdmissionStd => "admission_std"
    case Division => "division"
    case MobileNumber2 => "mobile_number_2"
    case PreviousSchool => "previous_school"
    case PreviousSchoolInGuj => "previous_school_in_guj"
    case Address => "address"
    case District => "district"
    case City => "city"
    case State => "state"
    case PostalCode => "postal_code"
    case BankName => "bank_name"
    case AccountNo => "account_no"
    case IfscCode => "IFSC_code"
    case Other(k) => k
  }

  /** Two fields never stand for the same JavaScript key: no `Other` key aliases a declared one. */
  lemma KeyNameInjective(f: Field, g: Field)
    requires KeyName(f) == KeyName(g)
    ensures f == g
  {
    match f
    case Name =>
    case AadharDiseNo =>
    case BirthPlace =>
    case BirthPlaceInGuj =>
    case Religion =>
    case ReligionInGuj =>
    case Caste =>
    case CasteInGuj =>
    case Category =>
    case AdmissionDate =>
    case AdmissionStd =>
    case Division =>
    case MobileNumber2 =>
    case PreviousSchool =>
    case PreviousSchoolInGuj =>
    case Address =>
    case District =>
    case City =>
    case State =>
    case PostalCode =>
    case BankName =>
    case AccountNo =>
    case IfscCode =>
    case Other(_) =>
  }

  // ---------------------------------------------------------------------------
  // Section shapes and the merged schema
  // ---------------------------------------------------------------------------

  const PersonalDetailsSchema: Shape<Field> := map[
    Name := NameRule,
    AadharDiseNo := AadharDiseRule,
    BirthPlace := BirthPlaceRule,
    BirthPlaceInGuj := GujaratiRule,
    Religion := ReligionRule,
    ReligionInGuj := GujaratiRule,
    Caste := CasteRule,
    CasteInGuj := GujaratiRule,
    Category := CategoryRule
  ]

  const AdmissionDetailsSchema: Shape<Field> := map[
    AdmissionDate := AdmissionDateRule,
    AdmissionStd := AdmissionStdRule,
    Division := DivisionRule,
    MobileNumber2 := MobileRule,
    PreviousSchool := PreviousSchoolRule,
    PreviousSchoolInGuj := PreviousSchoolGujRule
  ]

  const AddressSchema: Shape<Field> := map[
    Address := AddressRule,
    District := DistrictRule,
    City := CityStateRule,
    State := CityStateRule,
    PostalCode := PostalCodeRule
  ]

  const BankDetailsSchema: Shape<Field> := map[
    BankName := BankNameRule,
    AccountNo := AccountNoRule,
    IfscCode := IfscRule
  ]

  /** The four sections the schemas are grouped into. */
  datatype Section = PersonalDetails | AdmissionDetails | AddressDetails | BankDetails

  function SectionSchema(sec: Section): Shape<Field> {
    match sec
    case PersonalDetails => PersonalDetailsSchema
    case AdmissionDetails => AdmissionDetailsSchema
    case AddressDetails => AddressSchema
    case BankDetails => BankDetailsSchema
  }

  /** `personalDetailsSchema.merge(admissionDetailsSchema).merge(addressSchema).merge(bankDetailsSchema)` */
  const StudentFormSchema: Shape<Field> :=
    Merge(Merge(Merge(PersonalDetailsSchema, AdmissionDetailsSchema), AddressSchema), BankDetailsSchema)

  // ---------------------------------------------------------------------------
  // Plain descriptions of the character conditions
  // ---------------------------------------------------------------------------

  predicate LettersOrSpaces(s: string) {
    forall i :: 0 <= i < |s| ==> IsAsciiLetter(s[i]) || IsWhitespace(s[i])
  }

  predicate AllDigits(s: string) {
    forall i :: 0 <= i < |s| ==> IsAsciiDigit(s[i])
  }

  predicate AlnumOrSpaces(s: string) {
    forall i :: 0 <= i < |s| ==> IsAsciiLetter(s[i]) || IsAsciiDigit(s[i]) || IsWhitespace(s[i])
  }

  predicate AddressCharsOnly(s: string) {
    forall i :: 0 <= i < |s| ==>
      IsAsciiLetter(s[i]) || IsAsciiDigit(s[i]) || IsWhitespace(s[i]) || s[i] == ',' || s[i] == '.' || s[i] == '-'
  }

  // ---------------------------------------------------------------------------
  // The character classes and patterns, restated
  // ---------------------------------------------------------------------------

  lemma LettersSpaceClass(c: char)
    ensures InClass(c, LettersSpace) <==> IsAsciiLetter(c) || IsWhitespace(c)
  {
    if InClass(c, LettersSpace) {
      var i :| 0 <= i < |LettersSpace| && InItem(c, LettersSpace[i]);
      assert i == 0 || i == 1 || i == 2;
    }
    if IsWhitespace(c) { assert InItem(c, LettersSpace[2]); }
    else if 'a' <= c <= 'z' { assert InItem(c, LettersSpace[1]); }
    else if 'A' <= c <= 'Z' { assert InItem(c, LettersSpace[0]); }
  }

  lemma DigitClass(c: char)
    ensures InClass(c, Digit) <==> IsAsciiDigit(c)
  {
    if IsAsciiDigit(c) { assert InItem(c, Digit[0]); }
  }

  lemma AlnumSpaceClass(c: char)
    ensures InClass(c, AlnumSpace) <==> IsAsciiLetter(c) || IsAsciiDigit(c) || IsWhitespace(c)
  {
    if InClass(c, AlnumSpace) {
      var i :| 0 <= i < |AlnumSpace| && InItem(c, AlnumSpace[i]);
      assert i == 0 || i == 1 || i == 2 || i == 3;
    }
    if IsWhitespace(c) { assert InItem(c, AlnumSpace[3]); }
    else if IsAsciiDigit(c) { assert InItem(c, AlnumSpace[2]); }
    else if 'a' <= c <= 'z' { assert InItem(c, AlnumSpace[1]); }
    else if 'A' <= c <= 'Z' { assert InItem(c, AlnumSpace[0]); }
  }

  lemma AddressCharsClass(c: char)
    ensures InClass(c, AddressChars)
        <==> (IsAsciiLetter(c) || IsAsciiDigit(c) || IsWhitespace(c) || c == ',' || c == '.' || c == '-')
  {
    if InClass(c, AddressChars) {
      var i :| 0 <= i < |AddressChars| && InItem(c, AddressChars[i]);
      assert 0 <= i < 7;
    }
    if c == '-' { assert InItem(c, AddressChars[6]); }
    else if c == '.' { assert InItem(c, AddressChars[5]); }
    else if c == ',' { assert InItem(c, AddressChars[4]); }
    else if IsWhitespace(c) { assert InItem(c, AddressChars[3]); }
    else if IsAsciiDigit(c) { assert InItem(c, AddressChars[2]); }
    else if 'a' <= c <= 'z' { assert InItem(c, AddressChars[1]); }
    else if 'A' <= c <= 'Z' { assert InItem(c, AddressChars[0]); }
  }

  lemma UpperDigitClass(c: char)
    ensures InClass(c, UpperDigit) <==> IsAsciiUpper(c) || IsAsciiDigit(c)
  {
    if InClass(c, UpperDigit) {
      var i :| 0 <= i < |UpperDigit| && InItem(c, UpperDigit[i]);
      assert i == 0 || i == 1;
    }
    if IsAsciiDigit(c) { assert InItem(c, UpperDigit[1]); }
    else if IsAsciiUpper(c) { assert InItem(c, UpperDigit[0]); }
  }

  lemma LettersPatternMatches(s: string)
    ensures Matches(LettersPattern, s) <==> |s| >= 1 && LettersOrSpaces(s)
  {
    SingleAtomMatches(LettersSpace, Plus, s);
    forall i | 0 <= i < |s| ensures InClass(s[i], LettersSpace) <==> IsAsciiLetter(s[i]) || IsWhitespace(s[i]) {
      LettersSpaceClass(s[i]);
    }
  }

  lemma DigitPatternMatches(q: Quant, s: string)
    ensures Matches([Atom(Digit, q)], s) <==> QuantAllows(q, |s|) && AllDigits(s)
  {
    SingleAtomMatches(Digit, q, s);
    forall i | 0 <= i < |s| ensures InClass(s[i], Digit) <==> IsAsciiDigit(s[i]) {
      DigitClass(s[i]);
    }
  }

  lemma SchoolPatternMatches(s: string)
    ensures Matches(SchoolPattern, s) <==> |s| >= 1 && AlnumOrSpaces(s)
  {
    SingleAtomMatches(AlnumSpace, Plus, s);
    forall i | 0 <= i < |s|
      ensures InClass(s[i], AlnumSpace) <==> IsAsciiLetter(s[i]) || IsAsciiDigit(s[i]) || IsWhitespace(s[i])
    {
      AlnumSpaceClass(s[i]);
    }
  }

  /** `*` admits the empty string: the pattern alone constrains only the characters. */
  lemma AddressPatternMatches(s: string)
    ensures Matches(AddressPattern, s) <==> AddressCharsOnly(s)
  {
    SingleAtomMatches(AddressChars, Star, s);
    forall i | 0 <= i < |s|
      ensures InClass(s[i], AddressChars)
          <==> (IsAsciiLetter(s[i]) || IsAsciiDigit(s[i]) || IsWhitespace(s[i]) || s[i] == ',' || s[i] == '.' || s[i] == '-')
    {
      AddressCharsClass(s[i]);
    }
  }

  lemma MobilePatternMatches(s: string)
    ensures Matches(MobilePattern, s)
        <==> (|s| == 10 && '6' <= s[0] <= '9' && forall i :: 1 <= i < 10 ==> IsAsciiDigit(s[i]))
  {
    var tail: Pattern := [Atom(Digit, Exactly(9))];
    assert MobilePattern == [Atom(MobileLead, Exactly(1))] + tail;
    ExactHeadMatches(MobileLead, 1, tail, s);
    if 1 <= |s| {
      DigitPatternMatches(Exactly(9), s[1..]);
      assert AllIn(s[..1], MobileLead) <==> '6' <= s[0] <= '9' by {
        assert s[..1][0] == s[0];
        if '6' <= s[0] <= '9' { assert InItem(s[0], MobileLead[0]); }
      }
      assert AllDigits(s[1..]) <==> forall i :: 1 <= i < |s| ==> IsAsciiDigit(s[i]) by {
        forall i | 1 <= i < |s| ensures s[1..][i - 1] == s[i] { }
      }
    }
  }

  lemma IfscPatternMatches(s: string)
    ensures Matches(IfscPattern, s)
        <==> (|s| == 11
          && (forall i :: 0 <= i < 4 ==> IsAsciiUpper(s[i]))
          && s[4] == '0'
          && (forall i :: 5 <= i < 11 ==> IsAsciiUpper(s[i]) || IsAsciiDigit(s[i])))
  {
    var last: Pattern := [Atom(UpperDigit, Exactly(6))];
    var tail: Pattern := [Atom(Zero, Exactly(1))] + last;
    assert IfscPattern == [Atom(Upper, Exactly(4))] + tail;
    ExactHeadMatches(Upper, 4, tail, s);
    if 4 <= |s| {
      var s1 := s[4..];
      ExactHeadMatches(Zero, 1, last, s1);
      assert AllIn(s[..4], Upper) <==> forall i :: 0 <= i < 4 ==> IsAsciiUpper(s[i]) by {
        forall i | 0 <= i < 4 ensures InClass(s[..4][i], Upper) <==> IsAsciiUpper(s[i]) {
          assert s[..4][i] == s[i];
          if IsAsciiUpper(s[i]) { assert InItem(s[i], Upper[0]); }
        }
      }
      if 1 <= |s1| {
        var s2 := s1[1..];
        assert AllIn(s1[..1], Zero) <==> s[4] == '0' by {
          assert s1[..1][0] == s[4];
          if s[4] == '0' { assert InItem(s[4], Zero[0]); }
        }
        SingleAtomMatches(UpperDigit, Exactly(6), s2);
        assert AllIn(s2, UpperDigit) <==> forall i :: 5 <= i < |s| ==> IsAsciiUpper(s[i]) || IsAsciiDigit(s[i]) by {
          forall i | 5 <= i < |s| ensures InClass(s2[i - 5], UpperDigit) <==> IsAsciiUpper(s[i]) || IsAsciiDigit(s[i]) {
            assert s2[i - 5] == s[i];
            UpperDigitClass(s[i]);
          }
        }
      }
    }
  }
  // ---------------------------------------------------------------------------
  // Personal details
  // ---------------------------------------------------------------------------

  lemma NameAccepted(v: Value)
    ensures Accepts(PersonalDetailsSchema[Name], v) <==> v.Str? && 5 <= |v.s| <= 20 && LettersOrSpaces(v.s)
  {
    ThreeChecksAccept(Min(5), Max(20), Regex(LettersPattern), v);
    if v.Str? { LettersPatternMatches(v.s); }
  }

  lemma AadharDiseAccepted(v: Value)
    ensures Accepts(PersonalDetailsSchema[AadharDiseNo], v) <==> v.Str? && |v.s| == 12 && AllDigits(v.s)
  {
    TwoChecksAccept(Length(12), Regex(AadharPattern), v);
    if v.Str? { DigitPatternMatches(Exactly(12), v.s); }
  }

  /** `^\d{12}$` alone forces twelve characters: the rule without `.length(12)` accepts the same values. */
  lemma AadharDiseLengthRedundant(v: Value)
    ensures Accepts(AadharDiseRule, v) <==> Accepts(StringRule([Regex(AadharPattern)]), v)
  {
    assert IsFixed(AadharPattern) && MinLength(AadharPattern) == 12;
    RedundantLengthCheck(12, AadharPattern, v);
  }

  lemma BirthPlaceAccepted(v: Value)
    ensures Accepts(PersonalDetailsSchema[BirthPlace], v) <==> v.Str? && 3 <= |v.s| <= 15 && LettersOrSpaces(v.s)
  {
    ThreeChecksAccept(Min(3), Max(15), Regex(LettersPattern), v);
    if v.Str? { LettersPatternMatches(v.s); }
  }

  lemma ReligionAccepted(v: Value)
    ensures Accepts(PersonalDetailsSchema[Religion], v) <==> v.Str? && 3 <= |v.s| <= 7 && LettersOrSpaces(v.s)
  {
    ThreeChecksAccept(Min(3), Max(7), Regex(LettersPattern), v);
    if v.Str? { LettersPatternMatches(v.s); }
  }

  /** "Hi" fails only the minimum-length check of `religion`. */
  lemma ReligionRejectsTwoLetters()
    ensures Failures(PersonalDetailsSchema[Religion], Str("Hi")) == {CheckFailed(Min(3))}
  {
    LettersPatternMatches("Hi");
    ThreeCheckFailures(Min(3), Max(7), Regex(LettersPattern), "Hi");
  }

  /** A record whose `religion` is "Hi" fails the personal section with an error on `religion`. */
  lemma PersonalRejectsShortReligion(rec: Record<Field>)
    requires Lookup(rec, Religion) == Str("Hi")
    ensures !Validate(PersonalDetailsSchema, rec)
    ensures Religion in Errors(PersonalDetailsSchema, rec)
    ensures CheckFailed(Min(3)) in Errors(PersonalDetailsSchema, rec)[Religion]
  {
    ReligionRejectsTwoLetters();
  }

  /** `caste` has no `.min`, yet `+` in its pattern still demands one character. */
  lemma CasteAccepted(v: Value)
    ensures Accepts(PersonalDetailsSchema[Caste], v) <==> v.Str? && 1 <= |v.s| <= 4 && LettersOrSpaces(v.s)
  {
    TwoChecksAccept(Max(4), Regex(LettersPattern), v);
    if v.Str? { LettersPatternMatches(v.s); }
  }

  /** The empty caste fails the pattern and nothing else. */
  lemma CasteRejectsEmpty()
    ensures Failures(PersonalDetailsSchema[Caste], Str("")) == {CheckFailed(Regex(LettersPattern))}
  {
    LettersPatternMatches("");
    TwoCheckFailures(Max(4), Regex(LettersPattern), "");
  }

  lemma GujaratiFieldsAccepted(v: Value)
    ensures Accepts(PersonalDetailsSchema[BirthPlaceInGuj], v) <==> v.Str? && |v.s| >= 2
    ensures Accepts(PersonalDetailsSchema[ReligionInGuj], v) <==> v.Str? && |v.s| >= 2
    ensures Accepts(PersonalDetailsSchema[CasteInGuj], v) <==> v.Str? && |v.s| >= 2
  {
    OneCheckAccepts(Min(2), v);
  }

  lemma CategoryAccepted(v: Value)
    ensures Accepts(PersonalDetailsSchema[Category], v)
        <==> v.Str? && (v.s == "ST" || v.s == "SC" || v.s == "OBC" || v.s == "OPEN")
  {
  }

  // ---------------------------------------------------------------------------
  // Admission details
  // ---------------------------------------------------------------------------

  lemma AdmissionEnumsAccepted(v: Value)
    ensures Accepts(AdmissionDetailsSchema[AdmissionStd], v)
        <==> v.Str? && v.s in {"1", "2", "3", "4", "5", "6", "7", "8", "9", "10", "11", "12"}
    ensures Accepts(AdmissionDetailsSchema[Division], v)
        <==> v.Str? && v.s in {"A", "B", "C", "D", "E", "F", "G", "H"}
  {
  }

  /** `admission_date` takes any string, and `previous_school_in_guj` any string or null. */
  lemma UncheckedAdmissionFieldsAccepted(v: Value)
    ensures Accepts(AdmissionDetailsSchema[AdmissionDate], v) <==> v.Str?
    ensures Accepts(AdmissionDetailsSchema[PreviousSchoolInGuj], v) <==> v.Str? || v.Null?
  {
  }

  lemma MobileNumber2Accepted(v: Value)
    ensures Accepts(AdmissionDetailsSchema[MobileNumber2], v)
        <==> v.Str? && |v.s| == 10 && '6' <= v.s[0] <= '9' && forall i :: 1 <= i < 10 ==> IsAsciiDigit(v.s[i])
  {
    OneCheckAccepts(Regex(MobilePattern), v);
    if v.Str? { MobilePatternMatches(v.s); }
  }

  lemma PreviousSchoolAccepted(v: Value)
    ensures Accepts(AdmissionDetailsSchema[PreviousSchool], v)
        <==> v.Null? || (v.Str? && 1 <= |v.s| <= 25 && AlnumOrSpaces(v.s))
  {
    assert AdmissionDetailsSchema[PreviousSchool] == PreviousSchoolRule;
    if v.Str? {
      SchoolPatternMatches(v.s);
      var f := Failures(NullableRule(StringRule([Max(25)])), v);
      assert f == Failures(StringRule([Max(25)]), v);
      assert f == CheckFailures([Max(25)], v.s);
      assert CheckFailures([Max(25)][1..], v.s) == {};
      assert f == {} <==> |v.s| <= 25;
      assert !Aborted(f);
      if Matches(SchoolPattern, v.s) {
        assert Failures(PreviousSchoolRule, v) == f;
      } else {
        assert CustomFailed in Failures(PreviousSchoolRule, v);
      }
    } else if v.Undefined? {
      assert Failures(NullableRule(StringRule([Max(25)])), v) == {InvalidType};
    } else {
      assert Failures(NullableRule(StringRule([Max(25)])), v) == {};
    }
  }

  /** The empty school name passes `.max(25)` but fails the refinement. */
  lemma PreviousSchoolRejectsEmpty()
    ensures Failures(AdmissionDetailsSchema[PreviousSchool], Str("")) == {CustomFailed}
  {
    SchoolPatternMatches("");
  }

  // ---------------------------------------------------------------------------
  // Address
  // ---------------------------------------------------------------------------

  lemma AddressAccepted(v: Value)
    ensures Accepts(AddressSchema[Address], v) <==> v.Str? && 5 <= |v.s| <= 50 && AddressCharsOnly(v.s)
  {
    ThreeChecksAccept(Min(5), Max(50), Regex(AddressPattern), v);
    if v.Str? { AddressPatternMatches(v.s); }
  }

  lemma DistrictAccepted(v: Value)
    ensures Accepts(AddressSchema[District], v) <==> v.Str? && |v.s| >= 3 && LettersOrSpaces(v.s)
  {
    TwoChecksAccept(Min(3), Regex(LettersPattern), v);
    if v.Str? { LettersPatternMatches(v.s); }
  }

  lemma CityStateAccepted(v: Value)
    ensures Accepts(AddressSchema[City], v) <==> v.Str? && 5 <= |v.s| <= 20 && LettersOrSpaces(v.s)
    ensures Accepts(AddressSchema[State], v) <==> v.Str? && 5 <= |v.s| <= 20 && LettersOrSpaces(v.s)
  {
    ThreeChecksAccept(Min(5), Max(20), Regex(LettersPattern), v);
    if v.Str? { LettersPatternMatches(v.s); }
  }

  lemma PostalCodeAccepted(v: Value)
    ensures Accepts(AddressSchema[PostalCode], v) <==> v.Str? && |v.s| == 6 && AllDigits(v.s)
  {
    TwoChecksAccept(Length(6), Regex(PostalPattern), v);
    if v.Str? { DigitPatternMatches(Exactly(6), v.s); }
  }

  /** Five digits fail both the length check and the pattern; six digits pass. */
  lemma PostalCodeExamples()
    ensures Failures(AddressSchema[PostalCode], Str("12345")) == {CheckFailed(Length(6)), CheckFailed(Regex(PostalPattern))}
    ensures Accepts(AddressSchema[PostalCode], Str("123456"))
  {
    DigitPatternMatches(Exactly(6), "12345");
    TwoCheckFailures(Length(6), Regex(PostalPattern), "12345");
    PostalCodeAccepted(Str("123456"));
  }

  /** An address record with a five-digit postal code fails the address section. */
  lemma AddressRejectsShortPostalCode(rec: Record<Field>)
    requires Lookup(rec, PostalCode) == Str("12345")
    ensures !Validate(AddressSchema, rec)
    ensures PostalCode in Errors(AddressSchema, rec)
  {
    PostalCodeExamples();
  }

  // ---------------------------------------------------------------------------
  // Bank details
  // ---------------------------------------------------------------------------

  lemma BankNameAccepted(v: Value)
    ensures Accepts(BankDetailsSchema[BankName], v) <==> v.Str? && 5 <= |v.s| <= 15 && LettersOrSpaces(v.s)
  {
    ThreeChecksAccept(Min(5), Max(15), Regex(LettersPattern), v);
    if v.Str? { LettersPatternMatches(v.s); }
  }

  lemma AccountNoAccepted(v: Value)
    ensures Accepts(BankDetailsSchema[AccountNo], v) <==> v.Str? && 9 <= |v.s| <= 15 && AllDigits(v.s)
  {
    ThreeChecksAccept(Min(9), Max(15), Regex(DigitsPattern), v);
    if v.Str? { DigitPatternMatches(Plus, v.s); }
  }

  lemma IfscCodeAccepted(v: Value)
    ensures Accepts(BankDetailsSchema[IfscCode], v)
        <==> (v.Str? && |v.s| == 11
          && (forall i :: 0 <= i < 4 ==> IsAsciiUpper(v.s[i]))
          && v.s[4] == '0'
          && (forall i :: 5 <= i < 11 ==> IsAsciiUpper(v.s[i]) || IsAsciiDigit(v.s[i])))
  {
    TwoChecksAccept(Length(11), Regex(IfscPattern), v);
    if v.Str? { IfscPatternMatches(v.s); }
  }

  /** The IFSC pattern forces eleven characters, so `.length(11)` is redundant. */
  lemma IfscLengthRedundant(v: Value)
    ensures Accepts(IfscRule, v) <==> Accepts(StringRule([Regex(IfscPattern)]), v)
  {
    assert MinLength(IfscPattern[2..]) == 6;
    assert MinLength(IfscPattern[1..]) == 7;
    assert IsFixed(IfscPattern) && MinLength(IfscPattern) == 11;
    RedundantLengthCheck(11, IfscPattern, v);
  }

  // ---------------------------------------------------------------------------
  // The merged schema
  // ---------------------------------------------------------------------------

  /** The section a field belongs to, if any. */
  function SectionOf(f: Field): Option<Section> {
    match f
    case Name | AadharDiseNo | BirthPlace | BirthPlaceInGuj | Religion | ReligionInGuj | Caste | CasteInGuj | Category =>
      Some(PersonalDetails)
    case AdmissionDate | AdmissionStd | Division | MobileNumber2 | PreviousSchool | PreviousSchoolInGuj =>
      Some(AdmissionDetails)
    case Address | District | City | State | PostalCode => Some(AddressDetails)
    case BankName | AccountNo | IfscCode => Some(BankDetails)
    case Other(_) => None
  }

  /** A field is declared by a section exactly when `SectionOf` names that section. */
  lemma SectionOfMembership(sec: Section, f: Field)
    ensures f in SectionSchema(sec) <==> SectionOf(f) == Some(sec)
  {
    match sec
    case PersonalDetails => PersonalFields(f);
    case AdmissionDetails => AdmissionFields(f);
    case AddressDetails => AddressFields(f);
    case BankDetails => BankFields(f);
  }

  lemma PersonalFields(f: Field)
    ensures f in PersonalDetailsSchema <==> SectionOf(f) == Some(PersonalDetails)
  {
    assert PersonalDetailsSchema.Keys
      == {Name, AadharDiseNo, BirthPlace, BirthPlaceInGuj, Religion, ReligionInGuj, Caste, CasteInGuj, Category};
  }

  lemma AdmissionFields(f: Field)
    ensures f in AdmissionDetailsSchema <==> SectionOf(f) == Some(AdmissionDetails)
  {
    assert AdmissionDetailsSchema.Keys
      == {AdmissionDate, AdmissionStd, Division, MobileNumber2, PreviousSchool, PreviousSchoolInGuj};
  }

  lemma AddressFields(f: Field)
    ensures f in AddressSchema <==> SectionOf(f) == Some(AddressDetails)
  {
    assert AddressSchema.Keys == {Address, District, City, State, PostalCode};
  }

  lemma BankFields(f: Field)
    ensures f in BankDetailsSchema <==> SectionOf(f) == Some(BankDetails)
  {
    assert BankDetailsSchema.Keys == {BankName, AccountNo, IfscCode};
  }

  /** No field belongs to two sections. */
  lemma SectionsDisjoint()
    ensures PersonalDetailsSchema.Keys !! AdmissionDetailsSchema.Keys
    ensures PersonalDetailsSchema.Keys !! AddressSchema.Keys
    ensures PersonalDetailsSchema.Keys !! BankDetailsSchema.Keys
    ensures AdmissionDetailsSchema.Keys !! AddressSchema.Keys
    ensures AdmissionDetailsSchema.Keys !! BankDetailsSchema.Keys
    ensures AddressSchema.Keys !! BankDetailsSchema.Keys
  {
    forall s1: Section, s2: Section, f: Field | s1 != s2 && f in SectionSchema(s1)
      ensures f !in SectionSchema(s2)
    {
      SectionOfMembership(s1, f);
      SectionOfMembership(s2, f);
    }
    assert SectionSchema(PersonalDetails) == PersonalDetailsSchema;
    assert SectionSchema(AdmissionDetails) == AdmissionDetailsSchema;
    assert SectionSchema(AddressDetails) == AddressSchema;
    assert SectionSchema(BankDetails) == BankDetailsSchema;
  }

  /** `studentFormSchema` accepts a record exactly when every section schema does, and its errors are theirs combined. */
  lemma StudentFormSchemaIsConjunction(rec: Record<Field>)
    ensures StudentFormSchema.Keys
        == PersonalDetailsSchema.Keys + AdmissionDetailsSchema.Keys + AddressSchema.Keys + BankDetailsSchema.Keys
    ensures Validate(StudentFormSchema, rec)
        <==> (Validate(PersonalDetailsSchema, rec) && Validate(AdmissionDetailsSchema, rec)
          && Validate(AddressSchema, rec) && Validate(BankDetailsSchema, rec))
    ensures Errors(StudentFormSchema, rec)
        == Errors(PersonalDetailsSchema, rec) + Errors(AdmissionDetailsSchema, rec)
         + Errors(AddressSchema, rec) + Errors(BankDetailsSchema, rec)
  {
    SectionsDisjoint();
    var pa := Merge(PersonalDetailsSchema, AdmissionDetailsSchema);
    var paa := Merge(pa, AddressSchema);
    MergeDisjoint(PersonalDetailsSchema, AdmissionDetailsSchema, rec);
    MergeDisjoint(pa, AddressSchema, rec);
    MergeDisjoint(paa, BankDetailsSchema, rec);
  }

  /** `studentFormSchema` declares exactly the keys listed in `DeclaredKeyNames`; every other key is stripped. */
  lemma DeclaredKeys(f: Field)
    ensures f in StudentFormSchema <==> KeyName(f) in DeclaredKeyNames
  {
    assert StudentFormSchema.Keys
        == PersonalDetailsSchema.Keys + AdmissionDetailsSchema.Keys + AddressSchema.Keys + BankDetailsSchema.Keys;
    PersonalFields(f);
    AdmissionFields(f);
    AddressFields(f);
    BankFields(f);
    assert f in StudentFormSchema <==> SectionOf(f).Some?;
  }

  /** Editing a field outside a section never changes that section's verdict or errors. */
  lemma SectionIgnoresOtherFields(sec: Section, rec: Record<Field>, key: Field, v: Value)
    requires key !in SectionSchema(sec)
    ensures Validate(SectionSchema(sec), rec[key := v]) <==> Validate(SectionSchema(sec), rec)
    ensures Errors(SectionSchema(sec), rec[key := v]) == Errors(SectionSchema(sec), rec)
  {
    ValidateIgnoresOtherFields(SectionSchema(sec), rec, key, v);
  }
}
