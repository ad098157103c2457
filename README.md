# Student registration form: validation schemas and tab/selection logic

This project models two small parts of a school-management front-end and
proves properties about them in Dafny.

1. **The field-validation schemas** (`src/utils/student.validation.ts`). These
   are four Zod object schemas: personal details, admission details, address
   and bank details. They are merged into `studentFormSchema`. Every field rule
   is modelled as it is declared. A rule is a string rule with `.min`, `.max`, `.length`
   and `.regex` checks, an enum, a nullable rule, or the one `.refine` in use.
   The regular expressions are modelled by a small anchored-pattern language
   (module `Regex`) with a matcher, `Matches`. A rule's verdict is the set of
   Zod issues it reports. A section's verdict is the map from each failing
   field to its issues.
2. **The form's tab and selection state machine**
   (`src/components/Students/StudentForm.tsx`, handlers only). This is a class,
   `StudentFormState`. Its fields are the active tab, the selected class, the
   selected division and the form's values. Its methods are the handlers
   `handleClassChange`, `handleDivisionChange`, `handleNextTab`,
   `handlePreviousTab` and `handleSubmit`, plus the direct tab change made by
   clicking a trigger. The pure lookups behind `availableDivisions` and the
   division `find` are functions.

Modules, one per file:

- `Wrappers` (`wrappers.dfy`): `Option`.
- `Regex` (`regex.dfy`): character classes (JavaScript `\d`, `\s`, ranges), anchored patterns and their matcher. It also has the length lemmas: a pattern built only from `{n}` atoms forces the length, and `+` forces at least one character.
- `Schema` (`schema.dfy`): Zod's string/enum/nullable/refine rules, the issues they report, object shapes, `safeParse` and `merge`.
- `StudentValidation` (`student_validation.dfy`): the four section shapes, `studentFormSchema`, and a lemma for every field. Each such lemma restates a field's rule as a plain condition on its string.
- `StudentForm` (`student_form.dfy`): the tab order, the class/division lookups, `toString` on non-negative integers, and the `StudentFormState` class.

The two parts are not linked, and this follows the code. The form imports
`personalSchema` and `studentSchema`, but the validation file exports neither
of those names (it exports `personalDetailsSchema` and `studentFormSchema`).
The form's field names also differ from the schemas' (`religiion` against
`religion`, `first_name` against `name`). The form model therefore treats the
personal-section check in `handleNextTab` as a verdict passed in as a parameter.

The model keeps two behaviours of the code that its own names and dead code
suggest were meant to be otherwise:

- `handleNextTab` computes the personal-section verdict into `isValidToChangeTab` (StudentForm.tsx:275-279) and never reads it. The tab always advances one step, even when the check fails (`HandleNextTab`, `NextIgnoresFailedCheckScenario`). The flag's name suggests it was meant to gate the move.
- Every branch of `handleSubmit` is empty, so submitting changes nothing for `create`, `update` and `view` alike. The commented-out `handleUpdateStudent` and `handleAddStudent` (StudentForm.tsx:137-270) show that create and update were meant to send requests.

The division field takes the chosen division's id through the picker's `onChange` (`PickDivision`); `handleDivisionChange` records only the matching division.

Two scenarios are proved as client methods:

- `ClassChangeScenario`: class 5 then class 6. The division is cleared even though both classes have a division named "A".
- `NextIgnoresFailedCheckScenario`: from "personal", a failed check still moves the form to "family".

## Model

| member | source | states |
|---|---|---|
| `Regex.Matches` | src/utils/student.validation.ts:7 | Anchored `RegExp.test`: the whole string splits into one run per atom, each of the atom's class and of a length its quantifier allows |
| `Regex.MatchesAtLeastMinLength` | src/utils/student.validation.ts:29-31 | No string shorter than the pattern's minimum length matches; in particular a `+` pattern rejects "" even without `.min` |
| `Regex.FixedPatternForcesLength` | src/utils/student.validation.ts:9-11 | A pattern of `{n}` atoms only matches strings of exactly the sum of the `n`s |
| `Regex.SingleAtomMatches` | src/utils/student.validation.ts:4-7 | `^[cls]q$` matches exactly the strings over `cls` whose length `q` allows |
| `Regex.ExactHeadMatches` | src/utils/student.validation.ts:46-47 | A pattern starting with `[cls]{n}` matches iff the first n characters are in `cls` and the rest matches the remaining atoms |
| `Schema.CheckFailures` | src/utils/student.validation.ts:4-7 | Every check of a string rule runs: a check is reported exactly when it belongs to the rule and fails, and nothing but failed checks is reported |
| `Schema.Failures` | src/utils/student.validation.ts:3-98 | The issues one field rule reports: a non-string is `invalid_type`, `.nullable()` passes null, an enum rejects unlisted strings, the refinement runs unless the inner parse aborted |
| `Schema.CheckFailuresEmpty` | src/utils/student.validation.ts:4-7 | A string rule reports no issue iff every one of its checks holds |
| `Schema.StringRuleAccepts` | src/utils/student.validation.ts:4-7 | `z.string()` with checks accepts exactly the strings meeting all checks; null and undefined are rejected |
| `Schema.RedundantLengthCheck` | src/utils/student.validation.ts:9-11 | `.length(n)` before a pattern that forces length n accepts exactly what the pattern alone accepts |
| `Schema.Validate` | src/utils/student.validation.ts:3-37 | An object schema accepts a record when every declared field passes its rule, a missing field reading as `undefined` |
| `Schema.Errors` | src/utils/student.validation.ts:3-37 | The field errors are exactly the fields of the shape that fail, each with its issues |
| `Schema.SafeParse` | src/utils/student.validation.ts:3-37 | Parsing succeeds iff every field passes; on success the data is the shape's fields only (unknown keys stripped); on failure the errors are non-empty |
| `Schema.Merge` | src/utils/student.validation.ts:100-103 | `merge` has the union of the keys; on a shared key the later shape's rule wins |
| `Schema.MergeDisjoint` | src/utils/student.validation.ts:100-103 | With disjoint keys, the merged shape accepts iff both accept, and its errors are the union of theirs |
| `Schema.ValidateLocal` | src/utils/student.validation.ts:3-37 | Two records that agree on the shape's keys get the same verdict and the same errors |
| `Schema.ValidateIgnoresOtherFields` | src/utils/student.validation.ts:3-37 | Changing or adding a field outside the shape never changes its verdict or errors |
| `StudentValidation.LettersPatternMatches` | src/utils/student.validation.ts:7 | `^[A-Za-z\s]+$` matches iff the string is non-empty and only letters and whitespace |
| `StudentValidation.DigitPatternMatches` | src/utils/student.validation.ts:11 | `^\d{n}$`, `^\d+$`: the string is all ASCII digits, of a length the quantifier allows |
| `StudentValidation.SchoolPatternMatches` | src/utils/student.validation.ts:52 | `^[A-Za-z0-9\s]+$` matches iff non-empty over letters, digits and whitespace |
| `StudentValidation.AddressPatternMatches` | src/utils/student.validation.ts:63 | `^[A-Za-z0-9\s,.-]*$` matches iff every character is a letter, digit, whitespace, `,`, `.` or `-` (empty allowed) |
| `StudentValidation.MobilePatternMatches` | src/utils/student.validation.ts:47 | `^[6-9]\d{9}$` matches iff 10 characters, the first in 6..9, the rest digits |
| `StudentValidation.IfscPatternMatches` | src/utils/student.validation.ts:97 | The IFSC pattern matches iff 11 characters: four of A..Z, then '0', then six of A..Z or 0..9 |
| `StudentValidation.NameAccepted` | src/utils/student.validation.ts:4-7 | `name` accepted iff a string of length 5..20 of letters and whitespace |
| `StudentValidation.AadharDiseAccepted` | src/utils/student.validation.ts:9-11 | `aadhar_dise_no` accepted iff exactly 12 ASCII digits |
| `StudentValidation.AadharDiseLengthRedundant` | src/utils/student.validation.ts:9-11 | Dropping `.length(12)` from `aadhar_dise_no` changes no verdict |
| `StudentValidation.BirthPlaceAccepted` | src/utils/student.validation.ts:13-16 | `birth_place` accepted iff length 3..15, letters and whitespace |
| `StudentValidation.ReligionAccepted` | src/utils/student.validation.ts:21-24 | `religion` accepted iff length 3..7, letters and whitespace |
| `StudentValidation.ReligionRejectsTwoLetters` | src/utils/student.validation.ts:21-24 | "Hi" fails `religion` with exactly the `min(3)` issue |
| `StudentValidation.PersonalRejectsShortReligion` | src/utils/student.validation.ts:21-24 | A record with `religion` "Hi" fails the personal section, with a `min(3)` error on `religion` |
| `StudentValidation.CasteAccepted` | src/utils/student.validation.ts:29-31 | `caste` accepted iff length 1..4, letters and whitespace |
| `StudentValidation.CasteRejectsEmpty` | src/utils/student.validation.ts:29-31 | "" fails `caste` through the pattern alone |
| `StudentValidation.GujaratiFieldsAccepted` | src/utils/student.validation.ts:18-34 | The three `*_in_guj` fields accept any string of length at least 2 |
| `StudentValidation.CategoryAccepted` | src/utils/student.validation.ts:36 | `category` accepted iff one of ST, SC, OBC, OPEN |
| `StudentValidation.AdmissionEnumsAccepted` | src/utils/student.validation.ts:42-44 | `admission_std` accepted iff "1".."12"; `division` iff "A".."H" |
| `StudentValidation.UncheckedAdmissionFieldsAccepted` | src/utils/student.validation.ts:40-56 | `admission_date` accepts any string; `previous_school_in_guj` accepts any string or null |
| `StudentValidation.MobileNumber2Accepted` | src/utils/student.validation.ts:46-47 | `mobile_number_2` accepted iff 10 characters, the first 6..9, the rest digits |
| `StudentValidation.PreviousSchoolAccepted` | src/utils/student.validation.ts:49-54 | `previous_school` accepted iff null, or 1..25 letters, digits and whitespace |
| `StudentValidation.PreviousSchoolRejectsEmpty` | src/utils/student.validation.ts:49-54 | "" passes `.max(25)` but fails the refinement |
| `StudentValidation.AddressAccepted` | src/utils/student.validation.ts:60-63 | `address` accepted iff length 5..50 over letters, digits, whitespace, `,`, `.`, `-` |
| `StudentValidation.DistrictAccepted` | src/utils/student.validation.ts:65-67 | `district` accepted iff length at least 3, letters and whitespace |
| `StudentValidation.CityStateAccepted` | src/utils/student.validation.ts:69-77 | `city` and `state` accepted iff length 5..20, letters and whitespace |
| `StudentValidation.PostalCodeAccepted` | src/utils/student.validation.ts:79-81 | `postal_code` accepted iff exactly 6 digits |
| `StudentValidation.PostalCodeExamples` | src/utils/student.validation.ts:79-81 | "12345" fails both the length and the pattern check; "123456" passes |
| `StudentValidation.AddressRejectsShortPostalCode` | src/utils/student.validation.ts:79-81 | A record with postal code "12345" fails the address section with an error on `postal_code` |
| `StudentValidation.BankNameAccepted` | src/utils/student.validation.ts:85-88 | `bank_name` accepted iff length 5..15, letters and whitespace |
| `StudentValidation.AccountNoAccepted` | src/utils/student.validation.ts:90-93 | `account_no` accepted iff 9..15 digits |
| `StudentValidation.IfscCodeAccepted` | src/utils/student.validation.ts:95-97 | `IFSC_code` accepted iff 11 characters: A..Z ×4, '0', then A..Z or 0..9 ×6 |
| `StudentValidation.IfscLengthRedundant` | src/utils/student.validation.ts:95-97 | Dropping `.length(11)` from `IFSC_code` changes no verdict |
| `StudentValidation.KeyName` | src/utils/student.validation.ts:3-98 | The JavaScript key each field stands for; only `Other` keys lie outside the declared names |
| `StudentValidation.KeyNameInjective` | src/utils/student.validation.ts:3-98 | Two fields never stand for the same JavaScript key (no `Other` key aliases a declared one) |
| `StudentValidation.PersonalDetailsSchema` | src/utils/student.validation.ts:3-37 | The personal-details shape: nine keys, each with its declared rule |
| `StudentValidation.AdmissionDetailsSchema` | src/utils/student.validation.ts:39-57 | The admission-details shape: six keys, each with its declared rule |
| `StudentValidation.AddressSchema` | src/utils/student.validation.ts:59-82 | The address shape: five keys, each with its declared rule |
| `StudentValidation.BankDetailsSchema` | src/utils/student.validation.ts:84-98 | The bank-details shape: three keys, each with its declared rule |
| `StudentValidation.StudentFormSchema` | src/utils/student.validation.ts:100-103 | The three merges of the four section shapes, in source order |
| `StudentValidation.SectionOfMembership` | src/utils/student.validation.ts:3-98 | A field is declared by a section exactly when `SectionOf` names that section |
| `StudentValidation.DeclaredKeys` | src/utils/student.validation.ts:100-103 | `studentFormSchema` declares exactly the keys whose names are the 23 declared names |
| `StudentValidation.SectionsDisjoint` | src/utils/student.validation.ts:3-98 | The four sections' key sets are pairwise disjoint |
| `StudentValidation.StudentFormSchemaIsConjunction` | src/utils/student.validation.ts:100-103 | `studentFormSchema` has the union of the section keys, accepts iff all four sections accept, and reports their errors combined |
| `StudentValidation.SectionIgnoresOtherFields` | src/utils/student.validation.ts:100-103 | Changing a field outside a section never changes that section's verdict or errors |
| `StudentForm.TabIndex` | src/components/Students/StudentForm.tsx:323-328 | Each tab's position in the fixed order personal, family, academic, other, address, bank |
| `StudentForm.NextTab` | src/components/Students/StudentForm.tsx:281-285 | One step forward in the tab order; "bank" stays "bank" |
| `StudentForm.PreviousTab` | src/components/Students/StudentForm.tsx:289-293 | One step back in the tab order; "personal" stays "personal" |
| `StudentForm.PreviousUndoesNext` | src/components/Students/StudentForm.tsx:281-293 | Next then Previous returns to the start for every tab but "bank" |
| `StudentForm.NextUndoesPrevious` | src/components/Students/StudentForm.tsx:281-293 | Previous then Next returns to the start for every tab but "personal" |
| `StudentForm.NextTimesIndex` | src/components/Students/StudentForm.tsx:281-285 | k presses of Next advance min(k, remaining) tabs, never skipping one |
| `StudentForm.DigitChar` | src/components/Students/StudentForm.tsx:99 | A decimal digit maps to a digit character |
| `StudentForm.NatToString` | src/components/Students/StudentForm.tsx:99 | `toString()` of a non-negative integer: a non-empty digit string, without a leading zero unless the number is 0 |
| `StudentForm.NatToStringInjective` | src/components/Students/StudentForm.tsx:99 | Different numbers print differently |
| `StudentForm.ClassKey` | src/components/Students/StudentForm.tsx:99 | `cls.class.toString()`, the class's key |
| `StudentForm.DivisionKey` | src/components/Students/StudentForm.tsx:119 | `div.id.toString()`, the division's key |
| `StudentForm.FirstMatch` | src/components/Students/StudentForm.tsx:98-102 | The first index whose key is `v` (no earlier one matches), or the length if none does |
| `StudentForm.AvailableDivisions` | src/components/Students/StudentForm.tsx:96-106 | Null iff the class list is absent or no class is selected; undefined iff no class matches; otherwise the first class whose `class.toString()` equals the selection |
| `StudentForm.FindDivision` | src/components/Students/StudentForm.tsx:119 | None when no class is available or no division's `id.toString()` equals the value; else the first such division |
| `StudentForm.SelectingClassFindsIt` | src/components/Students/StudentForm.tsx:96-106 | With distinct class numbers, selecting a class's own key finds exactly that class |
| `StudentForm.PickingDivisionFindsIt` | src/components/Students/StudentForm.tsx:117-123 | With distinct ids, picking a division's own key records exactly that division |
| `StudentForm.OfferedClasses` | src/components/Students/StudentForm.tsx:742-752 | The class picker offers exactly the keys of classes with at least one division |
| `StudentForm.OfferedClassHasDivisions` | src/components/Students/StudentForm.tsx:742-752 | With distinct class numbers, every offered class leads to a non-empty division list |
| `StudentForm.DefaultValues` | src/components/Students/StudentForm.tsx:39-84 | The form's default values, key by key |
| `StudentForm.FormDefaults` | src/components/Students/StudentForm.tsx:39-84 | The form starts with gender "Male", category "OPEN", empty class and empty division |
| `StudentForm.StudentFormState.constructor` | src/components/Students/StudentForm.tsx:92-94 | Initial state: tab "personal", no class, no division, the default values |
| `StudentForm.StudentFormState.SetValue` | src/components/Students/StudentForm.tsx:112 | Setting a field changes that field's value and nothing else |
| `StudentForm.StudentFormState.HandleClassChange` | src/components/Students/StudentForm.tsx:108-115 | Sets the class, clears the division and the division field whatever they held; the tab and other fields are untouched; no stale division remains |
| `StudentForm.StudentFormState.HandleDivisionChange` | src/components/Students/StudentForm.tsx:117-123 | Records the matching division of the available class, or none; only the division changes |
| `StudentForm.StudentFormState.HandleNextTab` | src/components/Students/StudentForm.tsx:273-286 | The tab becomes `NextTab` of the old tab whatever the check's verdict; the flag is set only on "personal" and is otherwise unused |
| `StudentForm.StudentFormState.HandlePreviousTab` | src/components/Students/StudentForm.tsx:288-294 | The tab becomes `PreviousTab` of the old tab, with no validation |
| `StudentForm.StudentFormState.SetTab` | src/components/Students/StudentForm.tsx:321 | Clicking a trigger sets any tab directly |
| `StudentForm.StudentFormState.PickClass` | src/components/Students/StudentForm.tsx:726-731 | The class field takes the value, then the class change clears the division |
| `StudentForm.StudentFormState.PickDivision` | src/components/Students/StudentForm.tsx:765-771 | Only with a class selected: the division field takes the value and the matching division is recorded |
| `StudentForm.StudentFormState.HandleSubmit` | src/components/Students/StudentForm.tsx:125-135 | Submitting changes no state, for every form type |

## Left out

- Rendering: the JSX, cards and tab layout are not modelled. Only the direct tab change, the class picker's offer list and the division picker's disabled state are kept, as `SetTab`, `OfferedClasses` and `PickDivision`'s precondition.
- The validation library wiring: the react-hook-form resolver and `safeParseAsync` are not modelled. `handleNextTab` receives the personal-section verdict as a parameter. It cannot use the modelled schemas, because the names it imports are not exported by the validation file.
- Asynchrony: `await` inside `handleNextTab`, React's batched state updates and callback closures are not modelled. Each handler runs to completion and its updates take effect at once.
- Redux selectors, `useDispatch`, the class-fetch effect, the empty update effect, the loading and no-classes render guards, and `toast` are not modelled. These are store access and network plumbing. The class list is a constructor parameter.
- The commented-out add/update handlers are dead code.
- The numeric coercion `+e.target.value` on number inputs is not modelled (JavaScript number and NaN semantics). Form values are text or unset.
- `src/services/LeaveService.ts` and `src/services/AuthService.ts` are not modelled. They are HTTP endpoint declarations and network calls with token storage. `src/types/academic` is not part of this model; the fields of `AcademicClass` and `Division` are those the form uses.
- Zod's issue messages, their order, and the exact `too_small`/`too_big` split of a `.length` failure are not modelled. A failed check is one issue naming that check.
- Values other than strings, `null` and `undefined` (numbers, objects) are not modelled as field inputs. Neither is a non-object passed to an object schema.
- String lengths count Unicode scalar values, while JavaScript counts UTF-16 code units. The two differ only for characters outside the Basic Multilingual Plane.
- Only the refinement the schemas use (`val === null || pattern.test(val)`) is modelled, not arbitrary refinement functions.
- The import: `personalSchema` and `studentSchema` (StudentForm.tsx:11) are names the validation file does not export. `HandleNextTab`'s verdict parameter assumes the import resolves to a schema whose `safeParseAsync` returns a result. The other outcomes are not modelled: a module that fails to link, or `undefined.safeParseAsync` throwing at StudentForm.tsx:278 before the tab changes.
- Number printing: `NatToString` prints class numbers and division ids in plain decimal for every size. JavaScript switches to exponent form from 1e21 and loses exactness above 2^53. No proved property depends on this, because the picker and the lookups print with the same function.
- Distinct keys: the lemmas `SelectingClassFindsIt`, `PickingDivisionFindsIt` and `OfferedClassHasDivisions` assume distinct class numbers or division ids. Nothing in the source guarantees this. With duplicates, `availableDivisions` takes the first match, as `AvailableDivisions` states.
