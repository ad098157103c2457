/**
  The part of the Zod schema library the student schemas are built from:
  string rules with length and pattern checks, string enums, `.nullable()`,
  the one `.refine(...)` in use, object shapes and `.merge`.

  A rule's verdict on a value is the set of issues it reports (Zod's issue
  codes, without their message text or order); the value is accepted when that
  set is empty. An object schema walks its shape key by key, reads a missing
  key as `undefined`, and drops keys outside its shape from the parsed data.
 */
module Schema {
  import opened Regex

  /** A field value as the validator sees it. */
  datatype Value = Str(s: string) | Null | Undefined

  /** A check attached to `z.string()`: `.min(n)`, `.max(n)`, `.length(n)`, `.regex(p)`. */
  datatype Check = Min(n: nat) | Max(n: nat) | Length(n: nat) | Regex(p: Pattern)

  /** Zod's issue codes, one per kind of failure. */
  datatype Issue =
    | InvalidType           // not a string (or, for nullable, neither string nor null)
    | CheckFailed(check: Check)  // too_small / too_big / invalid_string for that check
    | InvalidEnumValue      // a string outside the enum's options
    | CustomFailed          // the refinement returned false

  datatype Rule =
    | StringRule(checks: seq<Check>)        // z.string().check1().check2()...
    | EnumRule(options: seq<string>)        // z.enum([...])
    | NullableRule(inner: Rule)             // inner.nullable()
    | RefineNullOr(inner: Rule, p: Pattern) // inner.refine(val => val === null || p.test(val))

  predicate Holds(c: Check, s: string) {
    match c
    case Min(n) => |s| >= n
    case Max(n) => |s| <= n
    case Length(n) => |s| == n
    case Regex(p) => Matches(p, s)
  }

  /** The issue one check reports: none if it holds. */
  function CheckIssue(c: Check, s: string): set<Issue> {
    if Holds(c, s) then {} else {CheckFailed(c)}
  }

  /** Zod runs every check of a string rule and reports each one that fails, and nothing else. */
  function CheckFailures(checks: seq<Check>, s: string): (issues: set<Issue>)
    ensures forall i :: i in issues ==> i.CheckFailed?
    ensures forall c :: CheckFailed(c) in issues <==> c in checks && !Holds(c, s)
  {
    if checks == [] then {}
    else
      var rest := CheckFailures(checks[1..], s);
      assert forall c :: c in checks <==> c == checks[0] || c in checks[1..];
      CheckIssue(checks[0], s) + rest
  }

  /** A result carrying one of these issues is aborted; later refinements do not run on it. */
  predicate Aborted(issues: set<Issue>) {
    InvalidType in issues || InvalidEnumValue in issues
  }

  /** The issues `rule` reports for `v`. */
  function Failures(rule: Rule, v: Value): set<Issue> {
    match rule
    case StringRule(checks) =>
      if v.Str? then CheckFailures(checks, v.s) else {InvalidType}
    case EnumRule(options) =>
      if !v.Str? then {InvalidType}
      else if v.s in options then {}
      else {InvalidEnumValue}
    case NullableRule(inner) =>
      if v.Null? then {} else Failures(inner, v)
    case RefineNullOr(inner, p) =>
      var f := Failures(inner, v);
      if Aborted(f) then f
      else if v.Null? || (v.Str? && Matches(p, v.s)) then f
      else f + {CustomFailed}
  }

  predicate Accepts(rule: Rule, v: Value) {
    Failures(rule, v) == {}
  }

  /** A string rule reports no issue exactly when every one of its checks holds. */
  lemma {:induction false} CheckFailuresEmpty(checks: seq<Check>, s: string)
    ensures CheckFailures(checks, s) == {} <==> forall i :: 0 <= i < |checks| ==> Holds(checks[i], s)
    decreases |checks|
  {
    if checks != [] {
      CheckFailuresEmpty(checks[1..], s);
      if CheckFailures(checks, s) == {} {
        assert CheckFailures(checks[1..], s) == {};
        forall i | 0 <= i < |checks| ensures Holds(checks[i], s) {
          if i > 0 { assert checks[i] == checks[1..][i - 1]; }
        }
      }
      if forall i :: 0 <= i < |checks| ==> Holds(checks[i], s) {
        forall i | 0 <= i < |checks[1..]| ensures Holds(checks[1..][i], s) {
          assert checks[1..][i] == checks[i + 1];
        }
      }
    }
  }

  /** `z.string()` with checks accepts exactly the strings that satisfy all of them, and nothing else. */
  lemma StringRuleAccepts(checks: seq<Check>, v: Value)
    ensures Accepts(StringRule(checks), v) <==> v.Str? && forall c :: c in checks ==> Holds(c, v.s)
  {
    if v.Str? { CheckFailuresEmpty(checks, v.s); }
  }

  /** The issues of a two- or three-check rule, spelled out. */
  lemma TwoCheckFailures(a: Check, b: Check, s: string)
    ensures CheckFailures([a, b], s) == CheckIssue(a, s) + CheckIssue(b, s)
  {
    assert [a, b][1..] == [b];
    assert [b][1..] == [];
  }

  lemma ThreeCheckFailures(a: Check, b: Check, c: Check, s: string)
    ensures CheckFailures([a, b, c], s) == CheckIssue(a, s) + CheckIssue(b, s) + CheckIssue(c, s)
  {
    assert [a, b, c][1..] == [b, c];
    TwoCheckFailures(b, c, s);
  }

  /** The same, for the one-, two- and three-check rules the schemas declare. */
  lemma OneCheckAccepts(a: Check, v: Value)
    ensures Accepts(StringRule([a]), v) <==> v.Str? && Holds(a, v.s)
  {
    StringRuleAccepts([a], v);
  }

  lemma TwoChecksAccept(a: Check, b: Check, v: Value)
    ensures Accepts(StringRule([a, b]), v) <==> v.Str? && Holds(a, v.s) && Holds(b, v.s)
  {
    var cs := [a, b];
    StringRuleAccepts(cs, v);
    assert cs[0] in cs && cs[1] in cs;
  }

  lemma ThreeChecksAccept(a: Check, b: Check, c: Check, v: Value)
    ensures Accepts(StringRule([a, b, c]), v) <==> v.Str? && Holds(a, v.s) && Holds(b, v.s) && Holds(c, v.s)
  {
    var cs := [a, b, c];
    StringRuleAccepts(cs, v);
    assert cs[0] in cs && cs[1] in cs && cs[2] in cs;
  }

  /**
    A `.length(n)` check placed before a pattern that only admits strings of
    length `n` changes nothing: the rule with it accepts the same values as the
    rule without it.
   */
  lemma RedundantLengthCheck(n: nat, p: Pattern, v: Value)
    requires IsFixed(p) && MinLength(p) == n
    ensures Accepts(StringRule([Length(n), Regex(p)]), v) <==> Accepts(StringRule([Regex(p)]), v)
  {
    TwoChecksAccept(Length(n), Regex(p), v);
    OneCheckAccepts(Regex(p), v);
    if v.Str? && Matches(p, v.s) {
      FixedPatternForcesLength(p, v.s);
    }
  }

  /** An object shape: field key to rule. */
  type Shape<K(==)> = map<K, Rule>

  /** The input record: field key to value. */
  type Record<K(==)> = map<K, Value>

  /** Reading a field absent from the record gives `undefined`. */
  function Lookup<K(==)>(rec: Record<K>, key: K): Value {
    if key in rec then rec[key] else Undefined
  }

  /** The shape accepts the record: every field of the shape passes its rule. */
  predicate Validate<K(==)>(shape: Shape<K>, rec: Record<K>) {
    forall k :: k in shape ==> Accepts(shape[k], Lookup(rec, k))
  }

  /** The field errors: every field of the shape that fails, with its issues. */
  function Errors<K(==)>(shape: Shape<K>, rec: Record<K>): (errs: map<K, set<Issue>>)
    ensures errs.Keys <= shape.Keys
    ensures forall k :: k in errs ==> errs[k] == Failures(shape[k], Lookup(rec, k)) && errs[k] != {}
    ensures forall k :: k in shape && !Accepts(shape[k], Lookup(rec, k)) ==> k in errs
  {
    map k | k in shape && Failures(shape[k], Lookup(rec, k)) != {} :: Failures(shape[k], Lookup(rec, k))
  }

  datatype ParseResult<K(==)> = Success(data: Record<K>) | Failure(errors: map<K, set<Issue>>)

  /**
    `schema.safeParse(rec)`: either the record's fields that belong to the shape
    (unknown keys are stripped), or the per-field errors.
   */
  function SafeParse<K(==)>(shape: Shape<K>, rec: Record<K>): (r: ParseResult<K>)
    ensures r.Success? <==> Validate(shape, rec)
    ensures r.Success? ==> r.data.Keys == shape.Keys && forall k :: k in shape ==> r.data[k] == Lookup(rec, k)
    ensures r.Failure? ==> r.errors != map[] && r.errors == Errors(shape, rec)
  {
    var errs := Errors(shape, rec);
    if errs == map[] then Success(map k | k in shape :: Lookup(rec, k))
    else
      assert !Validate(shape, rec) by {
        var k :| k in errs;
      }
      Failure(errs)
  }

  /** `a.merge(b)`: the union of both shapes; on a shared key the rule of `b` wins. */
  function Merge<K(==)>(a: Shape<K>, b: Shape<K>): (m: Shape<K>)
    ensures m.Keys == a.Keys + b.Keys
    ensures forall k :: k in b ==> m[k] == b[k]
    ensures forall k :: k in a && k !in b ==> m[k] == a[k]
  {
    a + b
  }

  /** Merging shapes with disjoint keys validates exactly the conjunction, and reports the union of the errors. */
  lemma MergeDisjoint<K>(a: Shape<K>, b: Shape<K>, rec: Record<K>)
    requires a.Keys !! b.Keys
    ensures Validate(Merge(a, b), rec) <==> Validate(a, rec) && Validate(b, rec)
    ensures Errors(Merge(a, b), rec) == Errors(a, rec) + Errors(b, rec)
  {
    var m := Merge(a, b);
    if Validate(m, rec) {
      forall k | k in a ensures Accepts(a[k], Lookup(rec, k)) {
        assert m[k] == a[k];
      }
    }
    var e, ea, eb := Errors(m, rec), Errors(a, rec), Errors(b, rec);
    forall k | k in e ensures k in ea + eb && e[k] == (ea + eb)[k] {
      if k !in b { assert m[k] == a[k]; }
    }
    forall k | k in ea + eb ensures k in e {
      if k !in b { assert m[k] == a[k]; }
    }
    assert e.Keys == (ea + eb).Keys;
  }

  /** A shape's verdict and errors depend only on the record's values at the shape's own keys. */
  lemma ValidateLocal<K>(shape: Shape<K>, r1: Record<K>, r2: Record<K>)
    requires forall k :: k in shape ==> Lookup(r1, k) == Lookup(r2, k)
    ensures Validate(shape, r1) <==> Validate(shape, r2)
    ensures Errors(shape, r1) == Errors(shape, r2)
  {
    assert Errors(shape, r1).Keys == Errors(shape, r2).Keys;
  }

  /** Changing a field outside the shape, or adding one, never changes the shape's result. */
  lemma ValidateIgnoresOtherFields<K>(shape: Shape<K>, rec: Record<K>, key: K, v: Value)
    requires key !in shape
    ensures Validate(shape, rec[key := v]) <==> Validate(shape, rec)
    ensures Errors(shape, rec[key := v]) == Errors(shape, rec)
  {
    ValidateLocal(shape, rec[key := v], rec);
  }
}
