/**
 * The patient record model: the constraints a patient must satisfy, the
 * derived body-mass index and health verdict, the row a patient is stored
 * as, and the all-optional update patch.
 *
 * Heights and weights are exact reals. The body-mass index is kept as an
 * integer number of hundredths, so `2612` stands for 26.12.
 */
module Orm {
  import opened Wrappers

  /** The gender literals a patient accepts. */
  const Genders: set<string> := {"male", "female", "others"}

  /** The fields a client supplies for a patient. */
  datatype PatientData = PatientData(
    patientId: string,
    name: string,
    city: string,
    age: int,
    gender: string,
    height: real,
    weight: real)
  {
    predicate Valid() {
      && 0 < age < 120
      && gender in Genders
      && height > 0.0
      && weight > 0.0
    }
  }

  /** A validated patient: every value of this type meets the constraints. */
  type Patient = p: PatientData | p.Valid()
    witness PatientData("P001", "John Doe", "New York", 30, "male", 1.75, 70.5)

  // ---------------------------------------------------------------------
  // Derived fields
  // ---------------------------------------------------------------------

  /** Rounds to the nearest integer, halves upward. */
  function Round(x: real): (n: int)
    ensures n as real - 0.5 <= x < n as real + 0.5
  {
    (x + 0.5).Floor
  }

  /** The integer satisfying Round's contract is unique. */
  lemma RoundIsNearest(x: real, m: int)
    requires m as real - 0.5 <= x < m as real + 0.5
    ensures Round(x) == m
  {
  }

  /** Body-mass index, in hundredths, of a height (m) and a weight (kg). */
  function BmiOf(height: real, weight: real): (hundredths: int)
    requires height > 0.0
    ensures hundredths as real - 0.5 <= 100.0 * weight / (height * height) < hundredths as real + 0.5
  {
    Round(100.0 * weight / (height * height))
  }

  /** The health verdict for a body-mass index given in hundredths. */
  function Verdict(bmi: int): (v: string)
    ensures v == "Underweight" <==> bmi < 1850
    ensures v == "Normal" <==> 1850 <= bmi < 2490
    ensures v == "Overweight" <==> 2500 <= bmi < 3000
    ensures v == "Obese" <==> (2490 <= bmi < 2500 || 3000 <= bmi)
  {
    if bmi < 1850 then "Underweight"
    else if 1850 <= bmi < 2490 then "Normal"
    else if 2500 <= bmi < 3000 then "Overweight"
    else "Obese"
  }

  const Labels: set<string> := {"Underweight", "Normal", "Overweight", "Obese"}

  /** Every index gets exactly one of the four labels. */
  lemma VerdictIsTotal(bmi: int)
    ensures Verdict(bmi) in Labels
    ensures |set l | l in Labels && Verdict(bmi) == l| == 1
  {
    var v := Verdict(bmi);
    assert (set l | l in Labels && v == l) == {v};
  }

  /** The band from 24.90 up to 25.00 is not Overweight: it falls through to Obese. */
  lemma VerdictGapIsObese(bmi: int)
    requires 2490 <= bmi < 2500
    ensures Verdict(bmi) == "Obese"
    ensures Verdict(bmi) != Verdict(2489) && Verdict(bmi) != Verdict(2500)
  {
  }

  // ---------------------------------------------------------------------
  // The stored row
  // ---------------------------------------------------------------------

  /**
   * A patient as stored in the data file: every field but the identifier,
   * which is the row's key, plus the derived bmi and verdict. A row read
   * from the file may hold any values of these types.
   */
  datatype Row = Row(
    name: string,
    city: string,
    age: int,
    gender: string,
    height: real,
    weight: real,
    bmi: int,
    verdict: string)

  /** A row that a patient could have been dumped to: valid fields, fresh derived ones. */
  predicate ValidRow(row: Row) {
    && 0 < row.age < 120
    && row.gender in Genders
    && row.height > 0.0
    && row.weight > 0.0
    && row.bmi == BmiOf(row.height, row.weight)
    && row.verdict == Verdict(row.bmi)
  }

  /** A patient's fields without its identifier, with bmi and verdict computed. */
  function Dump(p: Patient): (row: Row)
    ensures ValidRow(row)
    ensures Unpack(p.patientId, row) == Draft(p.patientId, Some(p.name), Some(p.city),
                                              Some(p.age), Some(p.gender), Some(p.height), Some(p.weight))
  {
    var bmi := BmiOf(p.height, p.weight);
    Row(p.name, p.city, p.age, p.gender, p.height, p.weight, bmi, Verdict(bmi))
  }

  // ---------------------------------------------------------------------
  // Validation
  // ---------------------------------------------------------------------

  /**
   * The keyword arguments a patient is validated from; `None` is a field
   * that is null. Derived fields passed along are ignored, so they are not
   * part of a draft.
   */
  datatype Draft = Draft(
    patientId: string,
    name: Option<string>,
    city: Option<string>,
    age: Option<int>,
    gender: Option<string>,
    height: Option<real>,
    weight: Option<real>)

  /** The draft of a stored row under the given identifier. */
  function Unpack(id: string, row: Row): (d: Draft)
    ensures d.patientId == id
    ensures Validate(d).Success? <==> 0 < row.age < 120 && row.gender in Genders && row.height > 0.0 && row.weight > 0.0
    ensures Validate(d).Success? ==>
              Validate(d).value == PatientData(id, row.name, row.city, row.age, row.gender, row.height, row.weight)
  {
    Draft(id, Some(row.name), Some(row.city), Some(row.age), Some(row.gender),
          Some(row.height), Some(row.weight))
  }

  predicate AgeOk(age: Option<int>) { age.Some? && 0 < age.value < 120 }
  predicate GenderOk(gender: Option<string>) { gender.Some? && gender.value in Genders }
  predicate PositiveOk(x: Option<real>) { x.Some? && x.value > 0.0 }

  /** The fields of a patient that validation can reject. */
  datatype FieldName = NameField | CityField | AgeField | GenderField | HeightField | WeightField

  /** The field, listed when it fails. */
  function Flag(f: FieldName, fails: bool): (errors: seq<FieldName>)
    ensures forall g :: g in errors <==> (fails && g == f)
  {
    if fails then [f] else []
  }

  /** The fields that fail their constraint, in declaration order. */
  function FieldErrors(d: Draft): (errors: seq<FieldName>)
    ensures NameField in errors <==> d.name.None?
    ensures CityField in errors <==> d.city.None?
    ensures AgeField in errors <==> !AgeOk(d.age)
    ensures GenderField in errors <==> !GenderOk(d.gender)
    ensures HeightField in errors <==> !PositiveOk(d.height)
    ensures WeightField in errors <==> !PositiveOk(d.weight)
  {
    Flag(NameField, d.name.None?)
    + Flag(CityField, d.city.None?)
    + Flag(AgeField, !AgeOk(d.age))
    + Flag(GenderField, !GenderOk(d.gender))
    + Flag(HeightField, !PositiveOk(d.height))
    + Flag(WeightField, !PositiveOk(d.weight))
  }

  /** Builds a patient from a draft, or reports every failing field. */
  function Validate(d: Draft): (r: Result<Patient, seq<FieldName>>)
    ensures r.Success? <==> (d.name.Some? && d.city.Some? && AgeOk(d.age) && GenderOk(d.gender)
                             && PositiveOk(d.height) && PositiveOk(d.weight))
    ensures r.Success? ==> r.value == PatientData(d.patientId, d.name.value, d.city.value, d.age.value,
                                                  d.gender.value, d.height.value, d.weight.value)
    ensures r.Failure? ==> r.error == FieldErrors(d) && |r.error| > 0
  {
    var errors := FieldErrors(d);
    if errors == [] then
      Success(PatientData(d.patientId, d.name.value, d.city.value, d.age.value,
                          d.gender.value, d.height.value, d.weight.value))
    else
      Failure(errors)
  }

  /** A patient is accepted exactly when it meets the constraints on its fields. */
  lemma ValidateAcceptsExactlyValid(d: PatientData)
    ensures var draft := Draft(d.patientId, Some(d.name), Some(d.city), Some(d.age), Some(d.gender),
                               Some(d.height), Some(d.weight));
            Validate(draft).Success? <==> d.Valid()
  {
  }

  /** Dumping a patient and validating the row again gives the same patient. */
  lemma DumpRoundTrip(p: Patient)
    ensures Validate(Unpack(p.patientId, Dump(p))) == Success(p)
  {
  }

  // ---------------------------------------------------------------------
  // The update patch
  // ---------------------------------------------------------------------

  /** One field of a patch: not sent, sent as null, or sent with a value. */
  datatype Patch<+T> = Unset | Null | Given(value: T)

  /** A patch has no identifier, bmi or verdict: those are never set directly. */
  datatype UpdateData = UpdateData(
    name: Patch<string>,
    city: Patch<string>,
    age: Patch<int>,
    gender: Patch<string>,
    height: Patch<real>,
    weight: Patch<real>)
  {
    /** Fields that carry a value meet the same bounds as a patient's. */
    predicate Valid() {
      && (age.Given? ==> 0 < age.value < 120)
      && (gender.Given? ==> gender.value in Genders)
      && (height.Given? ==> height.value > 0.0)
      && (weight.Given? ==> weight.value > 0.0)
    }

    /** No field is sent as null. */
    predicate NoNulls() {
      !name.Null? && !city.Null? && !age.Null? && !gender.Null? && !height.Null? && !weight.Null?
    }
  }

  type PatientUpdate = u: UpdateData | u.Valid()
    witness UpdateData(Unset, Unset, Unset, Unset, Unset, Unset)

  /**
   * What a stored field becomes under one patch field: the sent value, the
   * stored value when the field is not sent, and nothing when it is sent as null.
   */
  predicate Patched<T(==)>(value: Option<T>, stored: Option<T>, p: Patch<T>) {
    && (p.Given? ==> value == Some(p.value))
    && (p.Unset? ==> value == stored)
    && (p.Null? ==> value.None?)
  }

  /** A stored value overlaid with one patch field. */
  function Overlay<T(==)>(stored: Option<T>, p: Patch<T>): (r: Option<T>)
    ensures Patched(r, stored, p)
  {
    match p
    case Unset => stored
    case Null => None
    case Given(v) => Some(v)
  }

  /** A patch that sends no null keeps a valid patient's fields within their bounds. */
  lemma OverlayKeepsBounds(d: PatientData, u: PatientUpdate)
    requires d.Valid() && u.NoNulls()
    ensures Overlay(Some(d.name), u.name).Some? && Overlay(Some(d.city), u.city).Some?
    ensures AgeOk(Overlay(Some(d.age), u.age)) && GenderOk(Overlay(Some(d.gender), u.gender))
    ensures PositiveOk(Overlay(Some(d.height), u.height)) && PositiveOk(Overlay(Some(d.weight), u.weight))
  {
  }
}
