/** The numeric fields of the add-employee form. `handleChange` stores every
    input's text, so "salary" and "years of experience" of a submitted record
    are strings, and the views' `reduce((sum, emp) => sum + emp.salary, 0)`
    then meets JavaScript's `+` on a number and a string. This module models
    that as written and the intended numeric storage. */
module FormNumbers {
  import opened Options
  import opened Seqs
  import opened EmployeeTypes
  import opened Aggregates
  import EmployeeStore
  import AddEmployee

  /** A field value as JavaScript holds it: a number or a text. */
  datatype JsValue = Num(n: nat) | Str(s: string)

  predicate IsDigit(c: char) { '0' <= c <= '9' }

  function DigitChar(d: nat): (c: char)
    requires d < 10
    ensures IsDigit(c) && (c as int) - ('0' as int) == d
  {
    (('0' as int) + d) as char
  }

  /** The decimal text of a number, as `String(n)` writes it: digits only, and
      no leading zero except in the text of zero itself. */
  function Decimal(n: nat): (r: string)
    ensures r != [] && forall i :: 0 <= i < |r| ==> IsDigit(r[i])
    ensures r[0] == '0' ==> n == 0
    decreases n
  {
    if n < 10 then [DigitChar(n)]
    else
      var r := Decimal(n / 10) + [DigitChar(n % 10)];
      assert r[0] == Decimal(n / 10)[0];
      r
  }

  function DigitValue(c: char): nat
    requires IsDigit(c)
  {
    (c as int) - ('0' as int)
  }

  /** The value of a digit string. */
  function DigitsValue(s: string): nat
    requires forall i :: 0 <= i < |s| ==> IsDigit(s[i])
  {
    if s == [] then 0 else DigitsValue(s[..|s| - 1]) * 10 + DigitValue(s[|s| - 1])
  }

  /** The reader the intended `handleChange` applies to a numeric input: its
      value when the text is a non-empty run of decimal digits, nothing
      otherwise. The source has no such reader. */
  function ReadNumber(raw: string): (r: Option<nat>)
    ensures r.Some? <==> raw != [] && forall i :: 0 <= i < |raw| ==> IsDigit(raw[i])
  {
    if raw != [] && forall i :: 0 <= i < |raw| ==> IsDigit(raw[i]) then Some(DigitsValue(raw)) else None
  }

  /** Reading back the text a number is written as gives the number. */
  lemma {:induction false} ReadNumberRoundTrip(n: nat)
    ensures ReadNumber(Decimal(n)) == Some(n)
    decreases n
  {
    var s := Decimal(n);
    if n < 10 {
      assert s[..|s| - 1] == [];
      assert DigitsValue(s) == DigitValue(DigitChar(n)) == n;
    } else {
      ReadNumberRoundTrip(n / 10);
      assert s[..|s| - 1] == Decimal(n / 10);
      assert DigitValue(s[|s| - 1]) == n % 10;
      assert DigitsValue(s) == (n / 10) * 10 + n % 10 == n;
    }
  }

  /** JavaScript's `+`: numbers add, and as soon as one side is a text the
      other is written out and the two texts are joined. */
  function JsPlus(a: JsValue, b: JsValue): (r: JsValue)
    ensures r.Num? <==> a.Num? && b.Num?
    ensures r.Num? ==> r.n == a.n + b.n
    ensures a.Num? && b.Str? ==> r == Str(Decimal(a.n) + b.s)
  {
    match (a, b)
    case (Num(x), Num(y)) => Num(x + y)
    case (Num(x), Str(t)) => Str(Decimal(x) + t)
    case (Str(s), Num(y)) => Str(s + Decimal(y))
    case (Str(s), Str(t)) => Str(s + t)
  }

  /** `values.reduce((sum, v) => sum + v, acc)`, folding from the left. */
  function ReduceFrom(acc: JsValue, vs: seq<JsValue>): (r: JsValue)
    ensures acc.Num? && (forall i :: 0 <= i < |vs| ==> vs[i].Num?) ==> r.Num?
    decreases |vs|
  {
    if vs == [] then acc else ReduceFrom(JsPlus(acc, vs[0]), vs[1..])
  }

  /** As written: a salary total that meets a form-added text is a text. With
      a number `x` first and a submitted text `t` second, the reduce joins the
      digits of `x` and `t` instead of adding. */
  lemma SumConcatenates(x: nat, t: string)
    ensures ReduceFrom(Num(0), [Num(x), Str(t)]) == Str(Decimal(x) + t)
  {
    var vs := [Num(x), Str(t)];
    assert vs[1..] == [Str(t)] && vs[1..][1..] == [];
    assert JsPlus(Num(0), Num(x)) == Num(x);
    assert ReduceFrom(Num(0), vs) == ReduceFrom(Num(x), [Str(t)]);
    assert JsPlus(Num(x), Str(t)) == Str(Decimal(x) + t);
    assert ReduceFrom(Num(x), [Str(t)]) == ReduceFrom(Str(Decimal(x) + t), []);
  }

  /** As written: once any value of the reduce is a text, the total is a text
      and never the number the statistics need. */
  lemma {:induction false} TextPoisonsSum(acc: JsValue, vs: seq<JsValue>)
    requires acc.Str? || exists i :: 0 <= i < |vs| && vs[i].Str?
    ensures ReduceFrom(acc, vs).Str?
    decreases |vs|
  {
    if vs != [] {
      if !acc.Str? && !vs[0].Str? {
        var i :| 0 <= i < |vs| && vs[i].Str?;
        assert vs[1..][i - 1] == vs[i];
      }
      TextPoisonsSum(JsPlus(acc, vs[0]), vs[1..]);
    }
  }

  /** The first sample salary is written "95000", so with a form-added "50000"
      the total becomes "9500050000" rather than 145000. */
  lemma SampleSalaryDigits()
    ensures Decimal(95000) == "95000"
  {
    assert DigitChar(9) == '9' && DigitChar(5) == '5' && DigitChar(0) == '0';
    assert Decimal(95) == Decimal(9) + ['5'];
    assert Decimal(950) == Decimal(95) + ['0'];
    assert Decimal(9500) == Decimal(950) + ['0'];
    assert Decimal(95000) == Decimal(9500) + ['0'];
  }

  /** Intended: the salary stored as a number. */
  function SalaryValue(e: Employee): JsValue { Num(e.salary) }

  /** With numbers stored, the views' reduce is the arithmetic salary total the
      statistics use. */
  lemma {:induction false} NumericReduceIsSalaryTotal(acc: nat, es: seq<Employee>)
    ensures ReduceFrom(Num(acc), Map(SalaryValue, es)) == Num(acc + SalaryTotal(es))
    decreases |es|
  {
    if es != [] {
      assert Map(SalaryValue, es)[1..] == Map(SalaryValue, es[1..]);
      NumericReduceIsSalaryTotal(acc + es[0].salary, es[1..]);
    }
  }

  /** The two numeric inputs of the form. */
  datatype NumericField = YearsField | SalaryField

  /** The numeric part of the form state as the source holds it: numbers 0 when
      the form opens, whatever `handleChange` stored afterwards. */
  datatype RawNumbers = RawNumbers(yearsOfExperience: JsValue, salary: JsValue)

  const InitialNumbers := RawNumbers(Num(0), Num(0))

  /** As written: `setFormData(prev => ({ ...prev, [name]: value }))` stores the
      input's text in the named field and leaves the other one. */
  function HandleChangeAsWritten(f: RawNumbers, field: NumericField, value: string): (g: RawNumbers)
    ensures field == SalaryField ==> g.salary == Str(value) && g.yearsOfExperience == f.yearsOfExperience
    ensures field == YearsField ==> g.yearsOfExperience == Str(value) && g.salary == f.salary
  {
    match field
    case SalaryField => f.(salary := Str(value))
    case YearsField => f.(yearsOfExperience := Str(value))
  }

  /** As written: typing the digits of any salary leaves a text in the field,
      and a collection reduce that meets that text yields a text. */
  lemma TypedSalaryIsText(f: RawNumbers, n: nat, others: seq<JsValue>)
    ensures HandleChangeAsWritten(f, SalaryField, Decimal(n)).salary == Str(Decimal(n))
    ensures ReduceFrom(Num(0), others + [HandleChangeAsWritten(f, SalaryField, Decimal(n)).salary]).Str?
  {
    var vs := others + [HandleChangeAsWritten(f, SalaryField, Decimal(n)).salary];
    assert vs[|others|].Str?;
    TextPoisonsSum(Num(0), vs);
  }

  /** Intended: a numeric input is stored as the number it reads, and an input
      that does not read as a number leaves the field as it was. Every other
      field of the form is kept. */
  function HandleNumberChange(f: AddEmployee.FormState, field: NumericField, value: string): (g: AddEmployee.FormState)
    ensures ReadNumber(value).None? ==> g == f
    ensures ReadNumber(value).Some? && field == SalaryField ==> g == f.(salary := ReadNumber(value).value)
    ensures ReadNumber(value).Some? && field == YearsField ==> g == f.(yearsOfExperience := ReadNumber(value).value)
  {
    match field
    case SalaryField => f.(salary := ReadNumber(value).GetOr(f.salary))
    case YearsField => f.(yearsOfExperience := ReadNumber(value).GetOr(f.yearsOfExperience))
  }

  /** Intended: typing the digits of a salary stores that salary, the submitted
      record carries it, and the salary total of a collection that adds it is
      the arithmetic sum, which the views' numeric reduce computes. */
  lemma TypedSalaryIsStored(f: AddEmployee.FormState, n: nat, es: seq<Employee>, id: string)
    ensures HandleNumberChange(f, SalaryField, Decimal(n)).salary == n
    ensures AddEmployee.Submitted(HandleNumberChange(f, SalaryField, Decimal(n))).salary == n
    ensures ReduceFrom(Num(0), Map(SalaryValue, es + [EmployeeStore.WithId(AddEmployee.Submitted(HandleNumberChange(f, SalaryField, Decimal(n))), id)]))
            == Num(SalaryTotal(es) + n)
  {
    TypedSalaryField(f, n);
    var e := EmployeeStore.WithId(AddEmployee.Submitted(f.(salary := n)), id);
    assert e.salary == n;
    ReduceWithOneMore(es, e);
  }

  /** Typing the digits of a salary sets the salary field to it and nothing else. */
  lemma TypedSalaryField(f: AddEmployee.FormState, n: nat)
    ensures HandleNumberChange(f, SalaryField, Decimal(n)) == f.(salary := n)
  {
    ReadNumberRoundTrip(n);
  }

  /** The numeric reduce over a collection with one more record is the old
      salary total plus that record's salary. */
  lemma ReduceWithOneMore(es: seq<Employee>, e: Employee)
    ensures ReduceFrom(Num(0), Map(SalaryValue, es + [e])) == Num(SalaryTotal(es) + e.salary)
  {
    NumericReduceIsSalaryTotal(0, es + [e]);
    SalaryTotalAppend(es, e);
  }

  /** The salary total of a collection with one more record adds its salary. */
  lemma {:induction false} SalaryTotalAppend(es: seq<Employee>, e: Employee)
    ensures SalaryTotal(es + [e]) == SalaryTotal(es) + e.salary
  {
    if es == [] {
      assert [e][1..] == [];
    } else {
      assert (es + [e])[1..] == es[1..] + [e];
      SalaryTotalAppend(es[1..], e);
    }
  }
}
