/** Grocery.java: a validated inventory record. Every setter checks its argument before
    assigning it; the constructor runs the five setters in order, so the first failing
    check is the one reported. Dates are integers; "now" is a parameter. */
module Groceries {
  import opened Wrappers
  import opened Text

  const NameError := "Name cannot be null or blank"
  const AmountError := "Amount must be greater than 0"
  const UnitError := "Unit cannot be null or blank"
  const DateError := "Best before date must be a valid future date"
  const PriceError := "Price per unit must be greater than 0"

  /** The observable state of a Grocery: what its five getters return. */
  datatype GroceryData = GroceryData(
    name: string, amount: real, unit: string, bestBeforeDate: int, pricePerUnit: real)

  /** What the setters guarantee of every Grocery. The best-before date is checked
      against "now" only when it is set, so an old record may be past its date. */
  predicate ValidData(d: GroceryData) {
    !IsBlank(d.name) && d.amount > 0.0 && !IsBlank(d.unit) && d.pricePerUnit > 0.0
  }

  /** `setName`'s check: a null or blank name is rejected. */
  function CheckName(name: Option<string>): (o: Outcome<string>)
    ensures o.Pass? <==> name.Some? && !IsBlank(name.value)
    ensures o.Fail? ==> o.error == NameError
  {
    if name.None? || IsBlank(name.value) then Fail(NameError) else Pass
  }

  /** `setAmount`'s check: zero and negative amounts are rejected. */
  function CheckAmount(amount: real): (o: Outcome<string>)
    ensures o.Pass? <==> amount > 0.0
    ensures o.Fail? ==> o.error == AmountError
  {
    if amount <= 0.0 then Fail(AmountError) else Pass
  }

  /** `setUnit`'s check: a null or blank unit is rejected. */
  function CheckUnit(unit: Option<string>): (o: Outcome<string>)
    ensures o.Pass? <==> unit.Some? && !IsBlank(unit.value)
    ensures o.Fail? ==> o.error == UnitError
  {
    if unit.None? || IsBlank(unit.value) then Fail(UnitError) else Pass
  }

  /** `setBestBeforeDate`'s check: null, or a date strictly before now, is rejected;
      a date equal to now is accepted. */
  function CheckBestBeforeDate(date: Option<int>, now: int): (o: Outcome<string>)
    ensures o.Pass? <==> date.Some? && date.value >= now
    ensures o.Fail? ==> o.error == DateError
  {
    if date.None? || date.value < now then Fail(DateError) else Pass
  }

  /** `setPricePerUnit`'s check: zero and negative prices are rejected. */
  function CheckPrice(price: real): (o: Outcome<string>)
    ensures o.Pass? <==> price > 0.0
    ensures o.Fail? ==> o.error == PriceError
  {
    if price <= 0.0 then Fail(PriceError) else Pass
  }

  /** What the constructor produces for its arguments: the record when all five checks
      pass, otherwise the message of the first check (in the order name, amount, unit,
      date, price) that fails. */
  function Validate(name: Option<string>, amount: real, unit: Option<string>,
                    date: Option<int>, price: real, now: int): (r: Result<GroceryData, string>)
    ensures r.Success? <==>
      name.Some? && !IsBlank(name.value) && amount > 0.0 && unit.Some? && !IsBlank(unit.value)
      && date.Some? && date.value >= now && price > 0.0
    ensures r.Success? ==>
      r.value == GroceryData(name.value, amount, unit.value, date.value, price) && ValidData(r.value)
    ensures r.Failure? ==>
      || (r.error == NameError && CheckName(name).Fail?)
      || (r.error == AmountError && CheckName(name).Pass? && amount <= 0.0)
      || (r.error == UnitError && CheckName(name).Pass? && amount > 0.0 && CheckUnit(unit).Fail?)
      || (r.error == DateError && CheckName(name).Pass? && amount > 0.0 && CheckUnit(unit).Pass?
          && CheckBestBeforeDate(date, now).Fail?)
      || (r.error == PriceError && CheckName(name).Pass? && amount > 0.0 && CheckUnit(unit).Pass?
          && CheckBestBeforeDate(date, now).Pass? && price <= 0.0)
  {
    match (CheckName(name), CheckAmount(amount), CheckUnit(unit),
           CheckBestBeforeDate(date, now), CheckPrice(price))
    case (Fail(e), _, _, _, _) => Failure(e)
    case (_, Fail(e), _, _, _) => Failure(e)
    case (_, _, Fail(e), _, _) => Failure(e)
    case (_, _, _, Fail(e), _) => Failure(e)
    case (_, _, _, _, Fail(e)) => Failure(e)
    case _ => Success(GroceryData(name.value, amount, unit.value, date.value, price))
  }

  /** The five error messages are distinct, so a reported message names the one
      check that failed. */
  lemma ErrorMessagesDistinct()
    ensures NameError != AmountError && NameError != UnitError && NameError != DateError
    ensures NameError != PriceError && AmountError != UnitError && AmountError != DateError
    ensures AmountError != PriceError && UnitError != DateError && UnitError != PriceError
    ensures DateError != PriceError
  {
    assert NameError[0] != AmountError[0] && NameError[0] != UnitError[0];
    assert NameError[0] != DateError[0] && NameError[0] != PriceError[0];
    assert AmountError[0] != UnitError[0] && AmountError[0] != DateError[0];
    assert AmountError[0] != PriceError[0] && UnitError[0] != DateError[0];
    assert UnitError[0] != PriceError[0] && DateError[0] != PriceError[0];
  }

  class Grocery {
    var name: string
    var amount: real
    var unit: string
    var bestBeforeDate: int
    var pricePerUnit: real

    /** The values the getters return. */
    function View(): GroceryData
      reads this
    {
      GroceryData(name, amount, unit, bestBeforeDate, pricePerUnit)
    }

    ghost predicate Valid()
      reads this
    {
      ValidData(View())
    }

    /** The freshly allocated object before the constructor's setters have run. The empty
        strings and the zero date stand in for Java's nulls (amount and price are Java's
        zero defaults); `Create` overwrites all five fields, or discards the object. */
    constructor Unset()
      ensures View() == GroceryData("", 0.0, "", 0, 0.0)
    {
      name, amount, unit, bestBeforeDate, pricePerUnit := "", 0.0, "", 0, 0.0;
    }

    /** The validating constructor: runs setName, setAmount, setUnit, setBestBeforeDate
        and setPricePerUnit in that order and stops at the first rejection. */
    static method Create(name: Option<string>, amount: real, unit: Option<string>,
                         date: Option<int>, price: real, now: int)
      returns (r: Result<Grocery, string>)
      ensures r.Success? <==> Validate(name, amount, unit, date, price, now).Success?
      ensures r.Success? ==>
        fresh(r.value) && r.value.Valid()
        && r.value.View() == Validate(name, amount, unit, date, price, now).value
      ensures r.Failure? ==> r.error == Validate(name, amount, unit, date, price, now).error
    {
      var g := new Grocery.Unset();
      var o := g.SetName(name);
      if o.Fail? { return Failure(o.error); }
      o := g.SetAmount(amount);
      if o.Fail? { return Failure(o.error); }
      o := g.SetUnit(unit);
      if o.Fail? { return Failure(o.error); }
      o := g.SetBestBeforeDate(date, now);
      if o.Fail? { return Failure(o.error); }
      o := g.SetPricePerUnit(price);
      if o.Fail? { return Failure(o.error); }
      return Success(g);
    }

    method SetName(name: Option<string>) returns (o: Outcome<string>)
      modifies this
      ensures o == CheckName(name)
      ensures o.Pass? ==> View() == old(View()).(name := name.value)
      ensures o.Fail? ==> View() == old(View())
    {
      o := CheckName(name);
      if o.Pass? {
        this.name := name.value;
      }
    }

    method SetAmount(amount: real) returns (o: Outcome<string>)
      modifies this
      ensures o == CheckAmount(amount)
      ensures o.Pass? ==> View() == old(View()).(amount := amount)
      ensures o.Fail? ==> View() == old(View())
    {
      o := CheckAmount(amount);
      if o.Pass? {
        this.amount := amount;
      }
    }

    method SetUnit(unit: Option<string>) returns (o: Outcome<string>)
      modifies this
      ensures o == CheckUnit(unit)
      ensures o.Pass? ==> View() == old(View()).(unit := unit.value)
      ensures o.Fail? ==> View() == old(View())
    {
      o := CheckUnit(unit);
      if o.Pass? {
        this.unit := unit.value;
      }
    }

    method SetBestBeforeDate(date: Option<int>, now: int) returns (o: Outcome<string>)
      modifies this
      ensures o == CheckBestBeforeDate(date, now)
      ensures o.Pass? ==> View() == old(View()).(bestBeforeDate := date.value)
      ensures o.Fail? ==> View() == old(View())
    {
      o := CheckBestBeforeDate(date, now);
      if o.Pass? {
        this.bestBeforeDate := date.value;
      }
    }

    method SetPricePerUnit(price: real) returns (o: Outcome<string>)
      modifies this
      ensures o == CheckPrice(price)
      ensures o.Pass? ==> View() == old(View()).(pricePerUnit := price)
      ensures o.Fail? ==> View() == old(View())
    {
      o := CheckPrice(price);
      if o.Pass? {
        this.pricePerUnit := price;
      }
    }

    /** `calculateTotalValue`: amount times price per unit, positive for every valid
        grocery. */
    function CalculateTotalValue(): (v: real)
      reads this
      ensures Valid() ==> v > 0.0
    {
      amount * pricePerUnit
    }
  }
}
