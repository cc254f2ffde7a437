/**
 * The admin handlers that write the `currency` table: `add_currency`,
 * `update_currency` and `delete_currency`. Each one validates the submitted form
 * and then either commits its change or leaves every row as it was.
 *
 * The database table is an in-memory map from id to row, owned by a
 * CurrencyTable object whose methods are the three handlers.
 */
module CurrencyAdmin {
  import opened Wrappers
  import opened Text
  import opened RateModel

  /**
   * One rate field of the submitted form. `Blank` is a missing field or the empty
   * string (both falsy for `request.form.get`); `Malformed` is non-empty text that
   * `float()` rejects with a ValueError.
   */
  datatype Field = Blank | Number(value: real) | Malformed

  /** The fields the add and update forms submit. Update does not read `symbol`. */
  datatype CurrencyForm = CurrencyForm(
    name: string,
    symbol: string,
    adminNotes: string,    // "" when the field is missing
    minBuyingRate: Field,
    maxBuyingRate: Field,
    minSellingRate: Field,
    maxSellingRate: Field)

  /** A rate range taken from the form, minimum first. */
  datatype Pair = Pair(min: real, max: real)

  /** The two ranges a validated form sets; `None` writes NULL to both columns. */
  datatype Rates = Rates(buying: Option<Pair>, selling: Option<Pair>)

  /**
   * Why a handler refused to write. InvalidNumber is the ValueError of `float()`,
   * which ends the request with a server error before anything is committed;
   * NotFound is the 404 of `get_or_404`; the others are flashed messages.
   */
  datatype AdminError =
    | InvalidNumber
    | BuyingRangeInverted      // "Minimum buying rate must be less than maximum buying rate"
    | SellingRangeInverted     // "Minimum selling rate must be less than maximum selling rate"
    | BuyingNotBelowSelling    // "Buying rates must be lower than selling rates"
    | DuplicateSymbol          // "Currency with symbol ... already exists"
    | NotFound

  /**
   * One rate range of the form: it is read only when both of its fields are
   * non-empty, and then must be two numbers with the minimum below the maximum.
   */
  function ParsePair(min: Field, max: Field, inverted: AdminError): (r: Result<Option<Pair>, AdminError>)
    requires inverted != InvalidNumber
    ensures r == Ok(None) <==> min.Blank? || max.Blank?
    ensures r == Err(InvalidNumber) <==> !min.Blank? && !max.Blank? && (min.Malformed? || max.Malformed?)
    ensures r == Err(inverted) <==> min.Number? && max.Number? && min.value >= max.value
    ensures r.Ok? || r.error == InvalidNumber || r.error == inverted
    ensures r.Ok? && r.value.Some? ==>
              && min == Number(r.value.value.min) && max == Number(r.value.value.max)
              && r.value.value.min < r.value.value.max
  {
    if min.Blank? || max.Blank? then Ok(None)
    else if min.Malformed? || max.Malformed? then Err(InvalidNumber)
    else if min.value >= max.value then Err(inverted)
    else Ok(Some(Pair(min.value, max.value)))
  }

  /**
   * The cross-range check `min_buying and min_selling and max_buying >= min_selling`.
   * Python's truthiness makes a 0.0 minimum count as absent, so a zero minimum
   * switches the check off.
   */
  predicate SpreadViolated(rates: Rates)
  {
    && rates.buying.Some? && rates.selling.Some?
    && rates.buying.value.min != 0.0 && rates.selling.value.min != 0.0
    && rates.buying.value.max >= rates.selling.value.min
  }

  /** What every range a handler writes satisfies. */
  predicate Acceptable(rates: Rates)
  {
    && (rates.buying.Some? ==> rates.buying.value.min < rates.buying.value.max)
    && (rates.selling.Some? ==> rates.selling.value.min < rates.selling.value.max)
    && !SpreadViolated(rates)
  }

  /** The ranges of `rates` are the ones the form's four fields spell out. */
  predicate Carries(f: CurrencyForm, rates: Rates)
  {
    && (rates.buying.None? <==> f.minBuyingRate.Blank? || f.maxBuyingRate.Blank?)
    && (rates.buying.Some? ==>
          f.minBuyingRate == Number(rates.buying.value.min) && f.maxBuyingRate == Number(rates.buying.value.max))
    && (rates.selling.None? <==> f.minSellingRate.Blank? || f.maxSellingRate.Blank?)
    && (rates.selling.Some? ==>
          f.minSellingRate == Number(rates.selling.value.min) && f.maxSellingRate == Number(rates.selling.value.max))
  }

  /**
   * The rate validation shared by `add_currency` and `update_currency`, in the
   * handlers' order: the buying range, then the selling range, then the spread.
   */
  function ValidateRates(f: CurrencyForm): (r: Result<Rates, AdminError>)
    ensures r == Err(BuyingRangeInverted) <==>
              f.minBuyingRate.Number? && f.maxBuyingRate.Number? && f.minBuyingRate.value >= f.maxBuyingRate.value
    ensures r == Err(SellingRangeInverted) <==>
              && ParsePair(f.minBuyingRate, f.maxBuyingRate, BuyingRangeInverted).Ok?
              && f.minSellingRate.Number? && f.maxSellingRate.Number?
              && f.minSellingRate.value >= f.maxSellingRate.value
    ensures r == Err(BuyingNotBelowSelling) <==>
              exists rates :: Carries(f, rates) && SpreadViolated(rates)
                && (rates.buying.Some? ==> rates.buying.value.min < rates.buying.value.max)
                && (rates.selling.Some? ==> rates.selling.value.min < rates.selling.value.max)
    ensures r == Err(InvalidNumber) <==>
              || (!f.minBuyingRate.Blank? && !f.maxBuyingRate.Blank? && (f.minBuyingRate.Malformed? || f.maxBuyingRate.Malformed?))
              || (&& ParsePair(f.minBuyingRate, f.maxBuyingRate, BuyingRangeInverted).Ok?
                  && !f.minSellingRate.Blank? && !f.maxSellingRate.Blank?
                  && (f.minSellingRate.Malformed? || f.maxSellingRate.Malformed?))
    ensures r.Ok? <==> exists rates :: Carries(f, rates) && Acceptable(rates)
    ensures r.Ok? ==> Acceptable(r.value) && Carries(f, r.value)
    ensures r.Ok? || (r.error != DuplicateSymbol && r.error != NotFound)
  {
    var buying := ParsePair(f.minBuyingRate, f.maxBuyingRate, BuyingRangeInverted);
    if buying.Err? then Err(buying.error)
    else
      var selling := ParsePair(f.minSellingRate, f.maxSellingRate, SellingRangeInverted);
      if selling.Err? then Err(selling.error)
      else if SpreadViolated(Rates(buying.value, selling.value)) then Err(BuyingNotBelowSelling)
      else
        var rates := Rates(buying.value, selling.value);
        assert Carries(f, rates) && Acceptable(rates);
        Ok(rates)
  }

  /** `request.form.get('admin_notes', '').strip() or None` */
  function NotesValue(raw: string): (notes: Option<string>)
    ensures notes.None? <==> forall i :: 0 <= i < |raw| ==> IsSpace(raw[i])
    ensures notes.Some? ==> exists i, j :: TrimmedSlice(raw, notes.value, i, j)
    ensures notes.Some? ==> notes.value != [] && !IsSpace(notes.value[0]) && !IsSpace(notes.value[|notes.value| - 1])
  {
    StripEmptyIffAllSpace(raw);
    var s := Strip(raw);
    if s == [] then None else Some(s)
  }

  /** The row `c` with its four rate columns set from `rates`. */
  function WithRates(c: Currency, rates: Rates): Currency
  {
    c.(minBuyingRate := if rates.buying.Some? then Some(rates.buying.value.min) else None,
       maxBuyingRate := if rates.buying.Some? then Some(rates.buying.value.max) else None,
       minSellingRate := if rates.selling.Some? then Some(rates.selling.value.min) else None,
       maxSellingRate := if rates.selling.Some? then Some(rates.selling.value.max) else None)
  }

  /** What holds of every row the handlers write. */
  predicate Stored(c: Currency)
  {
    && IsUpper(c.symbol)
    && (c.minBuyingRate.Some? <==> c.maxBuyingRate.Some?)
    && (c.minSellingRate.Some? <==> c.maxSellingRate.Some?)
    && (c.HasBuyingRange() ==> c.minBuyingRate.value < c.maxBuyingRate.value)
    && (c.HasSellingRange() ==> c.minSellingRate.value < c.maxSellingRate.value)
    && !(&& c.HasBuyingRange() && c.HasSellingRange()
         && c.minBuyingRate.value != 0.0 && c.minSellingRate.value != 0.0
         && c.maxBuyingRate.value >= c.minSellingRate.value)
  }

  /** A validated form written over any row with an upper-case symbol gives a row the table may hold. */
  lemma AcceptedRatesAreStored(c: Currency, f: CurrencyForm)
    requires IsUpper(c.symbol) && ValidateRates(f).Ok?
    ensures Stored(WithRates(c, ValidateRates(f).value))
    ensures WithRates(c, ValidateRates(f).value).HasBuyingRange() <==>
              !f.minBuyingRate.Blank? && !f.maxBuyingRate.Blank?
    ensures WithRates(c, ValidateRates(f).value).HasSellingRange() <==>
              !f.minSellingRate.Blank? && !f.maxSellingRate.Blank?
  {
  }

  /**
   * A stored range whose minimum is positive is shown inverted without a fault and
   * in ascending order.
   */
  lemma StoredPositiveRangesInvertAscending(c: Currency)
    requires Stored(c)
    ensures c.HasSellingRange() && c.minSellingRate.value > 0.0 ==>
              c.BuyingFromAedDisplay().Ok? && c.BuyingFromAedDisplay().value.Range?
              && c.BuyingFromAedDisplay().value.low < c.BuyingFromAedDisplay().value.high
    ensures c.HasBuyingRange() && c.minBuyingRate.value > 0.0 ==>
              c.SellingFromAedDisplay().Ok? && c.SellingFromAedDisplay().value.Range?
              && c.SellingFromAedDisplay().value.low < c.SellingFromAedDisplay().value.high
  {
    if c.HasSellingRange() && c.minSellingRate.value > 0.0 {
      InvertedRangeAscendingIffSameSign(c.minSellingRate.value, c.maxSellingRate.value);
    }
    if c.HasBuyingRange() && c.minBuyingRate.value > 0.0 {
      InvertedRangeAscendingIffSameSign(c.minBuyingRate.value, c.maxBuyingRate.value);
    }
  }

  /**
   * Write-time validation does not exclude a zero bound: the form below is
   * accepted, and the row it writes makes `selling_from_aed_display` divide by
   * zero. The same zero minimum also switches the spread check off, so a buying
   * maximum above the selling minimum gets through.
   */
  lemma ZeroMinimumIsAccepted()
    ensures var f := CurrencyForm("Test", "TST", "", Number(0.0), Number(5.0), Number(1.0), Number(2.0));
            && ValidateRates(f).Ok?
            && WithRates(Currency(1, "Test", "TST", None, None, None, None, None), ValidateRates(f).value)
                 .SellingFromAedDisplay() == Err(ZeroDivisionError)
            && ValidateRates(f).value.buying.value.max >= ValidateRates(f).value.selling.value.min
  {
  }

  /** Some row of the table already has this symbol (`filter_by(symbol=...).first()`). */
  predicate SymbolTaken(rows: map<nat, Currency>, symbol: string)
  {
    exists id :: id in rows && rows[id].symbol == symbol
  }

  /** The `currency` table. */
  class CurrencyTable {
    var rows: map<nat, Currency>
    var nextId: nat  // the id the database hands out next

    /** Rows are keyed by their id, satisfy Stored, and have pairwise distinct symbols. */
    ghost predicate Valid()
      reads this
    {
      && (forall id :: id in rows ==> id < nextId && rows[id].id == id && Stored(rows[id]))
      && (forall a, b :: a in rows && b in rows && rows[a].symbol == rows[b].symbol ==> a == b)
    }

    constructor ()
      ensures Valid() && rows == map[]
    {
      rows := map[];
      nextId := 1;
    }

    /**
     * `add_currency`: upper-cases the symbol, validates the rates, refuses a symbol
     * already in use, and otherwise inserts one new row under a fresh id.
     */
    method AddCurrency(form: CurrencyForm) returns (r: Result<nat, AdminError>)
      requires Valid()
      modifies this
      ensures Valid()
      ensures ValidateRates(form).Err? ==> r == Err(ValidateRates(form).error)
      ensures ValidateRates(form).Ok? && SymbolTaken(old(rows), Upper(form.symbol)) ==> r == Err(DuplicateSymbol)
      ensures r.Err? ==> rows == old(rows) && nextId == old(nextId)
      ensures ValidateRates(form).Ok? && !SymbolTaken(old(rows), Upper(form.symbol)) ==>
                && r.Ok? && r.value !in old(rows)
                && rows == old(rows)[r.value := WithRates(
                     Currency(r.value, form.name, Upper(form.symbol), None, None, None, None, NotesValue(form.adminNotes)),
                     ValidateRates(form).value)]
    {
      var symbol := Upper(form.symbol);
      var notes := NotesValue(form.adminNotes);
      var rates := ValidateRates(form);
      if rates.Err? {
        return Err(rates.error);
      }
      if SymbolTaken(rows, symbol) {
        return Err(DuplicateSymbol);
      }
      var id := nextId;
      var row := WithRates(Currency(id, form.name, symbol, None, None, None, None, notes), rates.value);
      UpperIsUpper(form.symbol);
      AcceptedRatesAreStored(row, form);
      rows := rows[id := row];
      nextId := nextId + 1;
      r := Ok(id);
    }

    /**
     * `update_currency`: 404 for an unknown id; otherwise replaces the name, the
     * notes and both ranges (a range with an empty field becomes NULL), or, when a
     * check fails, commits nothing. The id and the symbol are never changed.
     */
    method UpdateCurrency(id: nat, form: CurrencyForm) returns (r: Result<(), AdminError>)
      requires Valid()
      modifies this
      ensures Valid()
      ensures id !in old(rows) ==> r == Err(NotFound)
      ensures id in old(rows) && ValidateRates(form).Err? ==> r == Err(ValidateRates(form).error)
      ensures r.Err? ==> rows == old(rows)
      ensures r.Ok? <==> id in old(rows) && ValidateRates(form).Ok?
      ensures r.Ok? ==>
                && rows == old(rows)[id := WithRates(
                     old(rows)[id].(name := form.name, adminNotes := NotesValue(form.adminNotes)),
                     ValidateRates(form).value)]
      ensures rows.Keys == old(rows).Keys && nextId == old(nextId)
      ensures forall k :: k in rows ==> rows[k].id == old(rows)[k].id && rows[k].symbol == old(rows)[k].symbol
    {
      if id !in rows {
        return Err(NotFound);
      }
      var current := rows[id];
      var rates := ValidateRates(form);
      if rates.Err? {
        return Err(rates.error);
      }
      var row := WithRates(current.(name := form.name, adminNotes := NotesValue(form.adminNotes)), rates.value);
      AcceptedRatesAreStored(current.(name := form.name, adminNotes := NotesValue(form.adminNotes)), form);
      rows := rows[id := row];
      r := Ok(());
    }

    /** `delete_currency`: 404 for an unknown id; otherwise removes exactly that row. */
    method DeleteCurrency(id: nat) returns (r: Result<string, AdminError>)
      requires Valid()
      modifies this
      ensures Valid()
      ensures id !in old(rows) ==> r == Err(NotFound) && rows == old(rows)
      ensures id in old(rows) ==> r == Ok(old(rows)[id].symbol) && rows == old(rows) - {id}
      ensures nextId == old(nextId)
    {
      if id !in rows {
        return Err(NotFound);
      }
      r := Ok(rows[id].symbol);
      rows := rows - {id};
    }
  }

  /**
   * A USD row entered with the rates 3.65, 3.67, 3.68 and 3.70 reads back as
   * entered; a second add of "usd" is refused; deleting the row empties the table.
   */
  method UsdScenario()
  {
    var table := new CurrencyTable();
    var form := CurrencyForm("US Dollar", "USD", "", Number(3.65), Number(3.67), Number(3.68), Number(3.70));
    assert ValidateRates(form) == Ok(Rates(Some(Pair(3.65, 3.67)), Some(Pair(3.68, 3.70))));
    var added := table.AddCurrency(form);
    assert added.Ok?;
    var id := added.value;
    assert table.rows[id].BuyingRateDisplay() == Range(3.65, 3.67);
    assert table.rows[id].symbol == "USD";
    var again := table.AddCurrency(form.(symbol := "usd"));
    assert Upper("usd") == "USD";
    assert SymbolTaken(table.rows, "USD");
    assert again == Err(DuplicateSymbol);
    var deleted := table.DeleteCurrency(id);
    assert deleted == Ok("USD") && table.rows == map[];
  }
}
