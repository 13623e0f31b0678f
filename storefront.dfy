/** The order form of public/js/script.js: the `serviceOptions` price
    catalogue, the display names of the service types, the dropdown and
    price field the form keeps in step with the chosen type and option, and
    the create-order body the form submits. Form fields are strings; an
    empty string is an empty field. */
module Storefront {
  import opened Base
  import opened Text
  import opened Orders

  datatype ServiceOption = ServiceOption(name: string, price: int)

  /** `serviceOptions[serviceType]`: the options of the four known types. */
  function Catalogue(serviceType: string): (r: Option<seq<ServiceOption>>)
    ensures r.Some? <==> serviceType in {"carpet", "duvet", "small-laundry", "large-laundry"}
    ensures r.Some? ==> |r.value| >= 1
  {
    if serviceType == "carpet" then
      Some([ServiceOption("Door Mats", 99), ServiceOption("Fluffy", 249), ServiceOption("Hard Carpets", 299)])
    else if serviceType == "duvet" then
      Some([ServiceOption("Size 3 by 4", 249), ServiceOption("Size 3 by 6", 299),
            ServiceOption("Size 4 by 6", 299), ServiceOption("Size 5  by 6", 349),
            ServiceOption("Size 6 by 6", 399)])
    else if serviceType == "small-laundry" then
      Some([ServiceOption("Narrow Small", 249)])
    else if serviceType == "large-laundry" then
      Some([ServiceOption("Narrow Large", 299), ServiceOption("Wide Large", 399)])
    else None
  }

  /** Every price in the catalogue is a positive whole number of
      shillings, so the server's `!price` check never refuses one. */
  lemma CataloguePricesPositive(serviceType: string, i: nat)
    requires Catalogue(serviceType).Some? && i < |Catalogue(serviceType).value|
    ensures Catalogue(serviceType).value[i].price > 0
  {
  }

  /** `getServiceTypeName`: the display name of a known type; any other
      string is returned unchanged. */
  function ServiceTypeName(serviceType: string): (n: string)
    ensures serviceType == "carpet" ==> n == "Carpet Cleaning"
    ensures serviceType == "duvet" ==> n == "Duvet Cleaning"
    ensures serviceType == "small-laundry" ==> n == "Small Laundry Basket"
    ensures serviceType == "large-laundry" ==> n == "Large Laundry Basket"
    ensures Catalogue(serviceType).None? ==> n == serviceType
  {
    if serviceType == "carpet" then "Carpet Cleaning"
    else if serviceType == "duvet" then "Duvet Cleaning"
    else if serviceType == "small-laundry" then "Small Laundry Basket"
    else if serviceType == "large-laundry" then "Large Laundry Basket"
    else serviceType
  }

  /** `parseInt` of a dropdown value: the dropdown only ever holds "" or
      the decimal index it was given, so a digit string is read as its
      value and anything else as NaN (`None`). */
  function ParseIndex(value: string): (r: Option<nat>)
    ensures r.Some? <==> value != "" && AllDigits(value)
  {
    if value != "" && AllDigits(value) then Some(DecimalValue(value)) else None
  }

  /** How the price field reads: `None` is the empty field. */
  type PriceField = Option<int>

  /** `updatePrice`: an empty type or option, or a type outside the
      catalogue, empties the price field; an option that exists sets it to
      that option's price; an index past the end leaves the field as it
      was. */
  function UpdatePrice(serviceType: string, optionValue: string, current: PriceField): (p: PriceField)
    ensures optionValue == "" || Catalogue(serviceType).None? ==> p == None
    ensures optionValue != "" && Catalogue(serviceType).Some? ==>
      var opts, k := Catalogue(serviceType).value, ParseIndex(optionValue);
      p == (if k.Some? && k.value < |opts| then Some(opts[k.value].price) else current)
  {
    if serviceType != "" && optionValue != "" && Catalogue(serviceType).Some? then
      PickPrice(Catalogue(serviceType).value, optionValue, current)
    else None
  }

  /** `serviceOptions[serviceType][parseInt(value)]`'s price, or the
      field unchanged when there is no such option. */
  function PickPrice(opts: seq<ServiceOption>, optionValue: string, current: PriceField): (p: PriceField)
    ensures var k := ParseIndex(optionValue);
      p == (if k.Some? && k.value < |opts| then Some(opts[k.value].price) else current)
  {
    match ParseIndex(optionValue)
    case Some(k) => if k < |opts| then Some(opts[k].price) else current
    case None => current
  }

  /** One `<option>` of the option dropdown. */
  datatype Entry = Entry(value: string, text: string)

  const Placeholder: Entry := Entry("", "Select an option")

  /** The option dropdown and the price field after `updateServiceOptions`. */
  datatype OptionList = OptionList(entries: seq<Entry>, enabled: bool, price: PriceField)

  function OptionLabel(o: ServiceOption): string {
    o.name + " - KSH " + IntToDecimal(o.price)
  }

  /** `updateServiceOptions`: the placeholder first and the price field
      emptied; for a known type one entry per option, valued by its index,
      and the dropdown enabled; otherwise the dropdown disabled. */
  function UpdateServiceOptions(serviceType: string): (l: OptionList)
    ensures |l.entries| >= 1 && l.entries[0] == Placeholder && l.price == None
    ensures l.enabled <==> Catalogue(serviceType).Some?
    ensures Catalogue(serviceType).None? ==> l.entries == [Placeholder]
    ensures Catalogue(serviceType).Some? ==>
      var opts := Catalogue(serviceType).value;
      && |l.entries| == |opts| + 1
      && forall i :: 0 <= i < |opts| ==>
           l.entries[i + 1] == Entry(NatToDecimal(i), OptionLabel(opts[i]))
  {
    var c := Catalogue(serviceType);
    if c.None? then OptionList([Placeholder], false, None)
    else OptionList([Placeholder] + OptionEntries(c.value), true, None)
  }

  /** The `forEach((option, index) => ...)` of `updateServiceOptions`. */
  function OptionEntries(opts: seq<ServiceOption>): (es: seq<Entry>)
    ensures |es| == |opts|
    ensures forall i :: 0 <= i < |opts| ==> es[i] == Entry(NatToDecimal(i), OptionLabel(opts[i]))
  {
    seq(|opts|, i requires 0 <= i < |opts| => Entry(NatToDecimal(i), OptionLabel(opts[i])))
  }

  /** Choosing any entry of the dropdown of a known type, other than the
      placeholder, puts that option's price in the price field; choosing
      the placeholder empties it. */
  lemma ChosenEntrySetsPrice(serviceType: string, i: nat, current: PriceField)
    requires Catalogue(serviceType).Some?
    requires i < |UpdateServiceOptions(serviceType).entries|
    ensures var e := UpdateServiceOptions(serviceType).entries[i];
      UpdatePrice(serviceType, e.value, current)
        == if i == 0 then None else Some(Catalogue(serviceType).value[i - 1].price)
  {
    var opts := Catalogue(serviceType).value;
    if i > 0 {
      EntryPicksOption(opts, i - 1, current);
    }
  }

  lemma EntryPicksOption(opts: seq<ServiceOption>, k: nat, current: PriceField)
    requires k < |opts|
    ensures PickPrice(opts, OptionEntries(opts)[k].value, current) == Some(opts[k].price)
  {
    DecimalRoundTrip(k);
  }

  /** The submit handler's `formData`, or `None` where looking up the
      chosen option throws (a type outside the catalogue or an index past
      its end) and no request is sent. */
  function FormData(serviceType: string, optionValue: string, name: string, phone: string,
                    address: string, notes: string): (r: Option<CreateInput>)
    ensures r.Some? <==>
      Catalogue(serviceType).Some? && ParseIndex(optionValue).Some?
      && ParseIndex(optionValue).value < |Catalogue(serviceType).value|
    ensures r.Some? ==>
      var o := Catalogue(serviceType).value[ParseIndex(optionValue).value];
      r.value == CreateInput(ServiceTypeName(serviceType) + " - " + o.name, Some(o.price),
                             name, phone, address, notes)
  {
    match Catalogue(serviceType)
    case None => None
    case Some(opts) =>
      match ParseIndex(optionValue)
      case None => None
      case Some(k) =>
        if k < |opts| then
          Some(CreateInput(ServiceTypeName(serviceType) + " - " + opts[k].name, Some(opts[k].price),
                           name, phone, address, notes))
        else None
  }

  /** A body the form sends with name, phone and address filled passes the
      server's required-field check: the service text and the catalogue
      price are never empty. */
  lemma FormDataPassesRequiredCheck(serviceType: string, optionValue: string, name: string, phone: string,
                                    address: string, notes: string)
    requires FormData(serviceType, optionValue, name, phone, address, notes).Some?
    requires name != "" && phone != "" && address != ""
    ensures !MissingRequired(FormData(serviceType, optionValue, name, phone, address, notes).value)
  {
    var k := ParseIndex(optionValue).value;
    CataloguePricesPositive(serviceType, k);
  }

  /** The first duvet option is submitted as "Duvet Cleaning - Size 3 by 4"
      at 249 shillings. */
  lemma FirstDuvetOption(name: string, phone: string, address: string, notes: string)
    ensures FormData("duvet", "0", name, phone, address, notes)
      == Some(CreateInput("Duvet Cleaning - Size 3 by 4", Some(249), name, phone, address, notes))
  {
    assert ParseIndex("0") == Some(0);
    var o := Catalogue("duvet").value[0];
    assert o == ServiceOption("Size 3 by 4", 249);
    assert ServiceTypeName("duvet") + " - " + o.name == "Duvet Cleaning - Size 3 by 4";
  }
}
