/** `BaseRequest`: the fields shared by a standard verification request and a
    PSD2 payment-confirmation request, their constructor, their setters and the
    dashed-locale helper used on the wire. */
module Base {
  import opened Wrappers
  import opened JavaLang

  /** One `BaseRequest` object. Every reference field may be `null` (`None`).
      `from` is the class's private sender field, which nothing ever assigns. */
  datatype BaseRequest = BaseRequest(
    number: Option<string>,
    from: Option<string>,
    length: Option<Int32>,
    locale: Option<Locale>,
    country: Option<string>,
    pinExpiry: Option<Int32>,
    nextEventWait: Option<Int32>)

  /** The fields of a `BaseRequest`, used to state which one an operation touches. */
  datatype Field = Number | From | Length | LocaleField | Country | PinExpiry | NextEventWait

  /** `a` and `b` hold the same value in field `f`. */
  predicate AgreeOn(a: BaseRequest, b: BaseRequest, f: Field)
  {
    match f
    case Number => a.number == b.number
    case From => a.from == b.from
    case Length => a.length == b.length
    case LocaleField => a.locale == b.locale
    case Country => a.country == b.country
    case PinExpiry => a.pinExpiry == b.pinExpiry
    case NextEventWait => a.nextEventWait == b.nextEventWait
  }

  /** `a` and `b` hold the same value in every field except possibly `f`. */
  predicate AgreeExcept(a: BaseRequest, b: BaseRequest, f: Field)
  {
    forall g: Field :: g != f ==> AgreeOn(a, b, g)
  }

  /** Two requests that agree on every field are the same request. */
  lemma AgreeEverywhere(a: BaseRequest, b: BaseRequest)
    requires forall g: Field :: AgreeOn(a, b, g)
    ensures a == b
  {
    assert AgreeOn(a, b, Number) && AgreeOn(a, b, From) && AgreeOn(a, b, Length);
    assert AgreeOn(a, b, LocaleField) && AgreeOn(a, b, Country);
    assert AgreeOn(a, b, PinExpiry) && AgreeOn(a, b, NextEventWait);
  }

  /** The constructor `BaseRequest(number, length, locale)`: the three arguments
      are kept as given and every other field starts out unset. */
  function New(number: Option<string>, length: Option<Int32>, locale: Option<Locale>): (r: BaseRequest)
    ensures r.number == number && r.length == length && r.locale == locale
    ensures r.from == None && r.country == None && r.pinExpiry == None && r.nextEventWait == None
  {
    BaseRequest(number, None, length, locale, None, None, None)
  }

  /** `setLength`. */
  function SetLength(b: BaseRequest, length: Option<Int32>): (r: BaseRequest)
    ensures r.length == length
    ensures AgreeExcept(b, r, Length)
  {
    b.(length := length)
  }

  /** `setLocale`. */
  function SetLocale(b: BaseRequest, locale: Option<Locale>): (r: BaseRequest)
    ensures r.locale == locale
    ensures AgreeExcept(b, r, LocaleField)
  {
    b.(locale := locale)
  }

  /** `setCountry`. */
  function SetCountry(b: BaseRequest, country: Option<string>): (r: BaseRequest)
    ensures r.country == country
    ensures AgreeExcept(b, r, Country)
  {
    b.(country := country)
  }

  /** `setPinExpiry`. */
  function SetPinExpiry(b: BaseRequest, pinExpiry: Option<Int32>): (r: BaseRequest)
    ensures r.pinExpiry == pinExpiry
    ensures AgreeExcept(b, r, PinExpiry)
  {
    b.(pinExpiry := pinExpiry)
  }

  /** `setNextEventWait`. */
  function SetNextEventWait(b: BaseRequest, nextEventWait: Option<Int32>): (r: BaseRequest)
    ensures r.nextEventWait == nextEventWait
    ensures AgreeExcept(b, r, NextEventWait)
  {
    b.(nextEventWait := nextEventWait)
  }

  /** `getDashedLocale()`: `null` when no locale is set, otherwise the locale's
      language tag in lower case (for example `en-gb`). It is computed from
      `locale` on every call, never stored. */
  function GetDashedLocale(b: BaseRequest): (r: Option<string>)
    ensures r.None? <==> b.locale.None?
    ensures r.Some? ==> IsLowerCase(r.value)
    ensures r.Some? ==> EqualIgnoringCase(r.value, ToLanguageTag(b.locale.value))
  {
    if b.locale.Some? then Some(ToLowerCase(ToLanguageTag(b.locale.value))) else None
  }

  /** The dashed locale is already lower case: lower-casing it again changes nothing. */
  lemma DashedLocaleIsLowerCase(b: BaseRequest)
    requires b.locale.Some?
    ensures GetDashedLocale(b).Some?
    ensures ToLowerCase(GetDashedLocale(b).value) == GetDashedLocale(b).value
  {
  }

  /** The dashed locale is derived from `locale` alone: after `setLocale(l)` it
      reflects `l`, whatever the request held before. */
  lemma DashedLocaleFollowsSetLocale(b: BaseRequest, l: Option<Locale>)
    ensures GetDashedLocale(SetLocale(b, l)).None? <==> l.None?
    ensures l.Some? ==> GetDashedLocale(SetLocale(b, l)) == Some(ToLowerCase(ToLanguageTag(l.value)))
    ensures forall c: BaseRequest :: c.locale == l ==> GetDashedLocale(c) == GetDashedLocale(SetLocale(b, l))
  {
  }

  /** One call of a public setter of `BaseRequest`, with its argument. */
  datatype Mutation =
    | SetLengthTo(length: Option<Int32>)
    | SetLocaleTo(locale: Option<Locale>)
    | SetCountryTo(country: Option<string>)
    | SetPinExpiryTo(pinExpiry: Option<Int32>)
    | SetNextEventWaitTo(nextEventWait: Option<Int32>)

  /** The one field a setter call writes. No setter writes `number` or `from`. */
  function Target(m: Mutation): (f: Field)
    ensures f != Number && f != From
  {
    match m
    case SetLengthTo(_) => Length
    case SetLocaleTo(_) => LocaleField
    case SetCountryTo(_) => Country
    case SetPinExpiryTo(_) => PinExpiry
    case SetNextEventWaitTo(_) => NextEventWait
  }

  /** `b` holds, in the field `m` targets, the argument passed with `m`. */
  predicate Written(b: BaseRequest, m: Mutation)
  {
    match m
    case SetLengthTo(v) => b.length == v
    case SetLocaleTo(v) => b.locale == v
    case SetCountryTo(v) => b.country == v
    case SetPinExpiryTo(v) => b.pinExpiry == v
    case SetNextEventWaitTo(v) => b.nextEventWait == v
  }

  /** Performs one setter call: the targeted field takes the call's argument
      and every other field is kept. */
  function Apply(b: BaseRequest, m: Mutation): (r: BaseRequest)
    ensures Written(r, m)
    ensures AgreeExcept(b, r, Target(m))
    ensures r.number == b.number && r.from == b.from
  {
    match m
    case SetLengthTo(v) => SetLength(b, v)
    case SetLocaleTo(v) => SetLocale(b, v)
    case SetCountryTo(v) => SetCountry(b, v)
    case SetPinExpiryTo(v) => SetPinExpiry(b, v)
    case SetNextEventWaitTo(v) => SetNextEventWait(b, v)
  }

  /** The field a setter call writes ends up holding the argument of that call,
      whatever the request held before. */
  lemma ApplyWritesArgument(a: BaseRequest, b: BaseRequest, m: Mutation)
    ensures Written(Apply(a, m), m)
    ensures AgreeOn(Apply(a, m), Apply(b, m), Target(m))
  {
  }

  /** Performs a sequence of setter calls, first to last. */
  function ApplyAll(b: BaseRequest, ms: seq<Mutation>): (r: BaseRequest)
    ensures r.number == b.number
    ensures r.from == b.from
    decreases |ms|
  {
    if ms == [] then b else ApplyAll(Apply(b, ms[0]), ms[1..])
  }

  /** Running two sequences of setter calls one after the other is running
      their concatenation. */
  lemma {:induction false} ApplyAllAppend(b: BaseRequest, xs: seq<Mutation>, ys: seq<Mutation>)
    ensures ApplyAll(b, xs + ys) == ApplyAll(ApplyAll(b, xs), ys)
    decreases |xs|
  {
    if xs == [] {
      assert xs + ys == ys;
    } else {
      assert (xs + ys)[1..] == xs[1..] + ys;
      ApplyAllAppend(Apply(b, xs[0]), xs[1..], ys);
    }
  }

  /** A field no call in the sequence writes keeps its value. */
  lemma {:induction false} UntouchedFieldKept(b: BaseRequest, ms: seq<Mutation>, f: Field)
    requires forall i :: 0 <= i < |ms| ==> Target(ms[i]) != f
    ensures AgreeOn(b, ApplyAll(b, ms), f)
    decreases |ms|
  {
    if ms != [] {
      UntouchedFieldKept(Apply(b, ms[0]), ms[1..], f);
    }
  }

  /** Get after set: after any history of setter calls, the getter of a field
      returns the value most recently passed to that field's setter. */
  lemma LastWriteWins(b: BaseRequest, before: seq<Mutation>, m: Mutation, after: seq<Mutation>)
    requires forall i :: 0 <= i < |after| ==> Target(after[i]) != Target(m)
    ensures Written(ApplyAll(b, before + [m] + after), m)
    ensures AgreeOn(ApplyAll(b, before + [m] + after), Apply(b, m), Target(m))
  {
    var mid := ApplyAll(b, before);
    ApplyAllAppend(b, before + [m], after);
    ApplyAllAppend(b, before, [m]);
    assert ApplyAll(mid, [m]) == Apply(mid, m);
    UntouchedFieldKept(Apply(mid, m), after, Target(m));
    ApplyWritesArgument(mid, b, m);
  }

  /** Whatever setters are called afterwards, a constructed request keeps the
      number it was built with and its base `from` field stays `null`. */
  lemma {:induction false} NumberFixedAndFromNeverSet(
    number: Option<string>, length: Option<Int32>, locale: Option<Locale>, ms: seq<Mutation>)
    ensures ApplyAll(New(number, length, locale), ms).number == number
    ensures ApplyAll(New(number, length, locale), ms).from == None
  {
  }
}
