/** `VerifyRequest`: a standard verification request, its constructor chain,
    its own setters, and the `LineType` and `Workflow` enumerations. */
module Verify {
  import opened Wrappers
  import opened JavaLang
  import Base

  /** `VerifyRequest.LineType`: the kinds of phone line a verification can be
      restricted to. */
  datatype LineType = All | Mobile | Landline

  /** The `LineType` constants in declaration order. */
  const LineTypes: seq<LineType> := [All, Mobile, Landline]

  /** `LineType` has exactly the three constants ALL, MOBILE and LANDLINE. */
  lemma LineTypesExhaustive()
    ensures |LineTypes| == 3
    ensures forall t: LineType :: t in LineTypes
    ensures forall i, j :: 0 <= i < j < |LineTypes| ==> LineTypes[i] != LineTypes[j]
  {
    forall t: LineType ensures t in LineTypes {
      match t
      case All => assert LineTypes[0] == t;
      case Mobile => assert LineTypes[1] == t;
      case Landline => assert LineTypes[2] == t;
    }
  }

  /** `VerifyRequest.Workflow`: the predefined sequences of SMS and
      text-to-speech attempts, named as in the source
      (`SmsTtsTts` is SMS_TTS_TTS, and so on). */
  datatype Workflow = SmsTtsTts | SmsSmsTts | TtsTts | SmsSms | SmsTts | Sms | Tts

  /** The `Workflow` constants in declaration order. */
  const Workflows: seq<Workflow> := [SmsTtsTts, SmsSmsTts, TtsTts, SmsSms, SmsTts, Sms, Tts]

  /** `Workflow.getId()`: the integer sent on the wire for a workflow. */
  function WorkflowId(w: Workflow): (id: Int32)
    ensures 1 <= id <= 7
  {
    match w
    case SmsTtsTts => 1
    case SmsSmsTts => 2
    case TtsTts => 3
    case SmsSms => 4
    case SmsTts => 5
    case Sms => 6
    case Tts => 7
  }

  /** The workflow a wire id stands for, if any; the inverse of `WorkflowId`. */
  function WorkflowFromId(id: Int32): (w: Option<Workflow>)
    ensures w.Some? <==> 1 <= id <= 7
    ensures w.Some? ==> WorkflowId(w.value) == id
  {
    if 1 <= id <= 7 then Some(Workflows[id - 1]) else None
  }

  /** Decoding the id of a workflow gives the workflow back. */
  lemma WorkflowIdRoundTrip(w: Workflow)
    ensures WorkflowFromId(WorkflowId(w)) == Some(w)
  {
  }

  /** Distinct workflows have distinct ids. */
  lemma WorkflowIdInjective(a: Workflow, b: Workflow)
    ensures WorkflowId(a) == WorkflowId(b) <==> a == b
  {
  }

  /** The ids number the constants 1 to 7 in declaration order, and every
      workflow is one of the seven. */
  lemma WorkflowIdsFollowDeclarationOrder()
    ensures |Workflows| == 7
    ensures forall i :: 0 <= i < |Workflows| ==> WorkflowId(Workflows[i]) == (i + 1) as Int32
    ensures forall w: Workflow :: w in Workflows
  {
    forall w: Workflow ensures w in Workflows {
      WorkflowIdRoundTrip(w);
    }
  }

  /** One `VerifyRequest` object: the inherited `BaseRequest` part plus the
      fields the subclass declares. `lineType` is the Java field `type`. The
      subclass's own `from` shadows the never-assigned `from` of the base part. */
  datatype VerifyRequest = VerifyRequest(
    base: Base.BaseRequest,
    lineType: Option<LineType>,
    brand: Option<string>,
    from: Option<string>,
    workflow: Option<Workflow>)

  /** The most general constructor
      `VerifyRequest(number, brand, from, length, locale, type)`. It hands
      number, length and locale to the base constructor, stores the rest, and
      then clears workflow, country, PIN expiry and next-event wait. The
      primitive `int length` arrives boxed, so the stored length is never `null`. */
  function MakeTyped(number: Option<string>, brand: Option<string>, from: Option<string>,
                     length: Int32, locale: Option<Locale>, lineType: Option<LineType>): (r: VerifyRequest)
    ensures r.base.number == number && r.brand == brand && r.from == from
    ensures r.base.length == Some(length) && r.base.locale == locale && r.lineType == lineType
    ensures r.workflow == None && r.base.country == None
    ensures r.base.pinExpiry == None && r.base.nextEventWait == None
    ensures r.base.from == None
  {
    var b := Base.New(number, Some(length), locale);
    var cleared := Base.SetNextEventWait(Base.SetPinExpiry(Base.SetCountry(b, None), None), None);
    VerifyRequest(cleared, lineType, brand, from, None)
  }

  /** `VerifyRequest(number, brand, from, length, locale)`: no line type. */
  function MakeLocalized(number: Option<string>, brand: Option<string>, from: Option<string>,
                         length: Int32, locale: Option<Locale>): (r: VerifyRequest)
    ensures r.base.number == number && r.brand == brand && r.from == from
    ensures r.base.length == Some(length) && r.base.locale == locale
    ensures r.lineType == None && r.workflow == None
    ensures r.base.country == None && r.base.pinExpiry == None && r.base.nextEventWait == None
    ensures r.base.from == None
  {
    MakeTyped(number, brand, from, length, locale, None)
  }

  /** `VerifyRequest(number, brand, from)`: default length `-1`, no locale,
      no line type. */
  function MakeFrom(number: Option<string>, brand: Option<string>, from: Option<string>): (r: VerifyRequest)
    ensures r.base.number == number && r.brand == brand && r.from == from
    ensures r.base.length == Some(-1) && r.base.locale == None
    ensures r.lineType == None && r.workflow == None
    ensures r.base.country == None && r.base.pinExpiry == None && r.base.nextEventWait == None
    ensures r.base.from == None
  {
    MakeTyped(number, brand, from, -1, None, None)
  }

  /** `VerifyRequest(number, brand)`: no sender, default length `-1`, no locale,
      no line type. */
  function Make(number: Option<string>, brand: Option<string>): (r: VerifyRequest)
    ensures r.base.number == number && r.brand == brand && r.from == None
    ensures r.base.length == Some(-1) && r.base.locale == None
    ensures r.lineType == None && r.workflow == None
    ensures r.base.country == None && r.base.pinExpiry == None && r.base.nextEventWait == None
    ensures r.base.from == None
  {
    MakeTyped(number, brand, None, -1, None, None)
  }

  /** Two requests that agree on the inherited part and on every subclass field
      are the same request. */
  lemma SameFieldsSameRequest(a: VerifyRequest, b: VerifyRequest)
    requires forall g: Base.Field :: Base.AgreeOn(a.base, b.base, g)
    requires a.lineType == b.lineType && a.brand == b.brand
    requires a.from == b.from && a.workflow == b.workflow
    ensures a == b
  {
    Base.AgreeEverywhere(a.base, b.base);
  }

  /** Each shorter constructor builds the same request as the general one with
      the omitted trailing arguments replaced by `null`, and `-1` for length:
      the constructors' contracts fix every field to the same value. */
  lemma ShortConstructorsAgree(number: Option<string>, brand: Option<string>, from: Option<string>,
                               length: Int32, locale: Option<Locale>)
    ensures Make(number, brand) == MakeTyped(number, brand, None, -1, None, None)
    ensures MakeFrom(number, brand, from) == MakeTyped(number, brand, from, -1, None, None)
    ensures MakeLocalized(number, brand, from, length, locale)
         == MakeTyped(number, brand, from, length, locale, None)
  {
    SameFieldsSameRequest(Make(number, brand), MakeTyped(number, brand, None, -1, None, None));
    SameFieldsSameRequest(MakeFrom(number, brand, from), MakeTyped(number, brand, from, -1, None, None));
    SameFieldsSameRequest(MakeLocalized(number, brand, from, length, locale),
                          MakeTyped(number, brand, from, length, locale, None));
  }

  /** The fields a `VerifyRequest` declares itself (the inherited ones are
      described by `Base.Field`). */
  datatype Field = LineTypeField | Brand | From | WorkflowField

  /** `a` and `b` hold the same value in the subclass field `f`. */
  predicate AgreeOn(a: VerifyRequest, b: VerifyRequest, f: Field)
  {
    match f
    case LineTypeField => a.lineType == b.lineType
    case Brand => a.brand == b.brand
    case From => a.from == b.from
    case WorkflowField => a.workflow == b.workflow
  }

  /** `a` and `b` have the same inherited part and agree on every subclass
      field except possibly `f`. */
  predicate AgreeExcept(a: VerifyRequest, b: VerifyRequest, f: Field)
  {
    a.base == b.base && forall g: Field :: g != f ==> AgreeOn(a, b, g)
  }

  /** `setType`. */
  function SetType(r: VerifyRequest, lineType: Option<LineType>): (r': VerifyRequest)
    ensures r'.lineType == lineType
    ensures AgreeExcept(r, r', LineTypeField)
  {
    r.(lineType := lineType)
  }

  /** `setFrom`: writes the subclass's sender field, never the base one. */
  function SetFrom(r: VerifyRequest, from: Option<string>): (r': VerifyRequest)
    ensures r'.from == from
    ensures AgreeExcept(r, r', From)
  {
    r.(from := from)
  }

  /** `setWorkflow`. */
  function SetWorkflow(r: VerifyRequest, workflow: Option<Workflow>): (r': VerifyRequest)
    ensures r'.workflow == workflow
    ensures AgreeExcept(r, r', WorkflowField)
  {
    r.(workflow := workflow)
  }

  /** One call of a public setter on a `VerifyRequest`: an inherited
      `BaseRequest` setter or one of the subclass's own. There is no setter
      for `brand`. */
  datatype Mutation =
    | Inherited(m: Base.Mutation)
    | SetTypeTo(lineType: Option<LineType>)
    | SetFromTo(from: Option<string>)
    | SetWorkflowTo(workflow: Option<Workflow>)

  /** Performs one setter call. An inherited setter changes only the base part;
      a subclass setter writes its argument into its own field and keeps the
      base part and every other field. */
  function Apply(r: VerifyRequest, m: Mutation): (r': VerifyRequest)
    ensures m.Inherited? ==> r'.base == Base.Apply(r.base, m.m) && forall g: Field :: AgreeOn(r, r', g)
    ensures m.SetTypeTo? ==> r'.lineType == m.lineType && AgreeExcept(r, r', LineTypeField)
    ensures m.SetFromTo? ==> r'.from == m.from && AgreeExcept(r, r', From)
    ensures m.SetWorkflowTo? ==> r'.workflow == m.workflow && AgreeExcept(r, r', WorkflowField)
    ensures r'.base.number == r.base.number && r'.base.from == r.base.from && r'.brand == r.brand
  {
    match m
    case Inherited(bm) => r.(base := Base.Apply(r.base, bm))
    case SetTypeTo(t) => SetType(r, t)
    case SetFromTo(f) => SetFrom(r, f)
    case SetWorkflowTo(w) => SetWorkflow(r, w)
  }

  /** Performs a sequence of setter calls, first to last. Number, brand and the
      base `from` survive any such sequence. */
  function ApplyAll(r: VerifyRequest, ms: seq<Mutation>): (r': VerifyRequest)
    ensures r'.base.number == r.base.number
    ensures r'.brand == r.brand
    ensures r'.base.from == r.base.from
    decreases |ms|
  {
    if ms == [] then r else ApplyAll(Apply(r, ms[0]), ms[1..])
  }

  /** A request built by any constructor keeps its number and brand, and its
      base `from` stays `null`, through any later setter calls. */
  lemma ConstructedRequestInvariant(number: Option<string>, brand: Option<string>, from: Option<string>,
                                    length: Int32, locale: Option<Locale>, lineType: Option<LineType>,
                                    ms: seq<Mutation>)
    ensures ApplyAll(MakeTyped(number, brand, from, length, locale, lineType), ms).base.number == number
    ensures ApplyAll(MakeTyped(number, brand, from, length, locale, lineType), ms).brand == brand
    ensures ApplyAll(MakeTyped(number, brand, from, length, locale, lineType), ms).base.from == None
  {
  }
}
