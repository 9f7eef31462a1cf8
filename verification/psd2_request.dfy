/** `Psd2Request`: a PSD2 payment-confirmation verification request, its two
    constructors, its setter and its own copy of the `Workflow` enumeration. */
module Psd2 {
  import opened Wrappers
  import opened JavaLang
  import Base
  import Verify

  /** `Psd2Request.Workflow`, declared separately from `VerifyRequest.Workflow`
      with the same seven constants in the same order. */
  datatype Workflow = SmsTtsTts | SmsSmsTts | TtsTts | SmsSms | SmsTts | Sms | Tts

  /** `Workflow.getId()`. */
  function WorkflowId(w: Workflow): (id: Int32)
    ensures 1 <= id <= 7
  {
    match w
    case SmsTtsTts => 1
    case SmsSmsTts => 2
    case TtsTts => 3
    case SmsSms => 4
    case SmsTts => 5
    case Sms => 6
    case Tts => 7
  }

  /** The `VerifyRequest.Workflow` constant with the same name. */
  function SameNamedVerifyWorkflow(w: Workflow): Verify.Workflow
  {
    match w
    case SmsTtsTts => Verify.SmsTtsTts
    case SmsSmsTts => Verify.SmsSmsTts
    case TtsTts => Verify.TtsTts
    case SmsSms => Verify.SmsSms
    case SmsTts => Verify.SmsTts
    case Sms => Verify.Sms
    case Tts => Verify.Tts
  }

  /** The `Psd2Request.Workflow` constant with the same name. */
  function SameNamedPsd2Workflow(v: Verify.Workflow): Workflow
  {
    match v
    case SmsTtsTts => SmsTtsTts
    case SmsSmsTts => SmsSmsTts
    case TtsTts => TtsTts
    case SmsSms => SmsSms
    case SmsTts => SmsTts
    case Sms => Sms
    case Tts => Tts
  }

  /** The two enumerations encode alike: matching constants by name is a
      one-to-one correspondence, and each PSD2 workflow has the id of the
      same-named standard workflow. */
  lemma WorkflowIdsMatchVerify()
    ensures forall w: Workflow :: SameNamedPsd2Workflow(SameNamedVerifyWorkflow(w)) == w
    ensures forall v: Verify.Workflow :: SameNamedVerifyWorkflow(SameNamedPsd2Workflow(v)) == v
    ensures forall w: Workflow :: WorkflowId(w) == Verify.WorkflowId(SameNamedVerifyWorkflow(w))
  {
  }

  /** The PSD2 ids, too, are pairwise distinct and cover exactly 1 to 7: every
      id in that range is the id of one PSD2 workflow. */
  lemma WorkflowIdsInjectiveAndOnto()
    ensures forall a: Workflow, b: Workflow :: WorkflowId(a) == WorkflowId(b) ==> a == b
    ensures forall id: Int32 :: 1 <= id <= 7 ==>
              WorkflowId(SameNamedPsd2Workflow(Verify.WorkflowFromId(id).value)) == id
  {
  }

  /** One `Psd2Request` object: the inherited `BaseRequest` part plus the
      payment amount (a `Double`, only stored), the payee and the workflow. */
  datatype Psd2Request = Psd2Request(
    base: Base.BaseRequest,
    amount: Option<real>,
    payee: Option<string>,
    workflow: Option<Workflow>)

  /** `Psd2Request(number, amount, payee)`. Unlike the `VerifyRequest`
      constructors it passes `null`, not `-1`, for the length, and `null` for
      the locale; the workflow is left unset. */
  function Make(number: Option<string>, amount: Option<real>, payee: Option<string>): (r: Psd2Request)
    ensures r.base.number == number && r.amount == amount && r.payee == payee
    ensures r.base.length == None && r.base.locale == None && r.workflow == None
    ensures r.base.country == None && r.base.pinExpiry == None && r.base.nextEventWait == None
    ensures r.base.from == None
  {
    Psd2Request(Base.New(number, None, None), amount, payee, None)
  }

  /** `setWorkflow`: changes the workflow and nothing else. */
  function SetWorkflow(r: Psd2Request, workflow: Option<Workflow>): (r': Psd2Request)
    ensures r'.workflow == workflow
    ensures r'.base == r.base && r'.amount == r.amount && r'.payee == r.payee
  {
    r.(workflow := workflow)
  }

  /** `Psd2Request(number, amount, payee, workflow)`: the three-argument
      constructor followed by `setWorkflow(workflow)`. */
  function MakeWithWorkflow(number: Option<string>, amount: Option<real>, payee: Option<string>,
                            workflow: Option<Workflow>): (r: Psd2Request)
    ensures r.base.number == number && r.amount == amount && r.payee == payee
    ensures r.workflow == workflow
    ensures r.base == Make(number, amount, payee).base
  {
    SetWorkflow(Make(number, amount, payee), workflow)
  }

  /** The two constructors differ only in the workflow. */
  lemma ConstructorsDifferOnlyInWorkflow(number: Option<string>, amount: Option<real>, payee: Option<string>,
                                         workflow: Option<Workflow>)
    ensures MakeWithWorkflow(number, amount, payee, workflow).(workflow := None) == Make(number, amount, payee)
    ensures MakeWithWorkflow(number, amount, payee, None) == Make(number, amount, payee)
  {
  }

  /** One call of a public setter on a `Psd2Request`. There are no setters for
      `amount` and `payee`. */
  datatype Mutation =
    | Inherited(m: Base.Mutation)
    | SetWorkflowTo(workflow: Option<Workflow>)

  /** Performs one setter call. An inherited setter changes only the base part;
      `setWorkflow` only the workflow. */
  function Apply(r: Psd2Request, m: Mutation): (r': Psd2Request)
    ensures m.Inherited? ==> r'.base == Base.Apply(r.base, m.m) && r'.workflow == r.workflow
    ensures m.SetWorkflowTo? ==> r'.base == r.base && r'.workflow == m.workflow
    ensures r'.amount == r.amount && r'.payee == r.payee
  {
    match m
    case Inherited(bm) => r.(base := Base.Apply(r.base, bm))
    case SetWorkflowTo(w) => SetWorkflow(r, w)
  }

  /** Performs a sequence of setter calls, first to last. Number, amount, payee
      and the base `from` survive any such sequence. */
  function ApplyAll(r: Psd2Request, ms: seq<Mutation>): (r': Psd2Request)
    ensures r'.base.number == r.base.number
    ensures r'.amount == r.amount && r'.payee == r.payee
    ensures r'.base.from == r.base.from
    decreases |ms|
  {
    if ms == [] then r else ApplyAll(Apply(r, ms[0]), ms[1..])
  }

  /** A request built by either constructor keeps its number, amount and payee,
      and its base `from` stays `null`, through any later setter calls. */
  lemma ConstructedRequestInvariant(number: Option<string>, amount: Option<real>, payee: Option<string>,
                                    workflow: Option<Workflow>, ms: seq<Mutation>)
    ensures ApplyAll(MakeWithWorkflow(number, amount, payee, workflow), ms).base.number == number
    ensures ApplyAll(MakeWithWorkflow(number, amount, payee, workflow), ms).amount == amount
    ensures ApplyAll(MakeWithWorkflow(number, amount, payee, workflow), ms).payee == payee
    ensures ApplyAll(MakeWithWorkflow(number, amount, payee, workflow), ms).base.from == None
  {
  }

  /** The optional-parameter scenario: a request for 447700900999, 10.31 and
      "Ebony" with workflow SMS, then `setLength(4)`. The length becomes 4;
      number, amount, payee and workflow are untouched, and the workflow is
      sent as id 6. */
  lemma OptionalParametersScenario()
    ensures var r := MakeWithWorkflow(Some("447700900999"), Some(10.31), Some("Ebony"), Some(Sms));
            var r' := Apply(r, Inherited(Base.SetLengthTo(Some(4))));
            && r'.base.length == Some(4)
            && r'.base.number == Some("447700900999")
            && r'.amount == Some(10.31)
            && r'.payee == Some("Ebony")
            && r'.workflow == Some(Sms)
            && WorkflowId(r'.workflow.value) == 6
  {
  }
}
